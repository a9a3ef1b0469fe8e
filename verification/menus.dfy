/** The two inline keyboards the bot sends (telegram.js:53-81) and the
    command menu it registers at start-up (telegram.js:24-29), as data.

    A keyboard is a sequence of rows, each row a sequence of buttons; both
    keyboards here have exactly one button per row.  The lemmas check the
    menus against the callback decoder: pressing a button selects exactly
    the value its payload names after the prefix.
 */
module Menus {
  import opened Text
  import opened Callback

  datatype Button = Button(text: string, payload: string)

  /** The model identifiers offered by "/models", in their display order. */
  const ModelIds: seq<string> := [
    "gpt-4.1",
    "gpt-4.1-mini",
    "gpt-4o",
    "DeepSeek-V3-0324",
    "Llama-4-Scout-17B-16E-Instruct",
    "Llama-4-Maverick-17B-128E-Instruct-FP8",
    "Phi-4-multimodal-instruct",
    "MAI-DS-R1"
  ]

  /** The temperature values offered by "/temperature", as payload text. */
  const TemperatureValues: seq<string> := ["0.1", "0.3", "0.5", "0.7", "1"]

  /** A model button; its payload is "model:" followed by the id, as in
      "model:gpt-4o". */
  function ModelButton(text: string, id: string): Button {
    Button(text, ModelPrefix + id)
  }

  /** A temperature button; its payload is "temp:" followed by the value. */
  function TemperatureButton(text: string, value: string): Button {
    Button(text, TemperaturePrefix + value)
  }

  const ModelMenu: seq<seq<Button>> := [
    [ModelButton("GPT 4.1", "gpt-4.1")],
    [ModelButton("GPT 4.1 Mini(L)", "gpt-4.1-mini")],
    [ModelButton("GPT 4o", "gpt-4o")],
    [ModelButton("Deepseek v3 0324", "DeepSeek-V3-0324")],
    [ModelButton("Meta 4 Scout", "Llama-4-Scout-17B-16E-Instruct")],
    [ModelButton("Meta 4 Maverick", "Llama-4-Maverick-17B-128E-Instruct-FP8")],
    [ModelButton("Phi 4 Multimodal(L)", "Phi-4-multimodal-instruct")],
    [ModelButton("MAI-DS-R1", "MAI-DS-R1")]
  ]

  const TemperatureMenu: seq<seq<Button>> := [
    [TemperatureButton("最严谨 0.1", "0.1")],
    [TemperatureButton("较严谨 0.3", "0.3")],
    [TemperatureButton("中性 0.5", "0.5")],
    [TemperatureButton("较发散 0.7", "0.7")],
    [TemperatureButton("最发散 1.0", "1")]
  ]

  /** The slash-commands registered with `setMyCommands`, in order. */
  const RegisteredCommands: seq<string> := ["/start", "/stop", "/models", "/temperature"]

  // The three lemmas below state facts about the literals alone; they are
  // split out of ModelMenuSelectsModels and TemperatureMenuSelectsValues so
  // that each proof stays small.

  lemma ModelIdsColonFree()
    ensures forall i :: 0 <= i < |ModelIds| ==> ':' !in ModelIds[i]
  {
  }

  lemma ModelMenuLayout()
    ensures |ModelMenu| == |ModelIds| == 8
    ensures forall i :: 0 <= i < |ModelMenu| ==>
      |ModelMenu[i]| == 1 && ModelMenu[i][0].payload == ModelPrefix + ModelIds[i]
  {
  }

  lemma TemperatureMenuLayout()
    ensures |TemperatureMenu| == |TemperatureValues| == 5
    ensures forall i :: 0 <= i < |TemperatureMenu| ==>
      && |TemperatureMenu[i]| == 1
      && TemperatureMenu[i][0].payload == TemperaturePrefix + TemperatureValues[i]
      && ':' !in TemperatureValues[i]
  {
  }

  /** "/models" offers 8 single-button rows, the i-th carrying payload
      "model:" followed by the i-th model id, and every one of them decodes
      to the selection of that id. */
  lemma ModelMenuSelectsModels()
    ensures |ModelMenu| == |ModelIds| == 8
    ensures forall i :: 0 <= i < |ModelMenu| ==>
      && |ModelMenu[i]| == 1
      && ModelMenu[i][0].payload == ModelPrefix + ModelIds[i]
      && StartsWith(ModelMenu[i][0].payload, ModelPrefix)
      && Decode(ModelMenu[i][0].payload) == ModelChoice(ModelIds[i])
  {
    ModelMenuLayout();
    ModelIdsColonFree();
    forall i | 0 <= i < |ModelMenu|
      ensures StartsWith(ModelMenu[i][0].payload, ModelPrefix)
      ensures Decode(ModelMenu[i][0].payload) == ModelChoice(ModelIds[i])
    {
      DecodeModelPayload(ModelIds[i]);
    }
  }

  /** "/temperature" offers 5 single-button rows whose payloads are, in
      order, temp:0.1, temp:0.3, temp:0.5, temp:0.7 and temp:1, each
      decoding to the selection of its value. */
  lemma TemperatureMenuSelectsValues()
    ensures |TemperatureMenu| == |TemperatureValues| == 5
    ensures forall i :: 0 <= i < |TemperatureMenu| ==>
      && |TemperatureMenu[i]| == 1
      && TemperatureMenu[i][0].payload == TemperaturePrefix + TemperatureValues[i]
      && Decode(TemperatureMenu[i][0].payload) == TemperatureChoice(TemperatureValues[i])
  {
    TemperatureMenuLayout();
    forall i | 0 <= i < |TemperatureMenu|
      ensures Decode(TemperatureMenu[i][0].payload) == TemperatureChoice(TemperatureValues[i])
    {
      DecodeTemperaturePayload(TemperatureValues[i]);
    }
  }

  lemma ModelIdsDistinct()
    ensures forall i, j :: 0 <= i < j < |ModelIds| ==> ModelIds[i] != ModelIds[j]
  {
    // The eight ids all have different lengths.
    var lengths := [7, 12, 6, 16, 30, 38, 25, 9];
    assert forall i :: 0 <= i < |ModelIds| ==> |ModelIds[i]| == lengths[i];
  }

  lemma TemperatureValuesDistinct()
    ensures forall i, j :: 0 <= i < j < |TemperatureValues| ==> TemperatureValues[i] != TemperatureValues[j]
  {
    assert forall i :: 0 <= i < 4 ==> |TemperatureValues[i]| == 3 && TemperatureValues[i][2] == "1357"[i];
    assert |TemperatureValues[4]| == 1;
  }

  /** No two buttons of a menu share a payload, so every selection is
      reached by exactly one button. */
  lemma MenuPayloadsDistinct()
    ensures forall i, j :: 0 <= i < j < |ModelMenu| ==> ModelMenu[i][0].payload != ModelMenu[j][0].payload
    ensures forall i, j :: 0 <= i < j < |TemperatureMenu| ==> TemperatureMenu[i][0].payload != TemperatureMenu[j][0].payload
  {
    ModelMenuSelectsModels();
    TemperatureMenuSelectsValues();
    ModelIdsDistinct();
    TemperatureValuesDistinct();
  }
}
