/** Decoding of an inline-keyboard callback payload (telegram.js:97-105).

    A payload that starts with "model:" selects a model, one that starts with
    "temp:" selects a temperature, and anything else selects nothing.  In
    both selecting cases the value is `payload.split(':')[1]`: the text
    between the first and the second colon, not everything after the first.
    The temperature is kept as that raw text; the float `parseFloat` makes
    of it is not modelled.
 */
module Callback {
  import opened Text

  const ModelPrefix := "model:"
  const TemperaturePrefix := "temp:"

  datatype Selection =
    | ModelChoice(name: string)
    | TemperatureChoice(segment: string)
    | NoChoice

  /** `s` is the colon-free text at the start of `rest`, running up to the
      first colon in `rest` or to its end. */
  predicate IsLeadingSegment(s: string, rest: string) {
    StartsWith(rest, s) && ':' !in s && (|s| == |rest| || rest[|s|] == ':')
  }

  function Decode(payload: string): (r: Selection)
    ensures StartsWith(payload, ModelPrefix) <==> r.ModelChoice?
    ensures r.ModelChoice? ==> IsLeadingSegment(r.name, payload[|ModelPrefix|..])
    ensures !StartsWith(payload, ModelPrefix) && StartsWith(payload, TemperaturePrefix) <==> r.TemperatureChoice?
    ensures r.TemperatureChoice? ==> IsLeadingSegment(r.segment, payload[|TemperaturePrefix|..])
  {
    if StartsWith(payload, ModelPrefix) then
      SecondField(payload, "model", ':');
      FirstField(payload[|ModelPrefix|..], ':');
      ModelChoice(Split(payload, ':')[1])
    else if StartsWith(payload, TemperaturePrefix) then
      SecondField(payload, "temp", ':');
      FirstField(payload[|TemperaturePrefix|..], ':');
      TemperatureChoice(Split(payload, ':')[1])
    else
      NoChoice
  }

  /** The leading segment of a string is unique. */
  lemma LeadingSegmentUnique(a: string, b: string, rest: string)
    requires IsLeadingSegment(a, rest) && IsLeadingSegment(b, rest)
    ensures a == b
  {
  }

  /** A model name without a colon survives the round trip through its
      payload unchanged. */
  lemma DecodeModelPayload(name: string)
    requires ':' !in name
    ensures Decode(ModelPrefix + name) == ModelChoice(name)
  {
    var payload := ModelPrefix + name;
    assert payload[|ModelPrefix|..] == name;
    assert StartsWith(payload, ModelPrefix);
    LeadingSegmentUnique(Decode(payload).name, name, name);
  }

  /** The same for a temperature segment without a colon. */
  lemma DecodeTemperaturePayload(segment: string)
    requires ':' !in segment
    ensures Decode(TemperaturePrefix + segment) == TemperatureChoice(segment)
  {
    var payload := TemperaturePrefix + segment;
    assert payload[|TemperaturePrefix|..] == segment;
    assert payload[0] == 't';
    assert StartsWith(payload, TemperaturePrefix) && !StartsWith(payload, ModelPrefix);
    LeadingSegmentUnique(Decode(payload).segment, segment, segment);
  }

  /** A second colon cuts the selected name short: "model:a:b" selects "a". */
  lemma DecodeStopsAtSecondColon(name: string, more: string)
    requires ':' !in name
    ensures Decode(ModelPrefix + name + [':'] + more) == ModelChoice(name)
  {
    var payload := ModelPrefix + name + [':'] + more;
    var rest := payload[|ModelPrefix|..];
    assert rest == name + [':'] + more;
    assert StartsWith(payload, ModelPrefix);
    assert IsLeadingSegment(name, rest);
    LeadingSegmentUnique(Decode(payload).name, name, rest);
  }
}
