/** The allow-list of user ids, read once at start-up from a configuration
    string (telegram.js:10) and consulted for every text message
    (telegram.js:41).  The configuration string is split on every comma and
    nothing else: entries are neither trimmed nor parsed, and a chat id is
    admitted when its decimal text equals one of the entries exactly.
 */
module AllowList {
  import opened Text
  import opened Decimal

  /** The entries of the comma-separated configuration value. */
  function Parse(raw: string): (entries: seq<string>)
    ensures |entries| >= 1
    ensures forall i :: 0 <= i < |entries| ==> ',' !in entries[i]
    ensures Join(entries, ',') == raw
  {
    JoinSplit(raw, ',');
    Split(raw, ',')
  }

  /** `allowedUserIds.includes(userId.toString())`. */
  predicate IsAllowed(entries: seq<string>, userId: int) {
    DecimalString(userId) in entries
  }

  /** An id is admitted exactly when some entry is a canonical decimal
      numeral (no sign other than a leading '-', no blanks, no leading
      zeros) whose value is that id. */
  lemma AllowedIff(entries: seq<string>, userId: int)
    ensures IsAllowed(entries, userId) <==>
      exists i :: 0 <= i < |entries| && CanonicalInt(entries[i]) && ParseInt(entries[i]) == userId
  {
    DecimalRoundTrip(userId);
    if i :| 0 <= i < |entries| && CanonicalInt(entries[i]) && ParseInt(entries[i]) == userId {
      DecimalOfParse(entries[i]);
    }
  }

  /** An entry that is not a canonical numeral, such as one carrying the
      blank after a comma in "111, 222", admits nobody. */
  lemma NonCanonicalEntryAdmitsNobody(entries: seq<string>, i: int, userId: int)
    requires 0 <= i < |entries| && !CanonicalInt(entries[i])
    ensures DecimalString(userId) != entries[i]
  {
    DecimalRoundTrip(userId);
  }

  /** An empty configuration value parses to one empty entry and admits nobody. */
  lemma EmptyConfigAdmitsNobody(userId: int)
    ensures Parse("") == [""]
    ensures !IsAllowed(Parse(""), userId)
  {
    DecimalRoundTrip(userId);
  }

  lemma ParseTwoEntries()
    ensures Parse("111, 222") == ["111", " 222"]
  {
    assert "111, 222" == "111" + [','] + " 222";
    SplitAfterField("111", ',', " 222");
    SplitWithoutSeparator(" 222", ',');
  }

  lemma PrintsAs111()
    ensures DecimalString(111) == "111"
  {
    assert NatString(1) == "1";
    assert NatString(11) == "11";
  }

  /** No trimming: with "111, 222" only 111 is admitted; the second entry is
      " 222", which 222 does not print as. */
  lemma BlankAfterCommaIsKept()
    ensures Parse("111, 222") == ["111", " 222"]
    ensures IsAllowed(Parse("111, 222"), 111)
    ensures !IsAllowed(Parse("111, 222"), 222)
  {
    ParseTwoEntries();
    PrintsAs111();
    NonCanonicalEntryAdmitsNobody(["111", " 222"], 1, 222);
    if DecimalString(222) == "111" {
      DecimalStringInjective(222, 111);
    }
  }
}
