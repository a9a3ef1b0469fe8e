/** JavaScript string primitives the bot relies on, over Dafny strings.

    `StartsWith` is `String.prototype.startsWith` with a string argument, and
    `Split` is `String.prototype.split` with a one-character separator and no
    limit: every occurrence of the separator ends a field, adjacent separators
    give empty fields, and the empty string splits into one empty field.
    `Join` is `Array.prototype.join` with the same one-character separator and
    serves as the inverse that pins down what `Split` returns.
 */
module Text {

  predicate StartsWith(s: string, prefix: string) {
    |prefix| <= |s| && s[..|prefix|] == prefix
  }

  /** The fields of `s` between occurrences of `sep`, in order. */
  function Split(s: string, sep: char): (fields: seq<string>)
    ensures |fields| >= 1
    ensures forall i :: 0 <= i < |fields| ==> sep !in fields[i]
    decreases |s|
  {
    if |s| == 0 then [""]
    else
      var rest := Split(s[1..], sep);
      if s[0] == sep then [""] + rest
      else [[s[0]] + rest[0]] + rest[1..]
  }

  /** The fields glued back together with `sep` between neighbours. */
  function Join(fields: seq<string>, sep: char): string
    requires |fields| >= 1
    decreases |fields|
  {
    if |fields| == 1 then fields[0]
    else fields[0] + [sep] + Join(fields[1..], sep)
  }

  /** Splitting loses nothing: joining the fields restores the input. */
  lemma {:induction false} JoinSplit(s: string, sep: char)
    ensures Join(Split(s, sep), sep) == s
    decreases |s|
  {
    if |s| > 0 {
      var rest := Split(s[1..], sep);
      JoinSplit(s[1..], sep);
      if s[0] == sep {
        assert Split(s, sep) == [""] + rest;
        assert ([""] + rest)[1..] == rest;
        assert s == [sep] + s[1..];
      } else if |rest| == 1 {
        assert Split(s, sep) == [[s[0]] + rest[0]];
        assert s == [s[0]] + s[1..];
      } else {
        var fields := [[s[0]] + rest[0]] + rest[1..];
        assert Split(s, sep) == fields;
        assert fields[1..] == rest[1..];
        assert Join(rest, sep) == rest[0] + [sep] + Join(rest[1..], sep);
        assert s == [s[0]] + s[1..];
      }
    }
  }

  /** A string without the separator is a single field. */
  lemma {:induction false} SplitWithoutSeparator(s: string, sep: char)
    requires sep !in s
    ensures Split(s, sep) == [s]
    decreases |s|
  {
    if |s| > 0 {
      assert sep !in s[1..] by {
        assert forall i :: 0 <= i < |s[1..]| ==> s[1..][i] == s[i + 1];
      }
      SplitWithoutSeparator(s[1..], sep);
      assert [s[0]] + s[1..] == s;
    }
  }

  /** A separator-free head is peeled off as the first field. */
  lemma {:induction false} SplitAfterField(head: string, sep: char, tail: string)
    requires sep !in head
    ensures Split(head + [sep] + tail, sep) == [head] + Split(tail, sep)
    decreases |head|
  {
    var s := head + [sep] + tail;
    if |head| == 0 {
      assert s[0] == sep && s[1..] == tail;
    } else {
      assert s[0] == head[0] && s[0] != sep;
      assert s[1..] == head[1..] + [sep] + tail;
      assert sep !in head[1..] by {
        assert forall i :: 0 <= i < |head[1..]| ==> head[1..][i] == head[i + 1];
      }
      SplitAfterField(head[1..], sep, tail);
      assert [head[0]] + head[1..] == head;
    }
  }

  /** Splitting is also a left inverse of joining separator-free fields. */
  lemma {:induction false} SplitJoin(fields: seq<string>, sep: char)
    requires |fields| >= 1
    requires forall i :: 0 <= i < |fields| ==> sep !in fields[i]
    ensures Split(Join(fields, sep), sep) == fields
    decreases |fields|
  {
    if |fields| == 1 {
      SplitWithoutSeparator(fields[0], sep);
    } else {
      SplitJoin(fields[1..], sep);
      SplitAfterField(fields[0], sep, Join(fields[1..], sep));
      assert [fields[0]] + fields[1..] == fields;
    }
  }

  /** The first field is the longest separator-free prefix: it is a prefix
      of `s`, and it either is all of `s` or is followed by the separator. */
  lemma {:induction false} FirstField(s: string, sep: char)
    ensures StartsWith(s, Split(s, sep)[0])
    ensures var f := Split(s, sep)[0]; |f| == |s| || s[|f|] == sep
    decreases |s|
  {
    if |s| > 0 && s[0] != sep {
      FirstField(s[1..], sep);
      var r := Split(s[1..], sep)[0];
      assert Split(s, sep)[0] == [s[0]] + r;
      assert s[..|r| + 1] == [s[0]] + s[1..][..|r|];
    }
  }

  /** JavaScript's `s.split(sep)[1]` when `s` begins with a separator-free
      `head` and the separator: the second field is the first field of what
      follows, i.e. it stops at the next separator. */
  lemma SecondField(s: string, head: string, sep: char)
    requires sep !in head
    requires StartsWith(s, head + [sep])
    ensures |Split(s, sep)| >= 2
    ensures Split(s, sep)[1] == Split(s[|head| + 1..], sep)[0]
  {
    var tail := s[|head| + 1..];
    assert s == head + [sep] + tail;
    SplitAfterField(head, sep, tail);
  }
}
