/** The JavaScript string operations the handlers use: `split(',')` and `join(',')`. */
module Strings {

  const Comma: char := ','

  /** `s.split(',')`: the pieces between commas, in order. A string with no comma
      (the empty string included) is one piece; "a,,b" gives "a", "" and "b". */
  function Split(s: string): (r: seq<string>)
    ensures |r| >= 1
    ensures forall i :: 0 <= i < |r| ==> Comma !in r[i]
    decreases |s|
  {
    if s == [] then [""]
    else
      var rest := Split(s[1..]);
      if s[0] == Comma then [""] + rest
      else [[s[0]] + rest[0]] + rest[1..]
  }

  /** `parts.join(',')`: the pieces with a comma between each two; `[].join(',')` is "". */
  function Join(parts: seq<string>): string
    decreases |parts|
  {
    if |parts| == 0 then ""
    else if |parts| == 1 then parts[0]
    else parts[0] + [Comma] + Join(parts[1..])
  }

  /** No piece of the sequence contains a comma. */
  predicate CommaFree(parts: seq<string>)
  {
    forall i :: 0 <= i < |parts| ==> Comma !in parts[i]
  }

  /** Joining the pieces of a split with commas gives back the string that was split. */
  lemma {:induction false} JoinSplit(s: string)
    ensures Join(Split(s)) == s
    decreases |s|
  {
    if s != [] {
      var rest := Split(s[1..]);
      JoinSplit(s[1..]);
      if s[0] == Comma {
        assert Split(s) == [""] + rest;
        assert Join(Split(s)) == "" + [Comma] + Join(rest);
        assert s == [s[0]] + s[1..];
      } else if |rest| == 1 {
        assert Split(s) == [[s[0]] + rest[0]];
        assert s == [s[0]] + s[1..];
      } else {
        var first := [s[0]] + rest[0];
        assert Split(s) == [first] + rest[1..];
        assert ([first] + rest[1..])[1..] == rest[1..];
        assert Join(Split(s)) == first + [Comma] + Join(rest[1..]);
        assert Join(rest) == rest[0] + [Comma] + Join(rest[1..]);
        assert s == [s[0]] + s[1..];
      }
    }
  }

  /** Splitting a comma-free prefix followed by anything extends the first piece. */
  lemma {:induction false} SplitCommaFreePrefix(p: string, s: string)
    requires Comma !in p
    ensures Split(p + s) == [p + Split(s)[0]] + Split(s)[1..]
    decreases |p|
  {
    if p != [] {
      assert (p + s)[1..] == p[1..] + s;
      assert (p + s)[0] == p[0];
      SplitCommaFreePrefix(p[1..], s);
      assert [p[0]] + (p[1..] + Split(s)[0]) == p + Split(s)[0];
    } else {
      var r := Split(s);
      assert p + s == s;
      assert p + r[0] == r[0];
      assert r == [r[0]] + r[1..];
    }
  }

  /** Splitting the comma-join of one or more comma-free pieces gives back the pieces. */
  lemma {:induction false} SplitJoin(parts: seq<string>)
    requires |parts| >= 1
    requires CommaFree(parts)
    ensures Split(Join(parts)) == parts
    decreases |parts|
  {
    if |parts| == 1 {
      SplitCommaFreePrefix(parts[0], "");
      assert parts[0] + "" == parts[0];
    } else {
      var tail := Join(parts[1..]);
      assert CommaFree(parts[1..]) by {
        forall i | 0 <= i < |parts[1..]| ensures Comma !in parts[1..][i] {
          assert parts[1..][i] == parts[i + 1];
        }
      }
      SplitJoin(parts[1..]);
      assert Comma !in parts[0];
      assert Join(parts) == parts[0] + ([Comma] + tail);
      SplitCommaFreePrefix(parts[0], [Comma] + tail);
      assert ([Comma] + tail)[0] == Comma && ([Comma] + tail)[1..] == tail;
      assert Split([Comma] + tail) == [""] + parts[1..];
      assert parts[0] + "" == parts[0];
    }
  }
}
