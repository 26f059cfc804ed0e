/**
  Splitting a string on a one-character separator, as JavaScript's
  `String.prototype.split` does, and the inverse join.
  Splitting never drops empty segments: "" gives [""] and "a." gives ["a", ""].
 */
module Text {

  /** Position of the first `sep` in `s`, or `|s|` when `s` has none. */
  function FirstIndex(s: string, sep: char): (i: nat)
    ensures i <= |s|
    ensures i < |s| ==> s[i] == sep
    ensures forall j :: 0 <= j < i ==> s[j] != sep
  {
    if |s| == 0 then 0
    else if s[0] == sep then 0
    else 1 + FirstIndex(s[1..], sep)
  }

  /** The segments of `s` between occurrences of `sep`, left to right. */
  function Split(s: string, sep: char): (parts: seq<string>)
    ensures |parts| >= 1
    ensures forall k :: 0 <= k < |parts| ==> sep !in parts[k]
    decreases |s|
  {
    var i := FirstIndex(s, sep);
    if i == |s| then [s]
    else [s[..i]] + Split(s[i + 1..], sep)
  }

  /** The segments of `parts` with `sep` between each neighbouring pair. */
  function Join(parts: seq<string>, sep: char): string
  {
    if |parts| == 0 then ""
    else if |parts| == 1 then parts[0]
    else parts[0] + [sep] + Join(parts[1..], sep)
  }

  /** Joining a leading segment onto a non-empty list puts one separator after it. */
  lemma JoinCons(a: string, parts: seq<string>, sep: char)
    requires |parts| >= 1
    ensures Join([a] + parts, sep) == a + [sep] + Join(parts, sep)
  {
    assert ([a] + parts)[1..] == parts;
  }

  /** A split with a separator is the segment before it followed by the split of the rest. */
  lemma SplitStep(s: string, sep: char)
    requires FirstIndex(s, sep) < |s|
    ensures Split(s, sep) == [s[..FirstIndex(s, sep)]] + Split(s[FirstIndex(s, sep) + 1..], sep)
  {
  }

  /** A string is the part before position `i`, the separator at `i`, and the part after. */
  lemma Reassemble(s: string, i: nat, sep: char)
    requires i < |s| && s[i] == sep
    ensures s[..i] + [sep] + s[i + 1..] == s
  {
    assert s == s[..i] + s[i..];
    assert s[i..] == [sep] + s[i + 1..];
  }

  /** Joining the segments of a split gives back the original string. */
  lemma {:induction false} JoinSplit(s: string, sep: char)
    ensures Join(Split(s, sep), sep) == s
    decreases |s|
  {
    var i := FirstIndex(s, sep);
    if i < |s| {
      var rest := s[i + 1..];
      SplitStep(s, sep);
      JoinSplit(rest, sep);
      JoinCons(s[..i], Split(rest, sep), sep);
      Reassemble(s, i, sep);
    } else {
      assert Split(s, sep) == [s];
    }
  }

  /** The first separator of `a + [sep] + t` is the one just after `a` when `a` holds none. */
  lemma FirstIndexAfterSegment(a: string, sep: char, t: string)
    requires sep !in a
    ensures FirstIndex(a + [sep] + t, sep) == |a|
  {
    var s := a + [sep] + t;
    assert s[|a|] == sep;
    assert forall j :: 0 <= j < |a| ==> s[j] == a[j];
  }

  /** Splitting a join gives back the segments, provided none contains the separator. */
  lemma {:induction false} SplitJoin(parts: seq<string>, sep: char)
    requires |parts| >= 1
    requires forall k :: 0 <= k < |parts| ==> sep !in parts[k]
    ensures Split(Join(parts, sep), sep) == parts
    decreases |parts|
  {
    if |parts| == 1 {
      assert FirstIndex(parts[0], sep) == |parts[0]|;
    } else {
      var a := parts[0];
      var t := Join(parts[1..], sep);
      var s := a + [sep] + t;
      assert Join(parts, sep) == s;
      FirstIndexAfterSegment(a, sep, t);
      assert s[..|a|] == a;
      assert s[|a| + 1..] == t;
      SplitJoin(parts[1..], sep);
      assert Split(s, sep) == [a] + parts[1..];
    }
  }

  /** Three segments join to `a`, separator, `b`, separator, `c`. */
  lemma JoinThree(parts: seq<string>, sep: char)
    requires |parts| == 3
    ensures Join(parts, sep) == parts[0] + [sep] + parts[1] + [sep] + parts[2]
  {
    assert parts[1..][1..] == [parts[2]];
    assert Join(parts[1..], sep) == parts[1] + [sep] + parts[2];
  }

  /** The three-segment case used by signed messages: `a.b.c` splits back into `a`, `b` and `c`. */
  lemma SplitThree(a: string, b: string, c: string, sep: char)
    requires sep !in a && sep !in b && sep !in c
    ensures Split(a + [sep] + b + [sep] + c, sep) == [a, b, c]
  {
    var parts := [a, b, c];
    assert parts[1..] == [b, c];
    assert [b, c][1..] == [c];
    assert Join([b, c], sep) == b + [sep] + c;
    assert Join(parts, sep) == a + [sep] + (b + [sep] + c);
    assert a + [sep] + b + [sep] + c == a + [sep] + (b + [sep] + c);
    SplitJoin(parts, sep);
  }
}
