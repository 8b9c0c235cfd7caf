/** Text in fields between separators. */
module Separated {
  function Join(sep: char, parts: seq<string>): string {
    if parts == [] then ""
    else if |parts| == 1 then parts[0]
    else parts[0] + [sep] + Join(sep, parts[1..])
  }

  /** The index of the first separator, or the length. */
  function Cut(sep: char, s: string): (n: nat)
    ensures n <= |s| && sep !in s[..n]
    ensures n < |s| ==> s[n] == sep
  {
    if s == "" || s[0] == sep then 0
    else
      assert s[..1 + Cut(sep, s[1..])] == [s[0]] + s[1..][..Cut(sep, s[1..])];
      1 + Cut(sep, s[1..])
  }

  function Split(sep: char, s: string): (parts: seq<string>)
    ensures parts != []
    decreases |s|
  {
    var n := Cut(sep, s);
    if n == |s| then [s] else [s[..n]] + Split(sep, s[n + 1..])
  }

  lemma {:induction false} CutOfFree(sep: char, a: string, rest: string)
    requires sep !in a
    ensures Cut(sep, a + [sep] + rest) == |a| && Cut(sep, a) == |a|
  {
    if a != "" {
      CutOfFree(sep, a[1..], rest);
      assert (a + [sep] + rest)[1..] == a[1..] + [sep] + rest;
    }
  }

  lemma {:induction false} SplitOfJoin(sep: char, parts: seq<string>)
    requires parts != [] && forall p | p in parts :: sep !in p
    ensures Split(sep, Join(sep, parts)) == parts
  {
    if |parts| == 1 {
      CutOfFree(sep, parts[0], "");
    } else {
      var rest := Join(sep, parts[1..]);
      CutOfFree(sep, parts[0], rest);
      assert (parts[0] + [sep] + rest)[|parts[0]| + 1..] == rest;
      assert (parts[0] + [sep] + rest)[..|parts[0]|] == parts[0];
      SplitOfJoin(sep, parts[1..]);
    }
  }

  lemma {:induction false} JoinOfSplit(sep: char, s: string)
    ensures Join(sep, Split(sep, s)) == s
    ensures forall p | p in Split(sep, s) :: sep !in p
    decreases |s|
  {
    var n := Cut(sep, s);
    if n < |s| {
      JoinOfSplit(sep, s[n + 1..]);
      assert s == s[..n] + [sep] + s[n + 1..];
    }
  }

  lemma SplitStep(sep: char, s: string)
    ensures var n, p := Cut(sep, s), Split(sep, s);
      && p[0] == s[..n]
      && (|p| == 1 <==> n == |s|)
      && (n < |s| ==> p[1..] == Split(sep, s[n + 1..]))
      && (|p| == 2 ==> n < |s| && p[1] == s[n + 1..])
      && (n < |s| && s[n + 1..] == "" ==> |p| == 2)
  {
    var n := Cut(sep, s);
    if n < |s| {
      var rest := s[n + 1..];
      assert Split(sep, s) == [s[..n]] + Split(sep, rest);
      if |Split(sep, rest)| == 1 {
        assert Cut(sep, rest) == |rest|;
      }
    }
  }

  lemma SplitOfTail(sep: char, s: string)
    requires s != ""
    ensures var p, q := Split(sep, s), Split(sep, s[1..]);
      if s[0] == sep then p == [""] + q else |p| == |q| && p[1..] == q[1..] && p[0] == [s[0]] + q[0]
  {
    var n := Cut(sep, s);
    if s[0] != sep && n < |s| {
      assert s[1..][n..] == s[n + 1..];
    }
  }

  lemma {:induction false} JoinOfConcat(sep: char, a: seq<string>, b: seq<string>)
    requires a != [] && b != []
    ensures Join(sep, a + b) == Join(sep, a) + [sep] + Join(sep, b)
  {
    assert (a + b)[1..] == a[1..] + b;
    if |a| > 1 {
      JoinOfConcat(sep, a[1..], b);
    }
  }
}
