/**
 Shape checks on what peers post: session descriptions, ICE candidates and device hashes.
 Strings stand for byte strings whose characters are single bytes, text being encoded in UTF-8.
 */
module Envelope {
  import opened Wrappers

  datatype SDP = SDP(kind: string, body: string)

  datatype Candidate = Candidate(text: string, mid: string, lineIndex: int, fragment: string)

  datatype Fault =
    | BadKind
    | EmptyBody
    | NotVersionZero
    | EmptyCandidate
    | BadCandidatePrefix
    | BadHash
    | OffererMissing
    | OffererMismatch
    | AnswererIsOfferer
    | AnswererMismatch
    | WrongCandidateCount
    | SessionIdMissing

  // White space is a character of one, two or three bytes.

  predicate Space(c: char) {
    c == ' ' || '\t' <= c <= '\r'
  }

  predicate Space2(c: char, d: char) {
    c == '\U{C2}' && (d == '\U{85}' || d == '\U{A0}')
  }

  predicate Space3(c: char, d: char, e: char) {
    || (c == '\U{E1}' && d == '\U{9A}' && e == '\U{80}')
    || (c == '\U{E2}' && d == '\U{80}' &&
        ('\U{80}' <= e <= '\U{8A}' || e == '\U{A8}' || e == '\U{A9}' || e == '\U{AF}'))
    || (c == '\U{E2}' && d == '\U{81}' && e == '\U{9F}')
    || (c == '\U{E3}' && d == '\U{80}' && e == '\U{80}')
  }

  /** The length of the white-space character in front, or zero. */
  function SpaceAt(s: string): (k: nat)
    ensures k <= |s|
  {
    if s == "" then 0
    else if Space(s[0]) then 1
    else if |s| > 1 && Space2(s[0], s[1]) then 2
    else if |s| > 2 && Space3(s[0], s[1], s[2]) then 3
    else 0
  }

  /** The length of the white-space character at the end, or zero. */
  function SpaceBefore(s: string): (k: nat)
    ensures k <= |s|
  {
    var n := |s|;
    if n == 0 then 0
    else if Space(s[n - 1]) then 1
    else if n > 1 && Space2(s[n - 2], s[n - 1]) then 2
    else if n > 2 && Space3(s[n - 3], s[n - 2], s[n - 1]) then 3
    else 0
  }

  function TrimLeft(s: string): (t: string)
    ensures |t| <= |s|
    decreases |s|
  {
    if SpaceAt(s) > 0 then TrimLeft(s[SpaceAt(s)..]) else s
  }

  function TrimRight(s: string): (t: string)
    ensures |t| <= |s|
    decreases |s|
  {
    if SpaceBefore(s) > 0 then TrimRight(s[..|s| - SpaceBefore(s)]) else s
  }

  function Trim(s: string): string {
    TrimRight(TrimLeft(s))
  }

  predicate Blank(s: string) {
    Trim(s) == ""
  }

  /** The index of the first newline, or the length. */
  function LineEnd(s: string): (n: nat)
    ensures n <= |s|
    ensures n < |s| ==> s[n] == '\n'
    ensures '\n' !in s[..n]
  {
    if s == "" || s[0] == '\n' then 0
    else
      assert s[..1 + LineEnd(s[1..])] == [s[0]] + s[1..][..LineEnd(s[1..])];
      1 + LineEnd(s[1..])
  }

  function FirstNonBlankLine(s: string): string
    decreases |s|
  {
    var n := LineEnd(s);
    var line := Trim(s[..n]);
    if line != "" then line
    else if n == |s| then ""
    else FirstNonBlankLine(s[n + 1..])
  }

  function SDPFault(p: SDP): Option<Fault> {
    if p.kind != "offer" && p.kind != "answer" then Some(BadKind)
    else if Blank(p.body) then Some(EmptyBody)
    else if !("v=0" <= FirstNonBlankLine(p.body)) then Some(NotVersionZero)
    else None
  }

  function CandidateFault(c: Candidate): Option<Fault> {
    if Blank(c.text) then Some(EmptyCandidate)
    else if !("candidate:" <= Trim(c.text)) then Some(BadCandidatePrefix)
    else None
  }

  predicate HashShape(s: string) {
    16 <= |s| <= 64
  }

  // What the line-by-line checks accept, without lines.

  /** White space in front of a beginning of a text is in front of the text. */
  lemma SpaceAtPrefix(s: string, n: nat)
    requires n <= |s| && SpaceAt(s) == 0
    ensures SpaceAt(s[..n]) == 0
  {
  }

  lemma {:induction false} TrimRightKeepsPrefix(s: string)
    requires s != "" && SpaceAt(s) == 0
    ensures TrimRight(s) != "" && TrimRight(s) <= s
    decreases |s|
  {
    var k := SpaceBefore(s);
    if k > 0 {
      assert k < |s|;
      SpaceAtPrefix(s, |s| - k);
      TrimRightKeepsPrefix(s[..|s| - k]);
    }
  }

  lemma {:induction false} TrimLeftSpec(s: string)
    ensures SpaceAt(TrimLeft(s)) == 0
    ensures TrimLeft(s) == s[|s| - |TrimLeft(s)|..]
    decreases |s|
  {
    if SpaceAt(s) > 0 {
      TrimLeftSpec(s[SpaceAt(s)..]);
    }
  }

  lemma {:induction false} BlankHasNoText(s: string)
    ensures Blank(s) <==> TrimLeft(s) == ""
  {
    TrimLeftSpec(s);
    if TrimLeft(s) != "" {
      TrimRightKeepsPrefix(TrimLeft(s));
    }
  }

  /**
   A description is accepted exactly when its kind is known and its first visible text is "v=0"; an
   unknown kind is reported before a text without anything visible, and that before any other beginning.
   */
  lemma {:induction false} SDPAccepted(p: SDP)
    ensures SDPFault(p).None? <==>
              p.kind in {"offer", "answer"} && "v=0" <= TrimLeft(p.body)
    ensures SDPFault(p) == Some(BadKind) <==> p.kind !in {"offer", "answer"}
    ensures SDPFault(p) == Some(EmptyBody) <==> p.kind in {"offer", "answer"} && TrimLeft(p.body) == ""
  {
    FirstLineSeesFirstText(p.body);
    BlankHasNoText(p.body);
  }

  /** A candidate is accepted exactly when its first visible text is "candidate:". */
  lemma {:induction false} CandidateAccepted(c: Candidate)
    ensures CandidateFault(c) ==
      if TrimLeft(c.text) == "" then Some(EmptyCandidate)
      else if "candidate:" <= TrimLeft(c.text) then None
      else Some(BadCandidatePrefix)
  {
    var t := TrimLeft(c.text);
    BlankHasNoText(c.text);
    TrimLeftSpec(c.text);
    hide SpaceAt, TrimLeft, TrimRight, Blank;
    if t != "" {
      TrimRightKeepsPrefix(t);
      if "candidate:" <= t {
        PrefixSurvivesTrim("candidate:", t);
      }
    }
  }

  lemma {:induction false} FirstLineSeesFirstText(s: string)
    ensures "v=0" <= FirstNonBlankLine(s) <==> "v=0" <= TrimLeft(s)
    decreases |s|
  {
    hide SpaceAt, SpaceBefore;
    var n := LineEnd(s);
    var l := s[..n];
    TrimLeftSpec(l);
    TrimLeftOfLine(s, n);
    if TrimLeft(l) != "" {
      var u := TrimLeft(l);
      TrimRightKeepsPrefix(u);
      var tail := s[n..];
      assert TrimLeft(s) == u + tail;
      if "v=0" <= u + tail {
        assert (u + tail)[..3] == "v=0";
        assert forall i | 0 <= i < 3 :: (u + tail)[i] == "v=0"[i] && "v=0"[i] != '\n';
        assert tail == "" || (u + tail)[|u|] == '\n';
        assert |u| >= 3;
        assert u[..3] == "v=0";
        VersionSurvivesTrim(u);
      }
    } else {
      EmptyTrims();
      if n < |s| {
        FirstLineSeesFirstText(s[n + 1..]);
      }
    }
  }

  lemma EmptyTrims()
    ensures TrimRight("") == "" && TrimLeft("") == ""
  {
  }

  lemma {:induction false} PrefixSurvivesTrim(mark: string, u: string)
    requires mark <= u && forall i | 0 <= i < |mark| :: '!' <= mark[i] <= '~'
    ensures mark <= TrimRight(u)
    decreases |u|
  {
    var k := SpaceBefore(u);
    if k > 0 {
      assert forall i | 0 <= i < |mark| :: u[i] == mark[i];
      assert |u| - k >= |mark|;
      assert u[..|u| - k][..|mark|] == u[..|mark|];
      PrefixSurvivesTrim(mark, u[..|u| - k]);
    }
  }

  lemma VersionSurvivesTrim(u: string)
    requires "v=0" <= u
    ensures "v=0" <= TrimRight(u)
  {
    PrefixSurvivesTrim("v=0", u);
  }

  lemma {:induction false} LineEndAfter(s: string, k: nat)
    requires k <= LineEnd(s)
    ensures LineEnd(s[k..]) == LineEnd(s) - k
  {
    if k > 0 {
      LineEndAfter(s[1..], k - 1);
      assert s[1..][k - 1..] == s[k..];
    }
  }

  /** A line starts with the white space the text starts with, as long as it is not over. */
  lemma SpaceAtOfLine(s: string, n: nat)
    requires n == LineEnd(s) && n > 0
    ensures SpaceAt(s[..n]) == SpaceAt(s) <= n
  {
    assert s[..n][0] == s[0] != '\n';
    assert n < |s| ==> s[n] == '\n';
  }

  lemma Slices(s: string, k: nat, n: nat)
    requires k <= n <= |s|
    ensures s[..n][k..] == s[k..][..n - k] && s[k..][n - k..] == s[n..]
    ensures n < |s| ==> s[k..][n - k + 1..] == s[n + 1..]
  {
  }

  lemma NoLine(s: string)
    requires LineEnd(s) == 0
    ensures s != "" ==> TrimLeft(s) == TrimLeft(s[1..])
  {
    assert s != "" ==> SpaceAt(s) == 1;
  }

  lemma {:induction false} TrimLeftOfLine(s: string, n: nat)
    requires n == LineEnd(s)
    ensures TrimLeft(s[..n]) != "" ==> TrimLeft(s) == TrimLeft(s[..n]) + s[n..]
    ensures TrimLeft(s[..n]) == "" && n < |s| ==> TrimLeft(s) == TrimLeft(s[n + 1..])
    ensures TrimLeft(s[..n]) == "" && n == |s| ==> TrimLeft(s) == ""
    decreases |s|
  {
    if n == 0 {
      hide TrimLeft;
      EmptyTrims();
      NoLine(s);
      assert s[..n] == "";
    } else {
      SpaceAtOfLine(s, n);
      hide SpaceAt, LineEnd;
      var k := SpaceAt(s);
      if k > 0 {
        LineEndAfter(s, k);
        TrimLeftOfLine(s[k..], n - k);
        Slices(s, k, n);
      } else {
        assert s == s[..n] + s[n..];
      }
    }
  }
}
