/** The search for pinned tools among the words of a stripped file. */
module ScannerMatch {
  import opened Separated
  import opened Scanner
  import ScannerText

  const SCANNED: set<string> := {
    "jq", "curl", "wget", "openssl", "base64", "sha256sum", "apt-get", "apt", "brew", "pip", "pip3", "npm"
  }

  const META := "|&;<>()\"`"

  predicate IsSep(c: char) {
    c in SPACES || c in META
  }

  /** The index of the first separator, or the length. */
  function WordEnd(s: string): (n: nat)
    ensures n <= |s|
    ensures forall i | 0 <= i < n :: !IsSep(s[i])
    ensures n < |s| ==> IsSep(s[n])
  {
    if s == "" || IsSep(s[0]) then 0 else 1 + WordEnd(s[1..])
  }

  /** The length of the run of separators in front. */
  function GapEnd(s: string): (n: nat)
    ensures n <= |s|
    ensures forall i | 0 <= i < n :: IsSep(s[i])
    ensures n < |s| ==> !IsSep(s[n])
  {
    if s == "" || !IsSep(s[0]) then 0 else 1 + GapEnd(s[1..])
  }

  /** Where the text goes on after its first word and the separators behind it. */
  function Resume(s: string): (cut: nat)
    requires WordEnd(s) < |s|
    ensures WordEnd(s) < cut <= |s|
    ensures forall i | WordEnd(s) <= i < cut :: IsSep(s[i])
  {
    var n := WordEnd(s);
    var m := GapEnd(s[n..]);
    assert forall i | n <= i < n + m :: s[i] == s[n..][i - n];
    assert s[n..][0] == s[n];
    n + m
  }

  /** What a split at runs of separators gives, with empty pieces at the ends. */
  function Pieces(s: string): (ps: seq<string>)
    decreases |s|
  {
    var n := WordEnd(s);
    if n == |s| then [s] else [s[..n]] + Pieces(s[Resume(s)..])
  }

  function Base(token: string): string {
    var parts := Split('/', token);
    parts[|parts| - 1]
  }

  function Hits(pieces: seq<string>, line: nat): seq<(nat, string)> {
    if pieces == [] then []
    else
      (if pieces[0] != "" && Base(pieces[0]) in SCANNED then [(line, Base(pieces[0]))] else [])
      + Hits(pieces[1..], line)
  }

  /** The hits of stripped lines, numbered from `line` on. */
  function Matches(lines: seq<string>, line: nat): seq<(nat, string)> {
    if lines == [] then [] else Hits(Pieces(lines[0]), line) + Matches(lines[1..], line + 1)
  }

  lemma {:induction false} HitsOneMore(pieces: seq<string>, line: nat, i: nat)
    requires i < |pieces|
    ensures Hits(pieces[..i + 1], line) == Hits(pieces[..i], line) +
      if pieces[i] != "" && Base(pieces[i]) in SCANNED then [(line, Base(pieces[i]))] else []
    decreases i
  {
    hide Base;
    if i > 0 {
      HitsOneMore(pieces[1..], line, i - 1);
      assert pieces[..i][1..] == pieces[1..][..i - 1];
      assert pieces[..i + 1][1..] == pieces[1..][..i];
    } else {
      assert pieces[..1][1..] == [];
    }
  }

  lemma {:induction false} MatchesOneMore(lines: seq<string>, line: nat, i: nat)
    requires i < |lines|
    ensures Matches(lines[..i + 1], line) == Matches(lines[..i], line) + Hits(Pieces(lines[i]), line + i)
    decreases i
  {
    hide Pieces, Hits;
    if i > 0 {
      MatchesOneMore(lines[1..], line + 1, i - 1);
      assert lines[..i][1..] == lines[1..][..i - 1];
      assert lines[..i + 1][1..] == lines[1..][..i];
    } else {
      assert lines[..1][1..] == [];
      assert Matches([], line + 1) == [];
    }
  }

  predicate Blank(s: string) {
    forall i | 0 <= i < |s| :: s[i] in SPACES
  }

  lemma BlankHasNoHits(s: string, line: nat)
    requires Blank(s)
    ensures Hits(Pieces(s), line) == []
  {
    if s != "" {
      assert IsSep(s[0]) && WordEnd(s) == 0 && s[0..] == s;
      assert GapEnd(s) == |s|;
      assert s[Resume(s)..] == "";
      assert Pieces(s) == ["", ""];
      assert Hits([""], line) == [];
      assert ["", ""][1..] == [""];
    }
  }

  /** The hits of one line, piece by piece. */
  method MatchLine(stripped: string, lineno: nat) returns (out: seq<(nat, string)>)
    ensures out == Hits(Pieces(stripped), lineno)
  {
    hide Base, Pieces, Blank;
    out := [];
    if Blank(stripped) {
      BlankHasNoHits(stripped, lineno);
      return;
    }
    var tokens := Pieces(stripped);
    for j := 0 to |tokens|
      invariant out == Hits(tokens[..j], lineno)
    {
      HitsOneMore(tokens, lineno, j);
      var tok := tokens[j];
      if tok == "" {
        continue;
      }
      var base := Base(tok);
      if base in SCANNED {
        out := out + [(lineno, base)];
      }
    }
    assert tokens[..|tokens|] == tokens;
  }

  method MatchFile(text: string) returns (out: seq<(nat, string)>)
    ensures out == Matches(StripLines(Split(NL, text), NONE).0, 1)
  {
    hide Line, Hits, Pieces;
    var inC, inPwsh, inXml := false, false, false;
    out := [];
    var lines := Split(NL, text);
    ghost var done: seq<string> := [];
    for i := 0 to |lines|
      invariant |done| == i && (done, Flags(inC, inPwsh, inXml)) == StripLines(lines[..i], NONE)
      invariant out == Matches(done, 1)
    {
      StripOneMore(lines, NONE, i);
      var stripped;
      stripped, inC, inPwsh, inXml := StripCommentsLine(lines[i], inC, inPwsh, inXml);
      ghost var next := done + [stripped];
      MatchesOneMore(next, 1, i);
      assert next[..i] == done && next[..i + 1] == next;
      done := next;
      var found := MatchLine(stripped, i + 1);
      out := out + found;
    }
    assert lines[..|lines|] == lines;
  }

  // What is reported.

  /** A longest stretch without separators. */
  predicate IsWord(s: string, i: int, j: int) {
    && 0 <= i < j <= |s|
    && (forall k | i <= k < j :: !IsSep(s[k]))
    && (i > 0 ==> IsSep(s[i - 1]))
    && (j < |s| ==> IsSep(s[j]))
  }

  ghost predicate HasWord(s: string, w: string) {
    exists i, j :: IsWord(s, i, j) && s[i..j] == w
  }

  lemma LaterWord(s: string, cut: nat, i: int, j: int)
    requires 0 < cut <= |s| && IsSep(s[cut - 1]) && cut <= i
    ensures IsWord(s, i, j) <==> IsWord(s[cut..], i - cut, j - cut)
    ensures IsWord(s, i, j) ==> s[i..j] == s[cut..][i - cut..j - cut]
  {
    hide IsSep;
    var t := s[cut..];
    assert forall k | cut <= k < |s| :: s[k] == t[k - cut];
    if IsWord(t, i - cut, j - cut) {
      assert forall k | i <= k < j :: t[k - cut] == s[k] && !IsSep(t[k - cut]);
    }
    if IsWord(s, i, j) {
      assert forall k | i - cut <= k < j - cut :: t[k] == s[k + cut] && !IsSep(s[k + cut]);
    }
  }

  lemma FirstWord(s: string, i: int, j: int)
    requires IsWord(s, i, j) && i <= WordEnd(s)
    ensures i == 0 && j == WordEnd(s)
  {
    hide IsSep;
  }

  /** A word is the first one or lies behind the separators that end it. */
  lemma WordIsFirstOrLater(s: string, i: int, j: int)
    requires WordEnd(s) < |s| && IsWord(s, i, j)
    ensures (i == 0 && j == WordEnd(s)) || Resume(s) <= i
  {
    hide IsSep, WordEnd, Resume;
    assert !IsSep(s[i]);
    if i <= WordEnd(s) {
      FirstWord(s, i, j);
    }
  }

  lemma WordsLater(s: string, w: string)
    requires WordEnd(s) < |s|
    ensures HasWord(s, w) <==> (w != "" && w == s[..WordEnd(s)]) || HasWord(s[Resume(s)..], w)
  {
    hide IsSep, WordEnd, Resume;
    var n, cut := WordEnd(s), Resume(s);
    assert s[0..n] == s[..n];
    assert n > 0 ==> IsWord(s, 0, n);
    hide IsWord;
    if HasWord(s[cut..], w) {
      var i, j :| IsWord(s[cut..], i, j) && s[cut..][i..j] == w;
      LaterWord(s, cut, i + cut, j + cut);
    }
    if HasWord(s, w) {
      var i, j :| IsWord(s, i, j) && s[i..j] == w;
      WordIsFirstOrLater(s, i, j);
      if cut <= i {
        LaterWord(s, cut, i, j);
      }
    }
  }

  lemma OnlyWord(s: string, w: string)
    requires WordEnd(s) == |s| && w != ""
    ensures HasWord(s, w) <==> w == s
  {
    hide IsSep;
    assert s[0..|s|] == s;
    assert s != "" ==> IsWord(s, 0, |s|);
    if HasWord(s, w) {
      var i, j :| IsWord(s, i, j) && s[i..j] == w;
      FirstWord(s, i, j);
    }
  }

  /** The non-empty pieces of a split are exactly the words. */
  lemma {:induction false} PiecesAreWords(s: string, w: string)
    requires w != ""
    ensures w in Pieces(s) <==> HasWord(s, w)
    decreases |s|
  {
    hide IsSep, HasWord;
    if WordEnd(s) == |s| {
      OnlyWord(s, w);
    } else {
      PiecesAreWords(s[Resume(s)..], w);
      WordsLater(s, w);
    }
  }

  lemma BaseUnfolds(token: string)
    ensures var n := Cut('/', token);
      Base(token) == if n == |token| then token else Base(token[n + 1..])
  {
    SplitStep('/', token);
    hide Split, Cut;
    var n, parts := Cut('/', token), Split('/', token);
    assert |parts| > 1 ==> parts[1..][|parts| - 2] == parts[|parts| - 1];
    assert token[..|token|] == token;
  }

  lemma Nested(token: string, n: nat, dir: string, base: string)
    requires n < |token| && token[n] == '/' && token[n + 1..] == dir + "/" + base
    ensures token == (token[..n] + "/" + dir) + "/" + base
  {
    assert token == token[..n] + "/" + token[n + 1..];
  }

  /** The base of a token is what follows its last slash. */
  lemma {:induction false} BaseIsLast(token: string)
    ensures '/' !in Base(token)
    ensures token == Base(token) || exists dir :: token == dir + "/" + Base(token)
    decreases |token|
  {
    hide Base;
    BaseUnfolds(token);
    var n := Cut('/', token);
    if n == |token| {
      assert token[..n] == token;
    } else {
      var rest := token[n + 1..];
      BaseIsLast(rest);
      if rest != Base(rest) {
        var dir :| rest == dir + "/" + Base(rest);
        Nested(token, n, dir, Base(rest));
      } else {
        assert token == token[..n] + "/" + rest;
      }
    }
  }

  lemma {:induction false} HitsAre(pieces: seq<string>, line: nat, h: (nat, string))
    ensures h in Hits(pieces, line) <==>
      h.0 == line && h.1 in SCANNED && exists w :: w in pieces && w != "" && Base(w) == h.1
  {
    hide Base;
    if pieces != [] {
      HitsAre(pieces[1..], line, h);
      assert pieces[0] in pieces;
      assert forall w | w in pieces :: w == pieces[0] || w in pieces[1..];
    }
  }

  lemma MatchesUnfold(lines: seq<string>, line: nat)
    ensures Matches(lines, line) ==
      if lines == [] then [] else Hits(Pieces(lines[0]), line) + Matches(lines[1..], line + 1)
  {
  }

  lemma HitsHaveTheLine(pieces: seq<string>, line: nat, h: (nat, string))
    ensures h in Hits(pieces, line) ==> h.0 == line
  {
    HitsAre(pieces, line, h);
    hide Hits;
  }

  lemma {:induction false} MatchesAre(lines: seq<string>, line: nat, h: (nat, string))
    ensures h in Matches(lines, line) <==>
      line <= h.0 < line + |lines| && h in Hits(Pieces(lines[h.0 - line]), h.0)
    decreases |lines|
  {
    MatchesUnfold(lines, line);
    hide *;
    if lines != [] {
      MatchesAre(lines[1..], line + 1, h);
      HitsHaveTheLine(Pieces(lines[0]), line, h);
      assert line < h.0 < line + |lines| ==> lines[1..][h.0 - (line + 1)] == lines[h.0 - line];
    }
  }

  ghost predicate Uses(s: string, tool: string) {
    exists w :: w != "" && HasWord(s, w) && Base(w) == tool
  }

  /**
   A tool is reported for a line exactly when it is on the list and is the base of a word of that
   line of the stripped file, and the line has the number it had before stripping.
   */
  lemma ReportsAreUses(text: string, h: (nat, string))
    ensures var lines := Split(NL, StripText(text, NONE).0);
      && |lines| == |Split(NL, text)|
      && (h in Matches(StripLines(Split(NL, text), NONE).0, 1) <==>
           1 <= h.0 <= |lines| && h.1 in SCANNED && Uses(lines[h.0 - 1], h.1))
  {
    hide Line, Base, Hits, Pieces, HasWord;
    ScannerText.LinesStayInPlace(text, NONE);
    var lines := Split(NL, StripText(text, NONE).0);
    MatchesAre(lines, 1, h);
    if 1 <= h.0 <= |lines| {
      var s := lines[h.0 - 1];
      HitsAre(Pieces(s), h.0, h);
      forall w | w != "" ensures w in Pieces(s) <==> HasWord(s, w) {
        PiecesAreWords(s, w);
      }
    }
  }

  predicate Ascending(hs: seq<(nat, string)>) {
    forall i, j | 0 <= i < j < |hs| :: hs[i].0 <= hs[j].0
  }

  /** Reports come in the order of the lines. */
  lemma {:induction false} ReportsAscend(lines: seq<string>, line: nat)
    ensures Ascending(Matches(lines, line))
    decreases |lines|
  {
    hide Hits, Pieces;
    if lines != [] {
      ReportsAscend(lines[1..], line + 1);
      var first, rest := Hits(Pieces(lines[0]), line), Matches(lines[1..], line + 1);
      forall i | 0 <= i < |first| ensures first[i].0 == line {
        HitsAre(Pieces(lines[0]), line, first[i]);
      }
      forall i | 0 <= i < |rest| ensures rest[i].0 > line {
        MatchesAre(lines[1..], line + 1, rest[i]);
      }
    }
  }
}
