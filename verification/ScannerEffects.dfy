/** What the scanner does to ordinary lines: comments go, code stays, and each listed tool is found. */
module ScannerEffects {
  import opened Separated
  import opened Scanner
  import opened ScannerMatch

  // Comments.

  /** A line is a comment exactly if a hash sign or two slashes are the first thing on it that is no white space. */
  lemma CommentLines(line: string)
    ensures LineComment(line) <==>
      exists k | 0 <= k <= |line| ::
        ("#" <= line[k..] || "//" <= line[k..]) && forall i | 0 <= i < k :: line[i] in SPACES
  {
    var m := Margin(line);
    hide SPACES;
    if k :| 0 <= k <= |line| && ("#" <= line[k..] || "//" <= line[k..]) && forall i | 0 <= i < k :: line[i] in SPACES {
      assert line[k] == line[k..][0];
      SignsAreNoSpace();
      assert k == m;
    }
  }

  lemma SignsAreNoSpace()
    ensures '#' !in SPACES && '/' !in SPACES && '<' !in SPACES
  {
  }

  lemma {:induction false} MarginOf(margin: string, rest: string)
    requires (forall i | 0 <= i < |margin| :: margin[i] in SPACES) && rest != "" && rest[0] !in SPACES
    ensures Margin(margin + rest) == |margin|
  {
    hide SPACES;
    if margin == "" {
      assert "" + rest == rest;
    } else {
      MarginOf(margin[1..], rest);
      assert (margin + rest)[1..] == margin[1..] + rest;
    }
  }

  /** Of a comment line its margin is kept. */
  lemma CommentLineIsStripped(margin: string, comment: string)
    requires forall i | 0 <= i < |margin| :: margin[i] in SPACES
    requires "#" <= comment || "//" <= comment
    ensures Line(margin + comment, NONE, true) == (margin, NONE)
  {
    SignsAreNoSpace();
    hide SPACES;
    var line := margin + comment;
    assert comment[0] == '#' || (comment[0] == '/' && comment[1] == '/');
    MarginOf(margin, comment);
    assert line[|margin|..] == comment && line[..|margin|] == margin;
    assert line[0] == '#' || line[0] in SPACES || (line[0] == '/' && line[1] == '/');
    assert TurnAt(line, NONE, true) == Turn(margin, |line|, NONE);
    assert line[|line|..] == "";
    assert margin + "" == margin;
  }

  /** The three kinds of blocks: what opens them, what closes them, and the flag in between. */
  predicate Block(opener: string, closer: string, f: Flags) {
    || (opener == "/*" && closer == "*/" && f == Flags(true, false, false))
    || (opener == "<#" && closer == "#>" && f == Flags(false, true, false))
    || (opener == "<!--" && closer == "-->" && f == Flags(false, false, true))
  }

  /** Nothing closes the block before the text is over. */
  predicate StaysOpen(body: string, closer: string) {
    forall i | 0 <= i < |body| :: !(closer <= (body + closer)[i..])
  }

  lemma PrefixOfConcat(mark: string, rest: string, tail: string)
    requires |mark| <= |rest|
    ensures mark <= rest + tail <==> mark <= rest
  {
    assert (rest + tail)[..|mark|] == rest[..|mark|];
  }

  lemma {:induction false} BlockEnds(opener: string, closer: string, f: Flags, body: string, tail: string, first: bool)
    requires Block(opener, closer, f) && StaysOpen(body, closer)
    ensures Line(body + closer + tail, f, first) == Line(tail, NONE, false)
    decreases |body|
  {
    var t := body + closer + tail;
    if body == "" {
      assert t == closer + tail && t[|closer|..] == tail;
      assert closer <= t;
      assert "" + Line(tail, NONE, false).0 == Line(tail, NONE, false).0;
    } else {
      assert (body + closer)[0..] == body + closer;
      PrefixOfConcat(closer, body + closer, tail);
      assert t[1..] == body[1..] + closer + tail;
      forall i | 0 <= i < |body[1..]| ensures !(closer <= (body[1..] + closer)[i..]) {
        assert (body[1..] + closer)[i..] == (body + closer)[i + 1..];
      }
      BlockEnds(opener, closer, f, body[1..], tail, false);
      assert "" + Line(t[1..], f, false).0 == Line(t[1..], f, false).0;
    }
  }

  /** A block goes, with its marks, and the line goes on behind it as code. */
  lemma BlockIsStripped(opener: string, closer: string, f: Flags, body: string, tail: string, first: bool)
    requires Block(opener, closer, f) && StaysOpen(body, closer)
    ensures Line(opener + body + closer + tail, NONE, first) == Line(tail, NONE, false)
  {
    var t := opener + body + closer + tail;
    assert t[|opener|..] == body + closer + tail && t[0] == opener[0] && t[1] == opener[1];
    assert opener <= t;
    BlockEnds(opener, closer, f, body, tail, false);
    assert TurnAt(t, NONE, first) == Turn("", |opener|, f);
    assert "" + Line(tail, NONE, false).0 == Line(tail, NONE, false).0;
  }

  /** A character at which nothing starts is kept. */
  lemma CodeIsKept(c: char, rest: string)
    requires !("/*" <= [c] + rest) && !("<#" <= [c] + rest) && !("<!--" <= [c] + rest)
    ensures Line([c] + rest, NONE, false) == ([c] + Line(rest, NONE, false).0, Line(rest, NONE, false).1)
  {
    assert ([c] + rest)[1..] == rest;
  }

  // Words.

  predicate Between(c: char) {
    c in SPACES || c in {'|', '&', ';', '<', '>', '(', ')', '"', '`'}
  }

  lemma SeparatorsAreThese(c: char)
    ensures IsSep(c) <==> Between(c)
  {
  }

  lemma {:induction false} WordIsWhole(w: string)
    requires forall i | 0 <= i < |w| :: !IsSep(w[i])
    ensures WordEnd(w) == |w|
  {
    hide IsSep;
    if w != "" {
      WordIsWhole(w[1..]);
    }
  }

  lemma {:induction false} WordEndsAt(a: string, c: char, b: string)
    requires (forall i | 0 <= i < |a| :: !IsSep(a[i])) && IsSep(c)
    ensures WordEnd(a + [c] + b) == |a|
  {
    hide IsSep;
    if a != "" {
      WordEndsAt(a[1..], c, b);
      assert (a + [c] + b)[1..] == a[1..] + [c] + b;
    }
  }

  /** White space and nine signs come between words, and nothing else does. */
  lemma WordsAreSplit(a: string, c: char, b: string)
    requires a != "" && b != "" && forall i | 0 <= i < |a| :: !Between(a[i])
    requires forall i | 0 <= i < |b| :: !Between(b[i])
    ensures Pieces(a + [c] + b) == if Between(c) then [a, b] else [a + [c] + b]
  {
    var s := a + [c] + b;
    forall d: char ensures IsSep(d) <==> Between(d) {
      SeparatorsAreThese(d);
    }
    hide IsSep, Between, SPACES, META;
    WordIsWhole(b);
    if IsSep(c) {
      WordEndsAt(a, c, b);
      assert s[|a|..] == [c] + b && s[..|a|] == a;
      assert ([c] + b)[1..] == b;
      assert GapEnd(b) == 0 && GapEnd([c] + b) == 1;
      assert s[|a| + 1..] == b;
    } else {
      WordIsWhole(s);
    }
  }

  lemma BaseBehindOne(front: string, rest: string)
    requires '/' !in front
    ensures Base(front + "/" + rest) == Base(rest)
  {
    var t := front + "/" + rest;
    BaseUnfolds(t);
    CutOfFree('/', front, rest);
    hide Base, Cut;
    assert t == front + ['/'] + rest && t[|front| + 1..] == rest;
  }

  lemma {:induction false} BaseBehind(dir: string, w: string)
    requires '/' !in w
    ensures Base(dir + "/" + w) == w
    decreases |dir|
  {
    var n := Cut('/', dir);
    if n == |dir| {
      assert dir[..n] == dir;
      BaseUnfolds(w);
      CutOfFree('/', w, "");
      hide Base, Cut;
      BaseBehindOne(dir, w);
    } else {
      hide Base, Cut;
      var (front, rest) := (dir[..n], dir[n + 1..]);
      BaseBehindOne(front, rest + "/" + w);
      assert dir == front + "/" + rest;
      assert dir + "/" + w == front + "/" + (rest + "/" + w);
      BaseBehind(rest, w);
    }
  }

  lemma BaseOfBare(w: string)
    requires '/' !in w
    ensures Base(w) == w && forall dir: string :: Base(dir + "/" + w) == w
  {
    BaseUnfolds(w);
    CutOfFree('/', w, "");
    hide Base;
    forall dir: string ensures Base(dir + "/" + w) == w {
      BaseBehind(dir, w);
    }
  }

  /** A word is reported, under any path, exactly if it is one of the twelve tools. */
  lemma ToolsAreReported(dir: string, w: string, line: nat)
    requires w != "" && '/' !in w && forall i | 0 <= i < |w| :: !IsSep(w[i])
    requires forall i | 0 <= i < |dir| :: !IsSep(dir[i])
    ensures var hits :=
        if w in {"jq", "curl", "wget", "openssl", "base64", "sha256sum",
                 "apt-get", "apt", "brew", "pip", "pip3", "npm"}
        then [(line, w)] else [];
      Hits(Pieces(w), line) == hits && Hits(Pieces(dir + "/" + w), line) == hits
  {
    BaseOfBare(w);
    WordIsWhole(w);
    assert !IsSep('/') by { SeparatorsAreThese('/'); SignsAreNoSpace(); }
    WordIsWhole(dir + "/" + w);
    hide IsSep, Base, WordEnd, SPACES;
    assert [w][1..] == [] && [dir + "/" + w][1..] == [];
  }
}
