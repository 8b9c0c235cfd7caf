/** When stripping a stripped text again changes nothing: where removed blocks leave no seam that reads as a comment. */
module ScannerTwice {
  import opened Separated
  import opened Scanner
  import opened ScannerText

  predicate OpensAny(t: string) {
    Opens(t, InC) || Opens(t, InPwsh) || Opens(t, InXml)
  }

  predicate EndsWith(s: string, mark: string) {
    |mark| <= |s| && s[|s| - |mark|..] == mark
  }

  /** What is kept of a line so far ends in a block opener, or is a line comment. */
  predicate Reveals(kept: string) {
    EndsWith(kept, "/*") || EndsWith(kept, "<#") || EndsWith(kept, "<!--") || LineComment(kept)
  }

  /**
   A check of the text to be stripped, in one walk over it: after a block has touched a line, no
   character kept of that line completes, with those kept before it, a block opener or a line comment.
   `left` is what has been kept of the line, and `seam` says that a block has touched it.
   */
  predicate SeamlessFrom(t: string, m: Mode, bol: bool, left: string, seam: bool)
    decreases |t|
  {
    t != "" ==>
      if t[0] == NL then SeamlessFrom(t[1..], m, true, "", m != Code)
      else
        var step := Next(t, m, bol);
        var kept := left + step.kept;
        && (seam ==> !Reveals(kept))
        && SeamlessFrom(t[step.used..], step.mode, false, kept, seam || m != Code || step.mode != Code)
  }

  predicate Seamless(t: string) {
    SeamlessFrom(t, Code, true, "", false)
  }

  // Facts about openers and line comments.

  predicate Bare(s: string) {
    forall i | 0 <= i < |s| :: !OpensAny(s[i..])
  }

  lemma {:induction false} MarginGrows(a: string, b: string)
    requires Margin(a) < |a|
    ensures Margin(a + b) == Margin(a)
  {
    assert (a + b)[0] == a[0];
    if a[0] in SPACES {
      assert (a + b)[1..] == a[1..] + b;
      MarginGrows(a[1..], b);
    }
  }

  lemma CommentGrows(a: string, b: string)
    requires LineComment(a)
    ensures LineComment(a + b)
  {
    assert Margin(a) < |a|;
    MarginGrows(a, b);
    assert (a + b)[Margin(a)..] == a[Margin(a)..] + b;
    assert "#" <= a[Margin(a)..] ==> "#" <= a[Margin(a)..] + b;
    assert "//" <= a[Margin(a)..] ==> (a[Margin(a)..] + b)[..2] == a[Margin(a)..][..2];
  }

  lemma MarkGrows(mark: string, a: string, b: string)
    requires mark <= a
    ensures mark <= a + b
  {
    assert (a + b)[..|mark|] == a[..|mark|];
  }

  lemma OpensGrows(a: string, b: string)
    requires OpensAny(a)
    ensures OpensAny(a + b)
  {
    if Opens(a, InC) {
      MarkGrows("/*", a, b);
    } else if Opens(a, InPwsh) {
      MarkGrows("<#", a, b);
    } else {
      MarkGrows("<!--", a, b);
    }
  }

  lemma {:induction false} FrontOfConcat(a: string, b: string)
    requires NL !in a
    ensures Front(a + b) == a + Front(b)
  {
    if a == "" {
      assert a + b == b;
    } else {
      assert (a + b)[1..] == a[1..] + b && (a + b)[0] == a[0];
      FrontOfConcat(a[1..], b);
      assert Cut(NL, a + b) == 1 + Cut(NL, a[1..] + b);
      assert (a + b)[..1 + Cut(NL, a[1..] + b)] == [a[0]] + (a[1..] + b)[..Cut(NL, a[1..] + b)];
    }
  }

  lemma OpenerIsSuffix(s: string, c: char, i: nat)
    requires i <= |s| && Bare(s) && OpensAny((s + [c])[i..])
    ensures Reveals(s + [c])
  {
    var t := s + [c];
    assert i < |s| ==> !OpensAny(s[i..]);
    assert t[i..] == s[i..] + [c];
    SuffixOf("/*", s, c, i);
    SuffixOf("<#", s, c, i);
    SuffixOf("<!--", s, c, i);
  }

  lemma SuffixOf(mark: string, s: string, c: char, i: nat)
    requires i <= |s| && mark != ""
    ensures mark <= (s + [c])[i..] && !(mark <= s[i..]) ==> EndsWith(s + [c], mark)
  {
    var t := s + [c];
    assert t[i..] == s[i..] + [c];
    assert |mark| <= |s| - i ==> t[i..][..|mark|] == s[i..][..|mark|];
    if mark <= t[i..] && !(mark <= s[i..]) {
      assert |mark| == |t| - i;
      assert t[|t| - |mark|..] == t[i..];
    }
  }

  lemma SuffixIsOpener(s: string)
    requires Reveals(s)
    ensures LineComment(s) || exists i | 0 <= i < |s| :: OpensAny(s[i..])
  {
    if EndsWith(s, "/*") {
      assert OpensAny(s[|s| - 2..]);
    } else if EndsWith(s, "<#") {
      assert OpensAny(s[|s| - 2..]);
    } else if EndsWith(s, "<!--") {
      assert OpensAny(s[|s| - 4..]);
    }
  }

  // What a clean text looks like, line by line.

  lemma StartsAhead(a: string, b: string, bol: bool)
    requires a != ""
    ensures Starts(a + [NL] + b, bol) == Starts(a, bol)
  {
    MarkAhead("/*", a, b);
    MarkAhead("<#", a, b);
    MarkAhead("<!--", a, b);
    CutAhead(a, b);
  }

  lemma NewlineStartsNothing(b: string, bol: bool)
    ensures !Starts([NL] + b, bol)
  {
    assert Front([NL] + b) == "";
  }

  lemma {:induction false} CleanAcrossNewline(a: string, b: string, bol: bool)
    ensures Clean(a + [NL] + b, bol) <==> Clean(a, bol) && Clean(b, true)
    decreases |a|
  {
    var t := a + [NL] + b;
    CleanUnfolds(t, bol);
    if a == "" {
      EmptyIsClean(bol);
      assert t == [NL] + b && t[1..] == b;
      NewlineStartsNothing(b, bol);
    } else {
      StartsAhead(a, b, bol);
      CleanUnfolds(a, bol);
      assert t[1..] == a[1..] + [NL] + b && t[0] == a[0];
      CleanAcrossNewline(a[1..], b, a[0] == NL);
    }
  }

  lemma BareLineIsClean(s: string)
    requires NL !in s && Bare(s) && !LineComment(s)
    ensures Clean(s, true)
  {
    FrontOfLine(s);
    assert s[0..] == s;
    forall i | 0 <= i < |s| ensures !Starts(s[i..], LineStart(s, true, i)) {
      assert !OpensAny(s[i..]);
      assert i > 0 ==> s[i - 1] in s;
    }
  }

  lemma RevealedIsNotClean(a: string, b: string)
    requires NL !in a && Reveals(a)
    ensures !Clean(a + b, true)
  {
    var t := a + b;
    SuffixIsOpener(a);
    if LineComment(a) {
      FrontOfConcat(a, b);
      CommentGrows(a, Front(b));
      assert t[0..] == t && t != "";
      assert Starts(t[0..], LineStart(t, true, 0));
    } else {
      var i :| 0 <= i < |a| && OpensAny(a[i..]);
      assert t[i..] == a[i..] + b;
      OpensGrows(a[i..], b);
      assert Starts(t[i..], LineStart(t, true, i));
    }
  }

  // The walk, with what it knows of the line it is on.

  /** No opener starts in the part of the line already kept, reading on into the rest of the text. */
  predicate Whole(left: string, t: string) {
    forall i | 0 <= i < |left| :: !OpensAny((left + t)[i..])
  }

  predicate Midway(t: string, m: Mode, bol: bool, left: string, seam: bool) {
    && NL !in left && Bare(left) && !LineComment(left)
    && (bol ==> left == "" && (m == Code ==> !seam))
    && (!seam ==> m == Code && Whole(left, t) && (bol || !LineComment(left + Front(t))))
  }

  lemma BareOfWhole(left: string, t: string)
    requires Whole(left, t)
    ensures Bare(left)
  {
    forall i | 0 <= i < |left| ensures !OpensAny(left[i..]) {
      assert (left + t)[i..] == left[i..] + t;
      if OpensAny(left[i..]) {
        OpensGrows(left[i..], t);
      }
    }
  }

  lemma Shift(left: string, t: string)
    requires t != ""
    ensures (left + [t[0]]) + t[1..] == left + t
  {
  }

  /** Keeping the next character of a line no block has touched yet. */
  lemma KeepOnWholeLine(t: string, bol: bool, left: string)
    requires t != "" && t[0] != NL && !Starts(t, bol)
    requires Midway(t, Code, bol, left, false)
    ensures Midway(t[1..], Code, false, left + [t[0]], false)
  {
    var kept := left + [t[0]];
    Shift(left, t);
    forall i | 0 <= i < |kept| ensures !OpensAny((kept + t[1..])[i..]) {
      assert i == |left| ==> (left + t)[i..] == t;
    }
    BareOfWhole(kept, t[1..]);
    FrontOfConcat([t[0]], t[1..]);
    assert [t[0]] + t[1..] == t;
    assert kept + Front(t[1..]) == left + Front(t);
    assert bol ==> left + Front(t) == Front(t);
    if LineComment(kept) {
      CommentGrows(kept, Front(t[1..]));
    }
  }

  /** Keeping the next character behind a seam, where it reveals nothing. */
  lemma KeepBehindSeam(t: string, left: string)
    requires t != "" && t[0] != NL
    requires Midway(t, Code, false, left, true) && !Reveals(left + [t[0]])
    ensures Midway(t[1..], Code, false, left + [t[0]], true)
  {
    forall i | 0 <= i < |left| + 1 ensures !OpensAny((left + [t[0]])[i..]) {
      if OpensAny((left + [t[0]])[i..]) {
        OpenerIsSuffix(left, t[0], i);
      }
    }
  }

  /** Passing over part of a block, or into one. */
  lemma SkipIsMidway(t: string, m: Mode, bol: bool, left: string, seam: bool, rest: string, m': Mode)
    requires Midway(t, m, bol, left, seam)
    ensures Midway(rest, m', false, left, true)
  {
  }

  lemma CommentIsMidway(t: string)
    requires CommentAhead(t) && t != "" && t[0] != NL
    ensures Midway(t[|Front(t)|..], Code, false, t[..Margin(Front(t))], false)
  {
    var line := Front(t);
    var kept, rest := t[..Margin(line)], t[|line|..];
    assert kept == line[..Margin(line)];
    AllSpaces(kept);
    assert Front(rest) == "";
    assert kept + "" == kept;
    forall i | 0 <= i < |kept| ensures !OpensAny((kept + rest)[i..]) {
      assert (kept + rest)[i..][0] == line[i];
      assert line[i] in SPACES;
      SpaceOpensNothing((kept + rest)[i..]);
    }
    BareOfWhole(kept, rest);
  }

  lemma SpaceOpensNothing(t: string)
    requires t != "" && t[0] in SPACES
    ensures !OpensAny(t)
  {
    assert '/' !in SPACES && '<' !in SPACES;
  }

  lemma {:induction false} AllSpaces(s: string)
    requires forall i | 0 <= i < |s| :: s[i] in SPACES
    ensures Margin(s) == |s| && !LineComment(s)
  {
    if s != "" {
      AllSpaces(s[1..]);
    }
  }

  lemma LineStartIsMidway(t: string, m: Mode)
    ensures Midway(t, m, true, "", m != Code)
  {
    assert !LineComment("");
  }

  lemma ThreeParts(left: string, kept: string, rest: string)
    ensures left + (kept + rest) == (left + kept) + rest
  {
  }

  /** One step that is not over a newline, in a walk that stays midway. */
  lemma StepStaysMidway(t: string, m: Mode, bol: bool, left: string, seam: bool)
    requires t != "" && t[0] != NL && Midway(t, m, bol, left, seam)
    ensures var step := Next(t, m, bol);
      var kept, cut := left + step.kept, seam || m != Code || step.mode != Code;
      && !step.bol && NL !in kept
      && (!seam || !Reveals(kept) ==> Midway(t[step.used..], step.mode, false, kept, cut))
  {
    hide LineComment, Front, Bare, Whole, Reveals;
    var step := Next(t, m, bol);
    assert left + "" == left;
    if m == Code && Starts(t, bol) && !OpensAny(t) {
      CommentIsMidway(t);
      assert "" + step.kept == step.kept;
    } else if m != Code || OpensAny(t) {
      SkipIsMidway(t, m, bol, left, seam, t[step.used..], step.mode);
    } else {
      assert step.kept == [t[0]] && step.used == 1;
      if seam {
        if !Reveals(left + [t[0]]) {
          KeepBehindSeam(t, left);
        }
      } else {
        KeepOnWholeLine(t, bol, left);
      }
    }
  }

  lemma {:induction false} SeamlessIffClean(t: string, m: Mode, bol: bool, left: string, seam: bool)
    requires Midway(t, m, bol, left, seam)
    ensures SeamlessFrom(t, m, bol, left, seam) <==> Clean(left + Pass(t, m, bol).0, true)
    decreases |t|
  {
    hide Next, Clean, Reveals, Midway;
    assert NL !in left && Bare(left) && !LineComment(left) by { MidwayLine(t, m, bol, left, seam); }
    hide Bare, LineComment;
    if t == "" {
      assert left + "" == left;
      BareLineIsClean(left);
    } else if t[0] == NL {
      var s := Pass(t[1..], m, true).0;
      NewlineIsKept(t, m, bol);
      assert left + ([NL] + s) == left + [NL] + s;
      CleanAcrossNewline(left, s, true);
      BareLineIsClean(left);
      LineStartIsMidway(t[1..], m);
      SeamlessIffClean(t[1..], m, true, "", m != Code);
      assert "" + s == s;
    } else {
      var step := Next(t, m, bol);
      var kept, rest := left + step.kept, Pass(t[step.used..], step.mode, false).0;
      StepStaysMidway(t, m, bol, left, seam);
      ThreeParts(left, step.kept, rest);
      if seam && Reveals(kept) {
        RevealedIsNotClean(kept, rest);
      } else {
        SeamlessIffClean(t[step.used..], step.mode, false, kept, seam || m != Code || step.mode != Code);
      }
    }
  }

  lemma MidwayLine(t: string, m: Mode, bol: bool, left: string, seam: bool)
    requires Midway(t, m, bol, left, seam)
    ensures NL !in left && Bare(left) && !LineComment(left)
  {
  }

  lemma NewlineIsKept(t: string, m: Mode, bol: bool)
    requires t != "" && t[0] == NL
    ensures Next(t, m, bol) == Move([NL], 1, m, true)
  {
  }

  /** The stripped text is clean exactly when the text is seamless. */
  lemma StrippedIsCleanIffSeamless(text: string)
    ensures Seamless(text) <==> Clean(StripText(text, NONE).0, true)
  {
    hide SeamlessFrom, Pass, StripText, Clean;
    StripIsOnePass(text, NONE);
    LineStartIsMidway(text, Code);
    SeamlessIffClean(text, Code, true, "", false);
    assert "" + Pass(text, Code, true).0 == Pass(text, Code, true).0;
  }

  lemma {:induction false} KeptTextIsClean(t: string, bol: bool)
    requires Pass(t, Code, bol).0 == t
    ensures Clean(t, bol)
    decreases |t|
  {
    hide Next, Starts, Clean;
    if t == "" {
      EmptyIsClean(bol);
    } else {
      var step := Next(t, Code, bol);
      NextKeeps(t, Code, bol);
      CleanUnfolds(t, bol);
      PassIsNoLonger(t[step.used..], step.mode, step.bol);
      if !Starts(t, bol) {
        assert ([t[0]] + Pass(t[1..], Code, t[0] == NL).0)[1..] == Pass(t[1..], Code, t[0] == NL).0;
        KeptTextIsClean(t[1..], t[0] == NL);
      }
    }
  }

  /** Stripping a stripped text again changes nothing exactly when the text is seamless. */
  lemma StrippingTwiceIsOnceIffSeamless(text: string)
    ensures var once := StripText(text, NONE).0;
      StripText(once, NONE).0 == once <==> Seamless(text)
  {
    hide Pass, StripText, Clean, Seamless;
    var once := StripText(text, NONE).0;
    StrippedIsCleanIffSeamless(text);
    StripIsOnePass(once, NONE);
    CleanIffKept(once, true);
    if Pass(once, Code, true).0 == once {
      KeptTextIsClean(once, true);
    }
  }

  // Texts without blocks.

  predicate NoBlocks(t: string) {
    forall i | 0 <= i < |t| :: !OpensAny(t[i..])
  }

  lemma {:induction false} NoBlocksNoSeams(t: string, bol: bool, left: string)
    requires NoBlocks(t)
    ensures SeamlessFrom(t, Code, bol, left, false)
    decreases |t|
  {
    hide CommentAhead, Front, Margin, OpensAny;
    if t != "" {
      assert t[0..] == t && !OpensAny(t);
      var step := Next(t, Code, bol);
      NextStaysInCode(t, bol);
      forall i | 0 <= i < |t| - step.used ensures !OpensAny(t[step.used..][i..]) {
        assert t[step.used..][i..] == t[i + step.used..];
      }
      if t[0] == NL {
        NewlineIsKept(t, Code, bol);
        NoBlocksNoSeams(t[1..], true, "");
      } else {
        NoBlocksNoSeams(t[step.used..], false, left + step.kept);
      }
    }
  }

  lemma NextStaysInCode(t: string, bol: bool)
    requires t != "" && !OpensAny(t)
    ensures Next(t, Code, bol).mode == Code
  {
  }

  /** So where no block opens, however many lines are comments, once is enough. */
  lemma WithoutBlocksOnceIsEnough(text: string)
    requires NoBlocks(text)
    ensures var once := StripText(text, NONE).0; StripText(once, NONE).0 == once
  {
    NoBlocksNoSeams(text, true, "");
    StrippingTwiceIsOnceIffSeamless(text);
  }

  lemma HashReveals()
    ensures LineComment("" + "#") && Reveals("" + "#")
  {
    assert "" + "#" == "#";
    assert '#' !in SPACES;
    assert "#"[Margin("#")..] == "#";
  }

  /** The other kind of seam: a comment sign behind a block starts no comment, until the block is gone. */
  lemma SignBehindBlockIsStrippedLater()
    ensures var once := StripText("/**/#", NONE).0; StripText(once, NONE).0 != once
  {
    var t, u := "/**/#", "*/#";
    assert Next(t, Code, true) == Move("", 2, InC, false) && t[2..] == u;
    assert Next(u, InC, false) == Move("", 2, Code, false) && u[2..] == "#";
    assert Next("#", Code, false) == Move("#", 1, Code, false) by {
      assert !OpensAny("#");
    }
    HashReveals();
    hide Next, Reveals;
    assert "" + "" == "";
    assert !SeamlessFrom("#", Code, false, "", true);
    assert !SeamlessFrom(u, InC, false, "", true);
    StrippingTwiceIsOnceIffSeamless(t);
  }
}
