/** Stripping line by line is one pass over the whole text, by a machine in one of four modes. */
module ScannerText {
  import opened Separated
  import opened Scanner

  datatype Mode = Code | InC | InPwsh | InXml

  function ModeOf(f: Flags): Mode {
    if f.c then InC else if f.pwsh then InPwsh else if f.xml then InXml else Code
  }

  function Opener(m: Mode): string {
    match m
    case Code => ""
    case InC => "/*"
    case InPwsh => "<#"
    case InXml => "<!--"
  }

  function Closer(m: Mode): string {
    match m
    case Code => ""
    case InC => "*/"
    case InPwsh => "#>"
    case InXml => "-->"
  }

  predicate Opens(t: string, m: Mode) {
    m != Code && Opener(m) <= t
  }

  function Front(t: string): string {
    t[..Cut(NL, t)]
  }

  predicate CommentAhead(t: string) {
    LineComment(Front(t))
  }

  /** One step of the machine. The bol flag says that a line starts here. */
  datatype Move = Move(kept: string, used: nat, mode: Mode, bol: bool)

  function Next(t: string, m: Mode, bol: bool): (r: Move)
    requires t != ""
    ensures 0 < r.used <= |t|
  {
    if t[0] == NL then Move([NL], 1, m, true)
    else if m != Code then
      if Closer(m) <= t then Move("", |Closer(m)|, Code, false) else Move("", 1, m, false)
    else if Opens(t, InC) then Move("", 2, InC, false)
    else if Opens(t, InPwsh) then Move("", 2, InPwsh, false)
    else if Opens(t, InXml) then Move("", 4, InXml, false)
    else if bol && CommentAhead(t) then Move(t[..Margin(Front(t))], |Front(t)|, Code, false)
    else Move([t[0]], 1, Code, false)
  }

  function Pass(t: string, m: Mode, bol: bool): (string, Mode)
    decreases |t|
  {
    if t == "" then ("", m)
    else
      var step := Next(t, m, bol);
      var (o, m') := Pass(t[step.used..], step.mode, step.bol);
      (step.kept + o, m')
  }

  // A newline separates the work on what comes before it from the work on what follows.

  lemma MarkAhead(mark: string, a: string, b: string)
    requires NL !in mark
    ensures mark <= a + [NL] + b <==> mark <= a
  {
    var t := a + [NL] + b;
    assert t[|a|] == NL;
    assert mark <= t && |mark| > |a| ==> NL in mark;
    if mark <= t && |mark| <= |a| {
      assert mark == t[..|mark|] == a[..|mark|];
    }
    if mark <= a {
      assert t[..|mark|] == a[..|mark|];
    }
  }

  lemma {:induction false} CutAhead(a: string, b: string)
    ensures Cut(NL, a + [NL] + b) == Cut(NL, a)
    ensures Front(a + [NL] + b) == Front(a)
  {
    if a != "" && a[0] != NL {
      CutAhead(a[1..], b);
      assert (a + [NL] + b)[1..] == a[1..] + [NL] + b;
    }
  }

  lemma PrefixAhead(a: string, b: string, n: nat)
    requires n <= |a|
    ensures (a + [NL] + b)[..n] == a[..n]
  {
  }

  lemma NextAhead(a: string, b: string, m: Mode, bol: bool)
    requires a != ""
    ensures Next(a + [NL] + b, m, bol) == Next(a, m, bol)
  {
    hide LineComment, Margin, Cut, Front;
    var t := a + [NL] + b;
    assert t[0] == a[0];
    MarkAhead("/*", a, b);
    MarkAhead("<#", a, b);
    MarkAhead("<!--", a, b);
    MarkAhead(Closer(m), a, b);
    CutAhead(a, b);
    FrontIsShort(a);
    PrefixAhead(a, b, Margin(Front(a)));
    hide SPACES;
  }

  lemma FrontIsShort(t: string)
    ensures |Front(t)| <= |t|
  {
  }

  lemma Rejoin(kept: string, o: string, p: string)
    ensures kept + (o + [NL] + p) == (kept + o) + [NL] + p
  {
  }

  lemma {:induction false} PassAcrossNewline(a: string, b: string, m: Mode, bol: bool)
    ensures var (o, m') := Pass(a, m, bol);
            var (p, m'') := Pass(b, m', true);
      Pass(a + [NL] + b, m, bol) == (o + [NL] + p, m'')
    decreases |a|
  {
    var t := a + [NL] + b;
    if a == "" {
      assert t == [NL] + b && t[1..] == b;
      assert "" + [NL] + Pass(b, m, true).0 == [NL] + Pass(b, m, true).0;
    } else {
      NextAhead(a, b, m, bol);
      hide Next;
      var step := Next(a, m, bol);
      assert t[step.used..] == a[step.used..] + [NL] + b;
      PassAcrossNewline(a[step.used..], b, step.mode, step.bol);
      var (o, m') := Pass(a[step.used..], step.mode, step.bol);
      Rejoin(step.kept, o, Pass(b, m', true).0);
    }
  }

  // On one line the machine does what the line stripper does.

  lemma FrontOfLine(t: string)
    requires NL !in t
    ensures Front(t) == t
  {
    assert Cut(NL, t) < |t| ==> NL in t;
  }

  lemma TurnIsNext(t: string, f: Flags, first: bool)
    requires t != "" && NL !in t && AtMostOne(f)
    ensures var turn, step := TurnAt(t, f, first), Next(t, ModeOf(f), first);
      && turn.kept == step.kept && turn.used == step.used
      && ModeOf(turn.flags) == step.mode && AtMostOne(turn.flags) && !step.bol
  {
    hide LineComment;
    FrontOfLine(t);
    assert t[0] != NL;
  }

  lemma {:induction false} LineIsPass(t: string, f: Flags, first: bool)
    requires NL !in t && AtMostOne(f)
    ensures var (o, g) := Line(t, f, first);
      Pass(t, ModeOf(f), first) == (o, ModeOf(g)) && AtMostOne(g)
    decreases |t|
  {
    hide TurnAt, Next, ModeOf, AtMostOne;
    if t != "" {
      TurnIsNext(t, f, first);
      var turn := TurnAt(t, f, first);
      LineIsPass(t[turn.used..], turn.flags, false);
    }
  }

  lemma {:induction false} LinesArePass(lines: seq<string>, f: Flags)
    requires lines != [] && AtMostOne(f)
    requires forall l | l in lines :: NL !in l
    ensures var (os, g) := StripLines(lines, f);
      && AtMostOne(g) && |os| == |lines|
      && Pass(Join(NL, lines), ModeOf(f), true) == (Join(NL, os), ModeOf(g))
    decreases |lines|
  {
    hide Line, Pass, ModeOf, AtMostOne;
    var (o, g) := Line(lines[0], f, true);
    LineIsPass(lines[0], f, true);
    if |lines| == 1 {
      assert lines == [lines[0]] + [];
      StripFirst(lines[0], [], f);
      assert StripLines(lines, f).0 == [o];
    } else {
      var rest := lines[1..];
      assert lines == [lines[0]] + rest;
      StripFirst(lines[0], rest, f);
      LinesArePass(rest, g);
      var os := StripLines(rest, g).0;
      assert StripLines(lines, f).0 == [o] + os;
      assert ([o] + os)[1..] == os;
      PassAcrossNewline(lines[0], Join(NL, rest), ModeOf(f), true);
    }
  }

  /** The line-by-line stripper with its three flags is the one-pass machine, and never has two flags set. */
  lemma StripIsOnePass(text: string, f: Flags)
    requires AtMostOne(f)
    ensures var (s, g) := StripText(text, f);
      Pass(text, ModeOf(f), true) == (s, ModeOf(g)) && AtMostOne(g)
  {
    hide Pass, ModeOf, AtMostOne;
    JoinOfSplit(NL, text);
    LinesArePass(Split(NL, text), f);
  }

  lemma ModeIsFlags(f: Flags, g: Flags)
    requires AtMostOne(f) && AtMostOne(g) && ModeOf(f) == ModeOf(g)
    ensures f == g
  {
  }

  /** Stripping two halves of a file one after the other is stripping the file. */
  lemma StripComposes(a: string, b: string, f: Flags)
    requires AtMostOne(f)
    ensures var (s, g) := StripText(a, f);
            var (s', h) := StripText(b, g);
      StripText(a + [NL] + b, f) == (s + [NL] + s', h)
  {
    hide Pass, ModeOf, AtMostOne, StripText;
    StripIsOnePass(a, f);
    var g := StripText(a, f).1;
    StripIsOnePass(b, g);
    StripIsOnePass(a + [NL] + b, f);
    PassAcrossNewline(a, b, ModeOf(f), true);
    ModeIsFlags(StripText(a + [NL] + b, f).1, StripText(b, g).1);
  }

  // What is kept.

  predicate Sub(s: string, t: string)
    decreases |t|
  {
    s == "" || (t != "" && ((s[0] == t[0] && Sub(s[1..], t[1..])) || Sub(s, t[1..])))
  }

  lemma {:induction false} SubOfConcat(p: string, a: string, q: string, b: string)
    requires Sub(p, a) && Sub(q, b)
    ensures Sub(p + q, a + b)
    decreases |a|
  {
    if a == "" {
      assert p + q == q && a + b == b;
    } else {
      assert (a + b)[1..] == a[1..] + b;
      if p == "" {
        SubOfConcat(p, a[1..], q, b);
      } else if p[0] == a[0] && Sub(p[1..], a[1..]) {
        SubOfConcat(p[1..], a[1..], q, b);
        assert (p + q)[1..] == p[1..] + q;
      } else {
        SubOfConcat(p, a[1..], q, b);
      }
    }
  }

  lemma {:induction false} SubOfPrefix(t: string, n: nat)
    requires n <= |t|
    ensures Sub(t[..n], t)
  {
    if n > 0 {
      SubOfPrefix(t[1..], n - 1);
      assert t[..n][1..] == t[1..][..n - 1];
    }
  }

  lemma TurnKeepsSub(t: string, f: Flags, first: bool)
    requires t != ""
    ensures var turn := TurnAt(t, f, first); Sub(turn.kept, t[..turn.used])
  {
    hide LineComment;
    var turn := TurnAt(t, f, first);
    SubOfPrefix(t[..turn.used], |turn.kept|);
    assert turn.kept == t[..turn.used][..|turn.kept|];
  }

  lemma {:induction false} LineIsSub(t: string, f: Flags, first: bool)
    ensures Sub(Line(t, f, first).0, t)
    decreases |t|
  {
    hide TurnAt;
    if t != "" {
      var turn := TurnAt(t, f, first);
      TurnKeepsSub(t, f, first);
      LineIsSub(t[turn.used..], turn.flags, false);
      SubOfConcat(turn.kept, t[..turn.used], Line(t[turn.used..], turn.flags, false).0, t[turn.used..]);
      assert t[..turn.used] + t[turn.used..] == t;
    }
  }

  lemma {:induction false} SubHas(s: string, t: string, c: char)
    requires Sub(s, t)
    ensures c in s ==> c in t
    decreases |t|
  {
    if c in s {
      if s[0] == t[0] && Sub(s[1..], t[1..]) {
        SubHas(s[1..], t[1..], c);
      } else {
        SubHas(s, t[1..], c);
      }
    }
  }

  lemma {:induction false} LinesAreSub(lines: seq<string>, f: Flags)
    ensures var os := StripLines(lines, f).0;
      |os| == |lines| && forall i | 0 <= i < |os| :: Sub(os[i], lines[i])
  {
    hide Line, Sub;
    if lines != [] {
      var (o, g) := Line(lines[0], f, true);
      LineIsSub(lines[0], f, true);
      LinesAreSub(lines[1..], g);
      assert StripLines(lines, f).0 == [o] + StripLines(lines[1..], g).0;
    }
  }

  /** A stripped file has the lines of the file, each with some characters left out, at the same line numbers. */
  lemma LinesStayInPlace(text: string, f: Flags)
    ensures var was, now := Split(NL, text), Split(NL, StripText(text, f).0);
      && now == StripLines(was, f).0 && |now| == |was|
      && forall i | 0 <= i < |now| :: Sub(now[i], was[i])
  {
    hide Line, Sub;
    var was := Split(NL, text);
    var os := StripLines(was, f).0;
    JoinOfSplit(NL, text);
    LinesAreSub(was, f);
    forall l | l in os ensures NL !in l {
      var i :| 0 <= i < |os| && os[i] == l;
      assert was[i] in was;
      SubHas(l, was[i], NL);
    }
    SplitOfJoin(NL, os);
  }

  // When nothing is stripped.

  predicate LineStart(t: string, bol: bool, i: nat)
    requires i < |t|
  {
    if i == 0 then bol else t[i - 1] == NL
  }

  /** Something to strip starts here. */
  predicate Starts(t: string, bol: bool) {
    Opens(t, InC) || Opens(t, InPwsh) || Opens(t, InXml) || (bol && CommentAhead(t))
  }

  predicate Clean(t: string, bol: bool) {
    forall i | 0 <= i < |t| :: !Starts(t[i..], LineStart(t, bol, i))
  }

  lemma CleanUnfolds(t: string, bol: bool)
    requires t != ""
    ensures Clean(t, bol) <==> !Starts(t, bol) && Clean(t[1..], t[0] == NL)
  {
    hide Starts;
    assert t[0..] == t;
    assert forall i | 1 <= i < |t| ::
      t[i..] == t[1..][i - 1..] && LineStart(t, bol, i) == LineStart(t[1..], t[0] == NL, i - 1);
    if !Starts(t, bol) && Clean(t[1..], t[0] == NL) {
      forall i | 0 <= i < |t| ensures !Starts(t[i..], LineStart(t, bol, i)) {
        if i > 0 {
          assert !Starts(t[1..][i - 1..], LineStart(t[1..], t[0] == NL, i - 1));
        }
      }
    }
    if Clean(t, bol) {
      assert !Starts(t[0..], LineStart(t, bol, 0));
      forall i | 0 <= i < |t| - 1 ensures !Starts(t[1..][i..], LineStart(t[1..], t[0] == NL, i)) {
        assert !Starts(t[i + 1..], LineStart(t, bol, i + 1));
      }
    }
  }

  lemma NextKeeps(t: string, m: Mode, bol: bool)
    requires t != ""
    ensures var step := Next(t, m, bol); |step.kept| <= step.used
    ensures m == Code ==>
      var step := Next(t, m, bol);
      if Starts(t, bol) then |step.kept| < step.used else step == Move([t[0]], 1, Code, t[0] == NL)
  {
    var line := Front(t);
    assert line == "" ==> !LineComment(line);
    assert LineComment(line) ==> Margin(line) < |line|;
  }

  lemma {:induction false} PassIsNoLonger(t: string, m: Mode, bol: bool)
    ensures |Pass(t, m, bol).0| <= |t|
    decreases |t|
  {
    hide Next;
    if t != "" {
      var step := Next(t, m, bol);
      NextKeeps(t, m, bol);
      PassIsNoLonger(t[step.used..], step.mode, step.bol);
    }
  }

  lemma {:induction false} CleanIffKept(t: string, bol: bool)
    ensures Pass(t, Code, bol) == (t, Code) <==> Clean(t, bol)
    decreases |t|
  {
    hide Next, Starts, Clean;
    if t == "" {
      assert Clean(t, bol) by { EmptyIsClean(bol); }
    } else {
      var step := Next(t, Code, bol);
      NextKeeps(t, Code, bol);
      CleanUnfolds(t, bol);
      if Starts(t, bol) {
        PassIsNoLonger(t[step.used..], step.mode, step.bol);
      } else {
        CleanIffKept(t[1..], t[0] == NL);
        var (o, m) := Pass(t[1..], Code, t[0] == NL);
        assert [t[0]] + t[1..] == t && ([t[0]] + o)[1..] == o;
      }
    }
  }

  lemma EmptyIsClean(bol: bool)
    ensures Clean("", bol)
  {
  }

  /** A file comes out unchanged exactly when no block opens in it and no line is a comment. */
  lemma UnchangedIffClean(text: string)
    ensures StripText(text, NONE) == (text, NONE) <==> Clean(text, true)
  {
    hide Pass, StripText, Clean;
    StripIsOnePass(text, NONE);
    CleanIffKept(text, true);
    if Pass(text, Code, true) == (text, Code) {
      ModeIsFlags(StripText(text, NONE).1, NONE);
    }
  }

  lemma NothingStarts(c: char, rest: string, bol: bool)
    requires c in "a/*" && (c == '/' ==> rest != "" && rest[0] != '*') && (bol ==> c == 'a')
    ensures !Starts([c] + rest, bol)
  {
    hide SPACES;
    var t := [c] + rest;
    assert t[0] == c && (c == '/' ==> t[1] == rest[0]);
    if c == 'a' {
      assert Front(t)[0] == c;
      assert 'a' !in SPACES by { NoSpace(); }
    }
  }

  lemma NoSpace()
    ensures 'a' !in SPACES
  {
  }

  lemma CodeStays(c: char, rest: string, bol: bool)
    requires c in "a/*" && (c == '/' ==> rest != "" && rest[0] != '*') && (bol ==> c == 'a')
    ensures var (o, m) := Pass(rest, Code, false); Pass([c] + rest, Code, bol) == ([c] + o, m)
  {
    hide Next, Starts;
    var t := [c] + rest;
    NothingStarts(c, rest, bol);
    NextKeeps(t, Code, bol);
    assert t[1..] == rest && t[0] == c;
  }

  lemma BlockOpens(rest: string)
    ensures Pass("/*" + rest, Code, false) == Pass(rest, InC, false)
  {
    var t := "/*" + rest;
    assert t[2..] == rest;
    assert "" + Pass(rest, InC, false).0 == Pass(rest, InC, false).0;
  }

  lemma BlockCloses(rest: string)
    ensures Pass("*/" + rest, InC, false) == Pass(rest, Code, false)
  {
    var t := "*/" + rest;
    assert t[2..] == rest;
    assert "" + Pass(rest, Code, false).0 == Pass(rest, Code, false).0;
  }

  lemma Spelled()
    ensures "*/" + (['*'] + "") == "*/*" && "/*" + "*/*" == "/**/*"
    ensures ['/'] + "/**/*" == "//**/*" && ['a'] + "//**/*" == "a//**/*"
    ensures ['a'] + (['/'] + (['*'] + "")) == "a/*"
  {
  }

  lemma NestedPass()
    ensures Pass("a//**/*", Code, true) == ("a/*", Code)
  {
    assert Pass("", Code, false) == ("", Code);
    hide *;
    Spelled();
    CodeStays('*', "", false);
    BlockCloses(['*'] + "");
    BlockOpens("*/*");
    CodeStays('/', "/**/*", false);
    CodeStays('a', "//**/*", true);
  }

  lemma OpenedPass()
    ensures Pass("a/*", Code, true) == ("a", InC)
  {
    assert Pass("", InC, false) == ("", InC);
    hide *;
    BlockOpens("");
    assert "/*" + "" == "/*";
    CodeStays('a', "/*", true);
    assert ['a'] + "/*" == "a/*" && ['a'] + "" == "a";
  }

  /** Stripping a comment can make a new one, so stripping twice is not stripping once. */
  lemma StrippingTwiceStripsMore()
    ensures StripText("a//**/*", NONE) == ("a/*", NONE)
    ensures StripText("a/*", NONE).0 == "a"
  {
    hide Pass, StripText;
    StripIsOnePass("a//**/*", NONE);
    NestedPass();
    ModeIsFlags(StripText("a//**/*", NONE).1, NONE);
    StripIsOnePass("a/*", NONE);
    OpenedPass();
  }
}
