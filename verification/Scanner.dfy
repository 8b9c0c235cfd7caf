/** The comment stripper, line by line with three flags, and the search for pinned tools in what is left. */
module Scanner {
  import opened Separated

  /** The characters that Python's `\s` and `strip` take for white space. */
  const SPACES: set<char> := {
    '\t', '\n', '\U{B}', '\U{C}', '\r', '\U{1C}', '\U{1D}', '\U{1E}', '\U{1F}', ' ', '\U{85}', '\U{A0}', '\U{1680}',
    '\U{2000}', '\U{2001}', '\U{2002}', '\U{2003}', '\U{2004}', '\U{2005}', '\U{2006}', '\U{2007}', '\U{2008}',
    '\U{2009}', '\U{200A}', '\U{2028}', '\U{2029}', '\U{202F}', '\U{205F}', '\U{3000}'
  }

  const NL: char := '\n'

  datatype Flags = Flags(c: bool, pwsh: bool, xml: bool)

  const NONE := Flags(false, false, false)

  predicate AtMostOne(f: Flags) {
    !(f.c && f.pwsh) && !(f.c && f.xml) && !(f.pwsh && f.xml)
  }

  /** How much white space a line starts with. */
  function Margin(line: string): (n: nat)
    ensures n <= |line|
    ensures forall i | 0 <= i < n :: line[i] in SPACES
    ensures n < |line| ==> line[n] !in SPACES
  {
    if line == "" || line[0] !in SPACES then 0 else 1 + Margin(line[1..])
  }

  predicate LineComment(line: string) {
    var rest := line[Margin(line)..];
    "#" <= rest || "//" <= rest
  }

  /** One turn at the rest of a line: what it keeps, how far it goes and the flags after it. */
  datatype Turn = Turn(kept: string, used: nat, flags: Flags)

  /** `first` says that the rest is the whole line. */
  function TurnAt(t: string, f: Flags, first: bool): (r: Turn)
    requires t != ""
    ensures 0 < r.used <= |t|
  {
    if f == NONE then
      if "/*" <= t then Turn("", 2, f.(c := true))
      else if "<#" <= t then Turn("", 2, f.(pwsh := true))
      else if "<!--" <= t then Turn("", 4, f.(xml := true))
      else if first && LineComment(t) then Turn(t[..Margin(t)], |t|, f)
      else Turn([t[0]], 1, f)
    else if f.c then
      if "*/" <= t then Turn("", 2, f.(c := false)) else Turn("", 1, f)
    else if f.pwsh then
      if "#>" <= t then Turn("", 2, f.(pwsh := false)) else Turn("", 1, f)
    else
      if "-->" <= t then Turn("", 3, f.(xml := false)) else Turn("", 1, f)
  }

  /** What is kept of the rest of a line, and the flags after it. */
  function Line(t: string, f: Flags, first: bool): (string, Flags)
    decreases |t|
  {
    if t == "" then ("", f)
    else
      var turn := TurnAt(t, f, first);
      var (o, g) := Line(t[turn.used..], turn.flags, false);
      (turn.kept + o, g)
  }

  predicate At(line: string, i: nat, mark: string) {
    i + |mark| <= |line| && line[i..i + |mark|] == mark
  }

  lemma AtIsPrefix(line: string, i: nat, mark: string)
    requires i <= |line|
    ensures At(line, i, mark) <==> mark <= line[i..]
  {
    if At(line, i, mark) {
      assert line[i..][..|mark|] == line[i..i + |mark|];
    }
    if mark <= line[i..] {
      assert line[i..i + |mark|] == line[i..][..|mark|];
    }
  }

  lemma AtAreMarks(line: string, i: nat)
    requires i <= |line|
    ensures forall mark :: At(line, i, mark) <==> mark <= line[i..]
  {
    forall mark ensures At(line, i, mark) <==> mark <= line[i..] {
      AtIsPrefix(line, i, mark);
    }
  }

  /** The invariant of the walk over a line: what is out already and what the rest will give. */
  ghost predicate Soon(line: string, f0: Flags, out: string, i: nat, f: Flags)
  {
    i <= |line| &&
    var (o, g) := Line(line[i..], f, i == 0);
    Line(line, f0, true) == (out + o, g)
  }

  lemma Begins(line: string, f: Flags)
    ensures Soon(line, f, "", 0, f)
  {
    assert line[0..] == line;
    assert Line(line, f, true).0 == "" + Line(line, f, true).0;
  }

  lemma Moves(line: string, f0: Flags, out: string, i: nat, f: Flags)
    requires Soon(line, f0, out, i, f) && i < |line|
    ensures var t := TurnAt(line[i..], f, i == 0);
      Soon(line, f0, out + t.kept, i + t.used, t.flags)
  {
    hide TurnAt;
    var t := TurnAt(line[i..], f, i == 0);
    var o := Line(line[i..][t.used..], t.flags, false).0;
    assert line[i..][t.used..] == line[i + t.used..];
    assert out + (t.kept + o) == (out + t.kept) + o;
  }

  lemma Ends(line: string, f0: Flags, out: string, f: Flags)
    requires Soon(line, f0, out, |line|, f)
    ensures Line(line, f0, true) == (out, f)
  {
    assert line[|line|..] == "";
    assert out + "" == out;
  }

  method StripCommentsLine(line: string, inBlockC: bool, inBlockPwsh: bool, inBlockXml: bool)
    returns (newLine: string, inC: bool, inPwsh: bool, inXml: bool)
    ensures (newLine, Flags(inC, inPwsh, inXml)) == Line(line, Flags(inBlockC, inBlockPwsh, inBlockXml), true)
  {
    hide LineComment, Margin, Line, Soon;
    var out := "";
    inC, inPwsh, inXml := inBlockC, inBlockPwsh, inBlockXml;
    ghost var f0 := Flags(inC, inPwsh, inXml);
    var i := 0;
    Begins(line, f0);
    while i < |line|
      invariant 0 <= i <= |line|
      invariant Soon(line, f0, out, i, Flags(inC, inPwsh, inXml))
    {
      AtAreMarks(line, i);
      Moves(line, f0, out, i, Flags(inC, inPwsh, inXml));
      assert i == 0 ==> line[i..] == line;
      assert out + "" == out;
      if !inC && !inPwsh && !inXml {
        if At(line, i, "/*") {
          inC := true;
          i := i + 2;
          continue;
        }
        if At(line, i, "<#") {
          inPwsh := true;
          i := i + 2;
          continue;
        }
        if At(line, i, "<!--") {
          inXml := true;
          i := i + 4;
          continue;
        }
        if i == 0 && LineComment(line) {
          out := out + line[..Margin(line)];
          i := |line|;
          break;
        }
        out := out + [line[i]];
        i := i + 1;
      } else if inC {
        if At(line, i, "*/") {
          inC := false;
          i := i + 2;
        } else {
          i := i + 1;
        }
      } else if inPwsh {
        if At(line, i, "#>") {
          inPwsh := false;
          i := i + 2;
        } else {
          i := i + 1;
        }
      } else {
        if At(line, i, "-->") {
          inXml := false;
          i := i + 3;
        } else {
          i := i + 1;
        }
      }
    }
    Ends(line, f0, out, Flags(inC, inPwsh, inXml));
    newLine := out;
  }

  /** The lines of a file, each with the flags the one before left. */
  function StripLines(lines: seq<string>, f: Flags): (seq<string>, Flags)
  {
    if lines == [] then ([], f)
    else
      var (o, g) := Line(lines[0], f, true);
      var (os, h) := StripLines(lines[1..], g);
      ([o] + os, h)
  }

  function StripText(text: string, f: Flags): (string, Flags) {
    var (os, g) := StripLines(Split(NL, text), f);
    (Join(NL, os), g)
  }

  lemma StripFirst(line: string, lines: seq<string>, f: Flags)
    ensures var (o, g) := Line(line, f, true);
            var (os, h) := StripLines(lines, g);
      StripLines([line] + lines, f) == ([o] + os, h)
  {
    assert ([line] + lines)[1..] == lines;
  }

  lemma {:induction false} StripOneMore(lines: seq<string>, f: Flags, i: nat)
    requires i < |lines|
    ensures var (os, g) := StripLines(lines[..i], f);
            var (o, h) := Line(lines[i], g, true);
      StripLines(lines[..i + 1], f) == (os + [o], h)
    decreases i
  {
    hide Line;
    if i == 0 {
      assert lines[..1] == [lines[0]] + [] && lines[..0] == [];
      StripFirst(lines[0], [], f);
      assert StripLines(lines[..0], f).0 + [Line(lines[0], f, true).0] == [Line(lines[0], f, true).0] + [];
    } else {
      var (o, g) := Line(lines[0], f, true);
      StripOneMore(lines[1..], g, i - 1);
      StripFirst(lines[0], lines[1..][..i - 1], f);
      StripFirst(lines[0], lines[1..][..i], f);
      assert lines[..i] == [lines[0]] + lines[1..][..i - 1];
      assert lines[..i + 1] == [lines[0]] + lines[1..][..i];
      var (os, h) := StripLines(lines[1..][..i - 1], g);
      assert ([o] + os) + [Line(lines[i], h, true).0] == [o] + (os + [Line(lines[i], h, true).0]);
    }
  }

  method StripFile(text: string) returns (stripped: string, count: nat)
    ensures stripped == StripText(text, NONE).0
    ensures count == |Split(NL, text)|
  {
    hide Line;
    var inC, inPwsh, inXml := false, false, false;
    var outLines: seq<string> := [];
    var lines := Split(NL, text);
    for i := 0 to |lines|
      invariant (outLines, Flags(inC, inPwsh, inXml)) == StripLines(lines[..i], NONE)
      invariant |outLines| == i
    {
      StripOneMore(lines, NONE, i);
      var newLine;
      newLine, inC, inPwsh, inXml := StripCommentsLine(lines[i], inC, inPwsh, inXml);
      outLines := outLines + [newLine];
    }
    assert lines[..|lines|] == lines;
    return Join(NL, outLines), |outLines|;
  }
}
