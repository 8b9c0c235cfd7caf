/** The white space the checks trim is that of Unicode, whether it is found byte by byte or by a table. */
module WhiteSpace {
  import opened Envelope
  import Scanner

  /** The code points with the property White_Space in the Unicode Character Database. */
  const WHITE_SPACE: set<int> := {
    0x09, 0x0A, 0x0B, 0x0C, 0x0D, 0x20, 0x85, 0xA0, 0x1680,
    0x2000, 0x2001, 0x2002, 0x2003, 0x2004, 0x2005, 0x2006, 0x2007, 0x2008, 0x2009, 0x200A,
    0x2028, 0x2029, 0x202F, 0x205F, 0x3000
  }

  /** The bytes of a code point, by section 3 of RFC 3629. */
  function Utf8(c: nat): (s: string)
    requires c < 0x11_0000
    ensures 1 <= |s| <= 4
  {
    if c < 0x80 then [c as char]
    else if c < 0x800 then [(0xC0 + c / 0x40) as char, Trail(c)]
    else if c < 0x1_0000 then [(0xE0 + c / 0x1000) as char, Trail(c / 0x40), Trail(c)]
    else [(0xF0 + c / 0x4_0000) as char, Trail(c / 0x1000), Trail(c / 0x40), Trail(c)]
  }

  function Trail(c: nat): (b: char)
    ensures '\U{80}' <= b <= '\U{BF}'
  {
    (0x80 + c % 0x40) as char
  }

  /** White space in front of a text is a white-space character, whatever follows it. */
  lemma FrontIsWhiteSpace(c: nat, rest: string)
    requires c < 0x11_0000
    ensures SpaceAt(Utf8(c) + rest) == if c in WHITE_SPACE then |Utf8(c)| else 0
  {
  }

  /** And so it is at the end, whatever comes before. */
  lemma EndIsWhiteSpace(before: string, c: nat)
    requires c < 0x11_0000
    ensures SpaceBefore(before + Utf8(c)) == if c in WHITE_SPACE then |Utf8(c)| else 0
  {
  }

  /** The scanner's white space is the same and the four separators of ASCII. */
  lemma ScannerAddsSeparators(c: char)
    ensures c in Scanner.SPACES <==> c as int in WHITE_SPACE || 0x1C <= c as int <= 0x1F
  {
  }
}
