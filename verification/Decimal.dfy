/** Two hand-written conversions between 64-bit integers and decimal text. */
module Decimal {
  import opened Wrappers

  const MIN := -0x8000_0000_0000_0000
  const MAX := 0x7FFF_FFFF_FFFF_FFFF
  const ATOI_LIMIT := 0x4000_0000

  /** The value a 64-bit register holds after an operation whose exact result is x. */
  function Wrapped(x: int): int {
    (x - MIN) % 0x1_0000_0000_0000_0000 + MIN
  }

  function Digit(d: int): char
    requires 0 <= d < 10
  {
    '0' + d as char
  }

  predicate IsDigit(c: char) {
    '0' <= c <= '9'
  }

  /** The digits of a number, most significant first; none for zero. */
  function Digits(n: nat): string {
    if n == 0 then "" else Digits(n / 10) + [Digit(n % 10)]
  }

  function Text(n: int): string {
    if n == 0 then "0" else if n < 0 then "-" + Digits(-n) else Digits(n)
  }

  function Power10(k: nat): nat {
    if k == 0 then 1 else 10 * Power10(k - 1)
  }

  lemma NineteenDigits()
    ensures Power10(19) == 10_000_000_000_000_000_000
  {
    assert Power10(4) == 10_000;
    assert Power10(8) == 100_000_000;
    assert Power10(12) == 1_000_000_000_000;
    assert Power10(16) == 10_000_000_000_000_000;
  }

  /** The least number comes out as a bare sign. */
  function Printed(number: int): string {
    if number == MIN then "-" else Text(number)
  }

  lemma Negated(n: int)
    requires MIN <= n <= 0
    ensures Wrapped(-n) == if n == MIN then MIN else -n
  {
  }

  /**
   The digits of a positive number, written backwards from the end of the buffer, always leave a byte
   for the sign.
   */
  method FillDigits(buf: array<char>, number: int) returns (i: nat)
    requires buf.Length == 20 && number <= MAX
    modifies buf
    ensures 1 <= i <= 20 && buf[i..] == if number > 0 then Digits(number) else ""
  {
    hide Digit;
    var n := number;
    i := buf.Length;
    NineteenDigits();
    hide Power10;
    while n > 0
      invariant 1 <= i <= 20
      invariant n < Power10(i - 1)
      invariant number > 0 ==> n >= 0 && Digits(number) == Digits(n) + buf[i..]
      invariant number <= 0 ==> n == number && i == 20
    {
      PowerShrinks(n, i - 1);
      i := i - 1;
      ghost var tail := buf[i + 1..];
      buf[i] := Digit(n % 10);
      OneMoreDigit(n, tail);
      assert buf[i..] == [Digit(n % 10)] + tail;
      n := n / 10;
    }
    assert number > 0 ==> Digits(n) + buf[i..] == buf[i..];
  }

  lemma PowerShrinks(n: nat, k: nat)
    requires 0 < n < Power10(k)
    ensures k > 0 && n / 10 < Power10(k - 1)
  {
  }

  lemma OneMoreDigit(n: nat, tail: string)
    requires n > 0
    ensures Digits(n) + tail == Digits(n / 10) + ([Digit(n % 10)] + tail)
  {
    hide Digit;
  }

  /** Prints a number into a buffer of twenty bytes, from its end; the least number has no positive counterpart. */
  method Itoa(number: int) returns (s: string)
    requires MIN <= number <= MAX
    ensures s == Printed(number)
  {
    var n := number;
    if n == 0 {
      return "0";
    }
    var neg := n < 0;
    if neg {
      Negated(n);
      n := Wrapped(-n);
    }
    hide Wrapped, Digits;
    var buf := new char[20](_ => '\0');
    var i := FillDigits(buf, n);
    ghost var digits := buf[i..];
    if neg {
      i := i - 1;
      buf[i] := '-';
      assert buf[i..] == "-" + digits;
    }
    s := buf[i..];
  }

  // Reading.

  datatype Fault = Invalid | Overflow | Empty

  predicate AllDigits(s: string) {
    forall i | 0 <= i < |s| :: IsDigit(s[i])
  }

  function Value(s: string): nat
    requires AllDigits(s)
  {
    if s == "" then 0 else Value(s[..|s| - 1]) * 10 + (s[|s| - 1] - '0') as int
  }

  /** The leading digits. */
  function Leading(s: string): (d: string)
    ensures AllDigits(d) && d <= s
    ensures |d| < |s| ==> !IsDigit(s[|d|])
  {
    if s != "" && IsDigit(s[0]) then [s[0]] + Leading(s[1..]) else ""
  }

  lemma LeadingIs(s: string, d: string)
    requires AllDigits(d) && d <= s && (|d| < |s| ==> !IsDigit(s[|d|]))
    ensures Leading(s) == d
  {
    var l := Leading(s);
    assert |l| == |d|;
    assert l == s[..|l|] == d;
  }

  lemma {:induction false} LongerIsLarger(s: string, i: nat)
    requires AllDigits(s) && i <= |s|
    ensures AllDigits(s[..i]) && Value(s[..i]) <= Value(s)
  {
    if i == |s| {
      assert s[..i] == s;
    } else {
      LongerIsLarger(s[..|s| - 1], i);
      assert s[..|s| - 1][..i] == s[..i];
    }
  }

  /** What a text reads as: its leading digits decide between overflow and a stray byte. */
  function Number(s: string): Result<nat, Fault> {
    if s == "" then Failure(Empty)
    else if Value(Leading(s)) > ATOI_LIMIT then Failure(Overflow)
    else if Leading(s) != s then Failure(Invalid)
    else Success(Value(Leading(s)))
  }

  /** Reads a number, refusing a byte that is no digit or a value over the limit, whichever is met first. */
  method Atoi(s: string) returns (r: Result<nat, Fault>)
    ensures r == Number(s)
  {
    var n := 0;
    var i := 0;
    while i < |s|
      invariant 0 <= i <= |s|
      invariant AllDigits(s[..i]) && n == Value(s[..i]) && n <= ATOI_LIMIT
    {
      var c := s[i];
      if c < '0' || c > '9' {
        LeadingIs(s, s[..i]);
        return Failure(Invalid);
      }
      assert n * 10 + 9 <= MAX;
      n := n * 10 + (c - '0') as int;
      assert s[..i + 1][..i] == s[..i];
      if n > ATOI_LIMIT {
        var l := Leading(s);
        assert i < |l|;
        assert l[..i + 1] == s[..i + 1];
        LongerIsLarger(l, i + 1);
        assert AllDigits(s) ==> l == s by {
          if AllDigits(s) { LeadingIs(s, s); }
        }
        return Failure(Overflow);
      }
      i := i + 1;
    }
    assert s[..i] == s;
    LeadingIs(s, s);
    if |s| == 0 {
      return Failure(Empty);
    }
    return Success(n);
  }

  // The two together.

  lemma {:induction false} ValueOfDigits(n: nat)
    ensures AllDigits(Digits(n)) && Value(Digits(n)) == n
    ensures n > 0 ==> Digits(n) != "" && Digits(n)[0] != '0'
  {
    if n > 0 {
      ValueOfDigits(n / 10);
      assert Digits(n)[..|Digits(n)| - 1] == Digits(n / 10);
    }
  }

  lemma DigitsAreLeading(s: string)
    requires AllDigits(s)
    ensures Leading(s) == s
  {
    LeadingIs(s, s);
  }

  /** A printed number reads back as itself up to the limit; a larger one overflows, a negative one is not read. */
  lemma ReadsWhatWasPrinted(n: int)
    ensures Number(Printed(n)) ==
      if n < 0 then Failure(Invalid) else if n <= 0x4000_0000 then Success(n) else Failure(Overflow)
  {
    if n < 0 {
      assert Printed(n)[0] == '-' && Leading(Printed(n)) == "";
    } else {
      if n > 0 {
        ValueOfDigits(n);
      }
      DigitsAreLeading(Text(n));
      assert Value("0") == 0;
    }
  }

  lemma {:induction false} DigitsOfValue(s: string)
    requires AllDigits(s) && s != "" && s[0] != '0'
    ensures Value(s) > 0 && Digits(Value(s)) == s
  {
    var front, last := s[..|s| - 1], s[|s| - 1];
    if front != "" {
      DigitsOfValue(front);
    }
    assert Value(s) / 10 == Value(front);
    assert s == front + [last];
  }

  /** Printing what was read gives the text back unless it had zeros in front. */
  lemma PrintsWhatWasRead(s: string)
    requires Number(s).Success?
    ensures Printed(Number(s).value) == s <==> s == "0" || s[0] != '0'
  {
    var n := Number(s).value;
    assert AllDigits(s);
    if s[0] != '0' {
      DigitsOfValue(s);
    } else if n > 0 {
      ValueOfDigits(n);
    } else {
      assert Value("0") == 0;
    }
  }

  /** Two 64-bit numbers never print the same. */
  lemma PrintedIsInjective(a: int, b: int)
    requires Printed(a) == Printed(b)
    ensures a == b
  {
    ValueOfDigits(if a < 0 then -a else a);
    ValueOfDigits(if b < 0 then -b else b);
    if a < 0 && a != MIN {
      assert Printed(a)[1..] == Digits(-a);
    }
    if b < 0 && b != MIN {
      assert Printed(b)[1..] == Digits(-b);
    }
  }
}
