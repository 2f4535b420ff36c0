/** Length-prefixed framing of text lists, in hexadecimal and in decimal, and why
    different lists never share an encoding. Text stands for its bytes. */
module Framing {

  const MAX_FRAMED := 0x1_0000_0000

  function DigitChar(d: nat): char
    requires d < 16
  {
    "0123456789abcdef"[d]
  }

  lemma DigitCharIsInjective(a: nat, b: nat)
    requires a < 16 && b < 16 && DigitChar(a) == DigitChar(b)
    ensures a == b
  {
  }

  lemma DigitCharIsNoSeparator(d: nat)
    requires d < 16
    ensures DigitChar(d) != ':' && DigitChar(d) != '-'
  {
  }

  // ----------------------------------------------------------------- numerals

  /** The two bases the source prints in. */
  predicate Base(base: nat) {
    base == 10 || base == 16
  }

  /** All but the last digit of a number. */
  function Leading(n: nat, base: nat): (q: nat)
    requires Base(base)
    ensures if n < base then q == 0 else q < n
  {
    if base == 10 then n / 10 else n / 16
  }

  function LastDigit(n: nat, base: nat): (d: nat)
    requires Base(base)
    ensures d < base
  {
    if base == 10 then n % 10 else n % 16
  }

  lemma DigitsDecide(a: nat, b: nat, base: nat)
    requires Base(base) && Leading(a, base) == Leading(b, base) && LastDigit(a, base) == LastDigit(b, base)
    ensures a == b
  {
  }

  /** The shortest numeral of a number, most significant digit first. */
  function Numeral(n: nat, base: nat): (s: string)
    requires Base(base)
    ensures |s| >= 1
    ensures ':' !in s && '-' !in s
    decreases n
  {
    DigitCharIsNoSeparator(LastDigit(n, base));
    if n < base then [DigitChar(LastDigit(n, base))]
    else Numeral(Leading(n, base), base) + [DigitChar(LastDigit(n, base))]
  }

  lemma NumeralParts(n: nat, base: nat)
    requires Base(base)
    ensures var s := Numeral(n, base);
            && s[|s| - 1] == DigitChar(LastDigit(n, base))
            && (|s| == 1 <==> n < base)
            && (n >= base ==> s[..|s| - 1] == Numeral(Leading(n, base), base))
            && (n < base ==> Leading(n, base) == 0)
  {
    hide DigitChar, Leading, LastDigit;
  }

  lemma {:induction false} NumeralIsInjective(a: nat, b: nat, base: nat)
    requires Base(base) && Numeral(a, base) == Numeral(b, base)
    ensures a == b
    decreases a
  {
    hide DigitChar, Numeral, Leading, LastDigit;
    NumeralParts(a, base);
    NumeralParts(b, base);
    DigitCharIsInjective(LastDigit(a, base), LastDigit(b, base));
    if a >= base {
      NumeralIsInjective(Leading(a, base), Leading(b, base), base);
    }
    DigitsDecide(a, b, base);
  }

  /** Exactly `width` hexadecimal digits, padded with zeros. */
  function FixedHex(n: nat, width: nat): (s: string)
    ensures |s| == width
  {
    if width == 0 then "" else FixedHex(n / 16, width - 1) + [DigitChar(n % 16)]
  }

  function Power16(width: nat): nat {
    if width == 0 then 1 else 16 * Power16(width - 1)
  }

  lemma {:induction false} FixedHexIsInjective(a: nat, b: nat, width: nat)
    requires a < Power16(width) && b < Power16(width) && FixedHex(a, width) == FixedHex(b, width)
    ensures a == b
  {
    hide DigitChar;
    if width > 0 {
      var s, t := FixedHex(a, width), FixedHex(b, width);
      assert s[width - 1] == DigitChar(a % 16) && t[width - 1] == DigitChar(b % 16);
      DigitCharIsInjective(a % 16, b % 16);
      assert FixedHex(a / 16, width - 1) == s[..width - 1] == t[..width - 1] == FixedHex(b / 16, width - 1);
      FixedHexIsInjective(a / 16, b / 16, width - 1);
    }
  }

  /** At least eight digits: longer lengths spill over. */
  function Hex8(n: nat): (s: string)
    ensures n < MAX_FRAMED ==> |s| == 8
  {
    if n < MAX_FRAMED then FixedHex(n, 8) else Numeral(n, 16)
  }

  lemma Hex8IsInjective(a: nat, b: nat)
    requires a < MAX_FRAMED && b < MAX_FRAMED && Hex8(a) == Hex8(b)
    ensures a == b
  {
    assert Power16(8) == MAX_FRAMED by {
      assert Power16(4) == 0x10000;
    }
    FixedHexIsInjective(a, b, 8);
  }

  // -------------------------------------------------------- reading them back

  /** What one digit stands for, in lower case. */
  function DigitValue(c: char): nat {
    if '0' <= c <= '9' then c as int - '0' as int
    else if 'a' <= c <= 'f' then 10 + (c as int - 'a' as int)
    else 0
  }

  /** The number that digits stand for. */
  function Reading(s: string, base: nat): nat {
    if s == "" then 0 else Reading(s[..|s| - 1], base) * base + DigitValue(s[|s| - 1])
  }

  lemma DigitReads(d: nat)
    requires d < 16
    ensures DigitValue(DigitChar(d)) == d
  {
  }

  /** A numeral reads as its number, and starts with a zero only when it is one. */
  lemma {:induction false} NumeralReads(n: nat, base: nat)
    requires Base(base)
    ensures Reading(Numeral(n, base), base) == n
    ensures Numeral(n, base)[0] == '0' <==> n == 0
    decreases n
  {
    hide DigitChar, DigitValue;
    DigitReads(LastDigit(n, base));
    var s := Numeral(n, base);
    if n < base {
      assert s[..|s| - 1] == "";
      assert DigitChar(n) == '0' <==> n == 0 by { ZeroDigit(n); }
    } else {
      NumeralReads(Leading(n, base), base);
      assert s[..|s| - 1] == Numeral(Leading(n, base), base);
      assert Leading(n, base) * base + LastDigit(n, base) == n;
    }
  }

  lemma ZeroDigit(d: nat)
    requires d < 16
    ensures DigitChar(d) == '0' <==> d == 0
  {
  }

  /** Padded digits read as the number, as far as they reach. */
  lemma {:induction false} FixedHexReads(n: nat, width: nat)
    requires n < Power16(width)
    ensures Reading(FixedHex(n, width), 16) == n
  {
    hide DigitChar, DigitValue;
    if width > 0 {
      var s := FixedHex(n, width);
      DigitReads(n % 16);
      FixedHexReads(n / 16, width - 1);
      assert s[..width - 1] == FixedHex(n / 16, width - 1);
    }
  }

  /** A length prefix reads as the length, however long. */
  lemma Hex8Reads(n: nat)
    ensures Reading(Hex8(n), 16) == n
    ensures |Hex8(n)| >= 8
  {
    assert Power16(8) == MAX_FRAMED by {
      assert Power16(4) == 0x10000;
    }
    if n < MAX_FRAMED {
      FixedHexReads(n, 8);
    } else {
      NumeralReads(n, 16);
      LongNumeral(n, 8);
    }
  }

  lemma {:induction false} LongNumeral(n: nat, width: nat)
    requires Power16(width) <= n
    ensures |Numeral(n, 16)| > width
    decreases n
  {
    NumeralParts(n, 16);
    if width > 0 {
      assert Power16(width) == 16 * Power16(width - 1);
      PowerIsPositive(width - 1);
      LongNumeral(n / 16, width - 1);
    }
  }

  lemma {:induction false} PowerIsPositive(width: nat)
    ensures Power16(width) >= 1
  {
    if width > 0 {
      PowerIsPositive(width - 1);
    }
  }

  // ------------------------------------------------------ hexadecimal framing

  function FrameHex(parts: seq<string>): string {
    if parts == [] then "" else Hex8(|parts[0]|) + parts[0] + FrameHex(parts[1..])
  }

  predicate Short(parts: seq<string>) {
    forall i :: 0 <= i < |parts| ==> |parts[i]| < MAX_FRAMED
  }

  /** What the source feeds to its hash, part by part. */
  method WriteFramed(parts: seq<string>) returns (written: string)
    ensures written == FrameHex(parts)
  {
    written := "";
    for i := 0 to |parts|
      invariant written + FrameHex(parts[i..]) == FrameHex(parts)
    {
      assert parts[i..][1..] == parts[i + 1..];
      var framed := Hex8(|parts[i]|) + parts[i];
      assert (written + framed) + FrameHex(parts[i + 1..]) == written + FrameHex(parts[i..]);
      written := written + framed;
    }
  }

  /** Distinct lists of parts, of any lengths, have distinct encodings. */
  lemma {:induction false} FrameHexIsInjective(a: seq<string>, b: seq<string>)
    requires Short(a) && Short(b) && FrameHex(a) == FrameHex(b)
    ensures a == b
  {
    hide Hex8;
    if a != [] && b != [] {
      var s := FrameHex(a);
      assert s[..8] == Hex8(|a[0]|) && s[..8] == Hex8(|b[0]|);
      Hex8IsInjective(|a[0]|, |b[0]|);
      assert a[0] == s[8..8 + |a[0]|] && b[0] == s[8..8 + |a[0]|];
      assert FrameHex(a[1..]) == s[8 + |a[0]|..] && FrameHex(b[1..]) == s[8 + |a[0]|..];
      FrameHexIsInjective(a[1..], b[1..]);
      assert a == [a[0]] + a[1..] && b == [b[0]] + b[1..];
    }
  }

  // ---------------------------------------------------------- decimal framing

  function FrameDecimal(fields: seq<string>): string {
    if fields == [] then "" else Numeral(|fields[0]|, 10) + ":" + fields[0] + FrameDecimal(fields[1..])
  }

  method WriteDecimal(fields: seq<string>) returns (written: string)
    ensures written == FrameDecimal(fields)
  {
    written := "";
    for i := 0 to |fields|
      invariant written + FrameDecimal(fields[i..]) == FrameDecimal(fields)
    {
      assert fields[i..][1..] == fields[i + 1..];
      var framed := Numeral(|fields[i]|, 10) + ":" + fields[i];
      assert (written + framed) + FrameDecimal(fields[i + 1..]) == written + FrameDecimal(fields[i..]);
      written := written + framed;
    }
  }

  /** Two texts that agree up to the first separator agree on both sides of it. */
  lemma SplitAtFirst(c: char, x: string, y: string, x': string, y': string)
    requires c !in x && c !in x' && x + [c] + y == x' + [c] + y'
    ensures x == x' && y == y'
  {
    var s, t := x + [c] + y, x' + [c] + y';
    assert s[|x|] == c && forall i :: 0 <= i < |x| ==> s[i] == x[i];
    assert t[|x'|] == c && forall i :: 0 <= i < |x'| ==> t[i] == x'[i];
    assert |x| == |x'|;
    assert x == s[..|x|] && x' == t[..|x|];
    assert y == s[|x| + 1..] && y' == t[|x| + 1..];
  }

  lemma {:induction false} FrameDecimalIsInjective(a: seq<string>, b: seq<string>)
    requires FrameDecimal(a) == FrameDecimal(b)
    ensures a == b
  {
    hide Numeral;
    if a != [] && b != [] {
      var restA, restB := a[0] + FrameDecimal(a[1..]), b[0] + FrameDecimal(b[1..]);
      assert FrameDecimal(a) == Numeral(|a[0]|, 10) + [':'] + restA;
      assert FrameDecimal(b) == Numeral(|b[0]|, 10) + [':'] + restB;
      SplitAtFirst(':', Numeral(|a[0]|, 10), restA, Numeral(|b[0]|, 10), restB);
      NumeralIsInjective(|a[0]|, |b[0]|, 10);
      assert a[0] == restA[..|a[0]|] && b[0] == restB[..|a[0]|];
      assert FrameDecimal(a[1..]) == restA[|a[0]|..] && FrameDecimal(b[1..]) == restB[|a[0]|..];
      FrameDecimalIsInjective(a[1..], b[1..]);
      assert a == [a[0]] + a[1..] && b == [b[0]] + b[1..];
    }
  }
}
