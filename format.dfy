/** Machine words and the printf conversions the disassembler uses:
    `%04lX` for addresses, `%ld` for counts and offsets, and the explicit
    `+` sign placed in front of jump offsets. */
module Format {

  datatype Option<T> = None | Some(value: T)

  /** The disassembler runs on an LP64 platform: `uintptr_t` and `long` are 64 bits. */
  const WORD_MODULUS: int := 0x1_0000_0000_0000_0000

  type Word = w: int | 0 <= w < WORD_MODULUS

  /** The value `%ld` shows for a word: its two's-complement reading. */
  function Signed(w: Word): (n: int)
    ensures -WORD_MODULUS / 2 <= n < WORD_MODULUS / 2
    ensures (w - n) % WORD_MODULUS == 0
    ensures 0 <= n ==> n == w
  {
    if w < WORD_MODULUS / 2 then w else w - WORD_MODULUS
  }

  // ---------------------------------------------------------------------
  // Hexadecimal, as `%lX` and `%04lX` print it

  predicate IsHexDigit(c: char) {
    '0' <= c <= '9' || 'A' <= c <= 'F'
  }

  predicate AllHexDigits(s: string) {
    forall i :: 0 <= i < |s| ==> IsHexDigit(s[i])
  }

  /** The upper-case digit for `d`. */
  function HexChar(d: nat): (c: char)
    requires d < 16
    ensures IsHexDigit(c)
  {
    if d < 10 then ('0' as int + d) as char else ('A' as int + d - 10) as char
  }

  function HexDigitValue(c: char): (d: nat)
    requires IsHexDigit(c)
    ensures d < 16 && HexChar(d) == c
  {
    if c <= '9' then c as int - '0' as int else c as int - 'A' as int + 10
  }

  function Pow16(k: nat): nat {
    if k == 0 then 1 else 16 * Pow16(k - 1)
  }

  /** `%lX`: the shortest upper-case hexadecimal spelling of `v`. */
  function Hex(v: nat): (s: string)
    ensures |s| >= 1 && AllHexDigits(s)
    ensures |s| > 1 ==> s[0] != '0'
    decreases v
  {
    if v < 16 then [HexChar(v)] else Hex(v / 16) + [HexChar(v % 16)]
  }

  /** A field width: pad `s` on the left with `fill` up to `width`, never
      cut it. The `0` flag pads with zeros, `%*s` with spaces. */
  function Pad(s: string, width: nat, fill: char): (r: string)
    ensures |r| == if |s| >= width then |s| else width
    ensures r[|r| - |s|..] == s
    ensures forall i :: 0 <= i < |r| - |s| ==> r[i] == fill
  {
    if |s| >= width then s else seq(width - |s|, _ => fill) + s
  }

  /** `%04lX`: at least four upper-case hexadecimal digits. */
  function Hex04(v: nat): (s: string)
    ensures |s| >= 4 && AllHexDigits(s)
    ensures |Hex(v)| >= 4 ==> s == Hex(v)
  {
    Pad(Hex(v), 4, '0')
  }

  /** The number a string of hexadecimal digits denotes. */
  function HexValue(s: string): nat
    requires AllHexDigits(s)
  {
    if s == [] then 0 else 16 * HexValue(s[..|s| - 1]) + HexDigitValue(s[|s| - 1])
  }

  lemma {:induction false} HexIsValue(v: nat)
    ensures HexValue(Hex(v)) == v
    decreases v
  {
    if v >= 16 {
      HexIsValue(v / 16);
      var s := Hex(v);
      assert s[..|s| - 1] == Hex(v / 16);
    }
  }

  lemma {:induction false} HexLength(v: nat, k: nat)
    requires k >= 1
    ensures |Hex(v)| <= k <==> v < Pow16(k)
    decreases v
  {
    if v >= 16 {
      if k > 1 {
        HexLength(v / 16, k - 1);
      } else {
        assert |Hex(v)| >= 2 by { assert Hex(v) == Hex(v / 16) + [HexChar(v % 16)]; }
      }
    } else {
      PowGrows(k);
    }
  }

  lemma {:induction false} PowGrows(k: nat)
    requires k >= 1
    ensures Pow16(k) >= 16
  {
    if k > 1 { PowGrows(k - 1); }
  }

  lemma {:induction false} LeadingZerosAddNothing(z: nat, s: string)
    requires AllHexDigits(s)
    ensures AllHexDigits(seq(z, _ => '0') + s)
    ensures HexValue(seq(z, _ => '0') + s) == HexValue(s)
    decreases |s|
  {
    var t := seq(z, _ => '0') + s;
    if s == [] {
      assert t == seq(z, _ => '0');
      ZerosAreZero(z);
    } else {
      var init := s[..|s| - 1];
      LeadingZerosAddNothing(z, init);
      assert t[..|t| - 1] == seq(z, _ => '0') + init;
    }
  }

  lemma {:induction false} ZerosAreZero(z: nat)
    ensures AllHexDigits(seq(z, _ => '0'))
    ensures HexValue(seq(z, _ => '0')) == 0
  {
    if z > 0 {
      ZerosAreZero(z - 1);
      assert seq(z, _ => '0')[..z - 1] == seq(z - 1, _ => '0');
    }
  }

  /** `%04lX` prints at least four upper-case hexadecimal digits, exactly four
      for values below 0x10000, and never truncates: the digits read back as
      the value printed. */
  lemma HexField(v: nat)
    ensures AllHexDigits(Hex04(v))
    ensures |Hex04(v)| >= 4
    ensures |Hex04(v)| == 4 <==> v < 0x10000
    ensures HexValue(Hex04(v)) == v
  {
    HexIsValue(v);
    HexLength(v, 4);
    var h := Hex(v);
    if |h| < 4 {
      LeadingZerosAddNothing(4 - |h|, h);
    }
  }

  // ---------------------------------------------------------------------
  // Decimal, as `%ld` prints it

  predicate IsDecimalDigit(c: char) {
    '0' <= c <= '9'
  }

  predicate AllDecimalDigits(s: string) {
    forall i :: 0 <= i < |s| ==> IsDecimalDigit(s[i])
  }

  function DigitChar(d: nat): (c: char)
    requires d < 10
    ensures IsDecimalDigit(c) && c as int - '0' as int == d
  {
    ('0' as int + d) as char
  }

  /** The digits of a non-negative number, without leading zeros. */
  function Digits(n: nat): (s: string)
    ensures |s| >= 1 && AllDecimalDigits(s)
    ensures |s| > 1 ==> s[0] != '0'
    decreases n
  {
    if n < 10 then [DigitChar(n)] else Digits(n / 10) + [DigitChar(n % 10)]
  }

  /** `%ld`: a `-` for a negative value and no sign otherwise, then the
      digits of its magnitude. */
  function Decimal(n: int): (s: string)
    ensures |s| >= 1 && AllDecimalDigits(s[1..])
    ensures s[0] == '-' <==> n < 0
    ensures n >= 0 ==> AllDecimalDigits(s)
  {
    if n < 0 then "-" + Digits(-n) else Digits(n)
  }

  function DigitsValue(s: string): nat
    requires AllDecimalDigits(s)
  {
    if s == [] then 0 else 10 * DigitsValue(s[..|s| - 1]) + (s[|s| - 1] as int - '0' as int)
  }

  /** The number a decimal numeral with an optional leading sign denotes. */
  function NumeralValue(s: string): int
    requires |s| >= 1
    requires s[0] == '+' || s[0] == '-' || IsDecimalDigit(s[0])
    requires AllDecimalDigits(s[1..])
  {
    if s[0] == '-' then -(DigitsValue(s[1..]) as int)
    else if s[0] == '+' then DigitsValue(s[1..])
    else DigitsValue(s)
  }

  lemma {:induction false} DigitsAreValue(n: nat)
    ensures DigitsValue(Digits(n)) == n
    decreases n
  {
    if n >= 10 {
      DigitsAreValue(n / 10);
      var s := Digits(n);
      assert s[..|s| - 1] == Digits(n / 10);
    }
  }

  /** The explicit sign the jump forms print: `sign = (offset >= 0) ? "+" : ""`. */
  function SignPrefix(n: int): string {
    if n >= 0 then "+" else ""
  }

  /** `%s%ld` with that sign: a numeral carrying exactly one sign, `+` for zero
      and positive offsets, the number's own `-` for negative ones, and
      reading back as the offset. */
  function SignedOffset(n: int): (s: string)
    ensures |s| >= 2 && AllDecimalDigits(s[1..])
    ensures s[0] == '+' <==> n >= 0
    ensures s[0] == '-' <==> n < 0
    ensures NumeralValue(s) == n
  {
    DigitsAreValue(if n < 0 then -n else n);
    var s := SignPrefix(n) + Decimal(n);
    assert s[1..] == Digits(if n < 0 then -n else n);
    s
  }

  /** `+%ld`: a literal `+` written in front of whatever `%ld` prints. */
  function PlusOffset(n: int): (s: string)
    ensures |s| >= 2 && s[0] == '+' && s[1..] == Decimal(n)
    ensures n >= 0 ==> s == SignedOffset(n)
    ensures n < 0 ==> s[..2] == "+-"
  {
    "+" + Decimal(n)
  }

  /** `%ld` spells the value it prints: no sign but `-`, no leading zero,
      and the numeral reads back as the value. */
  lemma DecimalField(n: int)
    ensures |Decimal(n)| >= 1
    ensures Decimal(n)[0] == '-' <==> n < 0
    ensures AllDecimalDigits(Decimal(n)[1..])
    ensures n >= 0 ==> AllDecimalDigits(Decimal(n))
    ensures var digits := if n < 0 then Decimal(n)[1..] else Decimal(n);
            |digits| >= 1 && (|digits| > 1 ==> digits[0] != '0')
    ensures NumeralValue(Decimal(n)) == n
  {
    DigitsAreValue(if n < 0 then -n else n);
    if n < 0 {
      assert Decimal(n)[1..] == Digits(-n);
    }
  }
}
