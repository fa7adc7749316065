/**
 * The text conversions the command-line tools rely on: Rust's `{}`, `{:X}` and
 * zero-padded `{:0wX}` formatting of unsigned integers, and `str::parse::<usize>`
 * on a 64-bit target.
 */
module Text {
  import opened Wrappers

  const USIZE_MAX: nat := 0xFFFF_FFFF_FFFF_FFFF

  /** The digit for `d`: `0`-`9`, then upper-case `A`-`F`. */
  function DigitChar(d: nat): (c: char)
    requires d < 16
  {
    if d < 10 then ('0' as int + d) as char else ('A' as int + d - 10) as char
  }

  /** Whether `c` is a digit of the given base, upper-case letters only. */
  predicate IsDigit(c: char, base: nat)
  {
    || ('0' <= c <= '9' && c as int - '0' as int < base)
    || ('A' <= c <= 'F' && c as int - 'A' as int + 10 < base)
  }

  function DigitValue(c: char): nat
  {
    if '0' <= c <= '9' then c as int - '0' as int
    else if 'A' <= c <= 'F' then c as int - 'A' as int + 10
    else 0
  }

  predicate AllDigits(s: string, base: nat)
  {
    forall k :: 0 <= k < |s| ==> IsDigit(s[k], base)
  }

  /** The number a digit string denotes, most significant digit first. */
  function Value(s: string, base: nat): nat
  {
    if s == [] then 0 else Value(s[..|s| - 1], base) * base + DigitValue(s[|s| - 1])
  }

  /** `n` in the given base without leading zeros (`"0"` for zero). */
  function Digits(n: nat, base: nat): string
    requires 2 <= base <= 16
    decreases n
  {
    if n < base then [DigitChar(n)] else Digits(n / base, base) + [DigitChar(n % base)]
  }

  /** `format!("{}", n)`. */
  function Decimal(n: nat): string
  {
    Digits(n, 10)
  }

  /** `format!("{:X}", n)`. */
  function UpperHex(n: nat): string
  {
    Digits(n, 16)
  }

  /** Left-pads with `'0'` up to `width` characters, as the `0` flag of a format spec does. */
  function PadZeros(s: string, width: nat): string
  {
    if |s| >= width then s else seq(width - |s|, _ => '0') + s
  }

  /** The digit part of a number: `s` without one leading `+`, if it has one. */
  function Unsigned(s: string): (d: string)
    ensures |s| > 0 && s[0] == '+' ==> ['+'] + d == s
    ensures (|s| == 0 || s[0] != '+') ==> d == s
  {
    if |s| > 0 && s[0] == '+' then s[1..] else s
  }

  /**
   * `s.parse::<usize>()`: an optional leading `+`, then at least one decimal
   * digit, and a value that fits in 64 bits.
   */
  function ParseUsize(s: string): (r: Option<nat>)
    ensures r.Some? ==> r.value <= USIZE_MAX
    ensures r.Some? ==> AllDigits(s, 10) || (s[0] == '+' && |s| >= 2 && AllDigits(s[1..], 10))
    ensures r.Some? ==> r.value == Value(Unsigned(s), 10)
    ensures r.Some? <==> |Unsigned(s)| > 0 && AllDigits(Unsigned(s), 10) && Value(Unsigned(s), 10) <= USIZE_MAX
  {
    var digits := if |s| > 0 && s[0] == '+' then s[1..] else s;
    if |digits| == 0 || !AllDigits(digits, 10) then None
    else if Value(digits, 10) > USIZE_MAX then None
    else Some(Value(digits, 10))
  }

  lemma DigitCharValue(d: nat, base: nat)
    requires d < base <= 16
    ensures IsDigit(DigitChar(d), base) && DigitValue(DigitChar(d)) == d
  {
  }

  /** A rendering is a non-empty string of digits of its base. */
  lemma {:induction false} DigitsAreDigits(n: nat, base: nat)
    requires 2 <= base <= 16
    ensures |Digits(n, base)| >= 1
    ensures AllDigits(Digits(n, base), base)
    decreases n
  {
    if n < base {
      DigitCharValue(n, base);
    } else {
      DigitsAreDigits(n / base, base);
      DigitCharValue(n % base, base);
    }
  }

  lemma DivMod(n: nat, base: nat)
    requires base > 0
    ensures n == (n / base) * base + n % base
  {
  }

  /** Appending a digit multiplies the value by the base and adds the digit. */
  lemma ValueAppendDigit(t: string, c: char, base: nat)
    ensures Value(t + [c], base) == Value(t, base) * base + DigitValue(c)
  {
    assert (t + [c])[..|t|] == t;
  }

  /** A rendering reads back as the number it renders. */
  lemma {:induction false} DigitsValue(n: nat, base: nat)
    requires base == 10 || base == 16
    ensures Value(Digits(n, base), base) == n
    decreases n
  {
    if n < base {
      DigitCharValue(n, base);
      assert Digits(n, base) == [] + [DigitChar(n)];
      ValueAppendDigit([], DigitChar(n), base);
    } else {
      var q, d := n / base, n % base;
      DigitsValue(q, base);
      DigitCharValue(d, base);
      ValueAppendDigit(Digits(q, base), DigitChar(d), base);
      DivMod(n, base);
    }
  }

  /** A leading `'0'` does not change the value of a digit string. */
  lemma {:induction false} LeadingZeroValue(s: string, base: nat)
    ensures Value(['0'] + s, base) == Value(s, base)
    decreases |s|
  {
    if s == [] {
    } else {
      var t := ['0'] + s;
      assert t[..|t| - 1] == ['0'] + s[..|s| - 1];
      LeadingZeroValue(s[..|s| - 1], base);
    }
  }

  /** Zero padding keeps the digits and the value, and reaches the width. */
  lemma {:induction false} PadZerosValue(s: string, width: nat, base: nat)
    requires base >= 1 && AllDigits(s, base)
    ensures |PadZeros(s, width)| == if |s| >= width then |s| else width
    ensures AllDigits(PadZeros(s, width), base)
    ensures Value(PadZeros(s, width), base) == Value(s, base)
    ensures PadZeros(s, width)[|PadZeros(s, width)| - |s|..] == s
    decreases width - |s|
  {
    if |s| < width {
      PadZerosValue(['0'] + s, width, base);
      LeadingZeroValue(s, base);
      assert PadZeros(s, width) == PadZeros(['0'] + s, width);
    }
  }

  /** Every number `usize` can hold parses back from its decimal rendering. */
  lemma {:induction false} ParseUsizeDecimal(n: nat)
    requires n <= USIZE_MAX
    ensures ParseUsize(Decimal(n)) == Some(n)
  {
    DigitsAreDigits(n, 10);
    DigitsValue(n, 10);
    assert IsDigit(Decimal(n)[0], 10);
  }

  /** A leading `+` is accepted and does not change the value. */
  lemma {:induction false} ParseUsizeSigned(n: nat)
    requires n <= USIZE_MAX
    ensures ParseUsize(['+'] + Decimal(n)) == Some(n)
  {
    DigitsAreDigits(n, 10);
    DigitsValue(n, 10);
    var t := ['+'] + Decimal(n);
    assert t[0] == '+' && t[1..] == Decimal(n);
    assert Unsigned(t) == Decimal(n);
  }
}
