/**
 * The two formatting helpers of util.py: bfmt (binary, zero-filled to a
 * width) and hfmt (lower-case hexadecimal, zero-padded to a width). Both
 * are `format(num, ...)` of a Python int, so a negative number keeps its
 * '-' sign and the zero padding goes after the sign.
 */
module Util {

  /** The digit characters Python's 'b' and 'x' formats use, in value order. */
  const DIGITS: string := "0123456789abcdef"

  function Power(base: nat, k: nat): (p: nat)
    ensures base >= 1 ==> p >= 1
  {
    if k == 0 then 1 else base * Power(base, k - 1)
  }

  function Max(a: int, b: int): int {
    if a < b then b else a
  }

  /** The last digit of n in `base`. */
  function Low(n: nat, base: nat): (d: nat)
    requires 2 <= base
    ensures d < base
  {
    n % base
  }

  /** n with its last digit in `base` dropped. */
  function High(n: nat, base: nat): (q: nat)
    requires 2 <= base
    ensures base <= n ==> q < n
  {
    n / base
  }

  /** The digits of n in `base`, most significant first, without leading zeros ("0" for 0). */
  function Digits(n: nat, base: nat): (s: string)
    requires 2 <= base <= 16
    ensures 1 <= |s|
    ensures forall i :: 0 <= i < |s| ==> IsDigit(s[i], base)
    decreases n
  {
    if n < base then
      DigitValueOfDigit(n);
      [DIGITS[n]]
    else
      DigitValueOfDigit(Low(n, base));
      Digits(High(n, base), base) + [DIGITS[Low(n, base)]]
  }

  /** A lower-case digit character of `base`. */
  predicate IsDigit(c: char, base: nat) {
    ('0' <= c <= '9' || 'a' <= c <= 'f') && DigitValue(c) < base
  }

  /** The value of one digit character. */
  function DigitValue(c: char): nat {
    if '0' <= c <= '9' then (c as int) - ('0' as int)
    else if 'a' <= c <= 'f' then (c as int) - ('a' as int) + 10
    else 0
  }

  /** The number a string of digits denotes in `base`. */
  function Value(s: string, base: nat): int
    decreases |s|
  {
    if s == [] then 0 else Value(s[..|s| - 1], base) * base + DigitValue(s[|s| - 1])
  }

  /** `format(num, 'b')` or `format(num, 'x')`: a '-' for a negative number, then the digits of its magnitude. */
  function Format(num: int, base: nat): string
    requires 2 <= base <= 16
  {
    if num < 0 then "-" + Digits(-num, base) else Digits(num, base)
  }

  function ZeroRun(k: nat): (z: string)
    ensures |z| == k && forall i :: 0 <= i < k ==> z[i] == '0'
  {
    if k == 0 then [] else ZeroRun(k - 1) + ['0']
  }

  /**
   * `s.zfill(width)`, which is also what a '0' width flag in a format spec
   * does to a formatted int: '0's are inserted after a leading sign, or at the
   * front, until the string is `width` long; a longer string is kept as is.
   */
  function ZeroPad(s: string, width: int): string {
    if width <= |s| then s
    else if |s| > 0 && (s[0] == '-' || s[0] == '+') then [s[0]] + ZeroRun(width - |s|) + s[1..]
    else ZeroRun(width - |s|) + s
  }

  /**
   * bfmt(num, size): the binary digits of num, zero-filled to `size`.
   * For num >= 0 it is made of '0' and '1' only, is max(size, bit length)
   * long and reads back as num; a num below 2^size gives exactly `size`
   * characters. A negative num is '-' followed by the zero-filled digits
   * of its magnitude.
   */
  function Bfmt(num: int, size: int := 8): (r: string)
    ensures 0 <= num ==> |r| == Max(size, |Digits(num, 2)|)
    ensures 0 <= num ==> forall i :: 0 <= i < |r| ==> r[i] == '0' || r[i] == '1'
    ensures 0 <= num ==> Value(r, 2) == num
    ensures 1 <= size && 0 <= num < Power(2, size) ==> |r| == size
    ensures num < 0 ==> |r| == Max(size, 1 + |Digits(-num, 2)|) && r[0] == '-' && Value(r[1..], 2) == -num
  {
    PaddedFormat(num, 2, size);
    var r := ZeroPad(Format(num, 2), size);
    if 0 <= num then BinaryDigits(r); r else r
  }

  /** The digits of base 2 are '0' and '1'. */
  lemma BinaryDigits(s: string)
    requires forall i :: 0 <= i < |s| ==> IsDigit(s[i], 2)
    ensures forall i :: 0 <= i < |s| ==> s[i] == '0' || s[i] == '1'
  {
  }

  /**
   * hfmt(num, size): the lower-case hexadecimal digits of num, zero-padded
   * to `size` (the format spec '0<size>x'). For num >= 0 it uses only
   * 0-9 and a-f, is max(size, digit count) long and reads back as num; a
   * num below 16^size gives exactly `size` characters.
   */
  function Hfmt(num: int, size: int := 2): (r: string)
    requires 0 <= size
    ensures 0 <= num ==> |r| == Max(size, |Digits(num, 16)|)
    ensures 0 <= num ==> forall i :: 0 <= i < |r| ==> IsDigit(r[i], 16)
    ensures 0 <= num ==> Value(r, 16) == num
    ensures 1 <= size && 0 <= num < Power(16, size) ==> |r| == size
    ensures num < 0 ==> |r| == Max(size, 1 + |Digits(-num, 16)|) && r[0] == '-' && Value(r[1..], 16) == -num
  {
    PaddedFormat(num, 16, size);
    ZeroPad(Format(num, 16), size)
  }

  /** A byte in hex, as the emulators print opcodes and operands: two characters that read back as the byte. */
  lemma HfmtByte(num: int)
    requires 0 <= num < 256
    ensures |Hfmt(num)| == 2 && Value(Hfmt(num), 16) == num
    ensures forall i :: 0 <= i < 2 ==> IsDigit(Hfmt(num)[i], 16)
  {
    assert Power(16, 2) == 256;
  }

  /** A byte in binary, as the register dump prints it: eight characters that read back as the byte. */
  lemma BfmtByte(num: int)
    requires 0 <= num < 256
    ensures |Bfmt(num)| == 8 && Value(Bfmt(num), 2) == num
  {
    assert Power(2, 8) == 256;
  }

  lemma DigitValueOfDigit(d: nat)
    requires d < 16
    ensures DigitValue(DIGITS[d]) == d
    ensures '0' <= DIGITS[d] <= '9' || 'a' <= DIGITS[d] <= 'f'
  {
  }

  /** Digits and Value are inverse. */
  lemma {:induction false} DigitsValue(n: nat, base: nat)
    requires 2 <= base <= 16
    ensures Value(Digits(n, base), base) == n
    decreases n
  {
    var s := Digits(n, base);
    if n < base {
      DigitValueOfDigit(n);
      assert s == [DIGITS[n]];
      assert s[..0] == [];
    } else {
      var q, d := High(n, base), Low(n, base);
      var t := Digits(q, base);
      assert s == t + [DIGITS[d]];
      DivMod(n, base);
      DigitsValue(q, base);
      AppendDigit(t, base, d);
      assert Value(s, base) == q * base + d;
    }
  }

  lemma DivMod(n: nat, base: nat)
    requires 2 <= base
    ensures High(n, base) * base + Low(n, base) == n
  {
  }

  /** Appending digit d multiplies the value by the base and adds d. */
  lemma AppendDigit(t: string, base: nat, d: nat)
    requires d < 16
    ensures Value(t + [DIGITS[d]], base) == Value(t, base) * base + d
  {
    var s := t + [DIGITS[d]];
    assert s[..|s| - 1] == t;
    DigitValueOfDigit(d);
  }

  /** Leading zeros do not change the value. */
  lemma {:induction false} LeadingZeros(k: nat, s: string, base: nat)
    ensures Value(ZeroRun(k) + s, base) == Value(s, base)
    decreases |s|
  {
    if s == [] {
      ZerosValue(k, base);
      assert ZeroRun(k) + s == ZeroRun(k);
    } else {
      var t := ZeroRun(k) + s;
      assert t[..|t| - 1] == ZeroRun(k) + s[..|s| - 1];
      LeadingZeros(k, s[..|s| - 1], base);
    }
  }

  lemma {:induction false} ZerosValue(k: nat, base: nat)
    ensures Value(ZeroRun(k), base) == 0
  {
    if k > 0 {
      assert ZeroRun(k)[..k - 1] == ZeroRun(k - 1);
      ZerosValue(k - 1, base);
    }
  }

  /** A number below base^k has at most k digits (k >= 1). */
  lemma {:induction false} DigitsLength(n: nat, base: nat, k: nat)
    requires 2 <= base <= 16 && 1 <= k && n < Power(base, k)
    ensures |Digits(n, base)| <= k
    decreases k
  {
    if n >= base {
      var p := Power(base, k - 1);
      assert Power(base, k) == base * p;
      assert k - 1 != 0 by {
        assert Power(base, 0) == 1;
      }
      assert High(n, base) < p by {
        DivBelow(n, base, p);
      }
      DigitsLength(High(n, base), base, k - 1);
    }
  }

  lemma DivBelow(n: nat, base: nat, p: nat)
    requires 2 <= base && n < base * p
    ensures n / base < p
  {
  }

  /** What zero padding does to a formatted int: length, characters, value. */
  lemma PaddedFormat(num: int, base: nat, size: int)
    requires 2 <= base <= 16
    ensures var r := ZeroPad(Format(num, base), size);
            && (0 <= num ==> |r| == Max(size, |Digits(num, base)|))
            && (0 <= num ==> forall i :: 0 <= i < |r| ==> IsDigit(r[i], base))
            && (0 <= num ==> Value(r, base) == num)
            && (num < 0 ==> |r| == Max(size, 1 + |Digits(-num, base)|) && r[0] == '-')
            && (num < 0 ==> Value(r[1..], base) == -num)
            && (1 <= size && 0 <= num < Power(base, size) ==> |r| == size)
  {
    if 1 <= size && 0 <= num < Power(base, size) {
      DigitsLength(num, base, size);
    }
    if 0 <= num {
      PaddedNonNegative(num, base, size);
    } else {
      PaddedNegative(num, base, size);
    }
  }

  lemma PaddedNonNegative(num: nat, base: nat, size: int)
    requires 2 <= base <= 16
    ensures var r := ZeroPad(Format(num, base), size);
            && |r| == Max(size, |Digits(num, base)|)
            && (forall i :: 0 <= i < |r| ==> IsDigit(r[i], base))
            && Value(r, base) == num
  {
    var s := Digits(num, base);
    assert Format(num, base) == s;
    DigitsValue(num, base);
    PadDigits(s, size, base);
  }

  lemma PaddedNegative(num: int, base: nat, size: int)
    requires 2 <= base <= 16 && num < 0
    ensures var r := ZeroPad(Format(num, base), size);
            && |r| == Max(size, 1 + |Digits(-num, base)|) && r[0] == '-'
            && Value(r[1..], base) == -num
  {
    var d := Digits(-num, base);
    var p := ZeroPad(d, size - 1);
    NegativeShape(num, base, size);
    assert |p| == Max(size - 1, |d|) && Value(p, base) == Value(d, base) by {
      PadDigits(d, size - 1, base);
    }
    assert Value(d, base) == -num by {
      DigitsValue(-num, base);
    }
    SignedParts(ZeroPad(Format(num, base), size), p);
    MaxShift(size, |d|);
  }

  /** A negative number pads as '-' followed by its digits padded to one less than the width. */
  lemma NegativeShape(num: int, base: nat, size: int)
    requires 2 <= base <= 16 && num < 0
    ensures ZeroPad(Format(num, base), size) == "-" + ZeroPad(Digits(-num, base), size - 1)
  {
    var d := Digits(-num, base);
    assert Format(num, base) == "-" + d;
    assert IsDigit(d[0], base);
    PadSigned(d, size);
  }

  lemma MaxShift(a: int, b: int)
    ensures 1 + Max(a - 1, b) == Max(a, 1 + b)
  {
  }

  lemma SignedParts(r: string, p: string)
    requires r == "-" + p
    ensures |r| == 1 + |p| && r[0] == '-' && r[1..] == p
  {
  }

  /** Zero padding a string of digits keeps it a string of digits with the same value. */
  lemma PadDigits(s: string, width: int, base: nat)
    requires 2 <= base <= 16 && 1 <= |s|
    requires forall i :: 0 <= i < |s| ==> IsDigit(s[i], base)
    ensures var r := ZeroPad(s, width);
            && |r| == Max(width, |s|)
            && (forall i :: 0 <= i < |r| ==> IsDigit(r[i], base))
            && Value(r, base) == Value(s, base)
  {
    if width > |s| {
      assert IsDigit(s[0], base);
      var z := ZeroRun(width - |s|);
      var r := z + s;
      assert ZeroPad(s, width) == r;
      LeadingZeros(width - |s|, s, base);
      forall i | 0 <= i < |r|
        ensures IsDigit(r[i], base)
      {
        if i >= |z| {
          assert r[i] == s[i - |z|];
        } else {
          assert r[i] == '0';
        }
      }
    }
  }

  /** Padding a negative number's string pads its digits to one less than the width. */
  lemma PadSigned(d: string, width: int)
    requires 1 <= |d| && d[0] != '-' && d[0] != '+'
    ensures ZeroPad("-" + d, width) == "-" + ZeroPad(d, width - 1)
  {
    if width > |d| + 1 {
      assert ("-" + d)[1..] == d;
      assert ["-"[0]] + ZeroRun(width - 1 - |d|) + d == "-" + (ZeroRun(width - 1 - |d|) + d);
    }
  }
}
