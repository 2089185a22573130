/** Kotlin's 64-bit `Long`: its range, its wrap-around arithmetic, and the
    decimal text `toString` writes and `toLongOrNull` reads. */
module Numbers {
  import opened Wrappers

  const LongMin: int := -0x8000_0000_0000_0000
  const LongMax: int := 0x7FFF_FFFF_FFFF_FFFF

  predicate IsLong(x: int) {
    LongMin <= x <= LongMax
  }

  /** Two's-complement wrap-around into the `Long` range. */
  function WrapLong(x: int): (r: int)
    ensures IsLong(r)
    ensures (r - x) % 0x1_0000_0000_0000_0000 == 0
    ensures IsLong(x) ==> r == x
  {
    var m := (x - LongMin) % 0x1_0000_0000_0000_0000;
    m + LongMin
  }

  /** `Long.toInt()`: the low 32 bits, read as a two's-complement `Int`. */
  function LongToInt(x: int): (r: int)
    ensures -0x8000_0000 <= r <= 0x7FFF_FFFF
    ensures (r - x) % 0x1_0000_0000 == 0
  {
    (x + 0x8000_0000) % 0x1_0000_0000 - 0x8000_0000
  }

  /** Narrowing to `Int` gives 1 exactly for the values congruent to 1 modulo
      2^32, not only for 1 itself. */
  lemma LongToIntIsOne(x: int)
    ensures LongToInt(x) == 1 <==> x % 0x1_0000_0000 == 1
    ensures LongToInt(0x1_0000_0001) == 1
  {
  }

  predicate IsDigit(c: char) {
    '0' <= c <= '9'
  }

  function DigitValue(c: char): nat
    requires IsDigit(c)
  {
    c as int - '0' as int
  }

  function DigitChar(d: nat): (c: char)
    requires d < 10
    ensures IsDigit(c) && DigitValue(c) == d
  {
    "0123456789"[d]
  }

  /** The decimal digits of `n`, most significant first, without leading zeros. */
  function Digits(n: nat): (s: string)
    ensures |s| > 0 && forall i :: 0 <= i < |s| ==> IsDigit(s[i])
  {
    if n < 10 then [DigitChar(n)] else Digits(n / 10) + [DigitChar(n % 10)]
  }

  /** The number a nonempty run of digits spells. */
  function DigitsValue(s: string): nat
    requires forall i :: 0 <= i < |s| ==> IsDigit(s[i])
  {
    if |s| == 0 then 0 else DigitsValue(s[..|s| - 1]) * 10 + DigitValue(s[|s| - 1])
  }

  /** `Long.toString()`. */
  function LongToString(x: int): string {
    if x < 0 then "-" + Digits(-x) else Digits(x)
  }

  /** `String.toLongOrNull()`: an optional `-` or `+` sign followed by at
      least one decimal digit, within the `Long` range; anything else is null. */
  function ToLongOrNull(s: string): (r: Option<int>)
    ensures r.Some? ==> IsLong(r.value)
  {
    if |s| == 0 then None
    else
      var negative := s[0] == '-';
      var body := if s[0] == '-' || s[0] == '+' then s[1..] else s;
      if |body| == 0 || exists i :: 0 <= i < |body| && !IsDigit(body[i]) then None
      else
        var n: int := DigitsValue(body);
        var v := if negative then 0 - n else n;
        if IsLong(v) then Some(v) else None
  }

  lemma {:induction false} DigitsRoundTrip(n: nat)
    ensures DigitsValue(Digits(n)) == n
  {
    if n >= 10 {
      DigitsRoundTrip(n / 10);
      var s := Digits(n);
      assert s[..|s| - 1] == Digits(n / 10);
    }
  }

  /** What `toString` writes, `toLongOrNull` reads back. */
  lemma LongRoundTrip(x: int)
    requires IsLong(x)
    ensures ToLongOrNull(LongToString(x)) == Some(x)
  {
    var s := LongToString(x);
    if x < 0 {
      var d := Digits(-x);
      DigitsRoundTrip(-x);
      assert s[0] == '-' && s[1..] == d;
      assert !exists i :: 0 <= i < |d| && !IsDigit(d[i]);
    } else {
      DigitsRoundTrip(x);
      assert IsDigit(s[0]);
      assert !exists i :: 0 <= i < |s| && !IsDigit(s[i]);
    }
  }

  /** The text `toString` writes never holds the character `c` unless it is a
      digit or the minus sign. */
  lemma LongToStringChars(x: int, c: char)
    requires !IsDigit(c) && c != '-'
    ensures c !in LongToString(x)
  {
  }
}
