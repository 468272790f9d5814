/** Base-10 numerals: strconv.ParseUint with 32 bits and strconv.FormatInt, written out. */
module Decimal {
  import opened Sequences

  const MaxUint32: nat := 0xFFFF_FFFF
  const MaxUint64: nat := 0xFFFF_FFFF_FFFF_FFFF

  predicate IsDigit(c: char) { '0' <= c <= '9' }

  predicate AllDigits(s: string) { forall i :: 0 <= i < |s| ==> IsDigit(s[i]) }

  function DigitValue(c: char): (d: nat)
    requires IsDigit(c)
    ensures d < 10
  {
    c as int - '0' as int
  }

  function Digit(d: nat): (c: char)
    requires d < 10
    ensures IsDigit(c) && DigitValue(c) == d
  {
    ('0' as int + d) as char
  }

  /** The number that a string of digits stands for. */
  function Value(s: string): nat
    requires AllDigits(s)
  {
    if s == "" then 0 else 10 * Value(s[..|s| - 1]) + DigitValue(s[|s| - 1])
  }

  /** The shortest numeral of n. */
  function Numeral(n: nat): (s: string)
    ensures s != "" && AllDigits(s) && (s[0] == '0' ==> n == 0)
  {
    if n < 10 then [Digit(n)] else Numeral(n / 10) + [Digit(n % 10)]
  }

  lemma {:induction false} ValueOfNumeral(n: nat)
    ensures Value(Numeral(n)) == n
  {
    if n < 10 {
      assert [Digit(n)][..0] == "";
    } else {
      ValueOfNumeral(n / 10);
      assert Numeral(n)[..|Numeral(n)| - 1] == Numeral(n / 10);
    }
  }

  /** A longer prefix of digits stands for a number at least as large. */
  lemma {:induction false} ValueGrows(s: string, j: nat, k: nat)
    requires j <= k <= |s| && AllDigits(s[..k])
    ensures AllDigits(s[..j]) && Value(s[..j]) <= Value(s[..k])
  {
    assert AllDigits(s[..j]) by {
      assert forall i :: 0 <= i < j ==> s[..j][i] == s[..k][i];
    }
    if j < k {
      assert s[..k][..k - 1] == s[..k - 1];
      ValueGrows(s, j, k - 1);
    }
  }

  // ----- strconv.ParseUint(s, 10, 32)

  datatype Parsed = Number(n: nat) | SyntaxError | RangeError

  /** Some leading digits already stand for too large a number. */
  predicate Overflows(s: string) {
    exists k :: 0 < k <= |s| && AllDigits(s[..k]) && Value(s[..k]) > MaxUint32
  }

  /** What is to be returned: a number that is too large is noticed before any later character is
      looked at. */
  function ParsedUint(s: string): Parsed {
    if Overflows(s) then RangeError
    else if s == "" || !AllDigits(s) then SyntaxError
    else Number(Value(s))
  }

  /** c with the bit set that tells small letters from capital ones. */
  function Lower(c: char): int {
    if c as int / 32 % 2 == 0 then c as int + 32 else c as int
  }

  method ParseUint(s: string) returns (r: Parsed)
    ensures r == ParsedUint(s)
    ensures r.Number? <==> s != "" && AllDigits(s) && Value(s) <= MaxUint32
  {
    if s == "" {
      return SyntaxError;
    }
    var cutoff := MaxUint64 / 10 + 1;
    var n: nat := 0;
    for i := 0 to |s|
      invariant AllDigits(s[..i]) && n == Value(s[..i]) <= MaxUint32
    {
      var c := s[i];
      var d: int;
      if '0' <= c <= '9' {
        d := c as int - '0' as int;
      } else if 'a' as int <= Lower(c) <= 'z' as int {
        d := Lower(c) - 'a' as int + 10;
      } else {
        StoppedAt(s, i);
        return SyntaxError;
      }
      if d >= 10 {
        StoppedAt(s, i);
        return SyntaxError;
      }
      if n >= cutoff {
        return RangeError;
      }
      DigitStep(s, i);
      n := n * 10 % (MaxUint64 + 1);
      var n1 := (n + d) % (MaxUint64 + 1);
      if n1 < n || n1 > MaxUint32 {
        TooLarge(s, i + 1);
        return RangeError;
      }
      n := n1;
    }
    assert s[..|s|] == s;
    ValueBounds(s);
    return Number(n);
  }

  /** One more digit: neither the multiplication nor the addition wraps around. */
  lemma {:induction false} DigitStep(s: string, i: nat)
    requires i < |s| && IsDigit(s[i]) && AllDigits(s[..i]) && Value(s[..i]) <= MaxUint32
    ensures AllDigits(s[..i + 1])
    ensures var n := Value(s[..i]);
            && n * 10 % (MaxUint64 + 1) == n * 10
            && (n * 10 + DigitValue(s[i])) % (MaxUint64 + 1) == n * 10 + DigitValue(s[i]) == Value(s[..i + 1])
  {
    assert s[..i + 1][..i] == s[..i];
  }

  /** At a character that is no digit the scan stops, and the prefix before it is not too large. */
  lemma {:induction false} StoppedAt(s: string, i: nat)
    requires i < |s| && !IsDigit(s[i]) && AllDigits(s[..i]) && Value(s[..i]) <= MaxUint32
    ensures ParsedUint(s) == SyntaxError
  {
    forall k | i < k <= |s|
      ensures !AllDigits(s[..k])
    {
      assert s[..k][i] == s[i];
    }
    forall k | 0 < k <= i
      ensures AllDigits(s[..k]) && Value(s[..k]) <= MaxUint32
    {
      ValueGrows(s, k, i);
    }
  }

  lemma {:induction false} TooLarge(s: string, k: nat)
    requires 0 < k <= |s| && AllDigits(s[..k]) && Value(s[..k]) > MaxUint32
    ensures ParsedUint(s) == RangeError
    ensures AllDigits(s) ==> Value(s) > MaxUint32
  {
    assert s[..|s|] == s;
    if AllDigits(s) { ValueGrows(s, k, |s|); }
  }

  lemma {:induction false} ValueBounds(s: string)
    requires AllDigits(s)
    ensures Overflows(s) <==> Value(s) > MaxUint32
  {
    assert s[..|s|] == s;
    if Overflows(s) {
      var k :| 0 < k <= |s| && AllDigits(s[..k]) && Value(s[..k]) > MaxUint32;
      ValueGrows(s, k, |s|);
    }
  }

  // ----- strconv.FormatInt(n, 10)

  /** Digits from the right, two at a time, into the end of a buffer. */
  method FormatInt(n: nat) returns (s: string)
    requires n <= MaxUint64 / 2
    ensures s == Numeral(n)
  {
    if n < 100 {
      s := if n < 10 then [Digit(n)] else [Digit(n / 10), Digit(n % 10)];
      return;
    }
    NumeralFits(n);
    var a := new char[65];
    var i := a.Length;
    var us := n;
    while us >= 100
      invariant us > 0 && 0 <= i <= a.Length
      invariant Numeral(us) + a[i..] == Numeral(n)
    {
      var low := us % 100;
      ghost var tail := a[i..];
      TwoDigitsMore(n, us, tail);
      us := us / 100;
      i := i - 2;
      a[i + 1] := Digit(low % 10);
      a[i] := Digit(low / 10);
      assert a[i..] == [Digit(low / 10), Digit(low % 10)] + tail;
    }
    ghost var tail := a[i..];
    LastDigits(n, us, tail);
    i := i - 1;
    a[i] := Digit(us % 10);
    assert a[i..] == [Digit(us % 10)] + tail;
    if us >= 10 {
      i := i - 1;
      a[i] := Digit(us / 10);
      assert a[i..] == [Digit(us / 10), Digit(us % 10)] + tail;
    }
    s := a[i..];
  }

  /** A round of the loop: two digits move to the tail, and there is room for them. */
  lemma {:induction false} TwoDigitsMore(n: nat, us: nat, tail: string)
    requires us >= 100 && Numeral(us) + tail == Numeral(n) && |Numeral(n)| <= 65
    ensures Numeral(us / 100) + ([Digit(us % 100 / 10), Digit(us % 100 % 10)] + tail) == Numeral(n)
    ensures |tail| + 3 <= 65
  {
    Numeral100(us);
    var two := [Digit(us % 100 / 10), Digit(us % 100 % 10)];
    Regroup(Numeral(us / 100), two, tail);
    assert |Numeral(us)| == |Numeral(us / 100)| + 2;
  }

  /** What is left after the loop. */
  lemma {:induction false} LastDigits(n: nat, us: nat, tail: string)
    requires 0 < us < 100 && Numeral(us) + tail == Numeral(n) && |Numeral(n)| <= 65
    ensures if us >= 10 then [Digit(us / 10), Digit(us % 10)] + tail == Numeral(n) && |tail| + 2 <= 65
            else [Digit(us % 10)] + tail == Numeral(n) && |tail| + 1 <= 65
  {
  }

  ghost function Power10(k: nat): nat { if k == 0 then 1 else 10 * Power10(k - 1) }

  lemma {:induction false} LengthOfNumeral(n: nat, k: nat)
    requires 1 <= k && n < Power10(k)
    ensures |Numeral(n)| <= k
  {
    if n >= 10 {
      assert k > 1;
      LengthOfNumeral(n / 10, k - 1);
    }
  }

  /** The buffer is large enough: a 63-bit number has at most 20 digits. */
  lemma {:induction false} NumeralFits(n: nat)
    requires n <= MaxUint64 / 2
    ensures |Numeral(n)| <= 65
  {
    assert Power10(4) == 1_0000;
    assert Power10(8) == 1_0000_0000;
    assert Power10(12) == 1_0000_0000_0000;
    assert Power10(16) == 1_0000_0000_0000_0000;
    assert Power10(20) == 1_0000_0000_0000_0000_0000;
    LengthOfNumeral(n, 20);
  }

  lemma {:induction false} Numeral100(us: nat)
    requires us >= 100
    ensures Numeral(us) == Numeral(us / 100) + [Digit(us % 100 / 10), Digit(us % 100 % 10)]
  {
    assert us / 10 / 10 == us / 100 && us / 10 % 10 == us % 100 / 10 && us % 10 == us % 100 % 10;
  }
}
