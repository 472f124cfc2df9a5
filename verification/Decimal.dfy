/** Decimal notation, and the self-including length (libs/apr-toolkit/src/apt_text_stream.c). */
module Decimal {
  import opened Common
  import opened Text

  function Digit(d: nat): char
    requires d < 10
  {
    '0' + d as char
  }

  lemma DigitValue(d: nat)
    requires d < 10
    ensures IsDigit(Digit(d)) && (Digit(d) - '0') as nat == d
  {
  }

  predicate IsDigit(c: char) {
    '0' <= c <= '9'
  }

  /** Decimal representation without leading zeros, as "%lu" writes it. */
  function Dec(n: nat): (s: text)
    ensures s != [] && forall i :: 0 <= i < |s| ==> IsDigit(s[i])
  {
    if n < 10 then [Digit(n)] else Dec(n / 10) + [Digit(n % 10)]
  }

  /** Value of the leading digits, as atoi and atol read it; signs and overflow are not considered. */
  function Atoi(s: text): nat {
    Value(s, 0)
  }

  function Value(s: text, acc: nat): nat {
    if s == [] || !IsDigit(s[0]) then acc else Value(s[1..], 10 * acc + (s[0] - '0') as nat)
  }

  lemma {:induction false} ValueConcat(s: text, d: char, acc: nat)
    requires forall i :: 0 <= i < |s| ==> IsDigit(s[i])
    requires IsDigit(d)
    ensures Value(s + [d], acc) == 10 * Value(s, acc) + (d - '0') as nat
    decreases |s|
  {
    if s == [] {
      assert [d][1..] == [];
    } else {
      assert (s + [d])[0] == s[0] && (s + [d])[1..] == s[1..] + [d];
      ValueConcat(s[1..], d, 10 * acc + (s[0] - '0') as nat);
    }
  }

  /** Reading back what was written. */
  lemma {:induction false} AtoiDec(n: nat)
    ensures Atoi(Dec(n)) == n
    decreases n
  {
    DigitValue(n % 10);
    if n < 10 {
      assert [Digit(n)][1..] == [];
      assert Value([Digit(n)], 0) == Value([], n);
    } else {
      AtoiDec(n / 10);
      ValueConcat(Dec(n / 10), Digit(n % 10), 0);
    }
  }

  function Pow10(m: nat): nat {
    if m == 0 then 1 else 10 * Pow10(m - 1)
  }

  /** m digits reach from 10^(m-1), or from 0 for a single digit, up to 10^m. */
  lemma {:induction false} DecLength(n: nat, m: nat)
    requires m > 0 && n < Pow10(m) && (m > 1 ==> Pow10(m - 1) <= n)
    ensures |Dec(n)| == m
    decreases m
  {
    if m > 1 {
      assert Pow10(m - 1) == 10 * Pow10(m - 2);
      Pow10Positive(m - 2);
      DecLength(n / 10, m - 1);
    }
  }

  lemma Pow10Positive(m: nat)
    ensures Pow10(m) > 0
  {
  }

  lemma {:induction false} DecBounds(n: nat)
    ensures n < Pow10(|Dec(n)|) && (|Dec(n)| > 1 ==> Pow10(|Dec(n)| - 1) <= n)
    decreases n
  {
    if n < 10 {
      assert Pow10(1) == 10 * Pow10(0);
    } else {
      DecBounds(n / 10);
      if n / 10 < 10 {
        assert |Dec(n / 10)| == 1;
        assert Pow10(1) == 10 * Pow10(0);
      }
    }
  }

  /** 10^m leaves room for adding the digit count. */
  lemma {:induction false} Pow10Room(m: nat)
    requires m > 0
    ensures Pow10(m) > m && Pow10(m) + m + 1 <= Pow10(m + 1)
  {
    if m == 1 {
      assert Pow10(1) == 10 * Pow10(0);
    } else {
      Pow10Room(m - 1);
    }
  }

  lemma {:induction false} Pow10Monotone(a: nat, b: nat)
    requires a <= b
    ensures Pow10(a) <= Pow10(b)
    decreases b
  {
    if a < b {
      Pow10Monotone(a, b - 1);
      Pow10Positive(b - 1);
    }
  }

  /** r is n plus the number of its own digits. */
  predicate CountsItself(n: nat, r: nat) {
    r == n + |Dec(r)|
  }

  const WORD := 0x1_0000_0000_0000_0000

  /** The rule of the source: one digit more when the sum reaches the next power of ten. */
  function SelfLength(n: nat): nat {
    var m := |Dec(n)|;
    if n >= Pow10(m) - m then n + m + 1 else n + m
  }

  /** The rule gives the least number that counts its own digits. */
  lemma SelfLengthIsLeast(n: nat)
    ensures CountsItself(n, SelfLength(n))
    ensures forall r: nat :: CountsItself(n, r) ==> SelfLength(n) <= r
  {
    var m := |Dec(n)|;
    DecBounds(n);
    Pow10Room(m);
    Pow10Positive(m);
    if n >= Pow10(m) - m {
      DecLength(n + m + 1, m + 1);
      forall r: nat | CountsItself(n, r)
        ensures SelfLength(n) <= r
      {
        DecMonotone(n, r);
        if r == n + m {
          DecTooLong(r, m);
        }
      }
    } else {
      DecLength(n + m, m);
      forall r: nat | CountsItself(n, r)
        ensures SelfLength(n) <= r
      {
        DecMonotone(n, r);
      }
    }
  }

  lemma DecTooLong(r: nat, m: nat)
    requires r >= Pow10(m)
    ensures |Dec(r)| > m
  {
    DecBounds(r);
    if |Dec(r)| <= m {
      Pow10Monotone(|Dec(r)|, m);
    }
  }

  lemma DecMonotone(a: nat, b: nat)
    requires a <= b
    ensures |Dec(a)| <= |Dec(b)|
  {
    DecBounds(a);
    if |Dec(a)| > 1 {
      DecTooLong(b, |Dec(a)| - 1);
    }
  }

  lemma Pow10Values()
    ensures Pow10(19) == 10_000_000_000_000_000_000 && Pow10(20) == 100_000_000_000_000_000_000
  {
    assert Pow10(2) == 100 && Pow10(4) == 10_000 && Pow10(6) == 1_000_000 && Pow10(8) == 100_000_000;
    assert Pow10(10) == 10_000_000_000 && Pow10(12) == 1_000_000_000_000;
    assert Pow10(14) == 100_000_000_000_000 && Pow10(16) == 10_000_000_000_000_000;
    assert Pow10(18) == 1_000_000_000_000_000_000;
  }

  /** A 64-bit word has at most 20 digits, and 10^m fits a word exactly for less than 20. */
  lemma WordDigits(n: nat, m: nat)
    requires n < WORD
    ensures |Dec(n)| <= 20 && (|Dec(n)| == 20 <==> n >= Pow10(19)) && (m <= 19 ==> Pow10(m) < WORD)
  {
    Pow10Values();
    DecBounds(n);
    if |Dec(n)| > 20 {
      Pow10Monotone(20, |Dec(n)| - 1);
    } else if |Dec(n)| < 20 {
      Pow10Monotone(|Dec(n)|, 19);
    }
    if m <= 19 {
      Pow10Monotone(m, 19);
    }
  }

  /** The power of ten that bounds the numbers of m digits, in 64 bits. */
  function Bounds(m: nat): nat {
    Pow10(m) % WORD
  }

  lemma BoundsNext(m: nat)
    ensures Bounds(m) * 10 % WORD == Bounds(m + 1)
  {
    var q := Pow10(m) / WORD;
    assert Pow10(m + 1) == 10 * Pow10(m) == WORD * (10 * q) + 10 * Bounds(m);
  }

  method CountDigits(n: nat) returns (count: nat)
    ensures count == |Dec(n)|
  {
    var temp: nat;
    temp, count := n / 10, 1;
    while temp != 0
      invariant |Dec(n)| == count + if temp == 0 then 0 else |Dec(temp)|
      decreases temp
    {
      count := count + 1;
      temp := temp / 10;
    }
  }

  method BoundsOf(count: nat) returns (bounds: nat)
    requires count > 0
    ensures bounds == Bounds(count)
  {
    assert Pow10(1) == 10 * Pow10(0);
    var left := count - 1;
    bounds := 10;
    while left != 0
      invariant 0 <= left < count && bounds == Bounds(count - left)
    {
      BoundsNext(count - left);
      bounds := bounds * 10 % WORD;
      left := left - 1;
    }
  }

  /** The digits that the source counts. */
  function Counted(n: nat, m: nat): nat {
    if n >= Bounds(m) - m then m + 1 else m
  }

  lemma ShortNumber(n: nat)
    requires n < Pow10(19)
    ensures var c := Counted(n, |Dec(n)|); SelfLength(n) == n + c < WORD && c == |Dec(n + c)|
  {
    Pow10Values();
    var m := |Dec(n)|;
    assert Bounds(m) == Pow10(m) && m <= 19 by {
      WordDigits(n, m);
      WordDigits(n, 19);
    }
    SelfLengthIsLeast(n);
  }

  lemma BoundsOverflow()
    ensures Bounds(20) == 7_766_279_631_452_241_920
  {
    Pow10Values();
  }

  lemma NotOwnLength(n: nat, v: nat)
    requires v < WORD && (v == n + 21 || v < n)
    ensures !CountsItself(n, v)
  {
    WordDigits(v, 0);
  }

  lemma WrappedRest(x: nat)
    requires WORD <= x < 2 * WORD
    ensures x % WORD == x - WORD
  {
  }

  /** A number of 20 digits is far above the overflown bound, and one more than its digits is not its length. */
  lemma LongNumber(n: nat)
    requires Pow10(19) <= n < WORD
    ensures Counted(n, |Dec(n)|) == 21 && !CountsItself(n, (n + 21) % WORD)
  {
    assert n >= Bounds(20) by {
      Pow10Values();
      BoundsOverflow();
    }
    assert |Dec(n)| == 20 by {
      WordDigits(n, 0);
    }
    if n + 21 < WORD {
      SmallRest(n + 21);
    } else {
      WrappedRest(n + 21);
    }
    NotOwnLength(n, (n + 21) % WORD);
  }

  /** Turns n into n plus the length of the result and writes it, if it takes at most maxCount digits.  This holds
      exactly for numbers of less than 20 digits: for longer ones 10^20 overflows, and one digit too many is counted. */
  method SelfLengthGenerate(n: nat, maxCount: nat) returns (value: nat, ok: bool, str: text)
    requires n < WORD
    ensures CountsItself(n, value) <==> n < Pow10(19)
    ensures n < Pow10(19) ==> value == SelfLength(n) && (ok <==> |Dec(value)| <= maxCount)
    ensures n >= Pow10(19) ==> value == (n + 21) % WORD && (ok <==> 21 <= maxCount)
    ensures ok ==> str == Dec(value)
  {
    var count := CountDigits(n);
    var bounds := BoundsOf(count);
    if n >= bounds - count {
      count := count + 1;
    }
    value := (n + count) % WORD;
    Generated(n, count, value);
    str := [];
    ok := count <= maxCount;
    if ok {
      str := Dec(value);
    }
  }

  lemma Generated(n: nat, count: nat, value: nat)
    requires n < WORD && count == Counted(n, |Dec(n)|) && value == (n + count) % WORD
    ensures CountsItself(n, value) <==> n < Pow10(19)
    ensures n < Pow10(19) ==> value == SelfLength(n) && count == |Dec(value)|
    ensures n >= Pow10(19) ==> count == 21
  {
    if n < Pow10(19) {
      ShortNumber(n);
      SmallRest(n + count);
    } else {
      LongNumber(n);
    }
  }

  lemma SmallRest(x: nat)
    requires x < WORD
    ensures x % WORD == x
  {
  }
}
