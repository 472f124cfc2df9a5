/** Machine words and small shared datatypes. */
module Common {

  datatype Option<+T> = None | Some(value: T)

  type byte = x: int | 0 <= x < 0x100
  type u16 = x: int | 0 <= x < 0x1_0000
  type u32 = x: int | 0 <= x < 0x1_0000_0000
  type i32 = x: int | -0x8000_0000 <= x < 0x8000_0000

  /** Unsigned 16-bit wrap-around. */
  function U16(x: int): u16 {
    if 0 <= x < 0x1_0000 then x else x % 0x1_0000
  }

  /** Unsigned 32-bit wrap-around. */
  function U32(x: int): u32 {
    if 0 <= x < 0x1_0000_0000 then x else x % 0x1_0000_0000
  }

  /** Reinterpretation as a signed 32-bit word (two's complement). */
  function I32(x: int): i32 {
    if -0x8000_0000 <= x < 0x8000_0000 then x
    else (x + 0x8000_0000) % 0x1_0000_0000 - 0x8000_0000
  }

  lemma WordsInRange(x: int)
    ensures 0 <= x < 0x1_0000_0000 ==> U32(x) == x
    ensures -0x8000_0000 <= x < 0x8000_0000 ==> I32(x) == x
  {
  }

  /** Subtracting a wrapped difference restores the subtrahend. */
  lemma WrapOffset(ts: u32, base: u32, delta: nat)
    requires base + delta < 0x1_0000_0000
    ensures U32(ts - I32(ts - base) + delta) == base + delta
  {
  }

  /** Lowering a wrapped offset raises the wrapped position by the same amount. */
  lemma WrapShift(ts: u32, offset: i32, delay: u32, shift: nat)
    requires U32(ts - offset + delay) + shift < 0x1_0000_0000
    ensures U32(ts - I32(offset - shift) + delay) == U32(ts - offset + delay) + shift
  {
  }

  lemma ConcatAssoc<T>(a: seq<T>, b: seq<T>, c: seq<T>)
    ensures a + (b + c) == a + b + c
  {
  }

  function Min(a: int, b: int): int {
    if a <= b then a else b
  }

  /** Multiples of n are at least n apart. */
  lemma MulGap(n: nat, x: int, y: int)
    requires x < y
    ensures n * x + n <= n * y
  {
    assert n * y == n * x + n * (y - x);
    MulMonotone(1, y - x, n);
  }

  lemma MulMonotone(a: nat, b: nat, n: nat)
    requires a <= b
    ensures a * n <= b * n
  {
  }

  /** Quotient and remainder are determined by a == n * q + r with 0 <= r < n. */
  lemma DivUnique(a: nat, n: nat, q: nat, r: nat)
    requires n > 0 && r < n && a == n * q + r
    ensures a / n == q && a % n == r
  {
    assert a == n * (a / n) + a % n;
    if q < a / n {
      MulGap(n, q, a / n);
    } else if a / n < q {
      MulGap(n, a / n, q);
    }
  }

  /** Moving one step of length n moves the quotient by exactly one. */
  lemma DivStep(a: nat, n: nat)
    requires n > 0
    ensures (a + n) / n == a / n + 1
    ensures (a + n) % n == a % n
  {
    assert a == n * (a / n) + a % n;
    assert n * (a / n + 1) == n * (a / n) + n;
    DivUnique(a + n, n, a / n + 1, a % n);
  }

  /** Whole steps of length n that fit into x: the quotient, defined by counting. */
  function Steps(x: nat, n: nat): nat
    requires n > 0
    decreases x
  {
    if x < n then 0 else 1 + Steps(x - n, n)
  }

  /** What is left of x after all whole steps: the remainder, defined by counting. */
  function Residue(x: nat, n: nat): (r: nat)
    requires n > 0
    ensures r < n
    decreases x
  {
    if x < n then x else Residue(x - n, n)
  }

  /** x is a whole number of steps of length n. */
  predicate Aligned(x: nat, n: nat)
    requires n > 0
    decreases x
  {
    x == 0 || (n <= x && Aligned(x - n, n))
  }

  /** Largest whole number of steps of length n not above x. */
  function AlignDown(x: nat, n: nat): (r: nat)
    requires n > 0
    ensures r <= x < r + n && Aligned(r, n)
    decreases x
  {
    if x < n then 0 else AlignDown(x - n, n) + n
  }

  /** Counting steps is division. */
  lemma {:induction false} StepsIsDivision(x: nat, n: nat)
    requires n > 0
    ensures Steps(x, n) == x / n && Residue(x, n) == x % n && AlignDown(x, n) == x - x % n
    ensures Aligned(x, n) <==> x % n == 0
    decreases x
  {
    if x >= n {
      StepsIsDivision(x - n, n);
      DivStep(x - n, n);
    } else {
      DivUnique(x, n, 0, x);
    }
  }

  /** Two numbers less than n apart have different residues. */
  lemma {:induction false} ResiduesDiffer(a: nat, b: nat, n: nat)
    requires a < b < a + n
    ensures Residue(a, n) != Residue(b, n)
    decreases a
  {
    if a >= n {
      ResiduesDiffer(a - n, b - n, n);
    } else if b >= n {
      assert Residue(b, n) == b - n;
    }
  }

  /** Beyond an aligned position, steps are counted from there on. */
  lemma {:induction false} StepsFromAligned(x: nat, base: nat, n: nat)
    requires n > 0 && base <= x && Aligned(base, n)
    ensures Steps(x, n) == Steps(base, n) + Steps(x - base, n)
    decreases base
  {
    if base > 0 {
      StepsFromAligned(x - n, base - n, n);
    }
  }

  lemma {:induction false} StepsMonotone(x: nat, y: nat, n: nat)
    requires n > 0 && x <= y
    ensures Steps(x, n) <= Steps(y, n)
    decreases x
  {
    if x >= n {
      StepsMonotone(x - n, y - n, n);
    }
  }

  /** The distance of two aligned positions is aligned, and at least one step if they differ. */
  lemma {:induction false} AlignedDistance(x: nat, y: nat, n: nat)
    requires n > 0 && x <= y && Aligned(x, n) && Aligned(y, n)
    ensures Aligned(y - x, n) && (x < y ==> n <= y - x)
    decreases x
  {
    if x > 0 {
      AlignedDistance(x - n, y - n, n);
    }
  }

  /** Aligning down keeps every aligned position below. */
  lemma {:induction false} AlignDownAbove(d: nat, x: nat, n: nat)
    requires n > 0 && Aligned(d, n) && d <= x
    ensures d <= AlignDown(x, n)
    decreases d
  {
    if d > 0 {
      AlignDownAbove(d - n, x - n, n);
    }
  }

  /** The position k steps after ts. */
  function After(ts: nat, n: nat, k: nat): (end: nat)
    ensures end >= ts
    decreases k
  {
    if k == 0 then ts else After(ts + n, n, k - 1)
  }

  lemma {:induction false} AfterIsSum(ts: nat, n: nat, k: nat)
    ensures After(ts, n, k) == ts + k * n
    decreases k
  {
    if k > 0 {
      AfterIsSum(ts + n, n, k - 1);
      assert k * n == n + (k - 1) * n;
    }
  }

  lemma {:induction false} AfterMonotone(ts: nat, n: nat, j: nat, k: nat)
    requires j <= k
    ensures After(ts, n, j) <= After(ts, n, k)
    decreases j
  {
    if j > 0 {
      AfterMonotone(ts + n, n, j - 1, k - 1);
    }
  }

  lemma {:induction false} StepsAfter(ts: nat, n: nat, k: nat)
    requires n > 0
    ensures Steps(After(ts, n, k), n) == Steps(ts, n) + k
    decreases k
  {
    if k > 0 {
      StepsAfter(ts + n, n, k - 1);
    }
  }

  lemma {:induction false} AfterNext(ts: nat, n: nat, k: nat)
    ensures After(ts, n, k + 1) == After(ts, n, k) + n
    decreases k
  {
    if k > 0 {
      AfterNext(ts + n, n, k - 1);
    }
  }

  /** Fewer than k whole steps are less than k steps. */
  lemma {:induction false} StepsBelow(x: nat, n: nat, k: nat)
    requires n > 0
    ensures Steps(x, n) < k <==> x < After(0, n, k)
    decreases x
  {
    if x >= n && k > 0 {
      StepsBelow(x - n, n, k - 1);
      AfterNext(0, n, k - 1);
    } else if k > 0 {
      AfterNext(0, n, k - 1);
    }
  }

  /** One more than x moves the residue by one, or back to zero. */
  lemma {:induction false} ResidueNext(x: nat, n: nat)
    requires n > 0
    ensures Residue(x + 1, n) == if Residue(x, n) + 1 == n then 0 else Residue(x, n) + 1
    decreases x
  {
    if x >= n {
      ResidueNext(x - n, n);
    }
  }
}
