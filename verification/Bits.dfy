/** Power-of-two sizes, bit masks and modular counters shared by every ring in the system. */
module Bits {

  datatype Option<+T> = None | Some(value: T)

  const TWO24 := 0x100_0000
  const TWO31 := 0x8000_0000
  const TWO32 := 0x1_0000_0000

  predicate IsPow2(n: nat) {
    n == 1 || (n > 1 && n % 2 == 0 && IsPow2(n / 2))
  }

  /** Bitwise conjunction of two naturals, bit by bit. */
  function And(x: nat, y: nat): nat {
    if x == 0 then 0
    else 2 * And(x / 2, y / 2) + (if x % 2 == 1 && y % 2 == 1 then 1 else 0)
  }

  /** A multiple of `s` strictly between `-s` and `s` is zero. */
  lemma SmallMultiple(d: int, s: int)
    requires s > 0 && -s < d * s < s
    ensures d == 0
  {
  }

  /** Quotient and remainder are unique. */
  lemma DivModUnique(x: int, s: int, q: int, r: int)
    requires 0 <= r < s
    requires x == q * s + r
    ensures x / s == q && x % s == r
  {
    var p := x / s;
    assert x == p * s + x % s;
    assert (p - q) * s == p * s - q * s;
    SmallMultiple(p - q, s);
  }

  /** A remainder assembled from a high and a low digit. */
  lemma TwoDigits(x: nat, b: nat, m: nat)
    requires b > 0 && m > 0
    ensures b * m > 0
    ensures x % (b * m) == b * ((x / b) % m) + x % b
  {
    DivMod(x, b);
    DivMod(x / b, m);
    Assembled(x, b, m, x / b / m, x / b % m, x % b);
  }

  lemma DivMod(x: nat, b: nat)
    requires b > 0
    ensures x == b * (x / b) + x % b && 0 <= x % b < b && x / b >= 0
  {
  }

  lemma Assembled(x: nat, b: nat, m: nat, k: nat, d: nat, r: nat)
    requires b > 0 && m > 0 && r < b && d < m && x == b * (m * k + d) + r
    ensures b * m > 0 && x % (b * m) == b * d + r
  {
    Digits(b, m, k, d, r);
    Positive(b, m);
    DivModUnique(x, b * m, k, b * d + r);
  }

  lemma Digits(b: nat, m: nat, k: nat, d: nat, r: nat)
    requires r < b && d < m
    ensures b * d + r < b * m
    ensures b * (m * k + d) + r == k * (b * m) + (b * d + r)
  {
    var e := m - d - 1;
    assert b * m == b * (d + 1 + e) == b * d + b + b * e;
    assert b * (m * k + d) == b * (m * k) + b * d;
    assert b * (m * k) == (b * m) * k == k * (b * m);
  }

  lemma Positive(b: nat, m: nat)
    requires b > 0 && m > 0
    ensures b * m > 0
  {
  }

  lemma HalvedMod(x: nat, t: nat)
    requires t > 0
    ensures x % (2 * t) == 2 * ((x / 2) % t) + x % 2
  {
    TwoDigits(x, 2, t);
  }

  /** The code indexes with `pos & (size - 1)`; for a power of two that is the remainder. */
  lemma {:induction false} MaskIsMod(x: nat, s: nat)
    requires IsPow2(s)
    ensures And(x, s - 1) == x % s
    decreases x
  {
    if x == 0 {
    } else if s == 1 {
      MaskIsMod(x / 2, 1);
    } else {
      assert (s - 1) / 2 == s / 2 - 1;
      MaskIsMod(x / 2, s / 2);
      HalvedMod(x, s / 2);
    }
  }

  /** `x & mask` as an index into a ring of `size` slots. */
  function Index(x: nat, size: nat): (i: nat)
    requires IsPow2(size)
    ensures i == x % size && i < size
  {
    MaskIsMod(x, size);
    And(x, size - 1)
  }

  /** Among powers of two, the smaller divides the larger. */
  lemma {:induction false} Pow2Divides(s: nat, t: nat)
    requires IsPow2(s) && IsPow2(t) && s <= t
    ensures t % s == 0
  {
    if s == 1 {
    } else {
      Pow2Divides(s / 2, t / 2);
      HalvedMod(t, s / 2);
    }
  }

  lemma {:induction false} Pow2Product(a: nat, b: nat)
    requires IsPow2(a) && IsPow2(b)
    ensures IsPow2(a * b)
  {
    if a > 1 {
      Pow2Product(a / 2, b);
      var h := a / 2 * b;
      assert a * b == 2 * h by {
        assert a == 2 * (a / 2);
      }
      assert (2 * h) / 2 == h;
    }
  }

  lemma Two32IsPow2()
    ensures IsPow2(TWO31) && IsPow2(TWO32)
  {
    assert IsPow2(2) && IsPow2(16) by { assert IsPow2(4); }
    Pow2Product(16, 16);
    Pow2Product(256, 256);
    Pow2Product(0x1_0000, 0x1_0000);
    assert TWO32 / 2 == TWO31;
  }

  lemma Pow2Fits(n: nat)
    requires IsPow2(n) && n < TWO32
    ensures n <= TWO31
  {
    Two32IsPow2();
    if n > TWO31 { Pow2Divides(TWO31, n); }
  }

  lemma ModOfMod(x: int, s: int, t: int)
    requires s > 0 && t > 0 && t % s == 0
    ensures (x % t) % s == x % s
  {
    var a, b := x / t, t / s;
    var y := x % t;
    assert t == b * s;
    assert x == a * t + y;
    assert y == y / s * s + y % s;
    assert x == (a * b + y / s) * s + y % s by {
      assert a * t == a * (b * s) == (a * b) * s;
      assert (a * b + y / s) * s == (a * b) * s + y / s * s;
    }
    DivModUnique(x, s, a * b + y / s, y % s);
  }

  /** Two positions less than `s` apart share a slot only if they are the same position. */
  lemma SameSlot(a: int, b: int, s: int)
    requires s > 0 && a <= b < a + s && a % s == b % s
    ensures a == b
  {
    var qa, qb := a / s, b / s;
    assert a == qa * s + a % s && b == qb * s + b % s;
    assert b - a == (qb - qa) * s by {
      assert (qb - qa) * s == qb * s - qa * s;
    }
    SmallMultiple(qb - qa, s);
  }

  lemma ShiftSlot(a: int, k: int, s: int)
    requires s > 0
    ensures (a + k * s) % s == a % s
  {
    assert a == a / s * s + a % s;
    assert a + k * s == (a / s + k) * s + a % s by {
      assert (a / s + k) * s == a / s * s + k * s;
    }
    DivModUnique(a + k * s, s, a / s + k, a % s);
  }

  /** The smallest of `from`, `2 * from`, `4 * from`, ... that is at least `capacity`. */
  function DoubledTo(capacity: nat, from: nat): nat
    requires from > 0
    decreases capacity - from
  {
    if from >= capacity then from else DoubledTo(capacity, 2 * from)
  }

  /** The size a ring is rounded up to. */
  function Rounded(capacity: nat): nat {
    DoubledTo(capacity, 1)
  }

  /** The doubling loop of every ring constructor. */
  method RoundUpPow2(capacity: nat) returns (size: nat)
    ensures IsPow2(size) && size == Rounded(capacity) && capacity <= size
    ensures size == 1 || size < 2 * capacity
  {
    size := 1;
    while size < capacity
      invariant IsPow2(size) && DoubledTo(capacity, size) == Rounded(capacity)
      invariant size == 1 || size < 2 * capacity
    {
      assert (2 * size) / 2 == size;
      size := 2 * size;
    }
  }

  // ----- the same loop in uint32 arithmetic -----------------------------------------------------

  /** The size after `k` turns of a doubling loop on a uint32. */
  function Doubled32(k: nat): nat {
    if k == 0 then 1 else 2 * Doubled32(k - 1) % TWO32
  }

  lemma DoubledPow2(x: nat)
    requires IsPow2(x) && x < TWO31
    ensures IsPow2(2 * x) && 2 * x <= TWO31
  {
    assert 2 * x / 2 == x;
    Pow2Fits(2 * x);
  }

  lemma Wrapped32(x: nat)
    requires x <= TWO31
    ensures 2 * x % TWO32 == if x == TWO31 then 0 else 2 * x
  {
  }

  lemma {:induction false} Doubled32Bound(k: nat)
    ensures Doubled32(k) == 0 || (IsPow2(Doubled32(k)) && Doubled32(k) <= TWO31)
  {
    if k > 0 {
      hide IsPow2;
      Doubled32Bound(k - 1);
      var x := Doubled32(k - 1);
      Wrapped32(x);
      if 0 < x < TWO31 { DoubledPow2(x); }
    }
  }

  lemma {:induction false} Doubled32Reaches(x: nat) returns (k: nat)
    requires IsPow2(x) && x <= TWO31
    ensures Doubled32(k) == x
  {
    hide IsPow2;
    Halved(x);
    if x == 1 {
      k := 0;
    } else {
      var j := Doubled32Reaches(x / 2);
      k := j + 1;
      assert Doubled32(k) == x % TWO32;
    }
  }

  lemma Halved(x: nat)
    requires IsPow2(x)
    ensures x >= 1 && (x > 1 ==> IsPow2(x / 2) && 2 * (x / 2) == x)
  {
  }

  /** The loop `for size < capacity { size <<= 1 }` ends iff the capacity is at most 2^31. */
  lemma DoublingEndsIff(capacity: nat)
    ensures (exists k :: Doubled32(k) >= capacity) <==> capacity <= TWO31
  {
    if capacity <= TWO31 {
      Two32IsPow2();
      var k := Doubled32Reaches(TWO31);
      assert Doubled32(k) >= capacity;
    } else {
      forall k ensures Doubled32(k) < capacity { Doubled32Bound(k); }
    }
  }

  // ----- sums over identifiers ---------------------------------------------------------------------

  /** Sum of the counts under identifiers below `n`. */
  function SumBelow(counts: map<nat, nat>, n: nat): nat {
    if n == 0 then 0 else SumBelow(counts, n - 1) + if n - 1 in counts then counts[n - 1] else 0
  }

  /** Taking one identifier out takes exactly its count out, so the visiting order is irrelevant. */
  lemma {:induction false} SumWithout(counts: map<nat, nat>, id: nat, n: nat)
    requires id in counts
    ensures SumBelow(counts - {id}, n) + (if id < n then counts[id] else 0) == SumBelow(counts, n)
  {
    if n > 0 {
      SumWithout(counts, id, n - 1);
    }
  }

  lemma {:induction false} SumOfNone(n: nat)
    ensures SumBelow(map[], n) == 0
  {
    if n > 0 { SumOfNone(n - 1); }
  }

  /** Changing one count changes the sum by as much. */
  lemma {:induction false} SumUpdated(counts: map<nat, nat>, id: nat, v: nat, n: nat)
    requires id in counts && id < n
    ensures SumBelow(counts[id := v], n) + counts[id] == SumBelow(counts, n) + v
  {
    SumWithout(counts, id, n);
    SumWithout(counts[id := v], id, n);
    assert counts[id := v] - {id} == counts - {id};
  }
}
