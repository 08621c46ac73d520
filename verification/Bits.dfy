/** Bit scans and bit masks of lib/bits_generic.h and of the bitmap users (lib/mm/gma.c, kernel/thread.c).

    A machine word is a natural number; `Bit(w, k)` reads its k-th bit. */
module Bits {

  const WORD_LIMIT: nat := 0x1_0000_0000

  function Pow2(k: nat): (r: nat)
    ensures r > 0
  {
    if k == 0 then 1 else 2 * Pow2(k - 1)
  }

  lemma {:induction false} Pow2Monotone(j: nat, k: nat)
    requires j <= k
    ensures Pow2(j) <= Pow2(k)
    ensures j < k ==> 2 * Pow2(j) <= Pow2(k)
    decreases k
  {
    if j < k {
      Pow2Monotone(j, k - 1);
    }
  }

  lemma {:induction false} Pow2Add(j: nat, k: nat)
    ensures Pow2(j + k) == Pow2(j) * Pow2(k)
  {
    hide *;
    Pow2Is(j);
    Pow2Is(j + k);
    if j > 0 {
      Pow2Add(j - 1, k);
      DoubledProduct(Pow2(j - 1), Pow2(k));
    }
  }

  lemma Pow2Is(k: nat)
    ensures Pow2(k) == if k == 0 then 1 else 2 * Pow2(k - 1)
  {
  }

  lemma DoubledProduct(a: nat, b: nat)
    ensures 2 * (a * b) == (2 * a) * b
  {
  }

  lemma {:induction false} Pow2Exceeds(k: nat)
    ensures k < Pow2(k)
  {
    if k > 0 {
      Pow2Exceeds(k - 1);
    }
  }

  lemma Pow2Constants()
    ensures Pow2(1) == 2 && Pow2(2) == 4 && Pow2(4) == 16 && Pow2(5) == 32
    ensures Pow2(8) == 256 && Pow2(16) == 65536 && Pow2(32) == WORD_LIMIT
  {
    assert Pow2(8) == 256;
    Pow2Add(8, 8);
    Pow2Add(16, 16);
  }

  // ---------------------------------------------------------------- most significant bit

  /** Index of the most significant set bit, counted by halving. */
  function Msb(n: nat): (r: nat)
    requires n > 0
    ensures Pow2(r) <= n < Pow2(r + 1)
  {
    if n == 1 then 0 else 1 + Msb(n / 2)
  }

  /** The bracket in the contract of `Msb` determines the index. */
  lemma MsbUnique(n: nat, r: nat)
    requires Pow2(r) <= n < Pow2(r + 1)
    ensures n > 0 && Msb(n) == r
  {
    if Msb(n) < r {
      Pow2Monotone(Msb(n) + 1, r);
    } else if Msb(n) > r {
      Pow2Monotone(r + 1, Msb(n));
    }
  }

  lemma MsbMonotone(m: nat, n: nat)
    requires 0 < m <= n
    ensures Msb(m) <= Msb(n)
  {
    if Msb(n) < Msb(m) {
      Pow2Monotone(Msb(n) + 1, Msb(m));
    }
  }

  /** Shifting out k low bits lowers the index by k. */
  lemma {:induction false} MsbShift(n: nat, k: nat)
    requires n >= Pow2(k)
    ensures n / Pow2(k) > 0 && Msb(n) == k + Msb(n / Pow2(k))
  {
    if k > 0 {
      MsbShift(n / 2, k - 1);
      HalveThenDivide(n, Pow2(k - 1));
    }
  }

  lemma HalveThenDivide(n: nat, d: nat)
    requires d > 0
    ensures n / 2 / d == n / (2 * d)
    ensures n % (2 * d) == 2 * (n / 2 % d) + n % 2
  {
    var q, r := n / (2 * d), n % (2 * d);
    assert n == q * (2 * d) + r;
    assert n / 2 == q * d + r / 2 by {
      assert q * (2 * d) == 2 * (q * d);
    }
    DivUnique(n / 2, d, q, r / 2);
  }

  lemma MulAtLeast(x: int, d: int)
    requires d >= 0
    ensures x >= 1 ==> x * d >= d
    ensures x <= -1 ==> x * d <= -d
  {
    if x >= 1 {
      assert (x - 1) * d >= 0;
    } else if x <= -1 {
      assert (-x - 1) * d >= 0;
    }
  }

  lemma DivUnique(n: nat, d: nat, q: nat, r: nat)
    requires r < d && n == q * d + r
    ensures n / d == q && n % d == r
  {
    var x := q - n / d;
    assert x * d == n % d - r by {
      assert n == (n / d) * d + n % d;
      assert x * d == q * d - (n / d) * d;
    }
    MulAtLeast(x, d);
  }

  lemma QuotientBelow(n: nat, d: nat)
    requires d > 0 && n < d * d
    ensures n / d < d
  {
    assert n == (n / d) * d + n % d;
    assert (n / d - d) * d == (n / d) * d - d * d;
    if n / d > d {
      MulAtLeast(n / d - d, d);
    }
  }

  /** One test of the scan: a number below window^2 is narrowed to one below the window. */
  lemma NarrowWindow(num: nat, shift: nat, window: nat)
    requires window == Pow2(shift) && 0 < num < window * window
    ensures num >= window ==> 0 < num / window < window && Msb(num) == shift + Msb(num / window)
  {
    if num >= window {
      MsbShift(num, shift);
      QuotientBelow(num, window);
    }
  }

  lemma NarrowTo16(num: nat)
    requires 65536 <= num < WORD_LIMIT
    ensures 0 < num / 65536 < 65536 && Msb(num) == 16 + Msb(num / 65536)
  {
    Pow2Constants();
    NarrowWindow(num, 16, 65536);
  }

  lemma NarrowTo8(num: nat)
    requires 256 <= num < 65536
    ensures 0 < num / 256 < 256 && Msb(num) == 8 + Msb(num / 256)
  {
    Pow2Constants();
    NarrowWindow(num, 8, 256);
  }

  lemma NarrowTo4(num: nat)
    requires 16 <= num < 256
    ensures 0 < num / 16 < 16 && Msb(num) == 4 + Msb(num / 16)
  {
    Pow2Constants();
    NarrowWindow(num, 4, 16);
  }

  /** The last two of the five tests. */
  method MsbIndex4(n: nat) returns (msb: nat)
    requires 0 < n < 16
    ensures msb == Msb(n)
  {
    var num := n;
    msb := 0;
    if num >= 4 { msb := msb + 2; num := num / 4; }
    if num >= 2 { msb := msb + 1; }
  }

  /** The branch sequence for 32-bit words: each test halves the window. */
  method MsbIndex32(n: nat) returns (msb: nat)
    requires 0 < n < WORD_LIMIT
    ensures msb == Msb(n)
  {
    var num := n;
    msb := 0;
    if num >= 65536 { NarrowTo16(num); msb := msb + 16; num := num / 65536; }
    if num >= 256 { NarrowTo8(num); msb := msb + 8; num := num / 256; }
    if num >= 16 { NarrowTo4(num); msb := msb + 4; num := num / 16; }
    var low := MsbIndex4(num);
    msb := msb + low;
  }

  /** The loop for any word of `2 * half` bits, `half` a power of two (16 for a 32-bit int). */
  method MsbIndexGeneric(n: nat, half: nat, ghost e: nat) returns (msb: nat)
    requires half == Pow2(e)
    requires 0 < n < Pow2(2 * half)
    ensures msb == Msb(n)
  {
    var num, i := n, half;
    ghost var k := e;
    Pow2Add(i, i);
    msb := 0;
    while i > 0
      invariant i == 0 || i == Pow2(k)
      invariant 0 < num
      invariant if i == 0 then num == 1 else num < Pow2(i) * Pow2(i)
      invariant Msb(n) == msb + Msb(num)
      decreases i
    {
      var window := Pow2(i);
      NarrowWindow(num, i, window);
      if num >= window {
        num := num / window;
        msb := msb + i;
      }
      if k > 0 {
        Pow2Add(i / 2, i / 2);
        k := k - 1;
      }
      i := i / 2;
    }
  }

  // ---------------------------------------------------------------- bit masks

  predicate Bit(w: nat, k: nat) {
    if k == 0 then w % 2 == 1 else Bit(w / 2, k - 1)
  }

  /** w | (1 << k) */
  function SetBit(w: nat, k: nat): nat {
    if Bit(w, k) then w else w + Pow2(k)
  }

  /** w & ~(1 << k) */
  function ClearBit(w: nat, k: nat): (r: nat)
  {
    BitBound(w, k);
    if Bit(w, k) then w - Pow2(k) else w
  }

  /** w & (~0 << k) */
  function MaskFrom(w: nat, k: nat): nat {
    if k == 0 then w else 2 * MaskFrom(w / 2, k - 1)
  }

  /** Index of the least significant set bit. */
  function Lsb(w: nat): (r: nat)
    requires w > 0
    ensures Bit(w, r)
    ensures forall j: nat :: Bit(w, j) ==> r <= j
  {
    if w % 2 == 1 then 0 else 1 + Lsb(w / 2)
  }

  lemma {:induction false} BitBound(w: nat, k: nat)
    ensures Bit(w, k) ==> w >= Pow2(k)
  {
    if k > 0 {
      BitBound(w / 2, k - 1);
    }
  }

  lemma {:induction false} MsbIsSet(w: nat)
    requires w > 0
    ensures Bit(w, Msb(w))
    ensures forall j: nat :: Bit(w, j) ==> j <= Msb(w)
  {
    if w > 1 {
      MsbIsSet(w / 2);
    }
    forall j: nat | Bit(w, j) ensures j <= Msb(w) {
      if j > 0 && w > 1 { assert Bit(w / 2, j - 1); }
      if w == 1 { BitBound(w, j); Pow2Monotone(0, j); }
    }
  }

  lemma {:induction false} AddPow2Bit(w: nat, k: nat, j: nat)
    requires !Bit(w, k)
    ensures Bit(w + Pow2(k), j) <==> (j == k || Bit(w, j))
  {
    if k > 0 {
      assert (w + Pow2(k)) / 2 == w / 2 + Pow2(k - 1);
      assert (w + Pow2(k)) % 2 == w % 2;
      if j > 0 {
        AddPow2Bit(w / 2, k - 1, j - 1);
      }
    } else if j > 0 {
      assert (w + 1) / 2 == w / 2;
    }
  }

  lemma SetBitBits(w: nat, k: nat, j: nat)
    ensures Bit(SetBit(w, k), j) <==> (j == k || Bit(w, j))
  {
    if !Bit(w, k) {
      AddPow2Bit(w, k, j);
    }
  }

  lemma {:induction false} SubPow2Bit(w: nat, k: nat, j: nat)
    requires Bit(w, k) && w >= Pow2(k)
    ensures Bit(w - Pow2(k), j) <==> (j != k && Bit(w, j))
  {
    if k > 0 {
      BitBound(w / 2, k - 1);
      assert (w - Pow2(k)) / 2 == w / 2 - Pow2(k - 1);
      assert (w - Pow2(k)) % 2 == w % 2;
      if j > 0 {
        SubPow2Bit(w / 2, k - 1, j - 1);
      }
    } else if j > 0 {
      assert (w - 1) / 2 == w / 2;
    }
  }

  lemma ClearBitBits(w: nat, k: nat, j: nat)
    ensures Bit(ClearBit(w, k), j) <==> (j != k && Bit(w, j))
  {
    BitBound(w, k);
    if Bit(w, k) {
      SubPow2Bit(w, k, j);
    }
  }

  lemma {:induction false} MaskFromBits(w: nat, k: nat, j: nat)
    ensures Bit(MaskFrom(w, k), j) <==> (k <= j && Bit(w, j))
  {
    if k > 0 {
      if j > 0 {
        MaskFromBits(w / 2, k - 1, j - 1);
      }
    }
  }

  /** A word below 2^n is determined by its n low bits. */
  lemma {:induction false} BitsDetermine(v: nat, w: nat, n: nat)
    requires v < Pow2(n) && w < Pow2(n)
    requires forall j: nat | j < n :: Bit(v, j) <==> Bit(w, j)
    ensures v == w
  {
    if n > 0 {
      assert Bit(v, 0) <==> Bit(w, 0);
      forall j: nat | j < n - 1 ensures Bit(v / 2, j) <==> Bit(w / 2, j) {
        assert Bit(v, j + 1) <==> Bit(w, j + 1);
      }
      BitsDetermine(v / 2, w / 2, n - 1);
    }
  }

  lemma {:induction false} SetBitBound(w: nat, k: nat, n: nat)
    requires w < Pow2(n) && k < n
    ensures SetBit(w, k) < Pow2(n)
  {
    if k > 0 {
      SetBitBound(w / 2, k - 1, n - 1);
      assert Bit(w, k) == Bit(w / 2, k - 1);
      assert Pow2(n) == 2 * Pow2(n - 1) && Pow2(k) == 2 * Pow2(k - 1);
      hide *;
    } else {
      assert Pow2(n) == 2 * Pow2(n - 1);
    }
  }

  /** No bit is set from n on in a word below 2^n. */
  lemma HighBitsClear(w: nat, n: nat, k: nat)
    requires w < Pow2(n) && n <= k
    ensures !Bit(w, k)
  {
    BitBound(w, k);
    Pow2Monotone(n, k);
  }

  /** A word is zero when none of its bits is set. */
  lemma ZeroIffNoBit(w: nat)
    ensures w == 0 ==> forall k: nat :: !Bit(w, k)
    ensures w != 0 ==> exists k: nat :: Bit(w, k)
  {
    if w == 0 {
      forall k: nat ensures !Bit(w, k) {
        BitBound(w, k);
      }
    } else {
      assert Bit(w, Lsb(w));
    }
  }
}
