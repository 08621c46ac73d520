/** Size classes of the Grid Memory Allocator (lib/mm/gma.h:16-101, get_indexes in lib/mm/gma.c), for the
    32-bit instance: L = 5, 32 lists in a row, sizes that are multiples of 4 bytes.

    A list is named by one number, its slot: 32 * fl + sl. */
module GmaIndex {
  import opened Bits

  const L: nat := 5
  const SL_DIM: nat := 32
  const EXACT_LIMIT_SIZE: nat := 256
  const FIRST_SLOT: nat := L * SL_DIM

  /** Width of the size range of one list in row fl. */
  function Step(fl: nat): (r: nat)
    requires fl >= L
    ensures r > 0
  {
    Pow2(fl - L)
  }

  /** The list a free chunk of `size` bytes is kept in. */
  function Slot(size: nat): (k: nat)
    requires size >= 32
    ensures k >= FIRST_SLOT && k / SL_DIM == Msb(size)
  {
    SlotParts(size);
    SL_DIM * Msb(size) + (size / Step(Msb(size)) - SL_DIM)
  }

  /** Smallest size a list may hold: 2^fl + sl * 2^(fl-L). */
  function SlotMin(k: nat): nat
    requires k >= FIRST_SLOT
  {
    (SL_DIM + k % SL_DIM) * Step(k / SL_DIM)
  }

  lemma SlotParts(size: nat)
    requires size >= 32
    ensures Msb(size) >= L
    ensures SL_DIM <= size / Step(Msb(size)) < 2 * SL_DIM
  {
    var fl := Msb(size);
    Pow2Constants();
    if fl < L { Pow2Monotone(fl + 1, L); }
    Pow2Add(L, fl - L);
    DivBracket(size, Step(fl), 32, 64);
  }

  /** The shift by fl - L is one to the right for every chunk size exactly when the minimal chunk has 32 bytes
      or more. */
  lemma ShiftDefinedIff(min: nat)
    requires 0 < min
    ensures (forall size: nat | size >= min :: Msb(size) >= L) <==> min >= 32
  {
    if min >= 32 {
      forall size: nat | size >= min ensures Msb(size) >= L {
        SlotParts(size);
      }
    } else {
      Pow2Constants();
      if Msb(min) >= L {
        Pow2Monotone(L, Msb(min));
      }
      assert Msb(min) < L;
    }
  }

  lemma DivBracket(n: nat, d: nat, lo: nat, hi: nat)
    requires d > 0 && lo * d <= n < hi * d
    ensures lo <= n / d < hi
  {
    var q := n / d;
    assert n == q * d + n % d;
    assert (hi - q) * d == hi * d - q * d;
    assert (lo - q) * d == lo * d - q * d;
    MulAtLeast(hi - q, d);
    MulAtLeast(lo - q, d);
  }

  /** Lists of one row are Step apart, and the last list of a row ends where the next row begins. */
  lemma SlotMinNext(k: nat)
    requires k >= FIRST_SLOT
    ensures SlotMin(k + 1) == SlotMin(k) + Step(k / SL_DIM)
  {
    var fl, sl := k / SL_DIM, k % SL_DIM;
    if sl == SL_DIM - 1 {
      assert (k + 1) / SL_DIM == fl + 1 && (k + 1) % SL_DIM == 0;
      assert SL_DIM * (2 * Step(fl)) == (SL_DIM + sl) * Step(fl) + Step(fl);
    } else {
      assert (k + 1) / SL_DIM == fl && (k + 1) % SL_DIM == sl + 1;
      assert (SL_DIM + sl + 1) * Step(fl) == (SL_DIM + sl) * Step(fl) + Step(fl);
    }
  }

  lemma {:induction false} SlotMinMonotone(j: nat, k: nat)
    requires FIRST_SLOT <= j <= k
    ensures SlotMin(j) <= SlotMin(k)
    ensures j < k ==> SlotMin(j) < SlotMin(k)
    decreases k
  {
    if j < k {
      SlotMinMonotone(j, k - 1);
      SlotMinNext(k - 1);
    }
  }

  lemma SlotFields(fl: nat, q: nat)
    requires fl >= L && SL_DIM <= q < 2 * SL_DIM
    ensures SlotMin(SL_DIM * fl + (q - SL_DIM)) == q * Step(fl)
  {
    var k := SL_DIM * fl + (q - SL_DIM);
    assert k / SL_DIM == fl && k % SL_DIM == q - SL_DIM;
  }

  lemma Floor(n: nat, d: nat)
    requires d > 0
    ensures (n / d) * d == n - n % d && 0 <= n % d < d
  {
  }

  /** The documented size range of a list. */
  lemma SlotBracket(size: nat)
    requires size >= 32
    ensures SlotMin(Slot(size)) <= size < SlotMin(Slot(size)) + Step(Slot(size) / SL_DIM)
    ensures SlotMin(Slot(size)) == size - size % Step(Msb(size))
  {
    SlotParts(size);
    SlotFields(Msb(size), size / Step(Msb(size)));
    Floor(size, Step(Msb(size)));
  }

  /** The size-to-list map is a monotone partition: a chunk is in list k or later exactly when it reaches
      the smallest size of list k. */
  lemma SlotAtLeast(size: nat, k: nat)
    requires size >= 32 && k >= FIRST_SLOT
    ensures Slot(size) >= k <==> size >= SlotMin(k)
  {
    SlotBracket(size);
    SlotMinNext(Slot(size));
    if Slot(size) >= k {
      SlotMinMonotone(k, Slot(size));
    } else {
      SlotMinMonotone(Slot(size) + 1, k);
    }
  }

  /** Membership in a list is decided by its documented range, both ways. */
  lemma SlotPartition(size: nat, k: nat)
    requires size >= 32 && k >= FIRST_SLOT
    ensures Slot(size) == k <==> SlotMin(k) <= size < SlotMin(k) + Step(k / SL_DIM)
  {
    SlotAtLeast(size, k);
    SlotAtLeast(size, k + 1);
    SlotMinNext(k);
  }

  // ---------------------------------------------------------------- searching

  /** The amount a search adds to the requested size. */
  function SearchSlack(size: nat): nat
    requires size >= 32
  {
    SlotParts(size);
    if size >= EXACT_LIMIT_SIZE then Step(Msb(size)) - 1 else 0
  }

  /** What 32 bits keep of a sum. */
  function Low32(n: nat): nat {
    n % WORD_LIMIT
  }

  /** The size that is looked up, as the 32-bit addition leaves it. */
  function Bumped32(size: nat): nat
    requires size >= 32
  {
    Low32(size + SearchSlack(size))
  }

  predicate SearchWraps(size: nat)
    requires size >= 32
  {
    size + SearchSlack(size) >= WORD_LIMIT
  }

  /** First list that is searched. */
  function SearchSlot(size: nat): nat
    requires size >= 32 && Bumped32(size) >= 32
  {
    Slot(Bumped32(size))
  }

  /** The least size of the chunks that a search for `size` can find. */
  function Threshold(size: nat): nat
    requires size >= 32 && Bumped32(size) >= 32
  {
    SlotMin(SearchSlot(size))
  }

  /** Below the exact limit every row's step divides 4, so aligned sizes are list minima. */
  lemma ExactBelowLimit(size: nat)
    requires 32 <= size < EXACT_LIMIT_SIZE && size % 4 == 0
    ensures SlotMin(Slot(size)) == size
  {
    SlotBracket(size);
    SlotParts(size);
    var fl := Msb(size);
    Pow2Constants();
    if fl > 7 { Pow2Monotone(8, fl); }
    assert fl == 5 || fl == 6 || fl == 7;
    assert Step(5) == 1 && Step(6) == 2 && Step(7) == 4;
  }

  /** The first list of row fl starts at 2^fl. */
  lemma RowMin(fl: nat)
    requires fl >= L
    ensures SlotMin(SL_DIM * fl) == Pow2(fl)
  {
    SlotFields(fl, SL_DIM);
    Pow2Constants();
    Pow2Add(L, fl - L);
  }

  /** Rounding up to a list boundary, also when the bumped size carries into the next power of two. */
  lemma BumpReaches(size: nat, bumped: nat)
    requires EXACT_LIMIT_SIZE <= size && bumped == size + SearchSlack(size)
    ensures size <= SlotMin(Slot(bumped))
  {
    MsbMonotone(size, bumped);
    if Msb(bumped) == Msb(size) {
      SlotBracket(bumped);
      SlotParts(size);
      Floor(bumped, Step(Msb(size)));
    } else {
      Pow2Monotone(Msb(size) + 1, Msb(bumped));
      SlotParts(bumped);
      RowMin(Msb(bumped));
      SlotMinMonotone(SL_DIM * Msb(bumped), Slot(bumped));
    }
  }

  lemma SlackFraction(size: nat)
    requires size >= 32
    ensures SearchSlack(size) * 32 <= size
  {
    SlotParts(size);
    var fl := Msb(size);
    assert Pow2(fl) <= size;
    Pow2Constants();
    Pow2Add(L, fl - L);
    hide Msb, Pow2;
    assert Pow2(fl) == 32 * Step(fl);
  }

  lemma Bumped32Is(size: nat)
    requires 32 <= size
    ensures !SearchWraps(size) ==> Bumped32(size) == size + SearchSlack(size)
    ensures size < WORD_LIMIT && SearchWraps(size) ==> Bumped32(size) == size + SearchSlack(size) - WORD_LIMIT
  {
    if size < WORD_LIMIT {
      SlackBound(size);
    }
    hide SearchSlack;
  }

  lemma SlackCases(size: nat)
    requires 32 <= size
    ensures Msb(size) >= L
    ensures SearchSlack(size) == if size >= EXACT_LIMIT_SIZE then Step(Msb(size)) - 1 else 0
  {
    SlotParts(size);
    hide Step, Msb;
  }

  lemma BumpedIs(size: nat)
    requires 32 <= size < WORD_LIMIT
    ensures Msb(size) >= L
    ensures Bumped32(size) == if size >= EXACT_LIMIT_SIZE then Low32(size + (Step(Msb(size)) - 1)) else size
  {
    SlackCases(size);
    Bumped32Mod(size, SearchSlack(size));
    hide Bumped32;
  }

  lemma Bumped32Mod(size: nat, slack: nat)
    requires 32 <= size && slack == SearchSlack(size)
    ensures Bumped32(size) == Low32(size + slack)
    ensures slack == 0 && size < WORD_LIMIT ==> Bumped32(size) == size
  {
    hide SearchSlack;
  }

  lemma BumpedBelow(size: nat)
    requires 32 <= size
    ensures Bumped32(size) < WORD_LIMIT
  {
    hide SearchSlack;
  }

  /** Without a wrap the threshold is the request itself below 256 bytes, and at most Step - 1 (about 1/32) above
      it. */
  lemma ThresholdBounds(size: nat)
    requires 32 <= size && size % 4 == 0 && !SearchWraps(size)
    ensures Bumped32(size) >= 32
    ensures size <= Threshold(size) <= size + SearchSlack(size)
    ensures size < EXACT_LIMIT_SIZE ==> Threshold(size) == size
    ensures SearchSlack(size) * 32 <= size
  {
    hide *;
    SlackFraction(size);
    UnwrappedThreshold(size);
    if size < EXACT_LIMIT_SIZE {
      NoSlack(size);
      ExactBelowLimit(size);
    } else {
      BumpReaches(size, size + SearchSlack(size));
      AtLeastMin(size + SearchSlack(size));
    }
  }

  lemma UnwrappedThreshold(size: nat)
    requires 32 <= size && !SearchWraps(size)
    ensures Bumped32(size) >= 32 && Threshold(size) == SlotMin(Slot(size + SearchSlack(size)))
  {
    hide *;
    Bumped32Is(size);
    ThresholdOf(size, size + SearchSlack(size));
  }

  lemma ThresholdOf(size: nat, bumped: nat)
    requires 32 <= size && 32 <= bumped == Bumped32(size)
    ensures Threshold(size) == SlotMin(Slot(bumped))
  {
    hide Slot, SlotMin, Bumped32;
  }

  lemma NoSlack(size: nat)
    requires 32 <= size < EXACT_LIMIT_SIZE
    ensures SearchSlack(size) == 0
  {
  }

  lemma AtLeastMin(size: nat)
    requires size >= 32
    ensures SlotMin(Slot(size)) <= size
  {
    SlotBracket(size);
  }

  /** What a 32-bit size leaves when the search wraps around: less than 2^26, that is less than any size that
      wraps. */
  lemma WrappedSize(size: nat)
    requires 32 <= size < WORD_LIMIT && SearchWraps(size)
    ensures Bumped32(size) == size + SearchSlack(size) - WORD_LIMIT < 0x400_0000 < size
    ensures Bumped32(size) >= 32 ==> Threshold(size) < size
  {
    SlackBound(size);
    Bumped32Is(size);
    hide Slot, SlotMin, SearchSlack, Bumped32;
    if Bumped32(size) >= 32 {
      AtLeastMin(Bumped32(size));
    }
  }

  lemma SlackBound(size: nat)
    requires 32 <= size < WORD_LIMIT
    ensures SearchSlack(size) < 0x400_0000
  {
    SlotParts(size);
    var fl := Msb(size);
    Pow2Constants();
    if fl > 31 { Pow2Monotone(32, fl); }
    Pow2Monotone(fl - L, 26);
    Pow2Add(16, 10);
    assert Pow2(10) == 1024 by { assert Pow2(8) == 256; }
  }

  /** The lists from the search index on hold exactly the chunks that reach the threshold. */
  lemma SearchExact(size: nat, chunk: nat)
    requires 32 <= size && Bumped32(size) >= 32 && chunk >= 32
    ensures Slot(chunk) >= SearchSlot(size) <==> chunk >= Threshold(size)
  {
    SlotAtLeast(chunk, SearchSlot(size));
  }

  /** The search is sound, every chunk in the lists it looks at being large enough, exactly when the 32-bit addition
      does not wrap around. */
  lemma SearchSoundIff(size: nat)
    requires 32 <= size < WORD_LIMIT && size % 4 == 0 && Bumped32(size) >= 32
    ensures (forall chunk | chunk >= 32 && Slot(chunk) >= SearchSlot(size) :: chunk >= size) <==> !SearchWraps(size)
  {
    hide Slot, SlotMin, SearchSlack, Bumped32;
    if SearchWraps(size) {
      WrappedSize(size);
      var chunk := Bumped32(size);
      assert Slot(chunk) >= SearchSlot(size);
    } else {
      ThresholdBounds(size);
      forall chunk | chunk >= 32 && Slot(chunk) >= SearchSlot(size) ensures chunk >= size {
        SearchExact(size, chunk);
      }
    }
  }
}
