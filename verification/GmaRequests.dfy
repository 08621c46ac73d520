/** Which requests gma_alloc serves, over the whole 32-bit range (lib/mm/gma.c:89-120, 173-218). */
module GmaRequests {
  import opened Bits
  import opened GmaIndex
  import opened Tiling
  import opened GmaHeap

  /** The threshold of a search. */
  lemma ThresholdIs(c: Config, h: Heap, request: nat)
    requires Valid(c, h)
    ensures var s := Rounded(c.minBytes, request);
            && c.minBytes <= s < WORD_LIMIT && 32 <= s
            && (Bumped32(s) < 32 ==> Stray(c, s))
            && (SearchWraps(s) ==> 0x8000_0000 <= s)
            && (SearchWraps(s) && Bumped32(s) >= 32 ==> Threshold(s) < s)
            && (!SearchWraps(s) ==>
                  && !Stray(c, s) && Bumped32(s) >= 32 && s <= Threshold(s) <= s + s / 32
                  && (s < EXACT_LIMIT_SIZE ==> Threshold(s) == s))
  {
    hide *;
    var s := Rounded(c.minBytes, request);
    RoundedBounds(c, h, request);
    ValidFacts(c, h);
    StrayBelow(c, s);
    if SearchWraps(s) {
      WrappedSize(s);
      LargeIfWraps(s);
    } else {
      UnwrappedSearch(c, s);
      ThresholdBounds(s);
    }
  }

  lemma LargeIfWraps(size: nat)
    requires 32 <= size < WORD_LIMIT && SearchWraps(size)
    ensures 0x8000_0000 <= size
  {
    SlackBound(size);
    hide SearchSlack;
  }

  lemma StrayBelow(c: Config, bytes: nat)
    requires c.Ok() && 32 <= bytes
    ensures Bumped32(bytes) < 32 ==> Stray(c, bytes)
  {
    FirstRow(c);
    hide Bumped32, Pow2, Msb;
  }

  lemma NothingReaches(c: Config, h: Heap, bytes: nat, p: int)
    requires Valid(c, h) && c.minBytes <= bytes && !Stray(c, bytes) && Free(h.bs, p)
    requires ChosenList(c, h, bytes) == |h.lists|
    ensures Bumped32(bytes) >= 32 && WORD * h.bs[p].size < Threshold(bytes)
  {
    SearchFromInRange(c, bytes);
    FreeIsListed(c, h, p);
    hide Valid, Slot, Msb, SearchSlack, Bumped32, Pow2, SlotMin, Stray;
    SearchExact(bytes, WORD * h.bs[p].size);
  }

  /** A free chunk is in the list of its size. */
  lemma FreeIsListed(c: Config, h: Heap, p: int)
    requires Valid(c, h) && Free(h.bs, p)
    ensures 32 <= WORD * h.bs[p].size < WORD_LIMIT
    ensures var k := Slot(WORD * h.bs[p].size) - SL_DIM * c.flMin;
            0 <= k < |h.lists| && p in h.lists[k]
  {
    hide Slot, Msb, SearchSlack, Pow2;
    var free := FreeMap(c, h.bs);
    assert p in free && free[p] < |h.lists| && p in h.lists[free[p]];
    assert Bounded(h.bs, c.pool) && End(h.bs, p) <= c.pool.hi;
    ListIndexInRange(c, h.bs[p].size);
    PoolFits(c, h.bs[p].size);
  }

  /** gma_alloc returns NULL exactly when its search stays in the grid and no free chunk reaches the threshold: the
      rounded size below 256 bytes, at most 1/32 more above, and less than that size when the search wraps around. */
  lemma AllocFailsIff(c: Config, h: Heap, request: nat)
    requires Valid(c, h)
    ensures var s := Rounded(c.minBytes, request);
            && 32 <= s
            && (Alloc(c, h, request).0 == NoMemory <==>
                !Stray(c, s) && Bumped32(s) >= 32 && forall p | Free(h.bs, p) :: WORD * h.bs[p].size < Threshold(s))
  {
    hide Slot, Msb, SearchSlack, Bumped32, Rounded, Valid, Stray, Splits, Taken, SlotMin, ChosenIn;
    var s := Rounded(c.minBytes, request);
    RoundedBounds(c, h, request);
    ThresholdIs(c, h, request);
    var k := ChosenList(c, h, s);
    if !Stray(c, s) {
      if k < |h.lists| {
        ChosenReaches(c, h, s, 0);
      } else {
        forall p | Free(h.bs, p) ensures WORD * h.bs[p].size < Threshold(s) {
          NothingReaches(c, h, s, p);
        }
      }
    }
  }

  lemma UndefinedCases(c: Config, h: Heap, request: nat)
    requires Valid(c, h)
    ensures var s := Rounded(c.minBytes, request);
            && 32 <= s
            && (Alloc(c, h, request).0 == Undefined <==>
                || Stray(c, s)
                || (SplitWraps(c, s) && Alloc(c, h, request).0 != NoMemory))
  {
    hide Slot, Msb, SearchSlack, Bumped32, Rounded, Valid, Stray, Splits, SplitWraps, Taken, ChosenIn;
    var s := Rounded(c.minBytes, request);
    RoundedBounds(c, h, request);
    var k := ChosenList(c, h, s);
    if !Stray(c, s) && k < |h.lists| {
      HeadSplits(c, h, s, k);
    }
  }

  /** The outcome is undefined exactly when the search leaves the grid, or the split test wraps around and there is a
      chunk to split: a free one that reaches the threshold. */
  lemma UndefinedIff(c: Config, h: Heap, request: nat)
    requires Valid(c, h)
    ensures var s := Rounded(c.minBytes, request);
            && 32 <= s
            && (Alloc(c, h, request).0 == Undefined <==>
                || Stray(c, s)
                || (SplitWraps(c, s) && Bumped32(s) >= 32
                    && exists p :: Free(h.bs, p) && Threshold(s) <= WORD * h.bs[p].size))
  {
    hide *;
    UndefinedCases(c, h, request);
    AllocFailsIff(c, h, request);
    ThresholdIs(c, h, request);
  }

  /** A free chunk that the search can find but that is smaller than the size it is for. */
  ghost predicate ShortChunk(c: Config, h: Heap, bytes: nat, p: int) {
    Free(h.bs, p) && bytes >= 32 && Bumped32(bytes) >= 32 && Threshold(bytes) <= WORD * h.bs[p].size < bytes
  }

  lemma TwoBlocks(bs: Blocks, pool: Pool, p: int, q: int)
    requires Tiles(bs, pool) && p in bs && q in bs && p != q
    ensures bs[p].size + bs[q].size <= pool.hi - pool.lo
  {
    assert Bounded(bs, pool) && Disjoint(bs);
    assert End(bs, p) <= q || End(bs, q) <= p;
  }

  /** A chunk of the upper half of the address range is in one of the last lists. */
  lemma LastLists(a: nat, b: nat)
    requires 32 <= a && 0x8000_0000 <= b && Slot(a) >= Slot(b)
    ensures a >= 0x8000_0000
  {
    RowMin(31);
    Pow2Constants();
    assert 2 * Pow2(31) == Pow2(32);
    hide Slot, SlotMin, Pow2;
    SlotAtLeast(b, SL_DIM * 31);
    SlotAtLeast(a, SL_DIM * 31);
  }

  /** There is no room in 32 bits for a large chunk ahead of a short one in the lists. */
  lemma ShortIsTaken(c: Config, h: Heap, bytes: nat, q: int)
    requires Valid(c, h) && c.minBytes <= bytes && !Stray(c, bytes) && 0x8000_0000 <= bytes
    requires ShortChunk(c, h, bytes, q) && ChosenList(c, h, bytes) < |h.lists|
    ensures var p := h.lists[ChosenList(c, h, bytes)][0];
            p in h.bs && WORD * h.bs[p].size < bytes
  {
    var k := ChosenList(c, h, bytes);
    var p := h.lists[k][0];
    SearchFromInRange(c, bytes);
    ListMember(c, h, k, 0);
    FreeIsListed(c, h, q);
    ValidFacts(c, h);
    PoolBytes(c);
    hide Valid, Slot, SlotMin, Bumped32, Msb, Pow2, Stray, Tiles, Coalesced;
    SearchExact(bytes, WORD * h.bs[q].size);
    if WORD * h.bs[p].size >= bytes {
      LastLists(WORD * h.bs[q].size, WORD * h.bs[p].size);
      TwoBlocks(h.bs, c.pool, p, q);
    }
  }

  lemma PoolBytes(c: Config)
    requires c.Ok()
    ensures WORD * (c.pool.hi - c.pool.lo) < WORD_LIMIT
  {
    Pow2Constants();
    Pow2Monotone(c.flMax + 1, 32);
    hide Pow2, Msb;
  }

  /** gma_alloc hands out a chunk below the rounded size exactly when the search wraps around but stays in the
      grid, the split test does not wrap, and some free chunk can be found that is too small. */
  lemma ShortIff(c: Config, h: Heap, request: nat)
    requires Valid(c, h)
    ensures var (r, h') := Alloc(c, h, request);
            var s := Rounded(c.minBytes, request);
            && 32 <= s
            && (r.Allocated? && Used(h'.bs, r.p) && WORD * h'.bs[r.p].size < s <==>
                SearchWraps(s) && !Stray(c, s) && !SplitWraps(c, s) && exists q :: ShortChunk(c, h, s, q))
  {
    hide Slot, Msb, SearchSlack, Bumped32, Rounded, Valid, Stray, Splits, SplitWraps, Taken, SlotMin, ChosenIn, Alloc,
      SearchWraps;
    var (r, h') := Alloc(c, h, request);
    var s := Rounded(c.minBytes, request);
    ThresholdIs(c, h, request);
    AllocFailsIff(c, h, request);
    UndefinedCases(c, h, request);
    if r.Allocated? {
      AllocTakes(c, h, request);
      AllocatedHead(c, h, request);
      if WORD * h.bs[r.p].size < s {
        assert ShortChunk(c, h, s, r.p);
      } else if SearchWraps(s) && exists q :: ShortChunk(c, h, s, q) {
        var q :| ShortChunk(c, h, s, q);
        ShortIsTaken(c, h, s, q);
      }
    }
  }

  /** Good fit: no free chunk that the search could have found is in an earlier list than the chunk handed out,
      so none is smaller but for the width of that list. */
  lemma GoodFit(c: Config, h: Heap, request: nat, q: int)
    requires Valid(c, h) && Alloc(c, h, request).0.Allocated? && Free(h.bs, q)
    requires var s := Rounded(c.minBytes, request);
             s >= 32 && Bumped32(s) >= 32 && Threshold(s) <= WORD * h.bs[q].size
    ensures var p := Alloc(c, h, request).0.p;
            Free(h.bs, p) && Slot(WORD * h.bs[p].size) <= Slot(WORD * h.bs[q].size)
  {
    var s := Rounded(c.minBytes, request);
    RoundedBounds(c, h, request);
    AllocTakes(c, h, request);
    AllocatedHead(c, h, request);
    var k := ChosenList(c, h, s);
    SearchFromInRange(c, s);
    FreeIsListed(c, h, q);
    ListMember(c, h, k, 0);
    hide Valid, Slot, SlotMin, Bumped32, Msb, Pow2, Stray, Rounded, Alloc;
    SearchExact(s, WORD * h.bs[q].size);
  }

  lemma AllocatedHead(c: Config, h: Heap, request: nat)
    requires Alloc(c, h, request).0.Allocated?
    ensures var k := ChosenList(c, h, Rounded(c.minBytes, request));
            k < |h.lists| && h.lists[k] != [] && Alloc(c, h, request).0.p == h.lists[k][0]
  {
    hide Rounded, Stray, Splits, Taken;
  }

  /** The chunk handed out has room for the request, next to its header, exactly when the rounding did not wrap around
      and the chunk is not short. */
  lemma AllocGives(c: Config, h: Heap, request: nat)
    requires Valid(c, h) && 0 < request < MAX_CHUNK_SIZE && Alloc(c, h, request).0.Allocated?
    ensures var (r, h') := Alloc(c, h, request);
            var s := Rounded(c.minBytes, request);
            && Used(h'.bs, r.p) && 32 <= s
            && (request <= WORD * h'.bs[r.p].size - WORD <==>
                request + 7 < WORD_LIMIT && !(SearchWraps(s) && exists q :: ShortChunk(c, h, s, q)))
  {
    hide Slot, Msb, SearchSlack, Bumped32, Valid, Stray, Splits, Taken, SlotMin, ChosenIn, Alloc, SearchWraps,
      Rounded, ShortChunk;
    MinBounds(c, h);
    AllocTakes(c, h, request);
    RoundedBounds(c, h, request);
    RoundedCases(c.minBytes, request);
    ShortIff(c, h, request);
  }

  // ---------------------------------------------------------------- examples

  /** A pool of 128 MB in one free chunk. */
  const SAMPLE: Config := Config(Pool(64, 64 + 0x200_0000, 8), 5, 27, 32)

  lemma SampleOk()
    ensures SAMPLE.Ok()
  {
    Pow2Constants();
    MsbUnique(32, 5);
    Pow2Add(16, 12);
    assert Pow2(12) == 4096;
  }

  lemma SampleSearch(s: nat)
    requires s == 4294967204 || s == 4294967284
    ensures SearchWraps(s) && Bumped32(s) == s - 4227858433 && !Stray(SAMPLE, s) && Threshold(s) <= 134217728
  {
    Pow2Constants();
    assert 2 * Pow2(31) == Pow2(32);
    MsbUnique(s, 31);
    Pow2Add(16, 10);
    assert Pow2(10) == 1024 by { assert Pow2(8) == 256; }
    SlackIs(s);
    Bumped32Is(s);
    AtLeastMin(s - 4227858433);
    hide Slot, SlotMin, Msb, Pow2, SearchSlack;
  }

  lemma SlackIs(size: nat)
    requires size >= EXACT_LIMIT_SIZE && Msb(size) == 31
    ensures SearchSlack(size) == Pow2(26) - 1
  {
    hide Msb, Pow2;
  }

  /** 4294967200 bytes are asked of 128 MB, and 128 MB are handed out. */
  lemma ShortExample()
    ensures var (r, h') := Alloc(SAMPLE, Fresh(SAMPLE), 4294967200);
            r == Allocated(64) && Used(h'.bs, 64) && WORD * h'.bs[64].size == 134217728
  {
    var h := Fresh(SAMPLE);
    assert Rounded(32, 4294967200) == 4294967204;
    SampleSearch(4294967204);
    SampleServed(4294967200);
    hide Slot, SlotMin, Msb, Pow2, Rounded, Threshold, Stray, Bumped32, SearchWraps, Alloc, Valid;
    AllocTakes(SAMPLE, h, 4294967200);
    FreshBlock();
  }

  /** With 4294967280 bytes the split test wraps as well: the chunk would be cut at 4294967284 bytes. */
  lemma UndefinedExample()
    ensures Alloc(SAMPLE, Fresh(SAMPLE), 4294967280).0 == Undefined
  {
    assert Rounded(32, 4294967280) == 4294967284;
    SampleSearch(4294967284);
    SampleServed(4294967280);
    hide Slot, SlotMin, Msb, Pow2, Rounded, Threshold, Stray, Bumped32, SearchWraps, Alloc, Valid;
    UndefinedCases(SAMPLE, Fresh(SAMPLE), 4294967280);
  }

  /** With 4227858432 bytes the size looked up wraps around to 3, for which there is no row. */
  lemma StrayExample()
    ensures Rounded(32, 4227858432) == 4227858436 && Bumped32(4227858436) == 3
    ensures Alloc(SAMPLE, Fresh(SAMPLE), 4227858432).0 == Undefined
  {
    Pow2Constants();
    assert 2 * Pow2(31) == Pow2(32);
    MsbUnique(4227858436, 31);
    Pow2Add(16, 10);
    assert Pow2(10) == 1024 by { assert Pow2(8) == 256; }
    SlackIs(4227858436);
    Bumped32Is(4227858436);
    hide Slot, SlotMin, Msb, SearchSlack, Bumped32, Taken, ChosenIn;
  }

  lemma SampleServed(request: nat)
    requires var s := Rounded(32, request);
             s >= 32 && Bumped32(s) >= 32 && !Stray(SAMPLE, s) && Threshold(s) <= 134217728
    ensures Valid(SAMPLE, Fresh(SAMPLE)) && Alloc(SAMPLE, Fresh(SAMPLE), request).0 != NoMemory
    ensures !SplitWraps(SAMPLE, Rounded(32, request)) ==> Alloc(SAMPLE, Fresh(SAMPLE), request).0.Allocated?
  {
    hide Slot, SlotMin, Msb, Pow2, Rounded, Threshold, Stray, Bumped32, SearchWraps, Alloc, Valid;
    SampleOk();
    FreshValid(SAMPLE);
    FreshBlock();
    AllocFailsIff(SAMPLE, Fresh(SAMPLE), request);
    UndefinedCases(SAMPLE, Fresh(SAMPLE), request);
  }

  lemma FreshBlock()
    ensures forall p :: Free(Fresh(SAMPLE).bs, p) <==> p == 64
    ensures Fresh(SAMPLE).bs[64].size == 33554432
  {
  }
}
