/** The states a pool goes through inside gma_alloc (lib/mm/gma.c:89-120), as facts about memory images. */
module GmaAllocSteps {
  import opened Bits
  import opened Tiling
  import opened FreeLists
  import opened GmaBitmaps
  import opened GmaMemory
  import opened Words
  import opened GmaTags
  import opened GmaGrid
  import opened GmaChunks
  import opened GmaSteps
  import GmaHeap

  /** SET_CHUNK_IN_USE: C of the chunk, and B of the chunk after it. */
  function MarkedUsed(m: Mem, p: int): Mem {
    var m1 := Put(m, p + 1, SetInUse(At(m, p + 1)));
    var after := p + SizeTag(At(m1, p + 1));
    Put(m1, after + 1, SetBeforeInUse(At(m1, after + 1)))
  }

  /** split_chunk_at: headers and ends of both parts; the second part has no flags yet. */
  function SplitAt(m: Mem, p: int, words: nat): Mem {
    var rest, n := p + words, SizeTag(At(m, p + 1));
    var left: nat := if n < words then 0 else n - words;
    var m1 := Put(Put(m, rest + 1, 0), rest + 1, SetSize(0, left));
    var m2 := Put(m1, rest + left, At(m1, rest + 1));
    var m3 := Put(m2, p + 1, SetSize(At(m2, p + 1), words));
    Put(m3, rest, At(m3, p + 1))
  }

  /** Chunk p is out of its list k; only the index has changed. */
  ghost predicate Detached(m: Mem, c: GmaHeap.Config, h: GmaHeap.Heap, lay: Layout, k: nat, p: int, m1: Mem, fl1: nat) {
    && k < |h.lists| && h.lists[k] != [] && p == h.lists[k][0]
    && OnlyIndex(m, m1, lay, GmaHeap.FreeMap(c, h.bs))
    && GridOk(m1, fl1, lay, Remove(h.lists, k, p), GmaHeap.FreeMap(c, h.bs) - {p})
  }

  lemma DetachedFacts(m: Mem, fl: nat, c: GmaHeap.Config, h: GmaHeap.Heap, lay: Layout, k: nat, p: int, m1: Mem,
                      fl1: nat)
    requires State(m, fl, c, h, lay) && Detached(m, c, h, lay, k, p, m1, fl1)
    ensures Free(h.bs, p) && p in h.bs && !h.bs[p].used && End(h.bs, p) == p + h.bs[p].size && 8 <= h.bs[p].size
    ensures c.pool.lo <= p && End(h.bs, p) <= c.pool.hi && 0 <= p
    ensures |m1| == |m| && SizeTag(At(m1, p + 1)) == h.bs[p].size
    ensures At(m1, p + 1) == At(m, p + 1) && At(m1, End(h.bs, p) + 1) == At(m, End(h.bs, p) + 1)
    ensures GmaHeap.ListIndex(c, h.bs[p].size) == k
    ensures GridOk(m1, fl1, lay, Remove(h.lists, k, p), GmaHeap.FreeMap(c, h.bs) - {p})
    ensures OnlyIndex(m, m1, lay, GmaHeap.FreeMap(c, h.bs))
  {
    StateFacts(m, fl, c, h, lay);
    HeadMember(c, h, k);
    FreeBlockFacts(m, lay, h.bs, c.pool, p);
    BlockHeader(m, lay, h.bs, c.pool, GmaHeap.FreeMap(c, h.bs), p);
    EndHeader(m, lay, h.bs, c.pool, GmaHeap.FreeMap(c, h.bs), p);
    hide State, GridOk, IndexWord, SizeTag;
  }

  lemma HeadMember(c: GmaHeap.Config, h: GmaHeap.Heap, k: nat)
    requires GmaHeap.Valid(c, h) && k < |h.lists| && h.lists[k] != []
    ensures Free(h.bs, h.lists[k][0]) && GmaHeap.ListIndex(c, h.bs[h.lists[k][0]].size) == k
  {
    assert ListSound(h.lists[k], k, GmaHeap.FreeMap(c, h.bs));
  }

  lemma FreeBlockFacts(m: Mem, lay: Layout, bs: Blocks, pool: Pool, p: int)
    requires Room(m, lay, bs, pool) && Free(bs, p) && Tagged(m, bs, pool)
    ensures p in bs && pool.lo <= p && End(bs, p) <= pool.hi && 8 <= bs[p].size
    ensures SizeTag(At(m, p + 1)) == bs[p].size
  {
    hide SizeTag;
    assert Bounded(bs, pool) && TagOk(m, bs, p);
  }

  lemma EndHeader(m: Mem, lay: Layout, bs: Blocks, pool: Pool, free: map<int, nat>, q: int)
    requires Room(m, lay, bs, pool) && FreeBlocks(bs, free) && q in bs
    ensures !IndexWord(lay, free, End(bs, q) + 1) && End(bs, q) + 1 < |m|
  {
    BlockWords(m, lay, bs, pool, free, q, End(bs, q) + 1);
  }

  // ---------------------------------------------------------------- taking the whole chunk

  lemma MarkedUsedWords(m1: Mem, p: int, size: nat)
    requires 0 <= p && 2 <= size && p + size + 1 < |m1| && SizeTag(At(m1, p + 1)) == size
    ensures var m2 := MarkedUsed(m1, p);
            && |m2| == |m1|
            && (forall w {:trigger At(m2, w)} :: w == p + 1 || w == p + size + 1 || At(m2, w) == At(m1, w))
            && At(m2, p + 1) == SetInUse(At(m1, p + 1))
            && At(m2, p + size + 1) == SetBeforeInUse(At(m1, p + size + 1))
  {
    SetInUseFlags(At(m1, p + 1));
    hide SizeTag, SetInUse, SetBeforeInUse;
  }

  lemma SetInUseFlags(w: nat)
    ensures SizeTag(SetInUse(w)) == SizeTag(w) && InUse(SetInUse(w)) && BeforeInUse(SetInUse(w)) == BeforeInUse(w)
    ensures SizeTag(SetBeforeInUse(w)) == SizeTag(w) && InUse(SetBeforeInUse(w)) == InUse(w)
    ensures BeforeInUse(SetBeforeInUse(w))
  {
    TagFields(w, 0);
  }

  lemma WholeMarked(m: Mem, m1: Mem, lay: Layout, bs: Blocks, free: map<int, nat>, p: int)
    requires p in bs && 0 <= p && 8 <= bs[p].size && End(bs, p) + 1 < |m| && OnlyIndex(m, m1, lay, free)
    requires SizeTag(At(m1, p + 1)) == bs[p].size
    requires At(m1, p + 1) == At(m, p + 1) && At(m1, End(bs, p) + 1) == At(m, End(bs, p) + 1)
    ensures TookWhole(m, MarkedUsed(m1, p), lay, bs, free, p)
    ensures |MarkedUsed(m1, p)| == |m1|
    ensures forall w {:trigger At(MarkedUsed(m1, p), w)} ::
              w == p + 1 || w == End(bs, p) + 1 || At(MarkedUsed(m1, p), w) == At(m1, w)
  {
    MarkedUsedWords(m1, p, bs[p].size);
    hide IndexWord, MarkedUsed, SizeTag, SetInUse, SetBeforeInUse;
  }

  lemma MarkKeepsGrid(m1: Mem, m2: Mem, fl: nat, lay: Layout, lists: Lists, free: map<int, nat>, v: int, w: int)
    requires GridOk(m1, fl, lay, lists, free) && |m2| == |m1|
    requires !IndexWord(lay, free, v) && !IndexWord(lay, free, w)
    requires forall x {:trigger At(m2, x)} :: x == v || x == w || At(m2, x) == At(m1, x)
    ensures GridOk(m2, fl, lay, lists, free)
  {
    hide GridOk, IndexWord;
    GridFrame(m1, m2, fl, lay, lists, free);
  }

  lemma TakenWhole(c: GmaHeap.Config, h: GmaHeap.Heap, k: nat, words: nat)
    requires GmaHeap.Valid(c, h) && k < |h.lists| && h.lists[k] != [] && c.pool.min <= words
    requires Free(h.bs, h.lists[k][0]) && h.bs[h.lists[k][0]].size < words + c.pool.min
    ensures var p, h' := h.lists[k][0], GmaHeap.Taken(c, h, k, words);
            && GmaHeap.Valid(c, h')
            && h'.bs == h.bs[p := Block(h.bs[p].size, true)] && h'.lists == Remove(h.lists, k, p)
            && GmaHeap.FreeMap(c, h'.bs) == GmaHeap.FreeMap(c, h.bs) - {p}
  {
    GmaHeap.TakenValid(c, h, k, words);
    hide GmaHeap.Valid, GmaHeap.ListIndex, Remove;
  }

  lemma WholeDone(m: Mem, fl: nat, c: GmaHeap.Config, h: GmaHeap.Heap, lay: Layout, k: nat, p: int, words: nat,
                  m1: Mem, fl1: nat)
    requires State(m, fl, c, h, lay) && Detached(m, c, h, lay, k, p, m1, fl1)
    requires c.pool.min <= words && SizeTag(At(m1, p + 1)) < words + c.pool.min
    ensures p in h.bs && k < |h.lists| && h.lists[k] != []
    ensures State(MarkedUsed(m1, p), fl1, c, GmaHeap.Taken(c, h, k, words), lay)
    ensures forall q, w | Payload(h.bs, q, w) :: At(MarkedUsed(m1, p), w) == At(m, w)
    ensures forall w {:trigger At(MarkedUsed(m1, p), w)} | Outside(lay, c.pool, w) ::
              At(MarkedUsed(m1, p), w) == At(m, w)
  {
    hide *;
    StateFacts(m, fl, c, h, lay);
    StateValid(m, fl, c, h, lay);
    DetachedFacts(m, fl, c, h, lay, k, p, m1, fl1);
    DetachedHead(m, c, h, lay, k, p, m1, fl1);
    var free, m2 := GmaHeap.FreeMap(c, h.bs), MarkedUsed(m1, p);
    BlockHeader(m, lay, h.bs, c.pool, free, p);
    EndHeader(m, lay, h.bs, c.pool, free, p);
    WholeMarked(m, m1, lay, h.bs, free, p);
    NoMoreIndex(lay, free, p, p + 1);
    NoMoreIndex(lay, free, p, End(h.bs, p) + 1);
    MarkKeepsGrid(m1, m2, fl1, lay, Remove(h.lists, k, p), free - {p}, p + 1, End(h.bs, p) + 1);
    TookWholeTagged(m, m2, lay, h.bs, c.pool, free, p);
    TakenWhole(c, h, k, words);
    StateIs(m, m2, fl1, c, h.bs, GmaHeap.Taken(c, h, k, words), lay, c.pool);
    forall q, w | Payload(h.bs, q, w) ensures At(m2, w) == At(m, w) {
      TookPayload(m, m2, lay, h.bs, c.pool, free, p, words, q, w);
    }
    forall w {:trigger At(m2, w)} | Outside(lay, c.pool, w) ensures At(m2, w) == At(m, w) {
      TookOutside(m, m2, lay, h.bs, c.pool, free, p, words, w);
    }
  }

  lemma DetachedHead(m: Mem, c: GmaHeap.Config, h: GmaHeap.Heap, lay: Layout, k: nat, p: int, m1: Mem, fl1: nat)
    requires Detached(m, c, h, lay, k, p, m1, fl1)
    ensures k < |h.lists| && h.lists[k] != [] && p == h.lists[k][0]
  {
  }

  lemma StateValid(m: Mem, fl: nat, c: GmaHeap.Config, h: GmaHeap.Heap, lay: Layout)
    requires State(m, fl, c, h, lay)
    ensures GmaHeap.Valid(c, h)
  {
  }

  lemma StateIs(m: Mem, m2: Mem, fl2: nat, c: GmaHeap.Config, bs: Blocks, h2: GmaHeap.Heap, lay: Layout, pool: Pool)
    requires c.Ok() && pool == c.pool && Room(m, lay, bs, pool) && |m2| == |m| && lay.rows == c.Rows()
    requires GmaHeap.Valid(c, h2)
    requires GridOk(m2, fl2, lay, h2.lists, GmaHeap.FreeMap(c, h2.bs)) && Tagged(m2, h2.bs, pool)
    ensures State(m2, fl2, c, h2, lay)
  {
    hide GridOk, Tagged, GmaHeap.FreeMap, Tiles;
    assert Tiles(h2.bs, pool);
  }

  // ---------------------------------------------------------------- cutting the chunk

  lemma SplitWords(m1: Mem, p: int, words: nat, size: nat)
    requires 0 <= p && 8 <= words && words + 8 <= size && p + size + 1 < |m1| && SizeTag(At(m1, p + 1)) == size
    ensures var m2, r := SplitAt(m1, p, words), p + words;
            && |m2| == |m1|
            && (forall w {:trigger At(m2, w)} ::
                  w == p + 1 || w == r || w == r + 1 || w == p + size || At(m2, w) == At(m1, w))
            && At(m2, p + 1) == SetSize(At(m1, p + 1), words)
            && At(m2, r + 1) == SetSize(0, size - words)
  {
    hide SetSize, SizeTag;
  }

  lemma SetSizeFlags(w: nat, words: nat)
    ensures SizeTag(SetSize(w, words)) == words && InUse(SetSize(w, words)) == InUse(w)
    ensures BeforeInUse(SetSize(w, words)) == BeforeInUse(w)
    ensures SizeTag(ClearInUse(w)) == SizeTag(w) && !InUse(ClearInUse(w))
    ensures SizeTag(ClearBeforeInUse(w)) == SizeTag(w) && InUse(ClearBeforeInUse(w)) == InUse(w)
    ensures !BeforeInUse(ClearBeforeInUse(w))
  {
    TagFields(w, words);
  }

  /** The four words split_chunk_at writes are inside the chunk and are no index words. */
  lemma InsideChunk(m: Mem, lay: Layout, bs: Blocks, pool: Pool, free: map<int, nat>, p: int, w: int)
    requires Room(m, lay, bs, pool) && FreeBlocks(bs, free) && p in bs
    requires p + 1 == w || p + 4 <= w <= End(bs, p) + 1
    ensures !IndexWord(lay, free - {p}, w)
  {
    forall r | r in free - {p} ensures w != r + 2 && w != r + 3 {
      assert Free(bs, r);
    }
  }

  lemma SplitKeepsGrid(m: Mem, m1: Mem, m2: Mem, fl: nat, lay: Layout, lists: Lists, bs: Blocks, pool: Pool,
                       free: map<int, nat>, p: int, words: nat)
    requires Room(m, lay, bs, pool) && FreeBlocks(bs, free) && p in bs
    requires 8 <= words && words + 8 <= bs[p].size
    requires GridOk(m1, fl, lay, lists, free - {p}) && |m2| == |m1|
    requires forall w {:trigger At(m2, w)} ::
               w == p + 1 || w == p + words || w == p + words + 1 || w == End(bs, p) || At(m2, w) == At(m1, w)
    ensures GridOk(m2, fl, lay, lists, free - {p})
  {
    InsideChunk(m, lay, bs, pool, free, p, p + 1);
    InsideChunk(m, lay, bs, pool, free, p, p + words);
    InsideChunk(m, lay, bs, pool, free, p, p + words + 1);
    InsideChunk(m, lay, bs, pool, free, p, End(bs, p));
    hide GridOk, IndexWord, Room, FreeBlocks;
    GridFrame(m1, m2, fl, lay, lists, free - {p});
  }

  lemma RemainderSpace(m: Mem, m2: Mem, lay: Layout, c: GmaHeap.Config, bs: Blocks, p: int, words: nat)
    requires Room(m, lay, bs, c.pool) && FreeBlocks(bs, GmaHeap.FreeMap(c, bs)) && p in bs && |m2| == |m|
    requires 8 <= words && words + 8 <= bs[p].size
    requires SizeTag(At(m2, p + words + 1)) == bs[p].size - words
    ensures Space(m2, lay, GmaHeap.FreeMap(c, bs) - {p}, p + words)
  {
    hide SizeTag, GmaHeap.ListIndex;
    assert End(bs, p) <= c.pool.hi && c.pool.lo <= p;
    forall q | q in GmaHeap.FreeMap(c, bs) - {p} ensures q + 8 <= p + words || End(bs, p) <= q {
      assert Free(bs, q);
    }
  }

  /** After split_chunk_at the remainder is ready to be put in its list. */
  lemma RemainderReady(m: Mem, fl: nat, c: GmaHeap.Config, h: GmaHeap.Heap, lay: Layout, k: nat, p: int, words: nat,
                       m1: Mem, fl1: nat)
    requires State(m, fl, c, h, lay) && Detached(m, c, h, lay, k, p, m1, fl1)
    requires c.pool.min <= words && words + c.pool.min <= SizeTag(At(m1, p + 1))
    ensures 0 <= p && p + words + 1 < |m1|
    ensures var m2 := SplitAt(m1, p, words);
            Insertable(m2, fl1, c, lay, Remove(h.lists, k, p), GmaHeap.FreeMap(c, h.bs) - {p}, p + words)
    ensures SizeTag(SplitAt(m1, p, words)[p + words + 1]) == SizeTag(At(m1, p + 1)) - words
  {
    hide *;
    StateFacts(m, fl, c, h, lay);
    RoomTiles(m, lay, h.bs, c.pool);
    DetachedFacts(m, fl, c, h, lay, k, p, m1, fl1);
    var free, m2, size := GmaHeap.FreeMap(c, h.bs), SplitAt(m1, p, words), h.bs[p].size;
    EndHeader(m, lay, h.bs, c.pool, free, p);
    SplitWords(m1, p, words, size);
    SetSizeFlags(0, size - words);
    SplitKeepsGrid(m, m1, m2, fl1, lay, Remove(h.lists, k, p), h.bs, c.pool, free, p, words);
    RemainderSpace(m, m2, lay, c, h.bs, p, words);
    AtIndex(m2, p + words + 1);
    InsertableIs(m2, fl1, c, lay, Remove(h.lists, k, p), free - {p}, p + words);
  }

  lemma TakenFirst(c: GmaHeap.Config, h: GmaHeap.Heap, k: nat, words: nat)
    requires GmaHeap.Valid(c, h) && k < |h.lists| && h.lists[k] != [] && c.pool.min <= words
    requires Free(h.bs, h.lists[k][0]) && words + c.pool.min <= h.bs[h.lists[k][0]].size
    ensures var p, h' := h.lists[k][0], GmaHeap.Taken(c, h, k, words);
            var rest := h.bs[p].size - words;
            && GmaHeap.Valid(c, h')
            && h'.bs == Cut(h.bs, p, Block(words, true), Block(rest, false))
            && h'.lists == Insert(Remove(h.lists, k, p), GmaHeap.ListIndex(c, rest), p + words)
            && GmaHeap.FreeMap(c, h'.bs) ==
               (GmaHeap.FreeMap(c, h.bs) - {p})[p + words := GmaHeap.ListIndex(c, rest)]
  {
    hide GmaHeap.Valid, GmaHeap.ListIndex, Remove, Insert, Cut, GmaHeap.FreeMap;
    GmaHeap.TakenValid(c, h, k, words);
    var p := h.lists[k][0];
    CutFreeMapOf(c, h, p, words);
  }

  lemma CutFreeMapOf(c: GmaHeap.Config, h: GmaHeap.Heap, p: int, words: nat)
    requires GmaHeap.Valid(c, h) && Free(h.bs, p) && c.pool.min <= words && words + c.pool.min <= h.bs[p].size
    ensures GmaHeap.FreeMap(c, Cut(h.bs, p, Block(words, true), Block(h.bs[p].size - words, false)))
         == (GmaHeap.FreeMap(c, h.bs) - {p})[p + words := GmaHeap.ListIndex(c, h.bs[p].size - words)]
  {
    hide GmaHeap.Valid, GmaHeap.ListIndex, Cut, GmaHeap.FreeMap, Tiles, Coalesced, Disjoint;
    GmaHeap.ValidFacts(c, h);
    GmaHeap.MinBounds(c, h);
    CutDisjoint(h.bs, c.pool, p, Block(words, true), Block(h.bs[p].size - words, false));
    GmaHeap.CutFreeMap(c, h.bs, p, words);
  }

  /** Memory after the cut, the insertion and the final marks, compared with the start. */
  lemma FirstMarked(m: Mem, m1: Mem, m2: Mem, m3: Mem, lay: Layout, bs: Blocks, free: map<int, nat>, p: int,
                    words: nat, k2: nat)
    requires p in bs && 0 <= p && 8 <= words && words + 8 <= bs[p].size && End(bs, p) + 1 < |m|
    requires OnlyIndex(m, m1, lay, free) && m2 == SplitAt(m1, p, words)
    requires OnlyIndexAndTags(m2, m3, lay, (free - {p})[p + words := k2], p + words)
    requires SizeTag(At(m1, p + 1)) == bs[p].size
    requires At(m1, p + 1) == At(m, p + 1) && At(m1, End(bs, p) + 1) == At(m, End(bs, p) + 1)
    requires !IndexWord(lay, (free - {p})[p + words := k2], p + 1)
    requires !IndexWord(lay, (free - {p})[p + words := k2], End(bs, p) + 1)
    ensures TookFirst(m, MarkedUsed(m3, p), lay, bs, free, p, words)
    ensures |MarkedUsed(m3, p)| == |m3|
    ensures forall w {:trigger At(MarkedUsed(m3, p), w)} ::
              w == p + 1 || w == p + words + 1 || At(MarkedUsed(m3, p), w) == At(m3, w)
  {
    hide SetSize, ClearInUse, ClearBeforeInUse, SetInUse, SetBeforeInUse, SizeTag, InUse, BeforeInUse, SplitAt,
      MarkedUsed;
    var size, r := bs[p].size, p + words;
    SplitWords(m1, p, words, size);
    SetSizeFlags(0, size - words);
    ZeroFlags();
    SetSizeFlags(At(m1, p + 1), words);
    SetSizeFlags(SetSize(0, size - words), 0);
    SetSizeFlags(At(m, End(bs, p) + 1), 0);
    assert At(m3, p + 1) == At(m2, p + 1);
    MarkedUsedWords(m3, p, words);
    SetInUseFlags(At(m3, p + 1));
    SetInUseFlags(At(m3, r + 1));
    FirstMarkedElsewhere(m, m1, m2, m3, MarkedUsed(m3, p), lay, free, p, words, size, k2);
  }

  lemma ZeroFlags()
    ensures !InUse(0) && !BeforeInUse(0)
  {
  }

  lemma FirstMarkedElsewhere(m: Mem, m1: Mem, m2: Mem, m3: Mem, m4: Mem, lay: Layout, free: map<int, nat>, p: int,
                             words: nat, size: nat, k2: nat)
    requires OnlyIndex(m, m1, lay, free)
    requires forall w {:trigger At(m2, w)} ::
               w == p + 1 || w == p + words || w == p + words + 1 || w == p + size || At(m2, w) == At(m1, w)
    requires SizeTag(At(m2, p + words + 1)) == size - words
    requires OnlyIndexAndTags(m2, m3, lay, (free - {p})[p + words := k2], p + words)
    requires forall w {:trigger At(m4, w)} :: w == p + 1 || w == p + words + 1 || At(m4, w) == At(m3, w)
    ensures forall w {:trigger At(m4, w)} ::
              IndexWord(lay, free, w) || w == p + words + 2 || w == p + words + 3 || w == p + 1 || w == p + words
              || w == p + words + 1 || w == p + size || w == p + size + 1 || At(m4, w) == At(m, w)
  {
    hide SizeTag;
  }

  lemma FirstDone(m: Mem, fl: nat, c: GmaHeap.Config, h: GmaHeap.Heap, lay: Layout, k: nat, p: int, words: nat,
                  m1: Mem, fl1: nat, m3: Mem, fl3: nat)
    requires State(m, fl, c, h, lay) && Detached(m, c, h, lay, k, p, m1, fl1)
    requires c.pool.min <= words && words + c.pool.min <= SizeTag(At(m1, p + 1))
    requires var m2, free := SplitAt(m1, p, words), GmaHeap.FreeMap(c, h.bs) - {p};
             var k2 := GmaHeap.ListIndex(c, SizeTag(At(m1, p + 1)) - words);
             && 0 <= p
             && OnlyIndexAndTags(m2, m3, lay, free[p + words := k2], p + words)
             && GridOk(m3, fl3, lay, Insert(Remove(h.lists, k, p), k2, p + words), free[p + words := k2])
    ensures p in h.bs && k < |h.lists| && h.lists[k] != []
    ensures State(MarkedUsed(m3, p), fl3, c, GmaHeap.Taken(c, h, k, words), lay)
    ensures forall q, w | Payload(h.bs, q, w) :: At(MarkedUsed(m3, p), w) == At(m, w)
    ensures forall w {:trigger At(MarkedUsed(m3, p), w)} | Outside(lay, c.pool, w) ::
              At(MarkedUsed(m3, p), w) == At(m, w)
  {
    hide *;
    StateFacts(m, fl, c, h, lay);
    StateValid(m, fl, c, h, lay);
    RoomTiles(m, lay, h.bs, c.pool);
    DetachedFacts(m, fl, c, h, lay, k, p, m1, fl1);
    DetachedHead(m, c, h, lay, k, p, m1, fl1);
    var free, m4 := GmaHeap.FreeMap(c, h.bs), MarkedUsed(m3, p);
    var rest := h.bs[p].size - words;
    var k2 := GmaHeap.ListIndex(c, rest);
    EndHeader(m, lay, h.bs, c.pool, free, p);
    RemainderWords(m, lay, h.bs, c.pool, free, p, words, k2);
    FirstMarked(m, m1, SplitAt(m1, p, words), m3, lay, h.bs, free, p, words, k2);
    MarkKeepsGrid(m3, m4, fl3, lay, Insert(Remove(h.lists, k, p), k2, p + words), (free - {p})[p + words := k2],
                  p + 1, p + words + 1);
    TookFirstTagged(m, m4, lay, h.bs, c.pool, free, p, words);
    TakenFirst(c, h, k, words);
    SameLength(m, m1, p, words, m3, lay, (free - {p})[p + words := k2], free);
    StateIs(m, m4, fl3, c, h.bs, GmaHeap.Taken(c, h, k, words), lay, c.pool);
    forall q, w | Payload(h.bs, q, w) ensures At(m4, w) == At(m, w) {
      TookPayload(m, m4, lay, h.bs, c.pool, free, p, words, q, w);
    }
    forall w {:trigger At(m4, w)} | Outside(lay, c.pool, w) ensures At(m4, w) == At(m, w) {
      TookOutside(m, m4, lay, h.bs, c.pool, free, p, words, w);
    }
  }

  lemma SameLength(m: Mem, m1: Mem, p: int, words: nat, m3: Mem, lay: Layout, more: map<int, nat>, free: map<int, nat>)
    requires OnlyIndex(m, m1, lay, free) && OnlyIndexAndTags(SplitAt(m1, p, words), m3, lay, more, p + words)
    ensures |m3| == |m|
  {
    hide IndexWord;
  }

  lemma RemainderWords(m: Mem, lay: Layout, bs: Blocks, pool: Pool, free: map<int, nat>, p: int, words: nat, k2: nat)
    requires Room(m, lay, bs, pool) && FreeBlocks(bs, free) && p in bs
    requires 8 <= words && words + 8 <= bs[p].size
    ensures !IndexWord(lay, (free - {p})[p + words := k2], p + 1)
    ensures !IndexWord(lay, (free - {p})[p + words := k2], p + words + 1)
    ensures !IndexWord(lay, (free - {p})[p + words := k2], End(bs, p) + 1)
  {
    InsideChunk(m, lay, bs, pool, free, p, p + 1);
    InsideChunk(m, lay, bs, pool, free, p, p + words + 1);
    InsideChunk(m, lay, bs, pool, free, p, End(bs, p) + 1);
    hide Room, FreeBlocks;
  }

  // ---------------------------------------------------------------- facts for single calls

  lemma FirstReady(m: Mem, fl: nat, c: GmaHeap.Config, h: GmaHeap.Heap, lay: Layout, k: nat)
    requires State(m, fl, c, h, lay) && k < |h.lists| && h.lists[k] != []
    ensures var p, free := h.lists[k][0], GmaHeap.FreeMap(c, h.bs);
            && 0 <= p && p + 3 < |m| && UnlinkReady(m, p) && p in free && free[p] == k
            && lay.grid + k < |m| && m[lay.grid + k] == 4 * p && m[lay.grid + k] / 4 == p
            && GridOk(m, fl, lay, h.lists, free)
            && ((m[p + 2] % 2 == 1 && m[p + 3] == 0) <==> Remove(h.lists, k, p)[k] == [])
            && lay.sl + k / DIM < |m|
  {
    hide GmaHeap.ListIndex, Chains, Indexed;
    HeadMember(c, h, k);
    var p, free := h.lists[k][0], GmaHeap.FreeMap(c, h.bs);
    assert p in free && free[p] == k;
    UnlinkSafe(m, lay.grid, h.lists, free, p);
    HeaderValue(m, lay.grid, h.lists, k);
    AtIndex(m, lay.grid + k);
  }

  /** Taking the first chunk of a list out, and clearing the list's bits if it is then empty, detaches the chunk. */
  lemma FirstUnlinked(m: Mem, fl: nat, c: GmaHeap.Config, h: GmaHeap.Heap, lay: Layout, k: nat)
    requires State(m, fl, c, h, lay) && k < |h.lists| && h.lists[k] != []
    ensures var p := h.lists[k][0];
            var m1 := Unlink(m, p);
            if Remove(h.lists, k, p)[k] == [] then
              Detached(m, c, h, lay, k, p, Clear(m1, lay, k), ClearFirst(m1, fl, lay, k))
            else
              Detached(m, c, h, lay, k, p, m1, fl)
  {
    hide *;
    FirstReady(m, fl, c, h, lay, k);
    var p, free := h.lists[k][0], GmaHeap.FreeMap(c, h.bs);
    var m1 := Unlink(m, p);
    RemoveLength(h.lists, k, p);
    if Remove(h.lists, k, p)[k] == [] {
      UnlinkEmptiesList(m, fl, lay, h.lists, free, p);
      DetachedNow(m, c, h, lay, k, p, Clear(m1, lay, k), ClearFirst(m1, fl, lay, k));
    } else {
      UnlinkKeepsGrid(m, fl, lay, h.lists, free, p);
      UnlinkGrid(m, fl, lay, h.lists, free, p);
      DetachedNow(m, c, h, lay, k, p, m1, fl);
    }
  }

  lemma DetachedNow(m: Mem, c: GmaHeap.Config, h: GmaHeap.Heap, lay: Layout, k: nat, p: int, m1: Mem, fl1: nat)
    requires k < |h.lists| && h.lists[k] != [] && p == h.lists[k][0]
    requires OnlyIndex(m, m1, lay, GmaHeap.FreeMap(c, h.bs))
    requires GridOk(m1, fl1, lay, Remove(h.lists, k, p), GmaHeap.FreeMap(c, h.bs) - {p})
    ensures Detached(m, c, h, lay, k, p, m1, fl1)
  {
  }

  lemma GridIndexed(m: Mem, fl: nat, lay: Layout, lists: Lists, free: map<int, nat>)
    requires GridOk(m, fl, lay, lists, free)
    ensures Indexed(fl, RowWords(m, lay), lists)
  {
  }

  /** The chunk is large enough to be split, as the code tests it in 32 bits and as it is meant. */
  ghost predicate SplitAgrees(c: GmaHeap.Config, h: GmaHeap.Heap, k: nat, size: nat) {
    && k < |h.lists| && h.lists[k] != []
    && var n := GmaHeap.SizeOf(h.bs, h.lists[k][0]);
       4 * n >= (size + c.minBytes) % WORD_LIMIT <==> 4 * n >= size + c.minBytes
  }

  lemma SplitMeant(c: GmaHeap.Config, h: GmaHeap.Heap, k: nat, size: nat, min: nat, words: nat)
    requires SplitAgrees(c, h, k, size) && min == c.minBytes && words == GmaHeap.SizeOf(h.bs, h.lists[k][0])
    ensures 4 * words >= (size + min) % WORD_LIMIT <==> 4 * words >= size + min
  {
  }

  lemma AllocIs(c: GmaHeap.Config, h: GmaHeap.Heap, request: nat)
    requires GmaHeap.Alloc(c, h, request).0 != GmaHeap.Undefined
    ensures var size := GmaHeap.Rounded(c.minBytes, request);
            var k := GmaHeap.ChosenIn(c, h.lists, size);
            && k <= |h.lists| && !GmaHeap.Stray(c, size)
            && (k == |h.lists| ==>
                  && GmaHeap.Alloc(c, h, request).1 == h
                  && GmaHeap.UsableAddress(GmaHeap.Alloc(c, h, request).0) == 0)
            && (k < |h.lists| ==>
                  && SplitAgrees(c, h, k, size)
                  && GmaHeap.Alloc(c, h, request).1 == GmaHeap.Taken(c, h, k, size / 4)
                  && GmaHeap.UsableAddress(GmaHeap.Alloc(c, h, request).0) == h.lists[k][0] + 2)
  {
    hide GmaHeap.Rounded, GmaHeap.ChosenIn, GmaHeap.Taken, GmaHeap.Stray;
    ModAtMost(GmaHeap.Rounded(c.minBytes, request) + c.minBytes);
  }

  lemma ModAtMost(n: nat)
    ensures n % WORD_LIMIT <= n
  {
  }

  lemma SizeReady(m: Mem, fl: nat, c: GmaHeap.Config, h: GmaHeap.Heap, lay: Layout, request: nat) returns (k: nat)
    requires State(m, fl, c, h, lay) && GmaHeap.Alloc(c, h, request).0 != GmaHeap.Undefined
    ensures var size := GmaHeap.Rounded(c.minBytes, request);
            && c.minBytes <= size < WORD_LIMIT && size % 4 == 0 && !GmaHeap.Stray(c, size)
            && c.minBytes == 4 * c.pool.min && 8 <= c.pool.min <= size / 4
            && |h.lists| == DIM * c.Rows() && lay.Fits(m) && Indexed(fl, RowWords(m, lay), h.lists)
            && k == GmaHeap.ChosenIn(c, h.lists, size)
            && (k == |h.lists| ==>
                  && GmaHeap.Alloc(c, h, request).1 == h
                  && GmaHeap.UsableAddress(GmaHeap.Alloc(c, h, request).0) == 0)
            && (k < |h.lists| ==>
                  && SplitAgrees(c, h, k, size)
                  && GmaHeap.Alloc(c, h, request).1 == GmaHeap.Taken(c, h, k, size / 4)
                  && GmaHeap.UsableAddress(GmaHeap.Alloc(c, h, request).0) == h.lists[k][0] + 2)
            && k <= |h.lists|
  {
    hide *;
    StateFacts(m, fl, c, h, lay);
    StateValid(m, fl, c, h, lay);
    GmaHeap.RoundedBounds(c, h, request);
    GmaHeap.MinBounds(c, h);
    GridIndexed(m, fl, lay, h.lists, GmaHeap.FreeMap(c, h.bs));
    AllocIs(c, h, request);
    k := GmaHeap.ChosenIn(c, h.lists, GmaHeap.Rounded(c.minBytes, request));
  }

  lemma DetachedInRange(m: Mem, fl: nat, c: GmaHeap.Config, h: GmaHeap.Heap, lay: Layout, k: nat, p: nat, m1: Mem,
                        fl1: nat)
    requires State(m, fl, c, h, lay) && Detached(m, c, h, lay, k, p, m1, fl1)
    ensures p + 1 < |m1| && m1[p + 1] == At(m1, p + 1) && p + SizeTag(m1[p + 1]) + 1 < |m1|
    ensures k < |h.lists| && h.lists[k] != [] && p == h.lists[k][0]
    ensures SizeTag(m1[p + 1]) == GmaHeap.SizeOf(h.bs, h.lists[k][0])
  {
    hide *;
    StateFacts(m, fl, c, h, lay);
    DetachedFacts(m, fl, c, h, lay, k, p, m1, fl1);
    DetachedHead(m, c, h, lay, k, p, m1, fl1);
    EndHeader(m, lay, h.bs, c.pool, GmaHeap.FreeMap(c, h.bs), p);
    AtIndex(m1, p + 1);
    SizeOfFree(h.bs, p);
  }

  lemma SizeOfFree(bs: Blocks, p: int)
    requires Free(bs, p)
    ensures GmaHeap.SizeOf(bs, p) == bs[p].size
  {
  }

  lemma UsedInRange(m: Mem, fl: nat, c: GmaHeap.Config, h: GmaHeap.Heap, lay: Layout, k: nat, p: nat, words: nat,
                    m1: Mem, fl1: nat, m3: Mem)
    requires State(m, fl, c, h, lay) && Detached(m, c, h, lay, k, p, m1, fl1)
    requires c.pool.min <= words && words + c.pool.min <= SizeTag(At(m1, p + 1))
    requires var k2 := GmaHeap.ListIndex(c, SizeTag(At(m1, p + 1)) - words);
             OnlyIndexAndTags(SplitAt(m1, p, words), m3, lay,
                              (GmaHeap.FreeMap(c, h.bs) - {p})[p + words := k2], p + words)
    ensures p + 1 < |m3| && p + SizeTag(m3[p + 1]) + 1 < |m3|
  {
    hide *;
    StateFacts(m, fl, c, h, lay);
    RoomTiles(m, lay, h.bs, c.pool);
    DetachedFacts(m, fl, c, h, lay, k, p, m1, fl1);
    var free := GmaHeap.FreeMap(c, h.bs);
    var k2 := GmaHeap.ListIndex(c, h.bs[p].size - words);
    EndHeader(m, lay, h.bs, c.pool, free, p);
    RemainderWords(m, lay, h.bs, c.pool, free, p, words, k2);
    FirstPartTag(m, m1, m3, lay, free, p, words, h.bs[p].size, (free - {p})[p + words := k2]);
  }

  lemma FirstPartTag(m: Mem, m1: Mem, m3: Mem, lay: Layout, free: map<int, nat>, p: nat, words: nat, size: nat,
                     more: map<int, nat>)
    requires 8 <= words && words + 8 <= size && p + size + 1 < |m| && OnlyIndex(m, m1, lay, free)
    requires SizeTag(At(m1, p + 1)) == size
    requires OnlyIndexAndTags(SplitAt(m1, p, words), m3, lay, more, p + words) && !IndexWord(lay, more, p + 1)
    ensures |m3| == |m| && SizeTag(m3[p + 1]) == words
  {
    SplitWords(m1, p, words, size);
    SetSizeFlags(0, size - words);
    SetSizeFlags(At(m1, p + 1), words);
    hide SplitAt, SetSize, SizeTag, IndexWord;
    assert At(m3, p + 1) == At(SplitAt(m1, p, words), p + 1);
  }
}
