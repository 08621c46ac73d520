/** The states a pool goes through inside gma_free and gma_alloc, as facts about memory images. The methods
    in Gma.dfy walk through them. */
module GmaSteps {
  import opened Bits
  import opened GmaIndex
  import opened Tiling
  import opened FreeLists
  import opened GmaBitmaps
  import opened GmaMemory
  import opened Words
  import opened GmaTags
  import opened GmaGrid
  import opened GmaChunks
  import GmaHeap

  /** A pool at rest: the heap is in order and memory represents it. */
  ghost predicate State(m: Mem, fl: nat, c: GmaHeap.Config, h: GmaHeap.Heap, lay: Layout) {
    && GmaHeap.Valid(c, h)
    && lay.rows == c.Rows()
    && Room(m, lay, h.bs, c.pool)
    && GridOk(m, fl, lay, h.lists, GmaHeap.FreeMap(c, h.bs))
    && Tagged(m, h.bs, c.pool)
  }

  /** The index is in order and chunk p is listed under the size its tag says. */
  ghost predicate Indexes(m: Mem, fl: nat, c: GmaHeap.Config, lay: Layout, lists: Lists, free: map<int, nat>, p: int) {
    && c.Ok() && lay.rows == c.Rows()
    && GridOk(m, fl, lay, lists, free)
    && p in free && !IndexWord(lay, free, p + 1)
    && c.pool.min <= SizeTag(At(m, p + 1)) <= c.pool.hi - c.pool.lo
    && free[p] == GmaHeap.ListIndex(c, SizeTag(At(m, p + 1)))
  }

  /** The index is in order and chunk p, of the size its tag says, can be added to it. */
  ghost predicate Insertable(m: Mem, fl: nat, c: GmaHeap.Config, lay: Layout, lists: Lists, free: map<int, nat>,
                             p: nat) {
    && c.Ok() && lay.rows == c.Rows()
    && p + 1 < |m| && Space(m, lay, free, p)
    && GridOk(m, fl, lay, lists, free)
    && c.pool.min <= SizeTag(m[p + 1]) <= c.pool.hi - c.pool.lo
  }

  // ---------------------------------------------------------------- gma_free

  /** The first step of gma_free: p marked free in its header. */
  function Opening(m: Mem, p: int): Mem {
    Put(m, p + 1, ClearInUse(At(m, p + 1)))
  }

  lemma StateFacts(m: Mem, fl: nat, c: GmaHeap.Config, h: GmaHeap.Heap, lay: Layout)
    requires State(m, fl, c, h, lay)
    ensures c.Ok() && Room(m, lay, h.bs, c.pool) && FreeBlocks(h.bs, GmaHeap.FreeMap(c, h.bs))
    ensures Tiles(h.bs, c.pool) && Bounded(h.bs, c.pool)
    ensures lay.Fits(m) && lay.grid + lay.Lists() <= c.pool.lo && c.pool.hi + 1 < |m| && lay.rows == c.Rows()
    ensures GridOk(m, fl, lay, h.lists, GmaHeap.FreeMap(c, h.bs)) && Tagged(m, h.bs, c.pool)
    ensures |h.lists| == DIM * c.Rows()
  {
  }

  /** What a pool at rest promises about its index: each free chunk is in exactly the list its size maps to, every
      member of a list is free, a second-level bit in memory is set exactly when its list is not empty, and a
      first-level bit exactly when a list of its row is not. */
  lemma IndexAgrees(m: Mem, fl: nat, c: GmaHeap.Config, h: GmaHeap.Heap, lay: Layout)
    requires State(m, fl, c, h, lay)
    ensures forall p | Free(h.bs, p) ::
              var k := GmaHeap.ListIndex(c, h.bs[p].size); k < |h.lists| && p in h.lists[k]
    ensures forall k, i | 0 <= k < |h.lists| && 0 <= i < |h.lists[k]| ::
              Free(h.bs, h.lists[k][i]) && k == GmaHeap.ListIndex(c, h.bs[h.lists[k][i]].size)
    ensures forall k, i, j | 0 <= k < |h.lists| && 0 <= i < j < |h.lists[k]| :: h.lists[k][i] != h.lists[k][j]
    ensures forall k: nat | k < |h.lists| :: Bit(At(m, lay.sl + k / DIM), k % DIM) <==> h.lists[k] != []
    ensures forall r: nat | r < c.Rows() ::
              Bit(fl, r) <==> exists k: nat :: k < |h.lists| && k / DIM == r && h.lists[k] != []
  {
    StateFacts(m, fl, c, h, lay);
    var free := GmaHeap.FreeMap(c, h.bs);
    hide State, Room, Tagged, Chains, Placed, Bit, GmaHeap.ListIndex, FreeBlocks, Bounded, Tiles;
    forall p | Free(h.bs, p)
      ensures GmaHeap.ListIndex(c, h.bs[p].size) < |h.lists| && p in h.lists[GmaHeap.ListIndex(c, h.bs[p].size)]
    {
      assert p in free && free[p] == GmaHeap.ListIndex(c, h.bs[p].size);
    }
    forall k | 0 <= k < |h.lists| ensures ListSound(h.lists[k], k, free) {
    }
    forall k: nat | k < |h.lists| ensures Bit(At(m, lay.sl + k / DIM), k % DIM) <==> h.lists[k] != [] {
      assert ListBit(RowWords(m, lay), h.lists, k);
      RowWordsAt(m, lay);
    }
    forall r: nat | r < c.Rows()
      ensures Bit(fl, r) <==> exists k: nat :: k < |h.lists| && k / DIM == r && h.lists[k] != []
    {
      RowAgrees(fl, RowWords(m, lay), h.lists, r);
    }
  }

  /** The heap determines its representation: whatever led to them, two memories that represent the same heap have the
      same bitmaps, list headers and links, and the same word in front of every chunk. */
  lemma HeapDetermines(m: Mem, fl: nat, m': Mem, fl': nat, c: GmaHeap.Config, h: GmaHeap.Heap, lay: Layout)
    requires State(m, fl, c, h, lay) && State(m', fl', c, h, lay)
    ensures fl' == fl
    ensures forall w {:trigger At(m', w)} | IndexWord(lay, GmaHeap.FreeMap(c, h.bs), w) :: At(m', w) == At(m, w)
    ensures forall p | p in h.bs :: At(m', p + 1) == At(m, p + 1)
  {
    hide *;
    StateFacts(m, fl, c, h, lay);
    StateFacts(m', fl', c, h, lay);
    var free := GmaHeap.FreeMap(c, h.bs);
    GridParts(m, fl, lay, h.lists, free);
    GridParts(m', fl', lay, h.lists, free);
    IndexUnique(fl, RowWords(m, lay), fl', RowWords(m', lay), h.lists);
    forall w {:trigger At(m', w)} | IndexWord(lay, free, w) ensures At(m', w) == At(m, w) {
      SameIndexWord(m, m', lay, h.lists, free, w);
    }
    forall p | p in h.bs ensures At(m', p + 1) == At(m, p + 1) {
      SameHeader(m, m', h.bs, c.pool, p);
    }
  }

  lemma GridParts(m: Mem, fl: nat, lay: Layout, lists: Lists, free: map<int, nat>)
    requires GridOk(m, fl, lay, lists, free)
    ensures lay.Fits(m) && |lists| == lay.Lists() && Listed(lists, free) && Chains(m, lay.grid, lists)
    ensures Indexed(fl, RowWords(m, lay), lists)
  {
    hide Listed, Chains, Placed, Indexed, RowWords;
  }

  lemma SameIndexWord(m: Mem, m': Mem, lay: Layout, lists: Lists, free: map<int, nat>, w: int)
    requires lay.Fits(m) && lay.Fits(m') && |lists| == lay.Lists() && Listed(lists, free)
    requires Chains(m, lay.grid, lists) && Chains(m', lay.grid, lists) && RowWords(m, lay) == RowWords(m', lay)
    requires IndexWord(lay, free, w)
    ensures At(m', w) == At(m, w)
  {
    if lay.sl <= w < lay.sl + lay.rows {
      RowWordsAt(m, lay);
      RowWordsAt(m', lay);
      assert RowWords(m, lay)[w - lay.sl] == RowWords(m', lay)[w - lay.sl];
    } else if lay.grid <= w < lay.grid + lay.Lists() {
      var list := lists[w - lay.grid];
      assert Chain(m, w, list) && Chain(m', w, list);
    } else if w - 2 in free {
      SameLinks(m, m', lay.grid, lists, free, w - 2);
    } else {
      SameLinks(m, m', lay.grid, lists, free, w - 3);
    }
  }

  lemma SameLinks(m: Mem, m': Mem, grid: nat, lists: Lists, free: map<int, nat>, p: int)
    requires Listed(lists, free) && p in free && Chains(m, grid, lists) && Chains(m', grid, lists)
    ensures At(m', p + 2) == At(m, p + 2) && At(m', p + 3) == At(m, p + 3)
  {
    var list := lists[free[p]];
    var i :| 0 <= i < |list| && list[i] == p;
    assert Chain(m, grid + free[p], list) && Chain(m', grid + free[p], list);
    assert Node(m, grid + free[p], list, i) && Node(m', grid + free[p], list, i);
  }

  lemma SameHeader(m: Mem, m': Mem, bs: Blocks, pool: Pool, p: int)
    requires Tiles(bs, pool) && Tagged(m, bs, pool) && Tagged(m', bs, pool) && p in bs
    ensures At(m', p + 1) == At(m, p + 1)
  {
    hide Tiles, MergedStart;
    NeighbourTags(m, bs, pool, p);
    NeighbourTags(m', bs, pool, p);
    assert TagOk(m, bs, p) && TagOk(m', bs, p);
    SameWord(At(m, p + 1), At(m', p + 1));
  }

  lemma SameWord(w: nat, w': nat)
    requires SizeTag(w) == SizeTag(w') && InUse(w) == InUse(w') && BeforeInUse(w) == BeforeInUse(w')
    ensures w == w'
  {
    hide SizeTag, InUse, BeforeInUse;
    WordParts(w);
    WordParts(w');
  }

  lemma WordParts(w: nat)
    ensures w == 4 * SizeTag(w) + (if InUse(w) then 2 else 0) + if BeforeInUse(w) then 1 else 0
  {
    assert w == 2 * (w / 2) + w % 2;
  }

  lemma OpeningKeepsGrid(m: Mem, fl: nat, c: GmaHeap.Config, h: GmaHeap.Heap, lay: Layout, p: int)
    requires State(m, fl, c, h, lay) && Used(h.bs, p)
    ensures GridOk(Opening(m, p), fl, lay, h.lists, GmaHeap.FreeMap(c, h.bs))
    ensures 0 <= p && p + 1 < |m| && At(m, p + 1) == m[p + 1]
  {
    StateFacts(m, fl, c, h, lay);
    hide State, GridOk, Tagged, IndexWord;
    BlockWords(m, lay, h.bs, c.pool, GmaHeap.FreeMap(c, h.bs), p, p + 1);
    GridFrame(m, Opening(m, p), fl, lay, h.lists, GmaHeap.FreeMap(c, h.bs));
  }

  /** Nothing to join before p. */
  lemma OpenedAlone(m: Mem, fl: nat, c: GmaHeap.Config, h: GmaHeap.Heap, lay: Layout, p: int)
    requires State(m, fl, c, h, lay) && Used(h.bs, p)
    requires BeforeInUse(At(m, p + 1))
    ensures MergedStart(h.bs, c.pool, p) == p
    ensures Opened(m, Opening(m, p), lay, h.bs, c.pool, GmaHeap.FreeMap(c, h.bs), p, End(h.bs, p) - p)
    ensures GmaHeap.FreeMap(c, h.bs) - {p} == GmaHeap.FreeMap(c, h.bs)
    ensures GmaHeap.DetachedBefore(c, h, p) == h.lists
  {
    hide *;
    StateFacts(m, fl, c, h, lay);
    UsedIn(h.bs, p);
    HeaderFacts(m, fl, c, h, lay, p);
    ClearInUseFlags(At(m, p + 1));
    OpeningIsOpened(m, lay, h.bs, c.pool, GmaHeap.FreeMap(c, h.bs), p);
    NothingDetached(c, h, p);
  }

  lemma NothingDetached(c: GmaHeap.Config, h: GmaHeap.Heap, p: int)
    requires Tiles(h.bs, c.pool) && Used(h.bs, p) && MergedStart(h.bs, c.pool, p) == p
    ensures GmaHeap.FreeMap(c, h.bs) - {p} == GmaHeap.FreeMap(c, h.bs)
    ensures GmaHeap.DetachedBefore(c, h, p) == h.lists
  {
    hide Tiles, MergedStart, GmaHeap.ListIndex;
  }

  lemma OpeningIsOpened(m: Mem, lay: Layout, bs: Blocks, pool: Pool, free: map<int, nat>, p: int)
    requires Tiles(bs, pool) && p in bs && MergedStart(bs, pool, p) == p && 0 <= p + 1 < |m|
    requires SizeTag(ClearInUse(At(m, p + 1))) == bs[p].size && !InUse(ClearInUse(At(m, p + 1)))
    requires BeforeInUse(ClearInUse(At(m, p + 1))) == BeforeInUse(At(m, p + 1))
    ensures Opened(m, Opening(m, p), lay, bs, pool, free, p, bs[p].size)
  {
    hide Tiles, MergedStart, SizeTag, InUse, BeforeInUse, ClearInUse, IndexWord;
  }

  /** A free chunk before p, ready to be taken out of its list. */
  lemma BeforeReady(m: Mem, fl: nat, c: GmaHeap.Config, h: GmaHeap.Heap, lay: Layout, p: int)
    requires State(m, fl, c, h, lay) && Used(h.bs, p)
    requires !BeforeInUse(At(m, p + 1))
    ensures var b, free := MergedStart(h.bs, c.pool, p), GmaHeap.FreeMap(c, h.bs);
            && 0 <= b < p && b + 1 < |m| && b == p - SizeTag(m[p]) && !InUse(m[b + 1])
            && Free(h.bs, b) && b in free
            && Indexes(Opening(m, p), fl, c, lay, h.lists, free, b)
            && GmaHeap.DetachedBefore(c, h, p) == Remove(h.lists, free[b], b)
  {
    hide *;
    StateFacts(m, fl, c, h, lay);
    UsedIn(h.bs, p);
    OpeningKeepsGrid(m, fl, c, h, lay, p);
    HeaderFacts(m, fl, c, h, lay, p);
    var b, free := MergedStart(h.bs, c.pool, p), GmaHeap.FreeMap(c, h.bs);
    BlockHeader(m, lay, h.bs, c.pool, free, b);
    BeforeTag(m, h.bs, c.pool, p);
    AtIndex(m, b + 1);
    AtIndex(m, p);
    OpeningAt(m, p, b + 1);
    FreeIn(c, h.bs, b);
    ListedSize(Opening(m, p), fl, c, lay, h.lists, free, b, h.bs[b].size);
    DetachedBeforeIs(c, h, p);
  }

  lemma BeforeTag(m: Mem, bs: Blocks, pool: Pool, p: int)
    requires Tiles(bs, pool) && Tagged(m, bs, pool) && p in bs && MergedStart(bs, pool, p) < p
    ensures MergedStart(bs, pool, p) == p - SizeTag(At(m, p)) && Free(bs, MergedStart(bs, pool, p))
  {
    hide SizeTag, InUse, BeforeInUse;
    NeighbourTags(m, bs, pool, p);
  }

  lemma OpeningAt(m: Mem, p: int, w: int)
    ensures w != p + 1 ==> At(Opening(m, p), w) == At(m, w)
    ensures |Opening(m, p)| == |m|
  {
  }

  lemma FreeIn(c: GmaHeap.Config, bs: Blocks, b: int)
    requires Free(bs, b) && Bounded(bs, c.pool)
    ensures b in bs && b in GmaHeap.FreeMap(c, bs) && GmaHeap.FreeMap(c, bs)[b] == GmaHeap.ListIndex(c, bs[b].size)
    ensures c.pool.min <= bs[b].size <= c.pool.hi - c.pool.lo
  {
    hide GmaHeap.ListIndex;
    assert End(bs, b) <= c.pool.hi;
  }

  lemma ListedSize(m: Mem, fl: nat, c: GmaHeap.Config, lay: Layout, lists: Lists, free: map<int, nat>, p: int,
                   size: nat)
    requires c.Ok() && lay.rows == c.Rows() && GridOk(m, fl, lay, lists, free)
    requires p in free && !IndexWord(lay, free, p + 1) && SizeTag(At(m, p + 1)) == size
    requires c.pool.min <= size <= c.pool.hi - c.pool.lo && free[p] == GmaHeap.ListIndex(c, size)
    ensures Indexes(m, fl, c, lay, lists, free, p)
  {
    hide GridOk, GmaHeap.ListIndex, SizeTag, IndexWord;
  }

  lemma DetachedBeforeIs(c: GmaHeap.Config, h: GmaHeap.Heap, p: int)
    requires Tiles(h.bs, c.pool) && Used(h.bs, p) && MergedStart(h.bs, c.pool, p) < p
    ensures var b := MergedStart(h.bs, c.pool, p);
            b in h.bs && GmaHeap.DetachedBefore(c, h, p) == Remove(h.lists, GmaHeap.ListIndex(c, h.bs[b].size), b)
  {
    hide Tiles, GmaHeap.ListIndex, Remove;
  }

  lemma UsedIn(bs: Blocks, p: int)
    requires Used(bs, p)
    ensures p in bs && !Free(bs, p) && End(bs, p) == p + bs[p].size
  {
  }

  lemma MinusTwo(free: map<int, nat>, b: int, a: int)
    ensures free - {b} - {a} == free - {b, a}
  {
  }

  /** The headers around p are no index words, and tell the sizes of their chunks. */
  lemma HeaderFacts(m: Mem, fl: nat, c: GmaHeap.Config, h: GmaHeap.Heap, lay: Layout, p: int)
    requires State(m, fl, c, h, lay) && Used(h.bs, p)
    ensures var b, a, free := MergedStart(h.bs, c.pool, p), End(h.bs, p), GmaHeap.FreeMap(c, h.bs);
            && b <= p < a && b in h.bs
            && !IndexWord(lay, free, b + 1) && !IndexWord(lay, free, p + 1) && 0 <= p + 1 < |m|
            && SizeTag(At(m, b + 1)) == h.bs[b].size && SizeTag(At(m, p + 1)) == h.bs[p].size
            && (b < p ==> !InUse(At(m, b + 1)) && b + h.bs[b].size == p)
            && (Free(h.bs, a) ==> !IndexWord(lay, free, a + 1) && SizeTag(At(m, a + 1)) == h.bs[a].size)
            && (BeforeInUse(At(m, p + 1)) <==> b == p)
  {
    hide *;
    StateFacts(m, fl, c, h, lay);
    UsedIn(h.bs, p);
    var free := GmaHeap.FreeMap(c, h.bs);
    TagsAround(m, h.bs, c.pool, p);
    BlockHeader(m, lay, h.bs, c.pool, free, MergedStart(h.bs, c.pool, p));
    BlockHeader(m, lay, h.bs, c.pool, free, p);
    if Free(h.bs, End(h.bs, p)) {
      MergedEndFree(h.bs, p);
      BlockHeader(m, lay, h.bs, c.pool, free, End(h.bs, p));
    }
  }

  lemma BlockHeader(m: Mem, lay: Layout, bs: Blocks, pool: Pool, free: map<int, nat>, q: int)
    requires Room(m, lay, bs, pool) && FreeBlocks(bs, free) && q in bs
    ensures !IndexWord(lay, free, q + 1) && 0 <= q && q + 1 < |m|
  {
    BlockWords(m, lay, bs, pool, free, q, q + 1);
  }

  lemma TagsAround(m: Mem, bs: Blocks, pool: Pool, p: int)
    requires Tiles(bs, pool) && Tagged(m, bs, pool) && p in bs
    ensures var b, a := MergedStart(bs, pool, p), End(bs, p);
            && b <= p < a && b in bs
            && SizeTag(At(m, b + 1)) == bs[b].size && SizeTag(At(m, p + 1)) == bs[p].size
            && (b < p ==> !InUse(At(m, b + 1)) && b + bs[b].size == p)
            && (Free(bs, a) ==> a in bs && SizeTag(At(m, a + 1)) == bs[a].size)
            && (BeforeInUse(At(m, p + 1)) <==> b == p)
  {
    hide SizeTag, InUse, BeforeInUse;
    NeighbourTags(m, bs, pool, p);
    assert TagOk(m, bs, p) && TagOk(m, bs, MergedStart(bs, pool, p));
  }

  /** The two headers that are joined, after the list of the first one was updated. */
  lemma HeadersBefore(m: Mem, fl: nat, c: GmaHeap.Config, h: GmaHeap.Heap, lay: Layout, p: int, m2: Mem)
    requires State(m, fl, c, h, lay) && Used(h.bs, p) && !BeforeInUse(At(m, p + 1))
    requires OnlyIndex(Opening(m, p), m2, lay, GmaHeap.FreeMap(c, h.bs))
    ensures var b := MergedStart(h.bs, c.pool, p);
            && b < p && At(m2, b + 1) == At(m, b + 1) && !InUse(At(m2, b + 1))
            && SizeTag(At(m2, b + 1)) + SizeTag(At(m2, p + 1)) == End(h.bs, p) - b
            && |m2| == |m|
            && forall w {:trigger At(m2, w)} ::
                 IndexWord(lay, GmaHeap.FreeMap(c, h.bs), w) || w == p + 1 || At(m2, w) == At(m, w)
  {
    hide *;
    HeaderFacts(m, fl, c, h, lay, p);
    StateFacts(m, fl, c, h, lay);
    UsedIn(h.bs, p);
    ClearInUseFlags(At(m, p + 1));
    OpeningThenIndex(m, m2, lay, GmaHeap.FreeMap(c, h.bs), p);
  }

  lemma OpeningThenIndex(m: Mem, m2: Mem, lay: Layout, free: map<int, nat>, p: int)
    requires OnlyIndex(Opening(m, p), m2, lay, free) && 0 <= p + 1 < |m|
    ensures |m2| == |m|
    ensures forall w {:trigger At(m2, w)} :: IndexWord(lay, free, w) || w == p + 1 || At(m2, w) == At(m, w)
    ensures !IndexWord(lay, free, p + 1) ==> At(m2, p + 1) == ClearInUse(At(m, p + 1))
  {
    hide IndexWord, ClearInUse;
  }

  lemma OpenedBefore(m: Mem, fl: nat, c: GmaHeap.Config, h: GmaHeap.Heap, lay: Layout, p: int, m2: Mem, fl2: nat)
    requires State(m, fl, c, h, lay) && Used(h.bs, p)
    requires !BeforeInUse(At(m, p + 1))
    requires OnlyIndex(Opening(m, p), m2, lay, GmaHeap.FreeMap(c, h.bs))
    requires var b := MergedStart(h.bs, c.pool, p);
             GridOk(m2, fl2, lay, GmaHeap.DetachedBefore(c, h, p), GmaHeap.FreeMap(c, h.bs) - {b})
    ensures var b := MergedStart(h.bs, c.pool, p); var m3 := JoinedHeader(m2, b, p);
            && Opened(m, m3, lay, h.bs, c.pool, GmaHeap.FreeMap(c, h.bs), p, End(h.bs, p) - b)
            && GridOk(m3, fl2, lay, GmaHeap.DetachedBefore(c, h, p), GmaHeap.FreeMap(c, h.bs) - {b})
  {
    hide *;
    StateFacts(m, fl, c, h, lay);
    UsedIn(h.bs, p);
    HeadersBefore(m, fl, c, h, lay, p, m2);
    var b, free := MergedStart(h.bs, c.pool, p), GmaHeap.FreeMap(c, h.bs);
    OpenedJoin(m, m2, lay, h.bs, c.pool, free, p, p, End(h.bs, p) - b);
    NoMoreIndex(lay, free, b, b + 1);
    HeaderKeepsGrid(m2, fl2, lay, GmaHeap.DetachedBefore(c, h, p), free - {b}, b, p);
  }

  lemma NoMoreIndex(lay: Layout, free: map<int, nat>, b: int, w: int)
    requires !IndexWord(lay, free, w)
    ensures !IndexWord(lay, free - {b}, w)
  {
  }

  /** The chunk after p, and whether it is to be joined. */
  lemma AfterReady(m: Mem, fl: nat, c: GmaHeap.Config, h: GmaHeap.Heap, lay: Layout, p: int, m1: Mem, fl1: nat)
    requires State(m, fl, c, h, lay) && Used(h.bs, p)
    requires var b, free := MergedStart(h.bs, c.pool, p), GmaHeap.FreeMap(c, h.bs);
             && Opened(m, m1, lay, h.bs, c.pool, free, p, End(h.bs, p) - b)
             && GridOk(m1, fl1, lay, GmaHeap.DetachedBefore(c, h, p), free - {b})
    ensures var a, b, free := End(h.bs, p), MergedStart(h.bs, c.pool, p), GmaHeap.FreeMap(c, h.bs);
            && 0 <= b && b + 1 < |m1| && a == b + SizeTag(m1[b + 1]) && a + 1 < |m1| && At(m1, a + 1) == At(m, a + 1)
            && (InUse(m1[a + 1]) <==> !Free(h.bs, a))
            && (Free(h.bs, a) ==>
                  && a in free - {b} && SizeTag(At(m1, a + 1)) == h.bs[a].size
                  && Indexes(m1, fl1, c, lay, GmaHeap.DetachedBefore(c, h, p), free - {b}, a)
                  && GmaHeap.Detached(c, h, p) == Remove(GmaHeap.DetachedBefore(c, h, p), free[a], a))
            && (!Free(h.bs, a) ==>
                  GmaHeap.Detached(c, h, p) == GmaHeap.DetachedBefore(c, h, p) && free - {b} == free - {b, a})
  {
    hide *;
    StateFacts(m, fl, c, h, lay);
    UsedIn(h.bs, p);
    HeaderFacts(m, fl, c, h, lay, p);
    var a, b, free := End(h.bs, p), MergedStart(h.bs, c.pool, p), GmaHeap.FreeMap(c, h.bs);
    BlockHeader(m, lay, h.bs, c.pool, free, b);
    AfterTag(m, lay, h.bs, c.pool, free, p);
    OpenedFacts(m, m1, lay, h.bs, c.pool, free, p, a - b, a + 1);
    AtIndex(m1, b + 1);
    AtIndex(m1, a + 1);
    DetachedIs(c, h, p);
    if Free(h.bs, a) {
      FreeIn(c, h.bs, a);
      NoMoreIndex(lay, free, b, a + 1);
      StillFree(free, b, a);
      ListedSize(m1, fl1, c, lay, GmaHeap.DetachedBefore(c, h, p), free - {b}, a, h.bs[a].size);
    } else {
      NotFree(c, h.bs, b, a);
    }
  }

  lemma AfterTag(m: Mem, lay: Layout, bs: Blocks, pool: Pool, free: map<int, nat>, p: int)
    requires Room(m, lay, bs, pool) && FreeBlocks(bs, free) && Tagged(m, bs, pool) && p in bs
    ensures InUse(At(m, End(bs, p) + 1)) <==> !Free(bs, End(bs, p))
    ensures !IndexWord(lay, free, End(bs, p) + 1) && 0 <= End(bs, p) + 1 < |m|
  {
    hide SizeTag, InUse, BeforeInUse;
    NeighbourTags(m, bs, pool, p);
    assert TagOk(m, bs, p);
    BlockWords(m, lay, bs, pool, free, p, End(bs, p) + 1);
  }

  lemma OpenedFacts(m: Mem, m1: Mem, lay: Layout, bs: Blocks, pool: Pool, free: map<int, nat>, p: int, size: int,
                    w: int)
    requires Tiles(bs, pool) && p in bs && Opened(m, m1, lay, bs, pool, free, p, size)
    ensures |m1| == |m| && SizeTag(At(m1, MergedStart(bs, pool, p) + 1)) == size
    ensures !IndexWord(lay, free, w) && w != p + 1 && w != MergedStart(bs, pool, p) + 1 ==> At(m1, w) == At(m, w)
  {
    hide Tiles, MergedStart, SizeTag, InUse, BeforeInUse, IndexWord;
  }

  lemma DetachedIs(c: GmaHeap.Config, h: GmaHeap.Heap, p: int)
    requires Tiles(h.bs, c.pool) && Used(h.bs, p)
    ensures var a := End(h.bs, p);
            if Free(h.bs, a) then
              && a in h.bs
              && GmaHeap.Detached(c, h, p) ==
                 Remove(GmaHeap.DetachedBefore(c, h, p), GmaHeap.ListIndex(c, h.bs[a].size), a)
            else GmaHeap.Detached(c, h, p) == GmaHeap.DetachedBefore(c, h, p)
  {
    hide Tiles, GmaHeap.ListIndex, Remove, GmaHeap.DetachedBefore;
  }

  lemma StillFree(free: map<int, nat>, b: int, a: int)
    requires a in free && b != a
    ensures a in free - {b} && (free - {b})[a] == free[a]
  {
  }

  lemma StillFreeAfter(free: map<int, nat>, b: int, a: int)
    requires a in free - {b}
    ensures a in free && (free - {b})[a] == free[a]
  {
  }

  lemma NotFree(c: GmaHeap.Config, bs: Blocks, b: int, a: int)
    requires !Free(bs, a)
    ensures GmaHeap.FreeMap(c, bs) - {b} == GmaHeap.FreeMap(c, bs) - {b, a}
  {
    hide GmaHeap.ListIndex;
  }

  lemma HeadersAfter(m: Mem, fl: nat, c: GmaHeap.Config, h: GmaHeap.Heap, lay: Layout, p: int, m1: Mem, m2: Mem)
    requires State(m, fl, c, h, lay) && Used(h.bs, p) && Free(h.bs, End(h.bs, p))
    requires var b, free := MergedStart(h.bs, c.pool, p), GmaHeap.FreeMap(c, h.bs);
             Opened(m, m1, lay, h.bs, c.pool, free, p, End(h.bs, p) - b) && OnlyIndex(m1, m2, lay, free - {b})
    ensures var b, a, free := MergedStart(h.bs, c.pool, p), End(h.bs, p), GmaHeap.FreeMap(c, h.bs);
            && !InUse(At(m2, b + 1)) && BeforeInUse(At(m2, b + 1)) == BeforeInUse(At(m, b + 1))
            && SizeTag(At(m2, b + 1)) + SizeTag(At(m2, a + 1)) == MergedEnd(h.bs, p) - b
            && |m2| == |m|
            && forall w {:trigger At(m2, w)} ::
                 IndexWord(lay, free, w) || w == p + 1 || w == b + 1 || At(m2, w) == At(m, w)
  {
    hide *;
    StateFacts(m, fl, c, h, lay);
    UsedIn(h.bs, p);
    HeaderFacts(m, fl, c, h, lay, p);
    OpenedThenIndex(m, m1, m2, lay, h.bs, c.pool, GmaHeap.FreeMap(c, h.bs), p,
                    End(h.bs, p) - MergedStart(h.bs, c.pool, p));
    MergedEndFree(h.bs, p);
  }

  lemma MergedEndFree(bs: Blocks, p: int)
    requires p in bs && Free(bs, End(bs, p))
    ensures End(bs, p) in bs && MergedEnd(bs, p) == End(bs, p) + bs[End(bs, p)].size
  {
  }

  lemma OpenedThenIndex(m: Mem, m1: Mem, m2: Mem, lay: Layout, bs: Blocks, pool: Pool, free: map<int, nat>,
                        p: int, size: int)
    requires Tiles(bs, pool) && p in bs && Opened(m, m1, lay, bs, pool, free, p, size)
    requires OnlyIndex(m1, m2, lay, free - {MergedStart(bs, pool, p)})
    ensures |m2| == |m|
    ensures forall w {:trigger At(m2, w)} ::
              IndexWord(lay, free, w) || w == p + 1 || w == MergedStart(bs, pool, p) + 1 || At(m2, w) == At(m, w)
    ensures !IndexWord(lay, free, MergedStart(bs, pool, p) + 1) ==>
              var tag := At(m2, MergedStart(bs, pool, p) + 1);
              && SizeTag(tag) == size && !InUse(tag)
              && BeforeInUse(tag) == BeforeInUse(At(m, MergedStart(bs, pool, p) + 1))
  {
    hide Tiles, SizeTag, InUse, BeforeInUse, MergedStart;
    FewerIndex(lay, free, MergedStart(bs, pool, p));
    hide IndexWord;
  }

  lemma FewerIndex(lay: Layout, free: map<int, nat>, b: int)
    ensures forall w :: IndexWord(lay, free - {b}, w) ==> IndexWord(lay, free, w)
  {
  }

  lemma OpenedAfter(m: Mem, fl: nat, c: GmaHeap.Config, h: GmaHeap.Heap, lay: Layout, p: int,
                    m1: Mem, fl1: nat, m2: Mem, fl2: nat)
    requires State(m, fl, c, h, lay) && Used(h.bs, p) && Free(h.bs, End(h.bs, p))
    requires var b, free := MergedStart(h.bs, c.pool, p), GmaHeap.FreeMap(c, h.bs);
             && Opened(m, m1, lay, h.bs, c.pool, free, p, End(h.bs, p) - b)
             && OnlyIndex(m1, m2, lay, free - {b})
             && GridOk(m2, fl2, lay, GmaHeap.Detached(c, h, p), free - {b} - {End(h.bs, p)})
    ensures var a, b, free := End(h.bs, p), MergedStart(h.bs, c.pool, p), GmaHeap.FreeMap(c, h.bs);
            var m3 := JoinedHeader(m2, b, a);
            && Opened(m, m3, lay, h.bs, c.pool, free, p, MergedEnd(h.bs, p) - b)
            && GridOk(m3, fl2, lay, GmaHeap.Detached(c, h, p), free - {b, a})
  {
    hide *;
    StateFacts(m, fl, c, h, lay);
    UsedIn(h.bs, p);
    HeadersAfter(m, fl, c, h, lay, p, m1, m2);
    var a, b, free := End(h.bs, p), MergedStart(h.bs, c.pool, p), GmaHeap.FreeMap(c, h.bs);
    MinusTwo(free, b, a);
    OpenedJoin(m, m2, lay, h.bs, c.pool, free, p, a, MergedEnd(h.bs, p) - b);
    NoMoreIndex(lay, free, b, b + 1);
    NoMoreIndex(lay, free - {b}, a, b + 1);
    HeaderKeepsGrid(m2, fl2, lay, GmaHeap.Detached(c, h, p), free - {b, a}, b, a);
  }

  /** The joined chunk, ready to be put in its list. */
  lemma MergedReady(m: Mem, fl: nat, c: GmaHeap.Config, h: GmaHeap.Heap, lay: Layout, p: int, m1: Mem, fl1: nat)
    requires State(m, fl, c, h, lay) && Used(h.bs, p)
    requires var b, free := MergedStart(h.bs, c.pool, p), GmaHeap.FreeMap(c, h.bs);
             && Opened(m, m1, lay, h.bs, c.pool, free, p, MergedEnd(h.bs, p) - b)
             && GridOk(m1, fl1, lay, GmaHeap.Detached(c, h, p), free - {b, End(h.bs, p)})
    ensures var b, free := MergedStart(h.bs, c.pool, p), GmaHeap.FreeMap(c, h.bs);
            && 0 <= b && b + 1 < |m1| && SizeTag(m1[b + 1]) == MergedEnd(h.bs, p) - b
            && Insertable(m1, fl1, c, lay, GmaHeap.Detached(c, h, p), free - {b, End(h.bs, p)}, b)
  {
    hide *;
    StateFacts(m, fl, c, h, lay);
    UsedIn(h.bs, p);
    HeaderFacts(m, fl, c, h, lay, p);
    var b, e, free := MergedStart(h.bs, c.pool, p), MergedEnd(h.bs, p), GmaHeap.FreeMap(c, h.bs);
    BlockHeader(m, lay, h.bs, c.pool, free, b);
    OpenedFacts(m, m1, lay, h.bs, c.pool, free, p, e - b, b + 1);
    AtIndex(m1, b + 1);
    MergedClear(h.bs, c.pool, p);
    RoomLength(m, m1, lay, h.bs, c.pool);
    MergedSpace(m1, lay, c, h.bs, p);
    InsertableIs(m1, fl1, c, lay, GmaHeap.Detached(c, h, p), free - {b, End(h.bs, p)}, b);
  }

  lemma MergedSpace(m1: Mem, lay: Layout, c: GmaHeap.Config, bs: Blocks, p: int)
    requires c.Ok() && Room(m1, lay, bs, c.pool) && Used(bs, p)
    requires SizeTag(At(m1, MergedStart(bs, c.pool, p) + 1)) == MergedEnd(bs, p) - MergedStart(bs, c.pool, p)
    ensures Space(m1, lay, GmaHeap.FreeMap(c, bs) - {MergedStart(bs, c.pool, p), End(bs, p)},
                  MergedStart(bs, c.pool, p))
  {
    hide SizeTag, GmaHeap.ListIndex, MergedStart, MergedEnd;
    MergedClear(bs, c.pool, p);
  }

  lemma RoomLength(m: Mem, m1: Mem, lay: Layout, bs: Blocks, pool: Pool)
    requires Room(m, lay, bs, pool) && |m1| == |m|
    ensures Room(m1, lay, bs, pool)
  {
    hide Tiles;
  }

  lemma InsertableIs(m: Mem, fl: nat, c: GmaHeap.Config, lay: Layout, lists: Lists, free: map<int, nat>, p: nat)
    requires c.Ok() && lay.rows == c.Rows() && p + 1 < |m| && Space(m, lay, free, p)
    requires GridOk(m, fl, lay, lists, free) && c.pool.min <= SizeTag(m[p + 1]) <= c.pool.hi - c.pool.lo
    ensures Insertable(m, fl, c, lay, lists, free, p)
  {
    hide GridOk, Space, SizeTag;
  }

  /** Other blocks lie on either side of the joined one. */
  lemma MergedClear(bs: Blocks, pool: Pool, p: int)
    requires Tiles(bs, pool) && p in bs
    ensures forall q | q in bs && q != MergedStart(bs, pool, p) && q != p && q != End(bs, p) ::
              End(bs, q) <= MergedStart(bs, pool, p) || MergedEnd(bs, p) <= q
    ensures pool.lo <= MergedStart(bs, pool, p) && MergedEnd(bs, p) <= pool.hi
    ensures pool.min <= MergedEnd(bs, p) - MergedStart(bs, pool, p)
  {
  }

  /** gma_free ends in a pool at rest, in the heap Release describes; other clients' words are untouched. */
  lemma ReleasedState(m: Mem, fl: nat, c: GmaHeap.Config, h: GmaHeap.Heap, lay: Layout, p: int,
                      m1: Mem, m2: Mem, fl2: nat)
    requires State(m, fl, c, h, lay) && Used(h.bs, p)
    requires var b, e, free := MergedStart(h.bs, c.pool, p), MergedEnd(h.bs, p), GmaHeap.FreeMap(c, h.bs);
             && b < e
             && Opened(m, m1, lay, h.bs, c.pool, free, p, e - b)
             && OnlyIndexAndTags(m1, m2, lay, (free - {b, End(h.bs, p)})[b := GmaHeap.ListIndex(c, e - b)], b)
             && GridOk(m2, fl2, lay, Insert(GmaHeap.Detached(c, h, p), GmaHeap.ListIndex(c, e - b), b),
                       (free - {b, End(h.bs, p)})[b := GmaHeap.ListIndex(c, e - b)])
    ensures State(m2, fl2, c, GmaHeap.Release(c, h, p), lay)
    ensures forall q, w | Payload(h.bs, q, w) && q != p :: At(m2, w) == At(m, w)
    ensures forall w {:trigger At(m2, w)} | Outside(lay, c.pool, w) :: At(m2, w) == At(m, w)
  {
    StateFacts(m, fl, c, h, lay);
    var b, e, free := MergedStart(h.bs, c.pool, p), MergedEnd(h.bs, p), GmaHeap.FreeMap(c, h.bs);
    hide State, Room, GmaHeap.Valid, GridOk, Tagged, GmaHeap.ListIndex, GmaHeap.Detached, Insert, Opened,
      OnlyIndexAndTags, Joined, FreeBlocks;
    OpenedInserted(m, m1, m2, lay, h.bs, c.pool, free, free - {b, End(h.bs, p)}, p, GmaHeap.ListIndex(c, e - b));
    JoinedTagged(m, m2, lay, h.bs, c.pool, free, p);
    ReleasedAtRest(m, fl, c, h, lay, p, m2, fl2);
    forall q, w | Payload(h.bs, q, w) && q != p ensures At(m2, w) == At(m, w) {
      JoinedPayload(m, m2, lay, h.bs, c.pool, free, p, q, w);
    }
    forall w {:trigger At(m2, w)} | Outside(lay, c.pool, w) ensures At(m2, w) == At(m, w) {
      JoinedOutside(m, m2, lay, h.bs, c.pool, free, p, w);
    }
  }

  lemma ReleasedAtRest(m: Mem, fl: nat, c: GmaHeap.Config, h: GmaHeap.Heap, lay: Layout, p: int, m2: Mem, fl2: nat)
    requires State(m, fl, c, h, lay) && Used(h.bs, p) && |m2| == |m|
    requires var b, e, free := MergedStart(h.bs, c.pool, p), MergedEnd(h.bs, p), GmaHeap.FreeMap(c, h.bs);
             && b < e
             && GridOk(m2, fl2, lay, Insert(GmaHeap.Detached(c, h, p), GmaHeap.ListIndex(c, e - b), b),
                       (free - {b, End(h.bs, p)})[b := GmaHeap.ListIndex(c, e - b)])
             && Tagged(m2, Released(h.bs, c.pool, p), c.pool)
    ensures State(m2, fl2, c, GmaHeap.Release(c, h, p), lay)
  {
    GmaHeap.ReleaseValid(c, h, p);
    GmaHeap.ReleasedFreeMap(c, h.bs, p);
    ReleasedTiles(h.bs, c.pool, p);
    hide GmaHeap.Valid, GridOk, Tagged, GmaHeap.ListIndex, GmaHeap.Detached, Insert, Released;
  }

  // ---------------------------------------------------------------- facts for single calls

  /** Where the header of a list is. */
  lemma HeaderOf(grid: nat, fl: nat, sl: nat, k: nat)
    requires DIM * fl + sl == k
    ensures grid + SL_DIM * fl + sl == grid + k
  {
  }

  lemma InsertionFacts(m: Mem, fl: nat, c: GmaHeap.Config, lay: Layout, lists: Lists, free: map<int, nat>, p: nat)
    requires Insertable(m, fl, c, lay, lists, free, p)
    ensures |lists| == DIM * c.Rows() && GridOk(m, fl, lay, lists, free) && Space(m, lay, free, p)
    ensures var size, k := GmaHeap.WORD * SizeTag(m[p + 1]), GmaHeap.ListIndex(c, SizeTag(m[p + 1]));
            && c.minBytes <= size < WORD_LIMIT && Msb(size) <= c.flMax
            && k == Slot(size) - DIM * c.flMin && k < |lists|
            && lay.grid + k < |m| && LinkReady(m, lay.grid + k, p) && lay.grid + k != p + 1
            && (m[lay.grid + k] != 0 ==> m[lay.grid + k] / 4 + 2 != p + 1)
            && lay.sl + k / DIM < |m|
            && Inserted(m, lay, k, p) == Mark(MarkedFree(Link(m, lay.grid + k, p), p), lay, k)
            && SizeTag(m[p + 1]) >= 2 && p + SizeTag(m[p + 1]) + 1 < |m|
  {
    hide Slot, Msb, Pow2, Link, Chains, Indexed, Listed, Placed, RowWords, LinkReady, SizeTag, GmaHeap.ListIndex, Mark,
      MarkedFree;
    GmaHeap.ListIndexInRange(c, SizeTag(m[p + 1]));
    GmaHeap.PoolFits(c, SizeTag(m[p + 1]));
    InsertReady(m, fl, lay, lists, free, GmaHeap.ListIndex(c, SizeTag(m[p + 1])), p);
  }

  lemma OpeningIs(m: Mem, p: nat)
    requires p + 1 < |m|
    ensures Opening(m, p) == m[p + 1 := ClearInUse(m[p + 1])]
  {
  }

  lemma ClearInUseFlags(w: nat)
    ensures BeforeInUse(ClearInUse(w)) == BeforeInUse(w) && SizeTag(ClearInUse(w)) == SizeTag(w)
    ensures !InUse(ClearInUse(w))
  {
    TagFields(w, 0);
  }

  lemma JoinedHeaderIs(m: Mem, b: nat, second: nat)
    requires b + 1 < |m| && second + 1 < |m|
    ensures JoinedHeader(m, b, second) == m[b + 1 := SetSize(m[b + 1], SizeTag(m[b + 1]) + SizeTag(m[second + 1]))]
  {
  }

  lemma RemovalFacts(m: Mem, fl: nat, c: GmaHeap.Config, lay: Layout, lists: Lists, free: map<int, nat>, p: int)
    requires p in free && Indexes(m, fl, c, lay, lists, free, p)
    ensures 0 <= p && UnlinkReady(m, p) && p + 1 < |m| && GridOk(m, fl, lay, lists, free)
    ensures At(Unlink(m, p), p + 1) == At(m, p + 1) == m[p + 1]
    ensures (m[p + 2] % 2 == 1 && m[p + 3] == 0) <==> Remove(lists, free[p], p)[free[p]] == []
    ensures |Remove(lists, free[p], p)| == |lists| == DIM * c.Rows()
    ensures free[p] < |lists| && lay.sl + free[p] / DIM < |m|
    ensures var size := GmaHeap.WORD * SizeTag(m[p + 1]);
            && c.minBytes <= size < WORD_LIMIT && Msb(size) <= c.flMax
            && free[p] == Slot(size) - DIM * c.flMin
  {
    hide Slot, Msb, Pow2, Unlink, Chains, Indexed;
    UnlinkSafe(m, lay.grid, lists, free, p);
    UnlinkFrame(m, lay.grid, lists, free, p, p + 1);
    GmaHeap.ListIndexInRange(c, SizeTag(At(m, p + 1)));
    GmaHeap.PoolFits(c, SizeTag(At(m, p + 1)));
  }

  lemma ClearIs(m: Mem, fl: nat, lay: Layout, k: nat)
    requires lay.sl + k / DIM < |m|
    ensures Clear(m, lay, k) == Put(m, lay.sl + k / DIM, ClearBit(At(m, lay.sl + k / DIM), k % DIM))
    ensures ClearFirst(m, fl, lay, k) ==
            if ClearBit(At(m, lay.sl + k / DIM), k % DIM) == 0 then ClearBit(fl, k / DIM) else fl
  {
  }

  /** The numbers get_indexes computes, and when they run off the grid. */
  lemma SearchIndexes(c: GmaHeap.Config, size: nat, lists: Lists)
    requires c.Ok() && c.minBytes <= size && !GmaHeap.Stray(c, size) && |lists| == DIM * c.Rows()
    ensures 32 <= Bumped32(size) && c.flMin <= Msb(Bumped32(size))
    ensures GmaHeap.SearchFrom(c, size) == Slot(Bumped32(size)) - DIM * c.flMin
    ensures DIM * Msb(Bumped32(size)) <= Slot(Bumped32(size))
    ensures GmaHeap.ChosenIn(c, lists, size) ==
            if Msb(Bumped32(size)) > c.flMax then |lists|
            else FirstFrom(lists, GmaHeap.SearchFrom(c, size))
    ensures Msb(Bumped32(size)) <= c.flMax ==> GmaHeap.SearchFrom(c, size) < |lists|
  {
    GmaHeap.SearchFromInRange(c, size);
    hide Slot, Msb, FirstFrom, Bumped32, SearchSlack, GmaHeap.SearchFrom, GmaHeap.Stray, Pow2;
  }

  /** An insertion looks up a size of the grid. */
  lemma InsertIndexes(c: GmaHeap.Config, size: nat)
    requires c.Ok() && c.minBytes <= size
    ensures 32 <= size && L <= c.flMin <= Msb(size)
  {
    MsbMonotone(c.minBytes, size);
    SlotParts(c.minBytes);
    hide Msb;
  }

  lemma RelativeSlot(fl: nat, flMin: nat, sl: nat, slot: nat)
    requires sl < DIM && DIM * fl + sl == slot && flMin <= fl
    ensures DIM * (fl - flMin) + sl == slot - DIM * flMin
  {
  }

  lemma ChunkAddress(m: Mem, fl: nat, c: GmaHeap.Config, h: GmaHeap.Heap, lay: Layout, p: int)
    requires State(m, fl, c, h, lay) && Used(h.bs, p)
    ensures Tiles(h.bs, c.pool) && p in h.bs && 0 <= p && MergedStart(h.bs, c.pool, p) < MergedEnd(h.bs, p)
  {
    MergedClear(h.bs, c.pool, p);
  }

  // ---------------------------------------------------------------- the two half-way points of gma_free

  /** p is marked free and joined with what is free before it. */
  ghost predicate LeftDone(m: Mem, c: GmaHeap.Config, h: GmaHeap.Heap, lay: Layout, p: int, start: int, m1: Mem,
                           fl1: nat) {
    && Tiles(h.bs, c.pool) && Used(h.bs, p) && start == MergedStart(h.bs, c.pool, p)
    && Opened(m, m1, lay, h.bs, c.pool, GmaHeap.FreeMap(c, h.bs), p, End(h.bs, p) - start)
    && GridOk(m1, fl1, lay, GmaHeap.DetachedBefore(c, h, p), GmaHeap.FreeMap(c, h.bs) - {start})
  }

  /** It is joined with what is free after it, too. */
  ghost predicate BothDone(m: Mem, c: GmaHeap.Config, h: GmaHeap.Heap, lay: Layout, p: int, start: int, m1: Mem,
                           fl1: nat) {
    && Tiles(h.bs, c.pool) && Used(h.bs, p) && start == MergedStart(h.bs, c.pool, p)
    && Opened(m, m1, lay, h.bs, c.pool, GmaHeap.FreeMap(c, h.bs), p, MergedEnd(h.bs, p) - start)
    && GridOk(m1, fl1, lay, GmaHeap.Detached(c, h, p), GmaHeap.FreeMap(c, h.bs) - {start, End(h.bs, p)})
  }

  lemma LeftDoneFacts(m: Mem, c: GmaHeap.Config, h: GmaHeap.Heap, lay: Layout, p: int, start: int, m1: Mem, fl1: nat)
    requires LeftDone(m, c, h, lay, p, start, m1, fl1)
    ensures Tiles(h.bs, c.pool) && p in h.bs && Used(h.bs, p) && start == MergedStart(h.bs, c.pool, p)
    ensures Opened(m, m1, lay, h.bs, c.pool, GmaHeap.FreeMap(c, h.bs), p, End(h.bs, p) - start)
    ensures GridOk(m1, fl1, lay, GmaHeap.DetachedBefore(c, h, p), GmaHeap.FreeMap(c, h.bs) - {start})
    ensures !Free(h.bs, End(h.bs, p)) ==> MergedEnd(h.bs, p) == End(h.bs, p)
  {
    UsedIn(h.bs, p);
    hide Opened, GridOk, Tiles, MergedStart, GmaHeap.DetachedBefore, GmaHeap.FreeMap;
  }

  lemma LeftDoneIs(m: Mem, c: GmaHeap.Config, h: GmaHeap.Heap, lay: Layout, p: int, start: int, m1: Mem, fl1: nat)
    requires Tiles(h.bs, c.pool) && p in h.bs && Used(h.bs, p) && start == MergedStart(h.bs, c.pool, p)
    requires Opened(m, m1, lay, h.bs, c.pool, GmaHeap.FreeMap(c, h.bs), p, End(h.bs, p) - start)
    requires GridOk(m1, fl1, lay, GmaHeap.DetachedBefore(c, h, p), GmaHeap.FreeMap(c, h.bs) - {start})
    ensures LeftDone(m, c, h, lay, p, start, m1, fl1)
  {
    hide Opened, GridOk, Tiles, MergedStart, GmaHeap.DetachedBefore, GmaHeap.FreeMap;
  }

  lemma BothDoneIs(m: Mem, c: GmaHeap.Config, h: GmaHeap.Heap, lay: Layout, p: int, start: int, m1: Mem, fl1: nat)
    requires Tiles(h.bs, c.pool) && p in h.bs && Used(h.bs, p) && start == MergedStart(h.bs, c.pool, p)
    requires Opened(m, m1, lay, h.bs, c.pool, GmaHeap.FreeMap(c, h.bs), p, MergedEnd(h.bs, p) - start)
    requires GridOk(m1, fl1, lay, GmaHeap.Detached(c, h, p), GmaHeap.FreeMap(c, h.bs) - {start, End(h.bs, p)})
    ensures BothDone(m, c, h, lay, p, start, m1, fl1)
  {
    hide Opened, GridOk, Tiles, MergedStart, GmaHeap.Detached, GmaHeap.FreeMap;
  }

  lemma LeftAlone(m: Mem, fl: nat, c: GmaHeap.Config, h: GmaHeap.Heap, lay: Layout, p: int)
    requires State(m, fl, c, h, lay) && Used(h.bs, p) && BeforeInUse(At(m, p + 1))
    ensures LeftDone(m, c, h, lay, p, p, Opening(m, p), fl)
  {
    hide *;
    StateFacts(m, fl, c, h, lay);
    UsedIn(h.bs, p);
    OpenedAlone(m, fl, c, h, lay, p);
    OpeningKeepsGrid(m, fl, c, h, lay, p);
    LeftDoneIs(m, c, h, lay, p, p, Opening(m, p), fl);
  }

  /** B of p is clear: the word before p tells where the free chunk b before it is. */
  ghost predicate BeforeKnown(m: Mem, fl: nat, c: GmaHeap.Config, h: GmaHeap.Heap, lay: Layout, p: nat, m1: Mem,
                              lists: Lists, free: map<int, nat>, b: nat)
    requires p < |m1|
  {
    && !BeforeInUse(At(m, p + 1)) && p - SizeTag(m1[p]) == b == p - SizeTag(At(m, p))
    && b + 1 < |m1| && !InUse(m1[b + 1]) && b in free && Indexes(m1, fl, c, lay, lists, free, b)
  }

  lemma BeforeStep(m: Mem, fl: nat, c: GmaHeap.Config, h: GmaHeap.Heap, lay: Layout, p: nat)
    returns (lists: Lists, free: map<int, nat>, b: nat)
    requires State(m, fl, c, h, lay) && Used(h.bs, p)
    ensures p + 1 < |m| && lists == h.lists && free == GmaHeap.FreeMap(c, h.bs)
    ensures var m1 := Opening(m, p);
            && |m1| == |m|
            && if BeforeInUse(m1[p + 1]) then LeftDone(m, c, h, lay, p, p, m1, fl)
               else BeforeKnown(m, fl, c, h, lay, p, m1, lists, free, b)
  {
    hide *;
    lists, free, b := h.lists, GmaHeap.FreeMap(c, h.bs), 0;
    var m1 := Opening(m, p);
    OpeningKeepsGrid(m, fl, c, h, lay, p);
    OpeningIs(m, p);
    ClearInUseFlags(m[p + 1]);
    AtIndex(m, p);
    if BeforeInUse(m1[p + 1]) {
      LeftAlone(m, fl, c, h, lay, p);
    } else {
      BeforeReady(m, fl, c, h, lay, p);
      b := p - SizeTag(m1[p]);
      BeforeKnownIs(m, fl, c, h, lay, p, m1, lists, free, b);
    }
  }

  lemma BeforeKnownIs(m: Mem, fl: nat, c: GmaHeap.Config, h: GmaHeap.Heap, lay: Layout, p: nat, m1: Mem,
                      lists: Lists, free: map<int, nat>, b: nat)
    requires p < |m1| && !BeforeInUse(At(m, p + 1)) && p - SizeTag(m1[p]) == b == p - SizeTag(At(m, p))
    requires b + 1 < |m1| && !InUse(m1[b + 1]) && b in free && Indexes(m1, fl, c, lay, lists, free, b)
    ensures BeforeKnown(m, fl, c, h, lay, p, m1, lists, free, b)
  {
    hide Indexes;
  }

  lemma BeforeKnownFacts(m: Mem, fl: nat, c: GmaHeap.Config, h: GmaHeap.Heap, lay: Layout, p: nat, m1: Mem,
                         lists: Lists, free: map<int, nat>, b: nat)
    requires p < |m1| && BeforeKnown(m, fl, c, h, lay, p, m1, lists, free, b)
    ensures !BeforeInUse(At(m, p + 1)) && p - SizeTag(m1[p]) == b == p - SizeTag(At(m, p))
    ensures b + 1 < |m1| && !InUse(m1[b + 1]) && b in free && Indexes(m1, fl, c, lay, lists, free, b)
  {
    hide Indexes;
  }

  lemma LeftJoined(m: Mem, fl: nat, c: GmaHeap.Config, h: GmaHeap.Heap, lay: Layout, p: int, b: nat, m2: Mem, fl2: nat)
    requires State(m, fl, c, h, lay) && Used(h.bs, p) && !BeforeInUse(At(m, p + 1))
    requires p < |m| && OnlyIndex(Opening(m, p), m2, lay, GmaHeap.FreeMap(c, h.bs)) && b == p - SizeTag(At(m, p))
    requires var free := GmaHeap.FreeMap(c, h.bs);
             b in free && GridOk(m2, fl2, lay, Remove(h.lists, free[b], b), free - {b})
    ensures LeftDone(m, c, h, lay, p, b, JoinedHeader(m2, b, p), fl2)
  {
    hide *;
    StateFacts(m, fl, c, h, lay);
    UsedIn(h.bs, p);
    BeforeReady(m, fl, c, h, lay, p);
    AtIndex(m, p);
    OpenedBefore(m, fl, c, h, lay, p, m2, fl2);
    LeftDoneIs(m, c, h, lay, p, b, JoinedHeader(m2, b, p), fl2);
  }

  lemma LeftReady(m: Mem, fl: nat, c: GmaHeap.Config, h: GmaHeap.Heap, lay: Layout, p: int, start: nat, m1: Mem,
                  fl1: nat)
    returns (lists: Lists, free: map<int, nat>)
    requires State(m, fl, c, h, lay) && LeftDone(m, c, h, lay, p, start, m1, fl1)
    ensures p in h.bs && start + 1 < |m1| && start + SizeTag(m1[start + 1]) + 1 < |m1|
    ensures var after := start + SizeTag(m1[start + 1]);
            if InUse(m1[after + 1]) then BothDone(m, c, h, lay, p, start, m1, fl1)
            else after in free && Indexes(m1, fl1, c, lay, lists, free, after)
    ensures lists == GmaHeap.DetachedBefore(c, h, p) && free == GmaHeap.FreeMap(c, h.bs) - {start}
  {
    hide *;
    LeftDoneFacts(m, c, h, lay, p, start, m1, fl1);
    lists, free := GmaHeap.DetachedBefore(c, h, p), GmaHeap.FreeMap(c, h.bs) - {start};
    AfterReady(m, fl, c, h, lay, p, m1, fl1);
    if !Free(h.bs, End(h.bs, p)) {
      BothDoneIs(m, c, h, lay, p, start, m1, fl1);
    }
  }

  lemma RightJoined(m: Mem, fl: nat, c: GmaHeap.Config, h: GmaHeap.Heap, lay: Layout, p: int, start: nat,
                    m1: Mem, fl1: nat, m2: Mem, fl2: nat)
    requires State(m, fl, c, h, lay) && LeftDone(m, c, h, lay, p, start, m1, fl1)
    requires start + 1 < |m1| && start + SizeTag(m1[start + 1]) + 1 < |m1|
    requires var after, free, lists := start + SizeTag(m1[start + 1]), GmaHeap.FreeMap(c, h.bs) - {start},
                                       GmaHeap.DetachedBefore(c, h, p);
             && !InUse(m1[after + 1]) && after in free
             && OnlyIndex(m1, m2, lay, free)
             && GridOk(m2, fl2, lay, Remove(lists, free[after], after), free - {after})
    ensures BothDone(m, c, h, lay, p, start, JoinedHeader(m2, start, start + SizeTag(m1[start + 1])), fl2)
  {
    hide *;
    LeftDoneFacts(m, c, h, lay, p, start, m1, fl1);
    AfterReady(m, fl, c, h, lay, p, m1, fl1);
    StillFreeAfter(GmaHeap.FreeMap(c, h.bs), start, End(h.bs, p));
    OpenedAfter(m, fl, c, h, lay, p, m1, fl1, m2, fl2);
    BothDoneIs(m, c, h, lay, p, start, JoinedHeader(m2, start, End(h.bs, p)), fl2);
  }

  /** gma_free is done: the pool is at rest again, and nothing else has changed. */
  ghost predicate Rested(m: Mem, c: GmaHeap.Config, h: GmaHeap.Heap, lay: Layout, p: int, m2: Mem, fl2: nat) {
    && Tiles(h.bs, c.pool) && Used(h.bs, p)
    && State(m2, fl2, c, GmaHeap.Release(c, h, p), lay)
    && (forall q, w | Payload(h.bs, q, w) && q != p :: At(m2, w) == At(m, w))
    && (forall w {:trigger At(m2, w)} | Outside(lay, c.pool, w) :: At(m2, w) == At(m, w))
  }

  lemma RestedIs(m: Mem, c: GmaHeap.Config, h: GmaHeap.Heap, lay: Layout, p: int, m2: Mem, fl2: nat)
    requires Tiles(h.bs, c.pool) && Used(h.bs, p) && State(m2, fl2, c, GmaHeap.Release(c, h, p), lay)
    requires forall q, w | Payload(h.bs, q, w) && q != p :: At(m2, w) == At(m, w)
    requires forall w {:trigger At(m2, w)} | Outside(lay, c.pool, w) :: At(m2, w) == At(m, w)
    ensures Rested(m, c, h, lay, p, m2, fl2)
  {
    hide Tiles, State, Payload, Outside, GmaHeap.Release;
  }

  lemma RestedFacts(m: Mem, c: GmaHeap.Config, h: GmaHeap.Heap, lay: Layout, p: int, m2: Mem, fl2: nat)
    requires Rested(m, c, h, lay, p, m2, fl2)
    ensures Tiles(h.bs, c.pool) && Used(h.bs, p) && p in h.bs
    ensures State(m2, fl2, c, GmaHeap.Release(c, h, p), lay)
    ensures forall q, w | Payload(h.bs, q, w) && q != p :: At(m2, w) == At(m, w)
    ensures forall w {:trigger At(m2, w)} | Outside(lay, c.pool, w) :: At(m2, w) == At(m, w)
  {
    hide Tiles, State, Payload, Outside, GmaHeap.Release;
  }

  lemma BothReady(m: Mem, fl: nat, c: GmaHeap.Config, h: GmaHeap.Heap, lay: Layout, p: int, start: nat, m1: Mem,
                  fl1: nat)
    returns (lists: Lists, free: map<int, nat>)
    requires State(m, fl, c, h, lay) && BothDone(m, c, h, lay, p, start, m1, fl1)
    ensures start + 1 < |m1| && Insertable(m1, fl1, c, lay, lists, free, start)
    ensures forall m2, fl2 ::
              (var k := GmaHeap.ListIndex(c, SizeTag(m1[start + 1]));
               && OnlyIndexAndTags(m1, m2, lay, free[start := k], start)
               && GridOk(m2, fl2, lay, Insert(lists, k, start), free[start := k]))
              ==> Rested(m, c, h, lay, p, m2, fl2)
  {
    hide State, GridOk, Opened, OnlyIndexAndTags, MergedStart, GmaHeap.DetachedBefore, GmaHeap.Detached, Payload,
      Insertable, Rested, Outside, GmaHeap.FreeMap, GmaHeap.ListIndex;
    lists, free := GmaHeap.Detached(c, h, p), GmaHeap.FreeMap(c, h.bs) - {start, End(h.bs, p)};
    MergedReady(m, fl, c, h, lay, p, m1, fl1);
    ChunkAddress(m, fl, c, h, lay, p);
    var k := GmaHeap.ListIndex(c, SizeTag(m1[start + 1]));
    forall m2, fl2 | OnlyIndexAndTags(m1, m2, lay, free[start := k], start)
                  && GridOk(m2, fl2, lay, Insert(lists, k, start), free[start := k])
      ensures Rested(m, c, h, lay, p, m2, fl2)
    {
      ReleasedState(m, fl, c, h, lay, p, m1, m2, fl2);
      RestedIs(m, c, h, lay, p, m2, fl2);
    }
  }
}
