/** The states a first-fit pool goes through inside ffs_alloc and ffs_free, as facts about memory images.
    The methods in FirstFit.dfy walk through them. */
module FirstFitSteps {
  import opened Tiling
  import opened Sequences
  import opened Words
  import opened FirstFitMemory
  import FirstFitHeap

  /** A pool at rest: the heap is in order and memory represents it. */
  ghost predicate State(m: Mem, a: nat, pool: Pool, h: FirstFitHeap.Heap) {
    && FirstFitHeap.Valid(pool, h)
    && Room(m, a, h.bs, pool)
    && Chain(m, a, h.free)
    && Tagged(m, h.bs, pool)
  }

  lemma StateFacts(m: Mem, a: nat, pool: Pool, h: FirstFitHeap.Heap)
    requires State(m, a, pool, h)
    ensures Room(m, a, h.bs, pool) && Tiles(h.bs, pool) && Members(h.bs, h.free) && Chain(m, a, h.free)
    ensures Tagged(m, h.bs, pool) && a + 1 < pool.lo && pool.hi < |m|
  {
    hide Chain, Tagged, Tiles, Coalesced;
  }

  /** Words a client owns: what lies between header and tail of a chunk in use. */
  predicate Payload(bs: Blocks, q: int, w: int) {
    Used(bs, q) && q < w < End(bs, q) - 1
  }

  lemma BlockBounds(m: Mem, a: nat, bs: Blocks, pool: Pool, q: int)
    requires Room(m, a, bs, pool) && q in bs
    ensures a + 1 < pool.lo <= q && q + 4 <= End(bs, q) <= pool.hi < |m| && End(bs, q) == q + bs[q].size
  {
    assert Bounded(bs, pool);
  }

  /** Headers, tails and client words are no link words. */
  lemma BlockWords(m: Mem, a: nat, bs: Blocks, pool: Pool, q: int, w: int)
    requires Room(m, a, bs, pool) && q in bs
    requires w == q || w == End(bs, q) - 1 || w == End(bs, q) || Payload(bs, q, w)
    ensures !LinkWord(a, bs, w)
  {
    assert w != a by { BlockBounds(m, a, bs, pool, q); }
    assert !Free(bs, w - 1);
    assert !Free(bs, w - 2);
  }

  /** Words that are not the pool's: before its descriptor, or after its right border. */
  predicate Outside(a: nat, pool: Pool, w: int) {
    w < a || pool.hi < w
  }

  lemma LinkInside(m: Mem, a: nat, bs: Blocks, pool: Pool, w: int)
    requires Room(m, a, bs, pool) && Outside(a, pool, w)
    ensures !LinkWord(a, bs, w)
  {
    if Free(bs, w - 1) {
      BlockBounds(m, a, bs, pool, w - 1);
    }
    if Free(bs, w - 2) {
      BlockBounds(m, a, bs, pool, w - 2);
    }
    hide Tiles;
  }

  lemma JoinedOutside(m: Mem, m2: Mem, a: nat, bs: Blocks, pool: Pool, p: int, w: int)
    requires Room(m, a, bs, pool) && Used(bs, p) && Joined(m, m2, a, bs, pool, p) && Outside(a, pool, w)
    ensures At(m2, w) == At(m, w)
  {
    hide Room, LinkWord, MergedStart, MergedEnd, Bounded, Disjoint, Followed;
    RoomTiles(m, a, bs, pool);
    LinkInside(m, a, bs, pool, w);
    BlockBounds(m, a, bs, pool, p);
    ReleasedBlocks(bs, pool, p);
    BlockBounds(m, a, bs, pool, MergedStart(bs, pool, p));
  }

  lemma RoomTiles(m: Mem, a: nat, bs: Blocks, pool: Pool)
    requires Room(m, a, bs, pool)
    ensures Tiles(bs, pool)
  {
    hide Tiles;
  }

  lemma BorderWords(m: Mem, a: nat, bs: Blocks, pool: Pool)
    requires Room(m, a, bs, pool)
    ensures !LinkWord(a, bs, pool.lo - 1) && !LinkWord(a, bs, pool.hi)
  {
    assert Bounded(bs, pool);
  }

  // ---------------------------------------------------------------- ffs_free: tags

  /** Between the steps of ffs_free: the header of the joined chunk says `size`; other than that and the
      header of p, only links have changed. */
  ghost predicate Opened(m: Mem, m1: Mem, a: nat, bs: Blocks, pool: Pool, p: int, size: int)
    requires Tiles(bs, pool) && p in bs
  {
    var b := MergedStart(bs, pool, p);
    && |m1| == |m| && At(m1, b) == 4 * size
    && forall w {:trigger At(m1, w)} :: LinkWord(a, bs, w) || w == p || w == b || At(m1, w) == At(m, w)
  }

  ghost predicate Joined(m: Mem, m2: Mem, a: nat, bs: Blocks, pool: Pool, p: int)
    requires Tiles(bs, pool) && p in bs
  {
    var b, e := MergedStart(bs, pool, p), MergedEnd(bs, p);
    && |m2| == |m| && At(m2, b) == At(m2, e - 1) == 4 * (e - b)
    && forall w {:trigger At(m2, w)} ::
         LinkWord(a, bs, w) || w == b + 1 || w == b + 2 || w == p || w == b || w == e - 1 || At(m2, w) == At(m, w)
  }

  /** Other blocks lie on either side of the joined one. */
  lemma MergedClear(bs: Blocks, pool: Pool, p: int)
    requires Tiles(bs, pool) && p in bs
    ensures forall q | q in bs && q != MergedStart(bs, pool, p) && q != p && q != End(bs, p) ::
              End(bs, q) <= MergedStart(bs, pool, p) || MergedEnd(bs, p) <= q
    ensures Used(bs, End(bs, p)) ==> MergedEnd(bs, p) == End(bs, p)
    ensures pool.lo <= MergedStart(bs, pool, p) <= p < MergedEnd(bs, p) <= pool.hi
    ensures MergedStart(bs, pool, p) + pool.min <= MergedEnd(bs, p)
  {
  }

  lemma JoinedWord(m: Mem, m2: Mem, a: nat, bs: Blocks, pool: Pool, p: int, q: int, w: int)
    requires Room(m, a, bs, pool) && Used(bs, p) && Joined(m, m2, a, bs, pool, p)
    requires q in Released(bs, pool, p) && q != MergedStart(bs, pool, p)
    requires w == q || w == End(bs, q) - 1 || Payload(bs, q, w)
    ensures At(m2, w) == At(m, w)
  {
    ReleasedBlocks(bs, pool, p);
    BlockWords(m, a, bs, pool, q, w);
    BlockBounds(m, a, bs, pool, q);
    MergedClear(bs, pool, p);
    hide Tiles, Room, LinkWord, MergedStart, MergedEnd, Released;
  }

  lemma JoinedTagged(m: Mem, m2: Mem, a: nat, bs: Blocks, pool: Pool, p: int)
    requires Room(m, a, bs, pool) && Used(bs, p) && Joined(m, m2, a, bs, pool, p) && Tagged(m, bs, pool)
    ensures Tagged(m2, Released(bs, pool, p), pool)
  {
    ReleasedBlocks(bs, pool, p);
    BorderWords(m, a, bs, pool);
    MergedClear(bs, pool, p);
    var rel, b := Released(bs, pool, p), MergedStart(bs, pool, p);
    assert UsedTag(At(m2, pool.lo - 1)) && UsedTag(At(m2, pool.hi)) by {
      hide Tiles, Room, LinkWord, MergedStart, MergedEnd, Released, UsedTag;
    }
    hide Tiles, LinkWord, MergedStart, MergedEnd, Released, Tag, Room;
    forall q ensures TagOk(m2, rel, q) {
      if q in rel && q != b {
        assert TagOk(m, bs, q);
        JoinedWord(m, m2, a, bs, pool, p, q, q);
        JoinedWord(m, m2, a, bs, pool, p, q, End(bs, q) - 1);
      } else if q == b {
        FreeTag(rel[b].size);
      }
    }
  }

  lemma FreeTag(size: nat)
    ensures Tag(Block(size, false)) == 4 * size
  {
  }

  lemma JoinedPayload(m: Mem, m2: Mem, a: nat, bs: Blocks, pool: Pool, p: int, q: int, w: int)
    requires Room(m, a, bs, pool) && Used(bs, p) && Joined(m, m2, a, bs, pool, p)
    requires Payload(bs, q, w) && q != p
    ensures At(m2, w) == At(m, w)
  {
    ReleasedBlocks(bs, pool, p);
    JoinedWord(m, m2, a, bs, pool, p, q, w);
  }

  // ---------------------------------------------------------------- ffs_free: the half-way points

  ghost predicate LeftDone(m: Mem, a: nat, pool: Pool, h: FirstFitHeap.Heap, p: int, start: int, m1: Mem) {
    && Tiles(h.bs, pool) && Used(h.bs, p) && start == MergedStart(h.bs, pool, p)
    && Opened(m, m1, a, h.bs, pool, p, End(h.bs, p) - start)
    && Chain(m1, a, FirstFitHeap.DetachedBefore(h, pool, p))
    && Members(h.bs, FirstFitHeap.DetachedBefore(h, pool, p))
  }

  ghost predicate BothDone(m: Mem, a: nat, pool: Pool, h: FirstFitHeap.Heap, p: int, start: int, m1: Mem) {
    && Tiles(h.bs, pool) && Used(h.bs, p) && start == MergedStart(h.bs, pool, p)
    && Opened(m, m1, a, h.bs, pool, p, MergedEnd(h.bs, p) - start)
    && Chain(m1, a, FirstFitHeap.Detached(h, pool, p))
    && Members(h.bs, FirstFitHeap.Detached(h, pool, p))
  }

  lemma ChainKept(m: Mem, m1: Mem, a: nat, bs: Blocks, pool: Pool, list: seq<int>, w: int)
    requires Room(m, a, bs, pool) && Members(bs, list) && Chain(m, a, list)
    requires !LinkWord(a, bs, w) && forall x {:trigger At(m1, x)} :: x == w || At(m1, x) == At(m, x)
    ensures Chain(m1, a, list)
  {
    forall i | 0 <= i < |list| ensures w != list[i] + 1 && w != list[i] + 2 {
      assert Free(bs, list[i]);
    }
    hide Chain, Room, LinkWord;
    ChainFrame(m, m1, a, list);
  }

  function Opening(m: Mem, p: int): Mem {
    Put(m, p, ClearUsed(At(m, p)))
  }

  /** The first step: p marked free in its header. */
  lemma OpeningFacts(m: Mem, a: nat, pool: Pool, h: FirstFitHeap.Heap, p: int)
    requires State(m, a, pool, h) && Used(h.bs, p)
    ensures p in h.bs && 1 <= p < |m| && |Opening(m, p)| == |m| && At(Opening(m, p), p) == 4 * h.bs[p].size
    ensures Chain(Opening(m, p), a, h.free)
    ensures forall w {:trigger At(Opening(m, p), w)} :: w == p || At(Opening(m, p), w) == At(m, w)
  {
    StateFacts(m, a, pool, h);
    BlockBounds(m, a, h.bs, pool, p);
    BlockWords(m, a, h.bs, pool, p, p);
    NeighbourTags(m, h.bs, pool, p);
    TagFields(h.bs[p]);
    FreeTag(h.bs[p].size);
    hide State, Chain, Tagged, Room, LinkWord, Members, Tag, ClearUsed;
    ChainKept(m, Opening(m, p), a, h.bs, pool, h.free, p);
  }

  lemma LeftAlone(m: Mem, a: nat, pool: Pool, h: FirstFitHeap.Heap, p: int)
    requires State(m, a, pool, h) && Used(h.bs, p) && UsedTag(At(m, p - 1))
    ensures LeftDone(m, a, pool, h, p, p, Opening(m, p))
  {
    StateFacts(m, a, pool, h);
    OpeningFacts(m, a, pool, h, p);
    NeighbourTags(m, h.bs, pool, p);
    hide State, Chain, Tagged, Room, LinkWord, Members, Tag, Opening, Tiles, MergedStart;
  }

  /** JOIN: the header of b takes over the size of the second chunk. */
  function JoinedHeader(m: Mem, b: int, second: int): Mem {
    Put(m, b, At(m, b) + At(m, second))
  }

  /** A free chunk before p. */
  lemma BeforeFacts(m: Mem, a: nat, pool: Pool, h: FirstFitHeap.Heap, p: int)
    requires State(m, a, pool, h) && Used(h.bs, p) && !UsedTag(At(m, p - 1))
    ensures p in h.bs && Tiles(h.bs, pool)
    ensures var b := MergedStart(h.bs, pool, p);
            && 0 <= b < p && b == p - SizeTag(At(m, p - 1)) && b in h.bs && b in h.free && Free(h.bs, b)
            && At(m, b) == 4 * h.bs[b].size && b + h.bs[b].size == p
            && FirstFitHeap.DetachedBefore(h, pool, p) == Without(h.free, b)
            && !LinkWord(a, h.bs, b) && !LinkWord(a, h.bs, p)
  {
    StateFacts(m, a, pool, h);
    NeighbourTags(m, h.bs, pool, p);
    var b := MergedStart(h.bs, pool, p);
    BlockBounds(m, a, h.bs, pool, b);
    BlockWords(m, a, h.bs, pool, b, b);
    BlockWords(m, a, h.bs, pool, p, p);
    FreeTag(h.bs[b].size);
    assert Free(h.bs, b);
    hide Chain, Tagged, Room, LinkWord, Tag, Tiles, MergedStart, Coalesced, Without;
  }

  lemma LeftJoined(m: Mem, a: nat, pool: Pool, h: FirstFitHeap.Heap, p: int, b: int)
    requires State(m, a, pool, h) && Used(h.bs, p) && !UsedTag(At(m, p - 1)) && b == p - SizeTag(At(m, p - 1))
    ensures LeftDone(m, a, pool, h, p, b, JoinedHeader(Unlink(Opening(m, p), a, b), b, p))
  {
    StateFacts(m, a, pool, h);
    BeforeFacts(m, a, pool, h, p);
    OpeningFacts(m, a, pool, h, p);
    var m1 := Opening(m, p);
    var m2 := Unlink(m1, a, b);
    RoomLength(m, m1, a, h.bs, pool);
    hide State, Chain, Tagged, Room, LinkWord, Members, Tag, Opening, Tiles, MergedStart, Unlink,
      FirstFitHeap.DetachedBefore, UsedTag, SizeTag;
    UnlinkChain(m1, a, h.bs, pool, h.free, b);
    RoomLength(m, m2, a, h.bs, pool);
    ChainKept(m2, JoinedHeader(m2, b, p), a, h.bs, pool, Without(h.free, b), b);
  }

  lemma RoomLength(m: Mem, m1: Mem, a: nat, bs: Blocks, pool: Pool)
    requires Room(m, a, bs, pool)
    ensures |m1| == |m| ==> Room(m1, a, bs, pool)
  {
    hide Tiles;
  }

  /** The chunk after p, seen from the joined one. */
  lemma AfterFacts(m: Mem, a: nat, pool: Pool, h: FirstFitHeap.Heap, p: int, start: nat, m1: Mem)
    requires State(m, a, pool, h) && LeftDone(m, a, pool, h, p, start, m1)
    ensures p in h.bs && start < |m1| && SizeTag(At(m1, start)) == End(h.bs, p) - start && |m1| == |m|
    ensures start <= p < End(h.bs, p) < |m1| && At(m1, End(h.bs, p)) == At(m, End(h.bs, p))
    ensures UsedTag(At(m1, End(h.bs, p))) ==> BothDone(m, a, pool, h, p, start, m1)
    ensures !UsedTag(At(m1, End(h.bs, p))) ==>
              var e := End(h.bs, p);
              && e in h.bs && Free(h.bs, e) && At(m1, e) == 4 * h.bs[e].size && MergedEnd(h.bs, p) == e + h.bs[e].size
              && e in FirstFitHeap.DetachedBefore(h, pool, p)
              && FirstFitHeap.Detached(h, pool, p) == Without(FirstFitHeap.DetachedBefore(h, pool, p), e)
              && !LinkWord(a, h.bs, start) && !LinkWord(a, h.bs, e)
  {
    StateFacts(m, a, pool, h);
    NeighbourTags(m, h.bs, pool, p);
    var e := End(h.bs, p);
    BlockBounds(m, a, h.bs, pool, p);
    BlockBounds(m, a, h.bs, pool, start);
    BlockWords(m, a, h.bs, pool, p, e);
    BlockWords(m, a, h.bs, pool, start, start);
    TagOfSize(At(m1, start), e - start);
    assert At(m1, e) == At(m, e) by { hide Tiles, Chain, Tagged, Room, LinkWord, MergedStart; }
    if Free(h.bs, e) {
      FreeTag(h.bs[e].size);
      assert e in FirstFitHeap.DetachedBefore(h, pool, p) by { StillListed(m, a, pool, h, p); }
    }
    hide State, Chain, Tagged, Room, LinkWord, Members, Tag, Tiles, MergedStart, FirstFitHeap.DetachedBefore, Opened,
      Without, UsedTag, SizeTag;
  }

  lemma TagOfSize(w: nat, size: int)
    requires w == 4 * size
    ensures SizeTag(w) == size && !UsedTag(w)
  {
    Digits(w, size, 0);
  }

  lemma StillListed(m: Mem, a: nat, pool: Pool, h: FirstFitHeap.Heap, p: int)
    requires State(m, a, pool, h) && Tiles(h.bs, pool) && Used(h.bs, p) && Free(h.bs, End(h.bs, p))
    ensures End(h.bs, p) in FirstFitHeap.DetachedBefore(h, pool, p)
  {
    var b := MergedStart(h.bs, pool, p);
    WithoutFacts(h.free, b);
    assert End(h.bs, p) in h.free && b != End(h.bs, p);
    hide Tiles, Chain, Tagged, Room, Without, MergedStart;
  }

  lemma RightJoined(m: Mem, a: nat, pool: Pool, h: FirstFitHeap.Heap, p: int, start: nat, m1: Mem, e: int)
    requires State(m, a, pool, h) && LeftDone(m, a, pool, h, p, start, m1)
    requires e == start + SizeTag(At(m1, start)) && !UsedTag(At(m1, e))
    ensures BothDone(m, a, pool, h, p, start, JoinedHeader(Unlink(m1, a, e), start, e))
  {
    hide *;
    StateFacts(m, a, pool, h);
    LeftParts(m, a, pool, h, p, start, m1);
    AfterFacts(m, a, pool, h, p, start, m1);
    RoomLength(m, m1, a, h.bs, pool);
    var list, m2 := FirstFitHeap.DetachedBefore(h, pool, p), Unlink(m1, a, e);
    var m3 := JoinedHeader(m2, start, e);
    UnlinkChain(m1, a, h.bs, pool, list, e);
    RightOpened(m, m1, m2, a, h.bs, pool, p, start, e);
    RoomLength(m, m2, a, h.bs, pool);
    ChainKept(m2, m3, a, h.bs, pool, Without(list, e), start);
    BothDoneIs(m, a, pool, h, p, start, m3);
  }

  lemma LeftParts(m: Mem, a: nat, pool: Pool, h: FirstFitHeap.Heap, p: int, start: int, m1: Mem)
    requires LeftDone(m, a, pool, h, p, start, m1)
    ensures Tiles(h.bs, pool) && Used(h.bs, p) && p in h.bs && start == MergedStart(h.bs, pool, p)
    ensures Opened(m, m1, a, h.bs, pool, p, End(h.bs, p) - start)
    ensures Chain(m1, a, FirstFitHeap.DetachedBefore(h, pool, p))
    ensures Members(h.bs, FirstFitHeap.DetachedBefore(h, pool, p))
  {
    hide Tiles, MergedStart, Opened, Chain, Members, FirstFitHeap.DetachedBefore;
  }

  lemma BothDoneIs(m: Mem, a: nat, pool: Pool, h: FirstFitHeap.Heap, p: int, start: int, m1: Mem)
    requires Tiles(h.bs, pool) && Used(h.bs, p) && start == MergedStart(h.bs, pool, p)
    requires Opened(m, m1, a, h.bs, pool, p, MergedEnd(h.bs, p) - start)
    requires Chain(m1, a, FirstFitHeap.Detached(h, pool, p)) && Members(h.bs, FirstFitHeap.Detached(h, pool, p))
    ensures BothDone(m, a, pool, h, p, start, m1)
  {
    hide Tiles, MergedStart, MergedEnd, Opened, Chain, Members, FirstFitHeap.Detached;
  }

  /** The header after the right join. */
  lemma RightOpened(m: Mem, m1: Mem, m2: Mem, a: nat, bs: Blocks, pool: Pool, p: int, start: nat, e: int)
    requires Tiles(bs, pool) && p in bs && start == MergedStart(bs, pool, p) && start < |m|
    requires Opened(m, m1, a, bs, pool, p, End(bs, p) - start) && OnlyLinks(m1, m2, a, bs)
    requires e == End(bs, p) && e in bs && At(m1, e) == 4 * bs[e].size && MergedEnd(bs, p) == e + bs[e].size
    requires !LinkWord(a, bs, start) && !LinkWord(a, bs, e)
    ensures var m3 := JoinedHeader(m2, start, e);
            && |m2| == |m3| == |m| && Opened(m, m3, a, bs, pool, p, MergedEnd(bs, p) - start)
            && forall x {:trigger At(m3, x)} :: x == start || At(m3, x) == At(m2, x)
  {
    hide Tiles, MergedStart, MergedEnd, LinkWord, Put, At;
  }

  // ---------------------------------------------------------------- ffs_free: the end

  /** CLONE_SIZE_TO_TAIL */
  function ClonedTail(m: Mem, p: int): Mem {
    Put(m, p + SizeTag(At(m, p)) - 1, At(m, p))
  }

  lemma BothFacts(m: Mem, a: nat, pool: Pool, h: FirstFitHeap.Heap, p: int, start: nat, m1: Mem)
    requires State(m, a, pool, h) && BothDone(m, a, pool, h, p, start, m1)
    ensures Tiles(h.bs, pool) && p in h.bs && |m1| == |m|
    ensures var list := FirstFitHeap.Detached(h, pool, p);
            && Space(m1, a, list, start) && Chain(m1, a, list) && Members(h.bs, list)
    ensures var e := MergedEnd(h.bs, p);
            && SizeTag(At(m1, start)) == e - start && start + 4 <= e <= pool.hi < |m1|
            && !LinkWord(a, h.bs, start) && !LinkWord(a, h.bs, e - 1) && a + 1 < start
  {
    StateFacts(m, a, pool, h);
    MergedClear(h.bs, pool, p);
    var e := MergedEnd(h.bs, p);
    TagOfSize(At(m1, start), e - start);
    BlockWords(m, a, h.bs, pool, start, start);
    MergedTail(m, a, h.bs, pool, p);
    DetachedMembers(pool, h, p);
    hide State, Chain, Tagged, LinkWord, Tag, MergedStart, MergedEnd, FirstFitHeap.Detached, SizeTag, Opened, Members,
      Space;
    ListSpace(m, m1, a, h.bs, pool, FirstFitHeap.Detached(h, pool, p), start, e);
  }

  lemma ListSpace(m: Mem, m1: Mem, a: nat, bs: Blocks, pool: Pool, list: seq<int>, start: int, e: int)
    requires Room(m, a, bs, pool) && Members(bs, list) && |m1| == |m|
    requires a < start && start + 4 <= e < |m1|
    requires forall q | q in list :: Free(bs, q) && (End(bs, q) <= start || e <= q)
    ensures Space(m1, a, list, start)
  {
    forall i | 0 <= i < |list|
      ensures a < list[i] && list[i] + 2 < |m1| && (start + 4 <= list[i] || list[i] + 4 <= start)
    {
      MemberFacts(m, a, bs, pool, list, i);
      assert list[i] in list;
    }
  }

  lemma MergedTail(m: Mem, a: nat, bs: Blocks, pool: Pool, p: int)
    requires Room(m, a, bs, pool) && p in bs
    ensures !LinkWord(a, bs, MergedEnd(bs, p) - 1)
  {
    BlockWords(m, a, bs, pool, if Free(bs, End(bs, p)) then End(bs, p) else p, MergedEnd(bs, p) - 1);
  }

  lemma DetachedMembers(pool: Pool, h: FirstFitHeap.Heap, p: int)
    requires FirstFitHeap.Valid(pool, h) && Used(h.bs, p)
    ensures forall q | q in FirstFitHeap.Detached(h, pool, p) ::
              && Free(h.bs, q)
              && (End(h.bs, q) <= MergedStart(h.bs, pool, p) || MergedEnd(h.bs, p) <= q)
  {
    FirstFitHeap.DetachedFacts(h, pool, p);
    MergedClear(h.bs, pool, p);
    hide FirstFitHeap.Detached, Tiles, MergedStart, MergedEnd;
  }

  /** ffs_free ends in a pool at rest, in the heap Release describes; other clients' words are untouched. */
  lemma ReleasedState(m: Mem, a: nat, pool: Pool, h: FirstFitHeap.Heap, p: int, start: nat, m1: Mem)
    requires State(m, a, pool, h) && BothDone(m, a, pool, h, p, start, m1)
    ensures var m2 := ClonedTail(Link(m1, a, start), start);
            && Tiles(h.bs, pool) && p in h.bs
            && State(m2, a, pool, FirstFitHeap.Release(h, pool, p))
            && (forall q, w | Payload(h.bs, q, w) && q != p :: At(m2, w) == At(m, w))
            && forall w {:trigger At(m2, w)} | Outside(a, pool, w) :: At(m2, w) == At(m, w)
  {
    hide *;
    StateFacts(m, a, pool, h);
    BothFacts(m, a, pool, h, p, start, m1);
    RoomLength(m, m1, a, h.bs, pool);
    var list, m2 := FirstFitHeap.Detached(h, pool, p), Link(m1, a, start);
    LinkChain(m1, a, h.bs, pool, list, start);
    JoinedNow(m, a, pool, h, p, start, m1);
    var m3 := ClonedTail(m2, start);
    JoinedTagged(m, m3, a, h.bs, pool, p);
    ReleasedAtRest(m, a, pool, h, p, start, m1);
    forall q, w | Payload(h.bs, q, w) && q != p ensures At(m3, w) == At(m, w) {
      JoinedPayload(m, m3, a, h.bs, pool, p, q, w);
    }
    forall w {:trigger At(m3, w)} | Outside(a, pool, w) ensures At(m3, w) == At(m, w) {
      JoinedOutside(m, m3, a, h.bs, pool, p, w);
    }
  }

  lemma BothParts(m: Mem, a: nat, pool: Pool, h: FirstFitHeap.Heap, p: int, start: int, m1: Mem)
    requires BothDone(m, a, pool, h, p, start, m1)
    ensures Tiles(h.bs, pool) && p in h.bs && Used(h.bs, p) && start == MergedStart(h.bs, pool, p)
    ensures Opened(m, m1, a, h.bs, pool, p, MergedEnd(h.bs, p) - start)
  {
    hide Tiles, Opened, Chain, Members, MergedStart;
  }

  lemma JoinedNow(m: Mem, a: nat, pool: Pool, h: FirstFitHeap.Heap, p: int, start: nat, m1: Mem)
    requires State(m, a, pool, h) && BothDone(m, a, pool, h, p, start, m1)
    ensures Tiles(h.bs, pool) && p in h.bs && Used(h.bs, p)
    ensures Joined(m, ClonedTail(Link(m1, a, start), start), a, h.bs, pool, p)
  {
    BothFacts(m, a, pool, h, p, start, m1);
    BothParts(m, a, pool, h, p, start, m1);
    StateFacts(m, a, pool, h);
    RoomLength(m, m1, a, h.bs, pool);
    hide State, BothDone, Chain, Tagged, Room, LinkWord, Members, MergedStart, MergedEnd, FirstFitHeap.Detached,
      SizeTag,
      Tiles, Link, Space;
    LinkChain(m1, a, h.bs, pool, FirstFitHeap.Detached(h, pool, p), start);
  }

  lemma ReleasedAtRest(m: Mem, a: nat, pool: Pool, h: FirstFitHeap.Heap, p: int, start: nat, m1: Mem)
    requires State(m, a, pool, h) && BothDone(m, a, pool, h, p, start, m1)
    requires Tiles(h.bs, pool) && p in h.bs
    requires Tagged(ClonedTail(Link(m1, a, start), start), Released(h.bs, pool, p), pool)
    ensures State(ClonedTail(Link(m1, a, start), start), a, pool, FirstFitHeap.Release(h, pool, p))
  {
    hide *;
    StateFacts(m, a, pool, h);
    BothFacts(m, a, pool, h, p, start, m1);
    BothParts(m, a, pool, h, p, start, m1);
    RoomLength(m, m1, a, h.bs, pool);
    var list := FirstFitHeap.Detached(h, pool, p);
    var m2 := Link(m1, a, start);
    LinkChain(m1, a, h.bs, pool, list, start);
    StateValid(m, a, pool, h);
    FirstFitHeap.ReleaseValid(h, pool, p);
    TailKeepsChain(m, m2, a, h.bs, pool, list, start, MergedEnd(h.bs, p));
    ReleaseParts(pool, h, p);
    RestingIs(m, ClonedTail(m2, start), a, h.bs, pool, FirstFitHeap.Release(h, pool, p));
  }

  lemma StateValid(m: Mem, a: nat, pool: Pool, h: FirstFitHeap.Heap)
    requires State(m, a, pool, h)
    ensures FirstFitHeap.Valid(pool, h)
  {
  }

  lemma ReleaseParts(pool: Pool, h: FirstFitHeap.Heap, p: int)
    requires Tiles(h.bs, pool) && p in h.bs
    ensures FirstFitHeap.Release(h, pool, p).bs == Released(h.bs, pool, p)
    ensures FirstFitHeap.Release(h, pool, p).free == [MergedStart(h.bs, pool, p)] + FirstFitHeap.Detached(h, pool, p)
  {
    hide Tiles, Released, MergedStart, FirstFitHeap.Detached;
  }

  lemma RestingIs(m: Mem, m2: Mem, a: nat, bs: Blocks, pool: Pool, h2: FirstFitHeap.Heap)
    requires Room(m, a, bs, pool) && |m2| == |m| && FirstFitHeap.Valid(pool, h2)
    requires Chain(m2, a, h2.free) && Tagged(m2, h2.bs, pool)
    ensures State(m2, a, pool, h2)
  {
    hide Chain, Tagged, Tiles, Coalesced, FirstFitHeap.ListsFree;
  }

  /** Writing the tail of the joined chunk leaves the list alone. */
  lemma TailKeepsChain(m: Mem, m2: Mem, a: nat, bs: Blocks, pool: Pool, list: seq<int>, start: nat, e: int)
    requires Room(m, a, bs, pool) && Members(bs, list) && |m2| == |m|
    requires Chain(m2, a, [start] + list) && SizeTag(At(m2, start)) == e - start && start + 4 <= e && a + 1 < start
    requires !LinkWord(a, bs, e - 1)
    ensures Chain(ClonedTail(m2, start), a, [start] + list) && |ClonedTail(m2, start)| == |m|
  {
    var m3, longer := ClonedTail(m2, start), [start] + list;
    forall i | 0 <= i < |longer|
      ensures At(m3, longer[i] + 1) == At(m2, longer[i] + 1) && At(m3, longer[i] + 2) == At(m2, longer[i] + 2)
    {
      if i > 0 { assert longer[i] == list[i - 1] && Free(bs, list[i - 1]); }
    }
    hide Chain, Room, SizeTag;
    ChainFrame(m2, m3, a, longer);
  }

  // ---------------------------------------------------------------- ffs_alloc

  /** Marks chunk p used in header and tail. */
  function MarkedUsed(m: Mem, p: int): Mem {
    ClonedTail(Put(m, p, SetUsed(At(m, p))), p)
  }

  /** Cuts `words` words from the end of free chunk p. */
  function CutEnd(m: Mem, p: int, words: nat): Mem {
    var size := 4 * words;
    var left: nat := if At(m, p) < size then 0 else At(m, p) - size;
    var m1 := ClonedTail(Put(m, p, left), p);
    Put(m1, p + SizeTag(At(m1, p)), size)
  }

  lemma ListedFacts(m: Mem, a: nat, pool: Pool, h: FirstFitHeap.Heap, p: int)
    requires State(m, a, pool, h) && p in h.free
    ensures Free(h.bs, p) && p in h.bs && At(m, p) == Tag(h.bs[p]) == 4 * h.bs[p].size
    ensures At(m, End(h.bs, p) - 1) == Tag(h.bs[p])
    ensures a + 1 < pool.lo <= p && p + 4 <= End(h.bs, p) <= pool.hi < |m| && End(h.bs, p) == p + h.bs[p].size
  {
    StateFacts(m, a, pool, h);
    var i :| 0 <= i < |h.free| && h.free[i] == p;
    assert Free(h.bs, p) && TagOk(m, h.bs, p);
    BlockBounds(m, a, h.bs, pool, p);
    FreeTag(h.bs[p].size);
    hide Chain, Tagged, Tiles, Coalesced, Tag, Room;
  }

  lemma MarkedUsedWords(m: Mem, p: nat, size: nat)
    requires 1 < size && p + size <= |m| && At(m, p) == 4 * size
    ensures var m2, tag := MarkedUsed(m, p), Tag(Block(size, true));
            && |m2| == |m| && At(m2, p) == tag && At(m2, p + size - 1) == tag
            && forall w {:trigger At(m2, w)} :: w == p || w == p + size - 1 || At(m2, w) == At(m, w)
  {
    FreeTag(size);
    TagFields(Block(size, false));
    TagFields(Block(size, true));
    hide Tag, SetUsed, SizeTag;
  }

  lemma CutEndWords(m: Mem, p: nat, words: nat, size: nat)
    requires 4 <= words && words + 4 <= size && p + size <= |m| && At(m, p) == 4 * size
    ensures var m2, left := CutEnd(m, p, words), size - words;
            && |m2| == |m| && At(m2, p) == At(m2, p + left - 1) == 4 * left && At(m2, p + left) == 4 * words
            && forall w {:trigger At(m2, w)} :: w == p || w == p + left - 1 || w == p + left || At(m2, w) == At(m, w)
  {
    TagOfSize(4 * (size - words), size - words);
    hide SizeTag;
  }

  // taking the whole chunk

  lemma WholeOther(m: Mem, m2: Mem, a: nat, bs: Blocks, pool: Pool, p: int, q: int)
    requires Room(m, a, bs, pool) && Free(bs, p) && q in bs && q != p && TagOk(m, bs, q)
    requires forall w {:trigger At(m2, w)} ::
               LinkWord(a, bs, w) || w == p || w == End(bs, p) - 1 || At(m2, w) == At(m, w)
    ensures TagOk(m2, bs, q)
    ensures forall w | Payload(bs, q, w) :: At(m2, w) == At(m, w)
  {
    BlockBounds(m, a, bs, pool, p);
    BlockBounds(m, a, bs, pool, q);
    assert p < q ==> End(bs, p) <= q;
    assert q < p ==> End(bs, q) <= p;
    BlockWords(m, a, bs, pool, q, q);
    BlockWords(m, a, bs, pool, q, End(bs, q) - 1);
    forall w | Payload(bs, q, w) ensures At(m2, w) == At(m, w) {
      BlockWords(m, a, bs, pool, q, w);
    }
  }

  lemma WholeTagged(m: Mem, m2: Mem, a: nat, bs: Blocks, pool: Pool, p: int)
    requires Room(m, a, bs, pool) && Free(bs, p) && Tagged(m, bs, pool)
    requires forall w {:trigger At(m2, w)} ::
               LinkWord(a, bs, w) || w == p || w == End(bs, p) - 1 || At(m2, w) == At(m, w)
    requires At(m2, p) == At(m2, End(bs, p) - 1) == Tag(Block(bs[p].size, true))
    ensures Tagged(m2, bs[p := Block(bs[p].size, true)], pool)
  {
    BorderWords(m, a, bs, pool);
    BlockBounds(m, a, bs, pool, p);
    assert UsedTag(At(m2, pool.lo - 1)) && UsedTag(At(m2, pool.hi));
    hide Room, LinkWord, Tag, UsedTag, Payload;
    var taken := bs[p := Block(bs[p].size, true)];
    forall q ensures TagOk(m2, taken, q) {
      if q in bs && q != p {
        assert TagOk(m, bs, q);
        WholeOther(m, m2, a, bs, pool, p, q);
      }
    }
  }

  lemma WholeDone(m: Mem, a: nat, pool: Pool, h: FirstFitHeap.Heap, p: nat, words: nat)
    requires State(m, a, pool, h) && p in h.free && 4 <= words <= FirstFitHeap.SizeOf(h.bs, p) < words + 4
    ensures var m2 := MarkedUsed(Unlink(m, a, p), p);
            && State(m2, a, pool, FirstFitHeap.Taken(h, p, words).1)
            && FirstFitHeap.Taken(h, p, words).0 == FirstFitHeap.Allocated(p)
            && (forall q, w | Payload(h.bs, q, w) :: At(m2, w) == At(m, w))
            && forall w {:trigger At(m2, w)} | Outside(a, pool, w) :: At(m2, w) == At(m, w)
  {
    hide State, FirstFitHeap.Valid, Chain, Tagged, Room, LinkWord, Members, Tag, Unlink, MarkedUsed, Tiles, Without,
      Payload, Cut;
    StateFacts(m, a, pool, h);
    ListedFacts(m, a, pool, h, p);
    var m1, size, rest := Unlink(m, a, p), h.bs[p].size, Without(h.free, p);
    var m2 := MarkedUsed(m1, p);
    BlockWords(m, a, h.bs, pool, p, p);
    BlockWords(m, a, h.bs, pool, p, End(h.bs, p) - 1);
    StateValid(m, a, pool, h);
    FirstFitHeap.TakenValid(h, pool, p, words);
    UnlinkChain(m, a, h.bs, pool, h.free, p);
    MarkedUsedWords(m1, p, size);
    WholeTagged(m, m2, a, h.bs, pool, p);
    RoomLength(m, m1, a, h.bs, pool);
    ChainKeptTwice(m1, m2, a, h.bs, pool, rest, p, End(h.bs, p) - 1);
    RestingIs(m, m2, a, h.bs, pool, FirstFitHeap.Taken(h, p, words).1);
    forall q, w | Payload(h.bs, q, w) ensures At(m2, w) == At(m, w) {
      PayloadOwner(h.bs, p, q, w);
      TagsOf(m, h.bs, pool, q);
      WholeOther(m, m2, a, h.bs, pool, p, q);
    }
    forall w {:trigger At(m2, w)} | Outside(a, pool, w) ensures At(m2, w) == At(m, w) {
      LinkInside(m, a, h.bs, pool, w);
      OutsideBlock(a, pool, p, End(h.bs, p) - 1, w);
      OnlyLinksAt(m, m1, a, h.bs, w);
    }
  }

  lemma PayloadOwner(bs: Blocks, p: int, q: int, w: int)
    requires Payload(bs, q, w) && Free(bs, p)
    ensures q in bs && q != p
  {
  }

  lemma TagsOf(m: Mem, bs: Blocks, pool: Pool, q: int)
    requires Tagged(m, bs, pool)
    ensures TagOk(m, bs, q)
  {
  }

  lemma ChainKeptTwice(m: Mem, m1: Mem, a: nat, bs: Blocks, pool: Pool, list: seq<int>, v: int, w: int)
    requires Room(m, a, bs, pool) && Members(bs, list) && Chain(m, a, list)
    requires !LinkWord(a, bs, v) && !LinkWord(a, bs, w)
    requires forall x {:trigger At(m1, x)} :: x == v || x == w || At(m1, x) == At(m, x)
    ensures Chain(m1, a, list)
  {
    forall i | 0 <= i < |list|
      ensures v != list[i] + 1 && v != list[i] + 2 && w != list[i] + 1 && w != list[i] + 2
    {
      assert Free(bs, list[i]);
    }
    hide Chain, Room, LinkWord;
    ChainFrame(m, m1, a, list);
  }

  // cutting the end off

  lemma EndTagged(m: Mem, m2: Mem, a: nat, bs: Blocks, pool: Pool, p: int, words: nat)
    requires Room(m, a, bs, pool) && Free(bs, p) && Tagged(m, bs, pool) && 4 <= words && words + 4 <= bs[p].size
    requires var r := p + bs[p].size - words;
             && (forall w {:trigger At(m2, w)} ::
                   w == p || w == r - 1 || w == r || w == End(bs, p) - 1 || At(m2, w) == At(m, w))
             && At(m2, p) == At(m2, r - 1) == Tag(Block(bs[p].size - words, false))
             && At(m2, r) == At(m2, End(bs, p) - 1) == Tag(Block(words, true))
    ensures Tagged(m2, Cut(bs, p, Block(bs[p].size - words, false), Block(words, true)), pool)
    ensures forall q, w | Payload(bs, q, w) :: At(m2, w) == At(m, w)
  {
    BlockBounds(m, a, bs, pool, p);
    assert Disjoint(bs) && Bounded(bs, pool);
    var cut, r := Cut(bs, p, Block(bs[p].size - words, false), Block(words, true)), p + bs[p].size - words;
    hide Room, Tag, Tiles;
    assert UsedTag(At(m2, pool.lo - 1)) && UsedTag(At(m2, pool.hi));
    forall q ensures TagOk(m2, cut, q) {
      if q in bs && q != p && q != r {
        assert TagOk(m, bs, q);
        assert p < q ==> End(bs, p) <= q;
        assert q < p ==> End(bs, q) <= p;
      }
    }
  }

  lemma EndDone(m: Mem, a: nat, pool: Pool, h: FirstFitHeap.Heap, p: nat, words: nat)
    requires State(m, a, pool, h) && p in h.free && 4 <= words && words + 4 <= FirstFitHeap.SizeOf(h.bs, p)
    ensures var r := p + FirstFitHeap.SizeOf(h.bs, p) - words;
            var m2 := MarkedUsed(CutEnd(m, p, words), r);
            && State(m2, a, pool, FirstFitHeap.Taken(h, p, words).1)
            && FirstFitHeap.Taken(h, p, words).0 == FirstFitHeap.Allocated(r)
            && (forall q, w | Payload(h.bs, q, w) :: At(m2, w) == At(m, w))
            && forall w {:trigger At(m2, w)} | Outside(a, pool, w) :: At(m2, w) == At(m, w)
  {
    hide *;
    StateFacts(m, a, pool, h);
    ListedFacts(m, a, pool, h, p);
    StateValid(m, a, pool, h);
    SizeOfListed(h, p);
    MinWords();
    var size := h.bs[p].size;
    FirstFitHeap.TakenValid(h, pool, p, words);
    TakenEnd(h, p, words);
    var m1, r := CutEnd(m, p, words), p + size - words;
    var m2 := MarkedUsed(m1, r);
    CutInside(m, m1, m2, a, h.bs, pool, h.free, p, words);
    FreeTag(size - words);
    CutEndWords(m, p, words, size);
    MarkedUsedWords(m1, r, words);
    EndTagged(m, m2, a, h.bs, pool, p, words);
    RestingIs(m, m2, a, h.bs, pool, FirstFitHeap.Taken(h, p, words).1);
    forall w {:trigger At(m2, w)} | Outside(a, pool, w) ensures At(m2, w) == At(m, w) {
      OutsideBlock(a, pool, p, p + size - 1, w);
    }
  }

  lemma OutsideBlock(a: nat, pool: Pool, from: int, to: int, w: int)
    requires a < from && to < pool.hi && Outside(a, pool, w)
    ensures w < from || to < w
  {
  }

  lemma OnlyLinksAt(m: Mem, m1: Mem, a: nat, bs: Blocks, w: int)
    requires OnlyLinks(m, m1, a, bs) && !LinkWord(a, bs, w)
    ensures At(m1, w) == At(m, w)
  {
    hide LinkWord, At;
  }

  lemma MinWords()
    ensures FirstFitHeap.MIN_WORDS == 4
  {
  }

  lemma SizeOfListed(h: FirstFitHeap.Heap, p: int)
    requires p in h.bs
    ensures FirstFitHeap.SizeOf(h.bs, p) == h.bs[p].size
  {
  }

  lemma TakenEnd(h: FirstFitHeap.Heap, p: int, words: nat)
    requires p in h.bs && words + 4 <= h.bs[p].size
    ensures FirstFitHeap.Taken(h, p, words).0 == FirstFitHeap.Allocated(p + h.bs[p].size - words)
    ensures FirstFitHeap.Taken(h, p, words).1 ==
            FirstFitHeap.Heap(Cut(h.bs, p, Block(h.bs[p].size - words, false), Block(words, true)), h.free)
  {
    hide Cut;
  }

  /** The list does not notice the cut: it happens behind the links of p. */
  lemma CutInside(m: Mem, m1: Mem, m2: Mem, a: nat, bs: Blocks, pool: Pool, list: seq<int>, p: nat, words: nat)
    requires Room(m, a, bs, pool) && Members(bs, list) && Chain(m, a, list) && Free(bs, p)
    requires 4 <= words && words + 4 <= bs[p].size && At(m, p) == 4 * bs[p].size && p + bs[p].size <= |m|
    requires m1 == CutEnd(m, p, words) && m2 == MarkedUsed(m1, p + bs[p].size - words)
    ensures Chain(m2, a, list)
  {
    var size, r := bs[p].size, p + bs[p].size - words;
    CutEndWords(m, p, words, size);
    MarkedUsedWords(m1, r, words);
    BlockBounds(m, a, bs, pool, p);
    hide Chain, CutEnd, MarkedUsed, Tag;
    forall i | 0 <= i < |list|
      ensures At(m2, list[i] + 1) == At(m, list[i] + 1) && At(m2, list[i] + 2) == At(m, list[i] + 2)
    {
      var q := list[i];
      assert Free(bs, q);
      BlockBounds(m, a, bs, pool, q);
      assert p < q ==> End(bs, p) <= q;
      assert q < p ==> End(bs, q) <= p;
    }
    hide Room;
    ChainFrame(m, m2, a, list);
  }

  // ---------------------------------------------------------------- the search loop

  lemma AtFirst(m: Mem, a: nat, pool: Pool, h: FirstFitHeap.Heap)
    requires State(m, a, pool, h)
    ensures a < |m| && At(m, a) == if h.free == [] then 0 else 4 * h.free[0]
    ensures h.free != [] ==> h.free[0] > 0 && At(m, a) / 4 == h.free[0] && h.free[0] + 2 < |m|
  {
    StateFacts(m, a, pool, h);
    if h.free != [] { MemberFacts(m, a, h.bs, pool, h.free, 0); }
    hide Room, Tagged, Members;
  }

  /** One step of the search: the size word of the current chunk, and its `next` field. */
  lemma AtPlace(m: Mem, a: nat, pool: Pool, h: FirstFitHeap.Heap, i: nat, size: nat)
    requires State(m, a, pool, h) && i < |h.free| && size % 4 == 0
    ensures var p := h.free[i];
            && 0 < p && (4 * p) / 4 == p && p + 2 < |m|
            && (m[p] < size <==> FirstFitHeap.SizeOf(h.bs, p) < size / 4)
            && m[p + 2] == (if i + 1 == |h.free| then 0 else 4 * h.free[i + 1])
            && (m[p + 2] != 0 ==> m[p + 2] / 4 == h.free[i + 1] && h.free[i + 1] + 2 < |m|)
            && (i + 1 < |h.free| ==> m[p + 2] != 0)
  {
    StateFacts(m, a, pool, h);
    var p := h.free[i];
    ListedFacts(m, a, pool, h, p);
    ChainNode(m, a, h.free, i);
    if i + 1 < |h.free| { MemberFacts(m, a, h.bs, pool, h.free, i + 1); }
    hide State, Room, Tagged, Members, Chain, Tag;
  }

  // ---------------------------------------------------------------- ffs_init

  /** The memory ffs_init prepares: two borders, and one free chunk that is first in the list. */
  ghost predicate Initial(m: Mem, a: nat, pool: Pool) {
    && a + 2 == pool.lo && pool.lo + 6 <= pool.hi < |m| && pool.min == 4
    && At(m, a) == 4 * pool.lo && At(m, pool.lo + 1) == 0 && At(m, pool.lo + 2) == 0
    && At(m, pool.lo) == At(m, pool.hi - 1) == 4 * (pool.hi - pool.lo)
    && UsedTag(At(m, pool.lo - 1)) && UsedTag(At(m, pool.hi))
  }

  lemma InitialState(m: Mem, a: nat, pool: Pool)
    requires Initial(m, a, pool)
    ensures State(m, a, pool, FirstFitHeap.Fresh(pool))
  {
    FirstFitHeap.FreshValid(pool);
    hide UsedTag;
    var h := FirstFitHeap.Fresh(pool);
    FreeTag(pool.hi - pool.lo);
    forall p ensures TagOk(m, h.bs, p) {
    }
    forall i: nat ensures Node(m, h.free, i) {
    }
  }

  // ---------------------------------------------------------------- facts for single calls

  lemma OpeningIs(m: Mem, p: nat)
    requires p < |m|
    ensures Opening(m, p) == m[p := ClearUsed(m[p])]
  {
  }

  lemma JoinedHeaderIs(m: Mem, b: nat, second: nat)
    requires b < |m| && second < |m|
    ensures JoinedHeader(m, b, second) == m[b := m[b] + m[second]]
  {
  }

  lemma BeforeReady(m: Mem, a: nat, pool: Pool, h: FirstFitHeap.Heap, p: int, b: int)
    requires State(m, a, pool, h) && Used(h.bs, p) && !UsedTag(At(m, p - 1)) && b == p - SizeTag(At(m, p - 1))
    ensures 0 <= b && b < p < |m| && UnlinkReady(Opening(m, p), a, b) && |Unlink(Opening(m, p), a, b)| == |m|
  {
    hide *;
    StateFacts(m, a, pool, h);
    BeforeFacts(m, a, pool, h, p);
    OpeningFacts(m, a, pool, h, p);
    RoomLength(m, Opening(m, p), a, h.bs, pool);
    UnlinkSafe(Opening(m, p), a, h.bs, pool, h.free, b);
    UnlinkLength(Opening(m, p), a, b);
  }

  lemma UnlinkLength(m: Mem, a: nat, p: int)
    ensures |Unlink(m, a, p)| == |m|
  {
  }

  lemma AfterReady(m: Mem, a: nat, pool: Pool, h: FirstFitHeap.Heap, p: int, start: nat, m1: Mem)
    requires State(m, a, pool, h) && LeftDone(m, a, pool, h, p, start, m1)
    requires !UsedTag(At(m1, start + SizeTag(At(m1, start))))
    ensures UnlinkReady(m1, a, start + SizeTag(At(m1, start)))
    ensures |Unlink(m1, a, start + SizeTag(At(m1, start)))| == |m1|
  {
    hide *;
    StateFacts(m, a, pool, h);
    AfterFacts(m, a, pool, h, p, start, m1);
    LeftParts(m, a, pool, h, p, start, m1);
    RoomLength(m, m1, a, h.bs, pool);
    UnlinkSafe(m1, a, h.bs, pool, FirstFitHeap.DetachedBefore(h, pool, p), End(h.bs, p));
    UnlinkLength(m1, a, End(h.bs, p));
  }

  lemma LastReady(m: Mem, a: nat, pool: Pool, h: FirstFitHeap.Heap, p: int, start: nat, m1: Mem)
    requires State(m, a, pool, h) && BothDone(m, a, pool, h, p, start, m1)
    ensures LinkReady(m1, a, start) && |Link(m1, a, start)| == |m1|
    ensures var tag := At(Link(m1, a, start), start);
            0 < SizeTag(tag) && start + SizeTag(tag) <= |m1| && start < |m1|
  {
    hide *;
    StateFacts(m, a, pool, h);
    BothFacts(m, a, pool, h, p, start, m1);
    RoomLength(m, m1, a, h.bs, pool);
    LinkSafe(m1, a, FirstFitHeap.Detached(h, pool, p), start);
    LinkChain(m1, a, h.bs, pool, FirstFitHeap.Detached(h, pool, p), start);
  }

  /** The chunk is large enough to be split, as the code tests it in 32 bits and as it is meant. */
  predicate SplitAgrees(size: nat, words: nat) {
    4 * words >= (size + 16) % FirstFitHeap.WORD_LIMIT <==> 4 * words >= size + 16
  }

  lemma SplitMeant(size: nat, words: nat)
    requires SplitAgrees(size, words)
    ensures 4 * words >= (size + 16) % FirstFitHeap.WORD_LIMIT <==> 4 * words >= size + 16
  {
  }

  lemma AllocIs(h: FirstFitHeap.Heap, request: nat)
    requires FirstFitHeap.Alloc(h, request).0 != FirstFitHeap.Undefined
    ensures var size := FirstFitHeap.Rounded(request);
            var i := FirstFitHeap.FirstFit(h.bs, h.free, size / 4, 0);
            && (i == |h.free| ==>
                  && FirstFitHeap.Alloc(h, request).1 == h
                  && FirstFitHeap.UsableAddress(FirstFitHeap.Alloc(h, request).0) == 0)
            && (i < |h.free| ==>
                  && SplitAgrees(size, FirstFitHeap.SizeOf(h.bs, h.free[i]))
                  && FirstFitHeap.Alloc(h, request) == FirstFitHeap.Taken(h, h.free[i], size / 4)
                  && FirstFitHeap.Alloc(h, request).0.Allocated?)
  {
    hide FirstFitHeap.Rounded, FirstFitHeap.FirstFit;
    ModAtMost(FirstFitHeap.Rounded(request) + 16);
  }

  lemma ModAtMost(n: nat)
    ensures n % FirstFitHeap.WORD_LIMIT <= n
  {
  }

  lemma AllocPlan(m: Mem, a: nat, pool: Pool, h: FirstFitHeap.Heap, request: nat) returns (i: nat)
    requires State(m, a, pool, h) && request < FirstFitHeap.WORD_LIMIT
    requires FirstFitHeap.Alloc(h, request).0 != FirstFitHeap.Undefined
    ensures var size := FirstFitHeap.Rounded(request);
            && size % 4 == 0 && 4 * (size / 4) == size
            && i == FirstFitHeap.FirstFit(h.bs, h.free, size / 4, 0) <= |h.free|
            && (i == |h.free| ==>
                  && FirstFitHeap.Alloc(h, request).1 == h
                  && FirstFitHeap.UsableAddress(FirstFitHeap.Alloc(h, request).0) == 0)
            && (i < |h.free| ==>
                  var p := h.free[i];
                  && 4 <= size / 4 && 0 < p < |m| && (4 * p) / 4 == p && p in h.free && At(m, p) == m[p]
                  && m[p] == 4 * FirstFitHeap.SizeOf(h.bs, p) && size / 4 <= FirstFitHeap.SizeOf(h.bs, p)
                  && SplitAgrees(size, FirstFitHeap.SizeOf(h.bs, p))
                  && FirstFitHeap.Alloc(h, request) == FirstFitHeap.Taken(h, p, size / 4))
  {
    StateValid(m, a, pool, h);
    FirstFitHeap.RoundedSuffices(request);
    FirstFitHeap.AllocatedWords(h, pool, request);
    AllocIs(h, request);
    i := FirstFitHeap.FirstFit(h.bs, h.free, FirstFitHeap.Rounded(request) / 4, 0);
    hide State, FirstFitHeap.Rounded, FirstFitHeap.FirstFit, FirstFitHeap.Taken, FirstFitHeap.Alloc, Tag;
    if i < |h.free| {
      ListedFacts(m, a, pool, h, h.free[i]);
    }
  }

  /** What ffs_alloc needs for cutting, and the memory that results. */
  lemma CutReady(m: Mem, a: nat, pool: Pool, h: FirstFitHeap.Heap, p: nat, words: nat)
    requires State(m, a, pool, h) && p in h.free && 4 <= words && words + 4 <= FirstFitHeap.SizeOf(h.bs, p)
    ensures p < |m| && m[p] >= 4 * words
    ensures var left, r := m[p] - 4 * words, p + FirstFitHeap.SizeOf(h.bs, p) - words;
            && 0 < SizeTag(left) && p + SizeTag(left) == r && r + words <= |m| && SizeTag(4 * words) == words
            && SizeTag(SetUsed(4 * words)) == words
            && ClonedTail(m[p := left], p)[p] == left
            && |ClonedTail(m[p := left], p)| == |m|
            && CutEnd(m, p, words) == ClonedTail(m[p := left], p)[r := 4 * words]
            && MarkedUsed(CutEnd(m, p, words), r)
               == ClonedTail(CutEnd(m, p, words)[r := SetUsed(CutEnd(m, p, words)[r])], r)
  {
    ListedFacts(m, a, pool, h, p);
    var left, r := m[p] - 4 * words, p + h.bs[p].size - words;
    TagOfSize(left, h.bs[p].size - words);
    TagOfSize(4 * words, words);
    FreeTag(words);
    TagFields(Block(words, false));
    TagFields(Block(words, true));
    CutEndWords(m, p, words, h.bs[p].size);
    hide State, Tag, SizeTag, SetUsed;
  }

  /** What ffs_alloc needs for taking a chunk whole, and the memory that results. */
  lemma WholeReady(m: Mem, a: nat, pool: Pool, h: FirstFitHeap.Heap, p: nat, words: nat)
    requires State(m, a, pool, h) && p in h.free
    ensures UnlinkReady(m, a, p) && p < |m|
    ensures var m1 := Unlink(m, a, p);
            && |m1| == |m| && SizeTag(SetUsed(m1[p])) == FirstFitHeap.SizeOf(h.bs, p) > 0
            && p + FirstFitHeap.SizeOf(h.bs, p) <= |m|
            && MarkedUsed(m1, p) == ClonedTail(m1[p := SetUsed(m1[p])], p)
  {
    StateFacts(m, a, pool, h);
    ListedFacts(m, a, pool, h, p);
    BlockWords(m, a, h.bs, pool, p, p);
    UnlinkChain(m, a, h.bs, pool, h.free, p);
    UnlinkSafe(m, a, h.bs, pool, h.free, p);
    FreeTag(h.bs[p].size);
    TagFields(Block(h.bs[p].size, false));
    TagFields(Block(h.bs[p].size, true));
    hide State, Tag, SizeTag, SetUsed, LinkWord, Chain, Room, Members, Tagged, Tiles, Unlink, UnlinkReady, Without;
    assert At(Unlink(m, a, p), p) == At(m, p);
  }

  /** All that JoinAfter needs to know. */
  lemma RightStep(m: Mem, a: nat, pool: Pool, h: FirstFitHeap.Heap, p: int, start: nat, m1: Mem) returns (after: nat)
    requires State(m, a, pool, h) && LeftDone(m, a, pool, h, p, start, m1)
    ensures start < |m1| && after == start + SizeTag(m1[start]) < |m1|
    ensures if UsedTag(m1[after]) then BothDone(m, a, pool, h, p, start, m1)
            else
              && UnlinkReady(m1, a, after) && |Unlink(m1, a, after)| == |m1|
              && BothDone(m, a, pool, h, p, start, JoinedHeader(Unlink(m1, a, after), start, after))
  {
    hide *;
    AfterFacts(m, a, pool, h, p, start, m1);
    AtIndex(m1, start);
    after := start + SizeTag(m1[start]);
    AtIndex(m1, after);
    if !UsedTag(m1[after]) {
      AfterReady(m, a, pool, h, p, start, m1);
      RightJoined(m, a, pool, h, p, start, m1, after);
    }
  }

  /** All that JoinBefore needs to know. */
  lemma LeftStep(m: Mem, a: nat, pool: Pool, h: FirstFitHeap.Heap, p: int) returns (before: nat)
    requires State(m, a, pool, h) && Used(h.bs, p)
    ensures 1 <= p < |m| && Opening(m, p) == m[p := ClearUsed(m[p])]
    ensures if UsedTag(m[p - 1]) then before == p && LeftDone(m, a, pool, h, p, p, Opening(m, p))
            else
              && before == p - SizeTag(m[p - 1]) && before < p
              && UnlinkReady(Opening(m, p), a, before) && |Unlink(Opening(m, p), a, before)| == |m|
              && LeftDone(m, a, pool, h, p, before, JoinedHeader(Unlink(Opening(m, p), a, before), before, p))
  {
    hide *;
    OpeningFacts(m, a, pool, h, p);
    OpeningIs(m, p);
    AtIndex(m, p - 1);
    before := p;
    if UsedTag(m[p - 1]) {
      LeftAlone(m, a, pool, h, p);
    } else {
      BeforeReady(m, a, pool, h, p, p - SizeTag(m[p - 1]));
      before := p - SizeTag(m[p - 1]);
      LeftJoined(m, a, pool, h, p, before);
    }
  }
}
