/** How splitting, taking and joining chunks change the boundary tags (lib/mm/gma.c:107-117, 140-157). */
module GmaChunks {
  import opened Tiling
  import opened FreeLists
  import opened Words
  import opened GmaTags
  import opened GmaGrid

  /** The index lies before the pool; the pool and its right border lie in memory. */
  ghost predicate Room(m: Mem, lay: Layout, bs: Blocks, pool: Pool) {
    && Tiles(bs, pool)
    && 8 <= pool.min
    && lay.Fits(m)
    && lay.grid + lay.Lists() <= pool.lo
    && pool.hi + 1 < |m|
  }

  lemma RoomTiles(m: Mem, lay: Layout, bs: Blocks, pool: Pool)
    requires Room(m, lay, bs, pool)
    ensures Tiles(bs, pool) && 8 <= pool.min
  {
  }

  ghost predicate FreeBlocks(bs: Blocks, free: map<int, nat>) {
    forall p | p in free :: Free(bs, p)
  }

  /** Words a client owns: what follows the header of a chunk in use. */
  predicate Payload(bs: Blocks, q: int, w: int) {
    Used(bs, q) && q + 1 < w <= End(bs, q)
  }

  /** Tag words of blocks, and the payload of blocks in use, are no index words. */
  lemma BlockWords(m: Mem, lay: Layout, bs: Blocks, pool: Pool, free: map<int, nat>, q: int, w: int)
    requires Room(m, lay, bs, pool) && FreeBlocks(bs, free) && q in bs
    requires w == q + 1 || w == End(bs, q) || w == End(bs, q) + 1 || Payload(bs, q, w)
    ensures !IndexWord(lay, free, w)
  {
    forall r | r in free ensures w != r + 2 && w != r + 3 {
      assert Free(bs, r);
    }
  }

  lemma BorderWords(m: Mem, lay: Layout, bs: Blocks, pool: Pool, free: map<int, nat>)
    requires Room(m, lay, bs, pool) && FreeBlocks(bs, free)
    ensures !IndexWord(lay, free, pool.lo + 1) && !IndexWord(lay, free, pool.hi + 1)
  {
    BlockWords(m, lay, bs, pool, free, pool.lo, pool.lo + 1);
    forall r | r in free ensures pool.hi + 1 != r + 2 && pool.hi + 1 != r + 3 {
      assert Free(bs, r);
    }
  }

  // ---------------------------------------------------------------- joining

  /** The memory after p was released and joined, compared with the memory before. */
  ghost predicate Joined(m: Mem, m': Mem, lay: Layout, bs: Blocks, pool: Pool, free: map<int, nat>, p: int)
    requires Tiles(bs, pool) && p in bs
  {
    var b, e := MergedStart(bs, pool, p), MergedEnd(bs, p);
    && |m'| == |m|
    && (forall w {:trigger At(m', w)} ::
          IndexWord(lay, free, w) || w == b + 2 || w == b + 3 || w == p + 1 || w == b + 1 || w == e || w == e + 1
          || At(m', w) == At(m, w))
    && SizeTag(At(m', b + 1)) == e - b && !InUse(At(m', b + 1))
    && BeforeInUse(At(m', b + 1)) == BeforeInUse(At(m, b + 1))
    && SizeTag(At(m', e)) == e - b
    && SizeTag(At(m', e + 1)) == SizeTag(At(m, e + 1)) && InUse(At(m', e + 1)) == InUse(At(m, e + 1))
    && !BeforeInUse(At(m', e + 1))
  }

  lemma JoinedKeeps(m: Mem, m': Mem, lay: Layout, bs: Blocks, pool: Pool, free: map<int, nat>, p: int, q: int, w: int)
    requires Room(m, lay, bs, pool) && FreeBlocks(bs, free) && Used(bs, p)
    requires Joined(m, m', lay, bs, pool, free, p)
    requires q in Released(bs, pool, p) && q != MergedStart(bs, pool, p)
    requires (w == q + 1 && q != MergedEnd(bs, p)) || w == End(bs, q)
          || (w == End(bs, q) + 1 && End(bs, q) != MergedStart(bs, pool, p)) || Payload(bs, q, w)
    ensures At(m', w) == At(m, w)
  {
    ReleasedBlocks(bs, pool, p);
    BlockWords(m, lay, bs, pool, free, q, w);
    var e := MergedEnd(bs, p);
    assert Followed(bs, pool, p) && Followed(bs, pool, End(bs, p));
  }

  lemma JoinedBlock(m: Mem, m': Mem, lay: Layout, bs: Blocks, pool: Pool, free: map<int, nat>, p: int, q: int)
    requires Room(m, lay, bs, pool) && FreeBlocks(bs, free) && Used(bs, p) && Tagged(m, bs, pool)
    requires Joined(m, m', lay, bs, pool, free, p)
    ensures TagOk(m', Released(bs, pool, p), q)
  {
    hide Released, Joined, MergedStart, MergedEnd, FreeBlocks, Room, Disjoint, Bounded, SizeTag, InUse, BeforeInUse;
    RoomTiles(m, lay, bs, pool);
    ReleasedBlocks(bs, pool, p);
    JoinedEnds(m, m', lay, bs, pool, free, p);
    var b, e, rel := MergedStart(bs, pool, p), MergedEnd(bs, p), Released(bs, pool, p);
    if q in rel && q != b {
      assert q in bs && rel[q] == bs[q] && TagOk(m, bs, q);
      if q != e { JoinedKeeps(m, m', lay, bs, pool, free, p, q, q + 1); }
      JoinedKeeps(m, m', lay, bs, pool, free, p, q, End(bs, q));
      if End(bs, q) != b { JoinedKeeps(m, m', lay, bs, pool, free, p, q, End(bs, q) + 1); }
    }
  }

  lemma JoinedEnds(m: Mem, m': Mem, lay: Layout, bs: Blocks, pool: Pool, free: map<int, nat>, p: int)
    requires Tiles(bs, pool) && p in bs && Joined(m, m', lay, bs, pool, free, p)
    ensures var b, e := MergedStart(bs, pool, p), MergedEnd(bs, p);
            && SizeTag(At(m', b + 1)) == e - b && !InUse(At(m', b + 1))
            && BeforeInUse(At(m', b + 1)) == BeforeInUse(At(m, b + 1))
            && SizeTag(At(m', e)) == e - b && !BeforeInUse(At(m', e + 1))
            && SizeTag(At(m', e + 1)) == SizeTag(At(m, e + 1)) && InUse(At(m', e + 1)) == InUse(At(m, e + 1))
  {
  }

  lemma JoinedTagged(m: Mem, m': Mem, lay: Layout, bs: Blocks, pool: Pool, free: map<int, nat>, p: int)
    requires Room(m, lay, bs, pool) && FreeBlocks(bs, free) && Used(bs, p) && Tagged(m, bs, pool)
    requires Joined(m, m', lay, bs, pool, free, p)
    ensures Tagged(m', Released(bs, pool, p), pool)
  {
    forall q ensures TagOk(m', Released(bs, pool, p), q) {
      JoinedBlock(m, m', lay, bs, pool, free, p, q);
    }
    BorderWords(m, lay, bs, pool, free);
    ReleasedBlocks(bs, pool, p);
    assert Followed(bs, pool, p) && Followed(bs, pool, End(bs, p));
  }

  /** Words that are not the pool's: before its index, or after its right border. */
  predicate Outside(lay: Layout, pool: Pool, w: int) {
    w < lay.sl || pool.hi + 2 <= w
  }

  lemma IndexInside(m: Mem, lay: Layout, bs: Blocks, pool: Pool, free: map<int, nat>, w: int)
    requires Room(m, lay, bs, pool) && FreeBlocks(bs, free) && Outside(lay, pool, w)
    ensures !IndexWord(lay, free, w)
  {
    forall r | r in free ensures w != r + 2 && w != r + 3 {
      assert Free(bs, r);
      BlockInside(m, lay, bs, pool, r);
    }
    hide Tiles;
  }

  lemma BlockInside(m: Mem, lay: Layout, bs: Blocks, pool: Pool, q: int)
    requires Room(m, lay, bs, pool) && q in bs
    ensures lay.sl <= q && q + 8 <= End(bs, q) <= pool.hi
  {
    assert Bounded(bs, pool);
  }

  /** Releasing p leaves everything outside of the pool as it is. */
  lemma JoinedOutside(m: Mem, m': Mem, lay: Layout, bs: Blocks, pool: Pool, free: map<int, nat>, p: int, w: int)
    requires Room(m, lay, bs, pool) && FreeBlocks(bs, free) && Used(bs, p)
    requires Joined(m, m', lay, bs, pool, free, p) && Outside(lay, pool, w)
    ensures At(m', w) == At(m, w)
  {
    hide Room, FreeBlocks, IndexWord, SizeTag, InUse, BeforeInUse, MergedStart, MergedEnd, Bounded, Disjoint, Followed;
    RoomTiles(m, lay, bs, pool);
    ReleasedBlocks(bs, pool, p);
    IndexInside(m, lay, bs, pool, free, w);
    BlockInside(m, lay, bs, pool, p);
    BlockInside(m, lay, bs, pool, MergedStart(bs, pool, p));
  }

  /** Releasing p leaves what other clients own as it is. */
  lemma JoinedPayload(m: Mem, m': Mem, lay: Layout, bs: Blocks, pool: Pool, free: map<int, nat>, p: int, q: int, w: int)
    requires Room(m, lay, bs, pool) && FreeBlocks(bs, free) && Used(bs, p)
    requires Joined(m, m', lay, bs, pool, free, p)
    requires Payload(bs, q, w) && q != p
    ensures At(m', w) == At(m, w)
  {
    ReleasedBlocks(bs, pool, p);
    JoinedKeeps(m, m', lay, bs, pool, free, p, q, w);
  }

  /** The memory while p is being released: the chunk from MergedStart on, of `size` words so far, is marked
      free in its header; other than that only the index has changed. */
  ghost predicate Opened(m: Mem, m': Mem, lay: Layout, bs: Blocks, pool: Pool, free: map<int, nat>, p: int, size: int)
    requires Tiles(bs, pool) && p in bs
  {
    var b := MergedStart(bs, pool, p);
    && |m'| == |m|
    && (forall w {:trigger At(m', w)} ::
          IndexWord(lay, free, w) || w == p + 1 || w == b + 1 || At(m', w) == At(m, w))
    && SizeTag(At(m', b + 1)) == size && !InUse(At(m', b + 1))
    && BeforeInUse(At(m', b + 1)) == BeforeInUse(At(m, b + 1))
  }

  /** JOIN_CHUNKS: the header of chunk b takes over the size of the second chunk. */
  function JoinedHeader(m: Mem, b: int, second: int): Mem {
    Put(m, b + 1, SetSize(At(m, b + 1), SizeTag(At(m, b + 1)) + SizeTag(At(m, second + 1))))
  }

  lemma OpenedJoin(m: Mem, m2: Mem, lay: Layout, bs: Blocks, pool: Pool, free: map<int, nat>, p: int, second: int,
                   size: int)
    requires Room(m, lay, bs, pool) && FreeBlocks(bs, free) && p in bs
    requires |m2| == |m|
    requires forall w {:trigger At(m2, w)} ::
               IndexWord(lay, free, w) || w == p + 1 || w == MergedStart(bs, pool, p) + 1 || At(m2, w) == At(m, w)
    requires var tag, b := At(m2, MergedStart(bs, pool, p) + 1), MergedStart(bs, pool, p);
             && !InUse(tag) && BeforeInUse(tag) == BeforeInUse(At(m, b + 1))
             && SizeTag(tag) + SizeTag(At(m2, second + 1)) == size
    ensures Opened(m, JoinedHeader(m2, MergedStart(bs, pool, p), second), lay, bs, pool, free, p, size)
    ensures !IndexWord(lay, free, MergedStart(bs, pool, p) + 1)
  {
    var b := MergedStart(bs, pool, p);
    TagFields(At(m2, b + 1), SizeTag(At(m2, b + 1)) + SizeTag(At(m2, second + 1)));
    BlockWords(m, lay, bs, pool, free, b, b + 1);
    assert 0 <= b + 1 < |m|;
  }

  lemma HeaderKeepsGrid(m: Mem, fl: nat, lay: Layout, lists: Lists, free: map<int, nat>, b: int, second: int)
    requires GridOk(m, fl, lay, lists, free) && !IndexWord(lay, free, b + 1)
    ensures GridOk(JoinedHeader(m, b, second), fl, lay, lists, free)
  {
    hide GridOk, IndexWord;
    GridFrame(m, JoinedHeader(m, b, second), fl, lay, lists, free);
  }

  ghost predicate Within(small: map<int, nat>, large: map<int, nat>) {
    forall p | p in small :: p in large
  }

  /** Opening and then inserting is joining. */
  lemma OpenedInserted(m: Mem, m1: Mem, m2: Mem, lay: Layout, bs: Blocks, pool: Pool, free: map<int, nat>,
                       rest: map<int, nat>, p: int, k: nat)
    requires Room(m, lay, bs, pool) && FreeBlocks(bs, free) && p in bs && Within(rest, free)
    requires Opened(m, m1, lay, bs, pool, free, p, MergedEnd(bs, p) - MergedStart(bs, pool, p))
    requires OnlyIndexAndTags(m1, m2, lay, rest[MergedStart(bs, pool, p) := k], MergedStart(bs, pool, p))
    ensures Joined(m, m2, lay, bs, pool, free, p)
  {
    hide SizeTag, InUse, BeforeInUse, ClearInUse, ClearBeforeInUse, SetInUse, SetBeforeInUse, SetSize, Room, FreeBlocks,
      Tiles, MergedStart, MergedEnd;
    RoomTiles(m, lay, bs, pool);
    ReleasedBlocks(bs, pool, p);
    var b, e := MergedStart(bs, pool, p), MergedEnd(bs, p);
    TagFields(At(m1, b + 1), 0);
    TagFields(At(m1, e + 1), 0);
    EndIsNoIndex(m, lay, bs, pool, free, p);
    assert At(m1, e + 1) == At(m, e + 1);
  }

  lemma EndIsNoIndex(m: Mem, lay: Layout, bs: Blocks, pool: Pool, free: map<int, nat>, p: int)
    requires Room(m, lay, bs, pool) && FreeBlocks(bs, free) && p in bs
    ensures !IndexWord(lay, free, MergedEnd(bs, p) + 1)
    ensures MergedStart(bs, pool, p) + 8 <= MergedEnd(bs, p)
  {
    ReleasedBlocks(bs, pool, p);
    if Free(bs, End(bs, p)) {
      BlockWords(m, lay, bs, pool, free, End(bs, p), MergedEnd(bs, p) + 1);
    } else {
      BlockWords(m, lay, bs, pool, free, p, MergedEnd(bs, p) + 1);
    }
  }

  // ---------------------------------------------------------------- taking

  /** The memory after p was taken whole. */
  ghost predicate TookWhole(m: Mem, m': Mem, lay: Layout, bs: Blocks, free: map<int, nat>, p: int)
    requires p in bs
  {
    var e := End(bs, p);
    && |m'| == |m|
    && (forall w {:trigger At(m', w)} ::
          IndexWord(lay, free, w) || w == p + 1 || w == e + 1 || At(m', w) == At(m, w))
    && At(m', p + 1) == SetInUse(At(m, p + 1))
    && At(m', e + 1) == SetBeforeInUse(At(m, e + 1))
  }

  lemma TookWholeBlock(m: Mem, m': Mem, lay: Layout, bs: Blocks, pool: Pool, free: map<int, nat>, p: int, q: int)
    requires Room(m, lay, bs, pool) && FreeBlocks(bs, free) && Free(bs, p) && Tagged(m, bs, pool)
    requires TookWhole(m, m', lay, bs, free, p)
    ensures TagOk(m', bs[p := Block(bs[p].size, true)], q)
  {
    hide *;
    FreeIsBlock(bs, p);
    if q == p {
      TookWholeItself(m, m', lay, bs, pool, free, p);
    } else {
      if q in bs {
        TookWholeOther(m, m', lay, bs, pool, free, p, q);
      }
      TagApart(m', bs, p, Block(bs[p].size, true), q);
    }
  }

  lemma FreeIsBlock(bs: Blocks, p: int)
    requires Free(bs, p)
    ensures p in bs && !bs[p].used
  {
  }

  lemma TookWholeItself(m: Mem, m': Mem, lay: Layout, bs: Blocks, pool: Pool, free: map<int, nat>, p: int)
    requires Tagged(m, bs, pool) && p in bs && !bs[p].used && TookWhole(m, m', lay, bs, free, p)
    ensures TagOk(m', bs[p := Block(bs[p].size, true)], p)
  {
    hide SizeTag, InUse, BeforeInUse, SetInUse, SetBeforeInUse, ClearInUse, ClearBeforeInUse, SetSize, IndexWord, At,
      Tagged;
    TagAt(m, bs, pool, p);
    TagFields(At(m, p + 1), 0);
    TagFields(At(m, End(bs, p) + 1), 0);
  }

  lemma TagApart(m: Mem, bs: Blocks, p: int, b: Block, q: int)
    requires q != p && (q in bs ==> TagOk(m, bs, q))
    ensures TagOk(m, bs[p := b], q)
  {
    hide SizeTag, InUse, BeforeInUse, At;
  }

  lemma TookWholeOther(m: Mem, m': Mem, lay: Layout, bs: Blocks, pool: Pool, free: map<int, nat>, p: int, q: int)
    requires Room(m, lay, bs, pool) && FreeBlocks(bs, free) && p in bs && Tagged(m, bs, pool)
    requires TookWhole(m, m', lay, bs, free, p) && q in bs && q != p
    ensures TagOk(m', bs, q)
  {
    hide *;
    Apart(m, lay, bs, pool, p, q);
    TagAt(m, bs, pool, q);
    TookWholeWord(m, m', lay, bs, pool, free, p, q, q + 1);
    TookWholeWord(m, m', lay, bs, pool, free, p, q, End(bs, q));
    TookWholeWord(m, m', lay, bs, pool, free, p, q, End(bs, q) + 1);
    SameTag(m, m', bs, q);
  }

  lemma TookWholeWord(m: Mem, m': Mem, lay: Layout, bs: Blocks, pool: Pool, free: map<int, nat>, p: int, q: int,
                      w: int)
    requires Room(m, lay, bs, pool) && FreeBlocks(bs, free) && p in bs && TookWhole(m, m', lay, bs, free, p)
    requires q in bs && (w == q + 1 || w == End(bs, q) || w == End(bs, q) + 1)
    ensures SizeTag(At(m', w)) == SizeTag(At(m, w))
    ensures w != p + 1 ==> InUse(At(m', w)) == InUse(At(m, w))
    ensures w != End(bs, p) + 1 ==> BeforeInUse(At(m', w)) == BeforeInUse(At(m, w))
  {
    hide Room, FreeBlocks, SizeTag, InUse, BeforeInUse, SetInUse, SetBeforeInUse, ClearInUse, ClearBeforeInUse, SetSize,
      IndexWord, At;
    BlockWords(m, lay, bs, pool, free, q, w);
    TagFields(At(m, p + 1), 0);
    TagFields(At(m, End(bs, p) + 1), 0);
  }

  lemma TagAt(m: Mem, bs: Blocks, pool: Pool, q: int)
    requires Tagged(m, bs, pool)
    ensures TagOk(m, bs, q)
  {
    hide TagOk;
  }

  lemma SameTag(m: Mem, m': Mem, bs: Blocks, q: int)
    requires q in bs && TagOk(m, bs, q)
    requires SizeTag(At(m', q + 1)) == SizeTag(At(m, q + 1)) && InUse(At(m', q + 1)) == InUse(At(m, q + 1))
    requires SizeTag(At(m', End(bs, q))) == SizeTag(At(m, End(bs, q)))
    requires BeforeInUse(At(m', End(bs, q) + 1)) == BeforeInUse(At(m, End(bs, q) + 1))
    ensures TagOk(m', bs, q)
  {
    hide SizeTag, InUse, BeforeInUse, At, End;
  }

  /** Two blocks of a pool lie one after the other. */
  lemma Apart(m: Mem, lay: Layout, bs: Blocks, pool: Pool, p: int, q: int)
    requires Room(m, lay, bs, pool) && p in bs && q in bs && p != q
    ensures p + 8 <= End(bs, p) && q + 8 <= End(bs, q) && (End(bs, q) <= p || End(bs, p) <= q)
  {
  }

  lemma TookWholeTagged(m: Mem, m': Mem, lay: Layout, bs: Blocks, pool: Pool, free: map<int, nat>, p: int)
    requires Room(m, lay, bs, pool) && FreeBlocks(bs, free) && Free(bs, p) && Tagged(m, bs, pool)
    requires TookWhole(m, m', lay, bs, free, p)
    ensures Tagged(m', bs[p := Block(bs[p].size, true)], pool)
  {
    var taken := bs[p := Block(bs[p].size, true)];
    hide Room, TookWhole, FreeBlocks, SizeTag, InUse, BeforeInUse, TagOk;
    TookWholeBorders(m, m', lay, bs, pool, free, p);
    forall q ensures TagOk(m', taken, q) {
      TookWholeBlock(m, m', lay, bs, pool, free, p, q);
    }
  }

  lemma TookWholeBorders(m: Mem, m': Mem, lay: Layout, bs: Blocks, pool: Pool, free: map<int, nat>, p: int)
    requires Room(m, lay, bs, pool) && FreeBlocks(bs, free) && p in bs && Tagged(m, bs, pool)
    requires TookWhole(m, m', lay, bs, free, p)
    ensures BeforeInUse(At(m', pool.lo + 1)) && SizeTag(At(m', pool.hi + 1)) == 1 && InUse(At(m', pool.hi + 1))
  {
    hide Room, FreeBlocks, SizeTag, InUse, BeforeInUse, SetInUse, SetBeforeInUse, ClearInUse, ClearBeforeInUse, SetSize,
      IndexWord, TagOk, At;
    BorderWords(m, lay, bs, pool, free);
    TagFields(At(m, p + 1), 0);
    TagFields(At(m, End(bs, p) + 1), 0);
  }

  /** The memory after p was cut at `words` and its first part taken. */
  ghost predicate TookFirst(m: Mem, m': Mem, lay: Layout, bs: Blocks, free: map<int, nat>, p: int, words: nat)
    requires p in bs
  {
    var r, e := p + words, End(bs, p);
    && |m'| == |m|
    && (forall w {:trigger At(m', w)} ::
          IndexWord(lay, free, w) || w == r + 2 || w == r + 3 || w == p + 1 || w == r || w == r + 1
          || w == e || w == e + 1 || At(m', w) == At(m, w))
    && SizeTag(At(m', p + 1)) == words && InUse(At(m', p + 1))
    && BeforeInUse(At(m', p + 1)) == BeforeInUse(At(m, p + 1))
    && SizeTag(At(m', r + 1)) == e - r && !InUse(At(m', r + 1)) && BeforeInUse(At(m', r + 1))
    && SizeTag(At(m', e)) == e - r
    && SizeTag(At(m', e + 1)) == SizeTag(At(m, e + 1)) && InUse(At(m', e + 1)) == InUse(At(m, e + 1))
    && !BeforeInUse(At(m', e + 1))
  }

  lemma TookFirstBlock(m: Mem, m': Mem, lay: Layout, bs: Blocks, pool: Pool, free: map<int, nat>,
                       p: int, words: nat, q: int)
    requires Room(m, lay, bs, pool) && FreeBlocks(bs, free) && Free(bs, p) && Tagged(m, bs, pool)
    requires 8 <= words && words + 8 <= bs[p].size
    requires TookFirst(m, m', lay, bs, free, p, words)
    ensures TagOk(m', Cut(bs, p, Block(words, true), Block(bs[p].size - words, false)), q)
  {
    hide Room, FreeBlocks, Tagged, Tiles;
    if q in bs && q != p && q != p + words {
      TookFirstOther(m, m', lay, bs, pool, free, p, words, q);
    }
  }

  lemma TookFirstOther(m: Mem, m': Mem, lay: Layout, bs: Blocks, pool: Pool, free: map<int, nat>,
                       p: int, words: nat, q: int)
    requires Room(m, lay, bs, pool) && FreeBlocks(bs, free) && Free(bs, p) && Tagged(m, bs, pool)
    requires 8 <= words && words + 8 <= bs[p].size && q in bs && q != p
    requires TookFirst(m, m', lay, bs, free, p, words)
    ensures TagOk(m', bs, q)
  {
    hide Room, FreeBlocks, Bounded;
    RoomTiles(m, lay, bs, pool);
    assert TagOk(m, bs, q) && TagOk(m, bs, p);
    BlockWords(m, lay, bs, pool, free, q, q + 1);
    BlockWords(m, lay, bs, pool, free, q, End(bs, q));
    BlockWords(m, lay, bs, pool, free, q, End(bs, q) + 1);
    assert q < p ==> End(bs, q) <= p;
    assert p < q ==> End(bs, p) <= q;
  }

  lemma TookFirstTagged(m: Mem, m': Mem, lay: Layout, bs: Blocks, pool: Pool, free: map<int, nat>, p: int, words: nat)
    requires Room(m, lay, bs, pool) && FreeBlocks(bs, free) && Free(bs, p) && Tagged(m, bs, pool)
    requires 8 <= words && words + 8 <= bs[p].size
    requires TookFirst(m, m', lay, bs, free, p, words)
    ensures Tagged(m', Cut(bs, p, Block(words, true), Block(bs[p].size - words, false)), pool)
  {
    var cut := Cut(bs, p, Block(words, true), Block(bs[p].size - words, false));
    forall q ensures TagOk(m', cut, q) {
      TookFirstBlock(m, m', lay, bs, pool, free, p, words, q);
    }
    BorderWords(m, lay, bs, pool, free);
    assert Followed(bs, pool, p);
  }

  /** Taking p, whole or in part, leaves what clients own as it is. */
  lemma TookPayload(m: Mem, m': Mem, lay: Layout, bs: Blocks, pool: Pool, free: map<int, nat>, p: int, words: nat,
                    q: int, w: int)
    requires Room(m, lay, bs, pool) && FreeBlocks(bs, free) && Free(bs, p) && Payload(bs, q, w)
    requires TookWhole(m, m', lay, bs, free, p)
          || (8 <= words && words + 8 <= bs[p].size && TookFirst(m, m', lay, bs, free, p, words))
    ensures At(m', w) == At(m, w)
  {
    BlockWords(m, lay, bs, pool, free, q, w);
    assert Followed(bs, pool, p);
  }

  lemma TookOutside(m: Mem, m': Mem, lay: Layout, bs: Blocks, pool: Pool, free: map<int, nat>, p: int, words: nat,
                    w: int)
    requires Room(m, lay, bs, pool) && FreeBlocks(bs, free) && Free(bs, p) && Outside(lay, pool, w)
    requires TookWhole(m, m', lay, bs, free, p)
          || (8 <= words && words + 8 <= bs[p].size && TookFirst(m, m', lay, bs, free, p, words))
    ensures At(m', w) == At(m, w)
  {
    hide Room, FreeBlocks, IndexWord, SizeTag, InUse, BeforeInUse, SetInUse, SetBeforeInUse;
    IndexInside(m, lay, bs, pool, free, w);
    BlockInside(m, lay, bs, pool, p);
  }
}
