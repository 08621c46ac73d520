/** A memory pool cut into blocks, as both allocators see it (lib/mm/gma.h, lib/mm/ff_simple.h).

    Addresses and sizes count words. The pool is [lo, hi); the border chunks on both sides are always in
    use and are not blocks. */
module Tiling {

  datatype Block = Block(size: nat, used: bool)

  type Blocks = map<int, Block>

  /** The pool as a parameter: its bounds and the least size of a block. */
  datatype Pool = Pool(lo: nat, hi: nat, min: nat)

  predicate Used(bs: Blocks, p: int) {
    p in bs && bs[p].used
  }

  predicate Free(bs: Blocks, p: int) {
    p in bs && !bs[p].used
  }

  function End(bs: Blocks, p: int): int
    requires p in bs
  {
    p + bs[p].size
  }

  ghost predicate Bounded(bs: Blocks, pool: Pool) {
    forall p | p in bs :: pool.lo <= p && pool.min <= bs[p].size && End(bs, p) <= pool.hi
  }

  ghost predicate Disjoint(bs: Blocks) {
    forall p, q | p in bs && q in bs && p < q :: End(bs, p) <= q
  }

  /** Block p is followed by another block or by the right border. */
  predicate Followed(bs: Blocks, pool: Pool, p: int) {
    p in bs ==> End(bs, p) == pool.hi || End(bs, p) in bs
  }

  /** Blocks lie in the pool, do not overlap, and leave no gap. */
  ghost predicate Tiles(bs: Blocks, pool: Pool) {
    && 0 < pool.min
    && pool.lo in bs
    && Bounded(bs, pool)
    && Disjoint(bs)
    && (forall p {:trigger Followed(bs, pool, p)} :: Followed(bs, pool, p))
  }

  /** If block p is free, the next one is not. */
  predicate Settled(bs: Blocks, p: int) {
    Free(bs, p) ==> !Free(bs, End(bs, p))
  }

  /** No two neighbours are both free. */
  ghost predicate Coalesced(bs: Blocks) {
    forall p {:trigger Settled(bs, p)} :: Settled(bs, p)
  }

  // ---------------------------------------------------------------- neighbours

  /** The block that ends where p starts, searched from block q. */
  ghost function BeforeFrom(bs: Blocks, pool: Pool, p: int, q: int): (b: int)
    requires Tiles(bs, pool) && p in bs && q in bs && q < p
    ensures b in bs && b < p && End(bs, b) == p
    decreases p - q
  {
    assert Followed(bs, pool, q);
    if End(bs, q) == p then q else BeforeFrom(bs, pool, p, End(bs, q))
  }

  /** The block just before p. */
  ghost function Before(bs: Blocks, pool: Pool, p: int): (b: int)
    requires Tiles(bs, pool) && p in bs && p != pool.lo
    ensures b in bs && b < p && End(bs, b) == p
  {
    BeforeFrom(bs, pool, p, pool.lo)
  }

  /** Two blocks that end at the same word are one. */
  lemma BeforeUnique(bs: Blocks, pool: Pool, a: int, b: int)
    requires Tiles(bs, pool) && a in bs && b in bs && End(bs, a) == End(bs, b)
    ensures a == b
  {
  }

  // ---------------------------------------------------------------- exact cover and conservation

  /** The block that holds word w, searched from block q. */
  ghost function CoverFrom(bs: Blocks, pool: Pool, w: int, q: int): (p: int)
    requires Tiles(bs, pool) && q in bs && q <= w < pool.hi
    ensures p in bs && p <= w < End(bs, p)
    decreases w - q
  {
    assert Followed(bs, pool, q);
    if w < End(bs, q) then q else CoverFrom(bs, pool, w, End(bs, q))
  }

  /** Every word of the pool lies in one block, and in one only. */
  lemma ExactCover(bs: Blocks, pool: Pool, w: int)
    requires Tiles(bs, pool) && pool.lo <= w < pool.hi
    ensures exists p :: p in bs && p <= w < End(bs, p)
    ensures forall p, q | p in bs && q in bs && p <= w < End(bs, p) && q <= w < End(bs, q) :: p == q
  {
    var p := CoverFrom(bs, pool, w, pool.lo);
    assert p in bs && p <= w < End(bs, p);
  }

  /** Words held by the used (or by the free) blocks from block q on. */
  ghost function WordsFrom(bs: Blocks, pool: Pool, used: bool, q: int): nat
    requires Tiles(bs, pool) && (q in bs || q == pool.hi)
    decreases pool.hi - q
  {
    assert Followed(bs, pool, q);
    if q == pool.hi then 0
    else (if bs[q].used == used then bs[q].size else 0) + WordsFrom(bs, pool, used, End(bs, q))
  }

  /** Used and free words always add up to the pool. */
  lemma {:induction false} Conservation(bs: Blocks, pool: Pool, q: int)
    requires Tiles(bs, pool) && (q in bs || q == pool.hi)
    ensures WordsFrom(bs, pool, true, q) + WordsFrom(bs, pool, false, q) == pool.hi - q
    decreases pool.hi - q
  {
    if q != pool.hi {
      assert Followed(bs, pool, q);
      Conservation(bs, pool, End(bs, q));
    }
  }

  /** With nothing in use, coalescing has left a single block that is the whole pool. */
  lemma AllFreeIsOneBlock(bs: Blocks, pool: Pool)
    requires Tiles(bs, pool) && Coalesced(bs)
    requires forall p | p in bs :: !bs[p].used
    ensures bs == map[pool.lo := Block(pool.hi - pool.lo, false)]
  {
    assert Followed(bs, pool, pool.lo) && Settled(bs, pool.lo);
    assert End(bs, pool.lo) == pool.hi;
    forall p | p in bs ensures p == pool.lo {
      assert !(p > pool.lo);
    }
  }

  // ---------------------------------------------------------------- cutting a block in two

  function Cut(bs: Blocks, p: int, first: Block, second: Block): Blocks
  {
    bs[p := first][p + first.size := second]
  }

  lemma CutTiles(bs: Blocks, pool: Pool, p: int, first: Block, second: Block)
    requires Tiles(bs, pool) && p in bs
    requires first.size + second.size == bs[p].size && pool.min <= first.size && pool.min <= second.size
    ensures Tiles(Cut(bs, p, first, second), pool)
    ensures p + first.size !in bs
  {
    hide Bounded, Disjoint, Cut, Followed;
    CutBounded(bs, pool, p, first, second);
    CutDisjoint(bs, pool, p, first, second);
    forall r ensures Followed(Cut(bs, p, first, second), pool, r) {
      assert Followed(bs, pool, r) && Followed(bs, pool, p);
      CutFollowed(bs, pool, p, first, second, r);
    }
  }

  lemma CutBounded(bs: Blocks, pool: Pool, p: int, first: Block, second: Block)
    requires Bounded(bs, pool) && p in bs
    requires first.size + second.size == bs[p].size && pool.min <= first.size && pool.min <= second.size
    ensures Bounded(Cut(bs, p, first, second), pool) && forall q | q in bs :: q in Cut(bs, p, first, second)
  {
  }

  lemma CutFollowed(bs: Blocks, pool: Pool, p: int, first: Block, second: Block, r: int)
    requires p in bs && Followed(bs, pool, r) && Followed(bs, pool, p)
    requires first.size + second.size == bs[p].size && p + first.size !in bs
    ensures Followed(Cut(bs, p, first, second), pool, r)
  {
  }

  lemma CutDisjoint(bs: Blocks, pool: Pool, p: int, first: Block, second: Block)
    requires Tiles(bs, pool) && p in bs
    requires first.size + second.size == bs[p].size && pool.min <= first.size && pool.min <= second.size
    ensures Disjoint(Cut(bs, p, first, second)) && p + first.size !in bs
  {
  }

  lemma CutCoalesced(bs: Blocks, pool: Pool, p: int, first: Block, second: Block)
    requires Tiles(bs, pool) && Coalesced(bs) && Free(bs, p)
    requires first.size + second.size == bs[p].size && pool.min <= first.size && pool.min <= second.size
    requires first.used != second.used
    ensures Coalesced(Cut(bs, p, first, second))
  {
    hide Cut, Settled, Bounded, Disjoint;
    CutDisjoint(bs, pool, p, first, second);
    forall r ensures Settled(Cut(bs, p, first, second), r) {
      assert Settled(bs, r) && Settled(bs, p);
      EndsElsewhere(bs, pool, p, first.size, r);
      CutSettled(bs, p, first, second, r);
    }
  }

  /** No other block ends inside block p. */
  lemma EndsElsewhere(bs: Blocks, pool: Pool, p: int, n: nat, r: int)
    requires Tiles(bs, pool) && p in bs && pool.min <= n < bs[p].size
    ensures r in bs && r != p ==> End(bs, r) != p + n
  {
  }

  lemma CutSettled(bs: Blocks, p: int, first: Block, second: Block, r: int)
    requires Free(bs, p) && Settled(bs, r) && Settled(bs, p)
    requires r in bs && r != p ==> End(bs, r) != p + first.size
    requires first.size + second.size == bs[p].size && p + first.size !in bs && first.used != second.used
    requires 0 < first.size && 0 < second.size
    ensures Settled(Cut(bs, p, first, second), r)
  {
  }

  /** Taking a whole free block. */
  lemma TakeTiles(bs: Blocks, pool: Pool, p: int)
    requires Tiles(bs, pool) && Coalesced(bs) && p in bs
    ensures Tiles(bs[p := Block(bs[p].size, true)], pool)
    ensures Coalesced(bs[p := Block(bs[p].size, true)])
  {
    var taken := bs[p := Block(bs[p].size, true)];
    forall r ensures Followed(taken, pool, r) {
      assert Followed(bs, pool, r);
    }
    forall r ensures Settled(taken, r) {
      assert Settled(bs, r);
    }
  }

  // ---------------------------------------------------------------- joining on release

  /** First word of the free block that releasing p produces. */
  ghost function MergedStart(bs: Blocks, pool: Pool, p: int): (b: int)
    requires Tiles(bs, pool) && p in bs
    ensures b in bs && b <= p && (b < p ==> Free(bs, b) && End(bs, b) == p)
    ensures b == p ==> p == pool.lo || Used(bs, Before(bs, pool, p))
  {
    if p != pool.lo && Free(bs, Before(bs, pool, p)) then Before(bs, pool, p) else p
  }

  /** The word after it. */
  ghost function MergedEnd(bs: Blocks, p: int): int
    requires p in bs
  {
    if Free(bs, End(bs, p)) then End(bs, End(bs, p)) else End(bs, p)
  }

  /** The blocks after p is released and joined with free neighbours. */
  ghost function Released(bs: Blocks, pool: Pool, p: int): Blocks
    requires Tiles(bs, pool) && p in bs
  {
    var b := MergedStart(bs, pool, p);
    var gone := if Free(bs, End(bs, p)) then {p, End(bs, p)} else {p};
    var e := MergedEnd(bs, p);
    if e < b then bs else (bs - gone)[b := Block(e - b, false)]
  }

  /** What remains of the other blocks. */
  lemma ReleasedBlocks(bs: Blocks, pool: Pool, p: int)
    requires Tiles(bs, pool) && p in bs
    ensures var b, e, rel := MergedStart(bs, pool, p), MergedEnd(bs, p), Released(bs, pool, p);
            && b <= p < e <= pool.hi
            && rel.Keys == (bs.Keys - {p, End(bs, p)}) + {b} + (if Used(bs, End(bs, p)) then {End(bs, p)} else {})
            && rel[b] == Block(e - b, false)
            && (forall q | q in rel && q != b :: q in bs && rel[q] == bs[q])
            && (forall q | q in rel && q != b :: e <= q || End(bs, q) <= b)
  {
  }

  lemma ReleasedDisjoint(bs: Blocks, pool: Pool, p: int)
    requires Tiles(bs, pool) && p in bs
    ensures Bounded(Released(bs, pool, p), pool) && Disjoint(Released(bs, pool, p))
  {
    ReleasedBlocks(bs, pool, p);
  }

  lemma ReleasedFollowed(bs: Blocks, pool: Pool, p: int, q: int)
    requires Tiles(bs, pool) && p in bs
    ensures Followed(Released(bs, pool, p), pool, q)
  {
    ReleasedBlocks(bs, pool, p);
    var b := MergedStart(bs, pool, p);
    assert Followed(bs, pool, p) && Followed(bs, pool, End(bs, p)) && Followed(bs, pool, q);
    if q in bs && q != b && End(bs, q) == p && b < p {
      BeforeUnique(bs, pool, q, b);
    }
    if q in bs && q != b && End(bs, q) == End(bs, p) {
      BeforeUnique(bs, pool, q, p);
    }
    hide Tiles, Bounded, Disjoint, MergedStart, Released;
  }

  lemma ReleasedTiles(bs: Blocks, pool: Pool, p: int)
    requires Tiles(bs, pool) && p in bs
    ensures Tiles(Released(bs, pool, p), pool)
  {
    hide Bounded, Disjoint, Followed, Released, MergedStart, MergedEnd;
    ReleasedBlocks(bs, pool, p);
    ReleasedDisjoint(bs, pool, p);
    forall q ensures Followed(Released(bs, pool, p), pool, q) {
      ReleasedFollowed(bs, pool, p, q);
    }
  }

  lemma ReleasedCoalesced(bs: Blocks, pool: Pool, p: int)
    requires Tiles(bs, pool) && Coalesced(bs) && Used(bs, p)
    ensures Coalesced(Released(bs, pool, p))
  {
    ReleasedBlocks(bs, pool, p);
    var b, e, rel := MergedStart(bs, pool, p), MergedEnd(bs, p), Released(bs, pool, p);
    forall q ensures Settled(rel, q) {
      assert Settled(bs, q) && Settled(bs, End(bs, p));
      if Free(rel, q) && q != b && End(bs, q) == b == p && p != pool.lo {
        BeforeUnique(bs, pool, q, Before(bs, pool, p));
      }
    }
  }

  /** Releasing the first part of a block that was cut brings the block back. */
  lemma ReleaseUndoesCut(bs: Blocks, pool: Pool, p: int, words: nat)
    requires Free(bs, p) && 0 < words < bs[p].size && p + words !in bs
    requires var cut := Cut(bs, p, Block(words, true), Block(bs[p].size - words, false));
             Tiles(cut, pool) && p in cut && MergedStart(cut, pool, p) == p
    ensures var cut := Cut(bs, p, Block(words, true), Block(bs[p].size - words, false));
            && Used(cut, p) && End(cut, p) == p + words
            && Free(cut, p + words) && cut[p + words].size == bs[p].size - words
            && MergedEnd(cut, p) == p + bs[p].size && Released(cut, pool, p) == bs
  {
    hide Tiles, MergedStart;
  }

  /** Releasing the last part of a block that was cut brings the block back. */
  lemma ReleaseUndoesTail(bs: Blocks, pool: Pool, p: int, words: nat)
    requires Free(bs, p) && Settled(bs, p) && 0 < words < bs[p].size && p + (bs[p].size - words) !in bs
    requires Tiles(Cut(bs, p, Block(bs[p].size - words, false), Block(words, true)), pool)
    ensures var q := p + (bs[p].size - words);
            var cut := Cut(bs, p, Block(bs[p].size - words, false), Block(words, true));
            && Used(cut, q) && End(cut, q) == End(bs, p) && !Free(cut, End(cut, q))
            && MergedStart(cut, pool, q) == p && Released(cut, pool, q) == bs
  {
    var cut, q := Cut(bs, p, Block(bs[p].size - words, false), Block(words, true)), p + (bs[p].size - words);
    BoundedAt(cut, pool, p);
    hide Tiles;
    BeforeUnique(cut, pool, p, Before(cut, pool, q));
  }

  lemma BoundedAt(bs: Blocks, pool: Pool, p: int)
    requires Tiles(bs, pool) && p in bs
    ensures pool.lo <= p
  {
    assert Bounded(bs, pool);
  }

  /** Releasing a block that was taken whole brings it back. */
  lemma ReleaseUndoesTake(bs: Blocks, pool: Pool, p: int)
    requires Tiles(bs, pool) && Coalesced(bs) && Free(bs, p)
    requires var taken := bs[p := Block(bs[p].size, true)]; Tiles(taken, pool) && MergedStart(taken, pool, p) == p
    ensures var taken := bs[p := Block(bs[p].size, true)];
            && Used(taken, p) && !Free(taken, End(taken, p))
            && MergedEnd(taken, p) == p + bs[p].size && Released(taken, pool, p) == bs
  {
    assert Settled(bs, p) && Followed(bs, pool, p);
    hide Tiles, MergedStart;
  }
}
