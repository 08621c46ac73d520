/** Boundary tags of GMA chunks (lib/mm/gma.h:106-168, 262-308): size, C (in use) and B (chunk before in
    use) share a word, and the word before a chunk repeats the size of a free chunk before it. */
module GmaTags {
  import opened Tiling
  import opened Words

  /** GET_CHUNK_SIZE, in words */
  function SizeTag(w: nat): nat { w / 4 }

  /** GET_CHUNK_INUSE */
  predicate InUse(w: nat) { w / 2 % 2 == 1 }

  /** GET_CHUNK_BINUSE */
  predicate BeforeInUse(w: nat) { w % 2 == 1 }

  function SetInUse(w: nat): nat { if InUse(w) then w else w + 2 }

  function ClearInUse(w: nat): nat { if InUse(w) then w - 2 else w }

  function SetBeforeInUse(w: nat): nat { if BeforeInUse(w) then w else w + 1 }

  function ClearBeforeInUse(w: nat): nat { if BeforeInUse(w) then w - 1 else w }

  /** SET_CHUNK_SIZE keeps both flags. */
  function SetSize(w: nat, words: nat): nat { 4 * words + w % 4 }

  lemma Digits(w: nat, size: nat, c: nat, b: nat)
    requires c < 2 && b < 2 && w == 4 * size + 2 * c + b
    ensures w / 4 == size && w / 2 % 2 == c && w % 2 == b
  {
    assert w / 2 == 2 * size + c;
  }

  /** The setters change their own field only. */
  lemma TagFields(w: nat, words: nat)
    ensures SizeTag(SetInUse(w)) == SizeTag(w) && InUse(SetInUse(w)) && BeforeInUse(SetInUse(w)) == BeforeInUse(w)
    ensures SizeTag(ClearInUse(w)) == SizeTag(w) && !InUse(ClearInUse(w))
    ensures BeforeInUse(ClearInUse(w)) == BeforeInUse(w)
    ensures SizeTag(SetBeforeInUse(w)) == SizeTag(w) && InUse(SetBeforeInUse(w)) == InUse(w)
    ensures BeforeInUse(SetBeforeInUse(w))
    ensures SizeTag(ClearBeforeInUse(w)) == SizeTag(w) && InUse(ClearBeforeInUse(w)) == InUse(w)
    ensures !BeforeInUse(ClearBeforeInUse(w))
    ensures SizeTag(SetSize(w, words)) == words && InUse(SetSize(w, words)) == InUse(w)
    ensures BeforeInUse(SetSize(w, words)) == BeforeInUse(w)
  {
    var size, c, b := w / 4, w / 2 % 2, w % 2;
    assert w == 4 * size + 2 * c + b;
    Digits(SetInUse(w), size, 1, b);
    Digits(ClearInUse(w), size, 0, b);
    Digits(SetBeforeInUse(w), size, c, 1);
    Digits(ClearBeforeInUse(w), size, c, 0);
    Digits(SetSize(w, words), words, c, b);
  }

  /** The tags of block p, including what the word after it says about p. */
  predicate TagOk(m: Mem, bs: Blocks, p: int) {
    p in bs ==>
      && SizeTag(At(m, p + 1)) == bs[p].size
      && InUse(At(m, p + 1)) == bs[p].used
      && BeforeInUse(At(m, End(bs, p) + 1)) == bs[p].used
      && (!bs[p].used ==> SizeTag(At(m, End(bs, p))) == bs[p].size)
  }

  /** All tags, and the two borders that always count as chunks in use. */
  ghost predicate Tagged(m: Mem, bs: Blocks, pool: Pool) {
    && (forall p {:trigger TagOk(m, bs, p)} :: TagOk(m, bs, p))
    && BeforeInUse(At(m, pool.lo + 1))
    && SizeTag(At(m, pool.hi + 1)) == 1 && InUse(At(m, pool.hi + 1))
  }

  /** The tag part of insert_chunk_in_list: C cleared, size repeated at the end, B of the chunk after cleared. */
  function MarkedFree(m: Mem, p: nat): Mem {
    var tag := ClearInUse(At(m, p + 1));
    var e := p + SizeTag(tag);
    Put(Put(Put(m, p + 1, tag), e, tag), e + 1, ClearBeforeInUse(At(m, e + 1)))
  }

  /** What the tags say about the neighbours of p is true. */
  lemma NeighbourTags(m: Mem, bs: Blocks, pool: Pool, p: int)
    requires Tiles(bs, pool) && Tagged(m, bs, pool) && p in bs
    ensures BeforeInUse(At(m, p + 1)) <==> MergedStart(bs, pool, p) == p
    ensures !BeforeInUse(At(m, p + 1)) ==>
              var b := MergedStart(bs, pool, p);
              b in bs && b == p - SizeTag(At(m, p)) && SizeTag(At(m, b + 1)) == bs[b].size && !InUse(At(m, b + 1))
    ensures var a := p + SizeTag(At(m, p + 1));
            a == End(bs, p) && (InUse(At(m, a + 1)) <==> !Free(bs, a))
    ensures var a := p + SizeTag(At(m, p + 1)); Free(bs, a) ==> SizeTag(At(m, a + 1)) == bs[a].size
  {
    assert TagOk(m, bs, p) && TagOk(m, bs, End(bs, p)) && Followed(bs, pool, p);
    if p != pool.lo {
      assert TagOk(m, bs, Before(bs, pool, p));
    }
  }
}
