/** The grid of free lists in memory, with its bitmaps (lib/mm/gma.c:220-264): one invariant for the words
    that index free chunks, and the effect of the two updates on it. */
module GmaGrid {
  import opened Bits
  import opened FreeLists
  import opened GmaBitmaps
  import opened GmaMemory
  import opened Words
  import opened GmaTags

  /** Where the index lives: second-level words from sl on, list headers from grid on. */
  datatype Layout = Layout(sl: nat, rows: nat, grid: nat) {
    function Lists(): nat { DIM * rows }

    ghost predicate Fits(m: Mem) {
      sl + rows <= grid && grid + Lists() <= |m|
    }
  }

  /** The second-level words. */
  function RowWords(m: Mem, lay: Layout): Rows {
    if lay.sl + lay.rows <= |m| then m[lay.sl..lay.sl + lay.rows] else []
  }

  lemma RowWordsAt(m: Mem, lay: Layout)
    requires lay.Fits(m)
    ensures |RowWords(m, lay)| == lay.rows && lay.sl + lay.rows <= |m|
    ensures forall r | 0 <= r < lay.rows :: RowWords(m, lay)[r] == m[lay.sl + r]
  {
  }

  ghost predicate GridOk(m: Mem, fl: nat, lay: Layout, lists: Lists, free: map<int, nat>) {
    && lay.Fits(m)
    && |lists| == lay.Lists()
    && Listed(lists, free)
    && Chains(m, lay.grid, lists)
    && Placed(m, lay.grid, lists, free)
    && Indexed(fl, RowWords(m, lay), lists)
  }

  /** Words the index may change: second-level words, list headers, links of free chunks. */
  predicate IndexWord(lay: Layout, free: map<int, nat>, w: int) {
    lay.sl <= w < lay.sl + lay.rows || LinkWord(lay.grid, lay.Lists(), free, w)
  }

  /** m' differs from m in index words only. */
  ghost predicate OnlyIndex(m: Mem, m': Mem, lay: Layout, free: map<int, nat>) {
    |m'| == |m| && forall w {:trigger At(m', w)} :: IndexWord(lay, free, w) || At(m', w) == At(m, w)
  }

  /** The bitmaps after list k became empty. */
  function Clear(m: Mem, lay: Layout, k: nat): Mem {
    Put(m, lay.sl + k / DIM, ClearBit(At(m, lay.sl + k / DIM), k % DIM))
  }

  function ClearFirst(m: Mem, fl: nat, lay: Layout, k: nat): nat {
    if ClearBit(At(m, lay.sl + k / DIM), k % DIM) == 0 then ClearBit(fl, k / DIM) else fl
  }

  lemma UnlinkGrid(m: Mem, fl: nat, lay: Layout, lists: Lists, free: map<int, nat>, p: int)
    requires GridOk(m, fl, lay, lists, free) && p in free
    ensures var m', k := Unlink(m, p), free[p];
            && Chains(m', lay.grid, Remove(lists, k, p)) && Listed(Remove(lists, k, p), free - {p})
            && |Remove(lists, k, p)| == |lists|
            && RowWords(m', lay) == RowWords(m, lay)
            && OnlyIndex(m, m', lay, free)
            && Placed(m', lay.grid, Remove(lists, k, p), free - {p})
  {
    hide Unlink, Chains, Listed, Indexed;
    var m', k := Unlink(m, p), free[p];
    UnlinkChains(m, lay.grid, lists, free, p);
    RemoveListed(lists, free, p);
    RemoveLength(lists, k, p);
    UnlinkLength(m, p);
    forall w ensures IndexWord(lay, free, w) || At(m', w) == At(m, w) {
      if !LinkWord(lay.grid, lay.Lists(), free, w) {
        UnlinkFrame(m, lay.grid, lists, free, p, w);
      }
    }
    forall w | lay.sl <= w < lay.sl + lay.rows ensures m'[w] == m[w] {
      NotALink(lay, lists, free, m, w);
      UnlinkFrame(m, lay.grid, lists, free, p, w);
      assert At(m', w) == At(m, w);
    }
  }

  lemma UnlinkLength(m: Mem, p: int)
    ensures |Unlink(m, p)| == |m|
  {
  }

  lemma NotALink(lay: Layout, lists: Lists, free: map<int, nat>, m: Mem, w: int)
    requires lay.Fits(m) && |lists| == lay.Lists() && Placed(m, lay.grid, lists, free)
    requires w < lay.grid
    ensures !LinkWord(lay.grid, |lists|, free, w)
  {
  }

  /** remove_chunk_from_free_list, when the list is left with other chunks. */
  lemma UnlinkKeepsGrid(m: Mem, fl: nat, lay: Layout, lists: Lists, free: map<int, nat>, p: int)
    requires GridOk(m, fl, lay, lists, free) && p in free
    requires Remove(lists, free[p], p)[free[p]] != []
    ensures GridOk(Unlink(m, p), fl, lay, Remove(lists, free[p], p), free - {p})
  {
    hide Unlink, Chains, Listed, Placed, Indexed;
    UnlinkGrid(m, fl, lay, lists, free, p);
    UnlinkLength(m, p);
    ListedIndex(lists, free, p);
    SameIndexed(fl, RowWords(m, lay), lists, Remove(lists, free[p], p));
  }

  lemma ListedIndex(lists: Lists, free: map<int, nat>, p: int)
    requires Listed(lists, free) && p in free
    ensures free[p] < |lists| && lists[free[p]] != []
  {
  }

  /** The same when it was the last chunk of its list: the bitmaps follow. */
  lemma UnlinkEmptiesList(m: Mem, fl: nat, lay: Layout, lists: Lists, free: map<int, nat>, p: int)
    requires GridOk(m, fl, lay, lists, free) && p in free
    requires Remove(lists, free[p], p)[free[p]] == []
    ensures var k, m1 := free[p], Unlink(m, p);
            && GridOk(Clear(m1, lay, k), ClearFirst(m1, fl, lay, k), lay, Remove(lists, k, p), free - {p})
            && OnlyIndex(m, Clear(m1, lay, k), lay, free)
  {
    hide Unlink, Chains, Listed, Placed, Indexed;
    var k, m1 := free[p], Unlink(m, p);
    UnlinkGrid(m, fl, lay, lists, free, p);
    UnlinkLength(m, p);
    ListedIndex(lists, free, p);
    UnmarkedIndexed(fl, RowWords(m, lay), lists, k, Remove(lists, k, p));
    var m2, w := Clear(m1, lay, k), lay.sl + k / DIM;
    assert RowWords(m2, lay) == RowWords(m1, lay)[k / DIM := ClearBit(At(m1, w), k % DIM)];
    forall x | LinkWord(lay.grid, lay.Lists(), free - {p}, x) ensures At(m2, x) == At(m1, x) {
      NotALink(lay, Remove(lists, k, p), free - {p}, m1, w);
    }
    ChainsFrame(m1, m2, lay.grid, Remove(lists, k, p), free - {p});
    assert Placed(m2, lay.grid, Remove(lists, k, p), free - {p}) by {
      PlacedFrame(m1, m2, lay.grid, Remove(lists, k, p), free - {p});
    }
  }

  lemma PlacedFrame(m: Mem, m': Mem, grid: nat, lists: Lists, free: map<int, nat>)
    requires Placed(m, grid, lists, free) && |m'| == |m|
    ensures Placed(m', grid, lists, free)
  {
  }

  // ---------------------------------------------------------------- inserting

  /** set_list_have_chunks on the second level */
  function Mark(m: Mem, lay: Layout, k: nat): Mem {
    Put(m, lay.sl + k / DIM, SetBit(At(m, lay.sl + k / DIM), k % DIM))
  }

  /** Where a chunk can be linked in: clear of the index and of the free chunks. */
  ghost predicate RoomFor(m: Mem, lay: Layout, free: map<int, nat>, p: int) {
    lay.grid + lay.Lists() <= p && p + 3 < |m| && forall q | q in free :: p + 8 <= q || q + 8 <= p
  }

  lemma LinkLength(m: Mem, a: nat, p: nat)
    ensures |Link(m, a, p)| == |m|
  {
  }

  lemma LinkGrid(m: Mem, fl: nat, lay: Layout, lists: Lists, free: map<int, nat>, k: nat, p: nat)
    requires GridOk(m, fl, lay, lists, free) && k < |lists| && RoomFor(m, lay, free, p)
    ensures var m' := Link(m, lay.grid + k, p);
            && p !in free
            && Chains(m', lay.grid, Insert(lists, k, p)) && Listed(Insert(lists, k, p), free[p := k])
            && Placed(m', lay.grid, Insert(lists, k, p), free[p := k])
            && RowWords(m', lay) == RowWords(m, lay)
            && OnlyIndex(m, m', lay, free[p := k])
  {
    hide Link, Chains, Listed, Indexed;
    var m' := Link(m, lay.grid + k, p);
    LinkChains(m, lay.grid, lists, free, k, p);
    assert p !in free;
    InsertListed(lists, free, k, p);
    LinkLength(m, lay.grid + k, p);
    forall w ensures IndexWord(lay, free[p := k], w) || At(m', w) == At(m, w) {
      LinkAt(m, lay.grid, lists, free, k, p, w);
    }
    forall w | lay.sl <= w < lay.sl + lay.rows ensures m'[w] == m[w] {
      LinkAt(m, lay.grid, lists, free, k, p, w);
      assert At(m', w) == At(m, w);
    }
  }

  /** insert_chunk_in_free_list, its index part. */
  lemma LinkMarksGrid(m: Mem, fl: nat, lay: Layout, lists: Lists, free: map<int, nat>, k: nat, p: nat)
    requires GridOk(m, fl, lay, lists, free) && k < |lists| && RoomFor(m, lay, free, p)
    ensures var m1 := Link(m, lay.grid + k, p);
            && GridOk(Mark(m1, lay, k), SetBit(fl, k / DIM), lay, Insert(lists, k, p), free[p := k])
            && OnlyIndex(m, Mark(m1, lay, k), lay, free[p := k])
  {
    hide Link, Chains, Listed, Placed, Indexed;
    var m1, lists' := Link(m, lay.grid + k, p), Insert(lists, k, p);
    LinkGrid(m, fl, lay, lists, free, k, p);
    LinkLength(m, lay.grid + k, p);
    MarkedIndexed(fl, RowWords(m, lay), lists, k, lists');
    var m2, w := Mark(m1, lay, k), lay.sl + k / DIM;
    assert RowWords(m2, lay) == RowWords(m1, lay)[k / DIM := SetBit(At(m1, w), k % DIM)];
    forall x | LinkWord(lay.grid, lay.Lists(), free[p := k], x) ensures At(m2, x) == At(m1, x) {
      NotALink(lay, lists', free[p := k], m1, w);
    }
    ChainsFrame(m1, m2, lay.grid, lists', free[p := k]);
    assert Placed(m2, lay.grid, lists', free[p := k]) by { PlacedFrame(m1, m2, lay.grid, lists', free[p := k]); }
  }

  /** The index does not depend on words outside it. */
  lemma GridFrame(m: Mem, m': Mem, fl: nat, lay: Layout, lists: Lists, free: map<int, nat>)
    requires GridOk(m, fl, lay, lists, free) && |m'| == |m|
    requires forall w {:trigger At(m', w)} | IndexWord(lay, free, w) :: At(m', w) == At(m, w)
    ensures GridOk(m', fl, lay, lists, free)
  {
    hide Chain, Listed, Placed, Indexed;
    ChainsFrame(m, m', lay.grid, lists, free);
    PlacedFrame(m, m', lay.grid, lists, free);
    forall w | lay.sl <= w < lay.sl + lay.rows ensures m'[w] == m[w] {
      assert At(m', w) == At(m, w);
    }
    assert RowWords(m', lay) == RowWords(m, lay);
  }

  // ---------------------------------------------------------------- inserting with tags

  /** Chunk p, of the size its tag says, lies clear of the index and of the free chunks. */
  ghost predicate Space(m: Mem, lay: Layout, free: map<int, nat>, p: int) {
    && lay.grid + lay.Lists() <= p
    && 8 <= SizeTag(At(m, p + 1)) && p + SizeTag(At(m, p + 1)) + 1 < |m|
    && forall q | q in free :: q + 8 <= p || p + SizeTag(At(m, p + 1)) <= q
  }

  /** The memory after insert_chunk_in_free_list. */
  function Inserted(m: Mem, lay: Layout, k: nat, p: nat): Mem {
    Mark(MarkedFree(Link(m, lay.grid + k, p), p), lay, k)
  }

  lemma InsertReady(m: Mem, fl: nat, lay: Layout, lists: Lists, free: map<int, nat>, k: nat, p: nat)
    requires GridOk(m, fl, lay, lists, free) && k < |lists| && Space(m, lay, free, p)
    ensures LinkReady(m, lay.grid + k, p) && lay.grid + k != p + 1
    ensures m[lay.grid + k] != 0 ==> m[lay.grid + k] / 4 + 2 != p + 1
    ensures At(Link(m, lay.grid + k, p), p + 1) == At(m, p + 1) == m[p + 1]
    ensures At(m, p + SizeTag(m[p + 1]) + 1) == At(Link(m, lay.grid + k, p), p + SizeTag(m[p + 1]) + 1)
  {
    hide Chains, Indexed, Link;
    LinkSafe(m, lay.grid, lists, free, k, p);
    LinkAt(m, lay.grid, lists, free, k, p, p + 1);
    LinkAt(m, lay.grid, lists, free, k, p, p + SizeTag(m[p + 1]) + 1);
    assert lists[k] != [] ==> lists[k][0] in free;
    HeaderValue(m, lay.grid, lists, k);
  }

  lemma HeaderValue(m: Mem, grid: nat, lists: Lists, k: nat)
    requires Chains(m, grid, lists) && k < |lists|
    ensures At(m, grid + k) == if lists[k] == [] then 0 else 4 * lists[k][0]
  {
    assert Chain(m, grid + k, lists[k]);
  }

  /** m' differs from m in index words and in the three tag words of chunk p. */
  ghost predicate OnlyIndexAndTags(m: Mem, m': Mem, lay: Layout, free: map<int, nat>, p: int) {
    var e := p + SizeTag(At(m, p + 1));
    && |m'| == |m|
    && (forall w {:trigger At(m', w)} ::
          IndexWord(lay, free, w) || w == p + 1 || w == e || w == e + 1 || At(m', w) == At(m, w))
    && At(m', p + 1) == At(m', e) == ClearInUse(At(m, p + 1))
    && At(m', e + 1) == ClearBeforeInUse(At(m, e + 1))
  }

  lemma InsertChanges(m: Mem, fl: nat, lay: Layout, lists: Lists, free: map<int, nat>, k: nat, p: nat)
    requires GridOk(m, fl, lay, lists, free) && k < |lists| && Space(m, lay, free, p)
    ensures p !in free
    ensures OnlyIndexAndTags(m, Inserted(m, lay, k, p), lay, free[p := k], p)
    ensures var m2 := Mark(Link(m, lay.grid + k, p), lay, k);
            && GridOk(m2, SetBit(fl, k / DIM), lay, Insert(lists, k, p), free[p := k])
            && |m2| == |m| == |Inserted(m, lay, k, p)|
            && forall w {:trigger At(Inserted(m, lay, k, p), w)} | IndexWord(lay, free[p := k], w) ::
                 At(Inserted(m, lay, k, p), w) == At(m2, w)
  {
    hide GridOk, Link, IndexWord, Mark, MarkedFree, Insert, SizeTag;
    var m1 := Link(m, lay.grid + k, p);
    InsertReady(m, fl, lay, lists, free, k, p);
    LinkMarksGrid(m, fl, lay, lists, free, k, p);
    LinkLength(m, lay.grid + k, p);
    GridFits(m, fl, lay, lists, free, k);
    TagWordsAreNoIndex(m, lay, free, k, p);
    InsertedWords(m1, Mark(m1, lay, k), Inserted(m, lay, k, p), lay, k, p, p + SizeTag(At(m, p + 1)));
  }

  lemma GridFits(m: Mem, fl: nat, lay: Layout, lists: Lists, free: map<int, nat>, k: nat)
    requires GridOk(m, fl, lay, lists, free) && k < |lists|
    ensures lay.Fits(m) && k / DIM < lay.rows
  {
    RowOfList(k, lay.rows);
  }

  /** What insert_chunk_in_free_list does to memory: the index follows, three tag words change, nothing else. */
  lemma InsertGrid(m: Mem, fl: nat, lay: Layout, lists: Lists, free: map<int, nat>, k: nat, p: nat)
    requires GridOk(m, fl, lay, lists, free) && k < |lists| && Space(m, lay, free, p)
    ensures p !in free
    ensures OnlyIndexAndTags(m, Inserted(m, lay, k, p), lay, free[p := k], p)
    ensures GridOk(Inserted(m, lay, k, p), SetBit(fl, k / DIM), lay, Insert(lists, k, p), free[p := k])
  {
    hide GridOk, Link, IndexWord, Mark, MarkedFree, Insert, OnlyIndexAndTags;
    InsertChanges(m, fl, lay, lists, free, k, p);
    GridFrame(Mark(Link(m, lay.grid + k, p), lay, k), Inserted(m, lay, k, p), SetBit(fl, k / DIM), lay,
              Insert(lists, k, p), free[p := k]);
  }

  lemma TagWordsAreNoIndex(m: Mem, lay: Layout, free: map<int, nat>, k: nat, p: nat)
    requires Space(m, lay, free, p) && lay.Fits(m)
    ensures var e := p + SizeTag(At(m, p + 1));
            && !IndexWord(lay, free[p := k], p + 1) && !IndexWord(lay, free[p := k], e)
            && !IndexWord(lay, free[p := k], e + 1)
  {
  }

  /** Marking the bitmap and marking the tags touch different words. */
  lemma InsertedWords(m1: Mem, m2: Mem, m': Mem, lay: Layout, k: nat, p: nat, e: nat)
    requires m2 == Mark(m1, lay, k) && m' == Mark(MarkedFree(m1, p), lay, k)
    requires e == p + SizeTag(At(m1, p + 1)) && e + 1 < |m1| && p + 8 <= e
    requires lay.sl + k / DIM < p
    ensures |m'| == |m1|
    ensures forall w {:trigger At(m', w)} :: w == p + 1 || w == e || w == e + 1 || At(m', w) == At(m2, w)
    ensures At(m', p + 1) == At(m', e) == ClearInUse(At(m1, p + 1))
    ensures At(m', e + 1) == ClearBeforeInUse(At(m1, e + 1))
  {
    TagFields(At(m1, p + 1), 0);
  }
}
