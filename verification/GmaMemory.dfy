/** The memory image of a GMA pool: words, tags and links (lib/mm/gma.h:240-318, 387-439).

    Memory is a sequence of 32-bit words; word i has byte address 4 * i. A chunk pointer p is the word
    index of the chunk's struct: bsize in word p (owned by the chunk before), size in p + 1, prev in p + 2,
    next in p + 3. Pointers are stored as byte addresses, so their two low bits are free for tags. */
module GmaMemory {
  import opened FreeLists
  import opened Sequences
  import opened Words

  // ---------------------------------------------------------------- links

  /** What the `next` field of element i holds. */
  function NextOf(list: seq<int>, i: nat): int {
    if i + 1 < |list| then 4 * list[i + 1] else 0
  }

  /** What the `prev` field of element i holds: the F-tagged list header for the first one. */
  function PrevOf(a: nat, list: seq<int>, i: nat): int {
    if 0 < i <= |list| then 4 * list[i - 1] else 4 * a + 1
  }

  ghost predicate Node(m: Mem, a: nat, list: seq<int>, i: nat) {
    i < |list| ==> At(m, list[i] + 2) == PrevOf(a, list, i) && At(m, list[i] + 3) == NextOf(list, i)
  }

  /** The doubly linked list with header word a. */
  ghost predicate Chain(m: Mem, a: nat, list: seq<int>) {
    && At(m, a) == (if list == [] then 0 else 4 * list[0])
    && forall i: nat {:trigger Node(m, a, list, i)} :: Node(m, a, list, i)
  }

  /** The whole grid of lists, header of list k in word grid + k. */
  ghost predicate Chains(m: Mem, grid: nat, lists: Lists) {
    forall k {:trigger lists[k]} | 0 <= k < |lists| :: Chain(m, grid + k, lists[k])
  }

  /** Link fields are in range, above the grid, and do not overlap. */
  ghost predicate Placed(m: Mem, grid: nat, lists: Lists, free: map<int, nat>) {
    && (forall p | p in free :: grid + |lists| <= p && p + 3 < |m|)
    && (forall p, q | p in free && q in free && p < q :: p + 8 <= q)
  }

  /** Words that hold list headers or links. */
  predicate LinkWord(grid: nat, n: nat, free: map<int, nat>, w: int) {
    grid <= w < grid + n || w - 2 in free || w - 3 in free
  }

  /** The word that points to chunk p: the list header or the next field of the chunk before it. */
  function Holder(m: Mem, p: int): int {
    if At(m, p + 2) % 2 == 1 then At(m, p + 2) / 4 else At(m, p + 2) / 4 + 3
  }

  /** remove_chunk_from_list */
  function Unlink(m: Mem, p: int): Mem
  {
    var held := Put(m, Holder(m, p), At(m, p + 3));
    if At(m, p + 3) != 0 then Put(held, At(m, p + 3) / 4 + 2, At(m, p + 2)) else held
  }

  /** The words unlinking reads and writes are in range and do not clash. */
  ghost predicate UnlinkReady(m: Mem, p: nat) {
    && p + 3 < |m|
    && 0 <= Holder(m, p) < |m| && Holder(m, p) != p + 2 && Holder(m, p) != p + 3
    && (m[p + 3] != 0 ==>
          var back := m[p + 3] / 4 + 2; back < |m| && back != p + 2 && back != p + 3 && back != Holder(m, p))
    && (m[p + 2] % 2 == 1 ==> m[p + 2] == 4 * Holder(m, p) + 1)
  }

  /** insert_chunk_in_list, its link part; the list header is word a. */
  function Link(m: Mem, a: nat, p: nat): Mem {
    var m1 := Put(m, p + 3, At(m, a));
    var m2 := if At(m, a) != 0 then Put(m1, At(m, a) / 4 + 2, Pointer(p)) else m1;
    Put(Put(m2, a, Pointer(p)), p + 2, 4 * a + 1)
  }

  /** The words linking reads and writes are in range and do not clash. */
  ghost predicate LinkReady(m: Mem, a: nat, p: nat) {
    && p + 3 < |m| && a < |m| && a != p + 2 && a != p + 3
    && (m[a] != 0 ==> var back := m[a] / 4 + 2; back < |m| && back != a && back != p + 2 && back != p + 3)
  }

  // ---------------------------------------------------------------- removing

  /** The two words that removing element i of list k changes. */
  lemma UnlinkWords(m: Mem, grid: nat, lists: Lists, free: map<int, nat>, k: nat, i: nat)
    requires Listed(lists, free) && Chains(m, grid, lists) && Placed(m, grid, lists, free)
    requires k < |lists| && i < |lists[k]| && grid + |lists| <= |m|
    ensures var list, p := lists[k], lists[k][i];
            && Holder(m, p) == (if i == 0 then grid + k else list[i - 1] + 3)
            && At(m, p + 3) == NextOf(list, i)
            && At(m, p + 2) == PrevOf(grid + k, list, i)
            && (i + 1 < |list| ==> list[i + 1] in free && list[i + 1] > 0)
            && (i > 0 ==> list[i - 1] in free)
            && p in free
  {
    var list := lists[k];
    assert Chain(m, grid + k, list) && Node(m, grid + k, list, i);
    assert ListSound(list, k, free);
  }

  /** Unlinking touches words in range, none of them a link of the chunk itself, and empties the list
      exactly when the chunk was its only one. */
  lemma UnlinkSafe(m: Mem, grid: nat, lists: Lists, free: map<int, nat>, p: int)
    requires Listed(lists, free) && Chains(m, grid, lists) && Placed(m, grid, lists, free)
    requires p in free && grid + |lists| <= |m|
    ensures free[p] < |lists| && 0 <= p && UnlinkReady(m, p)
    ensures (m[p + 2] % 2 == 1 && m[p + 3] == 0) <==> Remove(lists, free[p], p)[free[p]] == []
  {
    var k := free[p];
    var i, list := IndexOf(lists[k], p), lists[k];
    UnlinkWords(m, grid, lists, free, k, i);
    PlacesDiffer(lists, free, k, i, k, i);
    if i + 1 < |list| { PlacesDiffer(lists, free, k, i, k, i + 1); }
    if i > 0 { PlacesDiffer(lists, free, k, i, k, i - 1); }
    if 0 < i && i + 1 < |list| { PlacesDiffer(lists, free, k, i - 1, k, i + 1); }
  }

  lemma UnlinkAt(m: Mem, grid: nat, lists: Lists, free: map<int, nat>, k: nat, i: nat, w: int)
    requires Listed(lists, free) && Chains(m, grid, lists) && Placed(m, grid, lists, free)
    requires k < |lists| && i < |lists[k]| && grid + |lists| <= |m|
    ensures var list := lists[k];
            At(Unlink(m, list[i]), w) ==
            if i + 1 < |list| && w == list[i + 1] + 2 then PrevOf(grid + k, list, i)
            else if w == (if i == 0 then grid + k else list[i - 1] + 3) then NextOf(list, i)
            else At(m, w)
  {
    UnlinkWords(m, grid, lists, free, k, i);
  }

  /** Words that are no links keep their value. */
  lemma UnlinkFrame(m: Mem, grid: nat, lists: Lists, free: map<int, nat>, p: int, w: int)
    requires Listed(lists, free) && Chains(m, grid, lists) && Placed(m, grid, lists, free)
    requires p in free && grid + |lists| <= |m|
    requires !LinkWord(grid, |lists|, free, w)
    ensures At(Unlink(m, p), w) == At(m, w)
  {
    var k := free[p];
    var i := IndexOf(lists[k], p);
    UnlinkWords(m, grid, lists, free, k, i);
    UnlinkAt(m, grid, lists, free, k, i, w);
  }

  /** Two places in the lists hold different chunks. */
  lemma PlacesDiffer(lists: Lists, free: map<int, nat>, j: nat, x: nat, k: nat, y: nat)
    requires Listed(lists, free) && j < |lists| && k < |lists| && x < |lists[j]| && y < |lists[k]|
    ensures lists[j][x] in free && lists[k][y] in free
    ensures lists[j][x] == lists[k][y] ==> j == k && x == y
  {
    assert ListSound(lists[j], j, free) && ListSound(lists[k], k, free);
  }

  lemma UnlinkOther(m: Mem, grid: nat, lists: Lists, free: map<int, nat>, k: nat, i: nat, j: nat)
    requires Listed(lists, free) && Chains(m, grid, lists) && Placed(m, grid, lists, free)
    requires k < |lists| && i < |lists[k]| && grid + |lists| <= |m| && j < |lists| && j != k
    ensures Chain(Unlink(m, lists[k][i]), grid + j, lists[j])
  {
    hide Unlink, Listed;
    var list, m' := lists[j], Unlink(m, lists[k][i]);
    assert Chain(m, grid + j, list);
    UnlinkWords(m, grid, lists, free, k, i);
    UnlinkAt(m, grid, lists, free, k, i, grid + j);
    var a := grid + j;
    forall x: nat ensures Node(m', a, list, x) {
      if x < |list| {
        assert Node(m, grid + j, list, x);
        if i + 1 < |lists[k]| { PlacesDiffer(lists, free, j, x, k, i + 1); }
        if i > 0 { PlacesDiffer(lists, free, j, x, k, i - 1); }
        PlacesDiffer(lists, free, j, x, k, i);
        UnlinkAt(m, grid, lists, free, k, i, list[x] + 2);
        UnlinkAt(m, grid, lists, free, k, i, list[x] + 3);
      }
    }
  }

  lemma UnlinkSame(m: Mem, grid: nat, lists: Lists, free: map<int, nat>, k: nat, i: nat)
    requires Listed(lists, free) && Chains(m, grid, lists) && Placed(m, grid, lists, free)
    requires k < |lists| && i < |lists[k]| && grid + |lists| <= |m|
    ensures Chain(Unlink(m, lists[k][i]), grid + k, RemoveAt(lists[k], i))
  {
    hide Unlink, Listed;
    var list, m', rest := lists[k], Unlink(m, lists[k][i]), RemoveAt(lists[k], i);
    assert Chain(m, grid + k, list);
    UnlinkWords(m, grid, lists, free, k, i);
    UnlinkAt(m, grid, lists, free, k, i, grid + k);
    var a := grid + k;
    forall x: nat ensures Node(m', a, rest, x) {
      if x < |rest| {
        UnlinkSameNode(m, grid, lists, free, k, i, x);
      }
    }
  }

  lemma UnlinkSameNode(m: Mem, grid: nat, lists: Lists, free: map<int, nat>, k: nat, i: nat, x: nat)
    requires Listed(lists, free) && Chains(m, grid, lists) && Placed(m, grid, lists, free)
    requires k < |lists| && i < |lists[k]| && grid + |lists| <= |m| && x + 1 < |lists[k]|
    ensures Node(Unlink(m, lists[k][i]), grid + k, RemoveAt(lists[k], i), x)
  {
    hide Unlink, Listed;
    var list, y := lists[k], if x < i then x else x + 1;
    assert RemoveAt(list, i)[x] == list[y];
    assert Chain(m, grid + k, list) && Node(m, grid + k, list, y);
    UnlinkWords(m, grid, lists, free, k, i);
    if i + 1 < |list| { PlacesDiffer(lists, free, k, y, k, i + 1); }
    if i > 0 { PlacesDiffer(lists, free, k, y, k, i - 1); }
    UnlinkAt(m, grid, lists, free, k, i, list[y] + 2);
    UnlinkAt(m, grid, lists, free, k, i, list[y] + 3);
  }

  /** Unlinking a chunk through its own links, wherever it is, removes it from its list and from no other. */
  lemma UnlinkChains(m: Mem, grid: nat, lists: Lists, free: map<int, nat>, p: int)
    requires Listed(lists, free) && Chains(m, grid, lists) && Placed(m, grid, lists, free)
    requires p in free && grid + |lists| <= |m|
    ensures Chains(Unlink(m, p), grid, Remove(lists, free[p], p))
  {
    hide Unlink, Chain, Placed;
    var k := free[p];
    var i := IndexOf(lists[k], p);
    UnlinkSame(m, grid, lists, free, k, i);
    forall j | 0 <= j < |lists| && j != k ensures Chain(Unlink(m, p), grid + j, lists[j]) {
      UnlinkOther(m, grid, lists, free, k, i, j);
    }
  }

  // ---------------------------------------------------------------- inserting

  lemma LinkAt(m: Mem, grid: nat, lists: Lists, free: map<int, nat>, k: nat, p: nat, w: int)
    requires Listed(lists, free) && Chains(m, grid, lists) && Placed(m, grid, lists, free)
    requires k < |lists| && grid + |lists| <= p && p + 3 < |m|
    requires forall q | q in free :: p + 8 <= q || q + 8 <= p
    ensures var list := lists[k];
            At(Link(m, grid + k, p), w) ==
            if w == p + 2 then 4 * (grid + k) + 1
            else if w == p + 3 then (if list == [] then 0 else 4 * list[0])
            else if w == grid + k then 4 * p
            else if list != [] && w == list[0] + 2 then 4 * p
            else At(m, w)
    ensures lists[k] != [] ==> lists[k][0] in free
  {
    var list := lists[k];
    assert Chain(m, grid + k, list);
    if list != [] { PlacesDiffer(lists, free, k, 0, k, 0); }
  }

  lemma LinkSafe(m: Mem, grid: nat, lists: Lists, free: map<int, nat>, k: nat, p: nat)
    requires Listed(lists, free) && Chains(m, grid, lists) && Placed(m, grid, lists, free)
    requires k < |lists| && grid + |lists| <= p && p + 3 < |m|
    requires forall q | q in free :: p + 8 <= q || q + 8 <= p
    ensures LinkReady(m, grid + k, p)
  {
    assert Chain(m, grid + k, lists[k]);
    if lists[k] != [] { PlacesDiffer(lists, free, k, 0, k, 0); }
  }

  lemma LinkOther(m: Mem, grid: nat, lists: Lists, free: map<int, nat>, k: nat, p: nat, j: nat)
    requires Listed(lists, free) && Chains(m, grid, lists) && Placed(m, grid, lists, free)
    requires k < |lists| && grid + |lists| <= p && p + 3 < |m| && j < |lists| && j != k
    requires forall q | q in free :: p + 8 <= q || q + 8 <= p
    ensures Chain(Link(m, grid + k, p), grid + j, lists[j])
  {
    hide Link, Listed;
    var list, m' := lists[j], Link(m, grid + k, p);
    assert Chain(m, grid + j, list);
    LinkAt(m, grid, lists, free, k, p, grid + j);
    var a := grid + j;
    forall x: nat ensures Node(m', a, list, x) {
      if x < |list| {
        assert Node(m, grid + j, list, x);
        PlacesDiffer(lists, free, j, x, j, x);
        if lists[k] != [] { PlacesDiffer(lists, free, j, x, k, 0); }
        LinkAt(m, grid, lists, free, k, p, list[x] + 2);
        LinkAt(m, grid, lists, free, k, p, list[x] + 3);
      }
    }
  }

  lemma LinkSame(m: Mem, grid: nat, lists: Lists, free: map<int, nat>, k: nat, p: nat)
    requires Listed(lists, free) && Chains(m, grid, lists) && Placed(m, grid, lists, free)
    requires k < |lists| && grid + |lists| <= p && p + 3 < |m|
    requires forall q | q in free :: p + 8 <= q || q + 8 <= p
    ensures Chain(Link(m, grid + k, p), grid + k, [p] + lists[k])
  {
    hide Link, Listed;
    var list, m' := lists[k], Link(m, grid + k, p);
    assert Chain(m, grid + k, list);
    LinkAt(m, grid, lists, free, k, p, grid + k);
    var a, longer := grid + k, [p] + list;
    forall x: nat ensures Node(m', a, longer, x) {
      if x == 0 {
        LinkAt(m, grid, lists, free, k, p, p + 2);
        LinkAt(m, grid, lists, free, k, p, p + 3);
      } else if x <= |list| {
        assert Node(m, grid + k, list, x - 1);
        assert ([p] + list)[x] == list[x - 1];
        PlacesDiffer(lists, free, k, x - 1, k, 0);
        LinkAt(m, grid, lists, free, k, p, list[x - 1] + 2);
        LinkAt(m, grid, lists, free, k, p, list[x - 1] + 3);
      }
    }
  }

  /** Linking puts a chunk at the head of its list and leaves the others alone. */
  lemma LinkChains(m: Mem, grid: nat, lists: Lists, free: map<int, nat>, k: nat, p: nat)
    requires Listed(lists, free) && Chains(m, grid, lists) && Placed(m, grid, lists, free)
    requires k < |lists| && grid + |lists| <= p && p + 3 < |m|
    requires forall q | q in free :: p + 8 <= q || q + 8 <= p
    ensures Chains(Link(m, grid + k, p), grid, Insert(lists, k, p))
  {
    hide Link, Chain, Placed;
    LinkSame(m, grid, lists, free, k, p);
    forall j | 0 <= j < |lists| && j != k ensures Chain(Link(m, grid + k, p), grid + j, lists[j]) {
      LinkOther(m, grid, lists, free, k, p, j);
    }
  }

  /** Chains only depend on link words. */
  lemma ChainsFrame(m: Mem, m': Mem, grid: nat, lists: Lists, free: map<int, nat>)
    requires Listed(lists, free) && Chains(m, grid, lists)
    requires forall w | LinkWord(grid, |lists|, free, w) :: At(m', w) == At(m, w)
    ensures Chains(m', grid, lists)
  {
    forall k | 0 <= k < |lists| ensures Chain(m', grid + k, lists[k]) {
      assert Chain(m, grid + k, lists[k]) && ListSound(lists[k], k, free);
      assert LinkWord(grid, |lists|, free, grid + k);
      var a := grid + k;
      forall i: nat ensures Node(m', a, lists[k], i) {
        assert Node(m, grid + k, lists[k], i);
        if i < |lists[k]| {
          assert LinkWord(grid, |lists|, free, lists[k][i] + 2) && LinkWord(grid, |lists|, free, lists[k][i] + 3);
        }
      }
    }
  }
}
