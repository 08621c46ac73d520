/** The memory image of a first-fit pool (lib/mm/ff_simple.h:30-67, lib/mm/ff_simple.c:146-176).

    A chunk pointer p is the word index of its header: size in word p, prev in p + 1, next in p + 2 (free
    chunks only), and the size again in the chunk's last word. The low bit of a size word marks a chunk in
    use. The pool's descriptor is one word, the pointer to the first free chunk. */
module FirstFitMemory {
  import opened Tiling
  import opened Sequences
  import opened Words
  import Bits

  // ---------------------------------------------------------------- tags

  /** GET_SIZE, in words */
  function SizeTag(w: nat): nat { w / 4 }

  /** CHECK_USED */
  predicate UsedTag(w: nat) { w % 2 == 1 }

  /** MARK_USED */
  function SetUsed(w: nat): nat { if UsedTag(w) then w else w + 1 }

  /** MARK_FREE */
  function ClearUsed(w: nat): nat { if UsedTag(w) then w - 1 else w }

  function Tag(block: Block): nat { 4 * block.size + if block.used then 1 else 0 }

  lemma TagFields(block: Block)
    ensures SizeTag(Tag(block)) == block.size && (UsedTag(Tag(block)) <==> block.used)
    ensures SetUsed(Tag(block)) == Tag(Block(block.size, true))
            && ClearUsed(Tag(block)) == Tag(Block(block.size, false))
  {
    Digits(4 * block.size, block.size, 0);
    Digits(4 * block.size + 1, block.size, 1);
  }

  lemma Digits(w: nat, size: nat, used: nat)
    requires used < 2 && w == 4 * size + used
    ensures w / 4 == size && w % 2 == used
  {
    Bits.DivUnique(w, 4, size, used);
    Bits.DivUnique(w, 2, 2 * size, used);
  }

  /** Header and tail of block p agree with it. */
  predicate TagOk(m: Mem, bs: Blocks, p: int) {
    p in bs ==> At(m, p) == Tag(bs[p]) && At(m, End(bs, p) - 1) == Tag(bs[p])
  }

  /** All tags, and the borders that always count as in use. */
  ghost predicate Tagged(m: Mem, bs: Blocks, pool: Pool) {
    && (forall p {:trigger TagOk(m, bs, p)} :: TagOk(m, bs, p))
    && UsedTag(At(m, pool.lo - 1)) && UsedTag(At(m, pool.hi))
  }

  /** What the tags say about the neighbours of p is true. */
  lemma NeighbourTags(m: Mem, bs: Blocks, pool: Pool, p: int)
    requires Tiles(bs, pool) && Tagged(m, bs, pool) && p in bs
    ensures var b := MergedStart(bs, pool, p);
            if UsedTag(At(m, p - 1)) then b == p
            else b in bs && b < p && b == p - SizeTag(At(m, p - 1)) && At(m, b) == Tag(bs[b]) && !bs[b].used
    ensures At(m, p) == Tag(bs[p])
    ensures UsedTag(At(m, End(bs, p))) <==> !Free(bs, End(bs, p))
    ensures Free(bs, End(bs, p)) ==> At(m, End(bs, p)) == Tag(bs[End(bs, p)])
  {
    assert TagOk(m, bs, p) && TagOk(m, bs, End(bs, p)) && Followed(bs, pool, p);
    if End(bs, p) in bs { TagFields(bs[End(bs, p)]); }
    if p != pool.lo {
      var b := Before(bs, pool, p);
      assert TagOk(m, bs, b);
      TagFields(bs[b]);
    }
    hide Tag, UsedTag, SizeTag;
  }

  // ---------------------------------------------------------------- the free list

  function NextOf(list: seq<int>, i: nat): int {
    if i + 1 < |list| then 4 * list[i + 1] else 0
  }

  function PrevOf(list: seq<int>, i: nat): int {
    if 0 < i <= |list| then 4 * list[i - 1] else 0
  }

  ghost predicate Node(m: Mem, list: seq<int>, i: nat) {
    i < |list| ==> At(m, list[i] + 1) == PrevOf(list, i) && At(m, list[i] + 2) == NextOf(list, i)
  }

  /** The doubly linked list whose first pointer is in word a. */
  ghost predicate Chain(m: Mem, a: nat, list: seq<int>) {
    && At(m, a) == (if list == [] then 0 else 4 * list[0])
    && forall i: nat {:trigger Node(m, list, i)} :: Node(m, list, i)
  }

  /** The list's members are free blocks, each once. */
  ghost predicate Members(bs: Blocks, list: seq<int>) {
    NoDuplicates(list) && forall i | 0 <= i < |list| :: Free(bs, list[i])
  }

  /** The descriptor lies before the pool, the pool and its right border in memory. */
  ghost predicate Room(m: Mem, a: nat, bs: Blocks, pool: Pool) {
    Tiles(bs, pool) && 4 <= pool.min && a + 1 < pool.lo && pool.hi < |m|
  }

  /** Words that hold links. */
  predicate LinkWord(a: nat, bs: Blocks, w: int) {
    w == a || Free(bs, w - 1) || Free(bs, w - 2)
  }

  /** m' differs from m in link words only. */
  ghost predicate OnlyLinks(m: Mem, m': Mem, a: nat, bs: Blocks) {
    |m'| == |m| && forall w {:trigger At(m', w)} :: LinkWord(a, bs, w) || At(m', w) == At(m, w)
  }

  /** ffs_remove_chunk */
  function Unlink(m: Mem, a: nat, p: int): Mem {
    var next, prev := At(m, p + 2), At(m, p + 1);
    var held := if At(m, a) == 4 * p then Put(m, a, next) else Put(m, prev / 4 + 2, next);
    if next != 0 then Put(held, next / 4 + 1, prev) else held
  }

  /** ffs_insert_chunk */
  function Link(m: Mem, a: nat, p: nat): Mem {
    var m1 := Put(Put(m, p + 2, At(m, a)), p + 1, 0);
    var m2 := if At(m, a) != 0 then Put(m1, At(m, a) / 4 + 1, Pointer(p)) else m1;
    Put(m2, a, Pointer(p))
  }

  /** The words unlinking reads and writes are in range and do not clash. */
  ghost predicate UnlinkReady(m: Mem, a: nat, p: nat) {
    var next, prev, held := At(m, p + 2), At(m, p + 1), if At(m, a) == 4 * p then a else At(m, p + 1) / 4 + 2;
    && p + 2 < |m| && a < |m| && held < |m| && held != p + 1 && held != p + 2
    && (next != 0 ==> next / 4 + 1 < |m| && next / 4 + 1 != held && next / 4 + 1 != p + 1 && next / 4 + 1 != p + 2)
  }

  /** The words linking reads and writes are in range and do not clash. */
  ghost predicate LinkReady(m: Mem, a: nat, p: nat) {
    && p + 2 < |m| && a < p
    && (At(m, a) != 0 ==>
          var back := At(m, a) / 4 + 1; back < |m| && back != a && back != p + 1 && back != p + 2)
  }

  /** A listed chunk and its place. */
  lemma MemberFacts(m: Mem, a: nat, bs: Blocks, pool: Pool, list: seq<int>, i: nat)
    requires Room(m, a, bs, pool) && Members(bs, list) && i < |list|
    ensures Free(bs, list[i]) && a + 1 < pool.lo <= list[i] && list[i] + 4 <= pool.hi < |m|
    ensures forall j | 0 <= j < |list| && j != i :: list[j] + 4 <= list[i] || list[i] + 4 <= list[j]
    ensures forall j | 0 <= j < |list| && list[j] == list[i] :: j == i
  {
    assert Bounded(bs, pool);
    forall j | 0 <= j < |list| && j != i ensures list[j] + 4 <= list[i] || list[i] + 4 <= list[j] {
      assert Free(bs, list[j]) && Free(bs, list[i]) && list[i] != list[j];
    }
  }

  /** The two words that removing element i changes. */
  lemma UnlinkAt(m: Mem, a: nat, bs: Blocks, pool: Pool, list: seq<int>, i: nat, w: int)
    requires Room(m, a, bs, pool) && Members(bs, list) && Chain(m, a, list) && i < |list|
    ensures At(Unlink(m, a, list[i]), w) ==
            if i + 1 < |list| && w == list[i + 1] + 1 then PrevOf(list, i)
            else if w == (if i == 0 then a else list[i - 1] + 2) then NextOf(list, i)
            else At(m, w)
    ensures |Unlink(m, a, list[i])| == |m|
  {
    assert Node(m, list, i);
    MemberFacts(m, a, bs, pool, list, i);
    if i > 0 { MemberFacts(m, a, bs, pool, list, i - 1); MemberFacts(m, a, bs, pool, list, 0); }
    if i + 1 < |list| { MemberFacts(m, a, bs, pool, list, i + 1); }
    hide Room, Members, Chain;
  }

  lemma ChainNode(m: Mem, a: nat, list: seq<int>, i: nat)
    requires Chain(m, a, list)
    ensures Node(m, list, i)
  {
  }

  lemma UnlinkSafe(m: Mem, a: nat, bs: Blocks, pool: Pool, list: seq<int>, p: int)
    requires Room(m, a, bs, pool) && Members(bs, list) && Chain(m, a, list) && p in list
    ensures 0 <= p && UnlinkReady(m, a, p)
  {
    var i := IndexOf(list, p);
    ChainNode(m, a, list, i);
    MemberFacts(m, a, bs, pool, list, i);
    if i > 0 { MemberFacts(m, a, bs, pool, list, i - 1); MemberFacts(m, a, bs, pool, list, 0); }
    if i + 1 < |list| { MemberFacts(m, a, bs, pool, list, i + 1); }
    hide Room, Members;
  }

  lemma UnlinkNode(m: Mem, a: nat, bs: Blocks, pool: Pool, list: seq<int>, i: nat, x: nat)
    requires Room(m, a, bs, pool) && Members(bs, list) && Chain(m, a, list) && i < |list| && x + 1 < |list|
    ensures Node(Unlink(m, a, list[i]), RemoveAt(list, i), x)
  {
    hide Unlink, Room, Members, Chain;
    var y := if x < i then x else x + 1;
    assert RemoveAt(list, i)[x] == list[y];
    ChainNode(m, a, list, y);
    MemberFacts(m, a, bs, pool, list, y);
    UnlinkAt(m, a, bs, pool, list, i, list[y] + 1);
    UnlinkAt(m, a, bs, pool, list, i, list[y] + 2);
  }

  /** Unlinking a chunk removes it from the list. */
  lemma UnlinkChain(m: Mem, a: nat, bs: Blocks, pool: Pool, list: seq<int>, p: int)
    requires Room(m, a, bs, pool) && Members(bs, list) && Chain(m, a, list) && p in list
    ensures Chain(Unlink(m, a, p), a, Without(list, p)) && Members(bs, Without(list, p))
    ensures OnlyLinks(m, Unlink(m, a, p), a, bs)
  {
    var i := IndexOf(list, p);
    var m', rest := Unlink(m, a, p), RemoveAt(list, i);
    RemoveAtFacts(list, i);
    forall j | 0 <= j < |rest| ensures Free(bs, rest[j]) {
      assert rest[j] in rest && rest[j] in list;
    }
    UnlinkAt(m, a, bs, pool, list, i, a);
    MemberFacts(m, a, bs, pool, list, i);
    if i > 0 { MemberFacts(m, a, bs, pool, list, i - 1); }
    if i + 1 < |list| { MemberFacts(m, a, bs, pool, list, i + 1); }
    assert OnlyLinks(m, m', a, bs) by {
      forall w ensures LinkWord(a, bs, w) || At(m', w) == At(m, w) {
        UnlinkAt(m, a, bs, pool, list, i, w);
      }
    }
    hide Unlink, Room, Members, OnlyLinks;
    assert At(m', a) == if rest == [] then 0 else 4 * rest[0];
    forall x: nat ensures Node(m', rest, x) {
      if x < |rest| { UnlinkNode(m, a, bs, pool, list, i, x); }
    }
  }

  // ---------------------------------------------------------------- inserting

  /** Where a chunk can be linked in. */
  ghost predicate Space(m: Mem, a: nat, list: seq<int>, p: int) {
    && a < p && p + 2 < |m|
    && forall i | 0 <= i < |list| :: a < list[i] && list[i] + 2 < |m| && (p + 4 <= list[i] || list[i] + 4 <= p)
  }

  lemma LinkAt(m: Mem, a: nat, list: seq<int>, p: nat, w: int)
    requires Chain(m, a, list) && Space(m, a, list, p)
    ensures At(Link(m, a, p), w) ==
            if w == a then 4 * p
            else if list != [] && w == list[0] + 1 then 4 * p
            else if w == p + 1 then 0
            else if w == p + 2 then (if list == [] then 0 else 4 * list[0])
            else At(m, w)
    ensures |Link(m, a, p)| == |m|
  {
  }

  lemma LinkSafe(m: Mem, a: nat, list: seq<int>, p: nat)
    requires Chain(m, a, list) && Space(m, a, list, p)
    ensures LinkReady(m, a, p)
  {
  }

  lemma LinkNode(m: Mem, a: nat, list: seq<int>, p: nat, x: nat)
    requires Chain(m, a, list) && Space(m, a, list, p) && NoDuplicates(list) && x <= |list|
    requires forall i, j | 0 <= i < |list| && 0 <= j < |list| && i != j ::
               list[i] + 4 <= list[j] || list[j] + 4 <= list[i]
    ensures Node(Link(m, a, p), [p] + list, x)
  {
    hide Link;
    if x == 0 {
      LinkAt(m, a, list, p, p + 1);
      LinkAt(m, a, list, p, p + 2);
    } else {
      assert Node(m, list, x - 1) && ([p] + list)[x] == list[x - 1];
      LinkAt(m, a, list, p, list[x - 1] + 1);
      LinkAt(m, a, list, p, list[x - 1] + 2);
    }
  }

  /** Linking puts a chunk at the head of the list. */
  lemma LinkChain(m: Mem, a: nat, bs: Blocks, pool: Pool, list: seq<int>, p: nat)
    requires Room(m, a, bs, pool) && Members(bs, list) && Chain(m, a, list) && Space(m, a, list, p)
    ensures Chain(Link(m, a, p), a, [p] + list)
    ensures forall w {:trigger At(Link(m, a, p), w)} ::
              LinkWord(a, bs, w) || w == p + 1 || w == p + 2 || At(Link(m, a, p), w) == At(m, w)
    ensures |Link(m, a, p)| == |m|
  {
    var m', longer := Link(m, a, p), [p] + list;
    LinkAt(m, a, list, p, a);
    forall i, j | 0 <= i < |list| && 0 <= j < |list| && i != j
      ensures list[i] + 4 <= list[j] || list[j] + 4 <= list[i]
    {
      MemberFacts(m, a, bs, pool, list, i);
    }
    forall w ensures LinkWord(a, bs, w) || w == p + 1 || w == p + 2 || At(m', w) == At(m, w) {
      LinkAt(m, a, list, p, w);
    }
    forall x: nat ensures Node(m', longer, x) {
      if x <= |list| { LinkNode(m, a, list, p, x); }
    }
  }

  /** The list only depends on the first pointer and the links of its members. */
  lemma ChainFrame(m: Mem, m': Mem, a: nat, list: seq<int>)
    requires Chain(m, a, list) && At(m', a) == At(m, a)
    requires forall i | 0 <= i < |list| ::
               At(m', list[i] + 1) == At(m, list[i] + 1) && At(m', list[i] + 2) == At(m, list[i] + 2)
    ensures Chain(m', a, list)
  {
    forall i: nat ensures Node(m', list, i) {
      assert Node(m, list, i);
    }
  }
}
