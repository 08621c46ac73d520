/** What ffs_alloc and ffs_free do to the heap (lib/mm/ff_simple.c:61-144), stated on the block map and the
    free list, and the properties of every run. The class in FirstFit.dfy carries these steps out in memory. */
module FirstFitHeap {
  import opened Tiling
  import opened Sequences

  const WORD: nat := 4
  const WORD_LIMIT: nat := 0x1_0000_0000

  /** HEADER_SIZE in words: size, prev, next and the tail */
  const MIN_WORDS: nat := 4

  datatype Heap = Heap(bs: Blocks, free: seq<int>)

  predicate PoolOk(pool: Pool) {
    pool.min == MIN_WORDS && 0 < pool.lo && pool.lo + MIN_WORDS <= pool.hi
  }

  /** The list holds the free blocks, each once. */
  ghost predicate ListsFree(bs: Blocks, free: seq<int>) {
    && NoDuplicates(free)
    && (forall i | 0 <= i < |free| :: Free(bs, free[i]))
    && (forall p {:trigger Free(bs, p)} | Free(bs, p) :: p in free)
  }

  ghost predicate Valid(pool: Pool, h: Heap) {
    && PoolOk(pool)
    && Tiles(h.bs, pool)
    && Coalesced(h.bs)
    && ListsFree(h.bs, h.free)
  }

  // ---------------------------------------------------------------- requests

  /** Header and tail added, at least a header's size, rounded up to 4 bytes; in 32-bit arithmetic. */
  function Rounded(request: nat): nat {
    var s := (request + 2 * WORD) % WORD_LIMIT;
    var atLeast := if s < WORD * MIN_WORDS then WORD * MIN_WORDS else s;
    (atLeast + 3) % WORD_LIMIT / 4 * 4
  }

  lemma RoundedCases(request: nat)
    requires request < WORD_LIMIT
    ensures Rounded(request) ==
            if request <= 2 * WORD || WORD_LIMIT <= request + 2 * WORD then WORD * MIN_WORDS
            else if WORD_LIMIT <= request + 11 then 0
            else (request + 11) / 4 * 4
  {
    var s := (request + 2 * WORD) % WORD_LIMIT;
    assert s == if WORD_LIMIT <= request + 2 * WORD then request + 2 * WORD - WORD_LIMIT else request + 2 * WORD;
  }

  /** What a client gets is what it asked for exactly when the rounding does not wrap around. The three
      sizes just below the first that wraps in the first addition round to an empty chunk. */
  lemma RoundedSuffices(request: nat)
    requires request < WORD_LIMIT
    ensures Rounded(request) % 4 == 0
    ensures Rounded(request) - 2 * WORD >= request <==> request + 11 < WORD_LIMIT
    ensures Rounded(request) >= WORD * MIN_WORDS || Rounded(request) == 0
    ensures Rounded(request) == 0 <==> WORD_LIMIT <= request + 11 < WORD_LIMIT + 3
  {
    hide Rounded;
    RoundedCases(request);
  }

  /** A request of 4294967288 bytes rounds to a header and a tail; one of 4294967285 to nothing. */
  lemma RoundingWraps()
    ensures Rounded(4294967288) == 16 && Rounded(4294967285) == 0
  {
  }

  // ---------------------------------------------------------------- allocation and release

  function SizeOf(bs: Blocks, p: int): nat {
    if p in bs then bs[p].size else 0
  }

  /** Position of the first chunk in the list that has `words` words; the list's length if there is none. */
  function FirstFit(bs: Blocks, free: seq<int>, words: nat, from: nat): (i: nat)
    requires from <= |free|
    ensures from <= i <= |free|
    ensures i < |free| ==> SizeOf(bs, free[i]) >= words
    ensures forall j | from <= j < i :: SizeOf(bs, free[j]) < words
    decreases |free| - from
  {
    if from == |free| || SizeOf(bs, free[from]) >= words then from else FirstFit(bs, free, words, from + 1)
  }

  lemma FirstFitStep(bs: Blocks, free: seq<int>, words: nat, i: nat)
    requires i <= |free|
    ensures FirstFit(bs, free, words, i) ==
            if i == |free| || SizeOf(bs, free[i]) >= words then i else FirstFit(bs, free, words, i + 1)
  {
  }

  /** Undefined: the code cuts a chunk where no chunk of its size, or no remainder, is. */
  datatype Outcome = NoMemory | Allocated(p: int) | Undefined

  /** What the client gets: the first word after the chunk's header, or 0 for no memory. */
  function UsableAddress(outcome: Outcome): int {
    match outcome
    case Allocated(p) => p + 1
    case _ => 0
  }

  /** The heap after `words` words are taken from free chunk p: from its end if a chunk remains, else whole. */
  function Taken(h: Heap, p: int, words: nat): (Outcome, Heap)
  {
    var n := SizeOf(h.bs, p);
    if n >= words + MIN_WORDS then
      (Allocated(p + (n - words)), Heap(Cut(h.bs, p, Block(n - words, false), Block(words, true)), h.free))
    else
      (Allocated(p), Heap(h.bs[p := Block(n, true)], Without(h.free, p)))
  }

  /** The split test, in 32-bit arithmetic. */
  predicate Splits(size: nat, words: nat) {
    WORD * words >= (size + WORD * MIN_WORDS) % WORD_LIMIT
  }

  /** ffs_alloc */
  function Alloc(h: Heap, request: nat): (Outcome, Heap) {
    var size := Rounded(request);
    var i := FirstFit(h.bs, h.free, size / WORD, 0);
    if i == |h.free| then (NoMemory, h)
    else
      var n := SizeOf(h.bs, h.free[i]);
      if Splits(size, n) && (size == 0 || WORD * n < size + WORD * MIN_WORDS) then (Undefined, h)
      else Taken(h, h.free[i], size / WORD)
  }

  /** The list without a free neighbour before p. */
  ghost function DetachedBefore(h: Heap, pool: Pool, p: int): seq<int>
    requires Tiles(h.bs, pool) && p in h.bs
  {
    var b := MergedStart(h.bs, pool, p);
    if b < p then Without(h.free, b) else h.free
  }

  /** The list without the free neighbours of p. */
  ghost function Detached(h: Heap, pool: Pool, p: int): seq<int>
    requires Tiles(h.bs, pool) && p in h.bs
  {
    var a, rest := End(h.bs, p), DetachedBefore(h, pool, p);
    if Free(h.bs, a) then Without(rest, a) else rest
  }

  /** ffs_free: join with free neighbours, then put the result at the head of the list. */
  ghost function Release(h: Heap, pool: Pool, p: int): Heap
    requires Tiles(h.bs, pool) && p in h.bs
  {
    Heap(Released(h.bs, pool, p), [MergedStart(h.bs, pool, p)] + Detached(h, pool, p))
  }

  // ---------------------------------------------------------------- the invariant

  /** Cutting a free block and taking its end leaves the same blocks free. */
  lemma CutSameFree(bs: Blocks, pool: Pool, p: int, words: nat)
    requires Tiles(bs, pool) && Free(bs, p) && pool.min <= words && words + pool.min <= bs[p].size
    ensures var cut := Cut(bs, p, Block(bs[p].size - words, false), Block(words, true));
            forall q :: Free(cut, q) <==> Free(bs, q)
  {
    CutDisjoint(bs, pool, p, Block(bs[p].size - words, false), Block(words, true));
    hide Tiles, Disjoint;
  }

  lemma CutListed(bs: Blocks, free: seq<int>, pool: Pool, p: int, words: nat)
    requires Tiles(bs, pool) && ListsFree(bs, free) && Free(bs, p)
    requires pool.min <= words && words + pool.min <= bs[p].size
    ensures ListsFree(Cut(bs, p, Block(bs[p].size - words, false), Block(words, true)), free)
  {
    CutSameFree(bs, pool, p, words);
    hide Cut, Free, Tiles;
  }

  lemma WholeListed(bs: Blocks, free: seq<int>, p: int)
    requires ListsFree(bs, free) && Free(bs, p)
    ensures ListsFree(bs[p := Block(bs[p].size, true)], Without(free, p))
  {
    var taken, rest := bs[p := Block(bs[p].size, true)], Without(free, p);
    WithoutFacts(free, p);
    assert forall q :: Free(taken, q) <==> Free(bs, q) && q != p;
    hide Without, Free;
    forall i | 0 <= i < |rest| ensures Free(taken, rest[i]) {
      assert rest[i] in rest;
    }
  }

  lemma TakenValid(h: Heap, pool: Pool, p: int, words: nat)
    requires Valid(pool, h) && Free(h.bs, p) && MIN_WORDS <= words <= h.bs[p].size
    ensures Valid(pool, Taken(h, p, words).1)
  {
    hide *;
    FreeFacts(h, pool, p);
    ValidParts(h, pool);
    var n := h.bs[p].size;
    TakenIs(h, p, words);
    if n >= words + MIN_WORDS {
      CutListed(h.bs, h.free, pool, p, words);
      CutTiles(h.bs, pool, p, Block(n - words, false), Block(words, true));
      CutCoalesced(h.bs, pool, p, Block(n - words, false), Block(words, true));
    } else {
      WholeListed(h.bs, h.free, p);
      TakeTiles(h.bs, pool, p);
    }
    ValidIs(Taken(h, p, words).1, pool);
  }

  lemma ValidParts(h: Heap, pool: Pool)
    requires Valid(pool, h)
    ensures PoolOk(pool) && Tiles(h.bs, pool) && Coalesced(h.bs) && ListsFree(h.bs, h.free)
  {
  }

  lemma ValidIs(h: Heap, pool: Pool)
    requires PoolOk(pool) && Tiles(h.bs, pool) && Coalesced(h.bs) && ListsFree(h.bs, h.free)
    ensures Valid(pool, h)
  {
  }

  lemma TakenIs(h: Heap, p: int, words: nat)
    ensures var n := SizeOf(h.bs, p);
            Taken(h, p, words).1 ==
            if n >= words + MIN_WORDS then Heap(Cut(h.bs, p, Block(n - words, false), Block(words, true)), h.free)
            else Heap(h.bs[p := Block(n, true)], Without(h.free, p))
  {
    hide Cut, SizeOf, Without;
  }

  lemma ChosenFits(h: Heap, pool: Pool, words: nat)
    requires Valid(pool, h)
    ensures var i := FirstFit(h.bs, h.free, words, 0);
            i < |h.free| ==> Free(h.bs, h.free[i]) && words <= h.bs[h.free[i]].size
  {
  }

  lemma AllocValid(h: Heap, pool: Pool, request: nat)
    requires Valid(pool, h) && request < WORD_LIMIT && Alloc(h, request).0 != Undefined
    ensures Valid(pool, Alloc(h, request).1)
  {
    AllocatedWords(h, pool, request);
    hide Valid, Taken, Rounded, Splits;
    var words := Rounded(request) / WORD;
    var i := FirstFit(h.bs, h.free, words, 0);
    if i < |h.free| {
      ChosenFits(h, pool, words);
      TakenValid(h, pool, h.free[i], words);
    }
  }

  /** A split test without a wrap is what it looks like. */
  lemma SplitCases(size: nat, n: nat)
    requires size < WORD_LIMIT && size % 4 == 0 && MIN_WORDS <= n
    ensures size + WORD * MIN_WORDS < WORD_LIMIT ==> (Splits(size, n) <==> WORD * n >= size + WORD * MIN_WORDS)
    ensures size + WORD * MIN_WORDS >= WORD_LIMIT ==> Splits(size, n)
  {
    var sum := size + WORD * MIN_WORDS;
    assert sum % WORD_LIMIT == if sum >= WORD_LIMIT then sum - WORD_LIMIT else sum;
  }

  /** When a chunk is found and what follows is defined, the rounded size is that of a chunk. */
  lemma AllocatedWords(h: Heap, pool: Pool, request: nat)
    requires Valid(pool, h) && request < WORD_LIMIT
    ensures Alloc(h, request).0.Allocated? ==>
              Rounded(request) % 4 == 0 && MIN_WORDS <= Rounded(request) / WORD && Rounded(request) < WORD_LIMIT
  {
    RoundedSuffices(request);
    var words := Rounded(request) / WORD;
    ChosenFits(h, pool, words);
    var i := FirstFit(h.bs, h.free, words, 0);
    if i < |h.free| {
      FreeSize(h, pool, h.free[i]);
      SplitCases(Rounded(request), SizeOf(h.bs, h.free[i]));
    }
    hide Rounded, FirstFit, Splits, Valid;
  }

  lemma FreeSize(h: Heap, pool: Pool, p: int)
    requires Valid(pool, h) && Free(h.bs, p)
    ensures MIN_WORDS <= SizeOf(h.bs, p) == h.bs[p].size <= pool.hi - pool.lo
  {
    assert Bounded(h.bs, pool) && End(h.bs, p) <= pool.hi;
  }

  lemma DetachedFacts(h: Heap, pool: Pool, p: int)
    requires Valid(pool, h) && Used(h.bs, p)
    ensures var rest := Detached(h, pool, p);
            && NoDuplicates(rest)
            && forall q :: q in rest <==> Free(h.bs, q) && q != MergedStart(h.bs, pool, p) && q != End(h.bs, p)
  {
    var b, a := MergedStart(h.bs, pool, p), End(h.bs, p);
    WithoutFacts(h.free, b);
    WithoutFacts(h.free, a);
    WithoutFacts(Without(h.free, b), a);
    hide Without, Tiles, Coalesced;
  }

  lemma ReleaseListed(h: Heap, pool: Pool, p: int)
    requires Valid(pool, h) && Used(h.bs, p)
    ensures ListsFree(Release(h, pool, p).bs, Release(h, pool, p).free)
  {
    DetachedFacts(h, pool, p);
    ReleasedFree(h.bs, pool, p);
    HeadAdded(Released(h.bs, pool, p), MergedStart(h.bs, pool, p), Detached(h, pool, p));
  }

  /** The free blocks after a release: the joined one, and the others minus the neighbours. */
  lemma ReleasedFree(bs: Blocks, pool: Pool, p: int)
    requires Tiles(bs, pool) && Used(bs, p)
    ensures var rel, b := Released(bs, pool, p), MergedStart(bs, pool, p);
            && Free(rel, b)
            && forall q | q != b :: Free(rel, q) <==> Free(bs, q) && q != End(bs, p)
  {
    ReleasedBlocks(bs, pool, p);
  }

  lemma HeadAdded(bs: Blocks, b: int, rest: seq<int>)
    requires Free(bs, b) && NoDuplicates(rest)
    requires forall q :: q in rest <==> Free(bs, q) && q != b
    ensures ListsFree(bs, [b] + rest)
  {
    var list := [b] + rest;
    assert list[0] == b;
    forall i | 0 <= i < |list| ensures Free(bs, list[i]) {
      assert i > 0 ==> list[i] == rest[i - 1] && rest[i - 1] in rest;
    }
    forall q | Free(bs, q) ensures q in list {
      assert q != b ==> q in rest;
    }
    forall i, j | 0 <= i < j < |list| ensures list[i] != list[j] {
      assert list[j] == rest[j - 1] && rest[j - 1] in rest;
    }
  }

  lemma ReleaseValid(h: Heap, pool: Pool, p: int)
    requires Valid(pool, h) && Used(h.bs, p)
    ensures Tiles(h.bs, pool) && Valid(pool, Release(h, pool, p))
  {
    ReleaseListed(h, pool, p);
    hide ListsFree, Tiles, Coalesced, Released, Detached;
    ReleasedTiles(h.bs, pool, p);
    ReleasedCoalesced(h.bs, pool, p);
  }

  // ---------------------------------------------------------------- what a client sees

  /** ffs_alloc gives up exactly when no free chunk reaches the rounded size. */
  lemma AllocFailsIff(h: Heap, pool: Pool, request: nat)
    requires Valid(pool, h)
    ensures Alloc(h, request).0 == NoMemory <==> forall p | Free(h.bs, p) :: h.bs[p].size < Rounded(request) / WORD
  {
    var words := Rounded(request) / WORD;
    var i := FirstFit(h.bs, h.free, words, 0);
    hide Rounded, FirstFit;
    if i == |h.free| {
      forall p | Free(h.bs, p) ensures h.bs[p].size < words {
        assert p in h.free;
      }
    } else {
      assert Free(h.bs, h.free[i]);
    }
  }

  /** The outcome is undefined exactly when there is a chunk to split and the request rounds to nothing, or its split
      test wraps around, 32 bits holding the whole pool. */
  lemma UndefinedIff(h: Heap, pool: Pool, request: nat)
    requires Valid(pool, h) && request < WORD_LIMIT && WORD * (pool.hi - pool.lo) < WORD_LIMIT
    ensures var size := Rounded(request);
            Alloc(h, request).0 == Undefined <==>
              && (size == 0 || size + WORD * MIN_WORDS >= WORD_LIMIT)
              && exists p :: Free(h.bs, p) && size / WORD <= h.bs[p].size
  {
    var size := Rounded(request);
    RoundedSuffices(request);
    RoundedBelow(request);
    ChosenFits(h, pool, size / WORD);
    AllocFailsIff(h, pool, request);
    var i := FirstFit(h.bs, h.free, size / WORD, 0);
    if i < |h.free| {
      FreeSize(h, pool, h.free[i]);
      SplitCases(size, SizeOf(h.bs, h.free[i]));
    }
    hide Rounded, FirstFit, Splits, Valid, Taken;
    if i < |h.free| {
      TakenAllocates(h, h.free[i], size / WORD);
    }
  }

  lemma RoundedBelow(request: nat)
    ensures Rounded(request) < WORD_LIMIT
  {
  }

  lemma TakenAllocates(h: Heap, p: int, words: nat)
    ensures Taken(h, p, words).0.Allocated?
  {
  }

  /** A request of 4294967285 bytes rounds to nothing, and the first free chunk is cut at its very end. */
  lemma UndefinedExample(pool: Pool)
    requires PoolOk(pool)
    ensures Alloc(Fresh(pool), 4294967285).0 == Undefined
  {
    var h := Fresh(pool);
    RoundingWraps();
    FreshChunk(pool);
    assert FirstFit(h.bs, h.free, 0, 0) == 0;
    hide Rounded;
  }

  lemma FreshChunk(pool: Pool)
    requires PoolOk(pool)
    ensures Fresh(pool).free == [pool.lo] && MIN_WORDS <= SizeOf(Fresh(pool).bs, pool.lo)
  {
  }

  /** What a successful ffs_alloc hands out: the last words of a chunk that was free, of the rounded size and less than
      a header more; no other chunk in use changes. */
  lemma AllocTakes(h: Heap, pool: Pool, request: nat)
    requires Valid(pool, h) && request < WORD_LIMIT && Alloc(h, request).0.Allocated?
    ensures var (r, h') := Alloc(h, request);
            && Used(h'.bs, r.p) && !Used(h.bs, r.p)
            && (exists q :: Free(h.bs, q) && q <= r.p && End(h'.bs, r.p) == End(h.bs, q))
            && WORD * MIN_WORDS <= Rounded(request) <= WORD * h'.bs[r.p].size < Rounded(request) + WORD * MIN_WORDS
            && forall q | q != r.p :: Used(h'.bs, q) == Used(h.bs, q) && (Used(h.bs, q) ==> h'.bs[q] == h.bs[q])
  {
    AllocatedWords(h, pool, request);
    var words := Rounded(request) / WORD;
    ChosenFits(h, pool, words);
    var p := h.free[FirstFit(h.bs, h.free, words, 0)];
    hide Rounded, FirstFit, ListsFree, Coalesced, Without;
    if h.bs[p].size >= words + MIN_WORDS {
      CutDisjoint(h.bs, pool, p, Block(h.bs[p].size - words, false), Block(words, true));
    }
  }

  /** The chunk handed out has room for the request, between its header and its tail, exactly when the rounding did not
      wrap around. */
  lemma AllocGives(h: Heap, pool: Pool, request: nat)
    requires Valid(pool, h) && request < WORD_LIMIT && Alloc(h, request).0.Allocated?
    ensures var (r, h') := Alloc(h, request);
            && Used(h'.bs, r.p)
            && (request <= WORD * h'.bs[r.p].size - 2 * WORD <==> request + 11 < WORD_LIMIT)
  {
    AllocTakes(h, pool, request);
    RoundedSuffices(request);
    if WORD_LIMIT <= request + 11 {
      WrappedRounding(request);
    }
    hide Rounded, Alloc, Valid;
  }

  lemma WrappedRounding(request: nat)
    requires WORD_LIMIT <= request + 11 && request < WORD_LIMIT
    ensures Rounded(request) <= WORD * MIN_WORDS
  {
  }

  lemma ReleaseKeeps(h: Heap, pool: Pool, p: int)
    requires Valid(pool, h) && Used(h.bs, p)
    ensures var h' := Release(h, pool, p);
            && !Used(h'.bs, p)
            && forall q | q != p :: Used(h'.bs, q) == Used(h.bs, q) && (Used(h.bs, q) ==> h'.bs[q] == h.bs[q])
  {
    ReleasedBlocks(h.bs, pool, p);
    hide Detached;
  }

  // ---------------------------------------------------------------- undo

  /** ffs_free right after ffs_alloc restores every block; the list only has the chunk moved to its head. */
  lemma AllocThenRelease(h: Heap, pool: Pool, request: nat)
    requires Valid(pool, h) && request < WORD_LIMIT && Alloc(h, request).0.Allocated?
    ensures var (r, h') := Alloc(h, request);
            var p := h.free[FirstFit(h.bs, h.free, Rounded(request) / WORD, 0)];
            && Valid(pool, h') && Used(h'.bs, r.p) && Tiles(h'.bs, pool)
            && Release(h', pool, r.p) == Heap(h.bs, [p] + Without(h.free, p))
  {
    hide Valid, Taken, Rounded, FirstFit, Release;
    AllocatedWords(h, pool, request);
    var words := Rounded(request) / WORD;
    ChosenFits(h, pool, words);
    TakenThenRelease(h, pool, h.free[FirstFit(h.bs, h.free, words, 0)], words);
  }

  lemma TakenThenRelease(h: Heap, pool: Pool, p: int, words: nat)
    requires Valid(pool, h) && Free(h.bs, p) && MIN_WORDS <= words <= h.bs[p].size
    ensures var (r, h') := Taken(h, p, words);
            && Valid(pool, h') && Used(h'.bs, r.p) && Tiles(h'.bs, pool)
            && Release(h', pool, r.p) == Heap(h.bs, [p] + Without(h.free, p))
  {
    TakenValid(h, pool, p, words);
    if h.bs[p].size >= words + MIN_WORDS {
      CutThenRelease(h, pool, p, words);
      hide Tiles, Coalesced, ListsFree, Release, Cut, Without;
    } else {
      WholeThenRelease(h, pool, p);
      hide Tiles, Coalesced, ListsFree, Release, Cut, Without;
    }
  }

  lemma WholeThenRelease(h: Heap, pool: Pool, p: int)
    requires Valid(pool, h) && Free(h.bs, p)
    ensures var taken := Heap(h.bs[p := Block(h.bs[p].size, true)], Without(h.free, p));
            && Tiles(taken.bs, pool) && Used(taken.bs, p)
            && Release(taken, pool, p) == Heap(h.bs, [p] + Without(h.free, p))
  {
    TakeTiles(h.bs, pool, p);
    var taken := h.bs[p := Block(h.bs[p].size, true)];
    hide ListsFree, Without, Disjoint;
    assert Settled(h.bs, p) && Settled(h.bs, MergedStart(taken, pool, p));
    assert Released(taken, pool, p) == h.bs;
  }

  lemma CutThenRelease(h: Heap, pool: Pool, p: int, words: nat)
    requires Valid(pool, h) && Free(h.bs, p) && MIN_WORDS <= words && words + MIN_WORDS <= h.bs[p].size
    ensures var (r, h') := Taken(h, p, words);
            && Tiles(h'.bs, pool) && Used(h'.bs, r.p)
            && Release(h', pool, r.p) == Heap(h.bs, [p] + Without(h.free, p))
  {
    hide *;
    FreeFacts(h, pool, p);
    var first, second := Block(h.bs[p].size - words, false), Block(words, true);
    TakenTail(h, p, words);
    CutTiles(h.bs, pool, p, first, second);
    CutDisjoint(h.bs, pool, p, first, second);
    ReleaseUndoesTail(h.bs, pool, p, words);
    ReleaseIs(Taken(h, p, words).1, pool, Taken(h, p, words).0.p);
  }

  lemma FreeFacts(h: Heap, pool: Pool, p: int)
    requires Valid(pool, h) && Free(h.bs, p)
    ensures Tiles(h.bs, pool) && pool.min == MIN_WORDS == 4 && Settled(h.bs, p)
    ensures p in h.bs && SizeOf(h.bs, p) == h.bs[p].size
  {
    hide Tiles, ListsFree, Settled;
  }

  lemma TakenTail(h: Heap, p: int, words: nat)
    requires SizeOf(h.bs, p) >= words + MIN_WORDS
    ensures var n := SizeOf(h.bs, p);
            Taken(h, p, words) ==
            (Allocated(p + (n - words)), Heap(Cut(h.bs, p, Block(n - words, false), Block(words, true)), h.free))
  {
    hide Cut, SizeOf;
  }

  lemma ReleaseIs(h: Heap, pool: Pool, p: int)
    requires Tiles(h.bs, pool) && Used(h.bs, p) && !Free(h.bs, End(h.bs, p)) && MergedStart(h.bs, pool, p) < p
    ensures Release(h, pool, p) ==
            (var b := MergedStart(h.bs, pool, p); Heap(Released(h.bs, pool, p), [b] + Without(h.free, b)))
  {
    hide Tiles, MergedStart, Released, Without;
  }

  /** So the undo is exact, the order of the list included, exactly when the chunk at the head of the list reaches the
      rounded size. */
  lemma UndoExactIff(h: Heap, pool: Pool, request: nat)
    requires Valid(pool, h) && request < WORD_LIMIT && Alloc(h, request).0.Allocated?
    ensures var (r, h') := Alloc(h, request);
            && Tiles(h'.bs, pool) && r.p in h'.bs && h.free != [] && h.free[0] in h.bs
            && (Release(h', pool, r.p) == h <==> Rounded(request) <= WORD * h.bs[h.free[0]].size)
  {
    HeadReaches(h, pool, request);
    AllocThenRelease(h, pool, request);
    var i := FirstFit(h.bs, h.free, Rounded(request) / WORD, 0);
    hide Release, Taken, Rounded, FirstFit;
    HeadMoved(h.free, i);
  }

  lemma HeadReaches(h: Heap, pool: Pool, request: nat)
    requires Valid(pool, h) && request < WORD_LIMIT && h.free != []
    ensures h.free[0] in h.bs
    ensures FirstFit(h.bs, h.free, Rounded(request) / WORD, 0) == 0 <==>
            Rounded(request) <= WORD * h.bs[h.free[0]].size
  {
    RoundedSuffices(request);
    FirstFitStep(h.bs, h.free, Rounded(request) / WORD, 0);
    assert Free(h.bs, h.free[0]);
    hide Rounded, FirstFit, Tiles, Coalesced, NoDuplicates;
  }

  /** Two free chunks, of 16 and of 40 bytes, with a used one between; the small one is at the head of the list. */
  const TWO_FREE: Heap :=
    Heap(map[10 := Block(4, false), 14 := Block(4, true), 18 := Block(10, false)], [10, 18])

  const SMALL_POOL: Pool := Pool(10, 28, 4)

  lemma TwoFreeTiles()
    ensures Tiles(TWO_FREE.bs, SMALL_POOL) && Coalesced(TWO_FREE.bs)
  {
    hide ListsFree;
  }

  lemma TwoFreeListed()
    ensures ListsFree(TWO_FREE.bs, TWO_FREE.free) && PoolOk(SMALL_POOL)
  {
    hide Tiles, Coalesced;
    assert forall p :: Free(TWO_FREE.bs, p) <==> p == 10 || p == 18;
    assert TWO_FREE.free[0] == 10 && TWO_FREE.free[1] == 18;
  }

  lemma TwoFreeServes()
    ensures Rounded(32) == 40 && FirstFit(TWO_FREE.bs, TWO_FREE.free, 10, 0) == 1
    ensures Alloc(TWO_FREE, 32).0 == Allocated(18) && Without(TWO_FREE.free, 18) == [10]
  {
    FirstFitStep(TWO_FREE.bs, TWO_FREE.free, 10, 0);
    FirstFitStep(TWO_FREE.bs, TWO_FREE.free, 10, 1);
    hide FirstFit, Cut;
  }

  /** After 32 bytes have been allocated and freed, the large chunk is at the head. */
  lemma UndoExample()
    ensures var (r, h') := Alloc(TWO_FREE, 32);
            && Valid(SMALL_POOL, TWO_FREE) && r.Allocated? && Tiles(h'.bs, SMALL_POOL) && r.p in h'.bs
            && Release(h', SMALL_POOL, r.p) == Heap(TWO_FREE.bs, [18, 10])
  {
    hide Tiles, Coalesced, ListsFree, Release, Alloc, FirstFit, Rounded, Without, Valid;
    TwoFreeTiles();
    TwoFreeListed();
    TwoFreeServes();
    ValidIs(TWO_FREE, SMALL_POOL);
    AllocThenRelease(TWO_FREE, SMALL_POOL, 32);
  }

  lemma HeadMoved(s: seq<int>, i: nat)
    requires NoDuplicates(s) && i < |s|
    ensures [s[i]] + Without(s, s[i]) == s <==> i == 0
  {
    assert IndexOf(s, s[i]) == i;
    if i == 0 {
      assert [s[0]] + s[1..] == s;
    } else {
      assert ([s[i]] + Without(s, s[i]))[0] == s[i];
    }
  }

  // ---------------------------------------------------------------- runs

  /** The heap ffs_init leaves: one free chunk. */
  function Fresh(pool: Pool): Heap {
    Heap(map[pool.lo := Block(if pool.hi < pool.lo then 0 else pool.hi - pool.lo, false)], [pool.lo])
  }

  lemma FreshValid(pool: Pool)
    requires PoolOk(pool)
    ensures Valid(pool, Fresh(pool))
  {
  }

  datatype Call = AllocCall(request: nat) | FreeCall(p: int)

  /** What a client must respect: requests within range, only chunks in use are freed. */
  predicate Allowed(h: Heap, call: Call) {
    match call
    case AllocCall(request) => request < WORD_LIMIT && Alloc(h, request).0 != Undefined
    case FreeCall(p) => Used(h.bs, p)
  }

  ghost function Step(pool: Pool, h: Heap, call: Call): Heap {
    match call
    case AllocCall(request) => Alloc(h, request).1
    case FreeCall(p) => if Tiles(h.bs, pool) && Used(h.bs, p) then Release(h, pool, p) else h
  }

  ghost function Run(pool: Pool, h: Heap, calls: seq<Call>): Heap
    decreases |calls|
  {
    if calls == [] then h else Run(pool, Step(pool, h, calls[0]), calls[1..])
  }

  ghost predicate AllAllowed(pool: Pool, h: Heap, calls: seq<Call>)
    decreases |calls|
  {
    calls != [] ==> Allowed(h, calls[0]) && AllAllowed(pool, Step(pool, h, calls[0]), calls[1..])
  }

  lemma StepValid(pool: Pool, h: Heap, call: Call)
    requires Valid(pool, h) && Allowed(h, call)
    ensures Valid(pool, Step(pool, h, call))
  {
    hide Alloc, Release;
    match call
    case AllocCall(request) => AllocValid(h, pool, request);
    case FreeCall(p) => ReleaseValid(h, pool, p);
  }

  /** The heap invariant holds after every run of a well-behaved client. */
  lemma {:induction false} RunValid(pool: Pool, h: Heap, calls: seq<Call>)
    requires Valid(pool, h) && AllAllowed(pool, h, calls)
    ensures Valid(pool, Run(pool, h, calls))
    decreases |calls|
  {
    hide Valid, Step, Allowed;
    if calls != [] {
      StepValid(pool, h, calls[0]);
      RunValid(pool, Step(pool, h, calls[0]), calls[1..]);
    }
  }

  lemma ValidTiles(pool: Pool, h: Heap)
    requires Valid(pool, h)
    ensures Tiles(h.bs, pool)
  {
  }

  lemma StepKeepsLive(pool: Pool, h: Heap, call: Call, p: int)
    requires Valid(pool, h) && Allowed(h, call)
    requires Used(h.bs, p) && call != FreeCall(p)
    ensures Used(Step(pool, h, call).bs, p) && Step(pool, h, call).bs[p] == h.bs[p]
  {
    hide Release, Rounded, FirstFit, ListsFree, Coalesced, Tiles, Cut, Without;
    assert Tiles(h.bs, pool) by { ValidTiles(pool, h); }
    match call
    case AllocCall(request) =>
      if Alloc(h, request).0.Allocated? { AllocTakes(h, pool, request); }
    case FreeCall(q) =>
      ReleaseKeeps(h, pool, q);
  }

  /** Over a whole run, a chunk in use stays in place with its size until the client frees it. */
  lemma {:induction false} RunKeepsLive(pool: Pool, h: Heap, calls: seq<Call>, p: int)
    requires Valid(pool, h) && AllAllowed(pool, h, calls)
    requires Used(h.bs, p) && FreeCall(p) !in calls
    ensures Used(Run(pool, h, calls).bs, p) && Run(pool, h, calls).bs[p] == h.bs[p]
    decreases |calls|
  {
    if calls != [] {
      hide Valid, Step, Allowed;
      StepValid(pool, h, calls[0]);
      assert calls[0] in calls;
      StepKeepsLive(pool, h, calls[0], p);
      RunKeepsLive(pool, Step(pool, h, calls[0]), calls[1..], p);
    }
  }

  /** However a run got there, a heap with nothing in use is the one the pool began with. */
  lemma NothingLeaks(pool: Pool, h: Heap)
    requires Valid(pool, h) && forall p :: !Used(h.bs, p)
    ensures h == Fresh(pool)
  {
    forall p | p in h.bs ensures !h.bs[p].used {
      assert !Used(h.bs, p);
    }
    AllFreeIsOneBlock(h.bs, pool);
    assert Free(h.bs, pool.lo);
    OnlyMember(h.free, pool.lo);
  }

  ghost predicate OnlyFrees(calls: seq<Call>) {
    forall i | 0 <= i < |calls| :: calls[i].FreeCall?
  }

  lemma StepFrees(pool: Pool, h: Heap, p: int)
    requires Valid(pool, h) && Used(h.bs, p)
    ensures forall q :: Used(Step(pool, h, FreeCall(p)).bs, q) <==> Used(h.bs, q) && q != p
  {
    hide Release, Tiles;
    ReleaseKeeps(h, pool, p);
    ValidTiles(pool, h);
    hide Valid;
  }

  lemma {:induction false} FreedGone(pool: Pool, h: Heap, calls: seq<Call>)
    requires Valid(pool, h) && AllAllowed(pool, h, calls) && OnlyFrees(calls)
    ensures forall p :: Used(Run(pool, h, calls).bs, p) ==> Used(h.bs, p) && FreeCall(p) !in calls
    decreases |calls|
  {
    hide Valid, Step, Used;
    if calls != [] {
      StepValid(pool, h, calls[0]);
      StepFrees(pool, h, calls[0].p);
      FreedGone(pool, Step(pool, h, calls[0]), calls[1..]);
    }
  }

  /** Freeing everything that is in use, in whatever order, leads back to the one free chunk the pool began with. */
  lemma FreeingAll(pool: Pool, h: Heap, calls: seq<Call>)
    requires Valid(pool, h) && AllAllowed(pool, h, calls) && OnlyFrees(calls)
    requires forall p | Used(h.bs, p) :: FreeCall(p) in calls
    ensures Run(pool, h, calls) == Fresh(pool)
  {
    hide *;
    RunValid(pool, h, calls);
    FreedGone(pool, h, calls);
    NothingLeaks(pool, Run(pool, h, calls));
  }

  lemma OnlyMember(s: seq<int>, p: int)
    requires NoDuplicates(s) && p in s && forall i | 0 <= i < |s| :: s[i] == p
    ensures s == [p]
  {
    if |s| >= 2 {
      FirstTwoDiffer(s);
    } else {
      assert s == [s[0]];
    }
  }

  lemma FirstTwoDiffer(s: seq<int>)
    requires NoDuplicates(s) && |s| >= 2
    ensures s[0] != s[1]
  {
  }
}
