/** What gma_alloc and gma_free do to the heap (lib/mm/gma.c:82-160), stated on the block map and the
    free lists, and the properties of every run. The class in Gma.dfy carries these steps out in memory. */
module GmaHeap {
  import opened Bits
  import opened GmaIndex
  import opened Tiling
  import opened FreeLists
  import opened Sequences

  const MAX_CHUNK_SIZE: nat := WORD_LIMIT - 4
  const WORD: nat := 4

  /** The constants of a memory pool descriptor. */
  datatype Config = Config(pool: Pool, flMin: nat, flMax: nat, minBytes: nat) {

    predicate Ok() {
      && 32 <= minBytes && minBytes == WORD * pool.min
      && flMin == Msb(minBytes) && flMin <= flMax < 32
      && pool.lo + pool.min <= pool.hi
      && WORD * (pool.hi - pool.lo) < Pow2(flMax + 1)
    }

    function Rows(): int {
      flMax - flMin + 1
    }
  }

  datatype Heap = Heap(bs: Blocks, lists: Lists)

  /** Index of the list for a chunk of the given number of words, counted from row fl_min. */
  function ListIndex(c: Config, words: nat): nat {
    if words < 8 || Slot(WORD * words) < SL_DIM * c.flMin then 0 else Slot(WORD * words) - SL_DIM * c.flMin
  }

  lemma ListIndexInRange(c: Config, words: nat)
    requires c.Ok() && c.pool.min <= words <= c.pool.hi - c.pool.lo
    ensures SL_DIM * c.flMin <= Slot(WORD * words)
    ensures ListIndex(c, words) == Slot(WORD * words) - SL_DIM * c.flMin < SL_DIM * c.Rows()
  {
    MsbMonotone(c.minBytes, WORD * words);
    if Msb(WORD * words) > c.flMax {
      Pow2Monotone(c.flMax + 1, Msb(WORD * words));
    }
  }

  /** Chunk sizes fit a 32-bit word and the rows of the grid. */
  lemma PoolFits(c: Config, words: nat)
    requires c.Ok() && c.pool.min <= words <= c.pool.hi - c.pool.lo
    ensures c.minBytes <= WORD * words < WORD_LIMIT && Msb(WORD * words) <= c.flMax
  {
    Pow2Constants();
    Pow2Monotone(c.flMax + 1, 32);
    if Msb(WORD * words) > c.flMax {
      Pow2Monotone(c.flMax + 1, Msb(WORD * words));
    }
  }

  /** Which list each free block belongs to. */
  ghost function FreeMap(c: Config, bs: Blocks): map<int, nat> {
    map p | p in bs && !bs[p].used :: ListIndex(c, bs[p].size)
  }

  /** The heap invariant: exact tiling, full coalescing, and free lists that agree with the blocks. */
  ghost predicate Valid(c: Config, h: Heap) {
    && c.Ok()
    && Tiles(h.bs, c.pool)
    && Coalesced(h.bs)
    && |h.lists| == SL_DIM * c.Rows()
    && Listed(h.lists, FreeMap(c, h.bs))
  }

  // ---------------------------------------------------------------- requests

  /** Header added, rounded up to 4 bytes, at least the minimal chunk; in 32-bit arithmetic. */
  function Rounded(minBytes: nat, request: nat): nat {
    var s := (request + WORD) % WORD_LIMIT;
    var aligned := (s + 3) % WORD_LIMIT / 4 * 4;
    if aligned < minBytes then minBytes else aligned
  }

  /** A chunk of the rounded size has room for the request exactly when the rounding does not wrap around. */
  lemma RoundedSuffices(minBytes: nat, request: nat)
    requires minBytes % 4 == 0 && 32 <= minBytes <= 0x8000_0000 && 0 < request < MAX_CHUNK_SIZE
    ensures Rounded(minBytes, request) % 4 == 0 && Rounded(minBytes, request) >= minBytes
    ensures Rounded(minBytes, request) - WORD >= request <==> request + 7 < WORD_LIMIT
  {
  }

  /** The rounded size is the minimal chunk, or the request with its header rounded up, or a wrapped sum. */
  lemma RoundedCases(minBytes: nat, request: nat)
    requires minBytes % 4 == 0 && 0 < request < MAX_CHUNK_SIZE
    ensures var s := Rounded(minBytes, request);
            if request + 7 >= WORD_LIMIT then s == minBytes
            else s >= request + WORD && (s == minBytes || s < request + WORD + 4)
  {
    var s := (request + WORD) % WORD_LIMIT;
    assert s == if request + WORD >= WORD_LIMIT then request + WORD - WORD_LIMIT else request + WORD;
    assert (s + 3) % WORD_LIMIT == if s + 3 >= WORD_LIMIT then s + 3 - WORD_LIMIT else s + 3;
  }

  /** Rounded sizes are aligned, which get_indexes insists on, exactly when the minimal chunk is. */
  lemma AlignedIff(minBytes: nat)
    requires 0 < minBytes < 0x8000_0000
    ensures (forall request | 0 < request < MAX_CHUNK_SIZE :: Rounded(minBytes, request) % 4 == 0) <==>
            minBytes % 4 == 0
  {
    assert Rounded(minBytes, MAX_CHUNK_SIZE - 1) == minBytes;
  }

  /** A request of 4294967289 bytes, which gma_alloc accepts, rounds to the minimal chunk. */
  lemma RoundingWraps()
    ensures 4294967289 < MAX_CHUNK_SIZE && Rounded(32, 4294967289) == 32
  {
  }

  lemma RoundedAligned(minBytes: nat, request: nat)
    requires minBytes % 4 == 0
    ensures Rounded(minBytes, request) % 4 == 0 && Rounded(minBytes, request) >= minBytes
  {
  }

  /** The size looked up wraps around to less than the grid's first row holds: the code indexes outside of it. */
  predicate Stray(c: Config, bytes: nat) {
    bytes >= 32 && Bumped32(bytes) < Pow2(c.flMin)
  }

  /** The sum in the split test wraps around. */
  predicate SplitWraps(c: Config, bytes: nat) {
    bytes + c.minBytes >= WORD_LIMIT
  }

  // ---------------------------------------------------------------- allocation

  /** First list that is searched for `bytes` bytes, counted from row fl_min. */
  function SearchFrom(c: Config, bytes: nat): nat {
    if bytes < 32 || Bumped32(bytes) < 32 || SearchSlot(bytes) < SL_DIM * c.flMin then 0
    else SearchSlot(bytes) - SL_DIM * c.flMin
  }

  /** The list a chunk is taken from; the number of lists when there is none. */
  function ChosenIn(c: Config, lists: Lists, bytes: nat): (k: nat)
    ensures k <= |lists| && (k < |lists| ==> lists[k] != [])
  {
    if SearchFrom(c, bytes) >= |lists| then |lists| else FirstFrom(lists, SearchFrom(c, bytes))
  }

  function ChosenList(c: Config, h: Heap, bytes: nat): nat {
    ChosenIn(c, h.lists, bytes)
  }

  function SizeOf(bs: Blocks, p: int): nat {
    if p in bs then bs[p].size else 0
  }

  /** The heap after an allocation takes the first chunk of list k for `words` words. */
  function Taken(c: Config, h: Heap, k: nat, words: nat): Heap
    requires k < |h.lists| && h.lists[k] != []
  {
    var p := h.lists[k][0];
    var lists, n := Remove(h.lists, k, p), SizeOf(h.bs, p);
    if n >= words + c.pool.min then
      Heap(Cut(h.bs, p, Block(words, true), Block(n - words, false)),
           Insert(lists, ListIndex(c, n - words), p + words))
    else
      Heap(h.bs[p := Block(n, true)], lists)
  }

  /** Undefined: the code reads outside of its index, or cuts a chunk where no minimal remainder is left. */
  datatype Outcome = NoMemory | Allocated(p: int) | Undefined

  /** What the client gets: the first word after the chunk's header, or 0 for no memory. */
  function UsableAddress(outcome: Outcome): int {
    match outcome
    case Allocated(p) => p + 2
    case _ => 0
  }

  /** The split test, in 32-bit arithmetic. */
  predicate Splits(c: Config, bytes: nat, words: nat) {
    WORD * words >= (bytes + c.minBytes) % WORD_LIMIT
  }

  /** gma_alloc: the chunk it returns, if any, and the new heap. */
  function Alloc(c: Config, h: Heap, request: nat): (Outcome, Heap) {
    var s := Rounded(c.minBytes, request);
    var k := ChosenList(c, h, s);
    if Stray(c, s) then (Undefined, h)
    else if k == |h.lists| then (NoMemory, h)
    else
      var p := h.lists[k][0];
      if Splits(c, s, SizeOf(h.bs, p)) && WORD * SizeOf(h.bs, p) < s + c.minBytes then (Undefined, h)
      else (Allocated(p), Taken(c, h, k, s / WORD))
  }

  /** gma_free on a chunk in use: join with free neighbours, then put the result at the head of its list. */
  ghost function Release(c: Config, h: Heap, p: int): Heap
    requires Tiles(h.bs, c.pool) && Used(h.bs, p)
  {
    var b, e := MergedStart(h.bs, c.pool, p), MergedEnd(h.bs, p);
    ReleasedBlocks(h.bs, c.pool, p);
    Heap(Released(h.bs, c.pool, p), Insert(Detached(c, h, p), ListIndex(c, e - b), b))
  }

  ghost function DetachedBefore(c: Config, h: Heap, p: int): Lists
    requires Tiles(h.bs, c.pool) && Used(h.bs, p)
  {
    var b := MergedStart(h.bs, c.pool, p);
    if b < p then Remove(h.lists, ListIndex(c, h.bs[b].size), b) else h.lists
  }

  /** The lists without the free neighbours of p. */
  ghost function Detached(c: Config, h: Heap, p: int): Lists
    requires Tiles(h.bs, c.pool) && Used(h.bs, p)
  {
    var a := End(h.bs, p);
    if Free(h.bs, a) then Remove(DetachedBefore(c, h, p), ListIndex(c, h.bs[a].size), a)
    else DetachedBefore(c, h, p)
  }

  // ---------------------------------------------------------------- the invariant on every run

  lemma ListMember(c: Config, h: Heap, k: nat, i: nat)
    requires Valid(c, h) && k < |h.lists| && i < |h.lists[k]|
    ensures Free(h.bs, h.lists[k][i])
    ensures Slot(WORD * h.bs[h.lists[k][i]].size) == k + SL_DIM * c.flMin
  {
    assert ListSound(h.lists[k], k, FreeMap(c, h.bs));
    var p := h.lists[k][i];
    assert p in h.bs && Bounded(h.bs, c.pool) && End(h.bs, p) <= c.pool.hi;
    ListIndexInRange(c, h.bs[p].size);
  }

  lemma SearchFromInRange(c: Config, bytes: nat)
    requires c.Ok() && c.minBytes <= bytes && !Stray(c, bytes)
    ensures Bumped32(bytes) >= 32 && c.flMin <= Msb(Bumped32(bytes))
    ensures SearchFrom(c, bytes) == SearchSlot(bytes) - SL_DIM * c.flMin
  {
    hide Slot, SearchSlack, Bumped32;
    FirstRow(c);
    if Msb(Bumped32(bytes)) < c.flMin {
      Pow2Monotone(Msb(Bumped32(bytes)) + 1, c.flMin);
    }
  }

  lemma FirstRow(c: Config)
    requires c.Ok()
    ensures 32 <= Pow2(c.flMin) <= c.minBytes
  {
    MsbMonotone(32, c.minBytes);
    Pow2Constants();
    MsbUnique(32, 5);
    assert Pow2(6) == 64;
    Pow2Monotone(5, c.flMin);
  }

  /** Without a wrap the search stays in the grid. */
  lemma UnwrappedSearch(c: Config, bytes: nat)
    requires c.Ok() && c.minBytes <= bytes && !SearchWraps(bytes)
    ensures !Stray(c, bytes)
  {
    hide SearchSlack, SearchWraps;
    FirstRow(c);
    Bumped32Is(bytes);
  }

  /** Every chunk in the chosen list reaches the threshold. */
  lemma ChosenReaches(c: Config, h: Heap, bytes: nat, i: nat)
    requires Valid(c, h) && c.minBytes <= bytes && !Stray(c, bytes)
    requires var k := ChosenList(c, h, bytes); k < |h.lists| && i < |h.lists[k]|
    ensures Bumped32(bytes) >= 32
    ensures var p := h.lists[ChosenList(c, h, bytes)][i];
            Free(h.bs, p) && Threshold(bytes) <= WORD * h.bs[p].size
  {
    var k := ChosenList(c, h, bytes);
    SearchFromInRange(c, bytes);
    ListMember(c, h, k, i);
    hide Valid, Slot, SlotMin, Bumped32, Msb, Pow2;
    SearchExact(bytes, WORD * h.bs[h.lists[k][i]].size);
  }

  /** Search soundness: unless the size looked up wraps around, every chunk in the chosen list is large enough, so its
      head needs no size check. */
  lemma ChosenIsLargeEnough(c: Config, h: Heap, bytes: nat, i: nat)
    requires Valid(c, h) && c.minBytes <= bytes && bytes % 4 == 0 && !SearchWraps(bytes)
    requires var k := ChosenList(c, h, bytes); k < |h.lists| && i < |h.lists[k]|
    ensures var p := h.lists[ChosenList(c, h, bytes)][i];
            Free(h.bs, p) && bytes <= WORD * h.bs[p].size
  {
    hide *;
    ValidFacts(c, h);
    UnwrappedSearch(c, bytes);
    ThresholdBounds(bytes);
    ChosenReaches(c, h, bytes, i);
  }

  lemma TakenValid(c: Config, h: Heap, k: nat, words: nat)
    requires Valid(c, h) && k < |h.lists| && h.lists[k] != [] && c.pool.min <= words
    ensures Valid(c, Taken(c, h, k, words))
  {
    hide Slot, Msb, Pow2, Without, Cut;
    var p := h.lists[k][0];
    ListMember(c, h, k, 0);
    assert ListSound(h.lists[k], k, FreeMap(c, h.bs));
    RemoveListed(h.lists, FreeMap(c, h.bs), p);
    if h.bs[p].size >= words + c.pool.min {
      CutValid(c, h, p, words);
    } else {
      TakeTiles(h.bs, c.pool, p);
      assert FreeMap(c, h.bs[p := Block(h.bs[p].size, true)]) == FreeMap(c, h.bs) - {p};
    }
  }

  lemma CutValid(c: Config, h: Heap, p: int, words: nat)
    requires Valid(c, h) && Free(h.bs, p) && c.pool.min <= words && words + c.pool.min <= h.bs[p].size
    requires Listed(Remove(h.lists, ListIndex(c, h.bs[p].size), p), FreeMap(c, h.bs) - {p})
    ensures var n := h.bs[p].size;
            Valid(c, Heap(Cut(h.bs, p, Block(words, true), Block(n - words, false)),
                          Insert(Remove(h.lists, ListIndex(c, n), p), ListIndex(c, n - words), p + words)))
  {
    hide Slot, Msb, Pow2, Without, Cut, Disjoint;
    var n := h.bs[p].size;
    var first, second := Block(words, true), Block(n - words, false);
    CutTiles(h.bs, c.pool, p, first, second);
    CutCoalesced(h.bs, c.pool, p, first, second);
    ListIndexInRange(c, n - words);
    InsertListed(Remove(h.lists, ListIndex(c, n), p), FreeMap(c, h.bs) - {p}, ListIndex(c, n - words), p + words);
    CutFreeMap(c, h.bs, p, words);
    assert Tiles(Cut(h.bs, p, first, second), c.pool) && Coalesced(Cut(h.bs, p, first, second));
  }

  lemma CutFreeMap(c: Config, bs: Blocks, p: int, words: nat)
    requires Free(bs, p) && 0 < words <= bs[p].size && p + words !in bs
    ensures FreeMap(c, Cut(bs, p, Block(words, true), Block(bs[p].size - words, false)))
         == (FreeMap(c, bs) - {p})[p + words := ListIndex(c, bs[p].size - words)]
  {
  }

  lemma AllocValid(c: Config, h: Heap, request: nat)
    requires Valid(c, h) && Alloc(c, h, request).0 != Undefined
    ensures Valid(c, Alloc(c, h, request).1)
  {
    var s := Rounded(c.minBytes, request);
    hide Valid, Taken, ChosenIn, Rounded, Stray, Splits;
    AlignedWords(c, h, request);
    if ChosenList(c, h, s) < |h.lists| {
      TakenValid(c, h, ChosenList(c, h, s), s / WORD);
    }
  }

  lemma DetachedListed(c: Config, h: Heap, p: int)
    requires Valid(c, h) && Used(h.bs, p)
    ensures Listed(Detached(c, h, p), FreeMap(c, h.bs) - {MergedStart(h.bs, c.pool, p), End(h.bs, p)})
    ensures |Detached(c, h, p)| == |h.lists|
  {
    hide Listed, Remove, ListIndex, Slot, Bounded, Disjoint, Followed, Coalesced;
    var free, b, a := FreeMap(c, h.bs), MergedStart(h.bs, c.pool, p), End(h.bs, p);
    if b < p {
      RemoveListed(h.lists, free, b);
      RemoveLength(h.lists, free[b], b);
    } else {
      assert free - {b} == free;
    }
    if Free(h.bs, a) {
      RemoveListed(DetachedBefore(c, h, p), free - {b}, a);
      RemoveLength(DetachedBefore(c, h, p), free[a], a);
      assert free - {b} - {a} == free - {b, a};
    } else {
      assert free - {b} == free - {b, a};
    }
  }

  lemma ReleasedFreeMap(c: Config, bs: Blocks, p: int)
    requires Tiles(bs, c.pool) && Used(bs, p)
    ensures var b, e := MergedStart(bs, c.pool, p), MergedEnd(bs, p);
            e > b && FreeMap(c, Released(bs, c.pool, p))
                  == (FreeMap(c, bs) - {b, End(bs, p)})[b := ListIndex(c, e - b)]
  {
    ReleasedBlocks(bs, c.pool, p);
  }

  lemma ReleaseValid(c: Config, h: Heap, p: int)
    requires Valid(c, h) && Used(h.bs, p)
    ensures Valid(c, Release(c, h, p))
  {
    hide *;
    ValidFacts(c, h);
    var b, e := MergedStart(h.bs, c.pool, p), MergedEnd(h.bs, p);
    DetachedListed(c, h, p);
    ReleasedFreeMap(c, h.bs, p);
    ReleasedTiles(h.bs, c.pool, p);
    ReleasedCoalesced(h.bs, c.pool, p);
    ReleasedSize(h.bs, c.pool, p);
    IndexInLists(c, h, e - b);
    InsertListed(Detached(c, h, p), FreeMap(c, h.bs) - {b, End(h.bs, p)}, ListIndex(c, e - b), b);
    ReleaseFrom(c, h, p);
  }

  lemma ValidFacts(c: Config, h: Heap)
    requires Valid(c, h)
    ensures c.Ok() && Tiles(h.bs, c.pool) && Coalesced(h.bs)
    ensures forall p | Used(h.bs, p) :: p in h.bs
  {
  }

  lemma IndexInLists(c: Config, h: Heap, words: nat)
    requires Valid(c, h) && c.pool.min <= words <= c.pool.hi - c.pool.lo
    ensures ListIndex(c, words) < |h.lists|
  {
    hide Slot, Msb, Tiles, Coalesced, Listed, Pow2;
    ListIndexInRange(c, words);
  }

  lemma ReleaseFrom(c: Config, h: Heap, p: int)
    requires Valid(c, h) && Used(h.bs, p) && |Detached(c, h, p)| == |h.lists|
    requires var b, e, rel := MergedStart(h.bs, c.pool, p), MergedEnd(h.bs, p), Released(h.bs, c.pool, p);
             && e > b && Tiles(rel, c.pool) && Coalesced(rel)
             && Listed(Insert(Detached(c, h, p), ListIndex(c, e - b), b), FreeMap(c, rel))
    ensures Valid(c, Release(c, h, p))
  {
    hide Tiles, Coalesced, Listed, FreeMap, Released, MergedStart, MergedEnd, Detached, ListIndex, Slot, Msb, Pow2;
  }

  /** The joined block is one of the pool. */
  lemma ReleasedSize(bs: Blocks, pool: Pool, p: int)
    requires Tiles(bs, pool) && Used(bs, p)
    ensures pool.min <= MergedEnd(bs, p) - MergedStart(bs, pool, p) <= pool.hi - pool.lo
  {
    ReleasedTiles(bs, pool, p);
    ReleasedBlocks(bs, pool, p);
    var b := MergedStart(bs, pool, p);
    assert Bounded(Released(bs, pool, p), pool) && b in Released(bs, pool, p);
    hide MergedStart, MergedEnd, Released;
  }

  // ---------------------------------------------------------------- what a client sees

  /** The rounded size. */
  lemma RoundedBounds(c: Config, h: Heap, request: nat)
    requires Valid(c, h)
    ensures var s := Rounded(c.minBytes, request);
            32 <= c.minBytes <= s < WORD_LIMIT && s % 4 == 0
  {
    hide *;
    MinBounds(c, h);
    RoundedAligned(c.minBytes, request);
    RoundedBelow(c.minBytes, request);
  }

  lemma RoundedBelow(minBytes: nat, request: nat)
    requires minBytes < WORD_LIMIT
    ensures Rounded(minBytes, request) < WORD_LIMIT
  {
  }

  lemma MinBounds(c: Config, h: Heap)
    requires Valid(c, h)
    ensures 32 <= c.minBytes < WORD_LIMIT && c.minBytes % 4 == 0
    ensures c.minBytes == WORD * c.pool.min == 4 * c.pool.min
  {
    hide Tiles, Coalesced, Listed, FreeMap, Msb, Pow2;
    PoolFits(c, c.pool.min);
  }

  lemma ListedSize(c: Config, h: Heap, k: nat, i: nat)
    requires Valid(c, h) && k < |h.lists| && i < |h.lists[k]|
    ensures var n := SizeOf(h.bs, h.lists[k][i]);
            && c.pool.min <= n && WORD * n < WORD_LIMIT && c.minBytes == WORD * c.pool.min
  {
    ListMember(c, h, k, i);
    var p := h.lists[k][i];
    assert p in h.bs && Bounded(h.bs, c.pool) && End(h.bs, p) <= c.pool.hi;
    PoolFits(c, h.bs[p].size);
  }

  /** A split test that wraps passes for every chunk, and none leaves room; one that does not wrap is what it looks
      like. */
  lemma HeadSplits(c: Config, h: Heap, bytes: nat, k: nat)
    requires Valid(c, h) && k < |h.lists| && h.lists[k] != [] && bytes < WORD_LIMIT
    ensures var n := SizeOf(h.bs, h.lists[k][0]);
            && c.pool.min <= n
            && (!SplitWraps(c, bytes) ==> (Splits(c, bytes, n) <==> WORD * n >= bytes + c.minBytes))
            && (SplitWraps(c, bytes) ==> Splits(c, bytes, n) && WORD * n < bytes + c.minBytes)
  {
    hide *;
    ListedSize(c, h, k, 0);
    MinBounds(c, h);
    SplitCases(c, bytes, SizeOf(h.bs, h.lists[k][0]));
  }

  lemma SplitCases(c: Config, bytes: nat, n: nat)
    requires bytes < WORD_LIMIT && c.minBytes < WORD_LIMIT && WORD * n < WORD_LIMIT && c.minBytes <= WORD * n
    ensures !SplitWraps(c, bytes) ==> (Splits(c, bytes, n) <==> WORD * n >= bytes + c.minBytes)
    ensures SplitWraps(c, bytes) ==> Splits(c, bytes, n) && WORD * n < bytes + c.minBytes
  {
    var sum := bytes + c.minBytes;
    assert sum % WORD_LIMIT == if sum >= WORD_LIMIT then sum - WORD_LIMIT else sum;
  }

  /** What a successful gma_alloc hands out: a chunk that was free, reached the threshold and is now in use; of the
      rounded size and less than a minimal chunk to spare, or the whole chunk if that was too small; every other chunk
      in use is untouched. */
  lemma AllocTakes(c: Config, h: Heap, request: nat)
    requires Valid(c, h) && Alloc(c, h, request).0.Allocated?
    ensures var (r, h') := Alloc(c, h, request);
            var s := Rounded(c.minBytes, request);
            && c.minBytes <= s && Bumped32(s) >= 32 && !Stray(c, s) && !SplitWraps(c, s)
            && Free(h.bs, r.p) && Used(h'.bs, r.p) && Threshold(s) <= WORD * h.bs[r.p].size
            && c.minBytes <= WORD * h'.bs[r.p].size < s + c.minBytes
            && (if WORD * h.bs[r.p].size < s then h'.bs[r.p].size == h.bs[r.p].size
                else s <= WORD * h'.bs[r.p].size <= WORD * h.bs[r.p].size)
            && forall q | q != r.p :: Used(h'.bs, q) == Used(h.bs, q) && (Used(h.bs, q) ==> h'.bs[q] == h.bs[q])
  {
    var s := Rounded(c.minBytes, request);
    RoundedBounds(c, h, request);
    var k := ChosenList(c, h, s);
    ChosenReaches(c, h, s, 0);
    HeadSplits(c, h, s, k);
    TakenBlocks(c, h, k, s / WORD);
    hide Valid, Slot, Msb, SearchSlack, Rounded, Pow2, SlotMin, Bumped32, Stray, ChosenIn, SplitWraps, Splits, Taken;
  }

  lemma TakenBlocks(c: Config, h: Heap, k: nat, words: nat)
    requires Valid(c, h) && k < |h.lists| && h.lists[k] != [] && c.pool.min <= words
    ensures var p, h' := h.lists[k][0], Taken(c, h, k, words);
            var n := SizeOf(h.bs, p);
            && Free(h.bs, p) && Used(h'.bs, p) && h.bs[p].size == n && c.minBytes == WORD * c.pool.min
            && h'.bs[p].size == (if n >= words + c.pool.min then words else n)
            && forall q | q != p :: Used(h'.bs, q) == Used(h.bs, q) && (Used(h.bs, q) ==> h'.bs[q] == h.bs[q])
  {
    hide Slot, Msb, SearchSlack, Pow2, Remove, Insert;
    ListMember(c, h, k, 0);
    var p := h.lists[k][0];
    if h.bs[p].size >= words + c.pool.min {
      CutDisjoint(h.bs, c.pool, p, Block(words, true), Block(h.bs[p].size - words, false));
    }
  }
  /** gma_free gives back exactly the chunk: every other chunk in use is untouched. */
  lemma ReleaseKeeps(c: Config, h: Heap, p: int)
    requires Valid(c, h) && Used(h.bs, p)
    ensures var h' := Release(c, h, p);
            && !Used(h'.bs, p)
            && forall q | q != p :: Used(h'.bs, q) == Used(h.bs, q) && (Used(h.bs, q) ==> h'.bs[q] == h.bs[q])
  {
    ReleasedBlocks(h.bs, c.pool, p);
  }

  // ---------------------------------------------------------------- undo

  /** What gma_alloc has taken is in use, with nothing free before it. */
  ghost predicate TakenAlone(c: Config, h: Heap, k: nat, words: nat) {
    && k < |h.lists| && h.lists[k] != []
    && var p, h' := h.lists[k][0], Taken(c, h, k, words);
       Valid(c, h') && Used(h'.bs, p) && MergedStart(h'.bs, c.pool, p) == p
  }

  /** A chunk that was just allocated has a used neighbour before it. */
  lemma NothingFreeBefore(c: Config, h: Heap, k: nat, words: nat)
    requires Valid(c, h) && k < |h.lists| && h.lists[k] != [] && c.pool.min <= words
    ensures TakenAlone(c, h, k, words)
  {
    hide Slot, Msb, Pow2, ListIndex, Remove, Insert, Listed, FreeMap, Bounded, Disjoint, Followed;
    TakenValid(c, h, k, words);
    ListMember(c, h, k, 0);
    var p, h' := h.lists[k][0], Taken(c, h, k, words);
    assert Settled(h.bs, MergedStart(h'.bs, c.pool, p));
  }

  /** gma_free right after gma_alloc restores the heap: boundaries, flags, and the order of every list. */
  lemma AllocThenRelease(c: Config, h: Heap, request: nat)
    requires Valid(c, h)
    requires Alloc(c, h, request).0.Allocated?
    ensures var (r, h') := Alloc(c, h, request);
            Valid(c, h') && Used(h'.bs, r.p) && Release(c, h', r.p) == h
  {
    hide Taken, Release, Valid, Rounded, ChosenIn, Stray, Splits;
    var s := Rounded(c.minBytes, request);
    var k := ChosenList(c, h, s);
    assert c.minBytes % 4 == 0 && c.pool.min <= s / WORD by { AlignedWords(c, h, request); }
    TakenThenRelease(c, h, k, s / WORD);
  }

  lemma AlignedWords(c: Config, h: Heap, request: nat)
    requires Valid(c, h)
    ensures c.minBytes % 4 == 0 && c.pool.min <= Rounded(c.minBytes, request) / WORD
  {
    hide *;
    MinBounds(c, h);
    RoundedAligned(c.minBytes, request);
    WordsAtLeast(c.pool.min, Rounded(c.minBytes, request));
  }

  lemma WordsAtLeast(words: nat, bytes: nat)
    requires 4 * words <= bytes
    ensures words <= bytes / WORD
  {
  }

  lemma TakenThenRelease(c: Config, h: Heap, k: nat, words: nat)
    requires Valid(c, h) && k < |h.lists| && h.lists[k] != [] && c.pool.min <= words
    ensures var p, h' := h.lists[k][0], Taken(c, h, k, words);
            Valid(c, h') && Used(h'.bs, p) && Release(c, h', p) == h
  {
    hide *;
    NothingFreeBefore(c, h, k, words);
    if SizeOf(h.bs, h.lists[k][0]) >= words + c.pool.min {
      CutThenRelease(c, h, k, words);
    } else {
      WholeThenRelease(c, h, k, words);
    }
  }

  lemma CutThenRelease(c: Config, h: Heap, k: nat, words: nat)
    requires k < |h.lists| && h.lists[k] != []
    requires Valid(c, h) && TakenAlone(c, h, k, words) && c.pool.min <= words
    requires SizeOf(h.bs, h.lists[k][0]) >= words + c.pool.min
    ensures var p, h' := h.lists[k][0], Taken(c, h, k, words);
            Valid(c, h') && Used(h'.bs, p) && Release(c, h', p) == h
  {
    hide *;
    ListedIndex(c, h, k, 0);
    InsertRemovedHead(h.lists, k);
    var p := h.lists[k][0];
    var n := h.bs[p].size;
    IndexInLists(c, h, n - words);
    RemoveLength(h.lists, k, p);
    RemoveInserted(Remove(h.lists, k, p), ListIndex(c, n - words), p + words);
    ValidFacts(c, h);
    AloneIs(c, h, k, words);
    TakenCut(c, h, k, words);
    CutDisjoint(h.bs, c.pool, p, Block(words, true), Block(n - words, false));
    ReleaseUndoesCut(h.bs, c.pool, p, words);
    CutRelease(c, h, k, words);
  }

  lemma AloneIs(c: Config, h: Heap, k: nat, words: nat)
    requires k < |h.lists| && h.lists[k] != [] && h.lists[k][0] in h.bs
    requires Valid(c, h) && TakenAlone(c, h, k, words)
    ensures var p, h' := h.lists[k][0], Taken(c, h, k, words);
            && SizeOf(h.bs, p) == h.bs[p].size && 0 < c.pool.min
            && Tiles(h'.bs, c.pool) && p in h'.bs && MergedStart(h'.bs, c.pool, p) == p
  {
    ValidFacts(c, h);
    ValidFacts(c, Taken(c, h, k, words));
    hide Valid, Taken, MergedStart, Bounded, Disjoint;
  }

  lemma TakenCut(c: Config, h: Heap, k: nat, words: nat)
    requires k < |h.lists| && h.lists[k] != [] && SizeOf(h.bs, h.lists[k][0]) >= words + c.pool.min
    ensures var p := h.lists[k][0];
            Taken(c, h, k, words).bs == Cut(h.bs, p, Block(words, true), Block(SizeOf(h.bs, p) - words, false))
  {
    hide Cut, Remove, Insert, ListIndex, SizeOf;
  }

  lemma CutRelease(c: Config, h: Heap, k: nat, words: nat)
    requires TakenAlone(c, h, k, words) && h.lists[k][0] in h.bs && h.bs[h.lists[k][0]].size >= words + c.pool.min
    requires var p := h.lists[k][0];
             var cut, n := Taken(c, h, k, words).bs, h.bs[p].size;
             && Used(cut, p) && End(cut, p) == p + words && Free(cut, p + words) && cut[p + words].size == n - words
             && Tiles(cut, c.pool) && MergedEnd(cut, p) == p + n && Released(cut, c.pool, p) == h.bs
             && k == ListIndex(c, n) && Insert(Remove(h.lists, k, p), k, p) == h.lists
             && var lists, i := Remove(h.lists, k, p), ListIndex(c, n - words);
                Remove(Insert(lists, i, p + words), i, p + words) == lists
    ensures var p, h' := h.lists[k][0], Taken(c, h, k, words);
            Valid(c, h') && Used(h'.bs, p) && Release(c, h', p) == h
  {
    hide Valid, Tiles, MergedStart, MergedEnd, Released, Insert, Remove, ListIndex, Cut, End, Used;
  }

  lemma WholeThenRelease(c: Config, h: Heap, k: nat, words: nat)
    requires k < |h.lists| && h.lists[k] != []
    requires Valid(c, h) && TakenAlone(c, h, k, words) && c.pool.min <= words
    requires SizeOf(h.bs, h.lists[k][0]) < words + c.pool.min
    ensures var p, h' := h.lists[k][0], Taken(c, h, k, words);
            Valid(c, h') && Used(h'.bs, p) && Release(c, h', p) == h
  {
    hide Slot, Msb, Remove, Insert, Pow2, ListIndex, Tiles, Coalesced, Listed, FreeMap, MergedStart, MergedEnd,
      Released, Used, End;
    ValidFacts(c, h);
    ListedIndex(c, h, k, 0);
    InsertRemovedHead(h.lists, k);
    ReleaseUndoesTake(h.bs, c.pool, h.lists[k][0]);
  }

  lemma ListedIndex(c: Config, h: Heap, k: nat, i: nat)
    requires Valid(c, h) && k < |h.lists| && i < |h.lists[k]|
    ensures var p := h.lists[k][i];
            && Free(h.bs, p) && p in h.bs && SizeOf(h.bs, p) == h.bs[p].size && k == ListIndex(c, h.bs[p].size)
            && c.pool.min <= h.bs[p].size <= c.pool.hi - c.pool.lo
  {
    assert ListSound(h.lists[k], k, FreeMap(c, h.bs));
    var p := h.lists[k][i];
    assert p in h.bs && Bounded(h.bs, c.pool) && End(h.bs, p) <= c.pool.hi;
    hide Slot, Msb;
  }

  // ---------------------------------------------------------------- runs

  /** The heap gma_init leaves: one free chunk. */
  function Fresh(c: Config): Heap
  {
    var n := if c.pool.hi < c.pool.lo then 0 else c.pool.hi - c.pool.lo;
    Heap(map[c.pool.lo := Block(n, false)],
         seq(if c.flMin <= c.flMax then SL_DIM * c.Rows() else 0,
             k => if k == ListIndex(c, n) then [c.pool.lo] else []))
  }

  lemma FreshValid(c: Config)
    requires c.Ok()
    ensures Valid(c, Fresh(c))
  {
    hide Slot, Msb, Pow2;
    ListIndexInRange(c, c.pool.hi - c.pool.lo);
    var h := Fresh(c);
    forall k | 0 <= k < |h.lists| ensures ListSound(h.lists[k], k, FreeMap(c, h.bs)) {
    }
  }

  datatype Call = AllocCall(request: nat) | FreeCall(p: int)

  /** What a client must respect: requests that gma_alloc accepts and whose outcome is defined; only chunks in use are
      freed. */
  predicate Allowed(c: Config, h: Heap, call: Call) {
    match call
    case AllocCall(request) => 0 < request < MAX_CHUNK_SIZE && Alloc(c, h, request).0 != Undefined
    case FreeCall(p) => Used(h.bs, p)
  }

  ghost function Step(c: Config, h: Heap, call: Call): Heap {
    match call
    case AllocCall(request) => Alloc(c, h, request).1
    case FreeCall(p) => if Tiles(h.bs, c.pool) && Used(h.bs, p) then Release(c, h, p) else h
  }

  ghost function Run(c: Config, h: Heap, calls: seq<Call>): Heap
    decreases |calls|
  {
    if calls == [] then h else Run(c, Step(c, h, calls[0]), calls[1..])
  }

  ghost predicate AllAllowed(c: Config, h: Heap, calls: seq<Call>)
    decreases |calls|
  {
    calls != [] ==> Allowed(c, h, calls[0]) && AllAllowed(c, Step(c, h, calls[0]), calls[1..])
  }

  lemma StepValid(c: Config, h: Heap, call: Call)
    requires Valid(c, h) && Allowed(c, h, call)
    ensures Valid(c, Step(c, h, call))
  {
    hide Alloc, Release;
    match call
    case AllocCall(request) => AllocValid(c, h, request);
    case FreeCall(p) => ReleaseValid(c, h, p);
  }

  /** The heap invariant holds after every run of a well-behaved client. */
  lemma {:induction false} RunValid(c: Config, h: Heap, calls: seq<Call>)
    requires Valid(c, h) && AllAllowed(c, h, calls)
    ensures Valid(c, Run(c, h, calls))
    decreases |calls|
  {
    hide Valid, Step;
    if calls != [] {
      StepValid(c, h, calls[0]);
      RunValid(c, Step(c, h, calls[0]), calls[1..]);
    }
  }

  /** Over a whole run, a chunk in use stays in place with its size until the client frees it. */
  lemma {:induction false} RunKeepsLive(c: Config, h: Heap, calls: seq<Call>, p: int)
    requires Valid(c, h) && AllAllowed(c, h, calls)
    requires Used(h.bs, p) && FreeCall(p) !in calls
    ensures Used(Run(c, h, calls).bs, p) && Run(c, h, calls).bs[p] == h.bs[p]
    decreases |calls|
  {
    if calls != [] {
      hide Valid, Step, Allowed;
      StepValid(c, h, calls[0]);
      assert calls[0] in calls;
      StepKeepsLive(c, h, calls[0], p);
      RunKeepsLive(c, Step(c, h, calls[0]), calls[1..], p);
    }
  }

  lemma StepKeepsLive(c: Config, h: Heap, call: Call, p: int)
    requires Valid(c, h) && Allowed(c, h, call)
    requires Used(h.bs, p) && call != FreeCall(p)
    ensures Used(Step(c, h, call).bs, p) && Step(c, h, call).bs[p] == h.bs[p]
  {
    hide Valid, Taken, Release, Rounded, Slot;
    match call
    case AllocCall(request) =>
      if Alloc(c, h, request).0.Allocated? { AllocTakes(c, h, request); }
    case FreeCall(q) =>
      ReleaseKeeps(c, h, q);
  }

  /** However a run got there, a heap with nothing in use is the initial heap again. */
  lemma NothingLeaks(c: Config, h: Heap)
    requires Valid(c, h) && forall p :: !Used(h.bs, p)
    ensures h == Fresh(c)
  {
    hide Slot, Msb, Pow2;
    forall p | p in h.bs ensures !h.bs[p].used {
      assert !Used(h.bs, p);
    }
    AllFreeIsOneBlock(h.bs, c.pool);
    var lo, n := c.pool.lo, c.pool.hi - c.pool.lo;
    var free := FreeMap(c, h.bs);
    assert free == map[lo := ListIndex(c, n)];
    forall k | 0 <= k < |h.lists| ensures h.lists[k] == Fresh(c).lists[k] {
      assert ListSound(h.lists[k], k, free);
      OnlyMember(h.lists[k], lo);
    }
  }

  ghost predicate OnlyFrees(calls: seq<Call>) {
    forall i | 0 <= i < |calls| :: calls[i].FreeCall?
  }

  lemma StepFrees(c: Config, h: Heap, p: int)
    requires Valid(c, h) && Used(h.bs, p)
    ensures forall q :: Used(Step(c, h, FreeCall(p)).bs, q) <==> Used(h.bs, q) && q != p
  {
    hide Release, Tiles;
    ReleaseKeeps(c, h, p);
    ValidFacts(c, h);
    hide Valid;
  }

  lemma {:induction false} FreedGone(c: Config, h: Heap, calls: seq<Call>)
    requires Valid(c, h) && AllAllowed(c, h, calls) && OnlyFrees(calls)
    ensures forall p :: Used(Run(c, h, calls).bs, p) ==> Used(h.bs, p) && FreeCall(p) !in calls
    decreases |calls|
  {
    hide Valid, Step, Used;
    if calls != [] {
      StepValid(c, h, calls[0]);
      StepFrees(c, h, calls[0].p);
      FreedGone(c, Step(c, h, calls[0]), calls[1..]);
    }
  }

  /** Freeing everything that is in use, in whatever order, leads back to the one free chunk the pool began with. */
  lemma FreeingAll(c: Config, h: Heap, calls: seq<Call>)
    requires Valid(c, h) && AllAllowed(c, h, calls) && OnlyFrees(calls)
    requires forall p | Used(h.bs, p) :: FreeCall(p) in calls
    ensures Run(c, h, calls) == Fresh(c)
  {
    hide *;
    RunValid(c, h, calls);
    FreedGone(c, h, calls);
    NothingLeaks(c, Run(c, h, calls));
  }

  lemma FirstTwoDiffer(s: seq<int>)
    requires NoDuplicates(s) && |s| >= 2
    ensures s[0] != s[1]
  {
  }

  lemma OnlyMember(s: seq<int>, p: int)
    requires NoDuplicates(s) && forall i | 0 <= i < |s| :: s[i] == p
    ensures s == if p in s then [p] else []
  {
    if |s| >= 2 {
      FirstTwoDiffer(s);
    } else if s != [] {
      assert s == [s[0]];
    }
  }

  // ---------------------------------------------------------------- gma_init

  /** One chunk in use and empty lists: the pool just before gma_init frees its first chunk. */
  function Unfreed(c: Config): Heap {
    var n := if c.pool.hi < c.pool.lo then 0 else c.pool.hi - c.pool.lo;
    Heap(map[c.pool.lo := Block(n, true)], seq(if c.flMin <= c.flMax then SL_DIM * c.Rows() else 0, k => []))
  }

  lemma UnfreedValid(c: Config)
    requires c.Ok()
    ensures Valid(c, Unfreed(c)) && Used(Unfreed(c).bs, c.pool.lo)
    ensures FreeMap(c, Unfreed(c).bs) == map[]
  {
    hide Slot, Msb, Pow2;
    var h := Unfreed(c);
    assert FreeMap(c, h.bs) == map[];
    forall k | 0 <= k < |h.lists| ensures ListSound(h.lists[k], k, FreeMap(c, h.bs)) {
    }
  }

  /** Freeing the first chunk leaves the initial heap. */
  lemma FirstRelease(c: Config)
    requires c.Ok()
    ensures Tiles(Unfreed(c).bs, c.pool) && Used(Unfreed(c).bs, c.pool.lo)
    ensures Release(c, Unfreed(c), c.pool.lo) == Fresh(c)
  {
    UnfreedValid(c);
    ReleaseValid(c, Unfreed(c), c.pool.lo);
    ReleaseKeeps(c, Unfreed(c), c.pool.lo);
    hide Valid, Release, Used;
    UnfreedOnly(c);
    NothingLeaks(c, Release(c, Unfreed(c), c.pool.lo));
  }

  lemma UnfreedOnly(c: Config)
    ensures forall q | q != c.pool.lo :: !Used(Unfreed(c).bs, q)
  {
  }
}
