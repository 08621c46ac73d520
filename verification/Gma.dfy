/** The Grid Memory Allocator itself (lib/mm/gma.c, lib/mm/gma.h), working in place on an array of words. */
module Gma {
  import opened Bits
  import opened GmaIndex
  import opened Tiling
  import opened FreeLists
  import opened GmaBitmaps
  import opened GmaMemory
  import opened Words
  import opened GmaTags
  import opened GmaGrid
  import opened GmaChunks
  import opened GmaInit
  import opened GmaSteps
  import opened GmaAllocSteps
  import GmaHeap
  import GmaRequests

  const DEF_MIN_CHUNK_SIZE: nat := 32

  /** The header of a free chunk. */
  const MIN_CHUNK_SIZE: nat := 16

  /** sizeof (gma_t) in words */
  const DESCRIPTOR_WORDS: nat := 6

  /** The segment gma_init works on, after alignment and after a descriptor placed in it. */
  function InitSegment(segment: nat, size: nat, minChunk: nat, newPool: bool): Segment {
    Segment((segment + 3) / 4 + (if newPool then DESCRIPTOR_WORDS else 0), (segment + size) / 4, size,
            MinimalChunk(minChunk))
  }

  /** The default for 0, and no less than a header. */
  function MinimalChunk(asked: nat): nat {
    if asked == 0 then DEF_MIN_CHUNK_SIZE else if asked < MIN_CHUNK_SIZE then MIN_CHUNK_SIZE else asked
  }

  /** What gma_init asserts of the size of its segment: room for the descriptor, one row of index and one chunk. */
  const MIN_POOL_SIZE: nat := 4 * DESCRIPTOR_WORDS + 4 + 4 * SL_DIM + MIN_CHUNK_SIZE

  /** Bytes of the index: a bitmap and 32 list headers for each row. */
  function IndexBytes(s: Segment): nat {
    4 * (s.Rows() + SL_DIM * s.Rows())
  }

  /** A segment is what the index formulas can handle exactly when the minimal chunk is, and there is room for the
      index, two borders and a minimal chunk: the segment's size, in whole words and without a descriptor, is that of
      all rows from the minimal chunk's to its own, two words, and the chunk. */
  lemma RoomIff(segment: nat, size: nat, minChunk: nat, newPool: bool)
    requires 0 < segment && size < WORD_LIMIT
    ensures var min := MinimalChunk(minChunk);
            InitSegment(segment, size, minChunk, newPool).Suffices() <==>
              && 32 <= min <= size && min % 4 == 0 && Msb(min) <= Msb(size)
              && 132 * (Msb(size) - Msb(min) + 1) + 8 + min + (if newPool then 24 else 0)
                 <= 4 * ((segment + size) / 4 - (segment + 3) / 4)
  {
    hide Msb;
  }

  /** A minimal chunk of 16 bytes is accepted; a request of 1 byte is then looked up as 16 bytes, whose index
      would take a shift by -1. */
  lemma ShortMinimalChunk()
    ensures MinimalChunk(16) == 16 && GmaHeap.Rounded(16, 1) == 16 && Msb(16) == 4 < L
  {
    Pow2Constants();
    MsbUnique(16, 4);
  }

  /** So is one of 33 bytes, with which a request of 1 byte is rounded to a size that is not aligned. */
  lemma UnalignedMinimalChunk()
    ensures MinimalChunk(33) == 33 && GmaHeap.Rounded(33, 1) == 33 && 33 % 4 == 1
  {
  }

  /** Where the parts of the segment are. */
  lemma SegmentBounds(segment: nat, size: nat, minChunk: nat, newPool: bool)
    requires InitSegment(segment, size, minChunk, newPool).Suffices()
    ensures size > 0
    ensures var s := InitSegment(segment, size, minChunk, newPool);
            var min := if minChunk == 0 then 32 else minChunk;
            var rows := Msb(size) - Msb(min) + 1;
            && s.minBytes == min && s.FlMin() == Msb(min) && s.FlMax() == Msb(size) && s.Rows() == rows > 0
            && s.addr == (segment + 3) / 4 + (if newPool then 6 else 0)
            && s.end == (segment + size) / 4
            && s.Config().pool == Pool(s.addr + 33 * rows, s.end - 2, min / 4) && 4 * (min / 4) == min
            && s.Config().flMin == Msb(min) && s.Config().flMax == Msb(size) && s.Config().minBytes == min
  {
    hide Msb;
  }

  lemma OutsideSegment(s: Segment, lay: Layout)
    requires s.Suffices() && lay == s.Lay()
    ensures forall w :: Outside(lay, s.Config().pool, w) <==> w < s.addr || s.end <= w
  {
    hide Msb;
  }

  lemma AtMeans(m: Mem)
    ensures forall w: int {:trigger At(m, w)} :: At(m, w) == if 0 <= w < |m| then m[w] else 0
  {
  }

  /** A segment of 172 bytes passes the assertion, and its index alone takes 396. */
  lemma MinPoolSizeShort()
    ensures MIN_POOL_SIZE == 172
    ensures var s := InitSegment(4, 172, 32, false);
            4 * (s.end - s.addr) >= MIN_POOL_SIZE && IndexBytes(s) == 396 && !s.Suffices()
  {
    Pow2Constants();
    assert Pow2(7) == 128 by { assert Pow2(8) == 2 * Pow2(7); }
    MsbUnique(172, 7);
    MsbUnique(32, 5);
    assert Pow2(6) == 64 by { assert Pow2(7) == 2 * Pow2(6); }
    hide Msb, Pow2;
  }

  /** What a client gets: a chunk that was not in use, is now, and begins two words before the address, the second of
      them its header; the words from the address on are the client's, and hold the request unless its rounding or the
      size looked up wraps around. */
  ghost predicate Given(c: GmaHeap.Config, bs: Blocks, bs': Blocks, address: int, request: nat) {
    var p, s := address - 2, GmaHeap.Rounded(c.minBytes, request);
    && !Used(bs, p) && Used(bs', p)
    && (forall w | address <= w <= End(bs', p) :: Payload(bs', p, w))
    && (request + 7 < WORD_LIMIT && s >= 32 && !SearchWraps(s) ==> request <= 4 * (End(bs', p) + 1 - address))
  }

  lemma GivenIs(c: GmaHeap.Config, bs: Blocks, bs': Blocks, p: int, request: nat)
    requires !Used(bs, p) && Used(bs', p)
    requires var s := GmaHeap.Rounded(c.minBytes, request);
             request + 7 < WORD_LIMIT && s >= 32 && !SearchWraps(s) ==>
               request <= GmaHeap.WORD * bs'[p].size - GmaHeap.WORD
    ensures Given(c, bs, bs', p + 2, request)
  {
    hide GmaHeap.Rounded, SearchWraps;
  }

  lemma AllocOutcome(c: GmaHeap.Config, h: GmaHeap.Heap, request: nat)
    requires GmaHeap.Valid(c, h) && 0 < request < GmaHeap.MAX_CHUNK_SIZE
    requires GmaHeap.Alloc(c, h, request).0 != GmaHeap.Undefined
    ensures var (r, h') := GmaHeap.Alloc(c, h, request);
            var address := GmaHeap.UsableAddress(r);
            if address == 0 then h' == h
            else
              && Given(c, h.bs, h'.bs, address, request)
              && GmaHeap.Valid(c, h') && Used(h'.bs, address - 2) && GmaHeap.Release(c, h', address - 2) == h
  {
    hide *;
    var (r, h') := GmaHeap.Alloc(c, h, request);
    OutcomeCases(c, h, request);
    if r.Allocated? {
      GmaHeap.AllocTakes(c, h, request);
      GmaRequests.AllocGives(c, h, request);
      GmaHeap.AllocThenRelease(c, h, request);
      GmaHeap.ValidFacts(c, h');
      NotInUse(h.bs, r.p);
      InPool(h'.bs, c.pool, r.p);
      GivenIs(c, h.bs, h'.bs, r.p, request);
    }
  }

  lemma OutcomeCases(c: GmaHeap.Config, h: GmaHeap.Heap, request: nat)
    ensures var (r, h') := GmaHeap.Alloc(c, h, request);
            && (r.NoMemory? ==> h' == h && GmaHeap.UsableAddress(r) == 0)
            && (r.Allocated? ==> GmaHeap.UsableAddress(r) == r.p + 2)
            && (r == GmaHeap.Undefined || r.NoMemory? || r.Allocated?)
  {
    hide GmaHeap.Taken, GmaHeap.Rounded, GmaHeap.ChosenIn, GmaHeap.Stray, GmaHeap.Splits;
  }

  lemma NotInUse(bs: Blocks, p: int)
    requires Free(bs, p)
    ensures !Used(bs, p)
  {
  }

  lemma InPool(bs: Blocks, pool: Pool, p: int)
    requires Tiles(bs, pool) && Used(bs, p)
    ensures p in bs && 0 <= pool.lo <= p
  {
    BoundedAt(bs, pool, p);
    hide Tiles;
  }

  class MemoryPool {
    const mem: array<nat>
    const flMin: nat
    const flMax: nat
    const minChunkSize: nat
    const slBitmap: nat
    const chunk: nat
    var flBitmap: nat
    ghost const c: GmaHeap.Config
    ghost var h: GmaHeap.Heap

    ghost function Lay(): Layout
    {
      Layout(slBitmap, if flMin <= flMax then flMax - flMin + 1 else 0, chunk)
    }

    /** The descriptor agrees with the configuration. */
    ghost predicate Described()
    {
      c.Ok() && flMin == c.flMin && flMax == c.flMax && minChunkSize == c.minBytes
    }

    ghost predicate Valid()
      reads this, mem
    {
      Described() && State(mem[..], flBitmap, c, h, Lay())
    }

    // -------------------------------------------------------------- gma_init

    /** Builds a pool in `size` bytes from byte address `segment` on: the index first, behind a descriptor if it
        is a new one, then a border, one free chunk and a border, up to the end; nothing outside of the segment
        is touched. The first-level bitmap is taken over from the descriptor's previous content, which must be
        clear. */
    constructor (memory: array<nat>, segment: nat, size: nat, minChunk: nat, newPool: bool)
      requires InitSegment(segment, size, minChunk, newPool).Suffices()
      requires (segment + size) / 4 <= memory.Length
      modifies memory
      ensures Valid() && mem == memory
      ensures c == InitSegment(segment, size, minChunk, newPool).Config() && h == GmaHeap.Fresh(c)
      ensures var min := if minChunk == 0 then 32 else minChunk;
              var index, rows := (segment + 3) / 4 + (if newPool then 6 else 0), Msb(size) - Msb(min) + 1;
              && flMin == Msb(min) && flMax == Msb(size) && minChunkSize == min
              && slBitmap == index && chunk == index + rows
              && c.pool.lo == index + 33 * rows && c.pool.hi == (segment + size) / 4 - 2 && 4 * c.pool.min == min
      ensures forall w | w < (segment + 3) / 4 || (segment + size) / 4 <= w ::
                At(mem[..], w) == At(old(memory[..]), w)
    {
      hide *;
      ghost var s := InitSegment(segment, size, minChunk, newPool);
      SegmentBounds(segment, size, minChunk, newPool);
      mem := memory;
      var addr, end, min, msbMin, msbSize := InitNumbers(segment, size, minChunk, newPool);
      ConfigOk(s);
      SegmentNumbers(s);
      var levels := msbSize - msbMin + 1;
      minChunkSize, flMin, flMax, flBitmap := min, msbMin, msbSize, 0;
      slBitmap, chunk := addr, addr + levels;
      c, h := s.Config(), GmaHeap.Unfreed(s.Config());
      new;
      Prepare(addr, levels, end, s);
      PreparedState(mem[..], s);
      DescribedIs(s);
      ValidIs();
      GmaHeap.FirstRelease(c);
      OutsideSegment(s, Lay());
      Free(addr + levels + DIM * levels + 2);
    }

    /** The numbers gma_init works out: aligned bounds in words, minimal chunk, first and last row. */
    static method InitNumbers(segment: nat, size: nat, minChunk: nat, newPool: bool)
      returns (addr: nat, end: nat, min: nat, msbMin: nat, msbSize: nat)
      requires InitSegment(segment, size, minChunk, newPool).Suffices()
      ensures var s := InitSegment(segment, size, minChunk, newPool);
              addr == s.addr && end == s.end && min == s.minBytes && msbMin == s.FlMin() && msbSize == s.FlMax()
    {
      addr, end := (segment + 3) / 4, (segment + size) / 4;
      if newPool {
        addr := addr + DESCRIPTOR_WORDS;
      }
      min := MinimalChunk(minChunk);
      hide Msb;
      msbMin := MsbIndex32(min);
      msbSize := MsbIndex32(size);
    }

    /** Clears the index and makes the first chunk. */
    method Prepare(addr: nat, levels: nat, end: nat, ghost s: Segment)
      requires s.Suffices() && s.addr == addr && s.Rows() == levels && s.end == end <= mem.Length
      modifies mem
      ensures Prepared(mem[..], s)
      ensures forall w | w < addr || end <= w :: At(mem[..], w) == At(old(mem[..]), w)
    {
      hide *;
      AtMeans(mem[..]);
      ghost var m := mem[..];
      SegmentNumbers(s);
      var first := addr + levels + DIM * levels;
      ClearWords(addr, levels);
      ClearWords(addr + levels, DIM * levels);
      MakeFirstChunk(first, end - first);
      PreparedIs(mem[..], s);
      AtMeans(mem[..]);
      assert forall w | 0 <= w < mem.Length && (w < addr || end <= w) :: mem[w] == m[w];
    }

    lemma DescribedIs(s: Segment)
      requires s.Suffices() && c == s.Config() && minChunkSize == s.minBytes
      requires slBitmap == s.addr && chunk == s.addr + s.Rows() && flMin == s.FlMin() && flMax == s.FlMax()
      ensures Lay() == s.Lay() && Described()
    {
      ConfigOk(s);
      hide Msb;
    }

    /** Clears `count` words: the loops over the second-level bitmaps and over the list headers. */
    method ClearWords(from: nat, count: nat)
      requires from + count <= mem.Length
      modifies mem
      ensures forall w | from <= w < from + count :: mem[w] == 0
      ensures forall w | 0 <= w < mem.Length && !(from <= w < from + count) :: mem[w] == old(mem[w])
    {
      for i := 0 to count
        invariant forall w | from <= w < from + i :: mem[w] == 0
        invariant forall w | 0 <= w < mem.Length && !(from <= w < from + i) :: mem[w] == old(mem[w])
      {
        mem[from + i] := 0;
      }
    }

    /** make_first_chunk: a border, one chunk in use, a border. */
    method MakeFirstChunk(addr: nat, words: nat)
      requires words >= 6 && addr + words <= mem.Length
      modifies mem
      ensures SizeTag(mem[addr + 1]) == words - 2 && InUse(mem[addr + 1]) && BeforeInUse(mem[addr + 1])
      ensures SizeTag(mem[addr + words - 1]) == 1 && InUse(mem[addr + words - 1]) && BeforeInUse(mem[addr + words - 1])
      ensures forall w | 0 <= w < mem.Length && !(addr <= w < addr + words) :: mem[w] == old(mem[w])
    {
      SetSizeFlags(mem[addr + 1], words - 2);
      SetInUseFlags(SetSize(mem[addr + 1], words - 2));
      SetInUseFlags(SetInUse(SetSize(mem[addr + 1], words - 2)));
      BorderFlags();
      hide *;
      mem[addr] := BORDER;
      mem[addr + 1] := SetSize(mem[addr + 1], words - 2);
      mem[addr + 1] := SetInUse(mem[addr + 1]);
      mem[addr + 1] := SetBeforeInUse(mem[addr + 1]);
      var border := addr + SizeTag(mem[addr + 1]);
      mem[border + 1] := BORDER;
      mem[border + 1] := SetBeforeInUse(mem[border + 1]);
    }

    // -------------------------------------------------------------- list primitives

    /** Unlinks a chunk through its own links; tells whether its list is empty now. */
    method RemoveChunkFromList(p: nat) returns (emptied: bool)
      requires UnlinkReady(mem[..], p)
      modifies mem
      ensures mem[..] == Unlink(old(mem[..]), p)
      ensures emptied == (old(mem[p + 2]) % 2 == 1 && old(mem[p + 3]) == 0)
    {
      emptied := false;
      if mem[p + 2] % 2 == 1 {
        var list := mem[p + 2] / 4;
        mem[list] := mem[p + 3];
        if mem[list] != 0 {
          mem[mem[list] / 4 + 2] := 4 * list + 1;
        } else {
          emptied := true;
        }
      } else {
        mem[mem[p + 2] / 4 + 3] := mem[p + 3];
        if mem[p + 3] != 0 {
          mem[mem[p + 3] / 4 + 2] := mem[p + 2];
        }
      }
    }

    /** Links a chunk in as the first of the list whose header is word `list`. */
    method LinkFirst(list: nat, p: nat)
      requires LinkReady(mem[..], list, p)
      modifies mem
      ensures mem[..] == Link(old(mem[..]), list, p)
    {
      mem[p + 3] := mem[list];
      if mem[list] != 0 {
        mem[mem[list] / 4 + 2] := Pointer(p);
      }
      mem[list] := Pointer(p);
      mem[p + 2] := 4 * list + 1;
    }

    /** Marks a chunk free in its own tag, at its end, and in the chunk after it. */
    method MarkFree(p: nat)
      requires p + 1 < mem.Length && SizeTag(mem[p + 1]) >= 2 && p + SizeTag(mem[p + 1]) + 1 < mem.Length
      modifies mem
      ensures mem[..] == MarkedFree(old(mem[..]), p)
    {
      TagFields(mem[p + 1], 0);
      mem[p + 1] := ClearInUse(mem[p + 1]);
      var after := p + SizeTag(mem[p + 1]);
      mem[after] := mem[p + 1];
      mem[after + 1] := ClearBeforeInUse(mem[after + 1]);
    }

    /** insert_chunk_in_list */
    method InsertChunkInList(list: nat, p: nat)
      requires LinkReady(mem[..], list, p) && list != p + 1
      requires mem[list] != 0 ==> mem[list] / 4 + 2 != p + 1
      requires SizeTag(mem[p + 1]) >= 2 && p + SizeTag(mem[p + 1]) + 1 < mem.Length
      modifies mem
      ensures mem[..] == MarkedFree(Link(old(mem[..]), list, p), p)
    {
      LinkFirst(list, p);
      MarkFree(p);
    }

    // -------------------------------------------------------------- bitmaps

    method SetListHaveChunks(fl: nat, sl: nat)
      requires slBitmap + fl < mem.Length
      modifies mem, `flBitmap
      ensures mem[..] == Put(old(mem[..]), slBitmap + fl, SetBit(At(old(mem[..]), slBitmap + fl), sl))
      ensures flBitmap == SetBit(old(flBitmap), fl)
    {
      mem[slBitmap + fl] := SetBit(mem[slBitmap + fl], sl);
      flBitmap := SetBit(flBitmap, fl);
    }

    method ClearListHaveChunks(fl: nat, sl: nat)
      requires slBitmap + fl < mem.Length
      modifies mem, `flBitmap
      ensures mem[..] == Put(old(mem[..]), slBitmap + fl, ClearBit(At(old(mem[..]), slBitmap + fl), sl))
      ensures flBitmap == if ClearBit(At(old(mem[..]), slBitmap + fl), sl) == 0 then ClearBit(old(flBitmap), fl)
                          else old(flBitmap)
    {
      mem[slBitmap + fl] := ClearBit(mem[slBitmap + fl], sl);
      if mem[slBitmap + fl] == 0 {
        flBitmap := ClearBit(flBitmap, fl);
      }
    }

    // -------------------------------------------------------------- size classes

    /** Second half of get_indexes: from list [fl][sl] on, the first list that has chunks. */
    method SearchBitmaps(fl0: nat, sl0: nat, ghost lists: Lists) returns (ok: bool, fl: nat, sl: nat)
      requires Lay().Fits(mem[..]) && Indexed(flBitmap, RowWords(mem[..], Lay()), lists)
      requires sl0 < DIM && DIM * fl0 + sl0 < |lists|
      ensures ok == (FirstFrom(lists, DIM * fl0 + sl0) < |lists|)
      ensures ok ==> DIM * fl + sl == FirstFrom(lists, DIM * fl0 + sl0) && sl < DIM
    {
      ghost var rows := RowWords(mem[..], Lay());
      SearchFound(flBitmap, rows, lists, fl0, sl0);
      RowWordsAt(mem[..], Lay());
      assert Lay().sl == slBitmap && |rows| == Lay().rows;
      hide *;
      ok, fl := true, fl0;
      assert mem[slBitmap + fl0] == rows[fl0];
      var bits := MaskFrom(mem[slBitmap + fl0], sl0);
      if bits != 0 {
        sl := Lsb(bits);
      } else {
        bits := MaskFrom(flBitmap, fl0 + 1);
        if bits == 0 {
          ok, sl := false, 0;
        } else {
          fl := Lsb(bits);
          assert mem[slBitmap + fl] == rows[fl];
          sl := Lsb(mem[slBitmap + fl]);
        }
      }
    }

    lemma DescribedFacts()
      requires Described()
      ensures c.Ok() && flMin == c.flMin && flMax == c.flMax && minChunkSize == c.minBytes
      ensures Lay().grid == chunk && Lay().sl == slBitmap
    {
    }

    /** The two index formulas. */
    method SizeClass(size: nat) returns (fl: nat, sl: nat)
      requires 32 <= size < WORD_LIMIT
      ensures fl == Msb(size) >= L && sl < DIM && DIM * fl + sl == Slot(size)
    {
      SlotParts(size);
      fl := MsbIndex32(size);
      sl := size / Step(fl) - SL_DIM;
    }

    /** The size whose class is looked up: a search rounds up to the next class, in 32-bit arithmetic. */
    method BumpedSize(size: nat, insert: bool) returns (s: nat)
      requires 32 <= size < WORD_LIMIT
      ensures s == if insert then size else Bumped32(size)
    {
      hide Step, Msb, Bumped32, Low32;
      BumpedIs(size);
      s := size;
      if !insert && s >= EXACT_LIMIT_SIZE {
        var msb := MsbIndex32(s);
        s := Low32(s + (Step(msb) - 1));
      }
    }

    /** get_indexes: the list to put a chunk of `size` bytes in, or the first one to take a chunk from. */
    method GetIndexes(size: nat, insert: bool, ghost lists: Lists) returns (ok: bool, fl: nat, sl: nat)
      requires Described() && c.minBytes <= size < WORD_LIMIT && |lists| == DIM * c.Rows()
      requires !insert ==> !GmaHeap.Stray(c, size)
      requires !insert ==> Lay().Fits(mem[..]) && Indexed(flBitmap, RowWords(mem[..], Lay()), lists)
      ensures insert && Msb(size) <= flMax ==> ok && sl < DIM && DIM * fl + sl == Slot(size) - DIM * flMin
      ensures !insert ==> ok == (GmaHeap.ChosenIn(c, lists, size) < |lists|)
      ensures !insert && ok ==> sl < DIM && DIM * fl + sl == GmaHeap.ChosenIn(c, lists, size)
    {
      hide *;
      DescribedFacts();
      InsertIndexes(c, size);
      if !insert {
        SearchIndexes(c, size, lists);
      }
      var s := BumpedSize(size, insert);
      BumpedBelow(size);
      fl, sl := SizeClass(s);
      if fl > flMax {
        return false, 0, 0;
      }
      RelativeSlot(fl, flMin, sl, Slot(s));
      fl := fl - flMin;
      ok := true;
      if !insert {
        ok, fl, sl := SearchBitmaps(fl, sl, lists);
      }
    }

    // -------------------------------------------------------------- free lists

    /** clear_list_have_chunks for list k = [fl][sl] */
    method UnmarkAt(fl: nat, sl: nat, ghost k: nat)
      requires sl < DIM && DIM * fl + sl == k && slBitmap + k / DIM < mem.Length
      modifies mem, `flBitmap
      ensures mem[..] == Clear(old(mem[..]), Lay(), k)
      ensures flBitmap == ClearFirst(old(mem[..]), old(flBitmap), Lay(), k)
    {
      ClearIs(mem[..], flBitmap, Lay(), k);
      hide ClearBit, Clear, ClearFirst;
      assert fl == k / DIM && sl == k % DIM;
      ClearListHaveChunks(fl, sl);
    }

    /** Marks the list for `size` bytes as empty. */
    method UnmarkList(size: nat, ghost k: nat, ghost lists: Lists)
      requires Described() && c.minBytes <= size < WORD_LIMIT && Msb(size) <= c.flMax
      requires |lists| == DIM * c.Rows()
      requires k == Slot(size) - DIM * c.flMin && slBitmap + k / DIM < mem.Length
      modifies mem, `flBitmap
      ensures mem[..] == Clear(old(mem[..]), Lay(), k)
      ensures flBitmap == ClearFirst(old(mem[..]), old(flBitmap), Lay(), k)
    {
      hide Msb, Slot, Clear, ClearFirst;
      var ok, fl, sl := GetIndexes(size, true, lists);
      UnmarkAt(fl, sl, k);
    }

    method RemoveChunkFromFreeList(p: nat, ghost lists: Lists, ghost free: map<int, nat>)
      requires Described() && p in free && Indexes(mem[..], flBitmap, c, Lay(), lists, free, p)
      modifies mem, `flBitmap
      ensures GridOk(mem[..], flBitmap, Lay(), Remove(lists, free[p], p), free - {p})
      ensures OnlyIndex(old(mem[..]), mem[..], Lay(), free)
    {
      ghost var m, k := mem[..], free[p];
      RemovalFacts(m, flBitmap, c, Lay(), lists, free, p);
      hide *;
      var emptied := RemoveChunkFromList(p);
      if emptied {
        UnlinkEmptiesList(m, flBitmap, Lay(), lists, free, p);
        AtIndex(mem[..], p + 1);
        UnmarkList(GmaHeap.WORD * SizeTag(mem[p + 1]), k, lists);
      } else {
        UnlinkKeepsGrid(m, flBitmap, Lay(), lists, free, p);
        UnlinkGrid(m, flBitmap, Lay(), lists, free, p);
      }
    }

    /** Marks the list for `size` bytes as non-empty. */
    method MarkList(fl: nat, sl: nat, ghost k: nat)
      requires sl < DIM && DIM * fl + sl == k && slBitmap + k / DIM < mem.Length
      modifies mem, `flBitmap
      ensures mem[..] == Mark(old(mem[..]), Lay(), k)
      ensures flBitmap == SetBit(old(flBitmap), k / DIM)
    {
      hide SetBit;
      assert fl == k / DIM && sl == k % DIM;
      SetListHaveChunks(fl, sl);
    }

    method InsertChunkInFreeList(p: nat, ghost lists: Lists, ghost free: map<int, nat>)
      requires Described() && Insertable(mem[..], flBitmap, c, Lay(), lists, free, p)
      modifies mem, `flBitmap
      ensures var k := GmaHeap.ListIndex(c, SizeTag(old(mem[p + 1])));
              && p !in free
              && OnlyIndexAndTags(old(mem[..]), mem[..], Lay(), free[p := k], p)
              && GridOk(mem[..], flBitmap, Lay(), Insert(lists, k, p), free[p := k])
    {
      hide *;
      ghost var m := mem[..];
      DescribedFacts();
      InsertionFacts(m, flBitmap, c, Lay(), lists, free, p);
      ghost var k := GmaHeap.ListIndex(c, SizeTag(mem[p + 1]));
      var size := GmaHeap.WORD * SizeTag(mem[p + 1]);
      assert size == GmaHeap.WORD * SizeTag(m[p + 1]);
      var ok, fl, sl := GetIndexes(size, true, lists);
      HeaderOf(chunk, fl, sl, k);
      var list := chunk + SL_DIM * fl + sl;
      assert list == Lay().grid + k;
      InsertChunkInList(list, p);
      MarkList(fl, sl, k);
      InsertGrid(m, old(flBitmap), Lay(), lists, free, k, p);
    }

    // -------------------------------------------------------------- gma_free

    /** Marks chunk p free. */
    method Open(p: nat)
      requires Described() && State(mem[..], flBitmap, c, h, Lay()) && Used(h.bs, p)
      modifies mem
      ensures 0 <= p && p + 1 < mem.Length && mem[..] == Opening(old(mem[..]), p)
    {
      OpeningKeepsGrid(mem[..], flBitmap, c, h, Lay(), p);
      hide *;
      OpeningIs(mem[..], p);
      mem[p + 1] := ClearInUse(mem[p + 1]);
    }

    /** Takes the free chunk `listed` out of its list, then joins chunks b and `second`. */
    method Absorb(listed: nat, b: nat, second: nat, ghost lists: Lists, ghost free: map<int, nat>)
      returns (ghost mid: Mem)
      requires Described() && listed in free && Indexes(mem[..], flBitmap, c, Lay(), lists, free, listed)
      requires b + 1 < mem.Length && second + 1 < mem.Length
      modifies mem, `flBitmap
      ensures GridOk(mid, flBitmap, Lay(), Remove(lists, free[listed], listed), free - {listed})
      ensures OnlyIndex(old(mem[..]), mid, Lay(), free)
      ensures mem[..] == JoinedHeader(mid, b, second)
    {
      hide *;
      RemoveChunkFromFreeList(listed, lists, free);
      mid := mem[..];
      JoinedHeaderIs(mid, b, second);
      mem[b + 1] := SetSize(mem[b + 1], SizeTag(mem[b + 1]) + SizeTag(mem[second + 1]));
    }

    /** Marks chunk p free and joins it with a free chunk before it. */
    method JoinBefore(p: nat) returns (start: nat)
      requires Described() && State(mem[..], flBitmap, c, h, Lay()) && Used(h.bs, p)
      modifies mem, `flBitmap
      ensures LeftDone(old(mem[..]), c, h, Lay(), p, start, mem[..], flBitmap)
    {
      hide *;
      ghost var m, fl := mem[..], flBitmap;
      ghost var lists, free, b := BeforeStep(m, fl, c, h, Lay(), p);
      Open(p);
      start := p;
      if !BeforeInUse(mem[p + 1]) {
        BeforeKnownFacts(m, fl, c, h, Lay(), p, mem[..], lists, free, b);
        var before := p - SizeTag(mem[p]);
        if !InUse(mem[before + 1]) {
          ghost var mid := Absorb(before, before, p, lists, free);
          LeftJoined(m, fl, c, h, Lay(), p, b, mid, flBitmap);
          start := before;
        }
      }
    }

    /** Joins the chunk that is being freed with a free chunk after it. */
    method JoinAfter(p: nat, start: nat, ghost m: Mem, ghost fl: nat)
      requires Described() && State(m, fl, c, h, Lay()) && LeftDone(m, c, h, Lay(), p, start, mem[..], flBitmap)
      modifies mem, `flBitmap
      ensures BothDone(m, c, h, Lay(), p, start, mem[..], flBitmap)
    {
      hide *;
      ghost var m1, fl1 := mem[..], flBitmap;
      ghost var lists, free := LeftReady(m, fl, c, h, Lay(), p, start, m1, fl1);
      var after := start + SizeTag(mem[start + 1]);
      if !InUse(mem[after + 1]) {
        ghost var mid := Absorb(after, start, after, lists, free);
        RightJoined(m, fl, c, h, Lay(), p, start, m1, fl1, mid, flBitmap);
      }
    }

    /** gma_free; `address` is the first word after the chunk's header. */
    method Free(address: nat)
      requires Valid() && Used(h.bs, address - 2)
      modifies mem, `flBitmap, `h
      ensures Valid() && Tiles(old(h.bs), c.pool)
      ensures h == GmaHeap.Release(c, old(h), address - 2)
      ensures forall q, w | Payload(old(h.bs), q, w) && q != address - 2 :: At(mem[..], w) == At(old(mem[..]), w)
      ensures forall w | Outside(Lay(), c.pool, w) :: At(mem[..], w) == At(old(mem[..]), w)
    {
      hide *;
      ghost var m, fl := mem[..], flBitmap;
      var p := address - 2;
      ValidState();
      StateFacts(m, fl, c, h, Lay());
      ChunkAddress(m, fl, c, h, Lay(), p);
      var start := JoinBefore(p);
      JoinAfter(p, start, m, fl);
      ghost var lists, free := BothReady(m, fl, c, h, Lay(), p, start, mem[..], flBitmap);
      InsertChunkInFreeList(start, lists, free);
      RestedFacts(m, c, h, Lay(), p, mem[..], flBitmap);
      h := GmaHeap.Release(c, h, p);
      ValidIs();
    }

    // -------------------------------------------------------------- gma_alloc

    /** remove_first_chunk_from_free_list on the non-empty list [fl][sl] */
    method RemoveFirstChunk(fl: nat, sl: nat, ghost k: nat) returns (p: nat)
      requires Described() && State(mem[..], flBitmap, c, h, Lay())
      requires sl < DIM && DIM * fl + sl == k && k < |h.lists| && h.lists[k] != []
      modifies mem, `flBitmap
      ensures Detached(old(mem[..]), c, h, Lay(), k, p, mem[..], flBitmap)
    {
      hide *;
      DescribedFacts();
      ghost var m := mem[..];
      FirstReady(m, flBitmap, c, h, Lay(), k);
      FirstUnlinked(m, flBitmap, c, h, Lay(), k);
      HeaderOf(chunk, fl, sl, k);
      var list := chunk + SL_DIM * fl + sl;
      p := mem[list] / 4;
      var emptied := RemoveChunkFromList(p);
      if emptied {
        UnmarkAt(fl, sl, k);
      }
    }

    /** split_chunk_at */
    method SplitChunkAt(p: nat, words: nat) returns (remainder: nat)
      requires p + 1 < mem.Length && words + 8 <= SizeTag(mem[p + 1]) && 8 <= words
      requires p + SizeTag(mem[p + 1]) < mem.Length
      modifies mem
      ensures remainder == p + words && mem[..] == SplitAt(old(mem[..]), p, words)
    {
      var size := SizeTag(mem[p + 1]);
      hide SizeTag, SetSize;
      remainder := p + words;
      mem[remainder + 1] := 0;
      mem[remainder + 1] := SetSize(mem[remainder + 1], size - words);
      mem[remainder + (size - words)] := mem[remainder + 1];
      mem[p + 1] := SetSize(mem[p + 1], words);
      mem[p + words] := mem[p + 1];
    }

    method SetChunkInUse(p: nat)
      requires p + 1 < mem.Length && p + SizeTag(mem[p + 1]) + 1 < mem.Length
      modifies mem
      ensures mem[..] == MarkedUsed(old(mem[..]), p)
    {
      SetInUseFlags(mem[p + 1]);
      hide SizeTag, SetInUse, SetBeforeInUse;
      mem[p + 1] := SetInUse(mem[p + 1]);
      var after := p + SizeTag(mem[p + 1]);
      mem[after + 1] := SetBeforeInUse(mem[after + 1]);
    }

    /** The split test, in 32-bit arithmetic. */
    method Splits(words: nat, size: nat) returns (splits: bool)
      ensures splits == (4 * words >= (size + minChunkSize) % WORD_LIMIT)
    {
      splits := 4 * words >= (size + minChunkSize) % WORD_LIMIT;
    }

    /** Cuts the chunk taken out of list k if enough is left over, and marks it in use. */
    method Carve(p: nat, size: nat, ghost k: nat, ghost m: Mem, ghost fl: nat)
      requires Described() && State(m, fl, c, h, Lay()) && Detached(m, c, h, Lay(), k, p, mem[..], flBitmap)
      requires size % 4 == 0 && minChunkSize == 4 * c.pool.min && c.pool.min <= size / 4 && 8 <= c.pool.min
      requires SplitAgrees(c, h, k, size)
      modifies mem, `flBitmap
      ensures k < |h.lists| && h.lists[k] != [] && State(mem[..], flBitmap, c, GmaHeap.Taken(c, h, k, size / 4), Lay())
      ensures forall q, w | Payload(h.bs, q, w) :: At(mem[..], w) == At(m, w)
      ensures forall w | Outside(Lay(), c.pool, w) :: At(mem[..], w) == At(m, w)
    {
      hide *;
      ghost var m1, fl1, words := mem[..], flBitmap, size / 4;
      DescribedFacts();
      DetachedInRange(m, fl, c, h, Lay(), k, p, m1, fl1);
      SplitMeant(c, h, k, size, minChunkSize, SizeTag(mem[p + 1]));
      var splits := Splits(SizeTag(mem[p + 1]), size);
      if splits {
        RemainderReady(m, fl, c, h, Lay(), k, p, words, m1, fl1);
        var remainder := SplitChunkAt(p, size / 4);
        InsertChunkInFreeList(remainder, Remove(h.lists, k, p), GmaHeap.FreeMap(c, h.bs) - {p});
        UsedInRange(m, fl, c, h, Lay(), k, p, words, m1, fl1, mem[..]);
        FirstDone(m, fl, c, h, Lay(), k, p, words, m1, fl1, mem[..], flBitmap);
      } else {
        WholeDone(m, fl, c, h, Lay(), k, p, words, m1, fl1);
      }
      SetChunkInUse(p);
    }

    /** gma_alloc; the result is the first word after the chunk's header, or 0. */
    method Alloc(request: nat) returns (address: nat)
      requires Valid() && 0 < request < GmaHeap.MAX_CHUNK_SIZE
      requires GmaHeap.Alloc(c, h, request).0 != GmaHeap.Undefined
      modifies mem, `flBitmap, `h
      ensures Valid()
      ensures var (outcome, h') := GmaHeap.Alloc(c, old(h), request);
              h == h' && address == GmaHeap.UsableAddress(outcome)
      ensures if address == 0 then h == old(h) else Given(c, old(h.bs), h.bs, address, request)
      ensures forall q, w | Payload(old(h.bs), q, w) :: At(mem[..], w) == At(old(mem[..]), w)
      ensures forall w | Outside(Lay(), c.pool, w) :: At(mem[..], w) == At(old(mem[..]), w)
    {
      hide *;
      ghost var m, fl0 := mem[..], flBitmap;
      ValidState();
      DescribedFacts();
      AllocOutcome(c, h, request);
      var size := RoundedRequest(request);
      ghost var k := SizeReady(m, fl0, c, h, Lay(), request);
      var ok, fl, sl := GetIndexes(size, false, h.lists);
      if !ok {
        return 0;
      }
      var p := RemoveFirstChunk(fl, sl, k);
      DetachedHead(m, c, h, Lay(), k, p, mem[..], flBitmap);
      Carve(p, size, k, m, fl0);
      h := GmaHeap.Taken(c, h, k, size / 4);
      ValidIs();
      address := p + 2;
    }

    /** The chunk size for a request, in 32-bit arithmetic. */
    method RoundedRequest(request: nat) returns (size: nat)
      ensures size == GmaHeap.Rounded(minChunkSize, request)
    {
      size := (request + 4) % WORD_LIMIT;
      size := (size + 3) % WORD_LIMIT / 4 * 4;
      if size < minChunkSize {
        size := minChunkSize;
      }
    }

    lemma ValidState()
      requires Valid()
      ensures Described() && State(mem[..], flBitmap, c, h, Lay()) && GmaHeap.Valid(c, h)
    {
      hide Described, GmaHeap.Valid, Room, GridOk, Tagged;
    }

    lemma ValidIs()
      requires Described() && State(mem[..], flBitmap, c, h, Lay())
      ensures Valid()
    {
      hide Described, State;
    }
  }

  /** gma_free right after gma_alloc, in memory: the heap, both bitmaps, every list header, every link and the word in
      front of every chunk are as they were. */
  method AllocThenFree(pool: MemoryPool, request: nat)
    requires pool.Valid() && 0 < request < GmaHeap.MAX_CHUNK_SIZE
    requires GmaHeap.Alloc(pool.c, pool.h, request).0 != GmaHeap.Undefined
    modifies pool.mem, pool`flBitmap, pool`h
    ensures pool.Valid() && pool.h == old(pool.h) && pool.flBitmap == old(pool.flBitmap)
    ensures forall w | IndexWord(pool.Lay(), GmaHeap.FreeMap(pool.c, pool.h.bs), w) ::
              At(pool.mem[..], w) == At(old(pool.mem[..]), w)
    ensures forall p | p in pool.h.bs :: At(pool.mem[..], p + 1) == At(old(pool.mem[..]), p + 1)
  {
    hide *;
    ghost var m, fl, h := pool.mem[..], pool.flBitmap, pool.h;
    pool.ValidState();
    AllocOutcome(pool.c, h, request);
    var address := pool.Alloc(request);
    if address != 0 {
      pool.Free(address);
    }
    pool.ValidState();
    HeapDetermines(m, fl, pool.mem[..], pool.flBitmap, pool.c, h, pool.Lay());
  }
}
