/** The first-fit allocator itself (lib/mm/ff_simple.c), working in place on an array of words. */
module FirstFit {
  import opened Tiling
  import opened Words
  import opened FirstFitMemory
  import opened FirstFitSteps
  import FirstFitHeap

  /** What a client gets: a chunk that was not in use, is now, and begins one word before the address; the words
      from the address up to the tail are the client's, and hold the request unless its rounding wraps around.
      */
  ghost predicate Given(bs: Blocks, bs': Blocks, address: int, request: nat) {
    var p := address - 1;
    && !Used(bs, p) && Used(bs', p)
    && (forall w | address <= w < End(bs', p) - 1 :: Payload(bs', p, w))
    && (request + 11 < FirstFitHeap.WORD_LIMIT ==> request <= 4 * (End(bs', p) - 1 - address))
  }

  ghost predicate NoneReaches(bs: Blocks, bytes: nat) {
    forall p | Free(bs, p) :: 4 * bs[p].size < bytes
  }

  lemma AllocGiven(h: FirstFitHeap.Heap, pool: Pool, request: nat)
    requires FirstFitHeap.Valid(pool, h) && request < FirstFitHeap.WORD_LIMIT
    requires FirstFitHeap.Alloc(h, request).0 != FirstFitHeap.Undefined
    ensures var (r, h') := FirstFitHeap.Alloc(h, request);
            var address := FirstFitHeap.UsableAddress(r);
            && (address == 0 <==> NoneReaches(h.bs, FirstFitHeap.Rounded(request)))
            && (address == 0 ==> h' == h)
            && (address != 0 ==>
                  && Given(h.bs, h'.bs, address, request) && Used(h'.bs, address - 1) && Tiles(h'.bs, pool)
                  && FirstFitHeap.Release(h', pool, address - 1).bs == h.bs
                  && forall q, w | Payload(h.bs, q, w) :: Payload(h'.bs, q, w) && q != address - 1)
  {
    hide *;
    var (r, h') := FirstFitHeap.Alloc(h, request);
    OutcomeCases(h, request);
    FirstFitHeap.AllocFailsIff(h, pool, request);
    FirstFitHeap.RoundedSuffices(request);
    NoneReachesIs(h.bs, FirstFitHeap.Rounded(request));
    if r.Allocated? {
      FirstFitHeap.AllocTakes(h, pool, request);
      FirstFitHeap.AllocGives(h, pool, request);
      FirstFitHeap.AllocThenRelease(h, pool, request);
      InPool(h'.bs, pool, r.p);
      FirstFitHeap.ValidParts(h, pool);
      PoolStart(pool);
      GivenIs(h.bs, h'.bs, r.p, request);
      PayloadStays(h.bs, h'.bs, r.p);
    }
  }

  lemma OutcomeCases(h: FirstFitHeap.Heap, request: nat)
    ensures var (r, h') := FirstFitHeap.Alloc(h, request);
            && (r.NoMemory? ==> h' == h && FirstFitHeap.UsableAddress(r) == 0)
            && (r.Allocated? ==> FirstFitHeap.UsableAddress(r) == r.p + 1)
            && (r == FirstFitHeap.Undefined || r.NoMemory? || r.Allocated?)
  {
    hide FirstFitHeap.FirstFit, FirstFitHeap.Rounded, FirstFitHeap.Splits, FirstFitHeap.SizeOf, Cut;
  }

  lemma NoneReachesIs(bs: Blocks, bytes: nat)
    requires bytes % 4 == 0
    ensures NoneReaches(bs, bytes) <==> forall p | Free(bs, p) :: bs[p].size < bytes / FirstFitHeap.WORD
  {
    if NoneReaches(bs, bytes) {
      forall p | Free(bs, p) ensures bs[p].size < bytes / FirstFitHeap.WORD {
        assert 4 * bs[p].size < bytes;
      }
    }
  }

  lemma InPool(bs: Blocks, pool: Pool, p: int)
    requires Tiles(bs, pool) && Used(bs, p)
    ensures p in bs && pool.lo <= p
  {
    BoundedAt(bs, pool, p);
    hide Tiles;
  }

  lemma PoolStart(pool: Pool)
    requires FirstFitHeap.PoolOk(pool)
    ensures 0 < pool.lo
  {
  }

  lemma PayloadStays(bs: Blocks, bs': Blocks, p: int)
    requires !Used(bs, p)
    requires forall q | q != p :: Used(bs', q) == Used(bs, q) && (Used(bs, q) ==> bs'[q] == bs[q])
    ensures forall q, w | Payload(bs, q, w) :: Payload(bs', q, w) && q != p
  {
  }

  lemma GivenIs(bs: Blocks, bs': Blocks, p: int, request: nat)
    requires !Used(bs, p) && Used(bs', p)
    requires request <= FirstFitHeap.WORD * bs'[p].size - 2 * FirstFitHeap.WORD <==>
             request + 11 < FirstFitHeap.WORD_LIMIT
    ensures Given(bs, bs', p + 1, request)
  {
  }

  class MemoryPool {
    const mem: array<nat>
    const first: nat
    ghost const pool: Pool
    ghost var h: FirstFitHeap.Heap

    ghost predicate Valid()
      reads this, mem
    {
      State(mem[..], first, pool, h)
    }

    lemma ValidState()
      requires Valid()
      ensures State(mem[..], first, pool, h) && FirstFitHeap.Valid(pool, h)
    {
      hide FirstFitHeap.Valid, Room, Chain, Tagged;
    }

    lemma ValidIs()
      requires State(mem[..], first, pool, h)
      ensures Valid()
    {
      hide State;
    }

    /** ffs_init on `size` bytes from byte address `segment` on; null when there is no room for two headers. */
    static method Init(memory: array<nat>, segment: nat, size: nat) returns (pool: MemoryPool?)
      requires size > 24 && (segment + size) / 4 <= memory.Length && 0 < (segment + 3) / 4
      modifies memory
      ensures pool == null <==> (segment + size) / 4 - (segment + 3) / 4 - 1 < 8
      ensures pool != null ==>
                && fresh(pool) && pool.Valid() && pool.mem == memory
                && pool.pool == Pool((segment + 3) / 4 + 2, (segment + size) / 4 - 1, FirstFitHeap.MIN_WORDS)
                && pool.h == FirstFitHeap.Fresh(pool.pool)
      ensures forall w | w < (segment + 3) / 4 || (segment + size) / 4 <= w ::
                At(memory[..], w) == At(old(memory[..]), w)
    {
      var start, end := (segment + 3) / 4, (segment + size) / 4;
      memory[start] := 0;
      if 4 * (end - (start + 1)) < 2 * 16 {
        return null;
      }
      pool := new MemoryPool(memory, segment, size);
    }

    constructor (memory: array<nat>, segment: nat, size: nat)
      requires (segment + size) / 4 <= memory.Length && 0 < (segment + 3) / 4
      requires 4 * ((segment + size) / 4 - (segment + 3) / 4 - 1) >= 32
      modifies memory
      ensures Valid() && mem == memory
      ensures pool == Pool((segment + 3) / 4 + 2, (segment + size) / 4 - 1, FirstFitHeap.MIN_WORDS)
      ensures h == FirstFitHeap.Fresh(pool)
      ensures forall w | w < (segment + 3) / 4 || (segment + size) / 4 <= w ::
                At(mem[..], w) == At(old(memory[..]), w)
    {
      var start, end := (segment + 3) / 4, (segment + size) / 4;
      mem, first := memory, start;
      pool := Pool(start + 2, end - 1, FirstFitHeap.MIN_WORDS);
      h := FirstFitHeap.Fresh(Pool(start + 2, end - 1, FirstFitHeap.MIN_WORDS));
      new;
      MakePool(start, end);
      InitialState(mem[..], first, pool);
      hide State;
    }

    /** The descriptor, the borders and the single free chunk. */
    method MakePool(start: nat, end: nat)
      requires first == start && start + 9 <= end <= mem.Length
      modifies mem
      ensures Initial(mem[..], first, Pool(start + 2, end - 1, FirstFitHeap.MIN_WORDS))
      ensures forall w | w < start || end <= w :: At(mem[..], w) == At(old(mem[..]), w)
    {
      mem[start] := 0;
      var border := start + 1;
      mem[border] := 4;
      mem[border] := SetUsed(mem[border]);
      var chunk := border + 1;
      mem[chunk] := 4 * (end - (start + 1) - 2);
      mem[chunk] := ClearUsed(mem[chunk]);
      TagOfSize(4 * (end - (start + 1) - 2), end - (start + 1) - 2);
      CloneSizeToTail(chunk);
      border := chunk + SizeTag(mem[chunk]);
      mem[border] := 4;
      mem[border] := SetUsed(mem[border]);
      InsertChunk(chunk);
    }

    method CloneSizeToTail(p: nat)
      requires p < mem.Length && 0 < SizeTag(mem[p]) && p + SizeTag(mem[p]) <= mem.Length
      modifies mem
      ensures mem[..] == ClonedTail(old(mem[..]), p)
    {
      mem[p + SizeTag(mem[p]) - 1] := mem[p];
    }

    /** ffs_remove_chunk */
    method RemoveChunk(p: nat)
      requires UnlinkReady(mem[..], first, p)
      modifies mem
      ensures mem[..] == Unlink(old(mem[..]), first, p)
    {
      var next, prev := mem[p + 2], mem[p + 1];
      if mem[first] == Pointer(p) {
        mem[first] := next;
      } else {
        mem[prev / 4 + 2] := next;
      }
      if next != 0 {
        mem[next / 4 + 1] := prev;
      }
    }

    /** ffs_insert_chunk */
    method InsertChunk(p: nat)
      requires LinkReady(mem[..], first, p)
      modifies mem
      ensures mem[..] == Link(old(mem[..]), first, p)
    {
      mem[p + 2] := mem[first];
      mem[p + 1] := 0;
      if mem[first] != 0 {
        mem[mem[first] / 4 + 1] := Pointer(p);
      }
      mem[first] := Pointer(p);
    }

    /** The search loop of ffs_alloc: the first listed chunk of at least `size` bytes, as a pointer. */
    method Search(size: nat) returns (iter: nat)
      requires Valid() && size % 4 == 0
      ensures var i := FirstFitHeap.FirstFit(h.bs, h.free, size / 4, 0);
              iter == if i == |h.free| then 0 else 4 * h.free[i]
    {
      ghost var m, i := mem[..], 0;
      hide *;
      AtFirst(m, first, pool, h);
      AtIndex(m, first);
      iter := mem[first];
      while iter != 0 && mem[iter / 4] < size
        invariant i <= |h.free| && iter == if i == |h.free| then 0 else 4 * h.free[i]
        invariant iter != 0 ==> i < |h.free| && iter / 4 == h.free[i] && h.free[i] + 2 < mem.Length
        invariant FirstFitHeap.FirstFit(h.bs, h.free, size / 4, 0) == FirstFitHeap.FirstFit(h.bs, h.free, size / 4, i)
        decreases |h.free| - i
      {
        AtPlace(m, first, pool, h, i, size);
        FirstFitHeap.FirstFitStep(h.bs, h.free, size / 4, i);
        iter := mem[iter / 4 + 2];
        i := i + 1;
      }
      if iter != 0 {
        AtPlace(m, first, pool, h, i, size);
      }
      FirstFitHeap.FirstFitStep(h.bs, h.free, size / 4, i);
    }

    /** ffs_alloc; the result is the first word after the chunk's header, or 0. */
    method Alloc(request: nat) returns (address: nat)
      requires Valid() && request < FirstFitHeap.WORD_LIMIT
      requires FirstFitHeap.Alloc(h, request).0 != FirstFitHeap.Undefined
      modifies mem, `h
      ensures Valid() && h == FirstFitHeap.Alloc(old(h), request).1
      ensures address == FirstFitHeap.UsableAddress(FirstFitHeap.Alloc(old(h), request).0)
      ensures address == 0 <==> NoneReaches(old(h.bs), FirstFitHeap.Rounded(request))
      ensures address == 0 ==> h == old(h)
      ensures address != 0 ==> Given(old(h.bs), h.bs, address, request)
      ensures forall q, w | Payload(old(h.bs), q, w) :: At(mem[..], w) == At(old(mem[..]), w)
      ensures forall w | Outside(first, pool, w) :: At(mem[..], w) == At(old(mem[..]), w)
    {
      ghost var m := mem[..];
      hide *;
      ValidState();
      AllocGiven(h, pool, request);
      var size := RoundedRequest(request);
      ghost var place := AllocPlan(m, first, pool, h, request);
      var iter := Search(size);
      if iter == 0 {
        return 0;
      }
      address := Take(iter / 4, size);
      address := address + 1;
    }

    /** The split test, in 32-bit arithmetic. */
    static method Splits(tag: nat, size: nat) returns (splits: bool)
      ensures splits == (tag >= (size + 16) % FirstFitHeap.WORD_LIMIT)
    {
      splits := tag >= (size + 16) % FirstFitHeap.WORD_LIMIT;
    }

    /** Splits listed chunk p from its end if enough is left over, else gives it whole. */
    method Take(p: nat, size: nat) returns (chunk: nat)
      requires State(mem[..], first, pool, h) && p in h.free && size % 4 == 0
      requires 4 <= size / 4 <= FirstFitHeap.SizeOf(h.bs, p)
      requires p < mem.Length && mem[p] == 4 * FirstFitHeap.SizeOf(h.bs, p)
      requires SplitAgrees(size, FirstFitHeap.SizeOf(h.bs, p))
      modifies mem, `h
      ensures Valid() && h == FirstFitHeap.Taken(old(h), p, size / 4).1
      ensures FirstFitHeap.Taken(old(h), p, size / 4).0 == FirstFitHeap.Allocated(chunk)
      ensures forall q, w | Payload(old(h.bs), q, w) :: At(mem[..], w) == At(old(mem[..]), w)
      ensures forall w | Outside(first, pool, w) :: At(mem[..], w) == At(old(mem[..]), w)
    {
      hide *;
      ghost var m := mem[..];
      SplitMeant(size, FirstFitHeap.SizeOf(h.bs, p));
      var splits := Splits(mem[p], size);
      if splits {
        EndDone(m, first, pool, h, p, size / 4);
        chunk := TakeEnd(p, size);
      } else {
        WholeDone(m, first, pool, h, p, size / 4);
        TakeWhole(p, size);
        chunk := p;
      }
      h := FirstFitHeap.Taken(h, p, size / 4).1;
      ValidIs();
    }

    /** The first part remains in the free list with its size updated; the end is given away. */
    method TakeEnd(p: nat, size: nat) returns (chunk: nat)
      requires State(mem[..], first, pool, h) && p in h.free && size % 4 == 0
      requires 4 <= size / 4 && size / 4 + 4 <= FirstFitHeap.SizeOf(h.bs, p)
      modifies mem
      ensures chunk == p + FirstFitHeap.SizeOf(h.bs, p) - size / 4
      ensures mem[..] == MarkedUsed(CutEnd(old(mem[..]), p, size / 4), chunk)
    {
      ghost var m := mem[..];
      hide *;
      CutReady(m, first, pool, h, p, size / 4);
      mem[p] := mem[p] - size;
      CloneSizeToTail(p);
      chunk := p + SizeTag(mem[p]);
      mem[chunk] := size;
      assert mem[..] == CutEnd(m, p, size / 4);
      mem[chunk] := SetUsed(mem[chunk]);
      CloneSizeToTail(chunk);
    }

    method TakeWhole(p: nat, size: nat)
      requires State(mem[..], first, pool, h) && p in h.free
      modifies mem
      ensures mem[..] == MarkedUsed(Unlink(old(mem[..]), first, p), p)
    {
      ghost var m := mem[..];
      hide *;
      WholeReady(m, first, pool, h, p, size / 4);
      RemoveChunk(p);
      mem[p] := SetUsed(mem[p]);
      CloneSizeToTail(p);
    }

    /** The chunk size for a request, in 32-bit arithmetic. */
    method RoundedRequest(request: nat) returns (size: nat)
      ensures size == FirstFitHeap.Rounded(request)
    {
      size := (request + 8) % FirstFitHeap.WORD_LIMIT;
      if size < 16 {
        size := 16;
      }
      size := (size + 3) % FirstFitHeap.WORD_LIMIT / 4 * 4;
    }

    /** ffs_free; `address` is the first word after the chunk's header. */
    method Free(address: nat)
      requires Valid() && Used(h.bs, address - 1)
      modifies mem, `h
      ensures Valid() && Tiles(old(h.bs), pool) && h == FirstFitHeap.Release(old(h), pool, address - 1)
      ensures forall q, w | Payload(old(h.bs), q, w) && q != address - 1 :: At(mem[..], w) == At(old(mem[..]), w)
      ensures forall w | Outside(first, pool, w) :: At(mem[..], w) == At(old(mem[..]), w)
    {
      ghost var m := mem[..];
      assert State(m, first, pool, h);
      hide *;
      OpeningFacts(m, first, pool, h, address - 1);
      var p := address - 1;
      var start := JoinBefore(p);
      JoinAfter(p, start, m);
      LastReady(m, first, pool, h, p, start, mem[..]);
      ReleasedState(m, first, pool, h, p, start, mem[..]);
      InsertChunk(start);
      AtIndex(mem[..], start);
      CloneSizeToTail(start);
      h := FirstFitHeap.Release(h, pool, p);
      ValidIs();
    }

    /** Marks chunk p free and joins it with a free chunk before it. */
    method JoinBefore(p: nat) returns (start: nat)
      requires State(mem[..], first, pool, h) && Used(h.bs, p)
      modifies mem
      ensures LeftDone(old(mem[..]), first, pool, h, p, start, mem[..])
    {
      hide *;
      ghost var b := LeftStep(mem[..], first, pool, h, p);
      mem[p] := ClearUsed(mem[p]);
      start := p;
      if !UsedTag(mem[p - 1]) {
        var before := p - SizeTag(mem[p - 1]);
        RemoveChunk(before);
        JoinedHeaderIs(mem[..], before, p);
        mem[before] := mem[before] + mem[p];
        start := before;
      }
    }

    /** Joins the chunk that is being freed with a free chunk after it. */
    method JoinAfter(p: nat, start: nat, ghost m: Mem)
      requires State(m, first, pool, h) && LeftDone(m, first, pool, h, p, start, mem[..])
      modifies mem
      ensures BothDone(m, first, pool, h, p, start, mem[..])
    {
      hide *;
      ghost var next := RightStep(m, first, pool, h, p, start, mem[..]);
      var after := start + SizeTag(mem[start]);
      if !UsedTag(mem[after]) {
        RemoveChunk(after);
        JoinedHeaderIs(mem[..], start, after);
        mem[start] := mem[start] + mem[after];
      }
    }
  }
  /** ffs_free right after ffs_alloc: every chunk is as it was. */
  method AllocThenFree(pool: MemoryPool, request: nat)
    requires pool.Valid() && request < FirstFitHeap.WORD_LIMIT
    requires FirstFitHeap.Alloc(pool.h, request).0 != FirstFitHeap.Undefined
    modifies pool.mem, pool`h
    ensures pool.Valid() && pool.h.bs == old(pool.h.bs)
    ensures forall q, w | Payload(old(pool.h.bs), q, w) :: At(pool.mem[..], w) == At(old(pool.mem[..]), w)
  {
    hide *;
    pool.ValidState();
    AllocGiven(pool.h, pool.pool, request);
    var address := pool.Alloc(request);
    if address != 0 {
      pool.Free(address);
    }
  }
}
