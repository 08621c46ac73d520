/** The memory gma_init prepares (lib/mm/gma.c:18-80, lib/mm/gma.h:358-384). */
module GmaInit {
  import opened Bits
  import opened Tiling
  import opened FreeLists
  import opened GmaBitmaps
  import opened GmaMemory
  import opened Words
  import opened GmaTags
  import opened GmaGrid
  import opened GmaChunks
  import opened GmaSteps
  import GmaHeap

  /** BORDER_CHUNK: one word, in use */
  const BORDER: nat := 6

  /** A segment as gma_init sees it: bounds in words, the minimal chunk in bytes. */
  datatype Segment = Segment(addr: nat, end: nat, size: nat, minBytes: nat) {
    function FlMin(): nat { if minBytes == 0 then 0 else Msb(minBytes) }

    function FlMax(): nat { if size == 0 then 0 else Msb(size) }

    function Rows(): nat { if FlMin() <= FlMax() then FlMax() - FlMin() + 1 else 0 }

    /** First word after the bitmaps and the list headers. */
    function Lo(): nat { addr + Rows() + DIM * Rows() }

    function Hi(): int { end - 2 }

    /** The segment has room for the index, two borders and a minimal chunk. */
    predicate Suffices() {
      && 32 <= minBytes && minBytes % 4 == 0
      && 0 < addr && 4 * (end - addr) <= size < WORD_LIMIT
      && 0 < Rows() && 4 * (Hi() - Lo()) >= minBytes
    }

    function Config(): GmaHeap.Config {
      GmaHeap.Config(Pool(Lo(), if end < 2 then 0 else end - 2, minBytes / 4), FlMin(), FlMax(), minBytes)
    }

    function Lay(): Layout { Layout(addr, Rows(), addr + Rows()) }
  }

  lemma ConfigOk(s: Segment)
    requires s.Suffices()
    ensures s.Config().Ok() && s.Config().Rows() == s.Rows() && 8 <= s.Config().pool.min
  {
    Pow2Constants();
    if s.FlMax() >= 32 { Pow2Monotone(32, s.FlMax()); }
  }

  lemma BorderFlags()
    ensures SizeTag(BORDER) == 1 && InUse(BORDER)
    ensures SizeTag(SetBeforeInUse(BORDER)) == 1 && InUse(SetBeforeInUse(BORDER)) && BeforeInUse(SetBeforeInUse(BORDER))
  {
  }

  /** The index words are cleared, and the pool holds one chunk in use between two borders. */
  ghost predicate Prepared(m: Mem, s: Segment) {
    && s.end <= |m|
    && (forall w | s.addr <= w < s.Lo() :: At(m, w) == 0)
    && SizeTag(At(m, s.Lo() + 1)) == s.Hi() - s.Lo() && InUse(At(m, s.Lo() + 1)) && BeforeInUse(At(m, s.Lo() + 1))
    && SizeTag(At(m, s.Hi() + 1)) == 1 && InUse(At(m, s.Hi() + 1)) && BeforeInUse(At(m, s.Hi() + 1))
  }

  lemma SegmentNumbers(s: Segment)
    requires s.Suffices()
    ensures s.Rows() == s.FlMax() - s.FlMin() + 1 && 0 < s.Rows()
    ensures s.Lo() == s.addr + s.Rows() + DIM * s.Rows() && s.Hi() == s.end - 2 && s.Lo() + 8 <= s.Hi()
    ensures s.Config().pool.lo == s.Lo() && s.minBytes <= s.size && 32 <= s.minBytes
  {
    hide Msb;
  }

  lemma PreparedIs(m: Mem, s: Segment)
    requires s.Suffices() && s.end <= |m|
    requires forall w | s.addr <= w < s.Lo() :: m[w] == 0
    requires SizeTag(m[s.Lo() + 1]) == s.end - s.Lo() - 2 && InUse(m[s.Lo() + 1]) && BeforeInUse(m[s.Lo() + 1])
    requires SizeTag(m[s.end - 1]) == 1 && InUse(m[s.end - 1]) && BeforeInUse(m[s.end - 1])
    ensures Prepared(m, s)
  {
    hide Msb, SizeTag, InUse, BeforeInUse;
  }

  lemma EmptyGrid(m: Mem, s: Segment, lists: Lists)
    requires s.Suffices() && Prepared(m, s)
    requires |lists| == DIM * s.Rows() && forall k | 0 <= k < |lists| :: lists[k] == []
    ensures GridOk(m, 0, s.Lay(), lists, map[])
  {
    hide SizeTag, InUse, BeforeInUse, Msb;
    var lay := s.Lay();
    forall k | 0 <= k < |lists| ensures Chain(m, lay.grid + k, lists[k]) && ListSound(lists[k], k, map[]) {
      assert At(m, lay.grid + k) == 0;
      var a := lay.grid + k;
      forall i: nat ensures Node(m, a, lists[k], i) {
      }
    }
    forall r | 0 <= r < lay.rows ensures RowWords(m, lay)[r] == 0 {
      assert At(m, lay.sl + r) == 0;
    }
    EmptyIndex(RowWords(m, lay), lists);
  }

  lemma EmptyIndex(rows: Rows, lists: Lists)
    requires |lists| == DIM * |rows| && forall r | 0 <= r < |rows| :: rows[r] == 0
    requires forall k | 0 <= k < |lists| :: lists[k] == []
    ensures Indexed(0, rows, lists)
  {
    ZeroIffNoBit(0);
    forall k: nat ensures ListBit(rows, lists, k) {
    }
    forall r: nat ensures RowBit(0, rows, r) {
    }
  }

  /** Preparing the segment puts the pool in order. */
  lemma PreparedState(m: Mem, s: Segment)
    requires s.Suffices() && Prepared(m, s)
    ensures State(m, 0, s.Config(), GmaHeap.Unfreed(s.Config()), s.Lay())
  {
    ConfigOk(s);
    var c := s.Config();
    GmaHeap.UnfreedValid(c);
    var h := GmaHeap.Unfreed(c);
    EmptyGrid(m, s, h.lists);
    PreparedTags(m, s);
    ConfigFields(s);
    assert GmaHeap.FreeMap(c, h.bs) == map[];
    hide *;
    PreparedRoom(m, s, c, h.bs);
    StateOf(m, 0, c, h, s.Lay());
  }

  lemma ConfigFields(s: Segment)
    requires s.Suffices()
    ensures s.Config().pool == Pool(s.Lo(), s.Hi(), s.minBytes / 4)
    ensures s.Lay().rows == s.Rows() && s.Lay().grid + s.Lay().Lists() == s.Lo()
  {
  }

  lemma StateOf(m: Mem, fl: nat, c: GmaHeap.Config, h: GmaHeap.Heap, lay: Layout)
    requires GmaHeap.Valid(c, h) && lay.rows == c.Rows() && Room(m, lay, h.bs, c.pool)
    requires GridOk(m, fl, lay, h.lists, GmaHeap.FreeMap(c, h.bs)) && Tagged(m, h.bs, c.pool)
    ensures State(m, fl, c, h, lay)
  {
    hide GmaHeap.Valid, Room, GridOk, GmaHeap.FreeMap, Tagged;
  }

  lemma PreparedRoom(m: Mem, s: Segment, c: GmaHeap.Config, bs: Blocks)
    requires s.Suffices() && Prepared(m, s) && c == s.Config() && bs == GmaHeap.Unfreed(c).bs
    ensures Room(m, s.Lay(), bs, c.pool)
  {
    ConfigOk(s);
    GmaHeap.UnfreedValid(c);
    hide SizeTag, InUse, BeforeInUse, Msb, Tiles;
    assert Tiles(bs, c.pool);
  }

  lemma PreparedTags(m: Mem, s: Segment)
    requires s.Suffices() && Prepared(m, s)
    ensures Tagged(m, GmaHeap.Unfreed(s.Config()).bs, s.Config().pool)
  {
    hide SizeTag, InUse, BeforeInUse, Msb;
    var bs := GmaHeap.Unfreed(s.Config()).bs;
    forall p ensures TagOk(m, bs, p) {
    }
  }
}
