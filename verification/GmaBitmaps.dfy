/** The two levels of bitmaps that index the grid (lib/mm/gma.c:197-231). */
module GmaBitmaps {
  import opened Bits
  import opened FreeLists

  const DIM: nat := 32

  /** Second-level words, one for each row of 32 lists. */
  type Rows = seq<nat>

  /** The bit of list k is set iff the list has chunks. */
  predicate ListBit(rows: Rows, lists: Lists, k: nat) {
    k < |lists| && k / DIM < |rows| ==> (Bit(rows[k / DIM], k % DIM) <==> lists[k] != [])
  }

  /** The bit of row r is set iff the row's word is not zero; there are no bits beyond the rows. */
  predicate RowBit(fl: nat, rows: Rows, r: nat) {
    if r < |rows| then rows[r] < WORD_LIMIT && (Bit(fl, r) <==> rows[r] != 0) else !Bit(fl, r)
  }

  ghost predicate Indexed(fl: nat, rows: Rows, lists: Lists) {
    && |lists| == DIM * |rows|
    && (forall k: nat {:trigger ListBit(rows, lists, k)} :: ListBit(rows, lists, k))
    && (forall r: nat {:trigger RowBit(fl, rows, r)} :: RowBit(fl, rows, r))
  }

  /** set_list_have_chunks */
  function Marked(fl: nat, rows: Rows, r: nat, j: nat): (nat, Rows)
    requires r < |rows|
  {
    (SetBit(fl, r), rows[r := SetBit(rows[r], j)])
  }

  /** clear_list_have_chunks */
  function Unmarked(fl: nat, rows: Rows, r: nat, j: nat): (nat, Rows)
    requires r < |rows|
  {
    var word := ClearBit(rows[r], j);
    (if word == 0 then ClearBit(fl, r) else fl, rows[r := word])
  }

  lemma RowOfList(k: nat, n: nat)
    requires k < DIM * n
    ensures k / DIM < n
  {
  }

  lemma MarkedIndexed(fl: nat, rows: Rows, lists: Lists, k: nat, lists': Lists)
    requires Indexed(fl, rows, lists) && k < |lists|
    requires |lists'| == |lists| && lists'[k] != [] && forall j | 0 <= j < |lists| && j != k :: lists'[j] == lists[j]
    ensures k / DIM < |rows|
    ensures var (fl', rows') := Marked(fl, rows, k / DIM, k % DIM); Indexed(fl', rows', lists')
  {
    RowOfList(k, |rows|);
    var r, j := k / DIM, k % DIM;
    var (fl', rows') := Marked(fl, rows, r, j);
    forall i: nat ensures ListBit(rows', lists', i) {
      assert ListBit(rows, lists, i);
      SetBitBits(rows[r], j, i % DIM);
    }
    Pow2Constants();
    assert RowBit(fl, rows, r);
    SetBitBound(rows[r], j, 32);
    SetBitBits(rows[r], j, j);
    ZeroIffNoBit(rows'[r]);
    forall i: nat ensures RowBit(fl', rows', i) {
      assert RowBit(fl, rows, i);
      SetBitBits(fl, r, i);
    }
  }

  lemma UnmarkedIndexed(fl: nat, rows: Rows, lists: Lists, k: nat, lists': Lists)
    requires Indexed(fl, rows, lists) && k < |lists|
    requires |lists'| == |lists| && lists'[k] == [] && forall j | 0 <= j < |lists| && j != k :: lists'[j] == lists[j]
    ensures k / DIM < |rows|
    ensures var (fl', rows') := Unmarked(fl, rows, k / DIM, k % DIM); Indexed(fl', rows', lists')
  {
    RowOfList(k, |rows|);
    var r, j := k / DIM, k % DIM;
    var (fl', rows') := Unmarked(fl, rows, r, j);
    forall i: nat ensures ListBit(rows', lists', i) {
      assert ListBit(rows, lists, i);
      ClearBitBits(rows[r], j, i % DIM);
    }
    assert RowBit(fl, rows, r);
    BitBound(rows[r], j);
    forall i: nat ensures RowBit(fl', rows', i) {
      assert RowBit(fl, rows, i);
      ClearBitBits(fl, r, i);
      ClearedNonzero(rows[r], j);
    }
  }

  lemma ClearedNonzero(w: nat, j: nat)
    ensures ClearBit(w, j) <= w
  {
    BitBound(w, j);
  }

  /** Replacing a non-empty list by a non-empty list needs no bitmap change. */
  lemma SameIndexed(fl: nat, rows: Rows, lists: Lists, lists': Lists)
    requires Indexed(fl, rows, lists)
    requires |lists'| == |lists| && forall j | 0 <= j < |lists| :: (lists'[j] == []) == (lists[j] == [])
    ensures Indexed(fl, rows, lists')
  {
    forall i: nat ensures ListBit(rows, lists', i) {
      assert ListBit(rows, lists, i);
    }
  }

  // ---------------------------------------------------------------- searching

  /** The search inside row r: the first non-empty list from position j on, if the masked word has a bit. */
  lemma SearchRow(fl: nat, rows: Rows, lists: Lists, k: nat)
    requires Indexed(fl, rows, lists) && k < |lists|
    ensures k / DIM < |rows|
    ensures var word := MaskFrom(rows[k / DIM], k % DIM);
            word != 0 ==> Lsb(word) < DIM && DIM * (k / DIM) + Lsb(word) == FirstFrom(lists, k) < |lists|
    ensures var word := MaskFrom(rows[k / DIM], k % DIM);
            word == 0 ==> forall i | k <= i < |lists| && i / DIM == k / DIM :: lists[i] == []
  {
    RowOfList(k, |rows|);
    var r, j := k / DIM, k % DIM;
    var word := MaskFrom(rows[r], j);
    assert RowBit(fl, rows, r);
    Pow2Constants();
    if word != 0 {
      var s := Lsb(word);
      MaskFromBits(rows[r], j, s);
      if s >= 32 { HighBitsClear(rows[r], 32, s); }
      var found := DIM * r + s;
      assert found / DIM == r && found % DIM == s && ListBit(rows, lists, found);
      forall i | k <= i < found ensures lists[i] == [] {
        assert i / DIM == r && ListBit(rows, lists, i);
        MaskFromBits(rows[r], j, i % DIM);
      }
      FirstFromIs(lists, k, found);
    } else {
      forall i | k <= i < |lists| && i / DIM == r ensures lists[i] == [] {
        assert ListBit(rows, lists, i);
        MaskFromBits(rows[r], j, i % DIM);
        ZeroIffNoBit(word);
      }
    }
  }

  /** The search in later rows: the first bit of the first marked row after row r. */
  lemma SearchLaterRows(fl: nat, rows: Rows, lists: Lists, k: nat)
    requires Indexed(fl, rows, lists) && k < |lists|
    requires forall i | k <= i < |lists| && i / DIM == k / DIM :: lists[i] == []
    ensures var word := MaskFrom(fl, k / DIM + 1);
            word == 0 ==> FirstFrom(lists, k) == |lists|
    ensures var word := MaskFrom(fl, k / DIM + 1);
            word != 0 ==>
              && Lsb(word) < |rows| && rows[Lsb(word)] != 0
              && Lsb(rows[Lsb(word)]) < DIM
              && DIM * Lsb(word) + Lsb(rows[Lsb(word)]) == FirstFrom(lists, k) < |lists|
  {
    var r := k / DIM;
    var word := MaskFrom(fl, r + 1);
    if word == 0 {
      forall i | k <= i < |lists| ensures lists[i] == [] {
        if i / DIM > r { EmptyRow(fl, rows, lists, i, r + 1); }
      }
      FirstFromIs(lists, k, |lists|);
    } else {
      var t := Lsb(word);
      MaskFromBits(fl, r + 1, t);
      assert RowBit(fl, rows, t);
      FirstInRow(fl, rows, lists, t);
      var found := DIM * t + Lsb(rows[t]);
      forall i | k <= i < found ensures lists[i] == [] {
        if r < i / DIM < t { EmptyRow(fl, rows, lists, i, r + 1); }
      }
      FirstFromIs(lists, k, found);
    }
  }

  /** The two-level search in one formula: it finds the first non-empty list from [r][j] on. */
  lemma SearchFound(fl: nat, rows: Rows, lists: Lists, r: nat, j: nat)
    requires Indexed(fl, rows, lists) && j < DIM && DIM * r + j < |lists|
    ensures r < |rows|
    ensures var found, word := FirstFrom(lists, DIM * r + j), MaskFrom(rows[r], j);
            word != 0 ==> Lsb(word) < DIM && DIM * r + Lsb(word) == found < |lists|
    ensures var found, later := FirstFrom(lists, DIM * r + j), MaskFrom(fl, r + 1);
            MaskFrom(rows[r], j) == 0 ==>
              if later == 0 then found == |lists| else
                && Lsb(later) < |rows| && rows[Lsb(later)] != 0 && Lsb(rows[Lsb(later)]) < DIM
                && DIM * Lsb(later) + Lsb(rows[Lsb(later)]) == found < |lists|
  {
    hide Indexed, FirstFrom, MaskFrom, Lsb;
    var k := DIM * r + j;
    assert k / DIM == r && k % DIM == j;
    SearchRow(fl, rows, lists, k);
    if MaskFrom(rows[r], j) == 0 {
      SearchLaterRows(fl, rows, lists, k);
    }
  }

  /** A list before the first marked row of a masked first-level word is empty. */
  lemma EmptyRow(fl: nat, rows: Rows, lists: Lists, i: nat, r: nat)
    requires Indexed(fl, rows, lists) && i < |lists| && r <= i / DIM
    requires var word := MaskFrom(fl, r); word == 0 || i / DIM < Lsb(word)
    ensures lists[i] == []
  {
    RowOfList(i, |rows|);
    MaskFromBits(fl, r, i / DIM);
    ZeroIffNoBit(MaskFrom(fl, r));
    assert RowBit(fl, rows, i / DIM) && ListBit(rows, lists, i);
    ZeroIffNoBit(rows[i / DIM]);
  }

  lemma FirstInRow(fl: nat, rows: Rows, lists: Lists, r: nat)
    requires Indexed(fl, rows, lists) && r < |rows| && rows[r] != 0
    ensures var found := DIM * r + Lsb(rows[r]);
            && Lsb(rows[r]) < DIM && found < |lists| && lists[found] != []
            && forall i | DIM * r <= i < found :: lists[i] == []
  {
    var s := Lsb(rows[r]);
    assert RowBit(fl, rows, r);
    Pow2Constants();
    if s >= 32 { HighBitsClear(rows[r], 32, s); }
    var found := DIM * r + s;
    assert found / DIM == r && found % DIM == s && ListBit(rows, lists, found);
    forall i | DIM * r <= i < found ensures lists[i] == [] {
      assert i / DIM == r && ListBit(rows, lists, i);
    }
  }

  /** The bitmaps are determined by the lists. */
  lemma IndexUnique(fl: nat, rows: Rows, fl': nat, rows': Rows, lists: Lists)
    requires Indexed(fl, rows, lists) && Indexed(fl', rows', lists)
    ensures fl == fl' && rows == rows'
  {
    Pow2Constants();
    assert |rows'| == |rows|;
    forall r | 0 <= r < |rows| ensures rows[r] == rows'[r] {
      assert RowBit(fl, rows, r) && RowBit(fl', rows', r);
      forall j: nat | j < 32 ensures Bit(rows[r], j) <==> Bit(rows'[r], j) {
        var k := DIM * r + j;
        assert k / DIM == r && k % DIM == j && ListBit(rows, lists, k) && ListBit(rows', lists, k);
      }
      BitsDetermine(rows[r], rows'[r], 32);
    }
    forall r: nat ensures Bit(fl, r) <==> Bit(fl', r) {
      assert RowBit(fl, rows, r) && RowBit(fl', rows', r);
    }
    Pow2Exceeds(fl + fl');
    BitsDetermine(fl, fl', fl + fl');
  }

  /** A first-level bit is set exactly when some list of its row has chunks. */
  lemma RowAgrees(fl: nat, rows: Rows, lists: Lists, r: nat)
    requires Indexed(fl, rows, lists) && r < |rows|
    ensures Bit(fl, r) <==> exists k: nat :: k < |lists| && k / DIM == r && lists[k] != []
  {
    assert RowBit(fl, rows, r);
    if Bit(fl, r) {
      FirstInRow(fl, rows, lists, r);
      hide Bit;
      var k := DIM * r + Lsb(rows[r]);
      assert k / DIM == r && lists[k] != [];
    } else {
      ZeroIffNoBit(rows[r]);
      hide Bit;
      forall k: nat | k < |lists| && k / DIM == r ensures lists[k] == [] {
        assert ListBit(rows, lists, k);
      }
    }
  }

  /** No bit but that of row r is set. */
  ghost predicate NoOtherBit(w: nat, r: nat) {
    forall q: nat | q != r :: !Bit(w, q)
  }

  /** gma_init marks row r, which holds its only free chunk, in a first-level bitmap that it has not cleared:
      the bitmaps agree with the lists exactly when no other bit was set in it. */
  lemma StaleFirstLevel(stale: nat, r: nat, rows: Rows, lists: Lists)
    requires Indexed(SetBit(0, r), rows, lists)
    ensures Indexed(SetBit(stale, r), rows, lists) <==> NoOtherBit(stale, r)
  {
    hide Bit, SetBit;
    ZeroIffNoBit(0);
    forall q: nat ensures Bit(SetBit(stale, r), q) == (q == r || Bit(stale, q)) && Bit(SetBit(0, r), q) == (q == r) {
      SetBitBits(stale, r, q);
      SetBitBits(0, r, q);
    }
    if NoOtherBit(stale, r) {
      forall q: nat ensures RowBit(SetBit(stale, r), rows, q) {
        assert RowBit(SetBit(0, r), rows, q);
      }
    } else {
      var q: nat :| q != r && Bit(stale, q);
      assert RowBit(SetBit(0, r), rows, q);
      assert !RowBit(SetBit(stale, r), rows, q);
    }
  }

  /** What a stale bit does: a search that comes to it takes the first bit of a word that is zero, or of a word
      beyond the rows. */
  lemma StaleSearch(stale: nat, r: nat, rows: Rows, lists: Lists, from: nat, q: nat)
    requires Indexed(SetBit(0, r), rows, lists) && Bit(stale, q) && q != r
    requires from < q && forall i | from < i < q :: !Bit(SetBit(stale, r), i)
    ensures var later := MaskFrom(SetBit(stale, r), from + 1);
            later != 0 && Lsb(later) == q && (q < |rows| ==> rows[q] == 0)
  {
    hide Bit, SetBit, MaskFrom;
    var later := MaskFrom(SetBit(stale, r), from + 1);
    forall i: nat ensures Bit(later, i) <==> from < i && Bit(SetBit(stale, r), i) {
      MaskFromBits(SetBit(stale, r), from + 1, i);
    }
    SetBitBits(stale, r, q);
    SetBitBits(0, r, q);
    ZeroIffNoBit(0);
    ZeroIffNoBit(later);
    assert RowBit(SetBit(0, r), rows, q);
    assert Bit(later, q) && Bit(later, Lsb(later));
  }

  /** Four rows, a chunk in the second only, and a stale bit for the fourth: searching from the third on should find
      nothing, but is sent to the fourth. */
  lemma StaleExample(lists: Lists)
    requires |lists| == 128 && lists[32] != [] && forall k | 0 <= k < 128 && k != 32 :: lists[k] == []
    ensures Indexed(SetBit(0, 1), [0, 1, 0, 0], lists) && FirstFrom(lists, 64) == |lists|
    ensures var later := MaskFrom(SetBit(8, 1), 3); later != 0 && Lsb(later) == 3 && [0, 1, 0, 0][3] == 0
  {
    var rows := [0, 1, 0, 0];
    ZeroIffNoBit(0);
    forall j: nat ensures Bit(1, j) == (j == 0) && Bit(8, j) == (j == 3) && Bit(SetBit(0, 1), j) == (j == 1) {
      SmallBits(j);
      SetBitBits(0, 1, j);
    }
    hide Bit, SetBit, MaskFrom;
    forall k: nat ensures ListBit(rows, lists, k) {
    }
    forall q: nat ensures RowBit(SetBit(0, 1), rows, q) {
    }
    FirstFromIs(lists, 64, 128);
    SetBitBits(8, 1, 3);
    StaleSearch(8, 1, rows, lists, 2, 3);
  }

  lemma SmallBits(j: nat)
    ensures Bit(1, j) == (j == 0) && Bit(8, j) == (j == 3)
  {
    ZeroIffNoBit(0);
    assert Bit(8, 0) == false;
    if j > 0 {
      assert Bit(1, j) == Bit(0, j - 1) && Bit(8, j) == Bit(4, j - 1);
      if j > 1 {
        assert Bit(4, j - 1) == Bit(2, j - 2);
        if j > 2 {
          assert Bit(2, j - 2) == Bit(1, j - 3);
          if j > 3 {
            assert Bit(1, j - 3) == Bit(0, j - 4);
          }
        }
      }
    }
  }
}
