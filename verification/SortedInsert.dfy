/** Where list_sort_add puts a new element (lib/list.c:58-103), on sequences. */
module SortedInsert {

  type Compare<!T> = (T, T) -> int

  /** The comparison orders its arguments totally: either way round one is not less, and it is transitive. */
  ghost predicate TotalPreorder<T(!new)>(cmp: Compare<T>) {
    && (forall a, b :: cmp(a, b) >= 0 || cmp(b, a) >= 0)
    && (forall a, b :: cmp(a, b) < 0 ==> cmp(b, a) >= 0)
    && (forall a, b, c :: cmp(a, b) >= 0 && cmp(b, c) >= 0 ==> cmp(a, c) >= 0)
  }

  ghost predicate Sorted<T>(s: seq<T>, cmp: Compare<T>) {
    forall i, j | 0 <= i < j < |s| :: cmp(s[j], s[i]) >= 0
  }

  /** A full scan from position i: the first element that is greater than x. */
  function ScanFrom<T>(s: seq<T>, x: T, cmp: Compare<T>, i: nat): (k: nat)
    requires i <= |s|
    ensures i <= k <= |s|
    ensures forall j | i <= j < k :: cmp(x, s[j]) >= 0
    ensures k < |s| ==> cmp(x, s[k]) < 0
    decreases |s| - i
  {
    if i == |s| || cmp(x, s[i]) < 0 then i else ScanFrom(s, x, cmp, i + 1)
  }

  /** The position list_sort_add picks: straight after the last element when x is not less than it. */
  function Position<T>(s: seq<T>, x: T, cmp: Compare<T>): (k: nat)
    ensures k <= |s|
  {
    if s != [] && cmp(x, s[|s| - 1]) >= 0 then |s| else ScanFrom(s, x, cmp, 0)
  }

  function InsertAt<T>(s: seq<T>, k: nat, x: T): (r: seq<T>)
    requires k <= |s|
    ensures |r| == |s| + 1
  {
    s[..k] + [x] + s[k..]
  }

  function SortAdd<T>(s: seq<T>, x: T, cmp: Compare<T>): (r: seq<T>)
    ensures |r| == |s| + 1
  {
    InsertAt(s, Position(s, x, cmp), x)
  }

  /** On a sorted list the tail shortcut picks the same position as a full scan. */
  lemma ShortcutIsScan<T(!new)>(s: seq<T>, x: T, cmp: Compare<T>)
    requires TotalPreorder(cmp) && Sorted(s, cmp)
    ensures Position(s, x, cmp) == ScanFrom(s, x, cmp, 0)
  {
    var k := ScanFrom(s, x, cmp, 0);
    assert s != [] && k < |s| - 1 ==> cmp(s[|s| - 1], s[k]) >= 0;
  }

  /** The result is sorted and stable: x comes after everything not greater than it and before the rest, and
      the others keep their order. */
  lemma SortAddSorted<T(!new)>(s: seq<T>, x: T, cmp: Compare<T>)
    requires TotalPreorder(cmp) && Sorted(s, cmp)
    ensures Sorted(SortAdd(s, x, cmp), cmp)
    ensures var k := Position(s, x, cmp);
            && SortAdd(s, x, cmp)[k] == x
            && SortAdd(s, x, cmp)[..k] == s[..k] && SortAdd(s, x, cmp)[k + 1..] == s[k..]
            && (forall j | 0 <= j < k :: cmp(x, s[j]) >= 0)
            && (forall j | k <= j < |s| :: cmp(x, s[j]) < 0)
    ensures multiset(SortAdd(s, x, cmp)) == multiset(s) + multiset{x}
  {
    ShortcutIsScan(s, x, cmp);
    var k := Position(s, x, cmp);
    GreaterFrom(s, k, x, cmp);
    InsertSorted(s, k, x, cmp);
    InsertAtParts(s, k, x);
    hide Sorted, TotalPreorder, InsertAt, Position;
  }

  lemma GreaterFrom<T(!new)>(s: seq<T>, k: nat, x: T, cmp: Compare<T>)
    requires TotalPreorder(cmp) && Sorted(s, cmp) && k <= |s|
    requires k < |s| ==> cmp(x, s[k]) < 0
    ensures forall j | k <= j < |s| :: cmp(x, s[j]) < 0
  {
    forall j | k <= j < |s| ensures cmp(x, s[j]) < 0 {
      assert j > k ==> cmp(s[j], s[k]) >= 0;
    }
  }

  lemma InsertAtParts<T>(s: seq<T>, k: nat, x: T)
    requires k <= |s|
    ensures InsertAt(s, k, x)[k] == x && InsertAt(s, k, x)[..k] == s[..k] && InsertAt(s, k, x)[k + 1..] == s[k..]
    ensures multiset(InsertAt(s, k, x)) == multiset(s) + multiset{x}
  {
    assert s[..k] + s[k..] == s;
  }

  lemma InsertSorted<T(!new)>(s: seq<T>, k: nat, x: T, cmp: Compare<T>)
    requires TotalPreorder(cmp) && Sorted(s, cmp) && k <= |s|
    requires forall j | 0 <= j < k :: cmp(x, s[j]) >= 0
    requires k < |s| ==> cmp(x, s[k]) < 0
    ensures Sorted(InsertAt(s, k, x), cmp)
  {
    var r := InsertAt(s, k, x);
    GreaterFrom(s, k, x, cmp);
    forall i, j | 0 <= i < j < |r| ensures cmp(r[j], r[i]) >= 0 {
      assert i < k ==> r[i] == s[i];
      assert i > k ==> r[i] == s[i - 1];
      assert j < k ==> r[j] == s[j];
      assert j > k ==> r[j] == s[j - 1];
    }
  }

  /** Removing any element keeps a list sorted. */
  lemma RemoveSorted<T>(s: seq<T>, i: nat, cmp: Compare<T>)
    requires Sorted(s, cmp) && i < |s|
    ensures Sorted(s[..i] + s[i + 1..], cmp)
  {
  }
}
