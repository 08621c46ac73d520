/** The grid of free lists, as sequences: which free block is in which list (lib/mm/gma.c:220-264). */
module FreeLists {
  import opened Sequences

  type Lists = seq<seq<int>>

  function Insert(lists: Lists, k: nat, p: int): Lists {
    if k < |lists| then lists[k := [p] + lists[k]] else lists
  }

  function Remove(lists: Lists, k: nat, p: int): Lists {
    if k < |lists| then lists[k := Without(lists[k], p)] else lists
  }

  /** A list holds block addresses that `free` assigns to it, each once. */
  ghost predicate ListSound(list: seq<int>, k: nat, free: map<int, nat>) {
    && NoDuplicates(list)
    && (forall i | 0 <= i < |list| :: list[i] in free && free[list[i]] == k)
  }

  /** `free` says which list each free block belongs to; the lists hold exactly those blocks, once each. */
  ghost predicate Listed(lists: Lists, free: map<int, nat>) {
    && (forall k | 0 <= k < |lists| :: ListSound(lists[k], k, free))
    && (forall p | p in free :: free[p] < |lists| && p in lists[free[p]])
  }

  lemma InsertListed(lists: Lists, free: map<int, nat>, k: nat, p: int)
    requires Listed(lists, free) && k < |lists| && p !in free
    ensures Listed(Insert(lists, k, p), free[p := k])
  {
    var lists', free' := Insert(lists, k, p), free[p := k];
    forall j | 0 <= j < |lists'| ensures ListSound(lists'[j], j, free') {
      assert ListSound(lists[j], j, free);
    }
    forall q | q in free' ensures free'[q] < |lists'| && q in lists'[free'[q]] {
      if q == p {
        assert lists'[k][0] == p;
      } else if free[q] == k {
        var i :| 0 <= i < |lists[k]| && lists[k][i] == q;
        assert lists'[k][i + 1] == q;
      }
    }
  }

  lemma RemoveListed(lists: Lists, free: map<int, nat>, p: int)
    requires Listed(lists, free) && p in free
    ensures Listed(Remove(lists, free[p], p), free - {p})
  {
    var k := free[p];
    var lists', free' := Remove(lists, k, p), free - {p};
    assert ListSound(lists[k], k, free);
    RemoveAtFacts(lists[k], IndexOf(lists[k], p));
    forall j | 0 <= j < |lists'| ensures ListSound(lists'[j], j, free') {
      assert ListSound(lists[j], j, free);
      if j == k {
        forall i | 0 <= i < |lists'[k]| ensures lists'[k][i] in free' && free'[lists'[k][i]] == k {
          assert lists'[k][i] in lists'[k];
        }
      }
    }
  }

  lemma RemoveLength(lists: Lists, k: nat, p: int)
    ensures |Remove(lists, k, p)| == |lists|
  {
  }

  /** Removing what was just inserted restores every list. */
  lemma RemoveInserted(lists: Lists, k: nat, p: int)
    requires k < |lists|
    ensures Remove(Insert(lists, k, p), k, p) == lists
  {
    HeadIndex(lists[k], p);
  }

  /** Inserting the head that was just removed restores every list. */
  lemma InsertRemovedHead(lists: Lists, k: nat)
    requires k < |lists| && lists[k] != []
    ensures Insert(Remove(lists, k, lists[k][0]), k, lists[k][0]) == lists
  {
    HeadIndex(lists[k][1..], lists[k][0]);
    assert [lists[k][0]] + lists[k][1..] == lists[k];
  }

  /** First non-empty list from k on; |lists| when there is none. */
  function FirstFrom(lists: Lists, k: nat): (r: nat)
    requires k <= |lists|
    ensures k <= r <= |lists|
    ensures r < |lists| ==> lists[r] != []
    ensures forall j | k <= j < r :: lists[j] == []
    decreases |lists| - k
  {
    if k == |lists| || lists[k] != [] then k else FirstFrom(lists, k + 1)
  }

  /** The first non-empty list is the only one with these properties. */
  lemma FirstFromIs(lists: Lists, k: nat, r: nat)
    requires k <= r <= |lists|
    requires r < |lists| ==> lists[r] != []
    requires forall j | k <= j < r :: lists[j] == []
    ensures FirstFrom(lists, k) == r
  {
  }
}
