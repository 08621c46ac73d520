/** Sequences that hold each element once, as the kernel's lists do. */
module Sequences {

  ghost predicate NoDuplicates(s: seq<int>) {
    forall i, j | 0 <= i < j < |s| :: s[i] != s[j]
  }

  function IndexOf(s: seq<int>, p: int): (i: nat)
    requires p in s
    ensures i < |s| && s[i] == p
  {
    if s[0] == p then 0 else 1 + IndexOf(s[1..], p)
  }

  function RemoveAt(s: seq<int>, i: nat): seq<int>
    requires i < |s|
  {
    s[..i] + s[i + 1..]
  }

  /** Removal of an element by reference (list_remove and list_find_and_remove, lib/list.c:141-214). */
  function Without(s: seq<int>, p: int): (r: seq<int>) {
    if p in s then RemoveAt(s, IndexOf(s, p)) else s
  }

  lemma RemoveAtFacts(s: seq<int>, i: nat)
    requires i < |s| && NoDuplicates(s)
    ensures NoDuplicates(RemoveAt(s, i))
    ensures s[i] !in RemoveAt(s, i)
    ensures forall q | q in s && q != s[i] :: q in RemoveAt(s, i)
    ensures forall q | q in RemoveAt(s, i) :: q in s
  {
    var r := RemoveAt(s, i);
    forall q | q in s && q != s[i] ensures q in r {
      var j :| 0 <= j < |s| && s[j] == q;
      assert r[if j < i then j else j - 1] == q;
    }
  }

  lemma WithoutFacts(s: seq<int>, p: int)
    requires NoDuplicates(s)
    ensures NoDuplicates(Without(s, p)) && p !in Without(s, p)
    ensures forall q | q != p :: q in Without(s, p) <==> q in s
  {
    if p in s {
      RemoveAtFacts(s, IndexOf(s, p));
    } else {
      assert Without(s, p) == s;
    }
  }

  lemma HeadIndex(s: seq<int>, p: int)
    ensures Without([p] + s, p) == s
  {
    assert ([p] + s)[0] == p;
  }
}
