/** The intrusive doubly linked list of lib/list.c. A hook is the list element embedded in an object; the list
    header points to the first and the last hook. */
module KList {
  import opened SortedInsert
  import opened Wrappers

  class Hook<T> {
    var prev: Hook?<T>
    var next: Hook?<T>
    var item: T

    constructor (item: T)
      ensures this.item == item && prev == null && next == null
    {
      this.item := item;
      prev, next := null, null;
    }
  }

  class List<T> {
    var first: Hook?<T>
    var last: Hook?<T>
    ghost var hooks: seq<Hook<T>>

    /** first, last, prev and next all agree with the sequence of hooks. */
    ghost predicate Valid()
      reads this, hooks
    {
      && (forall i, j | 0 <= i < j < |hooks| :: hooks[i] != hooks[j])
      && first == (if hooks == [] then null else hooks[0])
      && last == (if hooks == [] then null else hooks[|hooks| - 1])
      && (forall i {:trigger hooks[i].prev} | 0 <= i < |hooks| ::
            hooks[i].prev == if i == 0 then null else hooks[i - 1])
      && (forall i {:trigger hooks[i].next} | 0 <= i < |hooks| ::
            hooks[i].next == if i + 1 == |hooks| then null else hooks[i + 1])
    }

    ghost function Objects(): (s: seq<T>)
      reads this, hooks
      ensures |s| == |hooks|
    {
      seq(|hooks|, i requires 0 <= i < |hooks| reads this, hooks => hooks[i].item)
    }

    /** list_init */
    constructor ()
      ensures Valid() && hooks == []
    {
      first, last, hooks := null, null, [];
    }

    /** list_append */
    method Append(item: T, hdr: Hook<T>)
      requires Valid() && hdr !in hooks
      modifies this, hdr, hooks
      ensures Valid() && hooks == old(hooks) + [hdr] && hdr.item == item
      ensures forall h | h in old(hooks) :: h.item == old(h.item)
      ensures Objects() == old(Objects()) + [item]
    {
      hdr.item := item;
      hdr.next := null;
      if first != null {
        last.next := hdr;
        hdr.prev := last;
        last := hdr;
      } else {
        first, last := hdr, hdr;
        hdr.prev := null;
      }
      hooks := hooks + [hdr];
    }

    /** list_prepend */
    method Prepend(item: T, hdr: Hook<T>)
      requires Valid() && hdr !in hooks
      modifies this, hdr, hooks
      ensures Valid() && hooks == [hdr] + old(hooks) && hdr.item == item
      ensures forall h | h in old(hooks) :: h.item == old(h.item)
      ensures Objects() == [item] + old(Objects())
    {
      hdr.item := item;
      hdr.prev := null;
      hdr.next := first;
      if first != null {
        first.prev := hdr;
      } else {
        last := hdr;
      }
      first := hdr;
      hooks := [hdr] + hooks;
    }

    /** The search part of list_sort_add. */
    method FindPlace(item: T, cmp: Compare<T>) returns (iter: Hook?<T>)
      requires Valid()
      ensures var k := Position(Objects(), item, cmp);
              iter == if k == |hooks| then null else hooks[k]
    {
      ghost var k := 0;
      iter := first;
      if last != null && cmp(item, last.item) >= 0 {
        iter, k := null, |hooks|;
      }
      while iter != null && cmp(item, iter.item) >= 0
        invariant k <= |hooks| && iter == if k == |hooks| then null else hooks[k]
        invariant iter != null ==> ScanFrom(Objects(), item, cmp, 0) == ScanFrom(Objects(), item, cmp, k)
        invariant k == |hooks| ==> Position(Objects(), item, cmp) == |hooks|
        invariant k < |hooks| ==> Position(Objects(), item, cmp) == ScanFrom(Objects(), item, cmp, 0)
        decreases |hooks| - k
      {
        iter := iter.next;
        k := k + 1;
      }
    }

    /** Links hdr in before the k-th hook. */
    method LinkBefore(iter: Hook<T>, hdr: Hook<T>, ghost k: nat)
      requires Valid() && hdr !in hooks && k < |hooks| && iter == hooks[k]
      modifies this, hdr, hooks
      ensures Valid() && hooks == InsertAt(old(hooks), k, hdr)
      ensures forall h | h in old(hooks) || h == hdr :: h.item == old(h.item)
    {
      ghost var before, after := hooks, InsertAt(hooks, k, hdr);
      assert forall j {:trigger after[j]} | 0 <= j < |after| ::
          after[j] == if j < k then before[j] else if j == k then hdr else before[j - 1];
      hide InsertAt;
      assert k > 0 ==> iter.prev == before[k - 1];
      hdr.next := iter;
      hdr.prev := iter.prev;
      if iter.prev != null {
        iter.prev.next := hdr;
      } else {
        first := hdr;
      }
      iter.prev := hdr;
      hooks := after;
    }

    /** Links hdr in after the last hook. */
    method LinkLast(hdr: Hook<T>)
      requires Valid() && hdr !in hooks
      modifies this, hdr, hooks
      ensures Valid() && hooks == InsertAt(old(hooks), |old(hooks)|, hdr)
      ensures forall h | h in old(hooks) || h == hdr :: h.item == old(h.item)
    {
      hdr.next := null;
      if last != null {
        hdr.prev := last;
        last.next := hdr;
        last := hdr;
      } else {
        first, last := hdr, hdr;
        hdr.prev := null;
      }
      hooks := hooks + [hdr];
    }

    /** The linking part of list_sort_add: hdr goes before iter, or last. */
    method LinkAt(iter: Hook?<T>, hdr: Hook<T>, ghost k: nat)
      requires Valid() && hdr !in hooks && k <= |hooks|
      requires iter == if k == |hooks| then null else hooks[k]
      modifies this, hdr, hooks
      ensures Valid() && hooks == InsertAt(old(hooks), k, hdr)
      ensures forall h | h in old(hooks) || h == hdr :: h.item == old(h.item)
      ensures Objects() == InsertAt(old(Objects()), k, old(hdr.item))
    {
      ghost var before := hooks;
      if iter != null {
        LinkBefore(iter, hdr, k);
      } else {
        LinkLast(hdr);
      }
      assert forall i | 0 <= i < |before| :: before[i] in before;
      assert Objects() == InsertAt(old(Objects()), k, old(hdr.item));
    }

    /** list_sort_add */
    method SortAddHook(item: T, hdr: Hook<T>, cmp: Compare<T>)
      requires Valid() && hdr !in hooks
      modifies this, hdr, hooks
      ensures Valid()
      ensures hooks == InsertAt(old(hooks), Position(old(Objects()), item, cmp), hdr)
      ensures forall h | h in old(hooks) :: h.item == old(h.item)
      ensures hdr.item == item && Objects() == SortAdd(old(Objects()), item, cmp)
    {
      hide Position, ScanFrom, InsertAt, Valid;
      ghost var objects := Objects();
      SetItem(hdr, item);
      var iter := FindPlace(item, cmp);
      LinkAt(iter, hdr, Position(objects, item, cmp));
    }

    method SetItem(hdr: Hook<T>, item: T)
      requires Valid() && hdr !in hooks
      modifies hdr
      ensures Valid() && hooks == old(hooks) && Objects() == old(Objects()) && hdr.item == item
      ensures forall h | h in hooks :: h.item == old(h.item)
    {
      hdr.item := item;
      assert Objects() == old(Objects());
    }

    /** list_get */
    method Get(fromEnd: bool) returns (item: Option<T>)
      requires Valid()
      ensures item == if hooks == [] then None
                        else Some(if fromEnd then Objects()[|hooks| - 1] else Objects()[0])
    {
      var hdr := if fromEnd then last else first;
      item := if hdr != null then Some(hdr.item) else None;
    }

    /** list_get_next, of the i-th hook */
    method GetNext(hdr: Hook<T>, ghost i: nat) returns (item: Option<T>)
      requires Valid() && i < |hooks| && hdr == hooks[i]
      ensures item == if i + 1 == |hooks| then None else Some(Objects()[i + 1])
    {
      item := if hdr.next == null then None else Some(hdr.next.item);
    }

    /** The relinking shared by list_remove and list_find_and_remove; hdr is the i-th hook. */
    method Unlink(hdr: Hook<T>, ghost i: nat)
      requires Valid() && i < |hooks| && hdr == hooks[i]
      modifies this, hooks
      ensures Valid() && hooks == old(hooks)[..i] + old(hooks)[i + 1..]
      ensures forall h | h in old(hooks) :: h.item == old(h.item)
    {
      ghost var before, after := hooks, hooks[..i] + hooks[i + 1..];
      assert |after| == |before| - 1;
      assert forall j {:trigger after[j]} | 0 <= j < |after| :: after[j] == before[if j < i then j else j + 1];
      assert i > 0 ==> hdr.prev == before[i - 1];
      assert i + 1 < |before| ==> hdr.next == before[i + 1];
      if hdr.prev != null {
        hdr.prev.next := hdr.next;
      }
      if hdr.next != null {
        hdr.next.prev := hdr.prev;
      }
      if first == hdr {
        first := hdr.next;
      }
      if last == hdr {
        last := hdr.prev;
      }
      hooks := after;
    }

    /** The list without the i-th hook; the objects move up. */
    method Detach(hdr: Hook<T>, ghost i: nat)
      requires Valid() && i < |hooks| && hdr == hooks[i]
      modifies this, hooks
      ensures Valid() && hooks == old(hooks)[..i] + old(hooks)[i + 1..]
      ensures forall h | h in old(hooks) :: h.item == old(h.item)
      ensures Objects() == old(Objects())[..i] + old(Objects())[i + 1..]
    {
      hide Valid;
      ghost var before := hooks;
      Unlink(hdr, i);
      assert forall j | 0 <= j < |before| :: before[j] in before;
      assert Objects() == old(Objects())[..i] + old(Objects())[i + 1..];
    }

    /** list_remove: by reference, which must be in the list, or from either end. */
    method Remove(fromEnd: bool, ref: Hook?<T>) returns (item: Option<T>, ghost i: nat)
      requires Valid() && (ref != null ==> ref in hooks)
      modifies this, hooks
      ensures Valid()
      ensures old(hooks) == [] <==> item == None
      ensures item == None ==> hooks == []
      ensures item != None ==>
                && i < |old(hooks)| && item == Some(old(Objects())[i])
                && (if ref != null then old(hooks)[i] == ref else i == if fromEnd then |old(hooks)| - 1 else 0)
                && hooks == old(hooks)[..i] + old(hooks)[i + 1..]
                && Objects() == old(Objects())[..i] + old(Objects())[i + 1..]
    {
      var hdr := if ref != null then ref else if fromEnd then last else first;
      i := 0;
      if hdr == null {
        return None, 0;
      }
      i :| i < |hooks| && hooks[i] == hdr;
      item := Some(hdr.item);
      assert hdr.item == Objects()[i];
      assert ref == null && fromEnd ==> i == |hooks| - 1;
      assert ref == null && !fromEnd ==> i == 0;
      Detach(hdr, i);
    }

    /** list_find_and_remove: the reference need not be in the list. */
    method FindAndRemove(ref: Hook<T>) returns (item: Option<T>, ghost i: nat)
      requires Valid()
      modifies this, hooks
      ensures Valid()
      ensures item != None <==> ref in old(hooks)
      ensures item == None ==> hooks == old(hooks) && Objects() == old(Objects())
      ensures item != None ==>
                && i < |old(hooks)| && old(hooks)[i] == ref && item == Some(old(ref.item))
                && hooks == old(hooks)[..i] + old(hooks)[i + 1..]
                && Objects() == old(Objects())[..i] + old(Objects())[i + 1..]
    {
      var iter := first;
      i := 0;
      while iter != null
        invariant i <= |hooks| && iter == (if i == |hooks| then null else hooks[i])
        invariant ref !in hooks[..i] && Valid() && hooks == old(hooks) && Objects() == old(Objects())
        invariant forall h | h in hooks :: h.item == old(h.item)
        decreases |hooks| - i
      {
        if iter == ref {
          item := Some(ref.item);
          Detach(ref, i);
          return;
        }
        iter := iter.next;
        i := i + 1;
      }
      item := None;
    }
  }
}
