/** A memory image: a sequence of 32-bit words, word i at byte address 4 * i. */
module Words {

  type Mem = seq<nat>

  function At(m: Mem, w: int): nat {
    if 0 <= w < |m| then m[w] else 0
  }

  function Put(m: Mem, w: int, v: nat): (r: Mem)
    ensures |r| == |m|
    ensures forall x | x != w :: At(r, x) == At(m, x)
    ensures 0 <= w < |m| ==> At(r, w) == v
  {
    if 0 <= w < |m| then m[w := v] else m
  }

  /** The stored form of a pointer to word p. */
  function Pointer(p: nat): nat {
    4 * p
  }

  lemma AtIndex(m: Mem, w: nat)
    requires w < |m|
    ensures At(m, w) == m[w]
  {
  }
}
