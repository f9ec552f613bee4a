/** Small things that several modules need. */
module Common {
  datatype Option<T> = None | Some(value: T)

  function Min(a: nat, b: nat): nat {
    if a <= b then a else b
  }

  function Pow2(k: nat): (r: nat)
    ensures r > 0
  {
    if k == 0 then 1 else 2 * Pow2(k - 1)
  }

  /** A slot number of a ring of `size` slots, counted at most once around. */
  function Wrap(i: nat, size: nat): (slot: nat)
    requires i < 2 * size
    ensures slot < size
  {
    if i < size then i else i - size
  }

  /** The code's remainder takes the same step. */
  lemma {:induction false} NextSlot(i: nat, size: nat)
    requires i < size
    ensures (i + 1) % size == Wrap(i + 1, size)
  {
    if i + 1 == size {
      assert size % size == 0;
    }
  }
}
