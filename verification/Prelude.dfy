/** What several modules share. */
module Prelude {

  datatype Option<+T> = None | Some(value: T)

  /** The most a limit can be used when n tasks check it in one step and record in another: the
      last free slot can be taken by all of them. */
  function Cap(limit: int, n: nat): nat {
    if limit >= 1 && n >= 1 then limit - 1 + n
    else if limit >= 1 then limit
    else 0
  }

  // ---- Products of reals, for proofs that must not look inside them ----

  lemma ProductIsNonNegative(x: real, y: real)
    requires x >= 0.0 && y >= 0.0
    ensures x * y >= 0.0
  {
  }

  lemma ProductAdds(x: real, y: real, z: real)
    ensures (x + y) * z == x * z + y * z
  {
  }

  lemma ProductIsZero(x: real, y: real)
    requires x == 0.0
    ensures x * y == 0.0
  {
  }
}
