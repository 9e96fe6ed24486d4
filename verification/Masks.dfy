/** A `u32` used as a bitmap, modelled as the set of its bit positions. */
module Masks {
  const WIDTH: nat := 32

  type Mask = m: set<nat> | forall i | i in m :: i < WIDTH

  /** `trailing_zeros` of a non-zero word. */
  function Lowest(m: Mask): (low: nat)
    requires m != {}
    ensures low in m
    ensures forall j | j in m :: low <= j
  {
    LowestFrom(m, 0)
  }

  function LowestFrom(m: Mask, i: nat): (low: nat)
    requires m != {}
    requires forall j | j in m :: i <= j
    ensures low in m
    ensures forall j | j in m :: low <= j
    decreases WIDTH - i
  {
    if i in m then i
    else
      assert exists j :: j in m;
      LowestFrom(m, i + 1)
  }
}
