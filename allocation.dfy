// `allocate_resources` in main.py: a fixed offset rule applied to every product.

module Allocation {

  /** The demand every product gives up before it is allocated anything. */
  const Offset: real := 5.0

  /** Python's `max(0, v)`. */
  function ClampAtZero(v: real): real {
    if 0.0 >= v then 0.0 else v
  }

  /**
   * `allocate_resources(forecasted_demand)`: the same products, each allocated
   * its demand less the offset, and nothing when that would be negative.
   */
  function Allocate(demand: map<string, real>): (allocation: map<string, real>)
    ensures allocation.Keys == demand.Keys
    ensures forall k :: k in allocation ==> allocation[k] >= 0.0
    ensures forall k :: k in demand && demand[k] >= Offset ==> allocation[k] == demand[k] - Offset
    ensures forall k :: k in demand && demand[k] < Offset ==> allocation[k] == 0.0
  {
    map k | k in demand :: ClampAtZero(demand[k] - Offset)
  }

  /** A larger demand never yields a smaller allocation, and one product's allocation depends only on its own demand. */
  lemma AllocateMonotone(d1: map<string, real>, d2: map<string, real>, k: string)
    requires k in d1 && k in d2 && d1[k] <= d2[k]
    ensures Allocate(d1)[k] <= Allocate(d2)[k]
    ensures d1[k] == d2[k] ==> Allocate(d1)[k] == Allocate(d2)[k]
  {
  }

  /** A demand in [lo, hi] is allocated between max(0, lo - 5) and max(0, hi - 5). */
  lemma AllocateWithin(demand: map<string, real>, k: string, lo: real, hi: real)
    requires k in demand && lo <= demand[k] <= hi
    ensures ClampAtZero(lo - Offset) <= Allocate(demand)[k] <= ClampAtZero(hi - Offset)
  {
  }

  /** The allocation never exceeds the demand when the demand is not negative. */
  lemma AllocateBelowDemand(demand: map<string, real>, k: string)
    requires k in demand && demand[k] >= 0.0
    ensures Allocate(demand)[k] <= demand[k]
  {
  }
}
