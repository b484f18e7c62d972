/** How far a node's storage is over its limits. */
module Pressure {
  import opened Wrappers

  datatype Limits = Limits(minFree: nat, maxHeld: Option<nat>, headroom: nat, maxObject: nat)

  /** The bytes to let go of to be the headroom within every limit. */
  function Excess(limits: Limits, heldBytes: nat, freeBytes: int): (excess: nat)
    ensures excess == 0 <==>
              && (limits.minFree > 0 ==> freeBytes >= limits.minFree + limits.headroom)
              && (limits.maxHeld.Some? ==> heldBytes + limits.headroom <= limits.maxHeld.value)
    ensures limits.minFree > 0 ==> freeBytes + excess >= limits.minFree + limits.headroom
    ensures limits.maxHeld.Some? ==> heldBytes - excess + limits.headroom <= limits.maxHeld.value
  {
    var short := limits.minFree + limits.headroom - freeBytes;
    var free := if limits.minFree > 0 && short > 0 then short else 0;
    if limits.maxHeld.None? then free
    else
      var over := heldBytes + limits.headroom - limits.maxHeld.value;
      if over > free then over else free
  }

  function FreeSpaceShortfall(limits: Limits, freeBytes: int): nat {
    if limits.minFree > 0 && freeBytes < limits.minFree then limits.minFree - freeBytes else 0
  }

  predicate OverLimits(limits: Limits, heldBytes: nat, freeBytes: int, adding: nat) {
    || (limits.minFree > 0 && freeBytes - adding < limits.minFree)
    || (limits.maxHeld.Some? && heldBytes + adding > limits.maxHeld.value)
  }

  /** Letting go of the excess leaves the node within its limits, with the headroom to spare. */
  lemma LettingGoIsEnough(limits: Limits, heldBytes: nat, freeBytes: int, adding: nat)
    requires adding <= limits.headroom && Excess(limits, heldBytes, freeBytes) <= heldBytes
    ensures var excess := Excess(limits, heldBytes, freeBytes);
            !OverLimits(limits, heldBytes - excess, freeBytes + excess, adding)
  {
  }

  /** It is the least that is enough: letting go of any less leaves it short of the headroom, or over a limit. */
  lemma ExcessIsLeast(limits: Limits, heldBytes: nat, freeBytes: int, less: nat)
    requires less <= heldBytes
    ensures less < Excess(limits, heldBytes, freeBytes) <==>
            || (limits.minFree > 0 && freeBytes + less < limits.minFree + limits.headroom)
            || (limits.maxHeld.Some? && heldBytes - less + limits.headroom > limits.maxHeld.value)
    ensures OverLimits(limits, heldBytes - less, freeBytes + less, limits.headroom) <==>
            less < Excess(limits, heldBytes, freeBytes)
  {
  }

  class StoragePressure {
    const limits: Limits
    var heldBytes: nat

    constructor (limits: Limits, heldBytes: nat)
      ensures this.limits == limits && this.heldBytes == heldBytes
    {
      this.limits, this.heldBytes := limits, heldBytes;
    }

    method Stored(sizeBytes: nat)
      modifies this
      ensures heldBytes == old(heldBytes) + sizeBytes
    {
      heldBytes := heldBytes + sizeBytes;
    }

    method Deleted(sizeBytes: nat)
      modifies this
      ensures heldBytes == Less(old(heldBytes), sizeBytes)
    {
      heldBytes := if heldBytes > sizeBytes then heldBytes - sizeBytes else 0;
    }
  }

  /** Bytes counted fewer, never below none. */
  function Less(heldBytes: nat, sizeBytes: nat): nat {
    if heldBytes > sizeBytes then heldBytes - sizeBytes else 0
  }
}
