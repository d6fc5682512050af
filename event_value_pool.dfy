/** EventValuePool<T>: a bump allocator over a linked list of slots. get()
    hands out the next slot and doubles the list when it runs out; reset()
    rewinds to the first slot without shrinking. Slots are list positions. */
module EventValuePools {

  function Pow2(k: nat): (r: nat)
    ensures r >= 1
  {
    if k == 0 then 1 else 2 * Pow2(k - 1)
  }

  /** The list size after `gets` calls to get() since a reset that left it
      at `base`: each call that makes the size exceed it doubles it. */
  function GrownCapacity(base: nat, gets: nat): (r: nat)
    requires base >= 1
    ensures r >= base && r >= gets + 1
    decreases gets
  {
    if gets == 0 then base
    else
      var prev := GrownCapacity(base, gets - 1);
      if gets + 1 > prev then 2 * prev else prev
  }

  /** Growth is by doubling only: the size is always base * 2^k. */
  lemma GrownCapacityIsDoubling(base: nat, gets: nat)
    requires base >= 1
    ensures exists k: nat :: GrownCapacity(base, gets) == base * Pow2(k)
  {
    var k := Doublings(base, gets);
  }

  /** The number of doublings in GrownCapacity(base, gets). */
  lemma {:induction false} Doublings(base: nat, gets: nat) returns (k: nat)
    requires base >= 1
    ensures GrownCapacity(base, gets) == base * Pow2(k)
    decreases gets
  {
    if gets == 0 {
      k := 0;
    } else {
      var j := Doublings(base, gets - 1);
      k := j;
      if gets + 1 > GrownCapacity(base, gets - 1) {
        k := j + 1;
        DoubleScaled(base, j);
      }
    }
  }

  /** One more doubling of base * 2^j. */
  lemma DoubleScaled(base: nat, j: nat)
    ensures base * Pow2(j + 1) == 2 * (base * Pow2(j))
  {
  }

  /** Doubling happens only when needed: unless the list is still at its
      size from the reset, it is less than twice the slots in use. */
  lemma {:induction false} GrownCapacityIsTight(base: nat, gets: nat)
    requires base >= 1
    ensures GrownCapacity(base, gets) == base || GrownCapacity(base, gets) < 2 * (gets + 1)
    decreases gets
  {
    if gets > 0 {
      GrownCapacityIsTight(base, gets - 1);
    }
  }

  /** The list never shrinks while slots are handed out. */
  lemma {:induction false} GrownCapacityMonotone(base: nat, gets: nat, more: nat)
    requires base >= 1 && gets <= more
    ensures GrownCapacity(base, gets) <= GrownCapacity(base, more)
    decreases more - gets
  {
    if gets < more {
      GrownCapacityMonotone(base, gets, more - 1);
    }
  }

  /** The slots 0, 1, ..., n-1 in order. */
  function FirstSlots(n: nat): (r: seq<nat>)
    ensures |r| == n && forall i :: 0 <= i < n ==> r[i] == i
  {
    seq(n, i => i)
  }

  /** The observable state of a pool: list size, slots in use, cursor. */
  datatype PoolState = PoolState(capacity: nat, size: nat, next: nat)

  /** The state get() leaves. */
  function AfterGet(s: PoolState): PoolState
  {
    PoolState(if s.size + 1 > s.capacity then 2 * s.capacity else s.capacity, s.size + 1, s.next + 1)
  }

  /** The state reset() leaves. */
  function AfterReset(s: PoolState): PoolState
  {
    PoolState(s.capacity, 1, 0)
  }

  /** What every reachable pool state satisfies: one slot is always in use
      (the preallocated next one), the cursor is on it, and the list holds
      every slot in use. */
  predicate PoolInvariant(s: PoolState)
  {
    s.size >= 1 && s.next == s.size - 1 && s.capacity >= s.size
  }

  /** get() and reset() keep the invariant; get() hands out the cursor's
      slot, which is within the list, and the list never shrinks. */
  lemma PoolOperationsKeepInvariant(s: PoolState)
    requires PoolInvariant(s)
    ensures PoolInvariant(AfterGet(s)) && PoolInvariant(AfterReset(s))
    ensures s.next < AfterGet(s).capacity && AfterGet(s).capacity >= s.capacity
  {
  }

  class EventValuePool {
    /** _pool.size(): number of slots in the list. */
    var capacity: nat
    /** _size: slots in use, counting the preallocated next one. */
    var size: nat
    /** Position of _nextIt in the list. */
    var next: nat
    /** The list size at the last reset. */
    ghost var base: nat
    /** The slots get() returned since the last reset, in order. */
    ghost var handedOut: seq<nat>

    function State(): PoolState
      reads this
    {
      PoolState(capacity, size, next)
    }

    /** The state of a valid pool satisfies the invariant. */
    lemma ValidHasInvariant()
      requires Valid()
      ensures PoolInvariant(State())
    {
    }

    ghost predicate Valid()
      reads this
    {
      base >= 1 && size >= 1 &&
      capacity == GrownCapacity(base, size - 1) &&
      next == size - 1 &&
      handedOut == FirstSlots(size - 1)
    }

    /** A requested capacity of 0 is raised to 1; then the pool is reset. */
    constructor(initCapacity: nat)
      ensures Valid()
      ensures capacity == (if initCapacity == 0 then 1 else initCapacity)
      ensures size == 1 && next == 0 && handedOut == []
    {
      var c := initCapacity;
      if c == 0 {
        c := 1;
      }
      capacity := c;
      size := 1;
      next := 0;
      base := c;
      handedOut := [];
    }

    /** Returns the next slot, then counts it, doubling the list when the
        count exceeds it, and advances to the following slot. */
    method Get() returns (slot: nat)
      requires Valid()
      modifies this
      ensures Valid()
      ensures State() == AfterGet(old(State()))
      ensures slot == old(next) && slot < capacity
      ensures slot !in old(handedOut) && handedOut == old(handedOut) + [slot]
      ensures size == old(size) + 1 && next == old(next) + 1 && base == old(base)
      ensures capacity == if old(size) + 1 > old(capacity) then 2 * old(capacity) else old(capacity)
      ensures forall s :: s in handedOut ==> s < capacity
    {
      slot := next;
      size := size + 1;
      if size > capacity {
        capacity := capacity * 2;
      }
      next := next + 1;
      handedOut := handedOut + [slot];
      assert handedOut == FirstSlots(size - 1);
    }

    /** Rewinds to the first slot; the list keeps its size. */
    method Reset()
      requires Valid()
      modifies this
      ensures Valid()
      ensures State() == AfterReset(old(State()))
      ensures capacity == old(capacity) && size == 1 && next == 0 && handedOut == []
    {
      size := 1;
      next := 0;
      base := capacity;
      handedOut := [];
    }
  }

  /** Slots handed out between two resets are pairwise distinct. */
  lemma HandedOutDistinct(pool: EventValuePool, i: nat, j: nat)
    requires pool.Valid() && i < j < |pool.handedOut|
    ensures pool.handedOut[i] != pool.handedOut[j]
  {
  }
}
