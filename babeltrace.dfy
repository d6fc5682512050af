/** The Babeltrace CTF iterator that a trace set owns and its iterators
    share, reduced to what tigerbeetle observes of it: the merged stream of
    events it yields, the positions from which advancing reports an error,
    and where it stands. */
module Babeltrace {
  import opened Basics
  import opened Events

  class BtIterator {
    /** The events of all added traces, in the order the iterator yields them. */
    const events: seq<BtEvent>
    /** Positions from which bt_iter_next reports an error. */
    const failingAdvances: set<nat>
    /** The current position (bt_iter_get_pos / bt_iter_set_pos). */
    var pos: nat

    constructor(events: seq<BtEvent>, failingAdvances: set<nat>)
      ensures this.events == events && this.failingAdvances == failingAdvances && pos == 0
    {
      this.events := events;
      this.failingAdvances := failingAdvances;
      pos := 0;
    }

    /** bt_ctf_iter_read_event: the event at the position, null past the end. */
    function ReadEvent(): (r: Option<BtEvent>)
      reads this
      ensures r.Some? <==> pos < |events|
      ensures r.Some? ==> r.value == events[pos]
    {
      if pos < |events| then Some(events[pos]) else None
    }

    /** bt_iter_next: moves one event on and answers 0, or answers an error
        and stays; past the last event there is nothing to read and it
        answers 0 without moving. */
    method Next() returns (ret: int)
      modifies this
      ensures ret < 0 <==> old(pos) in failingAdvances
      ensures pos == if ret < 0 || old(pos) >= |events| then old(pos) else old(pos) + 1
    {
      if pos in failingAdvances {
        ret := -1;
      } else {
        if pos < |events| {
          pos := pos + 1;
        }
        ret := 0;
      }
    }

    /** bt_iter_set_pos with BT_SEEK_BEGIN. */
    method SeekBegin()
      modifies this
      ensures pos == 0
    {
      pos := 0;
    }

    /** bt_iter_set_pos with BT_SEEK_LAST: onto the last event, if any. */
    method SeekLast()
      modifies this
      ensures pos == if events == [] then 0 else |events| - 1
    {
      pos := if events == [] then 0 else |events| - 1;
    }

    /** bt_iter_set_pos with a position saved by bt_iter_get_pos. */
    method SetPos(p: nat)
      modifies this
      ensures pos == p
    {
      pos := p;
    }
  }

  /** Where a walk from position `p` ends: just after the first position
      from which advancing fails, or at the end of the stream. */
  function WalkEnd(events: seq<BtEvent>, failing: set<nat>, p: nat): (e: nat)
    requires p < |events|
    ensures p < e <= |events|
    decreases |events| - p
  {
    if p in failing || p + 1 >= |events| then p + 1 else WalkEnd(events, failing, p + 1)
  }

  /** The events a walk from the beginning yields: a prefix of the stream. */
  function Playlist(events: seq<BtEvent>, failing: set<nat>): (r: seq<BtEvent>)
    ensures |r| <= |events| && r == events[..|r|]
  {
    if events == [] then [] else events[..WalkEnd(events, failing, 0)]
  }

  /** A walk from `p` runs to the end of the stream when no advance from
      `p` on fails before the last event. */
  lemma {:induction false} WalkEndExtent(events: seq<BtEvent>, failing: set<nat>, p: nat)
    requires p < |events|
    requires forall q :: p <= q && q in failing ==> q + 1 >= |events|
    ensures WalkEnd(events, failing, p) == |events|
    decreases |events| - p
  {
    if !(p in failing || p + 1 >= |events|) {
      WalkEndExtent(events, failing, p + 1);
    }
  }

  /** A walk from `p` ends right after the first position from `p` on
      from which advancing fails. */
  lemma {:induction false} WalkEndAtFirstFailure(events: seq<BtEvent>, failing: set<nat>, p: nat, q: nat)
    requires p <= q < |events| && q in failing
    requires forall r :: p <= r < q ==> r !in failing
    ensures WalkEnd(events, failing, p) == q + 1
    decreases q - p
  {
    if p < q {
      WalkEndAtFirstFailure(events, failing, p + 1, q);
    }
  }

  /** A walk from the beginning yields the first event, if any; all the
      events when no advance before the last one fails; up to and including
      the event at the first position from which advancing fails; and never
      an event past a position from which advancing fails. */
  lemma PlaylistExtent(events: seq<BtEvent>, failing: set<nat>)
    ensures events != [] ==> |Playlist(events, failing)| >= 1
    ensures (forall p :: p in failing ==> p + 1 >= |events|) ==> Playlist(events, failing) == events
    ensures forall p :: p in failing && p < |events| && (forall r :: 0 <= r < p ==> r !in failing) ==>
      Playlist(events, failing) == events[..p + 1]
    ensures forall p :: p in failing && p < |events| ==> |Playlist(events, failing)| <= p + 1
  {
    if events != [] {
      if forall p :: p in failing ==> p + 1 >= |events| {
        WalkEndExtent(events, failing, 0);
      }
      forall p | p in failing && p < |events|
        ensures |Playlist(events, failing)| <= p + 1
      {
        WalkEndBeforeFailure(events, failing, 0, p);
      }
      forall p | p in failing && p < |events| && (forall r :: 0 <= r < p ==> r !in failing)
        ensures Playlist(events, failing) == events[..p + 1]
      {
        WalkEndAtFirstFailure(events, failing, 0, p);
      }
    }
  }

  /** A walk from `p` ends no later than just after any failing position. */
  lemma {:induction false} WalkEndBeforeFailure(events: seq<BtEvent>, failing: set<nat>, p: nat, q: nat)
    requires p <= q < |events| && q in failing
    ensures WalkEnd(events, failing, p) <= q + 1
    decreases q - p
  {
    if !(p in failing || p + 1 >= |events|) {
      WalkEndBeforeFailure(events, failing, p + 1, q);
    }
  }
}
