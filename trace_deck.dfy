/** TraceDeck: plays a trace set to a list of playback listeners. Every
    listener is told of the start, then each event is handed to every
    listener in turn, then every listener is told of the stop; stop()
    clears a flag that is checked before each event. */
module TraceDecks {
  import opened Basics
  import opened Events
  import opened Babeltrace
  import opened TraceSetIterators
  import opened TraceSets

  /** A notification a playback listener receives. */
  datatype Hook = OnStart | OnEvent(event: BtEvent) | OnStop

  /** One notification: the listener's position in the list, and what it
      was told. */
  datatype Call = Call(listener: nat, hook: Hook)

  /** When stop() is called during a playback, if at all: by a listener
      while it is told of the start, or while it handles the event at the
      given position of the playback. */
  datatype StopRequest = NoStop | DuringStart | DuringEvent(index: nat)

  /** The same notification to listeners 0, 1, ..., n-1 in order. */
  function ToAll(n: nat, hook: Hook): (r: seq<Call>)
    ensures |r| == n && forall i :: 0 <= i < n ==> r[i] == Call(i, hook)
  {
    seq(n, i requires 0 <= i < n => Call(i, hook))
  }

  /** Each event in turn to every one of n listeners. */
  function Deliveries(n: nat, events: seq<BtEvent>): seq<Call>
  {
    if events == [] then []
    else Deliveries(n, events[..|events| - 1]) + ToAll(n, OnEvent(events[|events| - 1]))
  }

  /** The position of the first event before which the flag check finds
      the flag cleared, for a playback of `length` events; just past the
      last one when nobody stops the playback. */
  function ClearedBefore(stop: StopRequest, length: nat): nat
  {
    match stop
    case NoStop => length + 1
    case DuringStart => 0
    case DuringEvent(k) => k + 1
  }

  /** How many events of the playback are delivered: those before the
      first flag check that finds it cleared. */
  function DeliveredCount(playlist: seq<BtEvent>, stop: StopRequest): (count: nat)
    ensures count <= |playlist|
  {
    var c := ClearedBefore(stop, |playlist|);
    if c < |playlist| then c else |playlist|
  }

  /** Whether the playback reaches its end and tells the listeners of the
      stop. */
  predicate Completes(playlist: seq<BtEvent>, stop: StopRequest)
  {
    DeliveredCount(playlist, stop) == |playlist|
  }

  /** Every notification a playback makes, in order. */
  function PlayCalls(n: nat, playlist: seq<BtEvent>, stop: StopRequest): seq<Call>
  {
    ToAll(n, OnStart) + Deliveries(n, playlist[..DeliveredCount(playlist, stop)]) +
    (if Completes(playlist, stop) then ToAll(n, OnStop) else [])
  }

  /** Delivering `a` then `b` is delivering `a + b`. */
  lemma {:induction false} DeliveriesAppend(n: nat, a: seq<BtEvent>, b: seq<BtEvent>)
    ensures Deliveries(n, a + b) == Deliveries(n, a) + Deliveries(n, b)
    decreases |b|
  {
    if b == [] {
      assert a + b == a;
    } else {
      var b' := b[..|b| - 1];
      assert (a + b)[..|a + b| - 1] == a + b';
      assert (a + b)[|a + b| - 1] == b[|b| - 1];
      DeliveriesAppend(n, a, b');
    }
  }

  /** Delivering one more event of a stream. */
  lemma DeliveriesStep(before: seq<Call>, n: nat, events: seq<BtEvent>, k: nat)
    requires k < |events|
    ensures before + Deliveries(n, events[..k]) + ToAll(n, OnEvent(events[k])) ==
      before + Deliveries(n, events[..k + 1])
  {
    assert events[..k + 1][..k] == events[..k];
  }

  /** Delivering events makes n calls per event. */
  lemma {:induction false} DeliveriesLength(n: nat, events: seq<BtEvent>)
    ensures |Deliveries(n, events)| == n * |events|
    decreases |events|
  {
    if events != [] {
      DeliveriesLength(n, events[..|events| - 1]);
      assert n * |events| == n * (|events| - 1) + n;
    }
  }

  /** Each call delivering events is an OnEvent of one of the events to one
      of the listeners. */
  lemma {:induction false} DeliveriesOnlyEvents(n: nat, events: seq<BtEvent>)
    ensures forall c :: c in Deliveries(n, events) ==> c.listener < n && c.hook.OnEvent? && c.hook.event in events
    decreases |events|
  {
    if events != [] {
      var pre := events[..|events| - 1];
      var last := ToAll(n, OnEvent(events[|events| - 1]));
      DeliveriesOnlyEvents(n, pre);
      forall c | c in Deliveries(n, events)
        ensures c.listener < n && c.hook.OnEvent? && c.hook.event in events
      {
        if c in Deliveries(n, pre) {
          var j :| 0 <= j < |pre| && pre[j] == c.hook.event;
          assert events[j] == c.hook.event;
        } else {
          assert c in last;
        }
      }
    }
  }

  /** The event at position j is handed to listener i before the event at
      position j + 1 is handed to anybody. */
  lemma DeliveriesInOrder(n: nat, events: seq<BtEvent>, j: nat, i: nat)
    requires j < |events| && i < n
    ensures |Deliveries(n, events[..j])| + n <= |Deliveries(n, events)|
    ensures Deliveries(n, events)[|Deliveries(n, events[..j])| + i] == Call(i, OnEvent(events[j]))
  {
    assert events == events[..j] + [events[j]] + events[j + 1..];
    DeliveriesAppend(n, events[..j] + [events[j]], events[j + 1..]);
    DeliveriesAppend(n, events[..j], [events[j]]);
    assert [events[j]][..0] == [];
  }

  /** A playback that does not complete never tells anybody of the stop;
      one that completes tells every listener, in order, last of all. */
  lemma StopOnlyWhenComplete(n: nat, playlist: seq<BtEvent>, stop: StopRequest)
    ensures !Completes(playlist, stop) ==> forall c :: c in PlayCalls(n, playlist, stop) ==> !c.hook.OnStop?
    ensures Completes(playlist, stop) ==>
      var calls := PlayCalls(n, playlist, stop);
      |calls| >= n && calls[|calls| - n..] == ToAll(n, OnStop)
  {
    var delivered := playlist[..DeliveredCount(playlist, stop)];
    DeliveriesOnlyEvents(n, delivered);
    if !Completes(playlist, stop) {
      assert PlayCalls(n, playlist, stop) == ToAll(n, OnStart) + Deliveries(n, delivered);
    }
  }

  /** Nobody stopping, every listener is told of every event of the
      playback, and the playback completes. */
  lemma NoStopDeliversAll(n: nat, playlist: seq<BtEvent>)
    ensures Completes(playlist, NoStop)
    ensures PlayCalls(n, playlist, NoStop) ==
      ToAll(n, OnStart) + Deliveries(n, playlist) + ToAll(n, OnStop)
  {
    assert playlist[..|playlist|] == playlist;
  }

  /** stop() while the start is told keeps every event from the listeners
      (but an empty playback still completes); stop() while the event at
      position j is handed out still lets the remaining listeners have that
      event, since the flag is checked only before the next one, and ends
      the playback there unless it was the last event. */
  lemma StopTakesEffectAtNextCheck(n: nat, playlist: seq<BtEvent>, j: nat)
    ensures PlayCalls(n, playlist, DuringStart) ==
      ToAll(n, OnStart) + (if playlist == [] then ToAll(n, OnStop) else [])
    ensures j < |playlist| ==>
      DeliveredCount(playlist, DuringEvent(j)) == j + 1 &&
      (Completes(playlist, DuringEvent(j)) <==> j + 1 == |playlist|)
  {
    assert playlist[..0] == [];
  }

  /** A playback whose flag is first found cleared before the event at
      position k delivers the k events before it and does not complete. */
  lemma StoppedAt(playlist: seq<BtEvent>, stop: StopRequest, k: nat)
    requires k < |playlist| && k == ClearedBefore(stop, |playlist|)
    ensures !Completes(playlist, stop) && DeliveredCount(playlist, stop) == k
  {
  }

  /** A playback whose flag is not found cleared before any event of the
      playlist completes. */
  lemma RanToEnd(playlist: seq<BtEvent>, stop: StopRequest)
    requires |playlist| <= ClearedBefore(stop, |playlist|)
    ensures Completes(playlist, stop) && playlist[..DeliveredCount(playlist, stop)] == playlist
  {
  }

  /** The notifications of a playback after those made before it, in the
      grouping play makes them in. */
  lemma PlayCallsAfter(before: seq<Call>, n: nat, playlist: seq<BtEvent>, stop: StopRequest)
    ensures var delivered := Deliveries(n, playlist[..DeliveredCount(playlist, stop)]);
      (Completes(playlist, stop) ==>
        before + ToAll(n, OnStart) + delivered + ToAll(n, OnStop) == before + PlayCalls(n, playlist, stop)) &&
      (!Completes(playlist, stop) ==>
        before + ToAll(n, OnStart) + delivered == before + PlayCalls(n, playlist, stop))
  {
  }

  /** Where play's loop stands: the iterator is on position k of the
      shared cursor, whose walk from the beginning ends at `length`; or it
      is the end iterator, and the walk has ended after k events. */
  ghost predicate Walking(it: TraceSetIterator, cursor: BtIterator, k: nat, length: nat)
    reads it, cursor
  {
    k <= |cursor.events| &&
    (it.cursor.Some? ==>
      it.cursor.value == cursor && cursor.pos == k && k < |cursor.events| &&
      WalkEnd(cursor.events, cursor.failingAdvances, k) == length) &&
    (it.cursor.None? ==> k == length)
  }

  class TraceDeck {
    /** _playing. */
    var playing: bool
    /** The notifications made to listeners so far. */
    ghost var calls: seq<Call>

    constructor()
      ensures !playing && calls == []
    {
      playing := false;
      calls := [];
    }

    /** stop: clears the flag, and nothing else. */
    method Stop()
      modifies this`playing
      ensures !playing
    {
      playing := false;
    }

    /** One `for (auto& listener : listeners)` loop of play: the same
        notification to every listener, in list order. */
    method NotifyAll(listenerCount: nat, hook: Hook)
      modifies this`calls
      ensures calls == old(calls) + ToAll(listenerCount, hook)
    {
      var i := 0;
      while i < listenerCount
        invariant i <= listenerCount
        invariant calls == old(calls) + ToAll(i, hook)
      {
        calls := calls + [Call(i, hook)];
        i := i + 1;
      }
    }

    /** The rest of play's range-for body for the event at position k: the
        event to every listener in turn (one of which may call stop()),
        then ++ on the iterator. */
    method DeliverAndAdvance(it: TraceSetIterator, listenerCount: nat, stop: StopRequest, k: nat,
                             ghost cursor: BtIterator, ghost length: nat)
      requires it.Valid() && it.ShowsCursor() && it.cursor == Some(cursor) && Walking(it, cursor, k, length)
      modifies this`calls, this`playing, it, it.event, it.valueFactory, cursor
      ensures it.Valid() && it.ShowsCursor() && it.event == old(it.event)
      ensures k < |cursor.events| && Walking(it, cursor, k + 1, length)
      ensures calls == old(calls) + ToAll(listenerCount, OnEvent(cursor.events[k]))
      ensures playing <==> old(playing) && stop != DuringEvent(k)
    {
      var event := it.Current();
      NotifyAll(listenerCount, OnEvent(event.btEvent.value));
      if stop == DuringEvent(k) {
        Stop();
      }
      it.Next();
    }

    /** The range-for of play: each event the trace set's iterators walk
        to, after checking the flag, to every listener in turn; answers
        false as soon as the check finds the flag cleared. */
    method PlayEvents(traceSet: TraceSet, listenerCount: nat, stop: StopRequest) returns (ran: bool)
      requires playing <==> !stop.DuringStart?
      modifies this`calls, this`playing, traceSet.cursor
      ensures var playlist := Playlist(traceSet.cursor.events, traceSet.cursor.failingAdvances);
        ran == Completes(playlist, stop) &&
        calls == old(calls) + Deliveries(listenerCount, playlist[..DeliveredCount(playlist, stop)])
      ensures !ran ==> !playing
    {
      var it := traceSet.Begin();
      var endIt := traceSet.End();
      ran := PlayRange(it, endIt, traceSet.cursor, listenerCount, stop);
    }

    /** The loop of the range-for, from `it` to `endIt`. */
    method PlayRange(it: TraceSetIterator, endIt: TraceSetIterator, cursor: BtIterator, listenerCount: nat, stop: StopRequest)
      returns (ran: bool)
      requires it.Valid() && it.ShowsCursor() && it != endIt && endIt.cursor.None? && it.event != null
      requires Walking(it, cursor, 0, |Playlist(cursor.events, cursor.failingAdvances)|)
      requires playing <==> !stop.DuringStart?
      modifies this`calls, this`playing, cursor, it, it.event, it.valueFactory
      ensures var playlist := Playlist(cursor.events, cursor.failingAdvances);
        ran == Completes(playlist, stop) &&
        calls == old(calls) + Deliveries(listenerCount, playlist[..DeliveredCount(playlist, stop)])
      ensures !ran ==> !playing
    {
      ghost var events := cursor.events;
      ghost var playlist := Playlist(events, cursor.failingAdvances);
      var k := 0;
      while it.NotEquals(endIt)
        invariant it.Valid() && it.ShowsCursor() && it.event == old(it.event) && endIt.cursor.None?
        invariant Walking(it, cursor, k, |playlist|)
        invariant k <= ClearedBefore(stop, |playlist|) && (playing <==> k < ClearedBefore(stop, |playlist|))
        invariant calls == old(calls) + Deliveries(listenerCount, events[..k])
        decreases |events| - k
      {
        if !playing {
          StoppedAt(playlist, stop, k);
          assert playlist[..k] == events[..k];
          return false;
        }
        DeliverAndAdvance(it, listenerCount, stop, k, cursor, |playlist|);
        DeliveriesStep(old(calls), listenerCount, events, k);
        k := k + 1;
      }
      RanToEnd(playlist, stop);
      ran := true;
    }

    /** play: the trace set's events as its iterators walk them, handed to
        listeners 0, ..., listenerCount - 1 as described above; answers
        whether the playback reached its end. A listener's calls to stop()
        are placed by `stop`. */
    method Play(traceSet: TraceSet, listenerCount: nat, stop: StopRequest) returns (completed: bool)
      modifies this`calls, this`playing, traceSet.cursor
      ensures var playlist := Playlist(traceSet.cursor.events, traceSet.cursor.failingAdvances);
        completed == Completes(playlist, stop) &&
        calls == old(calls) + PlayCalls(listenerCount, playlist, stop)
      ensures !playing
    {
      playing := true;
      NotifyAll(listenerCount, OnStart);
      if stop.DuringStart? {
        Stop();
      }
      var ran := PlayEvents(traceSet, listenerCount, stop);
      PlayCallsAfter(old(calls), listenerCount, Playlist(traceSet.cursor.events, traceSet.cursor.failingAdvances), stop);
      if !ran {
        return false;
      }
      NotifyAll(listenerCount, OnStop);
      playing := false;
      completed := true;
    }
  }
}
