/** TraceSetIterator: a forward iterator over the events of a trace set.
    It does not own the Babeltrace iterator it walks, so copies share it
    and move together; it owns an event value factory and an Event wrapper
    that shows the current event. The end iterator has no Babeltrace
    iterator. */
module TraceSetIterators {
  import opened Basics
  import opened EventValuePools
  import opened EventValueFactories
  import opened Events
  import opened Babeltrace

  class TraceSetIterator {
    /** _btCtfIter and _btIter, which are always null together: the shared
        Babeltrace iterator, or None for the end iterator. */
    var cursor: Option<BtIterator>
    /** _btEvent: the event last read. */
    var btEvent: Option<BtEvent>
    /** _event: the wrapper; only the constructor from a Babeltrace
        iterator creates one, copies have none. */
    var event: Event?
    /** _valueFactory, held by value. */
    const valueFactory: EventValueFactory

    ghost predicate Valid()
      reads this, valueFactory, valueFactory.builders, event
    {
      valueFactory.Valid() &&
      (event != null ==> event.valueFactory == valueFactory && (event.btEvent.Some? ==> event.Valid()))
    }

    /** The wrapper shows the current event: what the cursor stands on. */
    ghost predicate ShowsCursor()
      reads this, (if cursor.Some? then {cursor.value} else {}), event, valueFactory, valueFactory.builders
    {
      cursor.Some? ==> event != null && event.valueFactory == valueFactory && event.Valid() && event.btEvent == cursor.value.ReadEvent()
    }

    /** From null: the end iterator. Otherwise reads the current event,
        becomes the end iterator when there is none, creates the wrapper
        on its own factory and points it at the event. */
    constructor(btCtfIter: Option<BtIterator>)
      ensures Valid() && ShowsCursor()
      ensures fresh(valueFactory) && fresh(valueFactory.builders)
      ensures btCtfIter.None? ==> cursor.None? && event == null
      ensures btCtfIter.Some? ==> btEvent == btCtfIter.value.ReadEvent() && fresh(event) && event.btEvent == btEvent
      ensures btCtfIter.Some? ==> cursor == if btEvent.Some? then btCtfIter else None
    {
      valueFactory := new EventValueFactory();
      cursor := btCtfIter;
      btEvent := None;
      event := null;
      new;
      if btCtfIter.None? {
        return;
      }
      var ev := btCtfIter.value.ReadEvent();
      btEvent := ev;
      if ev.None? {
        cursor := None;
      }
      event := new Event(valueFactory);
      if ev.Some? {
        event.SetPrivateEvent(ev.value);
      }
    }

    /** The copy constructor: a new factory and no wrapper, then assignment,
        which makes the copy share the original's Babeltrace iterator. */
    constructor Copy(it: TraceSetIterator)
      ensures Valid() && cursor == it.cursor && event == null
      ensures fresh(valueFactory) && fresh(valueFactory.builders)
    {
      valueFactory := new EventValueFactory();
      cursor := it.cursor;
      btEvent := None;
      event := null;
    }

    /** operator=: copies only the Babeltrace iterator, so both iterators
        walk the same one from now on. */
    method Assign(rhs: TraceSetIterator)
      modifies this`cursor
      ensures cursor == rhs.cursor
    {
      cursor := rhs.cursor;
    }

    /** operator++: advances the shared Babeltrace iterator. When that fails
        the iterator becomes the end iterator and nothing else changes.
        Otherwise it reads the new current event (becoming the end iterator
        when there is none), resets the factory's pools and points the
        wrapper at the event. */
    method Next()
      requires Valid() && (cursor.Some? ==> event != null)
      modifies this, event, valueFactory, if cursor.Some? then {cursor.value} else {}
      ensures Valid() && ShowsCursor() && event == old(event)
      ensures old(cursor).None? ==> cursor.None? && unchanged(this, valueFactory) && (event != null ==> unchanged(event))
      ensures old(cursor).Some? ==>
        var c := old(cursor).value;
        c.pos == (if old(c.pos) in c.failingAdvances || old(c.pos) >= |c.events| then old(c.pos) else old(c.pos) + 1) &&
        if old(c.pos) in c.failingAdvances then
          cursor.None? && unchanged(valueFactory) && unchanged(event)
        else
          btEvent == c.ReadEvent() &&
          cursor == (if btEvent.Some? then old(cursor) else None) &&
          (forall t :: valueFactory.PoolFor(t) == AfterReset(old(valueFactory.PoolFor(t))))
    {
      // bt_iter_next refuses a null iterator with an error
      var ret := -1;
      if cursor.Some? {
        ret := cursor.value.Next();
      }
      if ret < 0 {
        cursor := None;
        return;
      }
      var ev := cursor.value.ReadEvent();
      btEvent := ev;
      if ev.None? {
        cursor := None;
      }
      valueFactory.ResetPools();
      if ev.Some? {
        event.SetPrivateEvent(ev.value);
      }
    }

    /** operator==: the same Babeltrace iterator, so all end iterators are
        equal to one another and to nothing else. */
    function Equals(rhs: TraceSetIterator): (b: bool)
      reads this, rhs
      ensures b <==> cursor == rhs.cursor
      ensures cursor.None? && rhs.cursor.None? ==> b
    {
      cursor == rhs.cursor
    }

    /** operator!=: the negation of operator==. */
    function NotEquals(rhs: TraceSetIterator): (b: bool)
      reads this, rhs
      ensures b <==> !Equals(rhs)
    {
      !Equals(rhs)
    }

    /** operator*: the wrapper, which must exist (undefined on a copy or an
        end iterator built from null). */
    function Current(): (e: Event)
      requires event != null
      reads this
      ensures e == event
    {
      event
    }
  }

  /** operator++ as written, on the shared Babeltrace iterator: after a
      successful bt_iter_next it hands setPrivateEvent whatever
      bt_ctf_iter_read_event answers, null included. None when
      bt_iter_next fails and it returns before that call. */
  method AdvanceArgumentAsWritten(cursor: BtIterator) returns (arg: Option<Option<BtEvent>>)
    modifies cursor
    ensures arg.None? <==> old(cursor.pos) in cursor.failingAdvances
    ensures arg.Some? ==> arg.value == cursor.ReadEvent()
    ensures arg.Some? ==> (arg.value.None? <==> old(cursor.pos) + 1 >= |cursor.events|)
  {
    var ret := cursor.Next();
    if ret < 0 {
      return None;
    }
    return Some(cursor.ReadEvent());
  }

  /** As written, the wrapper is handed a null event (and then dereferences
      it) when an iterator is made over a trace set with no event, since
      the constructor passes on what it reads, and when an iterator
      advances successfully from the last event. */
  method NullEventReachesWrapper(events: seq<BtEvent>, failing: set<nat>)
      returns (onConstruction: Option<BtEvent>, onAdvance: Option<Option<BtEvent>>)
    requires events != [] && |events| - 1 !in failing
    ensures onConstruction == None
    ensures onAdvance == Some(None)
  {
    var empty := new BtIterator([], failing);
    onConstruction := empty.ReadEvent();
    var cursor := new BtIterator(events, failing);
    cursor.SetPos(|events| - 1);
    onAdvance := AdvanceArgumentAsWritten(cursor);
  }
}
