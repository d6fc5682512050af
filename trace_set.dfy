/** TraceSet: a set of CTF traces read through one Babeltrace context and
    one Babeltrace iterator, which every iterator the set hands out shares.
    It remembers the paths added, refusing duplicates. */
module TraceSets {
  import opened Basics
  import opened Events
  import opened Babeltrace
  import opened TraceSetIterators

  /** The outcome of addTrace on the path set: the new set and the answer.
      `addStatus` is what bt_context_add_trace answers (negative on error). */
  function AddTraceOutcome(paths: set<string>, path: string, addStatus: int): (r: (set<string>, bool))
    ensures paths <= r.0 <= paths + {path}
    ensures r.1 ==> path !in paths && addStatus >= 0
  {
    if path in paths then (paths, false)
    else if addStatus < 0 then (paths, false)
    else (paths + {path}, true)
  }

  /** A path is added exactly when it is new and Babeltrace accepts it; the
      set then grows by that path alone, and otherwise stays as it was. */
  lemma AddTraceOutcomeSpec(paths: set<string>, path: string, addStatus: int)
    ensures var (after, added) := AddTraceOutcome(paths, path, addStatus);
      (added <==> path !in paths && addStatus >= 0) &&
      paths <= after && after - paths == (if added then {path} else {}) &&
      |after| == |paths| + (if added then 1 else 0)
  {
    if path !in paths && addStatus >= 0 {
      assert (paths + {path}) - paths == {path};
    }
  }

  /** Adding a path a second time is refused and changes nothing, whatever
      Babeltrace would answer. */
  lemma AddTraceTwiceRefused(paths: set<string>, path: string, first: int, second: int)
    ensures var (after, _) := AddTraceOutcome(paths, path, first);
      path in after ==> AddTraceOutcome(after, path, second) == (after, false)
  {
  }

  /** The unsigned value of -1, which getBegin and getEnd answer when there
      is no timestamp to give. */
  const NO_TIMESTAMP: u64 := ToU64(-1)

  /** The timestamp read at position `p` of the stream, or NO_TIMESTAMP when
      no trace is loaded or there is no event there. */
  function TimestampAt(paths: set<string>, events: seq<BtEvent>, p: nat): (ts: u64)
    ensures paths == {} || p >= |events| ==> ts == NO_TIMESTAMP
    ensures paths != {} && p < |events| ==> ts == events[p].timestamp
  {
    if paths == {} || p >= |events| then NO_TIMESTAMP else events[p].timestamp
  }

  /** The first and last timestamps, when the stream is in timestamp order
      and has an event, bound every event's timestamp. */
  lemma BeginNotAfterEnd(paths: set<string>, events: seq<BtEvent>)
    requires paths != {} && events != []
    requires forall i, j :: 0 <= i <= j < |events| ==> events[i].timestamp <= events[j].timestamp
    ensures forall i :: 0 <= i < |events| ==>
      TimestampAt(paths, events, 0) <= events[i].timestamp <= TimestampAt(paths, events, |events| - 1)
    ensures NO_TIMESTAMP == 0xffff_ffff_ffff_ffff
  {
  }

  class TraceSet {
    /** _tracePaths. */
    var tracePaths: set<string>
    /** _btCtfIter (with its _btIter), created with the set. */
    const cursor: BtIterator

    /** A new set has no path; creating the Babeltrace context and iterator
        is the library's, and their failures are not part of this model. */
    constructor(cursor: BtIterator)
      ensures tracePaths == {} && this.cursor == cursor
    {
      tracePaths := {};
      this.cursor := cursor;
    }

    /** addTrace: refuses a path already added, then one Babeltrace
        refuses (`addStatus` is bt_context_add_trace's answer); otherwise
        records the path. */
    method AddTrace(path: string, addStatus: int) returns (added: bool)
      modifies this`tracePaths
      ensures (tracePaths, added) == AddTraceOutcome(old(tracePaths), path, addStatus)
    {
      if path in tracePaths {
        return false;
      }
      if addStatus < 0 {
        return false;
      }
      tracePaths := tracePaths + {path};
      added := true;
    }

    /** getBegin: the timestamp of the first event, read by seeking the
        shared iterator to the beginning and then back where it was. */
    method GetBegin() returns (ts: u64)
      modifies cursor
      ensures ts == TimestampAt(tracePaths, cursor.events, 0)
      ensures cursor.pos == old(cursor.pos)
    {
      if tracePaths == {} {
        return NO_TIMESTAMP;
      }
      var savedPos := cursor.pos;
      cursor.SeekBegin();
      var event := cursor.ReadEvent();
      if event.None? {
        cursor.SetPos(savedPos);
        return NO_TIMESTAMP;
      }
      ts := event.value.timestamp;
      cursor.SetPos(savedPos);
    }

    /** getEnd: the timestamp of the last event, read by seeking the shared
        iterator to the last event and then back where it was. */
    method GetEnd() returns (ts: u64)
      modifies cursor
      ensures ts == TimestampAt(tracePaths, cursor.events, if cursor.events == [] then 0 else |cursor.events| - 1)
      ensures cursor.pos == old(cursor.pos)
    {
      if tracePaths == {} {
        return NO_TIMESTAMP;
      }
      var savedPos := cursor.pos;
      cursor.SeekLast();
      var event := cursor.ReadEvent();
      if event.None? {
        cursor.SetPos(savedPos);
        return NO_TIMESTAMP;
      }
      ts := event.value.timestamp;
      cursor.SetPos(savedPos);
    }

    /** begin: seeks the shared iterator to the beginning, which moves every
        iterator already handed out, and returns an iterator on it. */
    method Begin() returns (it: TraceSetIterator)
      modifies cursor
      ensures cursor.pos == 0
      ensures fresh(it) && it.Valid() && it.ShowsCursor() && fresh(it.valueFactory) && fresh(it.valueFactory.builders)
      ensures it.cursor == if cursor.events == [] then None else Some(cursor)
      ensures fresh(it.event) && it.event.btEvent == cursor.ReadEvent()
    {
      cursor.SeekBegin();
      it := new TraceSetIterator(Some(cursor));
    }

    /** end: the iterator built from null. */
    method End() returns (it: TraceSetIterator)
      ensures fresh(it) && it.Valid() && it.cursor.None? && it.event == null
      ensures fresh(it.valueFactory) && fresh(it.valueFactory.builders)
    {
      it := new TraceSetIterator(None);
    }
  }
}
