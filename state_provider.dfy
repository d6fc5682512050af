/** The event routing of AbstractStateProvider: the two-level "infamous
    map" traceId -> eventId -> callback, filled by registerEventCallback from
    (trace type, event name) patterns where "" is a wildcard, and consulted
    by onEvent. */
module StateProvider {
  import opened Basics
  import opened TraceInfo

  /** An OnEventFunction: an empty std::function, or a callable provider
      callback, identified by a number (its code lives in the provider). */
  datatype Callback = EmptyCallback | Callback(id: nat)

  /** TraceIdEventIdCallbackMap. */
  type RoutingMap = map<TraceId, map<EventId, Callback>>

  /** The implementation hooks a derived provider supplies. */
  datatype ProviderHook = InitImpl | FiniImpl

  /** Whether a pattern matches a name: the empty pattern matches all. */
  predicate NamesMatch(asked: string, candidate: string): (b: bool)
    ensures asked == "" ==> b
    ensures asked != "" ==> (b <==> candidate == asked)
  {
    asked == "" || asked == candidate
  }

  /** The callback stored for a pair; a missing entry reads as empty. */
  function Lookup(m: RoutingMap, traceId: TraceId, eventId: EventId): (cb: Callback)
    ensures cb.Callback? ==> traceId in m && eventId in m[traceId] && m[traceId][eventId] == cb
    ensures traceId in m && eventId in m[traceId] ==> cb == m[traceId][eventId]
  {
    if traceId in m && eventId in m[traceId] then m[traceId][eventId] else EmptyCallback
  }

  /** One step of registration: `_infamousMap[traceId][eventId]` (which
      inserts missing entries as empty) is given `cb` when it is empty. */
  function Claim(m: RoutingMap, traceId: TraceId, eventId: EventId, cb: Callback): (r: (RoutingMap, bool))
    ensures r.1 == Lookup(m, traceId, eventId).EmptyCallback?
    ensures forall t, e :: Lookup(r.0, t, e) ==
              if t == traceId && e == eventId && Lookup(m, t, e).EmptyCallback? then cb else Lookup(m, t, e)
    ensures traceId in r.0 && eventId in r.0[traceId]
  {
    var inner := if traceId in m then m[traceId] else map[];
    if eventId in inner && inner[eventId].Callback? then (m, false)
    else (m[traceId := inner[eventId := cb]], true)
  }

  /** Registration over the first events of one trace's event map, in
      iteration order; the flag says whether some pair was claimed. */
  function RegisterInTrace(m: RoutingMap, traceId: TraceId, events: EventMap, eventName: string, cb: Callback): (RoutingMap, bool)
    decreases |events|
  {
    if events == [] then (m, false)
    else
      var prev := RegisterInTrace(m, traceId, events[..|events| - 1], eventName, cb);
      var last := events[|events| - 1];
      if NamesMatch(eventName, last.0) then
        var step := Claim(prev.0, traceId, last.1, cb);
        (step.0, prev.1 || step.1)
      else prev
  }

  /** Registration over a sequence of traces, in order. */
  function Register(m: RoutingMap, infos: seq<TraceInfos>, traceType: string, eventName: string, cb: Callback): (RoutingMap, bool)
    decreases |infos|
  {
    if infos == [] then (m, false)
    else
      var prev := Register(m, infos[..|infos| - 1], traceType, eventName, cb);
      var info := infos[|infos| - 1];
      if NamesMatch(traceType, info.traceType) then
        var step := RegisterInTrace(prev.0, info.id, info.eventMap, eventName, cb);
        (step.0, prev.1 || step.1)
      else prev
  }

  /** Some entry of the event map has a name the pattern matches and id `e`. */
  ghost predicate EventMatches(events: EventMap, eventName: string, e: EventId)
  {
    exists j :: 0 <= j < |events| && NamesMatch(eventName, events[j].0) && events[j].1 == e
  }

  /** The pair (t, e) is one the patterns select in the trace set. */
  ghost predicate PairMatches(infos: seq<TraceInfos>, traceType: string, eventName: string, t: TraceId, e: EventId)
  {
    exists i :: 0 <= i < |infos| && infos[i].id == t && NamesMatch(traceType, infos[i].traceType)
                && EventMatches(infos[i].eventMap, eventName, e)
  }

  lemma EventMatchesSnoc(events: EventMap, eventName: string, e: EventId)
    requires events != []
    ensures EventMatches(events, eventName, e) <==>
            EventMatches(events[..|events| - 1], eventName, e) ||
            (NamesMatch(eventName, events[|events| - 1].0) && events[|events| - 1].1 == e)
  {
    var pre := events[..|events| - 1];
    if EventMatches(events, eventName, e) {
      var j :| 0 <= j < |events| && NamesMatch(eventName, events[j].0) && events[j].1 == e;
      if j < |pre| {
        assert pre[j] == events[j];
      }
    }
    if EventMatches(pre, eventName, e) {
      var j :| 0 <= j < |pre| && NamesMatch(eventName, pre[j].0) && pre[j].1 == e;
      assert events[j] == pre[j];
    }
  }

  lemma PairMatchesSnoc(infos: seq<TraceInfos>, traceType: string, eventName: string, t: TraceId, e: EventId)
    requires infos != []
    ensures PairMatches(infos, traceType, eventName, t, e) <==>
            PairMatches(infos[..|infos| - 1], traceType, eventName, t, e) ||
            (var info := infos[|infos| - 1];
             info.id == t && NamesMatch(traceType, info.traceType) && EventMatches(info.eventMap, eventName, e))
  {
    var pre := infos[..|infos| - 1];
    if PairMatches(infos, traceType, eventName, t, e) {
      var i :| 0 <= i < |infos| && infos[i].id == t && NamesMatch(traceType, infos[i].traceType)
                && EventMatches(infos[i].eventMap, eventName, e);
      if i < |pre| {
        assert pre[i] == infos[i];
      }
    }
    if PairMatches(pre, traceType, eventName, t, e) {
      var i :| 0 <= i < |pre| && pre[i].id == t && NamesMatch(traceType, pre[i].traceType)
                && EventMatches(pre[i].eventMap, eventName, e);
      assert infos[i] == pre[i];
    }
  }

  /** Within one trace: a pair gets `cb` exactly when it was empty and the
      event pattern selects it; every other pair keeps its callback. */
  lemma {:induction false} RegisterInTraceLookup(m: RoutingMap, traceId: TraceId, events: EventMap, eventName: string,
                                                 cb: Callback, t: TraceId, e: EventId)
    ensures Lookup(RegisterInTrace(m, traceId, events, eventName, cb).0, t, e) ==
            if Lookup(m, t, e).EmptyCallback? && t == traceId && EventMatches(events, eventName, e) then cb
            else Lookup(m, t, e)
    decreases |events|
  {
    if events != [] {
      var pre := events[..|events| - 1];
      RegisterInTraceLookup(m, traceId, pre, eventName, cb, t, e);
      EventMatchesSnoc(events, eventName, e);
    } else {
      assert !EventMatches(events, eventName, e);
    }
  }

  /** Within one trace: the flag is set exactly when some selected pair was empty. */
  lemma {:induction false} RegisterInTraceFlag(m: RoutingMap, traceId: TraceId, events: EventMap, eventName: string, cb: Callback)
    ensures RegisterInTrace(m, traceId, events, eventName, cb).1 <==>
            exists e :: Lookup(m, traceId, e).EmptyCallback? && EventMatches(events, eventName, e)
    decreases |events|
  {
    if events == [] {
      assert forall e :: !EventMatches(events, eventName, e);
    } else {
      var pre := events[..|events| - 1];
      var last := events[|events| - 1];
      var prev := RegisterInTrace(m, traceId, pre, eventName, cb);
      RegisterInTraceFlag(m, traceId, pre, eventName, cb);
      RegisterInTraceLookup(m, traceId, pre, eventName, cb, traceId, last.1);
      forall e | true
        ensures EventMatches(events, eventName, e) <==>
                EventMatches(pre, eventName, e) || (NamesMatch(eventName, last.0) && last.1 == e)
      {
        EventMatchesSnoc(events, eventName, e);
      }
      if NamesMatch(eventName, last.0) && Lookup(prev.0, traceId, last.1).EmptyCallback? {
        assert Lookup(m, traceId, last.1).EmptyCallback? && EventMatches(events, eventName, last.1);
      }
    }
  }

  /** The routing map after registration, pair by pair: a pair gets the
      callback exactly when it had none and both patterns select it;
      nothing set before is overridden. */
  lemma {:induction false} RegisterLookup(m: RoutingMap, infos: seq<TraceInfos>, traceType: string, eventName: string,
                                          cb: Callback, t: TraceId, e: EventId)
    ensures Lookup(Register(m, infos, traceType, eventName, cb).0, t, e) ==
            if Lookup(m, t, e).EmptyCallback? && PairMatches(infos, traceType, eventName, t, e) then cb
            else Lookup(m, t, e)
    decreases |infos|
  {
    if infos == [] {
      assert !PairMatches(infos, traceType, eventName, t, e);
    } else {
      var pre := infos[..|infos| - 1];
      var info := infos[|infos| - 1];
      var prev := Register(m, pre, traceType, eventName, cb);
      RegisterLookup(m, pre, traceType, eventName, cb, t, e);
      PairMatchesSnoc(infos, traceType, eventName, t, e);
      if NamesMatch(traceType, info.traceType) {
        RegisterInTraceLookup(prev.0, info.id, info.eventMap, eventName, cb, t, e);
      }
    }
  }

  /** The result of registration: true exactly when at least one pair
      selected by the patterns had no callback yet. */
  lemma {:induction false} RegisterFlag(m: RoutingMap, infos: seq<TraceInfos>, traceType: string, eventName: string, cb: Callback)
    ensures Register(m, infos, traceType, eventName, cb).1 <==>
            exists t, e :: Lookup(m, t, e).EmptyCallback? && PairMatches(infos, traceType, eventName, t, e)
    decreases |infos|
  {
    if infos == [] {
      assert forall t, e :: !PairMatches(infos, traceType, eventName, t, e);
    } else {
      var pre := infos[..|infos| - 1];
      var info := infos[|infos| - 1];
      var prev := Register(m, pre, traceType, eventName, cb);
      RegisterFlag(m, pre, traceType, eventName, cb);
      forall t, e | true
        ensures PairMatches(infos, traceType, eventName, t, e) <==>
                PairMatches(pre, traceType, eventName, t, e) ||
                (info.id == t && NamesMatch(traceType, info.traceType) && EventMatches(info.eventMap, eventName, e))
      {
        PairMatchesSnoc(infos, traceType, eventName, t, e);
      }
      if NamesMatch(traceType, info.traceType) {
        RegisterInTraceFlag(prev.0, info.id, info.eventMap, eventName, cb);
        if RegisterInTrace(prev.0, info.id, info.eventMap, eventName, cb).1 {
          var e :| Lookup(prev.0, info.id, e).EmptyCallback? && EventMatches(info.eventMap, eventName, e);
          RegisterLookup(m, pre, traceType, eventName, cb, info.id, e);
          assert Lookup(m, info.id, e).EmptyCallback? && PairMatches(infos, traceType, eventName, info.id, e);
        }
        if !prev.1 {
          forall t, e | Lookup(m, t, e).EmptyCallback? && PairMatches(infos, traceType, eventName, t, e)
            ensures Lookup(prev.0, info.id, e).EmptyCallback? && EventMatches(info.eventMap, eventName, e)
          {
            RegisterLookup(m, pre, traceType, eventName, cb, t, e);
          }
        }
      }
    }
  }

  /** Every pair the patterns select already has a callback: registration
      changes nothing and reports no match. */
  lemma {:induction false} RegisterWhenAllClaimed(m: RoutingMap, infos: seq<TraceInfos>, traceType: string, eventName: string, cb: Callback)
    requires forall t, e :: PairMatches(infos, traceType, eventName, t, e) ==> Lookup(m, t, e).Callback?
    ensures Register(m, infos, traceType, eventName, cb) == (m, false)
    decreases |infos|
  {
    if infos != [] {
      var pre := infos[..|infos| - 1];
      var info := infos[|infos| - 1];
      forall t, e | PairMatches(pre, traceType, eventName, t, e)
        ensures Lookup(m, t, e).Callback?
      {
        PairMatchesSnoc(infos, traceType, eventName, t, e);
      }
      RegisterWhenAllClaimed(m, pre, traceType, eventName, cb);
      if NamesMatch(traceType, info.traceType) {
        RegisterInTraceWhenAllClaimed(m, info.id, info.eventMap, eventName, cb, infos, traceType);
      }
    }
  }

  lemma {:induction false} RegisterInTraceWhenAllClaimed(m: RoutingMap, traceId: TraceId, events: EventMap, eventName: string,
                                                         cb: Callback, infos: seq<TraceInfos>, traceType: string)
    requires infos != [] && infos[|infos| - 1].id == traceId
    requires |events| <= |infos[|infos| - 1].eventMap| && infos[|infos| - 1].eventMap[..|events|] == events
    requires NamesMatch(traceType, infos[|infos| - 1].traceType)
    requires forall t, e :: PairMatches(infos, traceType, eventName, t, e) ==> Lookup(m, t, e).Callback?
    ensures RegisterInTrace(m, traceId, events, eventName, cb) == (m, false)
    decreases |events|
  {
    if events != [] {
      var n := |events| - 1;
      var last := events[n];
      var info := infos[|infos| - 1];
      assert info.eventMap[..n] == events[..n];
      RegisterInTraceWhenAllClaimed(m, traceId, events[..n], eventName, cb, infos, traceType);
      if NamesMatch(eventName, last.0) {
        assert info.eventMap[n] == last;
        assert EventMatches(info.eventMap, eventName, last.1);
        assert PairMatches(infos, traceType, eventName, traceId, last.1);
      }
    }
  }

  /** Registration order is observable: once ("", "") has taken every pair
      with a real callback, any later registration claims nothing, returns
      false and leaves the routing map as it is. */
  lemma WildcardFirstStarvesLaterRegistrations(m: RoutingMap, infos: seq<TraceInfos>, wildcard: Callback,
                                               traceType: string, eventName: string, cb: Callback)
    requires wildcard.Callback?
    ensures var after := Register(m, infos, "", "", wildcard).0;
            Register(after, infos, traceType, eventName, cb) == (after, false)
  {
    var after := Register(m, infos, "", "", wildcard).0;
    forall t, e | PairMatches(infos, traceType, eventName, t, e)
      ensures Lookup(after, t, e).Callback?
    {
      var i :| 0 <= i < |infos| && infos[i].id == t && NamesMatch(traceType, infos[i].traceType)
                && EventMatches(infos[i].eventMap, eventName, e);
      var j :| 0 <= j < |infos[i].eventMap| && NamesMatch(eventName, infos[i].eventMap[j].0) && infos[i].eventMap[j].1 == e;
      assert EventMatches(infos[i].eventMap, "", e);
      assert PairMatches(infos, "", "", t, e);
      RegisterLookup(m, infos, "", "", wildcard, t, e);
    }
    RegisterWhenAllClaimed(after, infos, traceType, eventName, cb);
  }

  /** The other order: a specific registration made first keeps its pairs,
      and a later ("", "") registration takes every remaining pair. */
  lemma SpecificThenWildcard(infos: seq<TraceInfos>, traceType: string, eventName: string, specific: Callback,
                             wildcard: Callback, t: TraceId, e: EventId)
    requires specific.Callback?
    ensures var first := Register(map[], infos, traceType, eventName, specific).0;
            Lookup(Register(first, infos, "", "", wildcard).0, t, e) ==
              if PairMatches(infos, traceType, eventName, t, e) then specific
              else if PairMatches(infos, "", "", t, e) then wildcard
              else EmptyCallback
  {
    var first := Register(map[], infos, traceType, eventName, specific).0;
    RegisterLookup(map[], infos, traceType, eventName, specific, t, e);
    RegisterLookup(first, infos, "", "", wildcard, t, e);
  }

  /** One registerEventCallback call a derived provider makes from its
      onInitImpl: the trace type pattern, the event name pattern and the
      callback. */
  datatype Registration = Registration(traceType: string, eventName: string, cb: Callback)

  /** The routing map after a sequence of registrations, made in order. */
  function RegisterAll(m: RoutingMap, infos: seq<TraceInfos>, regs: seq<Registration>): RoutingMap
    decreases |regs|
  {
    if regs == [] then m
    else
      var r := regs[|regs| - 1];
      Register(RegisterAll(m, infos, regs[..|regs| - 1]), infos, r.traceType, r.eventName, r.cb).0
  }

  /** A registration with a non-empty callback whose patterns select (t, e). */
  ghost predicate Selects(infos: seq<TraceInfos>, r: Registration, t: TraceId, e: EventId)
  {
    r.cb.Callback? && PairMatches(infos, r.traceType, r.eventName, t, e)
  }

  /** After registrations from an empty map, a pair is routed exactly when
      some registration selects it, and then to the callback of the first
      one that does: later registrations never override earlier ones. */
  lemma {:induction false} RegisterAllFirstWins(infos: seq<TraceInfos>, regs: seq<Registration>, t: TraceId, e: EventId)
    ensures Lookup(RegisterAll(map[], infos, regs), t, e).Callback? <==>
            exists k :: 0 <= k < |regs| && Selects(infos, regs[k], t, e)
    ensures forall k :: 0 <= k < |regs| && Selects(infos, regs[k], t, e) &&
                        (forall j :: 0 <= j < k ==> !Selects(infos, regs[j], t, e)) ==>
                        Lookup(RegisterAll(map[], infos, regs), t, e) == regs[k].cb
    decreases |regs|
  {
    if regs != [] {
      var n := |regs| - 1;
      var pre := regs[..n];
      var r := regs[n];
      RegisterAllFirstWins(infos, pre, t, e);
      RegisterLookup(RegisterAll(map[], infos, pre), infos, r.traceType, r.eventName, r.cb, t, e);
      assert forall k :: 0 <= k < n ==> pre[k] == regs[k];
      if exists k :: 0 <= k < n && Selects(infos, regs[k], t, e) {
        var k :| 0 <= k < n && Selects(infos, regs[k], t, e);
        assert Selects(infos, pre[k], t, e);
      }
    }
  }

  class AbstractStateProvider {
    /** _infamousMap. */
    var infamousMap: RoutingMap
    /** The trace infos of _curTraceSet; None until onInit sets the pointer. */
    var curTraceSet: Option<seq<TraceInfos>>
    /** The implementation hooks run so far (their effects are the provider's). */
    ghost var hooks: seq<ProviderHook>

    constructor()
      ensures infamousMap == map[] && curTraceSet == None && hooks == []
    {
      infamousMap := map[];
      curTraceSet := None;
      hooks := [];
    }

    /** Records the trace set and empties the routing map, then runs the
        implementation hook, which makes the registrations `regs` in
        order (none for the base class, whose hook is empty). */
    method OnInit(traceSet: seq<TraceInfos>, regs: seq<Registration>)
      modifies this
      ensures curTraceSet == Some(traceSet) && infamousMap == RegisterAll(map[], traceSet, regs)
      ensures hooks == old(hooks) + [InitImpl]
    {
      curTraceSet := Some(traceSet);
      infamousMap := map[];
      hooks := hooks + [InitImpl];
      var k := 0;
      while k < |regs|
        invariant 0 <= k <= |regs|
        invariant curTraceSet == Some(traceSet) && hooks == old(hooks) + [InitImpl]
        invariant infamousMap == RegisterAll(map[], traceSet, regs[..k])
      {
        var claimed := RegisterEventCallback(regs[k].traceType, regs[k].eventName, regs[k].cb);
        assert regs[..k + 1][..k] == regs[..k];
        k := k + 1;
      }
      assert regs[..k] == regs;
    }

    /** Dispatch of one event: the registered callback's answer, or true
        when the pair has no callback. `run` gives what a callback answers
        for this event. */
    function OnEvent(traceId: TraceId, eventId: EventId, run: nat -> bool): (r: bool)
      reads this
      ensures Lookup(infamousMap, traceId, eventId).Callback? ==> r == run(Lookup(infamousMap, traceId, eventId).id)
      ensures Lookup(infamousMap, traceId, eventId).EmptyCallback? ==> r
    {
      if traceId in infamousMap && eventId in infamousMap[traceId] && infamousMap[traceId][eventId].Callback? then
        run(infamousMap[traceId][eventId].id)
      else
        true
    }

    /** Runs the implementation hook, then empties the routing map. */
    method OnFini()
      modifies this
      ensures infamousMap == map[] && curTraceSet == old(curTraceSet)
      ensures hooks == old(hooks) + [FiniImpl]
    {
      hooks := hooks + [FiniImpl];
      infamousMap := map[];
    }

    /** `if (!_infamousMap[traceId][eventId]) _infamousMap[traceId][eventId] = cb;`
        where operator[] first inserts the missing levels as empty entries. */
    method ClaimSlot(traceId: TraceId, eventId: EventId, cb: Callback) returns (claimed: bool)
      modifies this`infamousMap
      ensures (infamousMap, claimed) == Claim(old(infamousMap), traceId, eventId, cb)
    {
      var inner: map<EventId, Callback> := if traceId in infamousMap then infamousMap[traceId] else map[];
      ghost var found: map<EventId, Callback> := inner;
      if eventId !in inner {
        inner := inner[eventId := EmptyCallback];
      }
      infamousMap := infamousMap[traceId := inner];
      claimed := inner[eventId].EmptyCallback?;
      if claimed {
        assert inner[eventId := cb] == found[eventId := cb];
        infamousMap := infamousMap[traceId := inner[eventId := cb]];
        assert infamousMap == old(infamousMap)[traceId := found[eventId := cb]];
      } else {
        assert infamousMap == old(infamousMap);
      }
    }

    /** Visits every trace whose type the pattern selects and, in it, every
        event whose name the pattern selects; an empty slot takes `onEvent`. */
    method RegisterEventCallback(traceType: string, eventName: string, onEvent: Callback) returns (matchLatch: bool)
      requires curTraceSet.Some?
      modifies this`infamousMap
      ensures (infamousMap, matchLatch) == Register(old(infamousMap), curTraceSet.value, traceType, eventName, onEvent)
    {
      var tracesInfos := curTraceSet.value;
      matchLatch := false;
      var i := 0;
      while i < |tracesInfos|
        invariant 0 <= i <= |tracesInfos|
        invariant (infamousMap, matchLatch) == Register(old(infamousMap), tracesInfos[..i], traceType, eventName, onEvent)
      {
        var traceInfos := tracesInfos[i];
        assert tracesInfos[..i + 1][..i] == tracesInfos[..i];
        if NamesMatch(traceType, traceInfos.traceType) {
          var eventMap := traceInfos.eventMap;
          ghost var before := (infamousMap, matchLatch);
          var j := 0;
          while j < |eventMap|
            invariant 0 <= j <= |eventMap|
            invariant var step := RegisterInTrace(before.0, traceInfos.id, eventMap[..j], eventName, onEvent);
                      infamousMap == step.0 && matchLatch == (before.1 || step.1)
          {
            var (name, eventId) := eventMap[j];
            assert eventMap[..j + 1][..j] == eventMap[..j];
            if NamesMatch(eventName, name) {
              var claimed := ClaimSlot(traceInfos.id, eventId, onEvent);
              matchLatch := matchLatch || claimed;
            }
            j := j + 1;
          }
          assert eventMap[..j] == eventMap;
        }
        i := i + 1;
      }
      assert tracesInfos[..i] == tracesInfos;
    }
  }
}
