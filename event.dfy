/** Event: a tigerbeetle view of the current Babeltrace event. It packs a
    trace-wide event id, keeps the trace handle id, and builds the event's
    top-level scopes as dicts lazily, caching each until the next event. */
module Events {
  import opened Basics
  import opened EventValues
  import opened EventValueFactories
  import opened EventIds

  /** The four `bt_ctf_scope` values the getters ask for. */
  datatype Scope = EventFields | EventContext | StreamEventContext | StreamPacketContext

  /** What is read of a `bt_ctf_event`: the top-level definition of each
      scope it has (bt_ctf_get_top_level_scope gives null for the others),
      the 64-bit event and stream ids of its stream, the id of its
      trace's handle, and its timestamp (bt_ctf_get_timestamp). */
  datatype BtEvent = BtEvent(
    scopes: map<Scope, FieldDef>,
    streamEventId: bv64,
    streamId: bv64,
    traceHandleId: int,
    timestamp: u64)

  /** The id setPrivateEvent computes, as 32 bits: both stream ids cast to
      32 bits, then packed. */
  function PackedId(ev: BtEvent): bv32
  {
    PackEventId32(Truncate32(ev.streamId), Truncate32(ev.streamEventId))
  }

  /** The same id as an unsigned integer (event_id_t). */
  function EventIdOf(ev: BtEvent): (id: u32)
    ensures id == PackedId(ev) as int
  {
    PackedId(ev) as int
  }

  /** Two events of streams whose ids fit 12 bits, with event ids that fit
      20 bits, have the same id only if both ids agree. */
  lemma EventIdOfInjective(a: BtEvent, b: BtEvent)
    requires a.streamId < 0x1000 && a.streamEventId < 0x10_0000
    requires b.streamId < 0x1000 && b.streamEventId < 0x10_0000
    requires PackedId(a) == PackedId(b)
    ensures a.streamId == b.streamId && a.streamEventId == b.streamEventId
  {
    SmallIdsFit(a);
    SmallIdsFit(b);
    PackInjective(Truncate32(a.streamId), Truncate32(a.streamEventId),
                  Truncate32(b.streamId), Truncate32(b.streamEventId));
    Truncate32Injective(a.streamId, b.streamId);
    Truncate32Injective(a.streamEventId, b.streamEventId);
  }

  /** Ids in the packing range stay in it when cast to 32 bits. */
  lemma SmallIdsFit(ev: BtEvent)
    requires ev.streamId < 0x1000 && ev.streamEventId < 0x10_0000
    ensures Truncate32(ev.streamId) < 0x1000 && Truncate32(ev.streamEventId) < 0x10_0000
  {
    Truncate32Small(ev.streamId);
    Truncate32Small(ev.streamEventId);
  }

  /** getTopLevelScope: the scope built as a dict when the event has it and
      it is a CTF struct, else null. */
  function TopLevelScope(ev: BtEvent, scope: Scope): (r: Option<EventValue>)
    ensures r.Some? <==> scope in ev.scopes && ev.scopes[scope].typeId == CTF_TYPE_STRUCT
    ensures r.Some? ==> r.value == MakeDict(ev.scopes[scope]) && r.value.DictValue?
  {
    if scope in ev.scopes && ev.scopes[scope].typeId == CTF_TYPE_STRUCT then
      Some(AsDict(Build(ev.scopes[scope])))
    else
      None
  }

  /** The position of the first field of `d` at or after `from` named
      `name`, if any. */
  function FirstNamedFrom(d: EventValue, name: string, from: nat): (r: Option<nat>)
    requires d.DictValue? && Renderable(d)
    decreases d.size - from
  {
    if from >= d.size then None
    else if GetKeyName(d, from).value == name then Some(from)
    else FirstNamedFrom(d, name, from + 1)
  }

  /** The key name of the index-th field of a renderable dict. */
  function KeyAt(d: EventValue, i: nat): string
    requires d.DictValue? && Renderable(d) && i < d.size
  {
    GetKeyName(d, i).value
  }

  /** FirstNamedFrom finds the first match, and nothing when no field at
      or after `from` has the name. */
  lemma {:induction false} FirstNamedFromIsFirst(d: EventValue, name: string, from: nat)
    requires d.DictValue? && Renderable(d)
    ensures FirstNamedFrom(d, name, from).None? <==> forall j :: from <= j < d.size ==> KeyAt(d, j) != name
    ensures FirstNamedFrom(d, name, from).Some? ==>
              var i := FirstNamedFrom(d, name, from).value;
              from <= i < d.size && KeyAt(d, i) == name &&
              forall j :: from <= j < i ==> KeyAt(d, j) != name
    decreases d.size - from
  {
    if from < d.size && KeyAt(d, from) != name {
      FirstNamedFromIsFirst(d, name, from + 1);
    }
  }

  /** operator[](name): null without fields, else the value of the first
      field with that name, or null when none has it. */
  function FieldNamed(fields: Option<EventValue>, name: string): (r: Option<EventValue>)
    requires fields.Some? ==> fields.value.DictValue? && Renderable(fields.value)
    ensures fields.None? ==> r.None?
    ensures fields.Some? ==> (r.None? <==> forall j :: 0 <= j < fields.value.size ==> KeyAt(fields.value, j) != name)
  {
    match fields
    case None => None
    case Some(d) =>
      FirstNamedFromIsFirst(d, name, 0);
      match FirstNamedFrom(d, name, 0)
      case None => None
      case Some(i) =>
        ChildrenRenderable(d);
        Some(Build(Children(d.def)[i]))
  }

  /** The fields scope of `ev`, when present, can be searched and rendered:
      its fields are named and buildable. */
  ghost predicate FieldsReadable(ev: BtEvent)
  {
    TopLevelScope(ev, EventFields).Some? ==> Renderable(TopLevelScope(ev, EventFields).value)
  }

  class Event {
    const valueFactory: EventValueFactory
    /** _btEvent: none until the first setPrivateEvent. */
    var btEvent: Option<BtEvent>
    var fieldsDict: Option<EventValue>
    var contextDict: Option<EventValue>
    var streamEventContextDict: Option<EventValue>
    var streamPacketContextDict: Option<EventValue>
    var id: u32
    var traceId: int

    /** A cached scope is the one of the current event. */
    ghost predicate CachesSound()
      reads this
    {
      btEvent.Some? &&
      (fieldsDict.Some? ==> fieldsDict == TopLevelScope(btEvent.value, EventFields)) &&
      (contextDict.Some? ==> contextDict == TopLevelScope(btEvent.value, EventContext)) &&
      (streamEventContextDict.Some? ==> streamEventContextDict == TopLevelScope(btEvent.value, StreamEventContext)) &&
      (streamPacketContextDict.Some? ==> streamPacketContextDict == TopLevelScope(btEvent.value, StreamPacketContext))
    }

    ghost predicate Valid()
      reads this, valueFactory, valueFactory.builders
    {
      valueFactory.Valid() && CachesSound()
    }

    /** Keeps the factory; the event is set by setPrivateEvent before any
        other member is used. */
    constructor(factory: EventValueFactory)
      ensures valueFactory == factory && btEvent.None?
      ensures fieldsDict.None? && contextDict.None?
      ensures streamEventContextDict.None? && streamPacketContextDict.None?
    {
      valueFactory := factory;
      btEvent := None;
      fieldsDict := None;
      contextDict := None;
      streamEventContextDict := None;
      streamPacketContextDict := None;
      id := 0;
      traceId := 0;
    }

    /** setPrivateEvent: switches to `ev`, drops the four cached scopes and
        computes the event id and the trace id. */
    method SetPrivateEvent(ev: BtEvent)
      requires valueFactory.Valid()
      modifies this
      ensures Valid()
      ensures btEvent == Some(ev)
      ensures fieldsDict.None? && contextDict.None?
      ensures streamEventContextDict.None? && streamPacketContextDict.None?
      ensures id == EventIdOf(ev) && traceId == ev.traceHandleId
    {
      btEvent := Some(ev);
      fieldsDict := None;
      contextDict := None;
      streamEventContextDict := None;
      streamPacketContextDict := None;
      var ctfEventId := Truncate32(ev.streamEventId);
      var ctfStreamId := Truncate32(ev.streamId);
      id := ((ctfStreamId << 20) | (ctfEventId & 0xf_ffff)) as int;
      traceId := ev.traceHandleId;
    }

    /** getTopLevelScope: builds the scope as a dict when it is a struct,
        taking one dict slot, and takes nothing otherwise. */
    method GetTopLevelScope(scope: Scope) returns (d: Option<EventValue>)
      requires Valid()
      modifies valueFactory
      ensures Valid()
      ensures d == TopLevelScope(btEvent.value, scope)
      ensures d.Some? ==> valueFactory.TookOneSlot(DICT)
      ensures d.None? ==> unchanged(valueFactory)
    {
      var ev := btEvent.value;
      if scope in ev.scopes && ev.scopes[scope].typeId == CTF_TYPE_STRUCT {
        var v, _ := valueFactory.BuildEventValue(ev.scopes[scope]);
        d := Some(AsDict(v));
      } else {
        d := None;
      }
    }

    /** getFields: computed on the first call after setPrivateEvent; while
        the cache holds a dict no value is built. */
    method GetFields() returns (d: Option<EventValue>)
      requires Valid()
      modifies this, valueFactory
      ensures Valid() && btEvent == old(btEvent)
      ensures d == TopLevelScope(btEvent.value, EventFields) && fieldsDict == d
      ensures contextDict == old(contextDict) && streamEventContextDict == old(streamEventContextDict)
      ensures streamPacketContextDict == old(streamPacketContextDict)
      ensures id == old(id) && traceId == old(traceId)
      ensures old(fieldsDict).Some? ==> unchanged(valueFactory)
    {
      if fieldsDict.None? {
        fieldsDict := GetTopLevelScope(EventFields);
      }
      d := fieldsDict;
    }

    /** getContext, like getFields for the event context. */
    method GetContext() returns (d: Option<EventValue>)
      requires Valid()
      modifies this, valueFactory
      ensures Valid() && btEvent == old(btEvent)
      ensures d == TopLevelScope(btEvent.value, EventContext) && contextDict == d
      ensures fieldsDict == old(fieldsDict) && streamEventContextDict == old(streamEventContextDict)
      ensures streamPacketContextDict == old(streamPacketContextDict)
      ensures id == old(id) && traceId == old(traceId)
      ensures old(contextDict).Some? ==> unchanged(valueFactory)
    {
      if contextDict.None? {
        contextDict := GetTopLevelScope(EventContext);
      }
      d := contextDict;
    }

    /** getStreamEventContext, like getFields for the stream event context. */
    method GetStreamEventContext() returns (d: Option<EventValue>)
      requires Valid()
      modifies this, valueFactory
      ensures Valid() && btEvent == old(btEvent)
      ensures d == TopLevelScope(btEvent.value, StreamEventContext) && streamEventContextDict == d
      ensures fieldsDict == old(fieldsDict) && contextDict == old(contextDict)
      ensures streamPacketContextDict == old(streamPacketContextDict)
      ensures id == old(id) && traceId == old(traceId)
      ensures old(streamEventContextDict).Some? ==> unchanged(valueFactory)
    {
      if streamEventContextDict.None? {
        streamEventContextDict := GetTopLevelScope(StreamEventContext);
      }
      d := streamEventContextDict;
    }

    /** getStreamPacketContext, like getFields for the stream packet context. */
    method GetStreamPacketContext() returns (d: Option<EventValue>)
      requires Valid()
      modifies this, valueFactory
      ensures Valid() && btEvent == old(btEvent)
      ensures d == TopLevelScope(btEvent.value, StreamPacketContext) && streamPacketContextDict == d
      ensures fieldsDict == old(fieldsDict) && contextDict == old(contextDict)
      ensures streamEventContextDict == old(streamEventContextDict)
      ensures id == old(id) && traceId == old(traceId)
      ensures old(streamPacketContextDict).Some? ==> unchanged(valueFactory)
    {
      if streamPacketContextDict.None? {
        streamPacketContextDict := GetTopLevelScope(StreamPacketContext);
      }
      d := streamPacketContextDict;
    }

    /** operator[](name): scans the fields in index order and builds the
        first one whose key name equals `name`. */
    method FieldByName(name: string) returns (r: Option<EventValue>)
      requires Valid() && FieldsReadable(btEvent.value)
      modifies this, valueFactory
      ensures Valid() && btEvent == old(btEvent)
      ensures r == FieldNamed(TopLevelScope(btEvent.value, EventFields), name)
    {
      var fields := GetFields();
      if fields.None? {
        return None;
      }
      var d := fields.value;
      var found := FindField(d, name);
      if found.None? {
        return None;
      }
      ChildrenRenderable(d);
      assert ItemDef(d, found.value) == Children(d.def)[found.value];
      var item, _ := valueFactory.Item(d, found.value);
      r := Some(item);
    }

    /** The scan of operator[](name): the key names in index order, up to
        the first equal to `name`. */
    method FindField(d: EventValue, name: string) returns (found: Option<nat>)
      requires d.DictValue? && Renderable(d)
      ensures found == FirstNamedFrom(d, name, 0)
      ensures found.Some? ==> found.value < d.size && KeyAt(d, found.value) == name
      ensures found.None? <==> forall j :: 0 <= j < d.size ==> KeyAt(d, j) != name
    {
      FirstNamedFromIsFirst(d, name, 0);
      var i := 0;
      while i < d.size
        invariant i <= d.size
        invariant forall j :: 0 <= j < i ==> KeyAt(d, j) != name
      {
        if KeyAt(d, i) == name {
          return Some(i);
        }
        i := i + 1;
      }
      return None;
    }

    /** operator[](index): null without fields, else the index-th field
        built (no bounds check: it must exist). */
    method FieldAt(index: nat) returns (r: Option<EventValue>)
      requires Valid()
      requires TopLevelScope(btEvent.value, EventFields).Some? ==>
                 var d := TopLevelScope(btEvent.value, EventFields).value;
                 IndexReadable(d, index) && Buildable(ItemDef(d, index))
      modifies this, valueFactory
      ensures Valid() && btEvent == old(btEvent)
      ensures TopLevelScope(btEvent.value, EventFields).None? ==> r.None?
      ensures TopLevelScope(btEvent.value, EventFields).Some? ==>
                r == Some(Build(ItemDef(TopLevelScope(btEvent.value, EventFields).value, index)))
    {
      var fields := GetFields();
      if fields.None? {
        return None;
      }
      var item, _ := valueFactory.Item(fields.value, index);
      r := Some(item);
    }
  }
}
