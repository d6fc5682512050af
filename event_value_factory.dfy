/** EventValueFactory: eight pools, the 32-slot builder table initTypes()
    fills, buildEventValue and resetPools; and the DictEventValue /
    ArrayEventValue members that build children through the factory
    (operator[], getMap, getVector, toString). A built value is a value of
    the EventValue datatype; the pools record which slot each one takes. */
module EventValueFactories {
  import opened Basics
  import opened OrderedMaps
  import opened EventValues
  import opened EventValuePools

  /** Initial pool capacities, in member order. */
  const ARRAY_POOL_CAPACITY: nat := 128
  const DICT_POOL_CAPACITY: nat := 32
  const ENUM_POOL_CAPACITY: nat := 64
  const FLOAT_POOL_CAPACITY: nat := 64
  const SINT_POOL_CAPACITY: nat := 128
  const STRING_POOL_CAPACITY: nat := 64
  const UINT_POOL_CAPACITY: nat := 128
  const UNKNOWN_POOL_CAPACITY: nat := 1

  /** Where a built value was placed: its pool and the slot in it. */
  datatype Slot = Slot(pool: EventValueType, index: nat)

  /** The pools are members held by value, so the factory keeps their
      states; each changes only as EventValuePool::get and reset do. */
  class EventValueFactory {
    /** _builders: one builder per CTF type id. */
    const builders: array<Builder>
    var arrayPool: PoolState
    var dictPool: PoolState
    var enumPool: PoolState
    var floatPool: PoolState
    var sintPool: PoolState
    var stringPool: PoolState
    var uintPool: PoolState
    var unknownPool: PoolState
    /** How many values have been built: one slot taken per build. */
    ghost var builds: nat

    /** The pool values of kind `t` are placed in. */
    function PoolFor(t: EventValueType): PoolState
      reads this
    {
      match t
      case ARRAY => arrayPool
      case DICT => dictPool
      case ENUM => enumPool
      case FLOAT => floatPool
      case SINT => sintPool
      case STRING => stringPool
      case UINT => uintPool
      case UNKNOWN => unknownPool
    }

    ghost predicate Valid()
      reads this, builders
    {
      builders.Length == BUILDER_SLOTS &&
      (forall i :: 0 <= i < BUILDER_SLOTS ==> builders[i] == BuilderFor(i)) &&
      PoolInvariant(arrayPool) && PoolInvariant(dictPool) && PoolInvariant(enumPool) &&
      PoolInvariant(floatPool) && PoolInvariant(sintPool) && PoolInvariant(stringPool) &&
      PoolInvariant(uintPool) && PoolInvariant(unknownPool)
    }

    /** One get() on the pool of kind `t` and no change to the others. */
    twostate predicate TookOneSlot(t: EventValueType)
      reads this
    {
      PoolFor(t) == AfterGet(old(PoolFor(t))) &&
      forall u :: u != t ==> PoolFor(u) == old(PoolFor(u))
    }

    /** Eight pools with their initial capacities, then initTypes(). */
    constructor()
      ensures Valid() && fresh(builders)
      ensures PoolFor(ARRAY) == PoolState(ARRAY_POOL_CAPACITY, 1, 0)
      ensures PoolFor(DICT) == PoolState(DICT_POOL_CAPACITY, 1, 0)
      ensures PoolFor(ENUM) == PoolState(ENUM_POOL_CAPACITY, 1, 0)
      ensures PoolFor(FLOAT) == PoolState(FLOAT_POOL_CAPACITY, 1, 0)
      ensures PoolFor(SINT) == PoolState(SINT_POOL_CAPACITY, 1, 0)
      ensures PoolFor(STRING) == PoolState(STRING_POOL_CAPACITY, 1, 0)
      ensures PoolFor(UINT) == PoolState(UINT_POOL_CAPACITY, 1, 0)
      ensures PoolFor(UNKNOWN) == PoolState(UNKNOWN_POOL_CAPACITY, 1, 0)
      ensures builds == 0
    {
      builders := new Builder[BUILDER_SLOTS];
      arrayPool := PoolState(ARRAY_POOL_CAPACITY, 1, 0);
      dictPool := PoolState(DICT_POOL_CAPACITY, 1, 0);
      enumPool := PoolState(ENUM_POOL_CAPACITY, 1, 0);
      floatPool := PoolState(FLOAT_POOL_CAPACITY, 1, 0);
      sintPool := PoolState(SINT_POOL_CAPACITY, 1, 0);
      stringPool := PoolState(STRING_POOL_CAPACITY, 1, 0);
      uintPool := PoolState(UINT_POOL_CAPACITY, 1, 0);
      unknownPool := PoolState(UNKNOWN_POOL_CAPACITY, 1, 0);
      builds := 0;
      new;
      InitTypes();
      assert forall i :: 0 <= i < BUILDER_SLOTS ==> builders[i] == builders[..][i];
    }

    /** Every slot gets the Unknown builder, then the eight supported type
        ids get theirs. */
    method InitTypes()
      requires builders.Length == BUILDER_SLOTS
      modifies builders
      ensures builders[..] == BuilderTable()
    {
      for i := 0 to builders.Length
        invariant forall j :: 0 <= j < i ==> builders[j] == UnknownBuilder
      {
        builders[i] := UnknownBuilder;
      }
      builders[CTF_TYPE_INTEGER] := IntBuilder;
      builders[CTF_TYPE_FLOAT] := FloatBuilder;
      builders[CTF_TYPE_ENUM] := EnumBuilder;
      builders[CTF_TYPE_STRING] := StringBuilder;
      builders[CTF_TYPE_STRUCT] := StructBuilder;
      builders[CTF_TYPE_VARIANT] := VariantBuilder;
      builders[CTF_TYPE_ARRAY] := ArraySequenceBuilder;
      builders[CTF_TYPE_SEQUENCE] := ArraySequenceBuilder;
      assert forall j :: 0 <= j < BUILDER_SLOTS ==> builders[j] == BuilderFor(j);
    }

    /** Takes the next slot of the pool of kind `t` (EventValuePool::get). */
    method Place(t: EventValueType) returns (slot: Slot)
      requires Valid()
      modifies this
      ensures Valid()
      ensures slot == Slot(t, old(PoolFor(t).next)) && slot.index < PoolFor(t).capacity
      ensures TookOneSlot(t) && builds == old(builds) + 1
    {
      builds := builds + 1;
      slot := Slot(t, PoolFor(t).next);
      PoolOperationsKeepInvariant(PoolFor(t));
      match t
      case ARRAY => arrayPool := AfterGet(arrayPool);
      case DICT => dictPool := AfterGet(dictPool);
      case ENUM => enumPool := AfterGet(enumPool);
      case FLOAT => floatPool := AfterGet(floatPool);
      case SINT => sintPool := AfterGet(sintPool);
      case STRING => stringPool := AfterGet(stringPool);
      case UINT => uintPool := AfterGet(uintPool);
      case UNKNOWN => unknownPool := AfterGet(unknownPool);
    }

    /** buildEventValue: runs the builder the table holds for the type id.
        Every call takes exactly one slot, in the pool of the kind it
        returns; a variant builds its active member instead of itself. */
    method BuildEventValue(def: FieldDef) returns (v: EventValue, slot: Slot)
      requires Valid() && Buildable(def)
      modifies this
      ensures Valid()
      ensures v == Build(def)
      ensures slot == Slot(v.Type(), old(PoolFor(v.Type()).next))
      ensures TookOneSlot(v.Type()) && builds == old(builds) + 1
      decreases def
    {
      var builder := builders[def.typeId];
      if builder == VariantBuilder && def.variantMember.Some? {
        v, slot := BuildEventValue(def.variantMember.value);
      } else {
        // each builder constructs its kind of value in that kind's pool; a
        // variant without an active member gets the Unknown builder of the
        // null definition
        v := match builder
          case IntBuilder => if def.signedness == 1 then SintValue(def) else UintValue(def)
          case FloatBuilder => FloatValue(def)
          case EnumBuilder => EnumValue(def)
          case StringBuilder => StringValue(def)
          case StructBuilder => MakeDict(def)
          case ArraySequenceBuilder => MakeArray(def)
          case _ => UnknownValue;
        slot := Place(v.Type());
      }
    }

    /** resetPools: every pool rewinds to its first slot. */
    method ResetPools()
      requires Valid()
      modifies this
      ensures Valid()
      ensures forall t :: PoolFor(t) == AfterReset(old(PoolFor(t)))
    {
      PoolOperationsKeepInvariant(arrayPool);
      arrayPool := AfterReset(arrayPool);
      PoolOperationsKeepInvariant(dictPool);
      dictPool := AfterReset(dictPool);
      PoolOperationsKeepInvariant(enumPool);
      enumPool := AfterReset(enumPool);
      PoolOperationsKeepInvariant(floatPool);
      floatPool := AfterReset(floatPool);
      PoolOperationsKeepInvariant(sintPool);
      sintPool := AfterReset(sintPool);
      PoolOperationsKeepInvariant(stringPool);
      stringPool := AfterReset(stringPool);
      PoolOperationsKeepInvariant(uintPool);
      uintPool := AfterReset(uintPool);
      PoolOperationsKeepInvariant(unknownPool);
      unknownPool := AfterReset(unknownPool);
    }

    // -------------------------------------------------------------------
    // DictEventValue / ArrayEventValue members that build through the
    // factory.

    /** DictEventValue::operator[] and ArrayEventValue::operator[]: builds
        the index-th child definition (no bounds check: it must exist). */
    method Item(v: EventValue, index: nat) returns (item: EventValue, slot: Slot)
      requires Valid() && (v.DictValue? || v.ArrayValue?)
      requires IndexReadable(v, index) && Buildable(ItemDef(v, index))
      modifies this
      ensures Valid()
      ensures item == Build(ItemDef(v, index))
      ensures TookOneSlot(item.Type()) && builds == old(builds) + 1
    {
      item, slot := BuildEventValue(v.fieldList.defs[index]);
    }

    /** getVector: the items at indices 0 .. size-1, in order. */
    method GetVector(a: EventValue) returns (items: seq<EventValue>)
      requires Valid() && a.ArrayValue? && Renderable(a)
      modifies this
      ensures Valid()
      ensures items == ArrayItems(a)
      ensures builds == old(builds) + a.size
    {
      ChildrenRenderable(a);
      items := [];
      var x := 0;
      while x < a.size
        invariant Valid()
        invariant x <= a.size
        invariant items == ArrayItems(a)[..x]
        invariant builds == old(builds) + x
      {
        var item, _ := Item(a, x);
        items := items + [item];
        x := x + 1;
      }
    }

    /** getMap: inserts (key name, item) for indices 0 .. size-1 into an
        ordered map; a repeated key keeps its first item. */
    method GetMap(d: EventValue) returns (m: OrderedMap<EventValue>)
      requires Valid() && d.DictValue? && Renderable(d)
      modifies this
      ensures Valid()
      ensures m == DictMap(d)
      ensures builds == old(builds) + d.size
    {
      ghost var entries := DictEntries(d);
      m := [];
      var x := 0;
      while x < d.size
        invariant Valid()
        invariant x <= d.size
        invariant m == FromEntries(entries[..x])
        invariant builds == old(builds) + x
      {
        ChildrenRenderable(d);
        var keyName := GetKeyName(d, x);
        var item, _ := Item(d, x);
        assert entries[..x + 1][..x] == entries[..x];
        assert entries[x] == (keyName.value, item);
        m := Insert(m, keyName.value, item);
        x := x + 1;
      }
      assert entries[..x] == entries;
    }

    /** toString(): the text of any value (see ValueText). */
    method ToString(v: EventValue, unknownText: string) returns (s: string)
      requires Valid() && Renderable(v)
      modifies this
      ensures Valid()
      ensures s == ValueText(v, unknownText)
      decreases ValueSize(v), 2
    {
      match v
      case DictValue(_, _, _) =>
        s := DictToString(v, unknownText);
      case ArrayValue(_, _, _) =>
        s := ArrayToString(v, unknownText);
      case UnknownValue =>
        s := unknownText;
      case _ =>
        s := v.def.scalarText;
    }

    /** DictEventValue::toStringImpl: "{}" when empty, else "{", the
        entries of getMap() joined, and "}". */
    method DictToString(d: EventValue, unknownText: string) returns (s: string)
      requires Valid() && d.DictValue? && Renderable(d)
      modifies this
      ensures Valid()
      ensures s == DictText(d, unknownText)
      decreases ValueSize(d), 1
    {
      if d.size == 0 {
        return "{}";
      }
      var m := GetMap(d);
      FromEntriesKeys(DictEntries(d));
      assert DictEntries(d)[0].0 in Keys(m);
      var body := JoinEntries(d, m, unknownText);
      s := "{" + body + "}";
    }

    /** The entry loop of DictEventValue::toStringImpl: every entry but the
        last followed by ", ", then the last one. */
    method JoinEntries(d: EventValue, m: OrderedMap<EventValue>, unknownText: string) returns (s: string)
      requires Valid() && m != []
      requires forall e :: e in m ==> Renderable(e.1) && ValueSize(e.1) < ValueSize(d)
      modifies this
      ensures Valid()
      ensures s == Joined(EntryTexts(d, m, unknownText))
      decreases ValueSize(d), 0
    {
      s := "";
      var i := 0;
      while i < |m| - 1
        invariant Valid()
        invariant i <= |m| - 1
        invariant s == Separated(EntryTexts(d, m[..i], unknownText))
      {
        assert m[i] in m;
        var valueText := ToString(m[i].1, unknownText);
        assert m[..i + 1][..i] == m[..i];
        s := s + EntryText(m[i].0, valueText) + ", ";
        i := i + 1;
      }
      var last := m[|m| - 1];
      assert last in m;
      var lastText := ToString(last.1, unknownText);
      assert m[..|m| - 1] == m[..i];
      s := s + EntryText(last.0, lastText);
    }

    /** ArrayEventValue::toStringImpl: "[]" when empty, the quoted char
        array of a string array when there is one, else "[", the items of
        getVector() joined, and "]". */
    method ArrayToString(a: EventValue, unknownText: string) returns (s: string)
      requires Valid() && a.ArrayValue? && Renderable(a)
      modifies this
      ensures Valid()
      ensures s == ArrayText(a, unknownText)
      decreases ValueSize(a), 1
    {
      if a.size == 0 {
        return "[]";
      }
      if IsString(a) {
        var str := GetString(a);
        if str.Some? {
          return "\"" + str.value + "\"";
        }
      }
      var items := GetVector(a);
      var body := JoinItems(a, items, unknownText);
      s := "[" + body + "]";
    }

    /** The item loop of ArrayEventValue::toStringImpl: every item but the
        last followed by ", ", then the last one. */
    method JoinItems(a: EventValue, items: seq<EventValue>, unknownText: string) returns (s: string)
      requires Valid() && items != []
      requires forall v :: v in items ==> Renderable(v) && ValueSize(v) < ValueSize(a)
      modifies this
      ensures Valid()
      ensures s == Joined(ItemTexts(a, items, unknownText))
      decreases ValueSize(a), 0
    {
      s := "";
      var i := 0;
      while i < |items| - 1
        invariant Valid()
        invariant i <= |items| - 1
        invariant s == Separated(ItemTexts(a, items[..i], unknownText))
      {
        assert items[i] in items;
        var itemText := ToString(items[i], unknownText);
        assert items[..i + 1][..i] == items[..i];
        s := s + itemText + ", ";
        i := i + 1;
      }
      var lastText := ToString(items[|items| - 1], unknownText);
      assert items[..|items| - 1] == items[..i];
      s := s + lastText;
    }
  }

  // ---------------------------------------------------------------------
  // initTypes as written: its builders are function-local statics.

  /** The function-local static builders of initTypes: unset until the
      first call, then bound to the factory that made that call. Factories
      are numbered in creation order. */
  datatype StaticBuilders = Uninitialised | CapturedBy(owner: nat)

  /** initTypes as written, called by factory `self`: the static lambdas
      are initialised on the first call only, capturing that call's `this`,
      and every factory's table then holds those same lambdas. */
  function InitTypesAsWritten(statics: StaticBuilders, self: nat): (r: StaticBuilders)
    ensures r.CapturedBy?
    ensures statics.CapturedBy? ==> r == statics
  {
    if statics.Uninitialised? then CapturedBy(self) else statics
  }

  /** Building one value as written, through any factory: one get() on the
      pool (of the value's kind) of the factory the lambdas captured.
      `pools` gives that pool for each factory. */
  function BuildAsWritten(pools: map<nat, PoolState>, statics: StaticBuilders): (r: map<nat, PoolState>)
    requires statics.CapturedBy? && statics.owner in pools
    ensures r.Keys == pools.Keys
    ensures forall f :: f in pools && f != statics.owner ==> r[f] == pools[f]
    ensures r[statics.owner].next == pools[statics.owner].next + 1
  {
    pools[statics.owner := AfterGet(pools[statics.owner])]
  }

  /** As written, the second factory made builds its values in the first
      factory's pool and leaves its own untouched, so the second factory's
      resetPools does not give back the slot its value took, and the values
      live in a pool the second factory's owner does not own. */
  lemma SecondFactoryBuildsIntoFirst(first: PoolState, second: PoolState)
    ensures var statics := InitTypesAsWritten(InitTypesAsWritten(Uninitialised, 0), 1);
      statics == CapturedBy(0) &&
      var after := BuildAsWritten(map[0 := first, 1 := second], statics);
      after[1] == second && after[0] == AfterGet(first) &&
      AfterReset(after[1]) == AfterReset(second) && after[0].next == first.next + 1
  {
  }
}
