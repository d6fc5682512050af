# tigerbeetle write path, modelled in Dafny

tigerbeetle reads LTTng traces in the Common Trace Format (CTF 1.8) through
Babeltrace and builds a *state history* from them. This project models that
write path:

- a **trace set** holds the traces and one shared Babeltrace iterator;
- **trace set iterators** walk the events through that iterator, and each
  has an **event value factory** and an **Event** wrapper;
- the **trace deck** plays the events to playback listeners;
- the **state history builder** is the listener that turns provider paths
  into **state providers**. It fans every start, event and stop out to them;
- each provider routes events to its callbacks through a two-level map,
  the "infamous map", traceId -> eventId -> callback;
- providers write state through the **current state** façade of the
  **state history sink**. The sink interns path and value strings as quarks
  and turns open state values into intervals.

The model follows the code's own shape:

- Classes the source updates in place are Dafny classes with `modifies`
  clauses. These are the sink, the current state, the event value pool, the
  factory, the Event, the trace set, the iterator, the deck, the builder and
  the abstract state provider.
- Immutable values are datatypes: state values, event values, field
  definitions, trace infos and pool states.
- Every loop of the source is a method with its invariants, proved against a
  specification function. Examples: registration over traces and events,
  the fill loops of `initTranslators` and `initTypes`, `getMap`,
  `getVector`, the two `toStringImpl` loops, name lookup, the playback loop,
  and the builder's provider loops.
- Properties that relate several calls are lemmas about those functions.

Babeltrace, the interval file and the provider plugins are not modelled as
code. Instead:

- The stream of events is a sequence, with the positions from which
  advancing fails given as a set.
- A field definition is a datatype of the answers Babeltrace gives about it.
- The calls the sink makes into its files are a ghost log. So are the
  requests it receives, the notifications listeners get, and the hooks
  providers run.
- Callbacks are numbers. What a callback answers is a function `run`
  passed in.

Where the code and its documentation disagree, the model follows the code.
These are the places:

- `StateHistorySink::setState` and `removeState` have empty bodies, so no
  open entry is ever created or closed.
- `open()` never sets `_opened`, so `close()` always returns at once.
- `close()` does not flush open entries as intervals, although its doc
  comment says it does.
- Path and value quarks come from the same counter, `_curPathQuark`.
  `_curStrValueQuark` is never used.
- `play` returns false on an early stop *without* calling `onStop` on the
  listeners.
- `getBegin`/`getEnd` read the first and the last event of the merged
  stream. They are not a minimum and a maximum over it.
- `incState` takes the sum in `std::int64_t` for the int32, uint32 and
  int64 kinds, with overflow there (undefined behaviour) a precondition.
  The int32 and uint32 results are then narrowed modulo 2^32, and the
  uint64 kind wraps modulo 2^64.

Integer widths are explicit:

- `quark_t` is 32-bit unsigned, and the counter wraps modulo 2^32.
- `event_id_t` is 32-bit.
- `trace_ts_t` and `timestamp_t` are 64-bit unsigned.
- Event ids are computed on `bv32`/`bv64` exactly as the shifts and masks
  of the source compute them.

## Model

| member | source | states |
|---|---|---|
| Basics.ToU32 | src/common/state/CurrentState.cpp:125-128 | conversion to uint32 is reduction modulo 2^32, identity on values that fit |
| Basics.ToU64 | src/common/state/CurrentState.cpp:133-136 | conversion to uint64 is reduction modulo 2^64, identity on values that fit |
| Basics.ToI32 | src/common/state/CurrentState.cpp:121-124 | conversion to int32 is the int32 value congruent modulo 2^32, identity on values that fit |
| StateValues.ConstructedValueKeepsTagAndPayload | src/common/state/SimpleStateValue.hpp:54-68 | each of the six state values has the tag of its instance and reads back the value it was built with |
| StateValues.Incremented | src/common/state/CurrentState.cpp:119-142 | the incremented value keeps its kind and is congruent to old + delta modulo the kind's width |
| StateValues.IncrementedExactWhenInRange | src/common/state/CurrentState.cpp:121-136 | when the sum fits the kind's width, the incremented value is exactly old + delta |
| StateHistory.IndexedType | src/common/state/StateHistorySink.cpp:166-171 | slot i holds the type whose index is i, and the six types occupy distinct slots |
| StateHistory.TranslatorTableKeepsKind | src/common/state/StateHistorySink.cpp:77-171 | with the table initTranslators builds, every entry becomes an interval of its own kind spanning [beginTs, _ts), keyed by the path quark, carrying its value |
| StateHistory.TranslatorTableNullElsewhere | src/common/state/StateHistorySink.cpp:161-164 | every slot that is not a state value type holds the null translator |
| StateHistory.CounterStep | src/common/state/StateHistorySink.cpp:208 | incrementing the uint32 counter keeps it equal to the number of quarks issued, modulo 2^32 |
| StateHistory.Intern | src/common/state/StateHistorySink.cpp:200-214 | find-or-insert: the table afterwards has exactly the old keys plus the string, keeps every old quark, and maps the string to the quark returned; a new string takes the counter, which moves on by one modulo 2^32, a known one leaves it alone |
| StateHistory.InternPathKeepsInvariant | src/common/state/StateHistorySink.cpp:200-219 | interning a path keeps the shared-counter invariant: until the counter wraps, no two strings of either table share a quark |
| StateHistory.InternValueKeepsInvariant | src/common/state/StateHistorySink.cpp:200-224 | interning a string value keeps the same invariant, because the value table takes quarks from the path counter |
| StateHistory.StateHistorySink.constructor | src/common/state/StateHistorySink.cpp:47-62 | timestamp 0, not opened, both counters 0, empty tables and entries, translator slots empty functions |
| StateHistory.StateHistorySink.InitTranslators | src/common/state/StateHistorySink.cpp:69-172 | the table becomes the null translator everywhere except the six typed interval translators |
| StateHistory.StateHistorySink.Open | src/common/state/StateHistorySink.cpp:174-178 | opens the interval file and changes nothing else; the sink is not marked opened |
| StateHistory.StateHistorySink.Close | src/common/state/StateHistorySink.cpp:180-198 | not opened: nothing changes; opened: closes the file, writes both databases, empties both tables and marks closed |
| StateHistory.StateHistorySink.SetCurrentTimestamp | src/common/state/StateHistorySink.hpp:75-88 | the timestamp becomes the one given and nothing else changes |
| StateHistory.StateHistorySink.GetCurrentTimestamp | src/common/state/StateHistorySink.hpp:85-88 | the timestamp last set |
| StateHistory.StateHistorySink.GetState | src/common/state/StateHistorySink.hpp:151-160 | null exactly when the path has no entry, else the entry's value |
| StateHistory.StateHistorySink.GetCurrentState | src/common/state/StateHistorySink.hpp:171-174 | always the same façade, bound to this sink |
| StateHistory.StateHistorySink.GetQuark | src/common/state/StateHistorySink.cpp:200-214 | a known string yields its stored quark and changes nothing; a new string is stored with the counter's value, which is returned, and the counter moves on by one (modulo 2^32) |
| StateHistory.StateHistorySink.GetPathQuark | src/common/state/StateHistorySink.cpp:216-219 | interns into the path table only, keeping the quark invariant |
| StateHistory.StateHistorySink.GetStringValueQuark | src/common/state/StateHistorySink.cpp:221-224 | interns into the value table with the path counter, keeping the quark invariant |
| StateHistory.StateHistorySink.WriteInterval | src/common/state/StateHistorySink.cpp:226-250 | nothing is written without an entry or when the translator yields null; otherwise exactly the translated interval is added; an empty slot throws |
| StateHistory.StateHistorySink.SetState | src/common/state/StateHistorySink.cpp:252-254 | as written, the sink's state is unchanged |
| StateHistory.StateHistorySink.RemoveState | src/common/state/StateHistorySink.cpp:256-258 | as written, the sink's state is unchanged |
| StateHistory.CurrentState.constructor | src/common/state/CurrentState.cpp:35-38 | the façade is bound to the given sink |
| StateHistory.CurrentState.GetPathQuark | src/common/state/CurrentState.cpp:40-50 | delegates to the sink's path interning |
| StateHistory.CurrentState.GetStringValueQuark | src/common/state/CurrentState.cpp:52-62 | delegates to the sink's value interning |
| StateHistory.CurrentState.SetState | src/common/state/CurrentState.cpp:106-109 | forwards the path and value unchanged to the sink |
| StateHistory.CurrentState.SetInt32State | src/common/state/CurrentState.cpp:64-69 | forwards an INT32 value holding the argument for the same path |
| StateHistory.CurrentState.SetUint32State | src/common/state/CurrentState.cpp:71-76 | forwards a UINT32 value holding the argument for the same path |
| StateHistory.CurrentState.SetInt64State | src/common/state/CurrentState.cpp:78-83 | forwards an INT64 value holding the argument for the same path |
| StateHistory.CurrentState.SetUint64State | src/common/state/CurrentState.cpp:85-90 | forwards a UINT64 value holding the argument for the same path |
| StateHistory.CurrentState.SetFloat32State | src/common/state/CurrentState.cpp:92-97 | forwards a FLOAT32 value holding the argument for the same path |
| StateHistory.CurrentState.SetQuarkState | src/common/state/CurrentState.cpp:99-104 | forwards a QUARK value holding the argument for the same path |
| StateHistory.CurrentState.IncState | src/common/state/CurrentState.cpp:111-143 | true exactly when the path holds one of the four integer kinds, then one request for the same kind holding old + delta in that width; otherwise false and no request |
| StateHistory.CurrentState.DecState | src/common/state/CurrentState.cpp:145-148 | exactly incState with -delta |
| StateHistory.CurrentState.RemoveState | src/common/state/CurrentState.cpp:150-153 | forwards the removal to the sink |
| StateHistory.CurrentState.GetState | src/common/state/CurrentState.cpp:155-158 | the sink's answer for the path |
| TraceInfo.TraceTypeOf | src/common/trace/TraceInfos.cpp:35-44 | "lttng-" followed by the domain entry, or "(unknown)" without one |
| TraceInfo.MakeTraceInfos | src/common/trace/TraceInfos.cpp:27-45 | path, id, environment and event map are stored as given; the type is derived from the environment |
| TraceInfo.TraceTypeDeterminesDomain | src/common/trace/TraceInfos.cpp:35-44 | two environments give the same trace type exactly when they agree on the domain entry |
| StateProvider.Claim | src/common/stateprov/AbstractStateProvider.cpp:111-114 | one pair takes the callback exactly when it had none; every other pair is untouched; the answer says whether it was claimed |
| StateProvider.NamesMatch | src/common/stateprov/AbstractStateProvider.hpp:127-130 | the empty pattern matches every name; any other pattern matches only the name equal to it |
| StateProvider.Lookup | src/common/stateprov/AbstractStateProvider.cpp:52-62 | the callback stored under the trace id and then the event id; a missing trace or event entry reads as no callback |
| StateProvider.EventMatchesSnoc | src/common/stateprov/AbstractStateProvider.cpp:105-106 | an event map with one more entry selects the old ids plus that entry's id when its name matches |
| StateProvider.PairMatchesSnoc | src/common/stateprov/AbstractStateProvider.cpp:100-106 | a trace list with one more trace selects the old pairs plus those of the new trace |
| StateProvider.RegisterInTraceLookup | src/common/stateprov/AbstractStateProvider.cpp:105-116 | within one trace a pair gets the callback exactly when it was empty and the event pattern selects it |
| StateProvider.RegisterInTraceFlag | src/common/stateprov/AbstractStateProvider.cpp:105-116 | within one trace the latch is set exactly when a selected pair was empty |
| StateProvider.RegisterLookup | src/common/stateprov/AbstractStateProvider.cpp:100-118 | after registration a pair holds the callback exactly when it was empty and both patterns select it; nothing set before is overridden |
| StateProvider.RegisterFlag | src/common/stateprov/AbstractStateProvider.cpp:98-120 | registration answers true exactly when some pair selected by the patterns had no callback |
| StateProvider.RegisterWhenAllClaimed | src/common/stateprov/AbstractStateProvider.cpp:111-114 | when every selected pair already has a callback, the map is unchanged and the answer is false |
| StateProvider.RegisterInTraceWhenAllClaimed | src/common/stateprov/AbstractStateProvider.cpp:105-116 | the same within one trace |
| StateProvider.WildcardFirstStarvesLaterRegistrations | src/common/stateprov/AbstractStateProvider.hpp:97-102 | after ("", "") registers a callback, any later registration claims nothing and answers false |
| StateProvider.SpecificThenWildcard | src/common/stateprov/AbstractStateProvider.hpp:91-102 | a specific registration followed by ("", ""): the specific pairs keep their callback and every other known pair gets the wildcard |
| StateProvider.AbstractStateProvider.constructor | src/common/stateprov/AbstractStateProvider.cpp:25-27 | no route, no trace set, no hook run |
| StateProvider.RegisterAllFirstWins | src/common/stateprov/AbstractStateProvider.cpp:100-118 | after a sequence of registrations from an empty map, a pair is routed exactly when some registration with a callback selects it, and then to the first such registration's callback |
| StateProvider.AbstractStateProvider.OnInit | src/common/stateprov/AbstractStateProvider.cpp:33-43 | records the trace set, empties the routing map, then runs the init hook, whose registrations leave the map RegisterAll gives (see RegisterAllFirstWins) |
| StateProvider.AbstractStateProvider.OnEvent | src/common/stateprov/AbstractStateProvider.cpp:45-71 | the registered callback's answer, or true when the pair has none; the map is only read |
| StateProvider.AbstractStateProvider.OnFini | src/common/stateprov/AbstractStateProvider.cpp:73-79 | runs the fini hook, then empties the routing map |
| StateProvider.AbstractStateProvider.ClaimSlot | src/common/stateprov/AbstractStateProvider.cpp:111-114 | the map and answer are those of Claim, empty entries inserted by operator[] included |
| StateProvider.AbstractStateProvider.RegisterEventCallback | src/common/stateprov/AbstractStateProvider.cpp:92-121 | the nested loops leave the map and latch that Register specifies (see RegisterLookup and RegisterFlag) |
| EventValuePools.GrownCapacity | src/common/trace/EventValuePool.hpp:115-119 | after n gets the list holds at least n + 1 slots and never fewer than at the reset |
| EventValuePools.GrownCapacityIsDoubling | src/common/trace/EventValuePool.hpp:117-119 | the list size is always the size at the reset times a power of two |
| EventValuePools.Doublings | src/common/trace/EventValuePool.hpp:117-119 | the exponent of that power of two |
| EventValuePools.DoubleScaled | src/common/trace/EventValuePool.hpp:118 | one more doubling doubles the scaled size |
| EventValuePools.GrownCapacityIsTight | src/common/trace/EventValuePool.hpp:117-119 | the list is doubled only when needed: unless still at its reset size, it is less than twice the slots in use |
| EventValuePools.GrownCapacityMonotone | src/common/trace/EventValuePool.hpp:115-121 | the list never shrinks while slots are handed out |
| EventValuePools.FirstSlots | src/common/trace/EventValuePool.hpp:113-121 | the slots handed out since a reset are 0, 1, ..., n-1 |
| EventValuePools.PoolOperationsKeepInvariant | src/common/trace/EventValuePool.hpp:110-131 | get and reset keep size >= 1, the cursor on the last slot in use and size <= capacity; get hands out a slot within the list |
| EventValuePools.EventValuePool.ValidHasInvariant | src/common/trace/EventValuePool.hpp:110-131 | a valid pool satisfies the pool invariant |
| EventValuePools.EventValuePool.constructor | src/common/trace/EventValuePool.hpp:98-108 | capacity 0 is raised to 1; size 1, cursor on the first slot, nothing handed out |
| EventValuePools.EventValuePool.Get | src/common/trace/EventValuePool.hpp:110-124 | returns the cursor's slot, new and within the list; size and cursor advance by one; capacity doubles exactly when size exceeds it |
| EventValuePools.EventValuePool.Reset | src/common/trace/EventValuePool.hpp:126-131 | size 1, cursor on the first slot, capacity unchanged |
| EventValuePools.HandedOutDistinct | src/common/trace/EventValuePool.hpp:110-124 | the slots handed out between two resets are pairwise distinct |
| OrderedMaps.StringLessIrreflexive | src/common/trace/DictEventValue.cpp:93-105 | std::string order is irreflexive |
| OrderedMaps.StringLessTransitive | src/common/trace/DictEventValue.cpp:93-105 | std::string order is transitive |
| OrderedMaps.StringLessTotal | src/common/trace/DictEventValue.cpp:93-105 | std::string order is total on distinct strings |
| OrderedMaps.StringLessAsymmetric | src/common/trace/DictEventValue.cpp:93-105 | std::string order is asymmetric |
| OrderedMaps.Insert | src/common/trace/DictEventValue.cpp:101 | std::map::insert adds at most one entry |
| OrderedMaps.InsertSpec | src/common/trace/DictEventValue.cpp:101 | insert keeps the map sorted, adds the key, leaves an existing key's entry alone and adds no other entry |
| OrderedMaps.InsertSorted | src/common/trace/DictEventValue.cpp:101 | insert keeps the keys in increasing order |
| OrderedMaps.InsertExisting | src/common/trace/DictEventValue.cpp:101 | inserting a key already present leaves the map unchanged |
| OrderedMaps.InsertKeys | src/common/trace/DictEventValue.cpp:101 | insert adds exactly the key to the key set |
| OrderedMaps.InsertEntries | src/common/trace/DictEventValue.cpp:101 | insert loses no entry and adds only the new one, when its key is new |
| OrderedMaps.KeysCons | src/common/trace/DictEventValue.cpp:101 | the keys of an entry followed by a map |
| OrderedMaps.InsertBeforeSorted | src/common/trace/DictEventValue.cpp:101 | a key below the first one goes in front and the map stays sorted |
| OrderedMaps.HeadBelowAll | src/common/trace/DictEventValue.cpp:101 | a head below the inserted key stays in front |
| OrderedMaps.FromEntries | src/common/trace/DictEventValue.cpp:97-102 | the map built by inserting the entries in order is sorted |
| OrderedMaps.FromEntriesKeys | src/common/trace/DictEventValue.cpp:97-102 | its keys are the keys of the entries |
| OrderedMaps.FromEntriesFromInput | src/common/trace/DictEventValue.cpp:97-102 | each of its entries is one of the input |
| OrderedMaps.NewKeyAbsent | src/common/trace/DictEventValue.cpp:97-102 | the first occurrence of a key finds it absent from the map built so far |
| OrderedMaps.FromEntriesFirstWins | src/common/trace/DictEventValue.cpp:97-102 | for each key the map keeps the value of its first occurrence |
| EventValues.BuilderTable | src/common/trace/EventValueFactory.cpp:101-113 | the table has 32 slots |
| EventValues.BuilderTableOverrides | src/common/trace/EventValueFactory.cpp:101-113 | exactly the eight supported type ids have a builder other than Unknown; array and sequence share one |
| EventValues.ChildrenSizeCovers | src/common/trace/DictEventValue.cpp:86-91 | each child is counted in the size of its parent's children |
| EventValues.ChildSmaller | src/common/trace/DictEventValue.cpp:86-91 | a child definition is smaller than its parent |
| EventValues.CachedSize | src/common/trace/DictEventValue.cpp:46-57 | the cached size is the field count when the field list is retrieved with 0, else 0 |
| EventValues.MakeDict | src/common/trace/DictEventValue.cpp:33-57 | a dict with tag DICT, its definition, its field list, and size as the field-list call allows |
| EventValues.MakeArray | src/common/trace/ArrayEventValue.cpp:33-56 | an array with tag ARRAY, its definition, its field list, and size as the field-list call allows |
| EventValues.Build | src/common/trace/EventValueFactory.cpp:60-124 | integer -> sint iff signedness 1 else uint; float, enum and string -> their kind; struct -> dict; array and sequence -> array; variant -> its active member, or Unknown without one; other ids -> Unknown |
| EventValues.BuildSeesThroughVariants | src/common/trace/EventValueFactory.cpp:90-95 | a built value is never a variant; dicts and arrays are as their constructor builds them |
| EventValues.AsSint | src/common/trace/AbstractEventValue.cpp:38-43 | requires tag SINT; the same value |
| EventValues.AsUint | src/common/trace/AbstractEventValue.cpp:45-50 | requires tag UINT; the same value |
| EventValues.AsFloat | src/common/trace/AbstractEventValue.cpp:52-57 | requires tag FLOAT; the same value |
| EventValues.AsEnum | src/common/trace/AbstractEventValue.cpp:59-64 | requires tag ENUM; the same value |
| EventValues.AsString | src/common/trace/AbstractEventValue.cpp:66-71 | requires tag STRING; the same value |
| EventValues.AsArray | src/common/trace/AbstractEventValue.cpp:73-78 | requires tag ARRAY; the same value |
| EventValues.AsDict | src/common/trace/AbstractEventValue.cpp:80-85 | requires tag DICT; the same value |
| EventValues.GetKeyName | src/common/trace/DictEventValue.cpp:64-73 | null without a field list, else the name of the index-th field |
| EventValues.GetKeyNameStr | src/common/trace/DictEventValue.cpp:75-84 | the key name, or "" when it is null |
| EventValues.GetString | src/common/trace/ArrayEventValue.cpp:89-97 | null for a CTF sequence, else the char array |
| EventValues.IsString | src/common/trace/ArrayEventValue.cpp:82-87 | true exactly when the declared encoding is UTF-8 or ASCII |
| EventValues.BuildRenderable | src/common/trace/EventValueFactory.cpp:116-125 | what is built from a renderable definition is renderable |
| EventValues.ChildrenRenderable | src/common/trace/DictEventValue.cpp:86-91 | the children of a renderable dict or array build to renderable, smaller values |
| EventValues.ArrayItems | src/common/trace/ArrayEventValue.cpp:71-80 | exactly size items, the i-th built from the i-th field definition |
| EventValues.DictEntries | src/common/trace/DictEventValue.cpp:97-102 | exactly size entries, the i-th pairing the i-th key name with the i-th built field |
| EventValues.DictMap | src/common/trace/DictEventValue.cpp:93-105 | the map is sorted by key, and each value in it is a renderable value smaller than the dict |
| EventValues.EntryTexts | src/common/trace/DictEventValue.cpp:122-142 | one text per map entry |
| EventValues.ItemTexts | src/common/trace/ArrayEventValue.cpp:123-133 | one text per item |
| EventValues.ValueText | src/common/trace/AbstractEventValue.hpp:54-62 | the text of a dict is braced by "{" and "}", of an array by "[" and "]" or by quotes, and an Unknown value prints the text given for it |
| EventValues.DictText | src/common/trace/DictEventValue.cpp:107-146 | braced by "{" and "}", and exactly "{}" when the dict has no field |
| EventValues.ArrayText | src/common/trace/ArrayEventValue.cpp:99-137 | "[]" when empty; otherwise bracketed, or quoted only for a string array that has a char array |
| EventValueFactories.EventValueFactory.constructor | src/common/trace/EventValueFactory.cpp:40-51 | pools of capacities 128, 32, 64, 64, 128, 64, 128 and 1, then the builder table |
| EventValueFactories.EventValueFactory.InitTypes | src/common/trace/EventValueFactory.cpp:57-114 | the table becomes Unknown everywhere except the eight supported type ids |
| EventValueFactories.EventValueFactory.Place | src/common/trace/EventValueFactory.cpp:62-98 | one get on the pool of the given kind and no change to the others |
| EventValueFactories.EventValueFactory.BuildEventValue | src/common/trace/EventValueFactory.cpp:116-125 | the value Build specifies, taking exactly one slot, in this factory's pool of its kind |
| EventValueFactories.EventValueFactory.ResetPools | src/common/trace/EventValueFactory.cpp:127-137 | every one of the eight pools is reset |
| EventValueFactories.EventValueFactory.Item | src/common/trace/DictEventValue.cpp:86-91 | builds the index-th child definition, taking one slot (also ArrayEventValue.cpp:63-69) |
| EventValueFactories.EventValueFactory.GetVector | src/common/trace/ArrayEventValue.cpp:71-80 | the loop yields exactly the items ArrayItems specifies, building one value (one pool slot) per item |
| EventValueFactories.EventValueFactory.GetMap | src/common/trace/DictEventValue.cpp:93-105 | the loop yields the map of the entries inserted in index order, first value per key, building one value (one pool slot) per entry |
| EventValueFactories.EventValueFactory.ToString | src/common/trace/DictEventValue.cpp:107-146 | the text of any value: dict, array, Unknown or scalar |
| EventValueFactories.EventValueFactory.DictToString | src/common/trace/DictEventValue.cpp:107-146 | "{}" when empty, else "{", the entries of getMap in key order as "key": value joined by ", ", and "}" |
| EventValueFactories.EventValueFactory.JoinEntries | src/common/trace/DictEventValue.cpp:119-142 | every entry but the last followed by ", ", then the last |
| EventValueFactories.EventValueFactory.ArrayToString | src/common/trace/ArrayEventValue.cpp:99-137 | "[]" when empty, the quoted string of a string array that has one, else "[", the items joined by ", ", and "]" |
| EventValueFactories.EventValueFactory.JoinItems | src/common/trace/ArrayEventValue.cpp:119-135 | every item but the last followed by ", ", then the last |
| EventValueFactories.InitTypesAsWritten | src/common/trace/EventValueFactory.cpp:60-99 | the static builders are bound on the first call only, and then stay bound to that factory |
| EventValueFactories.BuildAsWritten | src/common/trace/EventValueFactory.cpp:60-125 | as written, building through any factory takes one slot in the pool of the factory the static lambdas captured, and leaves every other factory's pool alone |
| EventValueFactories.SecondFactoryBuildsIntoFirst | src/common/trace/EventValueFactory.cpp:60-113 | as written, a second factory builds into the first factory's pool, and its own pools are untouched |
| EventIds.Truncate32 | src/common/trace/TraceUtils.hpp:36 | a cast to 32 bits keeps the low 32 bits |
| EventIds.Truncate32Injective | src/common/trace/Event.cpp:163-164 | the cast is injective on values that fit 32 bits |
| EventIds.PackEventId32 | src/common/trace/Event.cpp:162-165 | the low 20 bits of the id are the low 20 bits of the event id; bits 20 and above are the low 12 bits of the stream id |
| EventIds.PackHighBitsFromStream | src/common/trace/Event.cpp:165 | bits 20 and above do not depend on the event id; its high bits are discarded |
| EventIds.PackRoundTrip | src/common/trace/TraceUtils.hpp:33-37 | with event id < 2^20 and stream id < 2^12, both are recovered from the packed id |
| EventIds.PackInjective | src/common/trace/TraceUtils.hpp:33-37 | hence the packing is injective on that range |
| EventIds.EventIdFromCtfAgreesWithEvent | src/common/trace/TraceUtils.hpp:33-37 | packing in 64 bits then casting gives the id Event computes in 32 bits (Event.cpp:163-165) |
| EventIds.EventIdFromCtf | src/common/trace/TraceUtils.hpp:33-37 | the low 20 bits of the id are those of the event id and the bits above are the low 12 bits of the stream id, both cast to 32 bits |
| Events.EventIdOf | src/common/trace/Event.cpp:161-165 | the id is the 32-bit packing of the truncated stream and event ids |
| Events.EventIdOfInjective | src/common/trace/Event.cpp:157-165 | events with ids in range (2^12 streams, 2^20 events) have equal ids only if both ids agree |
| Events.SmallIdsFit | src/common/trace/Event.cpp:163-164 | ids in that range stay in it when cast to 32 bits |
| Events.TopLevelScope | src/common/trace/Event.cpp:55-69 | a dict exactly when the event has the scope and it is a struct, else null |
| Events.FirstNamedFromIsFirst | src/common/trace/Event.cpp:115-119 | the search finds the first field with the name, or nothing when no field has it |
| Events.FieldNamed | src/common/trace/Event.cpp:107-122 | null without fields; with fields, null exactly when no field has the name |
| Events.Event.constructor | src/common/trace/Event.cpp:30-33 | keeps the factory; no event and no cached scope |
| Events.Event.SetPrivateEvent | src/common/trace/Event.cpp:140-172 | the new event, the four caches cleared, the packed id and the trace handle id |
| Events.Event.GetTopLevelScope | src/common/trace/Event.cpp:55-69 | the scope as TopLevelScope gives it; building it takes one dict slot, and nothing is taken for null |
| Events.Event.GetFields | src/common/trace/Event.cpp:71-78 | the fields scope, built on the first call only and cached until the next event |
| Events.Event.GetContext | src/common/trace/Event.cpp:80-87 | the event context scope, built once and cached |
| Events.Event.GetStreamEventContext | src/common/trace/Event.cpp:89-96 | the stream event context scope, built once and cached |
| Events.Event.GetStreamPacketContext | src/common/trace/Event.cpp:98-105 | the stream packet context scope, built once and cached |
| Events.Event.FieldByName | src/common/trace/Event.cpp:107-122 | null without fields, else the value of the first field with the name, or null when none has it |
| Events.Event.FindField | src/common/trace/Event.cpp:115-119 | the first index whose key name equals the name, or none exactly when no key has it |
| Events.Event.FieldAt | src/common/trace/Event.cpp:129-138 | null without fields, else the index-th field built |
| Babeltrace.BtIterator.constructor | src/common/trace/TraceSet.cpp:30-51 | the stream of the added traces, positioned at its start |
| Babeltrace.BtIterator.ReadEvent | src/common/trace/TraceSetIterator.cpp:39 | the event at the position, null past the end |
| Babeltrace.BtIterator.Next | src/common/trace/TraceSetIterator.cpp:81-89 | an error exactly at a failing position, which does not move; otherwise one step on, none past the end |
| Babeltrace.BtIterator.SeekBegin | src/common/trace/TraceSet.cpp:59-66 | the position becomes the start |
| Babeltrace.BtIterator.SeekLast | src/common/trace/TraceSet.cpp:133-137 | the position becomes the last event |
| Babeltrace.BtIterator.SetPos | src/common/trace/TraceSet.cpp:117-118 | the saved position is restored |
| Babeltrace.WalkEnd | src/common/trace/TraceSetIterator.cpp:79-104 | a walk from a position ends after it and no later than the end of the stream |
| Babeltrace.Playlist | src/tibeebuild/TraceDeck.cpp:49 | the events a range-for sees are a prefix of the stream |
| Babeltrace.WalkEndExtent | src/common/trace/TraceSetIterator.cpp:79-104 | with no failing advance ahead, the walk reaches the end of the stream |
| Babeltrace.WalkEndAtFirstFailure | src/common/trace/TraceSetIterator.cpp:81-86 | the walk ends right after the first failing advance |
| Babeltrace.WalkEndBeforeFailure | src/common/trace/TraceSetIterator.cpp:81-86 | the walk never goes past a failing advance |
| Babeltrace.PlaylistExtent | src/tibeebuild/TraceDeck.cpp:49 | playback yields the first event; all events without failing advances; up to the first failing position otherwise |
| TraceSets.AddTraceOutcomeSpec | src/common/trace/TraceSet.cpp:68-89 | a path is added exactly when it is new and Babeltrace accepts it; the set then grows by that path alone, else stays as it was |
| TraceSets.AddTraceOutcome | src/common/trace/TraceSet.cpp:68-89 | the set only grows, by the path at most, and a path is reported added only when it was new and Babeltrace accepted it |
| TraceSets.AddTraceTwiceRefused | src/common/trace/TraceSet.cpp:70-73 | adding a path a second time is refused and changes nothing |
| TraceSets.TimestampAt | src/common/trace/TraceSet.cpp:93-120 | -1 (all ones) with no trace or no event, else the event's timestamp |
| TraceSets.BeginNotAfterEnd | src/common/trace/TraceSet.cpp:91-156 | on a timestamp-ordered stream, begin and end bound every event's timestamp; the sentinel is 2^64 - 1 |
| TraceSets.TraceSet.constructor | src/common/trace/TraceSet.cpp:30-51 | no path, the given shared iterator |
| TraceSets.TraceSet.AddTrace | src/common/trace/TraceSet.cpp:68-89 | the path set and answer AddTraceOutcome gives |
| TraceSets.TraceSet.GetBegin | src/common/trace/TraceSet.cpp:91-121 | the first event's timestamp or -1, with the shared position restored |
| TraceSets.TraceSet.GetEnd | src/common/trace/TraceSet.cpp:123-156 | the last event's timestamp or -1, with the shared position restored |
| TraceSets.TraceSet.Begin | src/common/trace/TraceSet.cpp:159-166 | the shared position goes back to the start, and an iterator on the first event (end when there is none) |
| TraceSets.TraceSet.End | src/common/trace/TraceSet.cpp:169-173 | the iterator built from null |
| TraceSetIterators.TraceSetIterator.constructor | src/common/trace/TraceSetIterator.cpp:28-54 | from null: end; otherwise reads the event, becomes end without one, and points a new wrapper at the event |
| TraceSetIterators.TraceSetIterator.Copy | src/common/trace/TraceSetIterator.cpp:56-60 | the copy shares the original's Babeltrace iterator |
| TraceSetIterators.TraceSetIterator.Assign | src/common/trace/TraceSetIterator.cpp:67-77 | only the Babeltrace iterator is copied |
| TraceSetIterators.TraceSetIterator.Next | src/common/trace/TraceSetIterator.cpp:79-104 | a failed advance makes it end and resets nothing; otherwise it reads the next event, becomes end without one, resets every pool and points the wrapper at the event |
| TraceSetIterators.TraceSetIterator.Equals | src/common/trace/TraceSetIterator.cpp:106-109 | equal exactly when on the same Babeltrace iterator, so all end iterators are equal |
| TraceSetIterators.TraceSetIterator.NotEquals | src/common/trace/TraceSetIterator.cpp:111-114 | the negation of equality |
| TraceSetIterators.TraceSetIterator.Current | src/common/trace/TraceSetIterator.cpp:116-123 | the wrapper |
| TraceSetIterators.AdvanceArgumentAsWritten | src/common/trace/TraceSetIterator.cpp:79-104 | as written, operator++ returns before setPrivateEvent exactly when bt_iter_next fails; otherwise it passes what the read answers, which is null exactly when the advance left the last event |
| TraceSetIterators.NullEventReachesWrapper | src/common/trace/TraceSetIterator.cpp:39-101 | as written, the constructor over a trace set with no event reads null and passes it on, and operator++ from the last event (advance succeeding) passes null to setPrivateEvent |
| TraceDecks.ToAll | src/tibeebuild/TraceDeck.cpp:44-46 | one notification per listener, in list order |
| TraceDecks.DeliveredCount | src/tibeebuild/TraceDeck.cpp:49-58 | no more events are delivered than the playback has |
| TraceDecks.DeliveriesAppend | src/tibeebuild/TraceDeck.cpp:49-58 | delivering a then b is delivering a + b |
| TraceDecks.DeliveriesStep | src/tibeebuild/TraceDeck.cpp:55-57 | one more event is delivered to every listener |
| TraceDecks.DeliveriesLength | src/tibeebuild/TraceDeck.cpp:49-58 | n listeners receive n calls per event |
| TraceDecks.DeliveriesOnlyEvents | src/tibeebuild/TraceDeck.cpp:55-57 | each delivery is one of the events handed to one of the listeners |
| TraceDecks.DeliveriesInOrder | src/tibeebuild/TraceDeck.cpp:49-58 | event j reaches listener i before event j + 1 reaches anybody |
| TraceDecks.StopOnlyWhenComplete | src/tibeebuild/TraceDeck.cpp:50-63 | a stopped playback never calls onStop; a complete one calls it on every listener, last of all |
| TraceDecks.NoStopDeliversAll | src/tibeebuild/TraceDeck.cpp:37-69 | with no stop, start to all, every event to all, stop to all, and true |
| TraceDecks.StopTakesEffectAtNextCheck | src/tibeebuild/TraceDeck.cpp:50-52 | a stop during start delivers nothing; a stop during event j still lets the other listeners have event j and ends the playback before event j + 1 |
| TraceDecks.StoppedAt | src/tibeebuild/TraceDeck.cpp:50-52 | a flag found cleared before event k leaves k events delivered and the playback incomplete |
| TraceDecks.RanToEnd | src/tibeebuild/TraceDeck.cpp:49-58 | a flag never found cleared completes the playback |
| TraceDecks.PlayCallsAfter | src/tibeebuild/TraceDeck.cpp:37-69 | the notifications of play, in the order play makes them |
| TraceDecks.TraceDeck.constructor | src/tibeebuild/TraceDeck.cpp:32-35 | not playing |
| TraceDecks.TraceDeck.Stop | src/tibeebuild/TraceDeck.cpp:71-74 | only clears the flag |
| TraceDecks.TraceDeck.NotifyAll | src/tibeebuild/TraceDeck.cpp:44-46 | the same notification to every listener, in order |
| TraceDecks.TraceDeck.DeliverAndAdvance | src/tibeebuild/TraceDeck.cpp:49-58 | the current event to every listener, then ++ on the iterator |
| TraceDecks.TraceDeck.PlayEvents | src/tibeebuild/TraceDeck.cpp:49-58 | the range-for over begin() and end() delivers the events before the first cleared flag, and answers whether it reached the end |
| TraceDecks.TraceDeck.PlayRange | src/tibeebuild/TraceDeck.cpp:49-58 | the loop delivers each walked event to every listener until the flag is found cleared |
| TraceDecks.TraceDeck.Play | src/tibeebuild/TraceDeck.cpp:37-69 | the calls are exactly PlayCalls; the answer says whether the playback completed; not playing afterwards |
| Paths.LastIndexOf | src/tibeebuild/StateHistoryBuilder.cpp:45 | the last occurrence of a character, or none exactly when absent |
| Paths.LastComponent | src/tibeebuild/StateHistoryBuilder.cpp:45 | the file name contains no separator |
| Paths.Extension | src/tibeebuild/StateHistoryBuilder.cpp:45 | a non-empty extension starts with a dot, holds no separator, and comes from a file name that has a dot |
| Paths.ExtensionShape | src/tibeebuild/StateHistoryBuilder.cpp:45 | an extension is empty, or a dot followed by no dot or separator, ending the path |
| Paths.LastComponentEndsPath | src/tibeebuild/StateHistoryBuilder.cpp:45 | the file name ends the path |
| Paths.ExtensionOfName | src/tibeebuild/StateHistoryBuilder.cpp:45 | dir/stem.suffix has the extension ".suffix" |
| Paths.LastComponentAfterSeparator | src/tibeebuild/StateHistoryBuilder.cpp:45 | a name after a separator is the file name |
| Paths.LastDotOfName | src/tibeebuild/StateHistoryBuilder.cpp:45 | the last dot of stem.suffix is the one before the suffix |
| Paths.LastIndexOfAppend | src/tibeebuild/StateHistoryBuilder.cpp:45 | the last occurrence in a + b is in b if b has one, else in a |
| Paths.Join | src/tibeebuild/StateHistoryBuilder.cpp:77-79 | the directory followed by the name, with exactly one separator between them unless the directory is empty |
| Paths.SinkFilesDistinct | src/tibeebuild/StateHistoryBuilder.cpp:77-79 | the three sink files in one directory are distinct |
| Paths.LastComponentOfJoin | src/tibeebuild/StateHistoryBuilder.cpp:77-79 | the name joined to a directory is the file name of the result |
| ProviderTypes.KindOfDottedSuffix | src/tibeebuild/StateHistoryBuilder.cpp:49-59 | .so, .dll and .dylib name a dynamic-library provider, .py a Python one, any other suffix none |
| ProviderTypes.KindOfExtension | src/tibeebuild/StateHistoryBuilder.cpp:49-59 | .so, .dll and .dylib, and only they, name a dynamic-library provider; .py, and only it, a Python one |
| ProviderTypes.Classify | src/tibeebuild/StateHistoryBuilder.cpp:45-59 | a classified path has one of the four known extensions, and its file name has a dot |
| ProviderTypes.ClassifyBySuffix | src/tibeebuild/StateHistoryBuilder.cpp:45-59 | a provider file is classified by its suffix in that way, whatever its directory and stem |
| ProviderTypes.KindsByAllKnown | src/tibeebuild/StateHistoryBuilder.cpp:43-62 | all paths classified: their kinds in order; otherwise an unknown type |
| ProviderTypes.KindsByFirstUnknown | src/tibeebuild/StateHistoryBuilder.cpp:57-59 | an unknown type names the first path without a kind |
| ProviderTypes.ProviderKindsSpec | src/tibeebuild/StateHistoryBuilder.cpp:43-62 | the builder's kinds are those of all paths in order, or the first unknown path is thrown |
| ProviderTypes.KindsByStep | src/tibeebuild/StateHistoryBuilder.cpp:43-61 | one more path appends its kind or stops the list there |
| ProviderTypes.UnknownStaysUnknown | src/tibeebuild/StateHistoryBuilder.cpp:57-59 | once a path has no kind, later paths are not looked at |
| StateHistoryBuilders.StateHistoryBuilder.constructor | src/tibeebuild/StateHistoryBuilder.cpp:36-40 | the directory, paths and providers given; no sink yet |
| StateHistoryBuilders.NewStateHistoryBuilder | src/tibeebuild/StateHistoryBuilder.cpp:36-63 | throws exactly when some path has an unknown extension, naming the first; otherwise one new provider per path, of its kind, in order |
| StateHistoryBuilders.CreateProviders | src/tibeebuild/StateHistoryBuilder.cpp:43-62 | the loop yields KindsBy's outcome and distinct new providers, one per path |
| StateHistoryBuilders.StateHistoryBuilder.OnStartImpl | src/tibeebuild/StateHistoryBuilder.cpp:70-89 | a new sink on paths-quarks.db, values-quarks.db and history in the cache directory, then every provider initialised in order, each routing map being the fold of that provider's registrations; true |
| StateHistoryBuilders.StateHistoryBuilder.InitProviders | src/tibeebuild/StateHistoryBuilder.cpp:84-86 | onInit on each provider in order, with the trace set; each provider's routing map is the fold of its own registrations and its init hook is logged once |
| StateHistoryBuilders.StateHistoryBuilder.OnEventImpl | src/tibeebuild/StateHistoryBuilder.cpp:91-97 | the event to every provider in order; their answers are ignored |
| StateHistoryBuilders.StateHistoryBuilder.OnStopImpl | src/tibeebuild/StateHistoryBuilder.cpp:99-109 | onFini on each provider in order; true |

## Left out

- Babeltrace itself is not part of this model. This covers the context, `bt_ctf_iter`, field-list retrieval, declarations and the mirrored structures of `babeltrace-internals.h`. The event stream, the failing advances and each field definition's answers are inputs instead.
- Failures when the trace set creates its Babeltrace context or iterator are left out. So is a null `bt_ctf_get_iter`.
- The delorean `HistoryFileSink`, the interval classes and `writeStringDb` are external file I/O. The calls made to them are a ghost log, and the string-table file format is not modelled.
- The interval-closing behaviour the sink's doc comments promise (`StateHistorySink.hpp:91-98`) is not modelled, because the code has none: `setState`/`removeState` are empty and nothing ever creates an open entry.
- Dynamic-library and Python provider loading are left out. Providers are `AbstractStateProvider`s tagged with their kind, and their callbacks are numbers whose answers come from `run`.
- The registrations a derived provider makes from its `onInitImpl` (for a dynamic-library provider, through `_dlOnInit` and the config's registration callback) are an input of `OnInit`, one sequence per provider. The code that chooses them is loaded at run time and is not part of this model.
- The provider's `const TraceSet*` (AbstractStateProvider.cpp:36-42, 96) is modelled as the `seq<TraceInfos>` it is asked for, standing for `getTracesInfos()`, which the TraceSet.hpp of this model does not declare.
- The `CurrentState&` passed to provider hooks and callbacks is not modelled.
- The bodies of playback listeners other than the builder are left out. A listener's calls to `stop()` are placed by a `StopRequest`: during the start, or during one event.
- Cross-thread `stop()` is left out; the flag is single-threaded state.
- Path handling uses '/' as the only separator. Windows separators and root names are not modelled.
- Floating-point values are carried as opaque 32 raw bits, and the text a scalar event value prints is an input.
- Event getters not used on the write path (`getName`, `getTimestamp`, `getCycles`) are left out. So are console logging and destructors.
- EventValueFactories.EventValueFactory.ToString: states the text but not how many pool slots the rendering takes; GetVector and GetMap state theirs (one per child), and the total over nested values is not stated.
- EventValues.ValueText: the "null" printed for a null child is not modelled, because no builder returns null.
- Events.Event.FieldByName: requires every field of the scope to have a name. The source passes the name to `strcmp`, which is undefined on null.
- EventValueFactories.EventValueFactory.ToString: requires every field below a dict to have a name. `getMap` turns each name into a `std::string`, which is undefined on null.
- StateHistory.CurrentState.IncState: requires the int64 sum not to overflow for the int32, uint32 and int64 kinds. In C++ that overflow is undefined.
- StateHistory.CurrentState.IncState: the default argument `value = 1` (CurrentState.hpp:181) is not modelled; callers pass delta 1 explicitly.
- StateHistory.CurrentState.DecState: the default argument `value = 1` (CurrentState.hpp:193) is not modelled either.
- StateHistory.CurrentState.DecState: additionally requires delta != -2^63, because negating it overflows.
- StateHistoryBuilders.StateHistoryBuilder.OnEventImpl: requires a sink when there is a provider, because the source dereferences it.
- StateHistoryBuilders.StateHistoryBuilder.constructor: takes the providers already made; `NewStateHistoryBuilder` is the source's constructor, including its throw.
- TraceSetIterators.TraceSetIterator.Next: requires a wrapper when not at the end. `operator++` on a copy dereferences a null `_event`.
- StateHistory.StateHistorySink.constructor: does not call `initTranslators`, as written. Until it is called, `WriteInterval` on an entry reports the `std::bad_function_call` it would throw.

## Findings

| source | as written | input that shows it | evidently intended | confidence | as-written member | corrected member |
|---|---|---|---|---|---|---|
| src/common/trace/EventValueFactory.cpp:60-113 | the builder lambdas are function-local `static`s capturing `this`. They are initialised on the first `initTypes` call of the process, so every later factory's table holds lambdas bound to the first factory | two playbacks one after the other, or two `begin()` iterators (the `end()` iterator never builds a value): the second factory builds into the first factory's pools, and its own `resetPools` does not rewind them. Once the first iterator is destroyed, the captured `this` dangles and every build is undefined behaviour | each factory builds into its own pools | not executed | EventValueFactories.SecondFactoryBuildsIntoFirst | EventValueFactories.EventValueFactory.BuildEventValue |
| src/common/trace/TraceSetIterator.cpp:39-53, 89-101 with src/common/trace/Event.cpp:161-164 | the constructor and `operator++` call `setPrivateEvent(_btEvent)` even when the read yields no event. `setPrivateEvent` then dereferences the null event | a trace set with no event (`begin()`), or `++` from the last event when advancing succeeds | the wrapper is re-pointed only when an event was read | not executed | TraceSetIterators.NullEventReachesWrapper | TraceSetIterators.TraceSetIterator.Next |
