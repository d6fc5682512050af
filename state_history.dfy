/** The state history sink (StateHistorySink) and the current-state façade
    (CurrentState) through which state providers use it.

    The sink is modelled as its code is written: setState and removeState
    have empty bodies, open() does not mark the sink as opened, and the
    constructor does not fill the translator table. The calls the sink
    makes into its interval file and its string-database writer, and the
    setState/removeState requests it receives, are kept in ghost logs. */
module StateHistory {
  import opened Basics
  import opened StateValues

  type Quark = u32
  type Timestamp = u64

  /** A string database: interned string -> quark. */
  type StringDb = map<string, Quark>

  /** An open state value with the timestamp at which it began. */
  datatype StateValueEntry = StateValueEntry(beginTs: Timestamp, value: StateValue)

  /** An interval handed to the interval file: its kind, its span
      [beginTs, endTs), the path quark it is keyed by, and its value. */
  datatype Interval = Interval(kind: StateValueType, beginTs: Timestamp, endTs: Timestamp,
                               key: Quark, value: StateValue)

  /** A slot of the translator table: an empty std::function (calling it
      throws), the translator that yields no interval, or the translator
      building an interval of one kind. */
  datatype Translator = EmptyFunction | NullTranslator | KindTranslator(kind: StateValueType)

  /** What the sink asks of the files it owns. */
  datatype FileOp =
    | OpenHistory(path: string)
    | AddInterval(interval: Interval)
    | CloseHistory
    | WriteStringDb(path: string, db: StringDb)

  /** A call received by setState or removeState. */
  datatype Request = SetStateRequest(pathQuark: Quark, value: StateValue) | RemoveStateRequest(pathQuark: Quark)

  /** Everything of a sink except its translator table and its ghost logs of requests. */
  datatype SinkView = SinkView(ts: Timestamp, isOpen: bool, pathsDb: StringDb, strValuesDb: StringDb,
                               curPathQuark: Quark, curStrValueQuark: Quark,
                               stateValues: map<Quark, StateValueEntry>, fileLog: seq<FileOp>)

  const TRANSLATOR_SLOTS: nat := 16

  /** Position of each state value type in the translator table. */
  function TypeIndex(t: StateValueType): nat
  {
    match t
    case INT32 => 0
    case UINT32 => 1
    case INT64 => 2
    case UINT64 => 3
    case FLOAT32 => 4
    case QUARK => 5
  }

  /** The state value type whose translator sits at slot i, if any. */
  function IndexedType(i: int): (r: Option<StateValueType>)
    ensures r.Some? ==> TypeIndex(r.value) == i
    ensures forall t :: TypeIndex(t) == i ==> r == Some(t)
  {
    match i
    case 0 => Some(INT32)
    case 1 => Some(UINT32)
    case 2 => Some(INT64)
    case 3 => Some(UINT64)
    case 4 => Some(FLOAT32)
    case 5 => Some(QUARK)
    case _ => None
  }

  /** The table initTranslators builds: the null translator everywhere,
      overridden for the six state value types. */
  function TranslatorTable(): (table: seq<Translator>)
    ensures |table| == TRANSLATOR_SLOTS
  {
    seq(TRANSLATOR_SLOTS, i => match IndexedType(i) case Some(t) => KindTranslator(t) case None => NullTranslator)
  }

  /** What calling one translator yields for an open entry at time ts;
      None stands for the null pointer. */
  function Translate(tr: Translator, pathQuark: Quark, entry: StateValueEntry, ts: Timestamp): Option<Interval>
    requires !tr.EmptyFunction?
  {
    match tr
    case NullTranslator => None
    case KindTranslator(k) => Some(Interval(k, entry.beginTs, ts, pathQuark, entry.value))
  }

  /** With the table built by initTranslators, every state value becomes
      an interval of its own kind spanning [beginTs, ts), keyed by the path
      quark and carrying the entry's value. */
  lemma TranslatorTableKeepsKind(pathQuark: Quark, entry: StateValueEntry, ts: Timestamp)
    ensures TypeIndex(entry.value.Type()) < TRANSLATOR_SLOTS
    ensures Translate(TranslatorTable()[TypeIndex(entry.value.Type())], pathQuark, entry, ts)
            == Some(Interval(entry.value.Type(), entry.beginTs, ts, pathQuark, entry.value))
  {
    var i := TypeIndex(entry.value.Type());
    assert IndexedType(i) == Some(entry.value.Type());
  }

  /** Only the six slots of a state value type hold a translator that
      produces an interval. */
  lemma TranslatorTableNullElsewhere(i: nat)
    requires i < TRANSLATOR_SLOTS
    requires forall t :: TypeIndex(t) != i
    ensures TranslatorTable()[i] == NullTranslator
  {
    assert IndexedType(i) == None;
  }

  /** Interning: the stored quark for a known string, otherwise the counter
      value, which the caller then increments. */
  function Intern(db: StringDb, counter: Quark, s: string): (r: (Quark, StringDb, Quark))
    ensures r.1.Keys == db.Keys + {s} && r.1[s] == r.0
    ensures forall t :: t in db ==> r.1[t] == db[t]
    ensures s in db ==> r.2 == counter
    ensures s !in db ==> r.0 == counter && (r.2 - (counter + 1)) % TWO_32 == 0
  {
    if s in db then (db[s], db, counter) else (counter, db[s := counter], ToU32(counter + 1))
  }

  /** No two strings of either table share a quark, and all quarks are
      below `bound`. */
  ghost predicate QuarksDistinct(a: StringDb, b: StringDb, bound: nat)
  {
    && (forall s :: s in a ==> a[s] < bound)
    && (forall s :: s in b ==> b[s] < bound)
    && (forall s, s' :: s in a && s' in a && s != s' ==> a[s] != a[s'])
    && (forall s, s' :: s in b && s' in b && s != s' ==> b[s] != b[s'])
    && (forall s, s' :: s in a && s' in b ==> a[s] != b[s'])
  }

  /** The shared counter is the number of quarks handed out, modulo 2^32;
      until it wraps, quarks of both tables are distinct. */
  ghost predicate QuarkCounterInvariant(a: StringDb, b: StringDb, issued: nat, counter: Quark)
  {
    counter == issued % TWO_32 && (issued <= TWO_32 ==> QuarksDistinct(a, b, issued))
  }

  /** The counter advanced by one, as a u32, follows the count. */
  lemma CounterStep(issued: nat, counter: Quark)
    requires counter == issued % TWO_32
    ensures ToU32(counter + 1) == (issued + 1) % TWO_32
  {
    if counter + 1 < TWO_32 {
      assert issued == (issued / TWO_32) * TWO_32 + counter;
    } else {
      assert issued + 1 == (issued / TWO_32 + 1) * TWO_32;
    }
  }

  /** Interning a path keeps the invariant: a new path gets a quark no
      string of either table has. */
  lemma InternPathKeepsInvariant(a: StringDb, b: StringDb, issued: nat, counter: Quark, s: string)
    requires QuarkCounterInvariant(a, b, issued, counter)
    ensures var (q, a', c) := Intern(a, counter, s);
            QuarkCounterInvariant(a', b, if s in a then issued else issued + 1, c)
  {
    if s !in a {
      CounterStep(issued, counter);
      if issued < TWO_32 {
        var (q, a', c) := Intern(a, counter, s);
        assert q == issued;
        assert forall x :: x in a' && x != s ==> a'[x] == a[x];
      }
    }
  }

  /** Interning a string value keeps the invariant: the value table takes
      its quarks from the same counter as the path table. */
  lemma InternValueKeepsInvariant(a: StringDb, b: StringDb, issued: nat, counter: Quark, s: string)
    requires QuarkCounterInvariant(a, b, issued, counter)
    ensures var (q, b', c) := Intern(b, counter, s);
            QuarkCounterInvariant(a, b', if s in b then issued else issued + 1, c)
  {
    if s !in b {
      CounterStep(issued, counter);
      if issued < TWO_32 {
        var (q, b', c) := Intern(b, counter, s);
        assert q == issued;
        assert forall x :: x in b' && x != s ==> b'[x] == b[x];
      }
    }
  }

  class StateHistorySink {
    const pathStrDbPath: string
    const valueStrDbPath: string
    const historyPath: string

    var ts: Timestamp
    var isOpen: bool
    var pathsDb: StringDb
    var strValuesDb: StringDb
    var curPathQuark: Quark
    var curStrValueQuark: Quark
    var stateValues: map<Quark, StateValueEntry>
    var translators: array<Translator>
    var currentState: CurrentState?

    /** Number of quarks handed out so far (curPathQuark is it modulo 2^32). */
    ghost var issued: nat
    /** Calls made into the interval file and the string-database writer. */
    ghost var fileLog: seq<FileOp>
    /** Calls received by setState and removeState. */
    ghost var requests: seq<Request>

    ghost predicate Valid()
      reads this, currentState
    {
      && translators.Length == TRANSLATOR_SLOTS
      && currentState != null && currentState.sink == this
      && QuarkCounterInvariant(pathsDb, strValuesDb, issued, curPathQuark)
      && curStrValueQuark == 0
    }

    ghost function View(): SinkView
      reads this
    {
      SinkView(ts, isOpen, pathsDb, strValuesDb, curPathQuark, curStrValueQuark, stateValues, fileLog)
    }

    /** The timestamp starts at 0, the sink is not opened, both quark
        counters are 0; the translator slots are left as empty functions. */
    constructor (pathStrDbPath: string, valueStrDbPath: string, historyPath: string)
      ensures Valid() && fresh(translators) && fresh(currentState)
      ensures this.pathStrDbPath == pathStrDbPath && this.valueStrDbPath == valueStrDbPath
      ensures this.historyPath == historyPath
      ensures View() == SinkView(0, false, map[], map[], 0, 0, map[], [])
      ensures translators[..] == seq(TRANSLATOR_SLOTS, _ => EmptyFunction)
      ensures requests == []
    {
      this.pathStrDbPath := pathStrDbPath;
      this.valueStrDbPath := valueStrDbPath;
      this.historyPath := historyPath;
      ts := 0;
      isOpen := false;
      pathsDb := map[];
      strValuesDb := map[];
      curPathQuark := 0;
      curStrValueQuark := 0;
      stateValues := map[];
      translators := new Translator[TRANSLATOR_SLOTS](_ => EmptyFunction);
      currentState := null;
      issued := 0;
      fileLog := [];
      requests := [];
      new;
      currentState := new CurrentState(this);
    }

    /** Fills every slot with the null translator, then puts the six
        interval translators in their slots. */
    method InitTranslators()
      requires Valid()
      modifies translators
      ensures Valid()
      ensures translators[..] == TranslatorTable()
    {
      for i := 0 to translators.Length
        invariant forall j :: 0 <= j < i ==> translators[j] == NullTranslator
      {
        translators[i] := NullTranslator;
      }
      translators[TypeIndex(INT32)] := KindTranslator(INT32);
      translators[TypeIndex(UINT32)] := KindTranslator(UINT32);
      translators[TypeIndex(INT64)] := KindTranslator(INT64);
      translators[TypeIndex(UINT64)] := KindTranslator(UINT64);
      translators[TypeIndex(FLOAT32)] := KindTranslator(FLOAT32);
      translators[TypeIndex(QUARK)] := KindTranslator(QUARK);
      forall i | 0 <= i < TRANSLATOR_SLOTS
        ensures translators[i] == TranslatorTable()[i]
      {
        if IndexedType(i).None? {
          assert forall t :: TypeIndex(t) != i;
        }
      }
    }

    /** Opens the interval file; the sink is not marked as opened. */
    method Open()
      requires Valid()
      modifies this
      ensures Valid() && translators == old(translators) && requests == old(requests)
      ensures View() == old(View()).(fileLog := old(fileLog) + [OpenHistory(historyPath)])
    {
      fileLog := fileLog + [OpenHistory(historyPath)];
    }

    /** A sink that is not opened is left alone; an opened one closes its
        interval file, writes both string databases, empties them and is
        marked closed. */
    method Close()
      requires Valid()
      modifies this
      ensures Valid() && translators == old(translators) && requests == old(requests)
      ensures !old(isOpen) ==> View() == old(View())
      ensures old(isOpen) ==> View() == old(View()).(
                isOpen := false, pathsDb := map[], strValuesDb := map[],
                fileLog := old(fileLog) + [CloseHistory, WriteStringDb(pathStrDbPath, old(pathsDb)),
                                           WriteStringDb(valueStrDbPath, old(strValuesDb))])
    {
      if !isOpen {
        return;
      }
      fileLog := fileLog + [CloseHistory, WriteStringDb(pathStrDbPath, pathsDb),
                            WriteStringDb(valueStrDbPath, strValuesDb)];
      pathsDb := map[];
      strValuesDb := map[];
      isOpen := false;
    }

    /** Sets the current timestamp; nothing else changes. */
    method SetCurrentTimestamp(t: Timestamp)
      requires Valid()
      modifies this`ts
      ensures Valid()
      ensures View() == old(View()).(ts := t)
    {
      ts := t;
    }

    /** getCurrentTimestamp(). */
    function GetCurrentTimestamp(): (t: Timestamp)
      reads this
      ensures t == ts
    {
      ts
    }

    /** getState(): the open value at a path, or None (the null pointer). */
    function GetState(pathQuark: Quark): (r: Option<StateValue>)
      reads this
      ensures r.None? <==> pathQuark !in stateValues
      ensures r.Some? ==> r.value == stateValues[pathQuark].value
    {
      if pathQuark in stateValues then Some(stateValues[pathQuark].value) else None
    }

    /** getCurrentState(): always the same façade, bound to this sink. */
    function GetCurrentState(): (cs: CurrentState)
      reads this, currentState
      requires Valid()
      ensures cs == currentState && cs.sink == this
    {
      currentState
    }

    /** getQuark(): looks the string up; a new string gets the counter's
        value and the counter moves on by one. The table is passed in and
        handed back, as the source passes it by reference. */
    method GetQuark(db: StringDb, value: string) returns (quark: Quark, db': StringDb)
      modifies this`curPathQuark, this`issued
      ensures (quark, db', curPathQuark) == Intern(db, old(curPathQuark), value)
      ensures issued == if value in db then old(issued) else old(issued) + 1
    {
      if value !in db {
        db' := db[value := curPathQuark];
        curPathQuark := ToU32(curPathQuark + 1);
        issued := issued + 1;
        quark := ToU32(curPathQuark - 1);
      } else {
        quark := db[value];
        db' := db;
      }
    }

    /** getPathQuark(): interns into the path table. */
    method GetPathQuark(path: string) returns (quark: Quark)
      requires Valid()
      modifies this
      ensures Valid() && translators == old(translators) && requests == old(requests)
      ensures var (q, db, c) := Intern(old(pathsDb), old(curPathQuark), path);
              quark == q && View() == old(View()).(pathsDb := db, curPathQuark := c)
    {
      InternPathKeepsInvariant(pathsDb, strValuesDb, issued, curPathQuark, path);
      quark, pathsDb := GetQuark(pathsDb, path);
    }

    /** getStringValueQuark(): interns into the value table, taking quarks
        from the same counter as the path table. */
    method GetStringValueQuark(value: string) returns (quark: Quark)
      requires Valid()
      modifies this
      ensures Valid() && translators == old(translators) && requests == old(requests)
      ensures var (q, db, c) := Intern(old(strValuesDb), old(curPathQuark), value);
              quark == q && View() == old(View()).(strValuesDb := db, curPathQuark := c)
    {
      InternValueKeepsInvariant(pathsDb, strValuesDb, issued, curPathQuark, value);
      quark, strValuesDb := GetQuark(strValuesDb, value);
    }

    /** writeInterval(): hands the interval built from the open entry at
        pathQuark to the interval file. Nothing is written when there is
        no entry or the translator yields none; an empty translator slot
        throws (std::bad_function_call), reported as `thrown`. */
    method WriteInterval(pathQuark: Quark) returns (thrown: bool)
      requires Valid()
      modifies this`fileLog
      ensures Valid()
      ensures pathQuark !in stateValues ==> !thrown && fileLog == old(fileLog)
      ensures pathQuark in stateValues ==>
                var entry := stateValues[pathQuark];
                var tr := translators[TypeIndex(entry.value.Type())];
                && thrown == tr.EmptyFunction?
                && fileLog == old(fileLog) + (match (if tr.EmptyFunction? then None else Translate(tr, pathQuark, entry, ts))
                                              case Some(iv) => [AddInterval(iv)]
                                              case None => [])
    {
      thrown := false;
      if pathQuark !in stateValues {
        return;
      }
      var entry := stateValues[pathQuark];
      var tr := translators[TypeIndex(entry.value.Type())];
      if tr.EmptyFunction? {
        thrown := true;
        return;
      }
      var interval := Translate(tr, pathQuark, entry, ts);
      if interval.None? {
        return;
      }
      fileLog := fileLog + [AddInterval(interval.value)];
    }

    /** setState(): the body is empty; only the request is recorded. */
    method SetState(pathQuark: Quark, value: StateValue)
      requires Valid()
      modifies this`requests
      ensures Valid() && View() == old(View())
      ensures requests == old(requests) + [SetStateRequest(pathQuark, value)]
    {
      requests := requests + [SetStateRequest(pathQuark, value)];
    }

    /** removeState(): the body is empty; only the request is recorded. */
    method RemoveState(pathQuark: Quark)
      requires Valid()
      modifies this`requests
      ensures Valid() && View() == old(View())
      ensures requests == old(requests) + [RemoveStateRequest(pathQuark)]
    {
      requests := requests + [RemoveStateRequest(pathQuark)];
    }
  }

  /** The façade given to state providers: every operation delegates to the sink. */
  class CurrentState {
    const sink: StateHistorySink

    constructor (sink: StateHistorySink)
      ensures this.sink == sink
    {
      this.sink := sink;
    }

    method GetPathQuark(path: string) returns (quark: Quark)
      requires sink.Valid()
      modifies sink
      ensures sink.Valid() && sink.translators == old(sink.translators) && sink.requests == old(sink.requests)
      ensures var (q, db, c) := Intern(old(sink.pathsDb), old(sink.curPathQuark), path);
              quark == q && sink.View() == old(sink.View()).(pathsDb := db, curPathQuark := c)
    {
      quark := sink.GetPathQuark(path);
    }

    method GetStringValueQuark(value: string) returns (quark: Quark)
      requires sink.Valid()
      modifies sink
      ensures sink.Valid() && sink.translators == old(sink.translators) && sink.requests == old(sink.requests)
      ensures var (q, db, c) := Intern(old(sink.strValuesDb), old(sink.curPathQuark), value);
              quark == q && sink.View() == old(sink.View()).(strValuesDb := db, curPathQuark := c)
    {
      quark := sink.GetStringValueQuark(value);
    }

    /** setState() and the six typed setters: wrap the value in its variant
        and forward it unchanged to the sink for the same path. */
    method SetState(pathQuark: Quark, value: StateValue)
      requires sink.Valid()
      modifies sink
      ensures sink.Valid() && sink.View() == old(sink.View()) && sink.translators == old(sink.translators)
      ensures sink.requests == old(sink.requests) + [SetStateRequest(pathQuark, value)]
    {
      sink.SetState(pathQuark, value);
    }

    method SetInt32State(pathQuark: Quark, value: i32)
      requires sink.Valid()
      modifies sink
      ensures sink.Valid() && sink.View() == old(sink.View()) && sink.translators == old(sink.translators)
      ensures sink.requests == old(sink.requests) + [SetStateRequest(pathQuark, Int32Value(value))]
    {
      sink.SetState(pathQuark, Int32Value(value));
    }

    method SetUint32State(pathQuark: Quark, value: u32)
      requires sink.Valid()
      modifies sink
      ensures sink.Valid() && sink.View() == old(sink.View()) && sink.translators == old(sink.translators)
      ensures sink.requests == old(sink.requests) + [SetStateRequest(pathQuark, Uint32Value(value))]
    {
      sink.SetState(pathQuark, Uint32Value(value));
    }

    method SetInt64State(pathQuark: Quark, value: i64)
      requires sink.Valid()
      modifies sink
      ensures sink.Valid() && sink.View() == old(sink.View()) && sink.translators == old(sink.translators)
      ensures sink.requests == old(sink.requests) + [SetStateRequest(pathQuark, Int64Value(value))]
    {
      sink.SetState(pathQuark, Int64Value(value));
    }

    method SetUint64State(pathQuark: Quark, value: u64)
      requires sink.Valid()
      modifies sink
      ensures sink.Valid() && sink.View() == old(sink.View()) && sink.translators == old(sink.translators)
      ensures sink.requests == old(sink.requests) + [SetStateRequest(pathQuark, Uint64Value(value))]
    {
      sink.SetState(pathQuark, Uint64Value(value));
    }

    method SetFloat32State(pathQuark: Quark, value: Float32Bits)
      requires sink.Valid()
      modifies sink
      ensures sink.Valid() && sink.View() == old(sink.View()) && sink.translators == old(sink.translators)
      ensures sink.requests == old(sink.requests) + [SetStateRequest(pathQuark, Float32Value(value))]
    {
      sink.SetState(pathQuark, Float32Value(value));
    }

    method SetQuarkState(pathQuark: Quark, value: Quark)
      requires sink.Valid()
      modifies sink
      ensures sink.Valid() && sink.View() == old(sink.View()) && sink.translators == old(sink.translators)
      ensures sink.requests == old(sink.requests) + [SetStateRequest(pathQuark, QuarkValue(value))]
    {
      sink.SetState(pathQuark, QuarkValue(value));
    }

    /** incState(): fails without any request when the path has no value or
        holds a float or a quark; otherwise asks the sink to set the same
        kind holding old value + delta in that kind's width. */
    method IncState(pathQuark: Quark, delta: i64) returns (ok: bool)
      requires sink.Valid()
      requires sink.GetState(pathQuark).Some? ==> IncrementDefined(sink.GetState(pathQuark).value, delta)
      modifies sink
      ensures sink.Valid() && sink.View() == old(sink.View()) && sink.translators == old(sink.translators)
      ensures ok <==> old(sink.GetState(pathQuark)).Some? && old(sink.GetState(pathQuark)).value.IsInteger()
      ensures ok ==> sink.requests == old(sink.requests)
                       + [SetStateRequest(pathQuark, Incremented(old(sink.GetState(pathQuark)).value, delta))]
      ensures !ok ==> sink.requests == old(sink.requests)
    {
      var current := sink.GetState(pathQuark);
      if current.None? {
        return false;
      }
      var v := current.value;
      match v {
        case Int32Value(x) =>
          SetInt32State(pathQuark, ToI32(x + delta));
        case Uint32Value(x) =>
          SetUint32State(pathQuark, ToU32(x + delta));
        case Int64Value(x) =>
          SetInt64State(pathQuark, x + delta);
        case Uint64Value(x) =>
          SetUint64State(pathQuark, ToU64(x + delta));
        case _ =>
          return false;
      }
      return true;
    }

    /** decState(q, d) is incState(q, -d); -d must not overflow. */
    method DecState(pathQuark: Quark, delta: i64) returns (ok: bool)
      requires sink.Valid() && delta != -TWO_63
      requires sink.GetState(pathQuark).Some? ==> IncrementDefined(sink.GetState(pathQuark).value, -delta)
      modifies sink
      ensures sink.Valid() && sink.View() == old(sink.View()) && sink.translators == old(sink.translators)
      ensures ok <==> old(sink.GetState(pathQuark)).Some? && old(sink.GetState(pathQuark)).value.IsInteger()
      ensures ok ==> sink.requests == old(sink.requests)
                       + [SetStateRequest(pathQuark, Incremented(old(sink.GetState(pathQuark)).value, -delta))]
      ensures !ok ==> sink.requests == old(sink.requests)
    {
      ok := IncState(pathQuark, -delta);
    }

    method RemoveState(pathQuark: Quark)
      requires sink.Valid()
      modifies sink
      ensures sink.Valid() && sink.View() == old(sink.View()) && sink.translators == old(sink.translators)
      ensures sink.requests == old(sink.requests) + [RemoveStateRequest(pathQuark)]
    {
      sink.RemoveState(pathQuark);
    }

    function GetState(pathQuark: Quark): (r: Option<StateValue>)
      reads sink
      ensures r == sink.GetState(pathQuark)
    {
      sink.GetState(pathQuark)
    }
  }
}
