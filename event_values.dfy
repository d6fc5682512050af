/** Event values: the closed set of value kinds built from a Babeltrace field
    definition (CTF 1.8, section 4), the builder table that picks the kind
    from the definition's type id, the structured kinds (dict, array) with
    their lookups, and the JSON-like text they render to. */
module EventValues {
  import opened Basics
  import opened OrderedMaps

  /** Babeltrace 1.x `enum ctf_type_id`. */
  const CTF_TYPE_UNKNOWN: int := 0
  const CTF_TYPE_INTEGER: int := 1
  const CTF_TYPE_FLOAT: int := 2
  const CTF_TYPE_ENUM: int := 3
  const CTF_TYPE_STRING: int := 4
  const CTF_TYPE_STRUCT: int := 5
  const CTF_TYPE_UNTAGGED_VARIANT: int := 6
  const CTF_TYPE_VARIANT: int := 7
  const CTF_TYPE_ARRAY: int := 8
  const CTF_TYPE_SEQUENCE: int := 9

  /** Size of the builder table (std::array<BuildValueFunc, 32>). */
  const BUILDER_SLOTS: int := 32

  /** `enum ctf_string_encoding` as reported for a declaration. */
  datatype Encoding = EncodingNone | EncodingUtf8 | EncodingAscii | EncodingUnknown

  /** What bt_ctf_get_field_list reports: its return code and the list of
      child definitions it stored (the count is the list's length). */
  datatype FieldListResult = FieldListResult(ret: int, list: FieldList)

  /** A `bt_definition const * const *` list: null, or the definitions. */
  datatype FieldList = NullList | FieldList(defs: seq<FieldDef>)

  /** A Babeltrace field definition, through the queries the value classes
      make of it: the type id of its declaration, integer signedness,
      string encoding, a variant's active member, the child list, the field
      name, the char array of a CTF array, and the text its scalar value
      prints (scalar formatting is not part of this model). */
  datatype FieldDef = FieldDef(
    typeId: int,
    signedness: int,
    encoding: Encoding,
    variantMember: Option<FieldDef>,
    fieldList: FieldListResult,
    name: Option<string>,
    charArray: Option<string>,
    scalarText: string)

  /** EventValueType, with the Unknown kind the factory also builds. */
  datatype EventValueType = SINT | UINT | FLOAT | STRING | ENUM | ARRAY | DICT | UNKNOWN

  /** One built event value. Scalars keep their definition; arrays and
      dicts also keep the field list and size their buildCache() stored. */
  datatype EventValue =
    | SintValue(def: FieldDef)
    | UintValue(def: FieldDef)
    | FloatValue(def: FieldDef)
    | EnumValue(def: FieldDef)
    | StringValue(def: FieldDef)
    | ArrayValue(def: FieldDef, fieldList: FieldList, size: nat)
    | DictValue(def: FieldDef, fieldList: FieldList, size: nat)
    | UnknownValue
  {
    /** getType(): fixed by the variant. */
    function Type(): EventValueType
    {
      match this
      case SintValue(_) => SINT
      case UintValue(_) => UINT
      case FloatValue(_) => FLOAT
      case EnumValue(_) => ENUM
      case StringValue(_) => STRING
      case ArrayValue(_, _, _) => ARRAY
      case DictValue(_, _, _) => DICT
      case UnknownValue => UNKNOWN
    }
  }

  /** The builder functions initTypes() defines. */
  datatype Builder =
    | UnknownBuilder | IntBuilder | FloatBuilder | EnumBuilder | StringBuilder
    | StructBuilder | VariantBuilder | ArraySequenceBuilder

  /** The builder a type id gets from initTypes(). */
  function BuilderFor(typeId: int): Builder
  {
    if typeId == CTF_TYPE_INTEGER then IntBuilder
    else if typeId == CTF_TYPE_FLOAT then FloatBuilder
    else if typeId == CTF_TYPE_ENUM then EnumBuilder
    else if typeId == CTF_TYPE_STRING then StringBuilder
    else if typeId == CTF_TYPE_STRUCT then StructBuilder
    else if typeId == CTF_TYPE_VARIANT then VariantBuilder
    else if typeId == CTF_TYPE_ARRAY || typeId == CTF_TYPE_SEQUENCE then ArraySequenceBuilder
    else UnknownBuilder
  }

  /** The builder table after initTypes(). */
  function BuilderTable(): (table: seq<Builder>)
    ensures |table| == BUILDER_SLOTS
  {
    seq(BUILDER_SLOTS, i => BuilderFor(i))
  }

  /** Only the eight supported type ids have their own builder; every other
      slot keeps the Unknown builder, and arrays share with sequences. */
  lemma BuilderTableOverrides(i: int)
    requires 0 <= i < BUILDER_SLOTS
    ensures BuilderTable()[i] != UnknownBuilder <==>
            i in {CTF_TYPE_INTEGER, CTF_TYPE_FLOAT, CTF_TYPE_ENUM, CTF_TYPE_STRING,
                  CTF_TYPE_STRUCT, CTF_TYPE_VARIANT, CTF_TYPE_ARRAY, CTF_TYPE_SEQUENCE}
    ensures BuilderTable()[CTF_TYPE_ARRAY] == BuilderTable()[CTF_TYPE_SEQUENCE] == ArraySequenceBuilder
  {
  }

  /** The child definitions a field list holds (none without a list). */
  function Children(def: FieldDef): seq<FieldDef>
  {
    if def.fieldList.list.FieldList? then def.fieldList.list.defs else []
  }

  /** A measure on definitions: one plus the sizes of the variant member and
      of the children. */
  function Size(def: FieldDef): nat
    decreases def, 1
  {
    1 + (if def.variantMember.Some? then Size(def.variantMember.value) else 0) + ChildrenSize(def, 0)
  }

  function ChildrenSize(def: FieldDef, from: nat): nat
    decreases def, 0, |Children(def)| - from
  {
    match def.fieldList
    case FieldListResult(_, NullList) => 0
    case FieldListResult(_, FieldList(children)) =>
      if from >= |children| then 0 else Size(children[from]) + ChildrenSize(def, from + 1)
  }

  lemma {:induction false} ChildrenSizeCovers(def: FieldDef, from: nat, i: nat)
    requires from <= i < |Children(def)|
    ensures Size(Children(def)[i]) <= ChildrenSize(def, from)
    decreases i - from
  {
    if from < i {
      ChildrenSizeCovers(def, from + 1, i);
    }
  }

  /** A child definition is smaller than its parent. */
  lemma ChildSmaller(def: FieldDef, i: nat)
    requires i < |Children(def)|
    ensures Size(Children(def)[i]) < Size(def)
  {
    ChildrenSizeCovers(def, 0, i);
  }

  function ValueSize(v: EventValue): nat
  {
    if v.UnknownValue? then 0 else Size(v.def)
  }

  /** The definitions buildEventValue can be called on: the type id indexes
      the table (no bounds check), and so does a variant's active member. */
  ghost predicate Buildable(def: FieldDef)
    decreases def
  {
    0 <= def.typeId < BUILDER_SLOTS &&
    (BuilderFor(def.typeId) == VariantBuilder && def.variantMember.Some? ==> Buildable(def.variantMember.value))
  }

  /** Size the DictEventValue/ArrayEventValue constructor leaves: the field
      count when bt_ctf_get_field_list returns 0, else 0. */
  function CachedSize(def: FieldDef): (n: nat)
    ensures n <= |Children(def)|
    ensures def.fieldList.ret != 0 ==> n == 0
  {
    if def.fieldList.ret == 0 then |Children(def)| else 0
  }

  /** The DictEventValue constructor followed by buildCache(). */
  function MakeDict(def: FieldDef): (v: EventValue)
    ensures v.DictValue? && v.Type() == DICT && v.def == def
    ensures v.fieldList == def.fieldList.list
    ensures v.size == (if def.fieldList.ret == 0 then |Children(def)| else 0)
  {
    DictValue(def, def.fieldList.list, CachedSize(def))
  }

  /** The ArrayEventValue constructor followed by buildCache(). */
  function MakeArray(def: FieldDef): (v: EventValue)
    ensures v.ArrayValue? && v.Type() == ARRAY && v.def == def
    ensures v.fieldList == def.fieldList.list
    ensures v.size == (if def.fieldList.ret == 0 then |Children(def)| else 0)
  {
    ArrayValue(def, def.fieldList.list, CachedSize(def))
  }

  /** The value buildEventValue builds: the builder the table holds for the
      definition's type id, run on the definition. A variant builds its
      active member; with none, Babeltrace reports the null definition's
      type as CTF_TYPE_UNKNOWN and the Unknown builder runs. */
  function Build(def: FieldDef): (v: EventValue)
    requires Buildable(def)
    ensures v != UnknownValue ==> Size(v.def) <= Size(def)
    ensures def.typeId == CTF_TYPE_INTEGER ==> (v.SintValue? <==> def.signedness == 1) && (v.SintValue? || v.UintValue?)
    ensures def.typeId == CTF_TYPE_FLOAT ==> v == FloatValue(def)
    ensures def.typeId == CTF_TYPE_ENUM ==> v == EnumValue(def)
    ensures def.typeId == CTF_TYPE_STRING ==> v == StringValue(def)
    ensures def.typeId == CTF_TYPE_STRUCT ==> v == MakeDict(def)
    ensures def.typeId in {CTF_TYPE_ARRAY, CTF_TYPE_SEQUENCE} ==> v == MakeArray(def)
    ensures def.typeId == CTF_TYPE_VARIANT ==>
              v == (if def.variantMember.Some? then Build(def.variantMember.value) else UnknownValue)
    ensures BuilderFor(def.typeId) == UnknownBuilder ==> v == UnknownValue
    decreases def
  {
    match BuilderTable()[def.typeId]
    case UnknownBuilder => UnknownValue
    case IntBuilder => if def.signedness == 1 then SintValue(def) else UintValue(def)
    case FloatBuilder => FloatValue(def)
    case EnumBuilder => EnumValue(def)
    case StringBuilder => StringValue(def)
    case StructBuilder => MakeDict(def)
    case VariantBuilder => if def.variantMember.Some? then Build(def.variantMember.value) else UnknownValue
    case ArraySequenceBuilder => MakeArray(def)
  }

  /** A built value is never a variant: it has the kind of the first
      non-variant definition down the chain of active members. */
  lemma {:induction false} BuildSeesThroughVariants(def: FieldDef)
    requires Buildable(def)
    ensures Build(def) != UnknownValue ==> BuilderFor(Build(def).def.typeId) != VariantBuilder
    ensures Build(def).DictValue? ==> Build(def) == MakeDict(Build(def).def)
    ensures Build(def).ArrayValue? ==> Build(def) == MakeArray(Build(def).def)
    decreases def
  {
    if BuilderFor(def.typeId) == VariantBuilder && def.variantMember.Some? {
      BuildSeesThroughVariants(def.variantMember.value);
    }
  }

  // ---------------------------------------------------------------------
  // Checked narrowings (asSint ... asDict): the same value, tag required.

  function AsSint(v: EventValue): (r: EventValue)
    requires v.Type() == SINT
    ensures r == v && r.SintValue?
  {
    v
  }

  function AsUint(v: EventValue): (r: EventValue)
    requires v.Type() == UINT
    ensures r == v && r.UintValue?
  {
    v
  }

  function AsFloat(v: EventValue): (r: EventValue)
    requires v.Type() == FLOAT
    ensures r == v && r.FloatValue?
  {
    v
  }

  function AsEnum(v: EventValue): (r: EventValue)
    requires v.Type() == ENUM
    ensures r == v && r.EnumValue?
  {
    v
  }

  function AsString(v: EventValue): (r: EventValue)
    requires v.Type() == STRING
    ensures r == v && r.StringValue?
  {
    v
  }

  function AsArray(v: EventValue): (r: EventValue)
    requires v.Type() == ARRAY
    ensures r == v && r.ArrayValue?
  {
    v
  }

  function AsDict(v: EventValue): (r: EventValue)
    requires v.Type() == DICT
    ensures r == v && r.DictValue?
  {
    v
  }

  // ---------------------------------------------------------------------
  // DictEventValue and ArrayEventValue lookups.

  /** Whether `index` can be read from the stored field list: with a list,
      it must be within it (there is no bounds check). */
  predicate IndexReadable(v: EventValue, index: nat)
    requires v.DictValue? || v.ArrayValue?
  {
    v.fieldList.FieldList? && index < |v.fieldList.defs|
  }

  /** getKeyName: null without a field list, else the name of the
      index-th field definition. */
  function GetKeyName(d: EventValue, index: nat): (r: Option<string>)
    requires d.DictValue? && (d.fieldList.FieldList? ==> index < |d.fieldList.defs|)
    ensures d.fieldList.NullList? ==> r.None?
    ensures d.fieldList.FieldList? ==> r == d.fieldList.defs[index].name
  {
    if d.fieldList.NullList? then None else d.fieldList.defs[index].name
  }

  /** getKeyNameStr: the key name, or "" when it is null. */
  function GetKeyNameStr(d: EventValue, index: nat): (r: string)
    requires d.DictValue? && (d.fieldList.FieldList? ==> index < |d.fieldList.defs|)
    ensures GetKeyName(d, index).Some? ==> r == GetKeyName(d, index).value
    ensures GetKeyName(d, index).None? ==> r == ""
  {
    match GetKeyName(d, index)
    case Some(name) => name
    case None => ""
  }

  /** The definition operator[] builds a child from. */
  function ItemDef(v: EventValue, index: nat): FieldDef
    requires (v.DictValue? || v.ArrayValue?) && IndexReadable(v, index)
  {
    v.fieldList.defs[index]
  }

  /** isString: the declaration's encoding is UTF-8 or ASCII. */
  predicate IsString(a: EventValue): (b: bool)
    requires a.ArrayValue?
    ensures b <==> a.def.encoding in {EncodingUtf8, EncodingAscii}
  {
    a.def.encoding == EncodingUtf8 || a.def.encoding == EncodingAscii
  }

  /** getString: null for a CTF sequence, else the array's char array. */
  function GetString(a: EventValue): (r: Option<string>)
    requires a.ArrayValue?
    ensures a.def.typeId == CTF_TYPE_SEQUENCE ==> r.None?
    ensures a.def.typeId != CTF_TYPE_SEQUENCE ==> r == a.def.charArray
  {
    if a.def.typeId == CTF_TYPE_SEQUENCE then None else a.def.charArray
  }

  // ---------------------------------------------------------------------
  // What getVector, getMap and toString compute.

  /** A dict or array value as its constructor built it. */
  ghost predicate Cached(v: EventValue)
  {
    (v.DictValue? ==> v == MakeDict(v.def)) && (v.ArrayValue? ==> v == MakeArray(v.def))
  }

  /** The definitions whose values can be rendered: buildable, every child
      a structured value reads renderable too and, below a dict, every
      field named (getMap turns each name into a std::string). */
  ghost predicate RenderableDef(def: FieldDef)
    decreases def
  {
    Buildable(def) &&
    match BuilderFor(def.typeId)
    case VariantBuilder =>
      def.variantMember.Some? ==> RenderableDef(def.variantMember.value)
    case StructBuilder =>
      (match def.fieldList
       case FieldListResult(_, NullList) => true
       case FieldListResult(_, FieldList(children)) =>
         forall i :: 0 <= i < CachedSize(def) ==> children[i].name.Some? && RenderableDef(children[i]))
    case ArraySequenceBuilder =>
      (match def.fieldList
       case FieldListResult(_, NullList) => true
       case FieldListResult(_, FieldList(children)) =>
         forall i :: 0 <= i < CachedSize(def) ==> RenderableDef(children[i]))
    case _ => true
  }

  /** A value that can be rendered: as its constructor built it, with
      renderable children (named ones below a dict). */
  ghost predicate Renderable(v: EventValue)
  {
    Cached(v) &&
    (v.DictValue? ==> forall i :: 0 <= i < v.size ==>
                        Children(v.def)[i].name.Some? && RenderableDef(Children(v.def)[i])) &&
    (v.ArrayValue? ==> forall i :: 0 <= i < v.size ==> RenderableDef(Children(v.def)[i]))
  }

  /** What the factory builds from a renderable definition is renderable. */
  lemma {:induction false} BuildRenderable(def: FieldDef)
    requires RenderableDef(def)
    ensures Renderable(Build(def))
    decreases def
  {
    if BuilderFor(def.typeId) == VariantBuilder && def.variantMember.Some? {
      BuildRenderable(def.variantMember.value);
    }
  }

  /** The children of a renderable structured value are renderable and smaller. */
  lemma ChildrenRenderable(v: EventValue)
    requires (v.DictValue? || v.ArrayValue?) && Renderable(v)
    ensures forall i :: 0 <= i < v.size ==>
              Buildable(Children(v.def)[i]) && Renderable(Build(Children(v.def)[i])) &&
              ValueSize(Build(Children(v.def)[i])) < ValueSize(v)
  {
    forall i | 0 <= i < v.size
      ensures Buildable(Children(v.def)[i]) && Renderable(Build(Children(v.def)[i])) &&
              ValueSize(Build(Children(v.def)[i])) < ValueSize(v)
    {
      ChildSmaller(v.def, i);
      BuildRenderable(Children(v.def)[i]);
    }
  }

  /** getVector: the items of `a`, built in index order. */
  function ArrayItems(a: EventValue): (items: seq<EventValue>)
    requires a.ArrayValue? && Renderable(a)
    ensures |items| == a.size
    ensures forall i :: 0 <= i < a.size ==> items[i] == Build(Children(a.def)[i])
    ensures forall i :: 0 <= i < a.size ==> Renderable(items[i]) && ValueSize(items[i]) < ValueSize(a)
  {
    ChildrenRenderable(a);
    seq(a.size, i requires 0 <= i < a.size => Build(Children(a.def)[i]))
  }

  /** The (key, value) pairs getMap inserts, in index order. */
  function DictEntries(d: EventValue): (entries: seq<(string, EventValue)>)
    requires d.DictValue? && Renderable(d)
    ensures |entries| == d.size
    ensures forall i :: 0 <= i < d.size ==>
              entries[i] == (GetKeyName(d, i).value, Build(Children(d.def)[i]))
    ensures forall e :: e in entries ==> Renderable(e.1) && ValueSize(e.1) < ValueSize(d)
  {
    ChildrenRenderable(d);
    var entries := seq(d.size, i requires 0 <= i < d.size =>
      (Children(d.def)[i].name.value, Build(Children(d.def)[i])));
    assert forall e :: e in entries ==> exists i :: 0 <= i < d.size && entries[i] == e;
    entries
  }

  /** getMap: the entries inserted into a std::map, first value per key. */
  function DictMap(d: EventValue): (m: OrderedMap<EventValue>)
    requires d.DictValue? && Renderable(d)
    ensures Sorted(m)
    ensures forall e :: e in m ==> Renderable(e.1) && ValueSize(e.1) < ValueSize(d)
  {
    FromEntriesFromInput(DictEntries(d));
    FromEntries(DictEntries(d))
  }

  /** A text of at least two characters that opens with `open` and closes
      with `close`. */
  predicate Braced(s: string, open: char, close: char)
  {
    |s| >= 2 && s[0] == open && s[|s| - 1] == close
  }

  /** The text of one dict entry: `"key": value`. */
  function EntryText(key: string, valueText: string): string
  {
    "\"" + key + "\": " + valueText
  }

  /** Each part followed by ", ". */
  function Separated(parts: seq<string>): string
    decreases |parts|
  {
    if parts == [] then "" else Separated(parts[..|parts| - 1]) + parts[|parts| - 1] + ", "
  }

  /** The parts joined by ", ". */
  function Joined(parts: seq<string>): string
    requires parts != []
  {
    Separated(parts[..|parts| - 1]) + parts[|parts| - 1]
  }

  /** toString(): a dict as `{"k": v, ...}` in key order, an array as
      `[v, ...]` or as its quoted string, a scalar as its own text, and an
      Unknown value as `unknownText`. */
  function ValueText(v: EventValue, unknownText: string): (s: string)
    requires Renderable(v)
    ensures v.DictValue? ==> Braced(s, '{', '}')
    ensures v.ArrayValue? ==> Braced(s, '[', ']') || Braced(s, '"', '"')
    ensures v.UnknownValue? ==> s == unknownText
    decreases ValueSize(v), 2
  {
    match v
    case DictValue(_, _, _) => DictText(v, unknownText)
    case ArrayValue(_, _, _) => ArrayText(v, unknownText)
    case UnknownValue => unknownText
    case _ => v.def.scalarText
  }

  function DictText(d: EventValue, unknownText: string): (s: string)
    requires d.DictValue? && Renderable(d)
    ensures Braced(s, '{', '}')
    ensures s == "{}" <==> d.size == 0
    decreases ValueSize(d), 1
  {
    if d.size == 0 then "{}"
    else
      var m := DictMap(d);
      FromEntriesKeys(DictEntries(d));
      assert DictEntries(d)[0].0 in Keys(m);
      "{" + Joined(EntryTexts(d, m, unknownText)) + "}"
  }

  function EntryTexts(d: EventValue, m: OrderedMap<EventValue>, unknownText: string): (texts: seq<string>)
    requires forall e :: e in m ==> Renderable(e.1) && ValueSize(e.1) < ValueSize(d)
    ensures |texts| == |m|
    decreases ValueSize(d), 0, |m|
  {
    if m == [] then []
    else
      var last := m[|m| - 1];
      EntryTexts(d, m[..|m| - 1], unknownText) + [EntryText(last.0, ValueText(last.1, unknownText))]
  }

  function ArrayText(a: EventValue, unknownText: string): (s: string)
    requires a.ArrayValue? && Renderable(a)
    ensures a.size == 0 ==> s == "[]"
    ensures Braced(s, '[', ']') || Braced(s, '"', '"')
    ensures Braced(s, '"', '"') ==> IsString(a) && GetString(a).Some?
    decreases ValueSize(a), 1
  {
    if a.size == 0 then "[]"
    else if IsString(a) && GetString(a).Some? then "\"" + GetString(a).value + "\""
    else "[" + Joined(ItemTexts(a, ArrayItems(a), unknownText)) + "]"
  }

  function ItemTexts(a: EventValue, items: seq<EventValue>, unknownText: string): (texts: seq<string>)
    requires forall v :: v in items ==> Renderable(v) && ValueSize(v) < ValueSize(a)
    ensures |texts| == |items|
    decreases ValueSize(a), 0, |items|
  {
    if items == [] then []
    else ItemTexts(a, items[..|items| - 1], unknownText) + [ValueText(items[|items| - 1], unknownText)]
  }
}
