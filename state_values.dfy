/** Typed state values (SimpleStateValue<T, SVT> and its six instances) and
    the integer increment that CurrentState::incState computes. */
module StateValues {
  import opened Basics

  datatype StateValueType = INT32 | UINT32 | INT64 | UINT64 | FLOAT32 | QUARK

  /** A float is carried as its 32 raw bits; no arithmetic is done on it. */
  type Float32Bits = bv32

  /** One immutable state value: a constructor per SimpleStateValue
      instance; the destructor is the const getValue(). */
  datatype StateValue =
    | Int32Value(i32Value: i32)
    | Uint32Value(u32Value: u32)
    | Int64Value(i64Value: i64)
    | Uint64Value(u64Value: u64)
    | Float32Value(f32Bits: Float32Bits)
    | QuarkValue(quarkValue: u32)
  {
    /** getType(): the tag fixed by the variant at construction. */
    function Type(): StateValueType {
      match this
      case Int32Value(_) => INT32
      case Uint32Value(_) => UINT32
      case Int64Value(_) => INT64
      case Uint64Value(_) => UINT64
      case Float32Value(_) => FLOAT32
      case QuarkValue(_) => QUARK
    }

    /** The four kinds incState/decState accept. */
    predicate IsInteger() {
      Type() in {INT32, UINT32, INT64, UINT64}
    }

    /** The mathematical value of an integer state value. */
    function IntegerValue(): int
      requires IsInteger()
    {
      match this
      case Int32Value(x) => x
      case Uint32Value(x) => x
      case Int64Value(x) => x
      case Uint64Value(x) => x
    }
  }

  /** The tag of a constructed value is the one of its variant and the
      value read back is the one passed in. */
  lemma ConstructedValueKeepsTagAndPayload(x: i32, y: u32, z: i64, w: u64, f: Float32Bits, q: u32)
    ensures Int32Value(x).Type() == INT32 && Int32Value(x).i32Value == x
    ensures Uint32Value(y).Type() == UINT32 && Uint32Value(y).u32Value == y
    ensures Int64Value(z).Type() == INT64 && Int64Value(z).i64Value == z
    ensures Uint64Value(w).Type() == UINT64 && Uint64Value(w).u64Value == w
    ensures Float32Value(f).Type() == FLOAT32 && Float32Value(f).f32Bits == f
    ensures QuarkValue(q).Type() == QUARK && QuarkValue(q).quarkValue == q
  {
  }

  /** Number of values of the type an integer state value has. */
  function Modulus(t: StateValueType): int
  {
    if t in {INT32, UINT32} then TWO_32 else TWO_64
  }

  /** `getValue() + value` is evaluated in C++: an int32, uint32 or int64
      operand is promoted to std::int64_t, where overflow is undefined; a
      uint64 operand makes the sum unsigned 64-bit, which wraps. */
  predicate IncrementDefined(v: StateValue, delta: i64)
  {
    match v
    case Int32Value(x) => InI64(x + delta)
    case Uint32Value(x) => InI64(x + delta)
    case Int64Value(x) => InI64(x + delta)
    case _ => true
  }

  /** The value incState stores: the same variant, holding the sum converted
      back to the variant's width. */
  function Incremented(v: StateValue, delta: i64): (r: StateValue)
    requires v.IsInteger() && IncrementDefined(v, delta)
    ensures r.Type() == v.Type()
    ensures (r.IntegerValue() - (v.IntegerValue() + delta)) % Modulus(v.Type()) == 0
  {
    match v
    case Int32Value(x) => Int32Value(ToI32(x + delta))
    case Uint32Value(x) => Uint32Value(ToU32(x + delta))
    case Int64Value(x) => Int64Value(x + delta)
    case Uint64Value(x) => Uint64Value(ToU64(x + delta))
  }

  /** The increment is exact whenever the sum fits the variant's width;
      for INT64 it is always exact (the precondition rules out overflow). */
  lemma IncrementedExactWhenInRange(v: StateValue, delta: i64)
    requires v.IsInteger() && IncrementDefined(v, delta)
    requires (v.Int32Value? ==> -0x8000_0000 <= v.IntegerValue() + delta < 0x8000_0000)
    requires (v.Uint32Value? ==> 0 <= v.IntegerValue() + delta < TWO_32)
    requires (v.Uint64Value? ==> 0 <= v.IntegerValue() + delta < TWO_64)
    ensures Incremented(v, delta).IntegerValue() == v.IntegerValue() + delta
  {
  }
}
