/** The `json` value of json.hpp: a tag (`jsonType`) and a payload whose C++ type is
    chosen by the `convert<T>` table. Here the tag and the payload are one datatype, so
    they cannot disagree; the class `Json` below holds such a value and updates it in
    place the way the member functions of `json` do. */
module JsonValue {

  /** The C++ `int` that carries a Decimal payload. */
  type Int32 = x: int | -0x8000_0000 <= x < 0x8000_0000

  /** The failures of the library: the integer codes it throws and the exceptions of
      `std::stoi`/`std::stod` that it lets through. */
  datatype Error =
    | ParseError           // throw 0
    | TypeMismatch         // throw -1
    | IndexOutOfRange      // throw -2
    | BadToken             // throw -3
    | StoiInvalidArgument  // std::invalid_argument from std::stoi
    | StoiOutOfRange       // std::out_of_range from std::stoi
    | StodFailed           // an exception from std::stod

  datatype Result<+T> = Success(value: T) | Failure(error: Error)

  datatype Option<+T> = None | Some(value: T)

  /** The integer a thrown code carries, for the failures that are thrown as integers. */
  function ThrownCode(e: Error): (r: Option<int>)
    ensures r == Some(0) <==> e == ParseError
    ensures r == Some(-1) <==> e == TypeMismatch
    ensures r == Some(-2) <==> e == IndexOutOfRange
    ensures r == Some(-3) <==> e == BadToken
    ensures r.None? <==> e in {StoiInvalidArgument, StoiOutOfRange, StodFailed}
  {
    match e
    case ParseError => Some(0)
    case TypeMismatch => Some(-1)
    case IndexOutOfRange => Some(-2)
    case BadToken => Some(-3)
    case _ => None
  }

  /** `jsonType`. */
  datatype JsonType = NullTag | FloatTag | BooleanTag | DecimalTag | StringTag | ArrayTag | ObjectTag

  /** The numeric value of each enumerator of `jsonType`. */
  function TypeCode(t: JsonType): (r: int)
    ensures 0 <= r <= 6
    ensures r == 0 <==> t == NullTag
    ensures r == 1 <==> t == FloatTag
    ensures r == 2 <==> t == BooleanTag
    ensures r == 3 <==> t == DecimalTag
    ensures r == 4 <==> t == StringTag
    ensures r == 5 <==> t == ArrayTag
    ensures r == 6 <==> t == ObjectTag
  {
    match t
    case NullTag => 0
    case FloatTag => 1
    case BooleanTag => 2
    case DecimalTag => 3
    case StringTag => 4
    case ArrayTag => 5
    case ObjectTag => 6
  }

  /** No two enumerators of `jsonType` share a value. */
  lemma TypeCodeInjective(t: JsonType, u: JsonType)
    requires TypeCode(t) == TypeCode(u)
    ensures t == u
  {
  }

  /** A json value. A Float payload is kept as the bit pattern of the C++ `float` and is
      never interpreted. */
  datatype Value =
    | Null
    | Boolean(b: bool)
    | Decimal(i: Int32)
    | Float(bits: bv32)
    | String(s: string)
    | Array(elems: seq<Value>)
    | Object(fields: map<string, Value>)

  /** `m_type` of a value. */
  function TypeOf(v: Value): JsonType
  {
    match v
    case Null => NullTag
    case Boolean(_) => BooleanTag
    case Decimal(_) => DecimalTag
    case Float(_) => FloatTag
    case String(_) => StringTag
    case Array(_) => ArrayTag
    case Object(_) => ObjectTag
  }

  /** The C++ types `T` that `convert<T>` is specialised for. */
  datatype CppType = CInt | CFloat | CString | CBool | CObject | CArray

  /** An object of one of those types: what `as<T>` returns and `operator=<T>` stores. */
  datatype Payload =
    | IntOf(i: Int32)
    | FloatOf(bits: bv32)
    | StringOf(s: string)
    | BoolOf(b: bool)
    | ObjectOf(fields: map<string, Value>)
    | ArrayOf(elems: seq<Value>)

  function CppTypeOf(p: Payload): CppType
  {
    match p
    case IntOf(_) => CInt
    case FloatOf(_) => CFloat
    case StringOf(_) => CString
    case BoolOf(_) => CBool
    case ObjectOf(_) => CObject
    case ArrayOf(_) => CArray
  }

  /** `convert<T>()`: the tag that goes with the C++ type `T`. No `T` maps to Null, and
      no two types share a tag. */
  function Convert(t: CppType): (r: JsonType)
    ensures r != NullTag
  {
    match t
    case CInt => DecimalTag
    case CFloat => FloatTag
    case CString => StringTag
    case CBool => BooleanTag
    case CObject => ObjectTag
    case CArray => ArrayTag
  }

  /** The table is one-to-one, so a tag names at most one C++ type. */
  lemma ConvertInjective(t: CppType, u: CppType)
    requires Convert(t) == Convert(u)
    ensures t == u
  {
  }

  /** The value a json holds after `operator=<T>(p)` or after construction from `p`:
      the tag is `convert<T>()` and the payload is `p`. */
  function Wrap(p: Payload): (v: Value)
    ensures TypeOf(v) == Convert(CppTypeOf(p))
    ensures v != Null
  {
    match p
    case IntOf(i) => Decimal(i)
    case FloatOf(f) => Float(f)
    case StringOf(s) => String(s)
    case BoolOf(b) => Boolean(b)
    case ObjectOf(m) => Object(m)
    case ArrayOf(a) => Array(a)
  }

  /** `as<T>()`: the payload when `convert<T>()` is the current tag, otherwise throw -1.
      A successful read gives back exactly what `Wrap` stored. */
  function PayloadAs(v: Value, t: CppType): (r: Result<Payload>)
    ensures r.Failure? <==> Convert(t) != TypeOf(v)
    ensures r.Failure? ==> r.error == TypeMismatch
    ensures r.Success? ==> CppTypeOf(r.value) == t && Wrap(r.value) == v
  {
    match (v, t)
    case (Decimal(i), CInt) => Success(IntOf(i))
    case (Float(f), CFloat) => Success(FloatOf(f))
    case (String(s), CString) => Success(StringOf(s))
    case (Boolean(b), CBool) => Success(BoolOf(b))
    case (Object(m), CObject) => Success(ObjectOf(m))
    case (Array(a), CArray) => Success(ArrayOf(a))
    case _ => Failure(TypeMismatch)
  }

  /** Typed assignment followed by a read at the same type returns what was assigned,
      and a read at any other type throws -1. */
  lemma AssignThenAs(p: Payload, t: CppType)
    ensures PayloadAs(Wrap(p), t) == if t == CppTypeOf(p) then Success(p) else Failure(TypeMismatch)
  {
    if t == CppTypeOf(p) {
      var r := PayloadAs(Wrap(p), t);
      assert r.Success?;
      assert Wrap(r.value) == Wrap(p);
      WrapInjective(r.value, p);
    }
  }

  lemma WrapInjective(p: Payload, q: Payload)
    requires Wrap(p) == Wrap(q)
    ensures p == q
  {
  }

  /** The elements an Array keeps when it is subscripted; any other value is discarded
      and replaced by an empty array. */
  function ElementsOf(v: Value): seq<Value>
  {
    if v.Array? then v.elems else []
  }

  /** The entries an Object keeps when it is subscripted by a key. */
  function FieldsOf(v: Value): map<string, Value>
  {
    if v.Object? then v.fields else map[]
  }

  /** The outcome of `operator[](unsigned n)`: the new value of the subscripted json
      (`holder`) and the element the returned reference designates, or the throw. */
  datatype Subscripted = Subscripted(holder: Value, slot: Result<Value>)

  /** `operator[](unsigned n)`. A non-Array first becomes an empty Array. Subscripting
      at the size appends one Null, below the size returns the element in place, and
      beyond the size throws -2 (after the conversion) without adding anything. */
  function Subscript(v: Value, n: nat): (r: Subscripted)
    ensures r.holder.Array?
    ensures ElementsOf(v) <= r.holder.elems
    ensures |r.holder.elems| == if n == |ElementsOf(v)| then n + 1 else |ElementsOf(v)|
    ensures n == |ElementsOf(v)| ==> r.holder.elems[n] == Null
    ensures r.slot.Success? <==> n <= |ElementsOf(v)|
    ensures r.slot.Success? ==> r.slot.value == r.holder.elems[n]
    ensures r.slot.Failure? ==> r.slot.error == IndexOutOfRange
  {
    var arr := ElementsOf(v);
    if n == |arr| then Subscripted(Array(arr + [Null]), Success(Null))
    else if n > |arr| then Subscripted(Array(arr), Failure(IndexOutOfRange))
    else Subscripted(Array(arr), Success(arr[n]))
  }

  /** `operator[](const std::string& key)`: the new value of the subscripted json; the
      returned reference designates its entry for `key`. A non-Object first becomes an
      empty Object; an existing entry is kept, a missing one is inserted as Null, and no
      other entry changes. */
  function Lookup(v: Value, key: string): (r: Value)
    ensures r.Object?
    ensures r.fields.Keys == FieldsOf(v).Keys + {key}
    ensures forall k :: k in FieldsOf(v) ==> r.fields[k] == FieldsOf(v)[k]
    ensures key !in FieldsOf(v) ==> r.fields[key] == Null
  {
    var obj := FieldsOf(v);
    if key in obj then Object(obj) else Object(obj[key := Null])
  }

  /** Subscripting an element that exists, or was just appended, again changes nothing:
      `a[n]; a[n];` grows the array at most once. */
  lemma SubscriptAgain(v: Value, n: nat)
    requires Subscript(v, n).slot.Success?
    ensures Subscript(Subscript(v, n).holder, n) == Subscripted(Subscript(v, n).holder, Subscript(v, n).slot)
  {
  }

  /** Appending through `a[a.size()]` k times onto an array of n elements keeps those
      elements and adds exactly k Nulls after them. */
  function AppendNulls(v: Value, k: nat): (r: Value)
    decreases k
  {
    if k == 0 then Array(ElementsOf(v))
    else Subscript(AppendNulls(v, k - 1), |ElementsOf(AppendNulls(v, k - 1))|).holder
  }

  lemma {:induction false} AppendNullsContents(v: Value, k: nat)
    ensures AppendNulls(v, k) == Array(ElementsOf(v) + seq(k, _ => Null))
  {
    if k > 0 {
      AppendNullsContents(v, k - 1);
      var prev := AppendNulls(v, k - 1);
      assert ElementsOf(prev) == ElementsOf(v) + seq(k - 1, _ => Null);
      assert ElementsOf(v) + seq(k - 1, _ => Null) + [Null] == ElementsOf(v) + seq(k, _ => Null);
    }
  }

  /** Looking a key up twice is the same as once, and looking up two keys gives the
      same Object in either order: the entries an Object ends with do not depend on
      the order in which its keys were subscripted. */
  lemma LookupAgain(v: Value, key: string)
    ensures Lookup(Lookup(v, key), key) == Lookup(v, key)
  {
  }

  lemma LookupCommutes(v: Value, a: string, b: string)
    ensures Lookup(Lookup(v, a), b) == Lookup(Lookup(v, b), a)
  {
    var ab := Lookup(Lookup(v, a), b).fields;
    var ba := Lookup(Lookup(v, b), a).fields;
    assert ab.Keys == ba.Keys;
    forall k | k in ab
      ensures ab[k] == ba[k]
    {
    }
  }

  /** The `json` class: a value updated in place by the member functions of json.hpp. */
  class Json {
    var value: Value

    /** `json()`: a Null value. */
    constructor ()
      ensures value == Null
    {
      value := Null;
    }

    /** `json(const T&)`, `json(array&&)`, `json(object&&)` and `json(const char*)`:
        the tag is `convert<T>()` and the payload a copy of the argument. */
    constructor FromPayload(p: Payload)
      ensures value == Wrap(p)
      ensures TypeOf(value) == Convert(CppTypeOf(p))
    {
      value := Wrap(p);
    }

    /** `json(const json&)`: starts Null and copies; the source is left as it was. */
    constructor Copy(j: Json)
      ensures value == j.value
    {
      value := Null;
      new;
      CopyFrom(j);
    }

    /** `json(json&&)`: takes the source's tag and payload and leaves the source Null. */
    constructor Move(j: Json)
      modifies j
      ensures value == old(j.value)
      ensures j.value == Null
    {
      value := j.value;
      new;
      j.value := Null;
    }

    /** `free()`: releases the payload; the tag is Null afterwards whatever it was. */
    method Free()
      modifies this
      ensures value == Null
    {
      value := Null;
    }

    /** `copy(j)`: frees this json first and then copies the tag and payload of `j`. When
        `j` is this json itself, the free has already made it Null, so Null is copied. */
    method CopyFrom(j: Json)
      modifies this
      ensures value == if j == this then Null else old(j.value)
    {
      Free();
      value := j.value;
    }

    /** `operator=(const json&)`, as written: a plain call of `copy`. */
    method Assign(right: Json)
      modifies this
      ensures value == if right == this then Null else old(right.value)
    {
      CopyFrom(right);
    }

    /** `operator=(const json&)` with the self-assignment check the source leaves out:
        afterwards this json holds what `right` held, also when `right` is this json. */
    method AssignChecked(right: Json)
      modifies this
      ensures value == old(right.value)
    {
      if right != this {
        CopyFrom(right);
      }
    }

    /** `operator=<T>(const T&)`: frees, then sets the tag to `convert<T>()` and stores
        a copy of the argument. */
    method AssignPayload(p: Payload)
      modifies this
      ensures value == Wrap(p)
      ensures PayloadAs(value, CppTypeOf(p)) == Success(p)
    {
      Free();
      value := Wrap(p);
      AssignThenAs(p, CppTypeOf(p));
    }

    /** `as<T>()`: the payload, or throw -1 when the tag is not `convert<T>()`. */
    method As(t: CppType) returns (r: Result<Payload>)
      ensures r.Failure? <==> Convert(t) != TypeOf(value)
      ensures r.Failure? ==> r.error == TypeMismatch
      ensures r.Success? ==> CppTypeOf(r.value) == t && Wrap(r.value) == value
    {
      if Convert(t) != TypeOf(value) {
        return Failure(TypeMismatch);
      }
      r := PayloadAs(value, t);
    }

    /** `operator[](unsigned n)`; the result is the element the reference designates. */
    method At(n: nat) returns (r: Result<Value>)
      modifies this
      ensures value == Subscript(old(value), n).holder
      ensures r == Subscript(old(value), n).slot
    {
      if !value.Array? {
        Free();
        value := Array([]);
      }
      var arr := value.elems;
      if n == |arr| {
        value := Array(arr + [Null]);
        r := Success(value.elems[n]);
      } else if n > |arr| {
        r := Failure(IndexOutOfRange);
      } else {
        r := Success(arr[n]);
      }
    }

    /** `operator[](const std::string&)`; the result is the entry the reference designates. */
    method AtKey(key: string) returns (r: Value)
      modifies this
      ensures value == Lookup(old(value), key)
      ensures r == value.fields[key]
    {
      if !value.Object? {
        Free();
        value := Object(map[]);
      }
      if key !in value.fields {
        value := Object(value.fields[key := Null]);
      }
      r := value.fields[key];
    }
  }

  /** `a = a` on a json that holds 1 leaves it Null: the discrepancy behind `Assign`. */
  method SelfAssignmentClears() returns (before: Value, after: Value)
    ensures before == Decimal(1) && after == Null
  {
    var a := new Json.FromPayload(IntOf(1));
    before := a.value;
    a.Assign(a);
    after := a.value;
  }

  /** The same assignment with the check keeps the value. */
  method CheckedSelfAssignmentKeeps() returns (before: Value, after: Value)
    ensures before == Decimal(1) && after == Decimal(1)
  {
    var a := new Json.FromPayload(IntOf(1));
    before := a.value;
    a.AssignChecked(a);
    after := a.value;
  }
}
