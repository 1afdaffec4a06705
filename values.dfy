/** The XML-RPC value model: a `Value` wraps exactly one `Type`, a closed union with
    one variant per wire type, and structs and arrays are ordered lists of members and
    of values. Equality is structural, as Rust's derived `PartialEq` makes it. */
module Values {
  import opened Wrappers
  import DateTimes

  /** The range of Rust's `i32`. */
  predicate InInt32(n: int) {
    -0x8000_0000 <= n < 0x8000_0000
  }

  type Int32 = x: int | InInt32(x)
  type Int64 = x: int | -0x8000_0000_0000_0000 <= x < 0x8000_0000_0000_0000
  type Byte = x: int | 0 <= x < 0x100

  /** A 64-bit floating-point number, kept as its bit pattern: no arithmetic is modelled. */
  datatype Float64 = Float64(bits: bv64)

  datatype Value = Value(value: Type)

  datatype Type =
    | Integer(i: Int32)
    | Long(l: Int64)
    | Boolean(b: bool)
    | String(s: string)
    | Double(d: Float64)
    | DateTime(t: DateTimes.DateTime)
    | Base64(bytes: seq<Byte>)
    | Struct(members: seq<Member>)
    | Array(data: ArrayData)
    | Nil

  datatype Member = Member(name: MemberName, value: Value)

  datatype MemberName = MemberName(name: string)

  /** The builder for the members of a struct value. */
  datatype Struct = Struct(members: seq<Member>)

  /** The builder for the elements of an array value. */
  datatype Array = Array(data: ArrayData)

  /** The `data` element of an array; absent on the wire, it stands for no elements. */
  datatype ArrayData = ArrayData(values: seq<Value>)

  const DefaultArrayData: ArrayData := ArrayData([])

  // Constructors of `Value`, one per variant; `Int` is the alias of `I4`.

  function New(t: Type): Value { Value(t) }
  function I4(n: Int32): Value { New(Integer(n)) }
  function Int(n: Int32): Value { I4(n) }
  function I8(n: Int64): Value { New(Long(n)) }
  function BooleanValue(b: bool): Value { New(Boolean(b)) }
  function StringValue(s: string): Value { New(String(s)) }
  function DoubleValue(d: Float64): Value { New(Double(d)) }
  function DateTimeValue(t: DateTimes.DateTime): Value { New(DateTime(t)) }
  function Base64Value(bytes: seq<Byte>): Value { New(Base64(bytes)) }
  function Structure(s: Struct): Value { New(Type.Struct(s.members)) }
  function ArrayValue(a: Array): Value { New(Type.Array(a.data)) }
  function NilValue(): Value { New(Nil) }

  function FromMembers(members: seq<Member>): Struct { Struct.Struct(members) }
  function NewMember(name: string, value: Value): Member { Member(MemberName(name), value) }
  function FromElements(values: seq<Value>): Array { Array.Array(ArrayData(values)) }

  /** The variant of a `Type`, without its payload. */
  datatype Kind = KInteger | KLong | KBoolean | KString | KDouble | KDateTime | KBase64 | KStruct | KArray | KNil

  function KindOf(t: Type): Kind {
    match t
    case Integer(_) => KInteger
    case Long(_) => KLong
    case Boolean(_) => KBoolean
    case String(_) => KString
    case Double(_) => KDouble
    case DateTime(_) => KDateTime
    case Base64(_) => KBase64
    case Struct(_) => KStruct
    case Array(_) => KArray
    case Nil => KNil
  }

  /** The element name a variant is written with. */
  function Tag(k: Kind): string {
    match k
    case KInteger => "i4"
    case KLong => "i8"
    case KBoolean => "boolean"
    case KString => "string"
    case KDouble => "double"
    case KDateTime => "dateTime.iso8601"
    case KBase64 => "base64"
    case KStruct => "struct"
    case KArray => "array"
    case KNil => "nil"
  }

  /** The variant an element name is read as; `int` is accepted as well as `i4`. */
  function KindOfTag(tag: string): Option<Kind> {
    if tag == "i4" || tag == "int" then Some(KInteger)
    else if tag == "i8" then Some(KLong)
    else if tag == "boolean" then Some(KBoolean)
    else if tag == "string" then Some(KString)
    else if tag == "double" then Some(KDouble)
    else if tag == "dateTime.iso8601" then Some(KDateTime)
    else if tag == "base64" then Some(KBase64)
    else if tag == "struct" then Some(KStruct)
    else if tag == "array" then Some(KArray)
    else if tag == "nil" then Some(KNil)
    else None
  }

  /** `int` and `i4` build the same value, an `Integer` holding the argument. */
  lemma IntIsI4(n: Int32)
    ensures Int(n) == I4(n)
    ensures I4(n).value == Integer(n) && KindOf(I4(n).value) == KInteger
  {
  }

  /** Every scalar constructor wraps its argument unchanged in its own variant. */
  lemma ScalarConstructors(l: Int64, b: bool, s: string, d: Float64, t: DateTimes.DateTime, bytes: seq<Byte>)
    ensures I8(l).value == Long(l) && KindOf(I8(l).value) == KLong
    ensures BooleanValue(b).value == Boolean(b) && KindOf(BooleanValue(b).value) == KBoolean
    ensures StringValue(s).value == String(s) && KindOf(StringValue(s).value) == KString
    ensures DoubleValue(d).value == Double(d) && KindOf(DoubleValue(d).value) == KDouble
    ensures DateTimeValue(t).value == DateTime(t) && KindOf(DateTimeValue(t).value) == KDateTime
    ensures Base64Value(bytes).value == Base64(bytes) && KindOf(Base64Value(bytes).value) == KBase64
    ensures NilValue().value == Nil && KindOf(NilValue().value) == KNil
  {
  }

  /** A struct value built from members holds exactly those members, in order; a member
      keeps its name and value. */
  lemma StructureFromMembers(members: seq<Member>, name: string, v: Value)
    ensures Structure(FromMembers(members)).value == Type.Struct(members)
    ensures |Structure(FromMembers(members)).value.members| == |members|
    ensures NewMember(name, v).name.name == name && NewMember(name, v).value == v
  {
  }

  /** An array value built from elements holds exactly those elements, in order. */
  lemma ArrayFromElements(values: seq<Value>)
    ensures ArrayValue(FromElements(values)).value == Type.Array(ArrayData(values))
    ensures ArrayValue(FromElements([])).value.data == DefaultArrayData
  {
  }

  /** Values are equal exactly when they have the same variant and equal payloads;
      in particular an `i4` is never an `i8` or a boolean with the same content. */
  lemma StructuralEquality(a: Int32, b: Int32, l: Int64, flag: bool)
    ensures I4(a) == I4(b) <==> a == b
    ensures I4(a) != I8(l)
    ensures I4(a) != BooleanValue(flag)
    ensures I4(42) != I8(42) && I4(1) != BooleanValue(true)
  {
  }

  /** Values of different variants are never equal. */
  lemma KindsSeparate(x: Value, y: Value)
    requires KindOf(x.value) != KindOf(y.value)
    ensures x != y
  {
  }

  /** Every variant has its own element name. */
  lemma TagsDistinct(j: Kind, k: Kind)
    requires j != k
    ensures Tag(j) != Tag(k)
  {
    match j
    case KInteger =>
    case KLong =>
    case KBoolean =>
    case KString =>
    case KDouble =>
    case KDateTime =>
    case KBase64 =>
    case KStruct =>
    case KArray =>
    case KNil =>
  }

  /** Reading a variant's element name gives that variant back. */
  lemma TagRoundTrip(k: Kind)
    ensures KindOfTag(Tag(k)) == Some(k)
  {
  }

  /** The only names that are read as a variant are its own tag and, for `Integer`,
      the alias `int`; `Integer` is always written `i4`. */
  lemma KindOfTagInverse(tag: string, k: Kind)
    ensures KindOfTag(tag) == Some(k) <==> tag == Tag(k) || (k == KInteger && tag == "int")
    ensures Tag(KInteger) == "i4" && Tag(KInteger) != "int"
  {
  }
}
