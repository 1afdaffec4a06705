/** Conversion between native values and XML-RPC values.

    `ToDXR` turns one native value into one `Value`; `FromDXR` reads a `Value` as a
    native value of a given type; `ToParams` turns a native value into the argument list
    of a call, where a tuple or a sequence gives one argument per element and anything
    else gives one argument; `FromParams` reads an argument list as a native value,
    checking the arity before any element.

    Native values form a closed datatype (`Native`), and the types a value can be read
    as form another (`NativeType`): which Rust type a conversion targets is, in Rust,
    the static type of the call. */
module Conversion {
  import opened Wrappers
  import opened Values
  import DateTimes

  /** How a native sequence is held. Only tuples and vectors are targets of a read. */
  datatype Shape = Tuple | Vec | FixedArray | Slice

  datatype Native =
    | NI32(i: Int32)
    | NI64(l: Int64)
    | NBool(b: bool)
    | NString(s: string)
    | NF64(d: Float64)
    | NDateTime(t: DateTimes.DateTime)
    | NBytes(bytes: seq<Byte>)
    | NOption(opt: Option<Native>)
    /** A string-keyed map, its entries in iteration order. */
    | NMap(entries: seq<(string, Native)>)
    /** A user-defined struct, its fields in declaration order. */
    | NStruct(fields: seq<(string, Native)>)
    | NList(shape: Shape, elems: seq<Native>)
    /** A `Value` held as it is. */
    | NValue(v: Value)

  datatype NativeType =
    | TI32 | TI64 | TBool | TString | TF64 | TDateTime | TBytes
    | TOption(inner: NativeType)
    | TMap(elem: NativeType)
    | TStruct(fieldTypes: seq<(string, NativeType)>)
    | TVec(elem: NativeType)
    | TTuple(elemTypes: seq<NativeType>)
    | TValue

  datatype Error =
    | WrongType(expected: Kind, found: Kind)
    | MissingField(name: string)
    | ParamCount(arity: nat, given: nat)
    | Unrepresentable(text: string)

  /** A character XML 1.0 allows in a document (its `Char` production).

      How a string is escaped when it is written is not part of this model; a string is
      taken to be representable when every character is one XML text can carry at all.
      This is the model's stand-in for the condition under which writing a string
      fails, not a rule stated by the library. */
  predicate IsXmlChar(c: char) {
    c == '\t' || c == '\n' || c == '\r'
    || (' ' <= c <= '\U{D7FF}') || ('\U{E000}' <= c <= '\U{FFFD}') || '\U{10000}' <= c
  }

  /** A string that XML text can carry. */
  predicate IsXmlText(s: string) {
    forall i :: 0 <= i < |s| ==> IsXmlChar(s[i])
  }

  function Names<T>(entries: seq<(string, T)>): seq<string> {
    seq(|entries|, i requires 0 <= i < |entries| => entries[i].0)
  }

  predicate DistinctNames<T>(entries: seq<(string, T)>) {
    forall i, j :: 0 <= i < j < |entries| ==> entries[i].0 != entries[j].0
  }

  /** The members of a struct value: one per name, in order. */
  function MembersOf(names: seq<string>, values: seq<Value>): (ms: seq<Member>)
    requires |names| == |values|
    ensures |ms| == |names|
    ensures forall i :: 0 <= i < |ms| ==> ms[i] == NewMember(names[i], values[i])
  {
    seq(|names|, i requires 0 <= i < |names| => NewMember(names[i], values[i]))
  }

  /** `x` is a value of the native type `ty`. Map keys and struct field names are distinct. */
  predicate HasType(x: Native, ty: NativeType)
    decreases x
  {
    match ty
    case TI32 => x.NI32?
    case TI64 => x.NI64?
    case TBool => x.NBool?
    case TString => x.NString?
    case TF64 => x.NF64?
    case TDateTime => x.NDateTime?
    case TBytes => x.NBytes?
    case TOption(t) => x.NOption? && (x.opt.Some? ==> HasType(x.opt.value, t))
    case TMap(t) =>
      x.NMap? && DistinctNames(x.entries) && forall i :: 0 <= i < |x.entries| ==> HasType(x.entries[i].1, t)
    case TStruct(fts) =>
      && x.NStruct? && |x.fields| == |fts| && DistinctNames(fts)
      && forall i :: 0 <= i < |fts| ==> x.fields[i].0 == fts[i].0 && HasType(x.fields[i].1, fts[i].1)
    case TVec(t) => x.NList? && x.shape == Vec && forall i :: 0 <= i < |x.elems| ==> HasType(x.elems[i], t)
    case TTuple(ts) =>
      x.NList? && x.shape == Tuple && |x.elems| == |ts| && forall i :: 0 <= i < |ts| ==> HasType(x.elems[i], ts[i])
    case TValue => x.NValue?
  }

  /** No option in `ty` holds something that can itself be written as `Nil` (another
      option, or a plain `Value`): `Some(None)` and `None` would be written alike. */
  predicate RoundTrips(ty: NativeType)
    decreases ty
  {
    match ty
    case TOption(t) => !t.TOption? && !t.TValue? && RoundTrips(t)
    case TMap(t) => RoundTrips(t)
    case TStruct(fts) => forall i :: 0 <= i < |fts| ==> RoundTrips(fts[i].1)
    case TVec(t) => RoundTrips(t)
    case TTuple(ts) => forall i :: 0 <= i < |ts| ==> RoundTrips(ts[i])
    case _ => true
  }

  /** Every string value in `x` is one XML text can carry. Map keys and struct field
      names are not checked: they become member names through `Member::new` as they
      are, and are not written through `ToDXR`. */
  predicate AllXmlText(x: Native)
    decreases x
  {
    match x
    case NString(s) => IsXmlText(s)
    case NOption(opt) => opt.Some? ==> AllXmlText(opt.value)
    case NMap(entries) => forall i :: 0 <= i < |entries| ==> AllXmlText(entries[i].1)
    case NStruct(fields) => forall i :: 0 <= i < |fields| ==> AllXmlText(fields[i].1)
    case NList(_, elems) => forall i :: 0 <= i < |elems| ==> AllXmlText(elems[i])
    case _ => true
  }

  /** The XML-RPC value of a native value; only a string that XML cannot carry fails. */
  function ToDXR(x: Native): (r: Result<Value, Error>)
    ensures r.Err? ==> r.error.Unrepresentable?
    decreases x
  {
    match x
    case NI32(n) => Ok(I4(n))
    case NI64(n) => Ok(I8(n))
    case NBool(b) => Ok(BooleanValue(b))
    case NString(s) => if IsXmlText(s) then Ok(StringValue(s)) else Err(Unrepresentable(s))
    case NF64(d) => Ok(DoubleValue(d))
    case NDateTime(t) => Ok(DateTimeValue(t))
    case NBytes(bytes) => Ok(Base64Value(bytes))
    case NOption(opt) => if opt.None? then Ok(NilValue()) else ToDXR(opt.value)
    case NMap(entries) =>
      (match Collect(seq(|entries|, i requires 0 <= i < |entries| => ToDXR(entries[i].1)))
       case Err(e) => Err(e)
       case Ok(vs) => Ok(Structure(FromMembers(MembersOf(Names(entries), vs)))))
    case NStruct(fields) =>
      (match Collect(seq(|fields|, i requires 0 <= i < |fields| => ToDXR(fields[i].1)))
       case Err(e) => Err(e)
       case Ok(vs) => Ok(Structure(FromMembers(MembersOf(Names(fields), vs)))))
    case NList(_, elems) =>
      (match Collect(seq(|elems|, i requires 0 <= i < |elems| => ToDXR(elems[i])))
       case Err(e) => Err(e)
       case Ok(vs) => Ok(ArrayValue(FromElements(vs))))
    case NValue(v) => Ok(v)
  }

  function MemberNames(members: seq<Member>): (names: seq<string>)
    ensures |names| == |members|
    ensures forall i :: 0 <= i < |members| ==> names[i] == members[i].name.name
  {
    seq(|members|, i requires 0 <= i < |members| => members[i].name.name)
  }

  /** The value of the last member called `name`. */
  function Lookup(members: seq<Member>, name: string): (r: Option<Value>)
    ensures r.None? <==> forall i :: 0 <= i < |members| ==> members[i].name.name != name
    ensures r.Some? ==> exists i :: (0 <= i < |members| && members[i].name.name == name
      && members[i].value == r.value && forall j :: i < j < |members| ==> members[j].name.name != name)
  {
    if |members| == 0 then None
    else if members[|members| - 1].name.name == name then Some(members[|members| - 1].value)
    else Lookup(members[..|members| - 1], name)
  }

  /** `entries` with `name` mapped to `x`: an existing entry is replaced where it stands,
      a new one goes last (the behaviour of inserting into a map). */
  function Insert(entries: seq<(string, Native)>, name: string, x: Native): (r: seq<(string, Native)>)
    ensures (name, x) in r
    ensures forall e :: e in entries && e.0 != name ==> e in r
    ensures (forall e :: e in entries ==> e.0 != name) ==> r == entries + [(name, x)]
  {
    if |entries| == 0 then [(name, x)]
    else if entries[0].0 == name then [(name, x)] + entries[1..]
    else [entries[0]] + Insert(entries[1..], name, x)
  }

  /** Inserts the pairs of `names` and `xs` in order, later pairs winning. */
  function InsertAll(entries: seq<(string, Native)>, names: seq<string>, xs: seq<Native>): seq<(string, Native)>
    requires |names| == |xs|
    decreases |names|
  {
    if |names| == 0 then entries
    else InsertAll(Insert(entries, names[0], xs[0]), names[1..], xs[1..])
  }

  /** The variant a value must have to be read as `ty`; every target but an option
      (which also takes `Nil`) and a plain `Value` (which takes anything) needs one. */
  function Expected(ty: NativeType): Kind
    requires !ty.TOption? && !ty.TValue?
  {
    match ty
    case TI32 => KInteger
    case TI64 => KLong
    case TBool => KBoolean
    case TString => KString
    case TF64 => KDouble
    case TDateTime => KDateTime
    case TBytes => KBase64
    case TMap(_) => KStruct
    case TStruct(_) => KStruct
    case TVec(_) => KArray
    case TTuple(_) => KArray
  }

  /** The native value of type `ty` that `v` holds. */
  function FromDXR(ty: NativeType, v: Value): Result<Native, Error>
    decreases ty, 1
  {
    if ty.TValue? then Ok(NValue(v))
    else if ty.TOption? then
      if v.value.Nil? then Ok(NOption(None))
      else match FromDXR(ty.inner, v)
        case Err(e) => Err(e)
        case Ok(x) => Ok(NOption(Some(x)))
    else if KindOf(v.value) != Expected(ty) then Err(WrongType(Expected(ty), KindOf(v.value)))
    else match ty
      case TI32 => Ok(NI32(v.value.i))
      case TI64 => Ok(NI64(v.value.l))
      case TBool => Ok(NBool(v.value.b))
      case TString => Ok(NString(v.value.s))
      case TF64 => Ok(NF64(v.value.d))
      case TDateTime => Ok(NDateTime(v.value.t))
      case TBytes => Ok(NBytes(v.value.bytes))
      case TMap(t) => ReadMap(t, v.value.members)
      case TStruct(fts) => ReadStruct(fts, v.value.members)
      case TVec(t) => ReadVec(t, v.value.data.values)
      case TTuple(ts) => ReadTuple(ts, v.value.data.values)
  }

  /** A map from the members of a struct value, each value read as `t`. */
  function ReadMap(t: NativeType, ms: seq<Member>): Result<Native, Error>
    decreases TMap(t), 0
  {
    match Collect(seq(|ms|, i requires 0 <= i < |ms| => FromDXR(t, ms[i].value)))
    case Err(e) => Err(e)
    case Ok(xs) => Ok(NMap(InsertAll([], MemberNames(ms), xs)))
  }

  /** A struct whose every field is read from the member of its name. */
  function ReadStruct(fts: seq<(string, NativeType)>, ms: seq<Member>): Result<Native, Error>
    decreases TStruct(fts), 0
  {
    match Collect(seq(|fts|, i requires 0 <= i < |fts| => ReadField(fts[i].0, fts[i].1, ms)))
    case Err(e) => Err(e)
    case Ok(xs) => Ok(NStruct(seq(|fts|, i requires 0 <= i < |fts| => (fts[i].0, xs[i]))))
  }

  /** One field of a struct: the member called `name`, read as `t`. */
  function ReadField(name: string, t: NativeType, ms: seq<Member>): Result<Native, Error>
    decreases t, 2
  {
    match Lookup(ms, name)
    case None => Err(MissingField(name))
    case Some(v) => FromDXR(t, v)
  }

  /** A vector of any length, each element read as `t`. */
  function ReadVec(t: NativeType, vs: seq<Value>): Result<Native, Error>
    decreases TVec(t), 0
  {
    match Collect(seq(|vs|, i requires 0 <= i < |vs| => FromDXR(t, vs[i])))
    case Err(e) => Err(e)
    case Ok(xs) => Ok(NList(Vec, xs))
  }

  /** A tuple: the number of values is checked before any of them is read. */
  function ReadTuple(ts: seq<NativeType>, vs: seq<Value>): Result<Native, Error>
    decreases TTuple(ts), 0
  {
    if |vs| != |ts| then Err(ParamCount(|ts|, |vs|))
    else match Collect(seq(|ts|, i requires 0 <= i < |ts| => FromDXR(ts[i], vs[i])))
      case Err(e) => Err(e)
      case Ok(xs) => Ok(NList(Tuple, xs))
  }

  /** The values of `xs`, in order, or the first failure. */
  function ToDXRAll(xs: seq<Native>): (r: Result<seq<Value>, Error>)
    ensures r.Ok? <==> forall i :: 0 <= i < |xs| ==> ToDXR(xs[i]).Ok?
    ensures r.Ok? ==> |r.value| == |xs| && forall i :: 0 <= i < |xs| ==> r.value[i] == ToDXR(xs[i]).value
    ensures r.Err? ==> r.error.Unrepresentable?
  {
    var rs := seq(|xs|, i requires 0 <= i < |xs| => ToDXR(xs[i]));
    assert forall i :: 0 <= i < |xs| ==> rs[i] == ToDXR(xs[i]);
    Collect(rs)
  }

  /** The argument list of a call whose payload is `x`. */
  function ToParams(x: Native): (r: Result<seq<Value>, Error>)
    ensures x.NList? ==>
      && (r.Ok? <==> forall i :: 0 <= i < |x.elems| ==> ToDXR(x.elems[i]).Ok?)
      && (r.Ok? ==> |r.value| == |x.elems| && forall i :: 0 <= i < |x.elems| ==> r.value[i] == ToDXR(x.elems[i]).value)
    ensures !x.NList? ==> (r.Ok? <==> ToDXR(x).Ok?) && (r.Ok? ==> r.value == [ToDXR(x).value])
    ensures r.Err? ==> r.error.Unrepresentable?
  {
    match x
    case NList(_, elems) => ToDXRAll(elems)
    case _ =>
      match ToDXR(x)
      case Err(e) => Err(e)
      case Ok(v) => Ok([v])
  }

  /** The native value of type `ty` that an argument list holds: a tuple needs exactly
      its arity, a vector takes any number, anything else exactly one argument. */
  function FromParams(ty: NativeType, params: seq<Value>): Result<Native, Error> {
    match ty
    case TTuple(ts) => ReadTuple(ts, params)
    case TVec(t) => ReadVec(t, params)
    case _ => if |params| != 1 then Err(ParamCount(1, |params|)) else FromDXR(ty, params[0])
  }
}
