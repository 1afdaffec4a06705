/** The two method handlers the integration tests serve, and a call as the client makes
    it. A call writes its payload as an argument list with `ToParams`, the server hands
    that list to the handler, and the client reads the handler's reply with `FromDXR`
    at the call's result type. The transport between the two is not modelled: the
    argument list and the reply reach the other side unchanged. */
module Handlers {
  import opened Wrappers
  import opened Values
  import opened Conversion
  import opened ConversionLaws

  /** The fault a handler returns: the conversion error its `?` passes on. The server
      sends it back as a fault response. */
  datatype Fault = ConversionFault(error: Error)

  /** What running a handler gives: the reply or fault it returns, or a panic. A
      panicking handler returns nothing, so the server sends no response at all. */
  datatype Outcome =
    | Returned(result: Result<Value, Fault>)
    | Panicked

  /** Why a call fails: on the client's side, with a fault response from the server, or
      with no response because the handler panicked and the connection was dropped. */
  datatype CallError =
    | ClientError(error: Error)
    | ServerFault(fault: Fault)
    | NoResponse

  type Handler = seq<Value> -> Outcome

  /** An argument list seen as a native slice of plain values. */
  function ParamsSlice(params: seq<Value>): (x: Native)
    ensures x.NList? && x.shape == Slice && |x.elems| == |params|
    ensures forall i :: 0 <= i < |params| ==> x.elems[i] == NValue(params[i])
  {
    NList(Slice, seq(|params|, i requires 0 <= i < |params| => NValue(params[i])))
  }

  /** The echo handler: writes its whole argument list back as one value. That never
      fails, and the reply is the array of the arguments, in order. */
  function Echo(params: seq<Value>): (r: Outcome)
    ensures r == Returned(Ok(ArrayValue(FromElements(params))))
  {
    var x := ParamsSlice(params);
    ToDXRList(Slice, x.elems);
    assert ToDXRAll(x.elems).Ok? && ToDXRAll(x.elems).value == params;
    match ToDXR(x)
    case Err(e) => Returned(Err(ConversionFault(e)))
    case Ok(v) => Returned(Ok(v))
  }

  /** The adder: reads its arguments as a pair of 32-bit integers and replies with their
      sum. The sum is `i32` addition, whose overflow check makes the handler panic. */
  function Add(params: seq<Value>): (r: Outcome)
    ensures r.Returned? && r.result.Ok? <==>
      && |params| == 2 && params[0].value.Integer? && params[1].value.Integer?
      && InInt32(params[0].value.i + params[1].value.i)
    ensures r.Returned? && r.result.Ok? ==> r.result.value == I4(params[0].value.i + params[1].value.i)
    ensures r.Panicked? <==>
      && |params| == 2 && params[0].value.Integer? && params[1].value.Integer?
      && !InInt32(params[0].value.i + params[1].value.i)
    ensures |params| != 2 ==> r == Returned(Err(ConversionFault(ParamCount(2, |params|))))
    ensures |params| == 2 && !params[0].value.Integer? ==>
      r == Returned(Err(ConversionFault(WrongType(KInteger, KindOf(params[0].value)))))
    ensures |params| == 2 && params[0].value.Integer? && !params[1].value.Integer? ==>
      r == Returned(Err(ConversionFault(WrongType(KInteger, KindOf(params[1].value)))))
  {
    ReadIntPair(params);
    match FromParams(TTuple([TI32, TI32]), params)
    case Err(e) => Returned(Err(ConversionFault(e)))
    case Ok(pair) =>
      var sum := pair.elems[0].i + pair.elems[1].i;
      if InInt32(sum) then
        match ToDXR(NI32(sum))
        case Err(e) => Returned(Err(ConversionFault(e)))
        case Ok(v) => Returned(Ok(v))
      else Panicked
  }

  /** A call of `handler` with the payload `payload`, whose reply is read as `ret`. */
  function Call(handler: Handler, payload: Native, ret: NativeType): Result<Native, CallError> {
    match ToParams(payload)
    case Err(e) => Err(ClientError(e))
    case Ok(params) =>
      match handler(params)
      case Panicked => Err(NoResponse)
      case Returned(Err(f)) => Err(ServerFault(f))
      case Returned(Ok(reply)) =>
        match FromDXR(ret, reply)
        case Err(e) => Err(ClientError(e))
        case Ok(x) => Ok(x)
  }

  /** The argument list of a sequence whose every element is written. */
  lemma {:induction false} ParamsOf(s: Shape, es: seq<Native>, vs: seq<Value>)
    requires |es| == |vs| && forall i :: 0 <= i < |es| ==> ToDXR(es[i]) == Ok(vs[i])
    ensures ToParams(NList(s, es)) == Ok(vs)
  {
    assert ToParams(NList(s, es)) == ToDXRAll(es);
    assert ToDXRAll(es).value == vs;
  }

  /** Echoing a sequence of any shape and reading the reply as a tuple or a vector of
      the elements' types gives the elements back, as that tuple or vector. */
  lemma {:induction false} EchoRoundTrip(s: Shape, es: seq<Native>, ty: NativeType)
    requires ty.TTuple? || ty.TVec?
    requires HasType(NList(if ty.TTuple? then Tuple else Vec, es), ty) && RoundTrips(ty)
    requires AllXmlText(NList(s, es))
    ensures Call(Echo, NList(s, es), ty) == Ok(NList(if ty.TTuple? then Tuple else Vec, es))
  {
    var y := NList(if ty.TTuple? then Tuple else Vec, es);
    ToDXROkIff(NList(s, es));
    ParamsShape(s, es);
    ParamsShape(y.shape, es);
    var params := ToParams(NList(s, es)).value;
    FromParamsAsArray(ty, params);
    ParamsRoundTrip(y, ty);
  }

  /** A one-element tuple of any typed value survives the echo. */
  lemma {:induction false} EchoOne(x: Native, t: NativeType)
    requires HasType(x, t) && RoundTrips(t) && AllXmlText(x)
    ensures Call(Echo, NList(Tuple, [x]), TTuple([t])) == Ok(NList(Tuple, [x]))
  {
    assert HasType(NList(Tuple, [x]), TTuple([t]));
    assert AllXmlText(NList(Tuple, [x]));
    EchoRoundTrip(Tuple, [x], TTuple([t]));
  }

  /** The echo test's scalars, each sent as a one-element tuple, come back unchanged. */
  lemma EchoScalars(n: Int32, l: Int64, d: Float64, b: bool, s: string, t: DateTimes.DateTime, bytes: seq<Byte>)
    requires IsXmlText(s)
    ensures Call(Echo, NList(Tuple, [NI32(n)]), TTuple([TI32])) == Ok(NList(Tuple, [NI32(n)]))
    ensures Call(Echo, NList(Tuple, [NI64(l)]), TTuple([TI64])) == Ok(NList(Tuple, [NI64(l)]))
    ensures Call(Echo, NList(Tuple, [NF64(d)]), TTuple([TF64])) == Ok(NList(Tuple, [NF64(d)]))
    ensures Call(Echo, NList(Tuple, [NBool(b)]), TTuple([TBool])) == Ok(NList(Tuple, [NBool(b)]))
    ensures Call(Echo, NList(Tuple, [NString(s)]), TTuple([TString])) == Ok(NList(Tuple, [NString(s)]))
    ensures Call(Echo, NList(Tuple, [NDateTime(t)]), TTuple([TDateTime])) == Ok(NList(Tuple, [NDateTime(t)]))
    ensures Call(Echo, NList(Tuple, [NBytes(bytes)]), TTuple([TBytes])) == Ok(NList(Tuple, [NBytes(bytes)]))
  {
    EchoOne(NI32(n), TI32);
    EchoOne(NI64(l), TI64);
    EchoOne(NF64(d), TF64);
    EchoOne(NBool(b), TBool);
    EchoOne(NString(s), TString);
    EchoOne(NDateTime(t), TDateTime);
    EchoOne(NBytes(bytes), TBytes);
  }

  /** A slice of integers read back as a vector, and an optional integer, survive the
      echo. */
  lemma EchoListAndOption(es: seq<Int32>, n: Int32)
    ensures Call(Echo, NList(Slice, IntegersOf(es)), TVec(TI32)) == Ok(NList(Vec, IntegersOf(es)))
    ensures Call(Echo, NList(Tuple, [NOption(Some(NI32(n)))]), TTuple([TOption(TI32)]))
      == Ok(NList(Tuple, [NOption(Some(NI32(n)))]))
  {
    var xs := IntegersOf(es);
    assert HasType(NList(Vec, xs), TVec(TI32));
    assert AllXmlText(NList(Slice, xs));
    EchoRoundTrip(Slice, xs, TVec(TI32));
    EchoOne(NOption(Some(NI32(n))), TOption(TI32));
  }

  function IntegersOf(es: seq<Int32>): (xs: seq<Native>)
    ensures |xs| == |es| && forall i :: 0 <= i < |es| ==> xs[i] == NI32(es[i])
  {
    seq(|es|, i requires 0 <= i < |es| => NI32(es[i]))
  }

  /** A map of plain values under two distinct keys survives the echo. */
  lemma EchoMap(foo: string, bar: string, a: Value, b: Value)
    requires foo != bar
    ensures Call(Echo, NList(Tuple, [NMap([(foo, NValue(a)), (bar, NValue(b))])]), TTuple([TMap(TValue)]))
      == Ok(NList(Tuple, [NMap([(foo, NValue(a)), (bar, NValue(b))])]))
  {
    var m := NMap([(foo, NValue(a)), (bar, NValue(b))]);
    assert HasType(m, TMap(TValue));
    EchoOne(m, TMap(TValue));
  }

  /** Tuples of integers, from pairs to octuples, survive the echo. */
  lemma EchoTuples(es: seq<Int32>)
    requires 2 <= |es| <= 8
    ensures Call(Echo, NList(Tuple, IntegersOf(es)), TTuple(seq(|es|, i => TI32))) == Ok(NList(Tuple, IntegersOf(es)))
  {
    var ts := seq(|es|, i => TI32);
    var xs := IntegersOf(es);
    assert forall i :: 0 <= i < |es| ==> ts[i] == TI32 && HasType(xs[i], ts[i]);
    assert HasType(NList(Tuple, xs), TTuple(ts));
    assert AllXmlText(NList(Tuple, xs));
    EchoRoundTrip(Tuple, xs, TTuple(ts));
  }

  /** An integer echoed back and read as a string is a wrong-type error on the client. */
  lemma EchoWrongType(n: Int32)
    ensures Call(Echo, NList(Tuple, [NI32(n)]), TTuple([TString])) == Err(ClientError(WrongType(KString, KInteger)))
  {
    var ps := [I4(n)];
    ParamsOf(Tuple, [NI32(n)], ps);
    var rs := seq(1, i requires 0 <= i < 1 => FromDXR(TString, ps[i]));
    CollectFirstErr(rs, 0);
    assert FromDXR(TTuple([TString]), ArrayValue(FromElements(ps))) == Err(WrongType(KString, KInteger));
  }

  /** Two integers echoed back and read as a triple is a parameter-count error on the
      client. */
  lemma EchoParamCount(a: Int32, b: Int32)
    ensures Call(Echo, NList(Vec, [NI32(a), NI32(b)]), TTuple([TI32, TI32, TI32]))
      == Err(ClientError(ParamCount(3, 2)))
  {
    var ps := [I4(a), I4(b)];
    ParamsOf(Vec, [NI32(a), NI32(b)], ps);
    assert FromDXR(TTuple([TI32, TI32, TI32]), ArrayValue(FromElements(ps))) == Err(ParamCount(3, 2));
  }

  /** The adder sums two integers sent as a tuple, a vector, a fixed array or a slice. */
  lemma AddAnyShape(s: Shape)
    ensures Call(Add, NList(s, [NI32(2), NI32(3)]), TI32) == Ok(NI32(5))
  {
    AddCall(s, 2, 3);
  }

  /** Three arguments are refused by the adder for their number. */
  lemma AddArity(a: Int32, b: Int32, c: Int32)
    ensures Call(Add, NList(Tuple, [NI32(a), NI32(b), NI32(c)]), TI32)
      == Err(ServerFault(ConversionFault(ParamCount(2, 3))))
  {
    ParamsOf(Tuple, [NI32(a), NI32(b), NI32(c)], [I4(a), I4(b), I4(c)]);
  }

  /** Two strings are refused by the adder for their type. */
  lemma AddStrings(s: string, t: string)
    requires IsXmlText(s) && IsXmlText(t)
    ensures Call(Add, NList(Tuple, [NString(s), NString(t)]), TI32)
      == Err(ServerFault(ConversionFault(WrongType(KInteger, KString))))
  {
    ToDXRString(s);
    ToDXRString(t);
    ParamsOf(Tuple, [NString(s), NString(t)], [StringValue(s), StringValue(t)]);
  }

  /** A call of the adder with two 32-bit integers gives their sum when it fits in 32
      bits; otherwise the handler panics and no response comes back. */
  lemma AddCall(s: Shape, a: Int32, b: Int32)
    ensures InInt32(a + b) ==> Call(Add, NList(s, [NI32(a), NI32(b)]), TI32) == Ok(NI32(a + b))
    ensures !InInt32(a + b) ==> Call(Add, NList(s, [NI32(a), NI32(b)]), TI32) == Err(NoResponse)
  {
    ParamsOf(s, [NI32(a), NI32(b)], [I4(a), I4(b)]);
  }
}
