/** What the conversions promise: writing fails only on strings XML cannot carry,
    reading checks the variant first and the arity before any element, a typed value
    survives being written and read back, and an argument list is the same whatever
    shape of sequence it was built from. */
module ConversionLaws {
  import opened Wrappers
  import opened Values
  import opened Conversion

  function EntryValues<T>(entries: seq<(string, T)>): seq<T> {
    seq(|entries|, i requires 0 <= i < |entries| => entries[i].1)
  }

  // ---------------------------------------------------------------- writing

  /** Writing a native value fails exactly when one of its strings is not XML text. */
  lemma {:induction false} ToDXROkIff(x: Native)
    ensures ToDXR(x).Ok? <==> AllXmlText(x)
    decreases x
  {
    match x
    case NOption(opt) =>
      if opt.Some? { ToDXROkIff(opt.value); }
    case NMap(es) =>
      forall i | 0 <= i < |es| ensures ToDXR(es[i].1).Ok? <==> AllXmlText(es[i].1) {
        ToDXROkIff(es[i].1);
      }
      EntriesOkIff(es, x);
    case NStruct(fs) =>
      forall i | 0 <= i < |fs| ensures ToDXR(fs[i].1).Ok? <==> AllXmlText(fs[i].1) {
        ToDXROkIff(fs[i].1);
      }
      EntriesOkIff(fs, x);
    case NList(s, es) =>
      forall i | 0 <= i < |es| ensures ToDXR(es[i]).Ok? <==> AllXmlText(es[i]) {
        ToDXROkIff(es[i]);
      }
      ToDXRList(s, es);
    case _ =>
  }

  lemma {:induction false} EntriesOkIff(es: seq<(string, Native)>, x: Native)
    requires x == NMap(es) || x == NStruct(es)
    requires forall i :: 0 <= i < |es| ==> (ToDXR(es[i].1).Ok? <==> AllXmlText(es[i].1))
    ensures ToDXR(x).Ok? <==> AllXmlText(x)
  {
    ToDXRMembers(es);
    assert forall i :: 0 <= i < |es| ==> EntryValues(es)[i] == es[i].1;
  }

  /** Numbers, booleans, dates, bytes and plain values are always written, each in the
      variant of its own type; `None` is written as `Nil`. */
  lemma {:induction false} ToDXRScalars(n: Int32, l: Int64, b: bool, d: Float64, t: DateTimes.DateTime, bytes: seq<Byte>, v: Value)
    ensures ToDXR(NI32(n)) == Ok(I4(n)) && ToDXR(NI64(l)) == Ok(I8(l))
    ensures ToDXR(NBool(b)) == Ok(BooleanValue(b)) && ToDXR(NF64(d)) == Ok(DoubleValue(d))
    ensures ToDXR(NDateTime(t)) == Ok(DateTimeValue(t)) && ToDXR(NBytes(bytes)) == Ok(Base64Value(bytes))
    ensures ToDXR(NValue(v)) == Ok(v) && ToDXR(NOption(None)) == Ok(NilValue())
  {
  }

  /** A string is written as itself when XML can carry it, and is refused, naming it,
      when it cannot. */
  lemma {:induction false} ToDXRString(s: string)
    ensures IsXmlText(s) ==> ToDXR(NString(s)) == Ok(StringValue(s))
    ensures !IsXmlText(s) ==> ToDXR(NString(s)) == Err(Unrepresentable(s))
    ensures ToDXR(NString("HELLO WORLD")).Ok?
  {
  }

  /** A value that is neither an option nor a plain `Value` is never written as `Nil`. */
  lemma {:induction false} NeverNil(x: Native)
    requires !x.NOption? && !x.NValue? && ToDXR(x).Ok?
    ensures !ToDXR(x).value.value.Nil?
  {
  }

  // ---------------------------------------------------------------- reading

  /** A target other than an option or a plain `Value` accepts exactly one variant and
      reports any other as a type mismatch naming both; for a scalar target the variant
      is all that is checked. */
  lemma {:induction false} FromDXRWrongType(ty: NativeType, v: Value)
    requires !ty.TOption? && !ty.TValue?
    ensures KindOf(v.value) != Expected(ty) ==> FromDXR(ty, v) == Err(WrongType(Expected(ty), KindOf(v.value)))
    ensures FromDXR(ty, v).Ok? ==> KindOf(v.value) == Expected(ty)
    ensures !ty.TMap? && !ty.TStruct? && !ty.TVec? && !ty.TTuple? ==>
      (FromDXR(ty, v).Ok? <==> KindOf(v.value) == Expected(ty))
  {
  }

  /** An option reads `Nil` as `None`, and anything else as `Some` of what its inner
      type reads, failing as that does. */
  lemma {:induction false} FromDXROption(t: NativeType, v: Value)
    ensures v.value.Nil? ==> FromDXR(TOption(t), v) == Ok(NOption(None))
    ensures !v.value.Nil? && FromDXR(t, v).Ok? ==> FromDXR(TOption(t), v) == Ok(NOption(Some(FromDXR(t, v).value)))
    ensures !v.value.Nil? && FromDXR(t, v).Err? ==> FromDXR(TOption(t), v) == Err(FromDXR(t, v).error)
  {
  }

  /** A member list without repeated names gives each name its own value. */
  lemma {:induction false} LookupDistinct(ms: seq<Member>, i: nat)
    requires i < |ms|
    requires forall j, k :: 0 <= j < k < |ms| ==> ms[j].name.name != ms[k].name.name
    ensures Lookup(ms, ms[i].name.name) == Some(ms[i].value)
  {
  }

  /** A struct target reports the first of its fields that no member names. */
  lemma {:induction false} FromDXRMissingField(fts: seq<(string, NativeType)>, ms: seq<Member>, k: nat)
    requires k < |fts|
    requires forall i :: 0 <= i < |ms| ==> ms[i].name.name != fts[k].0
    requires forall j :: 0 <= j < k ==> ReadField(fts[j].0, fts[j].1, ms).Ok?
    ensures ReadStruct(fts, ms) == Err(MissingField(fts[k].0))
  {
    CollectFirstErr(seq(|fts|, i requires 0 <= i < |fts| => ReadField(fts[i].0, fts[i].1, ms)), k);
  }

  /** `Insert` adds nothing but the new pair: every other entry of the result was there. */
  lemma {:induction false} InsertOnly(entries: seq<(string, Native)>, name: string, x: Native, e: (string, Native))
    requires DistinctNames(entries) && e in Insert(entries, name, x)
    ensures e == (name, x) || (e in entries && e.0 != name)
    decreases |entries|
  {
    if |entries| > 0 && e != (name, x) {
      var r := Insert(entries, name, x);
      var k :| 0 <= k < |r| && r[k] == e;
      if entries[0].0 == name {
        assert e == entries[k] && k > 0;
      } else if k > 0 {
        var tail := entries[1..];
        assert e in Insert(tail, name, x);
        InsertOnly(tail, name, x, e);
        var j :| 0 <= j < |tail| && tail[j] == e;
        assert entries[j + 1] == e;
      }
    }
  }

  /** `Insert` brings in no name but its own. */
  lemma {:induction false} InsertAvoids(entries: seq<(string, Native)>, name: string, x: Native, n: string)
    requires n != name && forall k :: 0 <= k < |entries| ==> entries[k].0 != n
    ensures forall k :: 0 <= k < |Insert(entries, name, x)| ==> Insert(entries, name, x)[k].0 != n
    decreases |entries|
  {
    if |entries| > 0 && entries[0].0 != name {
      var tail := entries[1..];
      assert forall k :: 0 <= k < |tail| ==> tail[k] == entries[k + 1];
      InsertAvoids(tail, name, x, n);
    }
  }

  /** Into entries with distinct names, `Insert` keeps the names distinct. */
  lemma {:induction false} InsertDistinct(entries: seq<(string, Native)>, name: string, x: Native)
    requires DistinctNames(entries)
    ensures DistinctNames(Insert(entries, name, x))
    decreases |entries|
  {
    if |entries| > 0 {
      var tail := entries[1..];
      assert forall k :: 0 <= k < |tail| ==> tail[k] == entries[k + 1];
      if entries[0].0 == name {
        DistinctCons((name, x), tail);
      } else {
        InsertDistinct(tail, name, x);
        InsertAvoids(tail, name, x, entries[0].0);
        DistinctCons(entries[0], Insert(tail, name, x));
      }
    }
  }

  lemma DistinctCons(head: (string, Native), tail: seq<(string, Native)>)
    requires DistinctNames(tail)
    requires forall k :: 0 <= k < |tail| ==> tail[k].0 != head.0
    ensures DistinctNames([head] + tail)
  {
    var r := [head] + tail;
    forall i, j | 0 <= i < j < |r| ensures r[i].0 != r[j].0 {
      assert r[j] == tail[j - 1];
      if i > 0 {
        assert r[i] == tail[i - 1];
      }
    }
  }

  /** Into entries with distinct names, `Insert` replaces the entry of that name, if
      any, and keeps the names distinct. */
  lemma {:induction false} InsertReplaces(entries: seq<(string, Native)>, name: string, x: Native)
    requires DistinctNames(entries)
    ensures forall e :: e in Insert(entries, name, x) ==> e == (name, x) || (e in entries && e.0 != name)
    ensures DistinctNames(Insert(entries, name, x))
  {
    forall e | e in Insert(entries, name, x) ensures e == (name, x) || (e in entries && e.0 != name) {
      InsertOnly(entries, name, x, e);
    }
    InsertDistinct(entries, name, x);
  }

  /** Entries whose names are all new are appended in order. */
  lemma {:induction false} InsertAllFresh(acc: seq<(string, Native)>, es: seq<(string, Native)>)
    requires DistinctNames(acc + es)
    ensures InsertAll(acc, Names(es), EntryValues(es)) == acc + es
    decreases |es|
  {
    if |es| > 0 {
      var all := acc + es;
      forall e | e in acc ensures e.0 != es[0].0 {
        var k :| 0 <= k < |acc| && acc[k] == e;
        assert all[k] == e && all[|acc|] == es[0];
      }
      assert Insert(acc, es[0].0, es[0].1) == acc + [es[0]];
      assert (acc + [es[0]]) + es[1..] == all;
      assert Names(es)[1..] == Names(es[1..]);
      assert EntryValues(es)[1..] == EntryValues(es[1..]);
      InsertAllFresh(acc + [es[0]], es[1..]);
    }
  }

  /** Inserting keeps names distinct. */
  lemma {:induction false} InsertAllDistinct(acc: seq<(string, Native)>, names: seq<string>, xs: seq<Native>)
    requires |names| == |xs| && DistinctNames(acc)
    ensures DistinctNames(InsertAll(acc, names, xs))
    decreases |names|
  {
    if |names| > 0 {
      InsertReplaces(acc, names[0], xs[0]);
      InsertAllDistinct(Insert(acc, names[0], xs[0]), names[1..], xs[1..]);
    }
  }

  /** An entry whose name is never inserted again stays. */
  lemma {:induction false} InsertAllKeeps(acc: seq<(string, Native)>, names: seq<string>, xs: seq<Native>, e: (string, Native))
    requires |names| == |xs| && DistinctNames(acc) && e in acc
    requires forall j :: 0 <= j < |names| ==> names[j] != e.0
    ensures e in InsertAll(acc, names, xs)
    decreases |names|
  {
    if |names| > 0 {
      InsertReplaces(acc, names[0], xs[0]);
      InsertAllKeeps(Insert(acc, names[0], xs[0]), names[1..], xs[1..], e);
    }
  }

  /** The last pair inserted under a name is the one the result holds. */
  lemma {:induction false} InsertAllLastWins(acc: seq<(string, Native)>, names: seq<string>, xs: seq<Native>, i: nat)
    requires |names| == |xs| && DistinctNames(acc) && i < |names|
    requires forall j :: i < j < |names| ==> names[j] != names[i]
    ensures (names[i], xs[i]) in InsertAll(acc, names, xs)
    decreases |names|
  {
    var next := Insert(acc, names[0], xs[0]);
    InsertReplaces(acc, names[0], xs[0]);
    if i == 0 {
      InsertAllKeeps(next, names[1..], xs[1..], (names[0], xs[0]));
    } else {
      InsertAllLastWins(next, names[1..], xs[1..], i - 1);
    }
  }

  /** Every entry of the result was already there or is one of the inserted pairs. */
  lemma {:induction false} InsertAllOnly(acc: seq<(string, Native)>, names: seq<string>, xs: seq<Native>, e: (string, Native))
    requires |names| == |xs| && DistinctNames(acc) && e in InsertAll(acc, names, xs)
    ensures e in acc || exists i :: 0 <= i < |names| && e == (names[i], xs[i])
    decreases |names|
  {
    if |names| > 0 {
      var next := Insert(acc, names[0], xs[0]);
      InsertReplaces(acc, names[0], xs[0]);
      InsertAllOnly(next, names[1..], xs[1..], e);
      if e !in next {
        var i :| 0 <= i < |names[1..]| && e == (names[1..][i], xs[1..][i]);
        assert e == (names[i + 1], xs[i + 1]);
      } else if e == (names[0], xs[0]) {
      }
    }
  }

  /** The values of the members, each read as `t`. */
  function ReadValues(t: NativeType, ms: seq<Member>): (xs: seq<Native>)
    requires forall i :: 0 <= i < |ms| ==> FromDXR(t, ms[i].value).Ok?
    ensures |xs| == |ms| && forall i :: 0 <= i < |ms| ==> Ok(xs[i]) == FromDXR(t, ms[i].value)
  {
    seq(|ms|, i requires 0 <= i < |ms| => FromDXR(t, ms[i].value).value)
  }

  /** A map is read by reading every member, then inserting the pairs in order. */
  lemma {:induction false} ReadMapInserts(t: NativeType, ms: seq<Member>, es: seq<(string, Native)>)
    requires ReadMap(t, ms) == Ok(NMap(es))
    ensures forall i :: 0 <= i < |ms| ==> FromDXR(t, ms[i].value).Ok?
    ensures es == InsertAll([], MemberNames(ms), ReadValues(t, ms))
  {
    var rs := seq(|ms|, i requires 0 <= i < |ms| => FromDXR(t, ms[i].value));
    assert forall i :: 0 <= i < |ms| ==> rs[i] == FromDXR(t, ms[i].value);
    assert Collect(rs).value == ReadValues(t, ms);
  }

  /** Reading a struct value as a map: the keys are distinct, and every entry comes
      from a member of that name. */
  lemma {:induction false} ReadMapEntries(t: NativeType, ms: seq<Member>, es: seq<(string, Native)>)
    requires ReadMap(t, ms) == Ok(NMap(es))
    ensures DistinctNames(es)
    ensures forall e :: e in es ==>
      exists i :: 0 <= i < |ms| && e.0 == ms[i].name.name && FromDXR(t, ms[i].value) == Ok(e.1)
  {
    ReadMapInserts(t, ms, es);
    var names := MemberNames(ms);
    var xs := ReadValues(t, ms);
    InsertAllDistinct([], names, xs);
    forall e | e in es
      ensures exists i :: 0 <= i < |ms| && e.0 == ms[i].name.name && FromDXR(t, ms[i].value) == Ok(e.1)
    {
      InsertAllOnly([], names, xs, e);
    }
  }

  /** Reading a struct value as a map: a name repeated among the members takes the
      value of its last member. */
  lemma {:induction false} ReadMapLastWins(t: NativeType, ms: seq<Member>, es: seq<(string, Native)>, i: nat)
    requires ReadMap(t, ms) == Ok(NMap(es))
    requires i < |ms| && forall j :: i < j < |ms| ==> ms[j].name.name != ms[i].name.name
    ensures FromDXR(t, ms[i].value).Ok? && (ms[i].name.name, FromDXR(t, ms[i].value).value) in es
  {
    ReadMapInserts(t, ms, es);
    InsertAllLastWins([], MemberNames(ms), ReadValues(t, ms), i);
  }

  // ---------------------------------------------------------------- round trip

  /** A sequence of any shape is written as the array of its elements' values. */
  lemma {:induction false} ToDXRList(s: Shape, es: seq<Native>)
    ensures ToDXR(NList(s, es)).Ok? <==> ToDXRAll(es).Ok?
    ensures ToDXRAll(es).Ok? ==> ToDXR(NList(s, es)).value == ArrayValue(FromElements(ToDXRAll(es).value))
  {
    assert ToDXR(NList(s, es)) == (match ToDXRAll(es)
      case Err(e) => Err(e)
      case Ok(vs) => Ok(ArrayValue(FromElements(vs))));
  }

  /** A map and a struct with the same entries are written alike: a struct value with
      one member per entry, in order, holding the entry's value. */
  lemma {:induction false} ToDXRMembers(es: seq<(string, Native)>)
    ensures ToDXR(NStruct(es)) == ToDXR(NMap(es))
    ensures ToDXR(NMap(es)).Ok? <==> ToDXRAll(EntryValues(es)).Ok?
    ensures ToDXRAll(EntryValues(es)).Ok? ==>
      ToDXR(NMap(es)).value == Structure(FromMembers(MembersOf(Names(es), ToDXRAll(EntryValues(es)).value)))
  {
    var rs := seq(|es|, i requires 0 <= i < |es| => ToDXR(es[i].1));
    var ws := EntryValues(es);
    assert rs == seq(|ws|, i requires 0 <= i < |ws| => ToDXR(ws[i]));
    assert Collect(rs) == ToDXRAll(ws);
    var written := match ToDXRAll(ws)
      case Err(e) => Err(e)
      case Ok(vs) => Ok(Structure(FromMembers(MembersOf(Names(es), vs))));
    assert ToDXR(NMap(es)) == written;
    assert ToDXR(NStruct(es)) == written;
  }

  lemma {:induction false} RoundTripVec(t: NativeType, es: seq<Native>)
    requires ToDXRAll(es).Ok?
    requires forall i :: 0 <= i < |es| ==> ToDXR(es[i]).Ok? && FromDXR(t, ToDXR(es[i]).value) == Ok(es[i])
    ensures ReadVec(t, ToDXRAll(es).value) == Ok(NList(Vec, es))
  {
    var vs := ToDXRAll(es).value;
    CollectAllOk(seq(|vs|, i requires 0 <= i < |vs| => FromDXR(t, vs[i])), es);
  }

  lemma {:induction false} RoundTripTuple(ts: seq<NativeType>, es: seq<Native>)
    requires |ts| == |es| && ToDXRAll(es).Ok?
    requires forall i :: 0 <= i < |es| ==> ToDXR(es[i]).Ok? && FromDXR(ts[i], ToDXR(es[i]).value) == Ok(es[i])
    ensures ReadTuple(ts, ToDXRAll(es).value) == Ok(NList(Tuple, es))
  {
    var vs := ToDXRAll(es).value;
    CollectAllOk(seq(|ts|, i requires 0 <= i < |ts| => FromDXR(ts[i], vs[i])), es);
  }

  /** Members built from distinct names and values that read as the entries' values
      read back, as a map, as those entries. */
  lemma {:induction false} RoundTripMap(t: NativeType, es: seq<(string, Native)>, vs: seq<Value>)
    requires DistinctNames(es) && |vs| == |es|
    requires forall i :: 0 <= i < |es| ==> FromDXR(t, vs[i]) == Ok(es[i].1)
    ensures ReadMap(t, MembersOf(Names(es), vs)) == Ok(NMap(es))
  {
    var ms := MembersOf(Names(es), vs);
    CollectAllOk(seq(|ms|, i requires 0 <= i < |ms| => FromDXR(t, ms[i].value)), EntryValues(es));
    assert MemberNames(ms) == Names(es);
    InsertAllFresh([], es);
    assert [] + es == es;
  }

  /** Members built from a struct's field names and values that read as its fields'
      values read back, as that struct, as its fields. */
  lemma {:induction false} RoundTripStruct(fts: seq<(string, NativeType)>, fs: seq<(string, Native)>, vs: seq<Value>)
    requires |fs| == |fts| && |vs| == |fs| && DistinctNames(fts)
    requires forall i :: 0 <= i < |fs| ==> fs[i].0 == fts[i].0
    requires forall i :: 0 <= i < |fs| ==> FromDXR(fts[i].1, vs[i]) == Ok(fs[i].1)
    ensures ReadStruct(fts, MembersOf(Names(fs), vs)) == Ok(NStruct(fs))
  {
    var ms := MembersOf(Names(fs), vs);
    var qs := seq(|fts|, i requires 0 <= i < |fts| => ReadField(fts[i].0, fts[i].1, ms));
    forall i | 0 <= i < |fts| ensures qs[i] == Ok(EntryValues(fs)[i]) {
      LookupDistinct(ms, i);
    }
    CollectAllOk(qs, EntryValues(fs));
    assert seq(|fts|, i requires 0 <= i < |fts| => (fts[i].0, EntryValues(fs)[i])) == fs;
  }

  /** Every entry of a map or struct that is written was written itself. */
  lemma {:induction false} EntriesWritten(es: seq<(string, Native)>)
    requires ToDXR(NMap(es)).Ok? || ToDXR(NStruct(es)).Ok?
    ensures forall i :: 0 <= i < |es| ==> ToDXR(es[i].1).Ok?
  {
    ToDXRMembers(es);
    assert forall i :: 0 <= i < |es| ==> EntryValues(es)[i] == es[i].1;
  }

  /** Every element of a sequence that is written was written itself. */
  lemma {:induction false} ElementsWritten(s: Shape, es: seq<Native>)
    requires ToDXR(NList(s, es)).Ok?
    ensures forall i :: 0 <= i < |es| ==> ToDXR(es[i]).Ok?
  {
    ToDXRList(s, es);
  }

  /** A written map or struct is the struct of its names and its written values. */
  lemma {:induction false} WrittenMembers(es: seq<(string, Native)>, x: Native)
    requires x == NMap(es) || x == NStruct(es)
    requires ToDXR(x).Ok?
    ensures ToDXRAll(EntryValues(es)).Ok?
    ensures |ToDXRAll(EntryValues(es)).value| == |es|
    ensures forall i :: 0 <= i < |es| ==> ToDXR(es[i].1).Ok? && ToDXRAll(EntryValues(es)).value[i] == ToDXR(es[i].1).value
    ensures ToDXR(x).value == Value(Type.Struct(MembersOf(Names(es), ToDXRAll(EntryValues(es)).value)))
  {
    ToDXRMembers(es);
    assert forall i :: 0 <= i < |es| ==> EntryValues(es)[i] == es[i].1;
  }

  lemma {:induction false} ReadsStructAs(ty: NativeType, ms: seq<Member>)
    requires ty.TMap? || ty.TStruct?
    ensures ty.TMap? ==> FromDXR(ty, Value(Type.Struct(ms))) == ReadMap(ty.elem, ms)
    ensures ty.TStruct? ==> FromDXR(ty, Value(Type.Struct(ms))) == ReadStruct(ty.fieldTypes, ms)
  {
  }

  lemma {:induction false} ReadsArrayAs(ty: NativeType, vs: seq<Value>)
    requires ty.TVec? || ty.TTuple?
    ensures ty.TVec? ==> FromDXR(ty, ArrayValue(FromElements(vs))) == ReadVec(ty.elem, vs)
    ensures ty.TTuple? ==> FromDXR(ty, ArrayValue(FromElements(vs))) == ReadTuple(ty.elemTypes, vs)
  {
  }

  lemma {:induction false} RoundTripMapValue(t: NativeType, es: seq<(string, Native)>)
    requires DistinctNames(es) && ToDXR(NMap(es)).Ok?
    requires forall i :: 0 <= i < |es| ==> ToDXR(es[i].1).Ok? && FromDXR(t, ToDXR(es[i].1).value) == Ok(es[i].1)
    ensures FromDXR(TMap(t), ToDXR(NMap(es)).value) == Ok(NMap(es))
  {
    WrittenMembers(es, NMap(es));
    var vs := ToDXRAll(EntryValues(es)).value;
    ReadsStructAs(TMap(t), MembersOf(Names(es), vs));
    RoundTripMap(t, es, vs);
  }

  lemma {:induction false} RoundTripStructValue(fts: seq<(string, NativeType)>, fs: seq<(string, Native)>)
    requires |fs| == |fts| && DistinctNames(fts) && ToDXR(NStruct(fs)).Ok?
    requires forall i :: 0 <= i < |fs| ==> fs[i].0 == fts[i].0
    requires forall i :: 0 <= i < |fs| ==> ToDXR(fs[i].1).Ok? && FromDXR(fts[i].1, ToDXR(fs[i].1).value) == Ok(fs[i].1)
    ensures FromDXR(TStruct(fts), ToDXR(NStruct(fs)).value) == Ok(NStruct(fs))
  {
    WrittenMembers(fs, NStruct(fs));
    var vs := ToDXRAll(EntryValues(fs)).value;
    ReadsStructAs(TStruct(fts), MembersOf(Names(fs), vs));
    RoundTripStruct(fts, fs, vs);
  }

  lemma {:induction false} RoundTripVecValue(t: NativeType, es: seq<Native>)
    requires ToDXR(NList(Vec, es)).Ok?
    requires forall i :: 0 <= i < |es| ==> ToDXR(es[i]).Ok? && FromDXR(t, ToDXR(es[i]).value) == Ok(es[i])
    ensures FromDXR(TVec(t), ToDXR(NList(Vec, es)).value) == Ok(NList(Vec, es))
  {
    ToDXRList(Vec, es);
    ReadsArrayAs(TVec(t), ToDXRAll(es).value);
    RoundTripVec(t, es);
  }

  lemma {:induction false} RoundTripTupleValue(ts: seq<NativeType>, es: seq<Native>)
    requires |ts| == |es| && ToDXR(NList(Tuple, es)).Ok?
    requires forall i :: 0 <= i < |es| ==> ToDXR(es[i]).Ok? && FromDXR(ts[i], ToDXR(es[i]).value) == Ok(es[i])
    ensures FromDXR(TTuple(ts), ToDXR(NList(Tuple, es)).value) == Ok(NList(Tuple, es))
  {
    ToDXRList(Tuple, es);
    ReadsArrayAs(TTuple(ts), ToDXRAll(es).value);
    RoundTripTuple(ts, es);
  }

  /** Writing a typed value and reading it back as its type gives the value back. */
  lemma {:induction false} FromToDXR(x: Native, ty: NativeType)
    requires HasType(x, ty) && RoundTrips(ty) && ToDXR(x).Ok?
    ensures FromDXR(ty, ToDXR(x).value) == Ok(x)
    decreases x
  {
    match ty
    case TOption(t) =>
      if x.opt.Some? {
        FromToDXR(x.opt.value, t);
        RoundTripSomeValue(t, x.opt.value);
      }
    case TMap(t) =>
      var es := x.entries;
      EntriesWritten(es);
      forall i | 0 <= i < |es| ensures ToDXR(es[i].1).Ok? && FromDXR(t, ToDXR(es[i].1).value) == Ok(es[i].1) {
        FromToDXR(es[i].1, t);
      }
      RoundTripMapValue(t, es);
    case TStruct(fts) =>
      var fs := x.fields;
      EntriesWritten(fs);
      forall i | 0 <= i < |fs| ensures ToDXR(fs[i].1).Ok? && FromDXR(fts[i].1, ToDXR(fs[i].1).value) == Ok(fs[i].1) {
        FromToDXR(fs[i].1, fts[i].1);
      }
      RoundTripStructValue(fts, fs);
    case TVec(t) =>
      var es := x.elems;
      ElementsWritten(Vec, es);
      forall i | 0 <= i < |es| ensures ToDXR(es[i]).Ok? && FromDXR(t, ToDXR(es[i]).value) == Ok(es[i]) {
        FromToDXR(es[i], t);
      }
      RoundTripVecValue(t, es);
    case TTuple(ts) =>
      var es := x.elems;
      ElementsWritten(Tuple, es);
      forall i | 0 <= i < |es| ensures ToDXR(es[i]).Ok? && FromDXR(ts[i], ToDXR(es[i]).value) == Ok(es[i]) {
        FromToDXR(es[i], ts[i]);
      }
      RoundTripTupleValue(ts, es);
    case TValue =>
    case _ =>
      RoundTripScalar(x, ty);
  }

  lemma {:induction false} RoundTripSomeValue(t: NativeType, y: Native)
    requires !t.TOption? && !t.TValue? && HasType(y, t) && ToDXR(y).Ok?
    requires FromDXR(t, ToDXR(y).value) == Ok(y)
    ensures FromDXR(TOption(t), ToDXR(NOption(Some(y))).value) == Ok(NOption(Some(y)))
  {
    NeverNil(y);
    assert ToDXR(NOption(Some(y))) == ToDXR(y);
  }

  lemma {:induction false} RoundTripScalar(x: Native, ty: NativeType)
    requires ty in {TI32, TI64, TBool, TString, TF64, TDateTime, TBytes}
    requires HasType(x, ty) && ToDXR(x).Ok?
    ensures FromDXR(ty, ToDXR(x).value) == Ok(x)
  {
  }

  // ---------------------------------------------------------------- argument lists

  /** The arguments built from a sequence are the same whatever its shape, and are the
      elements of the one array value the sequence is written as. */
  lemma {:induction false} ParamsShape(s: Shape, es: seq<Native>)
    ensures ToParams(NList(s, es)) == ToParams(NList(Tuple, es))
    ensures ToParams(NList(s, es)).Ok? <==> ToDXR(NList(s, es)).Ok?
    ensures ToParams(NList(s, es)).Ok? ==>
      ToDXR(NList(s, es)) == Ok(ArrayValue(FromElements(ToParams(NList(s, es)).value)))
  {
    ToDXRList(s, es);
  }

  /** Reading an argument list as a tuple or a vector is reading the array of those
      arguments as one value. */
  lemma {:induction false} FromParamsAsArray(ty: NativeType, ps: seq<Value>)
    requires ty.TTuple? || ty.TVec?
    ensures FromParams(ty, ps) == FromDXR(ty, ArrayValue(FromElements(ps)))
  {
  }

  /** A tuple target checks the number of arguments before any of them, and any other
      target but a vector takes exactly one argument. */
  lemma {:induction false} ArityFirst(ty: NativeType, ps: seq<Value>)
    ensures ty.TTuple? && |ps| != |ty.elemTypes| ==>
      FromParams(ty, ps) == Err(ParamCount(|ty.elemTypes|, |ps|))
      && FromDXR(ty, ArrayValue(FromElements(ps))) == Err(ParamCount(|ty.elemTypes|, |ps|))
    ensures !ty.TTuple? && !ty.TVec? && |ps| != 1 ==> FromParams(ty, ps) == Err(ParamCount(1, |ps|))
  {
  }

  /** The arguments of a typed payload, read as the payload's type, give the payload. */
  lemma {:induction false} ParamsRoundTrip(x: Native, ty: NativeType)
    requires HasType(x, ty) && RoundTrips(ty) && ToParams(x).Ok?
    ensures FromParams(ty, ToParams(x).value) == Ok(x)
  {
    if x.NList? {
      ParamsShape(x.shape, x.elems);
      assert x == NList(x.shape, x.elems);
      FromToDXR(x, ty);
      FromParamsAsArray(ty, ToParams(x).value);
    } else {
      FromToDXR(x, ty);
    }
  }

  /** Arguments built from a sequence of any shape read back as a tuple of the same
      element types. */
  lemma {:induction false} ParamsAnyShape(s: Shape, es: seq<Native>, ts: seq<NativeType>)
    requires HasType(NList(Tuple, es), TTuple(ts)) && RoundTrips(TTuple(ts))
    requires ToParams(NList(s, es)).Ok?
    ensures FromParams(TTuple(ts), ToParams(NList(s, es)).value) == Ok(NList(Tuple, es))
  {
    ParamsShape(s, es);
    ParamsRoundTrip(NList(Tuple, es), TTuple(ts));
  }

  /** An argument list reads as a pair of 32-bit integers exactly when it holds two
      `i4` values; otherwise the count, then the first value of another variant, is
      reported. */
  lemma {:induction false} ReadIntPair(ps: seq<Value>)
    ensures FromParams(TTuple([TI32, TI32]), ps).Ok? <==>
      |ps| == 2 && ps[0].value.Integer? && ps[1].value.Integer?
    ensures |ps| == 2 && ps[0].value.Integer? && ps[1].value.Integer? ==>
      FromParams(TTuple([TI32, TI32]), ps) == Ok(NList(Tuple, [NI32(ps[0].value.i), NI32(ps[1].value.i)]))
    ensures |ps| != 2 ==> FromParams(TTuple([TI32, TI32]), ps) == Err(ParamCount(2, |ps|))
    ensures |ps| == 2 && !ps[0].value.Integer? ==>
      FromParams(TTuple([TI32, TI32]), ps) == Err(WrongType(KInteger, KindOf(ps[0].value)))
    ensures |ps| == 2 && ps[0].value.Integer? && !ps[1].value.Integer? ==>
      FromParams(TTuple([TI32, TI32]), ps) == Err(WrongType(KInteger, KindOf(ps[1].value)))
  {
    var ts := [TI32, TI32];
    if |ps| == 2 {
      var rs := seq(|ts|, i requires 0 <= i < |ts| => FromDXR(ts[i], ps[i]));
      if !ps[0].value.Integer? {
        CollectFirstErr(rs, 0);
      } else if !ps[1].value.Integer? {
        CollectFirstErr(rs, 1);
      } else {
        CollectAllOk(rs, [NI32(ps[0].value.i), NI32(ps[1].value.i)]);
      }
    }
  }
}
