# dxr value model and conversions, in Dafny

This project models the core of `dxr`, a Rust XML-RPC library:

- the XML-RPC value model of `src/lib.rs` — `Value` wrapping exactly one `Type`
  variant (`Integer`/`i4`, `Long`/`i8`, `Boolean`, `String`, `Double`, `DateTime`,
  `Base64`, `Struct` of ordered `Member`s, `Array` of ordered `Value`s, `Nil`), its
  constructors, the wire tag of each variant (with the `int` alias of `i4`), the
  empty defaults of `struct` and `array`, and the whole-second date layout
  `XML_RPC_DATE_FORMAT`;
- the conversion traits of `shared/src/traits.rs` — `ToDXR`, `FromDXR`, `ToParams`,
  and `FromParams` as the tests use it — as pure functions over a closed datatype of
  native values (`Native`: `i32`, `i64`, `bool`, `String`, `f64`, `DateTime<Utc>`,
  `Vec<u8>`, `Option`, string-keyed maps, user structs as ordered field lists,
  tuples / `Vec`s / fixed arrays / slices, and `Value` itself) and a datatype of the
  types a value can be read as (`NativeType`). Errors are `WrongType(expected, found)`,
  `ParamCount(expected, found)`, `Unrepresentable(text)` and `MissingField(name)`;
- the two handlers of the integration tests — the echo handler, which replies with its
  whole argument list as one array value, and the adder, which reads an `(i32, i32)`
  pair — and a call that goes client `to_params`, server handler, client `from_dxr`.

Modules:

| file | module | contents |
|---|---|---|
| `wrappers.dfy` | `Wrappers` | `Option`, `Result`, and `Collect` (the first failure or every success, as `collect::<Result<Vec<_>, _>>()` does) |
| `date_times.dfy` | `DateTimes` | whole-second timestamps; `Format`/`Parse` driven by a strftime-style layout; the date round trip |
| `values.dfy` | `Values` | `Value`, `Type`, `Member`, `Struct`, `Array`, `ArrayData`, the constructors, the tag table |
| `value_xml.dfy` | `ValueXml` | the element layout of a value declared by its serialization attributes, and its decoder |
| `conversion.dfy` | `Conversion` | `Native`, `NativeType`, `ToDXR`, `FromDXR`, `ToParams`, `FromParams` |
| `conversion_laws.dfy` | `ConversionLaws` | the laws: failure conditions, round trips, arity |
| `handlers.dfy` | `Handlers` | the echo and adder handlers and the calls the tests make |

## Model

| member | source | states |
|---|---|---|
| `Values.IntIsI4` | src/lib.rs:23-29 | `Value::int(n)` is `Value::i4(n)`, and both hold exactly `Type::Integer(n)` |
| `Values.ScalarConstructors` | src/lib.rs:31-54 | each scalar constructor, and `nil()`, wraps its argument unchanged in its own variant |
| `Values.StructureFromMembers` | src/lib.rs:56-58 | a struct value built with `from_members(ms)` holds exactly `ms`, in order; `Member::new` keeps its name and value |
| `Values.ArrayFromElements` | src/lib.rs:145-151 | an array value built with `from_elements(vs)` holds exactly `vs`, in order; no elements is the default `ArrayData` |
| `Values.StructuralEquality` | src/lib.rs:11-16 | two integer values are equal iff their payloads are; `i4(42) != i8(42)`, `i4(1) != boolean(true)` |
| `Values.KindsSeparate` | src/lib.rs:70-100 | values of different variants are never equal |
| `Values.TagsDistinct` | src/lib.rs:70-100 | different variants have different wire tags |
| `Values.TagRoundTrip` | src/lib.rs:70-100 | reading a variant's tag gives that variant |
| `Values.KindOfTagInverse` | src/lib.rs:72-73 | a name reads as a variant iff it is that variant's tag or, for `Integer`, `int`; `Integer` is written `i4`, never `int` |
| `ValueXml.Encode` | src/lib.rs:70-100 | the element tree a value is written as; no contract of its own: `DecodeEncode` states that `Decode` inverts it and `IntAlias` that integers are written `i4` |
| `ValueXml.Decode` | src/lib.rs:70-100 | reads a `value` element; no contract of its own: `DecodeEncode`, `EmptyDefaults`, `IntAlias`, `UnknownTagRejected`, `ScalarMismatchRejected` state what it gives |
| `ValueXml.DecodeEncode` | src/lib.rs:11-16 | reading back the element tree of any value gives the value |
| `ValueXml.DecodeEncodeStruct` | src/lib.rs:87-91 | a `struct` element with one `member` per member reads back as the struct, when each member value does |
| `ValueXml.DecodeEncodeMember` | src/lib.rs:115-127 | a `member` element with a `name` and a `value` reads back as that member |
| `ValueXml.DecodeEncodeArray` | src/lib.rs:92-96 | an `array` element with a `data` of `value`s reads back as the array, when each element does |
| `ValueXml.EmptyDefaults` | src/lib.rs:89-95 | `struct` without members reads as no members; `array` without `data`, or with an empty `data`, reads as no elements |
| `ValueXml.IntAlias` | src/lib.rs:72-73 | `int` and `i4` both read as `Integer`; an integer is written `i4` |
| `ValueXml.UnknownTagRejected` | src/lib.rs:70-100 | an element named by no variant is rejected with that name |
| `ValueXml.ScalarMismatchRejected` | src/lib.rs:70-100 | a scalar element holding another variant's content is rejected |
| `DateTimes.Format` | src/lib.rs:9 | lays a timestamp out by a strftime-style layout; no contract of its own: `DateFormatLayout` and `DateRoundTrip` state what it gives |
| `DateTimes.Parse` | src/lib.rs:9 | reads a timestamp back through a layout; no contract of its own: `ScanFormat` and `DateRoundTrip` state what it gives |
| `DateTimes.DigitChar` | src/lib.rs:9 | a digit below ten is written as a decimal digit character that reads back as it |
| `DateTimes.Digits` | src/lib.rs:9 | a zero-padded field has exactly its width, all decimal digits |
| `DateTimes.ReadDigitsOfDigits` | src/lib.rs:9 | a number below `10^w` written in `w` digits reads back as itself |
| `DateTimes.FieldBound` | src/lib.rs:9 | every field of a valid timestamp fits its width |
| `DateTimes.ScanFormat` | src/lib.rs:9 | scanning a layout's own output recovers exactly the fields the layout names, with their values |
| `DateTimes.DateFormatLayout` | src/lib.rs:9 | `XML_RPC_DATE_FORMAT` names all six fields and lays them out as `YYYYMMDD`, `T`, `HH:MM:SS`: 17 characters |
| `DateTimes.DateRoundTrip` | src/lib.rs:9 | parsing the formatted text of a whole-second timestamp gives it back |
| `Wrappers.Collect` | shared/src/traits.rs:27-28 | a list of results collects to `Ok` iff every one is `Ok`, keeping the values in order; otherwise to the first error |
| `Wrappers.CollectAllOk` | shared/src/traits.rs:27-28 | collecting all-`Ok` results gives exactly their values |
| `Wrappers.CollectFirstErr` | shared/src/traits.rs:27-28 | the error collected is the first one, whatever follows it |
| `Conversion.ToDXR` | shared/src/traits.rs:17-18 | writing a value can only fail with an unrepresentable string |
| `Conversion.Lookup` | shared/src/traits.rs:8-9 | a member name is absent iff no member carries it; otherwise the value of its last member |
| `Conversion.Insert` | shared/src/traits.rs:4-5 | inserting into a map adds the pair, keeps every other key, and appends when the key is new |
| `Conversion.InsertAll` | shared/src/traits.rs:4-5 | inserts pairs into a map in order; no contract of its own: `InsertAllFresh`, `InsertAllDistinct`, `InsertAllKeeps`, `InsertAllLastWins`, `InsertAllOnly` state what it gives |
| `Conversion.FromDXR` | shared/src/traits.rs:5-10 | reads a value as a native type; no contract of its own: `FromDXRWrongType`, `FromDXROption`, `FromToDXR` and the readers' lemmas state what it gives |
| `Conversion.ReadMap` | shared/src/traits.rs:4-10 | reads a struct value as a map; no contract of its own: `ReadMapInserts`, `ReadMapEntries`, `ReadMapLastWins`, `RoundTripMap` state what it gives |
| `Conversion.ReadStruct` | shared/src/traits.rs:4-10 | reads a struct value as a user struct; no contract of its own: `FromDXRMissingField` and `RoundTripStruct` state what it gives |
| `Conversion.ReadField` | shared/src/traits.rs:4-10 | reads one field from the member of its name; no contract of its own: `LookupDistinct` and `FromDXRMissingField` state what it gives |
| `Conversion.ReadVec` | shared/src/traits.rs:4-10 | reads an array value as a `Vec`; no contract of its own: `RoundTripVec` states what it gives |
| `Conversion.ReadTuple` | shared/src/traits.rs:4-10 | reads an array value as a tuple, arity first; no contract of its own: `ArityFirst` and `RoundTripTuple` state what it gives |
| `Conversion.FromParams` | dxr/tests/adder.rs:9 | reads an argument list as a native type; no contract of its own: `ArityFirst`, `FromParamsAsArray`, `ParamsRoundTrip`, `ReadIntPair` state what it gives |
| `Conversion.ToDXRAll` | shared/src/traits.rs:27-28 | a list is written iff every element is, element `i` being `to_dxr` of element `i` |
| `Conversion.ToParams` | shared/src/traits.rs:26-28 | a sequence gives one argument per element, in order; anything else the one-element list `[to_dxr(x)]` |
| `ConversionLaws.ToDXROkIff` | shared/src/traits.rs:17-18 | writing succeeds iff every string inside the value is representable |
| `ConversionLaws.EntriesOkIff` | shared/src/traits.rs:17-18 | a map or struct is written iff each entry's value is, given that for each entry |
| `ConversionLaws.ToDXRScalars` | shared/src/traits.rs:17-18 | every non-string primitive is written without fail, as its constructor's value; `None` as `nil` |
| `ConversionLaws.ToDXRString` | shared/src/traits.rs:17-18 | a string is written as itself iff it passes the model's representability predicate `IsXmlText`, otherwise the error names it |
| `ConversionLaws.NeverNil` | shared/src/traits.rs:13-19 | only an `Option` or a `Value` is ever written as `nil` |
| `ConversionLaws.FromDXRWrongType` | shared/src/traits.rs:8-9 | reading a value of an incompatible variant fails with `WrongType(expected, found)`; a scalar target reads iff the variant matches |
| `ConversionLaws.FromDXROption` | shared/src/traits.rs:4-10 | an option reads `nil` as `None`, anything else as `Some` of its inner read, with the inner failure otherwise |
| `ConversionLaws.LookupDistinct` | shared/src/traits.rs:4-10 | with distinct member names, each name finds its own member's value |
| `ConversionLaws.FromDXRMissingField` | shared/src/traits.rs:8-9 | a struct read reports the first declared field no member names |
| `ConversionLaws.InsertOnly` | shared/src/traits.rs:4-5 | inserting into a map adds nothing but the new pair |
| `ConversionLaws.InsertAvoids` | shared/src/traits.rs:4-5 | inserting under one key introduces no other key |
| `ConversionLaws.InsertDistinct` | shared/src/traits.rs:4-5 | inserting keeps keys distinct |
| `ConversionLaws.DistinctCons` | shared/src/traits.rs:4-5 | a new key in front of distinct keys keeps them distinct |
| `ConversionLaws.InsertReplaces` | shared/src/traits.rs:4-5 | inserting replaces the key's old value and keeps keys distinct |
| `ConversionLaws.InsertAllFresh` | shared/src/traits.rs:4-5 | inserting pairs with fresh, distinct keys appends them in order |
| `ConversionLaws.InsertAllDistinct` | shared/src/traits.rs:4-5 | inserting any pairs keeps keys distinct |
| `ConversionLaws.InsertAllKeeps` | shared/src/traits.rs:4-5 | an entry whose key is never inserted stays |
| `ConversionLaws.InsertAllLastWins` | shared/src/traits.rs:4-5 | the last pair inserted under a key is the one the map holds |
| `ConversionLaws.InsertAllOnly` | shared/src/traits.rs:4-5 | every entry of the result was there before or was inserted |
| `ConversionLaws.ReadMapInserts` | shared/src/traits.rs:4-10 | a map read reads every member, then inserts the pairs in member order |
| `ConversionLaws.ReadMapEntries` | shared/src/traits.rs:4-10 | a map read has distinct keys, each entry coming from a member of that name |
| `ConversionLaws.ReadMapLastWins` | shared/src/traits.rs:4-10 | a map read keeps the value of the last member of each name |
| `ConversionLaws.ToDXRList` | shared/src/traits.rs:13-19 | a sequence of any shape is written iff its elements are, as the array of their values |
| `ConversionLaws.ToDXRMembers` | shared/src/traits.rs:13-19 | a map and a struct with the same entries are written alike, as the struct of their written values |
| `ConversionLaws.RoundTripVec` | dxr/tests/echo_any.rs:81-85 | the array of written elements reads back as the `Vec` |
| `ConversionLaws.RoundTripTuple` | dxr/tests/echo_any.rs:114-155 | the array of written elements reads back as the tuple |
| `ConversionLaws.RoundTripMap` | dxr/tests/echo_any.rs:93-99 | a struct value with the map's keys and values reads back as the map, when keys are distinct |
| `ConversionLaws.RoundTripStruct` | dxr/tests/echo_any.rs:101-112 | a struct value with the fields in declaration order reads back as the struct |
| `ConversionLaws.EntriesWritten` | shared/src/traits.rs:13-19 | a written map or struct has every entry value written |
| `ConversionLaws.ElementsWritten` | shared/src/traits.rs:13-19 | a written sequence has every element written |
| `ConversionLaws.WrittenMembers` | shared/src/traits.rs:13-19 | a written map or struct is the struct value whose members are the names and written values, in order |
| `ConversionLaws.RoundTripMapValue` | dxr/tests/echo_any.rs:93-99 | `from_dxr(to_dxr(m)) == m` for a map with distinct keys |
| `ConversionLaws.RoundTripStructValue` | dxr/tests/echo_any.rs:101-112 | `from_dxr(to_dxr(s)) == s` for a struct with fields in declaration order |
| `ConversionLaws.RoundTripVecValue` | dxr/tests/echo_any.rs:81-85 | `from_dxr(to_dxr(v)) == v` for a `Vec` |
| `ConversionLaws.RoundTripTupleValue` | dxr/tests/echo_any.rs:114-155 | `from_dxr(to_dxr(t)) == t` for a tuple |
| `ConversionLaws.FromToDXR` | dxr/tests/echo_any.rs:39-112 | `from_dxr(to_dxr(x)) == x` for every value of a type that round-trips, whenever `to_dxr` succeeds |
| `ConversionLaws.RoundTripSomeValue` | dxr/tests/echo_any.rs:87-91 | `Some(y)` round-trips when `y` does |
| `ConversionLaws.RoundTripScalar` | dxr/tests/echo_any.rs:39-79 | every written primitive reads back as itself |
| `ConversionLaws.ParamsShape` | dxr/tests/adder.rs:27-49 | a tuple, `Vec`, fixed array and slice of the same elements give the same argument list, whose array is what `to_dxr` writes |
| `ConversionLaws.FromParamsAsArray` | dxr/tests/echo_any.rs:11-13 | reading an argument list as a tuple or `Vec` is reading the array of the arguments |
| `ConversionLaws.ArityFirst` | dxr/tests/echo_any.rs:162-165 | an argument list of the wrong length fails with `ParamCount(expected, found)` before any element is read |
| `ConversionLaws.ParamsRoundTrip` | dxr/tests/echo_any.rs:114-155 | `from_params(to_params(x)) == x` for every value of a type that round-trips |
| `ConversionLaws.ParamsAnyShape` | dxr/tests/adder.rs:27-49 | the arguments of a sequence of any shape read back as the tuple |
| `ConversionLaws.ReadIntPair` | dxr/tests/adder.rs:9 | an argument list reads as `(i32, i32)` iff it is two integers; otherwise `ParamCount(2, n)` or `WrongType` on the first non-integer |
| `Handlers.Call` | dxr/tests/adder.rs:27-31 | a call: `to_params` on the client, the handler on the server, `from_dxr` of the reply on the client; no contract of its own: the `Echo…` and `Add…` lemmas state what it gives |
| `Handlers.Echo` | dxr/tests/echo_any.rs:11-13 | the echo handler replies with the array of its arguments, unchanged and in order |
| `Handlers.Add` | dxr/tests/adder.rs:8-11 | the adder replies `i4(a + b)` iff it gets two integers whose sum fits `i32`; it panics iff it gets two integers whose sum does not; otherwise it returns the conversion error as a fault: `ParamCount(2, n)`, or `WrongType` on the first non-integer |
| `Handlers.ParamsOf` | shared/src/traits.rs:26-28 | the arguments of a sequence whose elements are all written are those values |
| `Handlers.EchoRoundTrip` | dxr/tests/echo_any.rs:114-155 | echoing a sequence of any shape and reading the reply as a tuple or `Vec` gives the elements back |
| `Handlers.EchoOne` | dxr/tests/echo_any.rs:39-112 | echoing any one value and reading the reply as a 1-tuple gives it back |
| `Handlers.EchoScalars` | dxr/tests/echo_any.rs:39-79 | the i4, i8, double, boolean, string, datetime and bytes echo calls return their argument |
| `Handlers.EchoListAndOption` | dxr/tests/echo_any.rs:81-91 | the array echo call returns the list, the option echo call returns `Some(n)` |
| `Handlers.EchoMap` | dxr/tests/echo_any.rs:93-99 | the map echo call with two distinct keys returns the map |
| `Handlers.EchoTuples` | dxr/tests/echo_any.rs:114-155 | echoing an `i32` tuple of arity 2 to 8 returns it |
| `Handlers.EchoWrongType` | dxr/tests/echo_any.rs:157-160 | reading an echoed integer as a string fails with `WrongType(string, integer)` |
| `Handlers.EchoParamCount` | dxr/tests/echo_any.rs:162-165 | reading two echoed values as a 3-tuple fails with `ParamCount(3, 2)` |
| `Handlers.AddAnyShape` | dxr/tests/adder.rs:27-49 | adding 2 and 3 passed as a tuple, `Vec`, array or slice gives 5 |
| `Handlers.AddArity` | dxr/tests/adder.rs:51-54 | calling the adder with three integers faults with `ParamCount(2, 3)` |
| `Handlers.AddStrings` | dxr/tests/adder.rs:56-59 | calling the adder with two strings faults with a wrong-type error |
| `Handlers.AddCall` | dxr/tests/adder.rs:8-11 | calling the adder with two integers gives their sum when it fits `i32`; otherwise no response comes back, since the handler panics |

## Left out

- The HTTP transport, `ClientBuilder`/`ServerBuilder`, `serve()`, tokio tasks and their
  cancellation: network I/O and concurrency. A call is modelled as the client's
  `to_params`, the handler, then the client's `from_dxr`, with nothing lost in between.
- `axum::http::HeaderMap`, passed to the handlers and ignored by them.
- The text syntax of scalars (`boolean` as `0`/`1`, base64 text, number and date text
  inside elements) and the serde / quick-xml machinery: the element layout is modelled
  down to typed scalar leaves only. The date layout itself is modelled in `DateTimes`.
- `f64` arithmetic and equality: a double is an opaque 64-bit pattern compared bitwise,
  so NaN's inequality with itself is not modelled.
- `chrono::DateTime<Utc>` beyond whole seconds and years 0 to 9999: no sub-seconds, no time
  zones, and `Parse` accepts exactly the padded field widths, not chrono's lenient forms.
- The `#[derive(FromDXR, ToDXR)]` code generation: a user struct is an ordered list of
  named fields, written as struct members in declaration order and read by name; the
  echo test's `TestStruct` is covered by the general struct laws (`EchoOne`,
  `FromToDXR`), not as its own instance.
- Cargo feature gating of `i8` and `nil`: both variants are always present.
- `HashMap` is modelled as an association list in insertion order with last-wins
  insertion, so map equality is order-sensitive where `HashMap`'s is not;
  `ConversionLaws.RoundTripMapValue` holds for maps given in the order they are read back.
- The trait implementations are not part of this model, and neither the trait
  documentation nor the tests say what becomes of `None` or `nil`, or how many
  arguments a target of `from_params` other than a tuple or a `Vec` takes. The model
  makes its own choices there: `None` is written as `nil`, `nil` is read as `None`, and
  any other target of `from_params` takes exactly one argument.
- `Conversion.Lookup`: a struct field named by several members is read from the last
  of them. This is the model's choice, made to match last-wins maps; the derived
  `FromDXR` code that decides it is not part of this model.
- `Handlers.Fault`: a fault keeps the structured conversion error. In the library, `?`
  turns the error into a `Fault` of a code and a message, and the tests check only that
  a server fault came back; so `Handlers.AddArity` and `Handlers.AddStrings` name the
  error inside the fault, which the wire carries only as a message.
- `ValueXml.Decode`: a child element it does not expect is rejected: a
  `struct` child other than `member`, an `array` child other than one `data`, a `data`
  child that is not a `value`, a `member` child beyond its `name` and `value`. Serde's
  derived deserializers of src/lib.rs:87-158 do not deny unknown fields and skip such
  elements, so `<array><junk/></array>` is an error here and an empty array in the
  library. The round trip `DecodeEncode` is unaffected: the encoder writes no such
  elements.
- `ToDXR`: the trait documentation says writing fails only when a string cannot be
  un-escaped from XML correctly; the implementation is not part of this model. The
  model stands in `IsXmlText` (every character is an XML 1.0 `Char`) for that
  condition, so which strings fail is the model's choice, not the library's. Map keys
  and struct field names are not checked: they become member names through
  `Member::new` as they are (src/lib.rs:129-136), not through `ToDXR`.
- `ToDXR`: a double never fails to be written. This follows the trait documentation at
  shared/src/traits.rs:17-18 (only strings can fail) rather than the wider design of
  the library, where a NaN double is unrepresentable too.
- `ConversionLaws.FromToDXR`: excludes `Option<Option<_>>` and `Option<Value>` targets,
  where `nil` cannot tell `None` from `Some(None)` or `Some(nil)`.
- `Handlers.EchoTuples`: covers tuples of `i32` only; other element types are covered
  by `Handlers.EchoRoundTrip`. Tuple arities above 8 are not limited by the model.
- `Handlers.Add`: `a + b` overflowing `i32` is a panic, as in a debug build, which the
  client sees as a call with no response; a release build's wrap-around is not
  modelled, and neither is how the transport reports the dropped connection.
