/** The element layout of a value on the wire, as the serialization attributes of the
    value model declare it:

      <value><TAG>content</TAG></value>                       scalars, TAG from `Values.Tag`
      <value><struct><member><name>N</name><value>..</value></member>..</struct></value>
      <value><array><data><value>..</value>..</data></array></value>
      <value><nil/></value>

    The text syntax of each scalar (how a boolean, a date or a base64 blob is spelled)
    is not part of this layout: a `Text` node stands for the content of a scalar element
    already read as the scalar it spells.

    The decoder accepts exactly this layout: a child element it does not expect is an
    error, where serde's derived deserializers skip unknown elements. */
module ValueXml {
  import opened Wrappers
  import opened Values

  datatype Node = Element(name: string, children: seq<Node>) | Text(scalar: Type)

  datatype DecodeError =
    | NotAValue             // the node is not a `value` element
    | MissingTypeTag        // a `value` element without exactly one type element
    | UnknownTag(tag: string)
    | Malformed(tag: string)

  predicate IsScalar(k: Kind) {
    k != KStruct && k != KArray && k != KNil
  }

  function NameNode(name: string): Node {
    Element("name", [Text(String(name))])
  }

  /** The element tree of a value. */
  function Encode(v: Value): Node
    decreases v
  {
    var body :=
      match v.value
      case Struct(ms) =>
        Element("struct", seq(|ms|, i requires 0 <= i < |ms| =>
          Element("member", [NameNode(ms[i].name.name), Encode(ms[i].value)])))
      case Array(data) =>
        Element("array", [Element("data", seq(|data.values|, i requires 0 <= i < |data.values| =>
          Encode(data.values[i])))])
      case Nil => Element("nil", [])
      case _ => Element(Tag(KindOf(v.value)), [Text(v.value)]);
    Element("value", [body])
  }

  /** The value a `value` element holds. */
  function Decode(n: Node): Result<Value, DecodeError>
    decreases n, 1
  {
    if n.Text? || n.name != "value" then Err(NotAValue)
    else if |n.children| != 1 then Err(MissingTypeTag)
    else DecodeType(n.children[0])
  }

  /** The value a type element (`i4`, `struct`, ...) stands for. */
  function DecodeType(n: Node): Result<Value, DecodeError>
    decreases n, 0
  {
    match n
    case Text(_) => Err(MissingTypeTag)
    case Element(tag, children) =>
      match KindOfTag(tag)
      case None => Err(UnknownTag(tag))
      case Some(k) =>
        if k == KStruct then
          match Collect(seq(|children|, i requires 0 <= i < |children| => DecodeMember(children[i])))
          case Err(e) => Err(e)
          case Ok(ms) => Ok(Value(Type.Struct(ms)))
        else if k == KArray then
          if |children| == 0 then Ok(Value(Type.Array(DefaultArrayData)))
          else if |children| == 1 && children[0].Element? && children[0].name == "data" then
            var vs := children[0].children;
            match Collect(seq(|vs|, i requires 0 <= i < |vs| => Decode(vs[i])))
            case Err(e) => Err(e)
            case Ok(values) => Ok(Value(Type.Array(ArrayData(values))))
          else Err(Malformed(tag))
        else if k == KNil then
          if |children| == 0 then Ok(Value(Nil)) else Err(Malformed(tag))
        else if |children| == 1 && children[0].Text? && KindOf(children[0].scalar) == k then
          Ok(Value(children[0].scalar))
        else Err(Malformed(tag))
  }

  /** The text of a `name` element, if `n` is one. */
  function NameOf(n: Node): Option<string> {
    if n.Element? && n.name == "name" && |n.children| == 1
       && n.children[0].Text? && n.children[0].scalar.String?
    then Some(n.children[0].scalar.s)
    else None
  }

  /** A `member` element: a `name` and a `value`, in either order. */
  function DecodeMember(n: Node): Result<Member, DecodeError>
    decreases n, 2
  {
    if n.Text? || n.name != "member" || |n.children| != 2 then Err(Malformed("member"))
    else if NameOf(n.children[0]).Some? then
      match Decode(n.children[1])
      case Err(e) => Err(e)
      case Ok(v) => Ok(Member(MemberName(NameOf(n.children[0]).value), v))
    else if NameOf(n.children[1]).Some? then
      match Decode(n.children[0])
      case Err(e) => Err(e)
      case Ok(v) => Ok(Member(MemberName(NameOf(n.children[1]).value), v))
    else Err(Malformed("member"))
  }

  /** Reading the element tree of a value gives the value back. */
  lemma {:induction false} DecodeEncode(v: Value)
    ensures Decode(Encode(v)) == Ok(v)
    decreases v
  {
    match v.value
    case Struct(ms) =>
      forall i | 0 <= i < |ms| ensures Decode(Encode(ms[i].value)) == Ok(ms[i].value) {
        DecodeEncode(ms[i].value);
      }
      DecodeEncodeStruct(v, ms);
    case Array(data) =>
      forall i | 0 <= i < |data.values| ensures Decode(Encode(data.values[i])) == Ok(data.values[i]) {
        DecodeEncode(data.values[i]);
      }
      DecodeEncodeArray(v, data.values);
    case Nil =>
    case _ =>
      TagRoundTrip(KindOf(v.value));
  }

  lemma {:induction false} DecodeEncodeStruct(v: Value, ms: seq<Member>)
    requires v.value == Type.Struct(ms)
    requires forall i :: 0 <= i < |ms| ==> Decode(Encode(ms[i].value)) == Ok(ms[i].value)
    ensures Decode(Encode(v)) == Ok(v)
  {
    var kids := seq(|ms|, i requires 0 <= i < |ms| =>
      Element("member", [NameNode(ms[i].name.name), Encode(ms[i].value)]));
    assert Encode(v) == Element("value", [Element("struct", kids)]);
    var rs := seq(|kids|, i requires 0 <= i < |kids| => DecodeMember(kids[i]));
    forall i | 0 <= i < |ms| ensures rs[i] == Ok(ms[i]) {
      DecodeEncodeMember(ms[i]);
    }
    CollectAllOk(rs, ms);
    assert DecodeType(Element("struct", kids)) == Ok(v);
  }

  lemma {:induction false} DecodeEncodeMember(m: Member)
    requires Decode(Encode(m.value)) == Ok(m.value)
    ensures DecodeMember(Element("member", [NameNode(m.name.name), Encode(m.value)])) == Ok(m)
  {
    assert NameOf(NameNode(m.name.name)) == Some(m.name.name);
  }

  lemma {:induction false} DecodeEncodeArray(v: Value, vs: seq<Value>)
    requires v.value == Type.Array(ArrayData(vs))
    requires forall i :: 0 <= i < |vs| ==> Decode(Encode(vs[i])) == Ok(vs[i])
    ensures Decode(Encode(v)) == Ok(v)
  {
    var data := v.value.data;
    var kids := seq(|data.values|, i requires 0 <= i < |data.values| => Encode(data.values[i]));
    assert Encode(v) == Element("value", [Element("array", [Element("data", kids)])]);
    var rs := seq(|kids|, i requires 0 <= i < |kids| => Decode(kids[i]));
    CollectAllOk(rs, vs);
    assert DecodeType(Element("array", [Element("data", kids)])) == Ok(v);
  }

  /** A `struct` with no `member` elements is a struct with no members; an `array` with
      no `data`, or a `data` with no `value`s, is an array with no elements. */
  lemma EmptyDefaults()
    ensures DecodeType(Element("struct", [])) == Ok(Value(Type.Struct([])))
    ensures DecodeType(Element("array", [])) == Ok(Value(Type.Array(ArrayData([]))))
    ensures DecodeType(Element("array", [Element("data", [])])) == Ok(Value(Type.Array(ArrayData([]))))
  {
    assert KindOfTag("struct") == Some(KStruct);
    assert KindOfTag("array") == Some(KArray);
  }

  /** `int` is read exactly as `i4`, and an integer is always written as `i4`. */
  lemma IntAlias(n: Int32)
    ensures DecodeType(Element("int", [Text(Integer(n))])) == Ok(I4(n))
    ensures DecodeType(Element("i4", [Text(Integer(n))])) == Ok(I4(n))
    ensures Encode(I4(n)).children[0].name == "i4"
  {
    assert KindOfTag("int") == Some(KInteger);
    assert KindOfTag("i4") == Some(KInteger);
  }

  /** An element whose name is no variant's tag is rejected, naming the tag. */
  lemma UnknownTagRejected(tag: string, children: seq<Node>)
    requires KindOfTag(tag).None?
    ensures DecodeType(Element(tag, children)) == Err(UnknownTag(tag))
  {
  }

  /** A scalar element whose content is of another variant is rejected, naming the tag. */
  lemma ScalarMismatchRejected(tag: string, t: Type)
    requires KindOfTag(tag).Some? && IsScalar(KindOfTag(tag).value)
    requires KindOf(t) != KindOfTag(tag).value
    ensures DecodeType(Element(tag, [Text(t)])) == Err(Malformed(tag))
  {
  }
}
