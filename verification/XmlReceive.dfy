/** The ReceiveMessage response as XML, elements within elements, and the scan that turns it into
    the list of messages. Only bodies and values are escaped, and nothing is unescaped. */
module XmlReceive {
  import opened Types
  import opened Escape
  import opened Markup
  import opened XmlElements

  datatype Named<T> = Named(name: string, value: T)

  datatype ValueInfo = ValueInfo(dataType: string, stringValue: Option<string>)

  /** A received message with its system attributes and its message attributes. */
  datatype MessageInfo = MessageInfo(
    id: string,
    handle: string,
    bodyHash: string,
    body: string,
    attributes: seq<Named<string>>,
    valued: seq<Named<ValueInfo>>)

  // ---------------------------------------------------------------- the document

  const INDENT := "    "
  const WIDE := "      "
  const GAP := "\n      "
  const DEEP := "\n        "

  const MESSAGE_OPEN := "<Message>"
  const MESSAGE_CLOSE := "</Message>"
  const ATTRIBUTE_OPEN := "<Attribute>"
  const ATTRIBUTE_CLOSE := "</Attribute>"
  const VALUED_OPEN := "<MessageAttribute>"
  const VALUED_CLOSE := "</MessageAttribute>"

  function HeadPieces(): seq<string> {
    ["<?xml version=\"1.0\"?>", "\n", "<ReceiveMessageResponse ",
     "xmlns=\"http:", "//queue.amazonaws.com", "/doc/2012-11-05/\">", "\n  ", "<ReceiveMessageResult>", "\n"]
  }

  function FrontPieces(m: MessageInfo): seq<string> {
    [MESSAGE_OPEN, GAP, "<MessageId>", m.id, "</MessageId>", GAP, "<ReceiptHandle>", m.handle, "</ReceiptHandle>",
     GAP, "<MD5OfBody>", m.bodyHash, "</MD5OfBody>", GAP, "<Body>", EscapeXml(m.body), "</Body>", "\n"]
  }

  function AttributePieces(a: Named<string>): seq<string> {
    [ATTRIBUTE_OPEN, DEEP, "<Name>", a.name, "</Name>", DEEP, "<Value>", EscapeXml(a.value), "</Value>", GAP, ATTRIBUTE_CLOSE]
  }

  function TypePieces(v: Named<ValueInfo>): seq<string> {
    [VALUED_OPEN, DEEP, "<Name>", v.name, "</Name>", DEEP, "<Value>",
     "\n          ", "<DataType>", v.value.dataType, "</DataType>"]
  }

  function StringPieces(s: Option<string>): seq<string> {
    if s.None? then [] else ["\n          ", "<StringValue>", EscapeXml(s.value), "</StringValue>"]
  }

  function ValuedPieces(v: Named<ValueInfo>): seq<string> {
    TypePieces(v) + StringPieces(v.value.stringValue) + [DEEP, "</Value>", GAP, VALUED_CLOSE]
  }

  function BackPieces(): seq<string> {
    [INDENT, MESSAGE_CLOSE]
  }

  function FootPieces(requestId: string): seq<string> {
    ["  ", "</ReceiveMessageResult>", "\n  ", "<ResponseMetadata>", "\n    ", "<RequestId>", requestId,
     "</RequestId>", "\n  ", "</ResponseMetadata>", "\n", "</ReceiveMessageResponse>"]
  }

  function AttributeTexts(es: seq<Named<string>>): (r: seq<string>)
    ensures |r| == |es|
  {
    seq(|es|, k requires 0 <= k < |es| => Concat(AttributePieces(es[k])))
  }

  function ValuedTexts(es: seq<Named<ValueInfo>>): (r: seq<string>)
    ensures |r| == |es|
  {
    seq(|es|, k requires 0 <= k < |es| => Concat(ValuedPieces(es[k])))
  }

  function MessageText(m: MessageInfo): string {
    Concat(FrontPieces(m))
    + (Rows(WIDE, AttributeTexts(m.attributes)) + (Rows(WIDE, ValuedTexts(m.valued)) + Concat(BackPieces())))
  }

  function MessageTexts(ms: seq<MessageInfo>): (r: seq<string>)
    ensures |r| == |ms|
  {
    seq(|ms|, k requires 0 <= k < |ms| => MessageText(ms[k]))
  }

  function Document(ms: seq<MessageInfo>, requestId: string): string {
    Concat(HeadPieces()) + (Rows(INDENT, MessageTexts(ms)) + Concat(FootPieces(requestId)))
  }

  // ---------------------------------------------------------------- the scan

  datatype ValueJson = ValueJson(dataType: Option<string>, stringValue: Option<string>, binaryValue: Option<string>)

  /** A message as JSON; a map is left out when it is empty. */
  datatype MessageJson = MessageJson(
    id: Option<string>,
    handle: Option<string>,
    body: Option<string>,
    bodyHash: Option<string>,
    attributes: Option<map<string, string>>,
    valued: Option<map<string, ValueJson>>)

  /** One attribute element; an incomplete one is skipped, None stands for a panic. */
  function ReadAttribute(text: string, found: map<string, string>): Option<map<string, string>> {
    match ReadField(text, "<Name>", "</Name>")
    case Absent => Some(found)
    case Panic => None
    case Text(name) =>
      match ReadField(text, "<Value>", "</Value>")
      case Absent => Some(found)
      case Panic => None
      case Text(value) => Some(found[name := value])
  }

  function ReadValue(text: string): Option<ValueJson> {
    var dataType := ReadField(text, "<DataType>", "</DataType>");
    var stringValue := ReadField(text, "<StringValue>", "</StringValue>");
    var binaryValue := ReadField(text, "<BinaryValue>", "</BinaryValue>");
    if dataType.Panic? || stringValue.Panic? || binaryValue.Panic? then None
    else Some(ValueJson(TextOf(dataType), TextOf(stringValue), TextOf(binaryValue)))
  }

  /** One message attribute element; one without a name is skipped. */
  function ReadValued(text: string, found: map<string, ValueJson>): Option<map<string, ValueJson>> {
    match ReadField(text, "<Name>", "</Name>")
    case Absent => Some(found)
    case Panic => None
    case Text(name) => if ReadValue(text).None? then None else Some(found[name := ReadValue(text).value])
  }

  function Fold<T>(read: (string, map<string, T>) -> Option<map<string, T>>, texts: seq<string>, found: map<string, T>):
      Option<map<string, T>>
    decreases |texts|
  {
    if texts == [] then Some(found)
    else
      var next := read(texts[0], found);
      if next.None? then None else Fold(read, texts[1..], next.value)
  }

  function NonEmpty<T>(m: map<string, T>): Option<map<string, T>> {
    if m == map[] then None else Some(m)
  }

  function AsMessage(text: string): Option<MessageJson> {
    var id, handle := ReadField(text, "<MessageId>", "</MessageId>"), ReadField(text, "<ReceiptHandle>", "</ReceiptHandle>");
    var body, bodyHash := ReadField(text, "<Body>", "</Body>"), ReadField(text, "<MD5OfBody>", "</MD5OfBody>");
    var attributes := Fold(ReadAttribute, Elements(text, ATTRIBUTE_OPEN, ATTRIBUTE_CLOSE), map[]);
    var valued := Fold(ReadValued, Elements(text, VALUED_OPEN, VALUED_CLOSE), map[]);
    if id.Panic? || handle.Panic? || body.Panic? || bodyHash.Panic? || attributes.None? || valued.None? then None
    else
      Some(MessageJson(TextOf(id), TextOf(handle), TextOf(body), TextOf(bodyHash),
                       NonEmpty(attributes.value), NonEmpty(valued.value)))
  }

  function ScanMessages(xml: string): Option<seq<MessageJson>> {
    Collect(AsMessage, Elements(xml, MESSAGE_OPEN, MESSAGE_CLOSE))
  }

  // ---------------------------------------------------------------- what a client sees

  /** Every name once, with its last value. */
  function Extend<T>(found: map<string, T>, es: seq<Named<T>>): map<string, T>
    decreases |es|
  {
    if es == [] then found else Extend(found[es[0].name := es[0].value], es[1..])
  }

  function SeenValue(v: Named<ValueInfo>): Named<ValueJson> {
    Named(v.name, ValueJson(Some(v.value.dataType), v.value.stringValue, None))
  }

  function SeenValues(es: seq<Named<ValueInfo>>): (r: seq<Named<ValueJson>>)
    ensures |r| == |es|
  {
    seq(|es|, k requires 0 <= k < |es| => SeenValue(es[k]))
  }

  function Seen(m: MessageInfo): MessageJson {
    MessageJson(Some(m.id), Some(m.handle), Some(m.body), Some(m.bodyHash),
                NonEmpty(Extend(map[], m.attributes)), NonEmpty(Extend(map[], SeenValues(m.valued))))
  }

  function SeenAll(ms: seq<MessageInfo>): (r: seq<MessageJson>)
    ensures |r| == |ms|
  {
    seq(|ms|, k requires 0 <= k < |ms| => Seen(ms[k]))
  }

  function EscapedAttribute(a: Named<string>): Named<string> {
    a.(value := EscapeXml(a.value))
  }

  function EscapedValue(v: Named<ValueInfo>): Named<ValueInfo> {
    v.(value := v.value.(stringValue := if v.value.stringValue.None? then None else Some(EscapeXml(v.value.stringValue.value))))
  }

  function EscapedAttributes(es: seq<Named<string>>): (r: seq<Named<string>>)
    ensures |r| == |es|
  {
    seq(|es|, k requires 0 <= k < |es| => EscapedAttribute(es[k]))
  }

  function EscapedValues(es: seq<Named<ValueInfo>>): (r: seq<Named<ValueInfo>>)
    ensures |r| == |es|
  {
    seq(|es|, k requires 0 <= k < |es| => EscapedValue(es[k]))
  }

  /** What becomes of a message: its body and its values escaped. */
  function Escaped(m: MessageInfo): MessageInfo {
    m.(body := EscapeXml(m.body), attributes := EscapedAttributes(m.attributes), valued := EscapedValues(m.valued))
  }

  function EscapedAll(ms: seq<MessageInfo>): (r: seq<MessageInfo>)
    ensures |r| == |ms|
  {
    seq(|ms|, k requires 0 <= k < |ms| => Escaped(ms[k]))
  }

  /** The fields that are written without escaping have no tag in them. */
  ghost predicate TagFree(m: MessageInfo) {
    && '<' !in m.id && '<' !in m.handle && '<' !in m.bodyHash
    && (forall k :: 0 <= k < |m.attributes| ==> '<' !in m.attributes[k].name)
    && (forall k :: 0 <= k < |m.valued| ==> '<' !in m.valued[k].name && '<' !in m.valued[k].value.dataType)
  }

  // ---------------------------------------------------------------- an attribute

  lemma AttributeAlternates(a: Named<string>)
    requires '<' !in a.name
    ensures Alternating(AttributePieces(a)) && |AttributePieces(a)| == 11
  {
    hide EscapeXml;
    EscapedIsClean(a.value);
  }

  lemma AttributeTags(a: Named<string>)
    ensures var p := AttributePieces(a);
            && |p| == 11 && p[0] == ATTRIBUTE_OPEN && p[2] == "<Name>" && p[3] == a.name && p[4] == "</Name>"
            && p[6] == "<Value>" && p[7] == EscapeXml(a.value) && p[8] == "</Value>" && p[10] == ATTRIBUTE_CLOSE
  {
    hide EscapeXml;
  }

  lemma AttributeReadBack(a: Named<string>, found: map<string, string>)
    requires '<' !in a.name
    ensures ReadAttribute(Concat(AttributePieces(a)), found) == Some(found[a.name := EscapeXml(a.value)])
  {
    hide EscapeXml, Alternating, AttributePieces, Concat, ReadField, Inert;
    AttributeAlternates(a);
    AttributeTags(a);
    var pieces := AttributePieces(a);
    FieldBetween(pieces, 2, "<Name>", "</Name>", [1], [1, 1]);
    FieldBetween(pieces, 6, "<Value>", "</Value>", [1, 1, 1], [1, 1, 2, 1]);
  }

  lemma AttributeIsElement(a: Named<string>)
    requires '<' !in a.name
    ensures IsElement(Concat(AttributePieces(a)), ATTRIBUTE_OPEN, ATTRIBUTE_CLOSE)
  {
    hide EscapeXml, Alternating, AttributePieces, Concat, IsElement;
    AttributeAlternates(a);
    AttributeTags(a);
    ElementBetween(AttributePieces(a), ATTRIBUTE_OPEN, ATTRIBUTE_CLOSE, [1, 1, 2, 1, 2]);
  }

  lemma AttributePasses(a: Named<string>)
    requires '<' !in a.name
    ensures Inert(Concat(AttributePieces(a)), VALUED_OPEN) && Inert(Concat(AttributePieces(a)), MESSAGE_CLOSE)
  {
    hide EscapeXml, Alternating, AttributePieces, Concat, Inert;
    AttributeAlternates(a);
    AttributeTags(a);
    ApartPass(AttributePieces(a), VALUED_OPEN, [1, 1, 1, 1, 1, 1]);
    ApartPass(AttributePieces(a), MESSAGE_CLOSE, [1, 1, 2, 1, 2, 2]);
    InertPieces(AttributePieces(a), VALUED_OPEN);
    InertPieces(AttributePieces(a), MESSAGE_CLOSE);
  }

  // ---------------------------------------------------------------- a message attribute

  lemma TypesAlternate(v: Named<ValueInfo>)
    requires '<' !in v.name && '<' !in v.value.dataType
    ensures Alternating(TypePieces(v)) && |TypePieces(v)| == 11
  {
  }

  lemma ValuedAlternates(v: Named<ValueInfo>)
    requires '<' !in v.name && '<' !in v.value.dataType
    ensures Alternating(ValuedPieces(v))
  {
    hide EscapeXml, TypePieces, Alternating;
    TypesAlternate(v);
    if v.value.stringValue.Some? {
      EscapedIsClean(v.value.stringValue.value);
    }
    TailAlternates(TypePieces(v), StringPieces(v.value.stringValue) + [DEEP, "</Value>", GAP, VALUED_CLOSE]);
    assert ValuedPieces(v) == TypePieces(v) + (StringPieces(v.value.stringValue) + [DEEP, "</Value>", GAP, VALUED_CLOSE]);
  }

  lemma TypeTags(v: Named<ValueInfo>)
    ensures var p := TypePieces(v);
            && |p| == 11 && p[0] == VALUED_OPEN && p[2] == "<Name>" && p[3] == v.name && p[4] == "</Name>"
            && p[6] == "<Value>" && p[8] == "<DataType>" && p[9] == v.value.dataType && p[10] == "</DataType>"
  {
  }

  lemma ValuedTags(v: Named<ValueInfo>)
    ensures var p := ValuedPieces(v);
            && |p| == (if v.value.stringValue.None? then 15 else 19) && p[0] == VALUED_OPEN
            && p[2] == "<Name>" && p[3] == v.name && p[4] == "</Name>" && p[6] == "<Value>"
            && p[8] == "<DataType>" && p[9] == v.value.dataType && p[10] == "</DataType>"
            && (v.value.stringValue.Some? ==>
                  p[12] == "<StringValue>" && p[13] == EscapeXml(v.value.stringValue.value) && p[14] == "</StringValue>")
            && p[|p| - 3] == "</Value>" && p[|p| - 1] == VALUED_CLOSE
  {
    hide EscapeXml, TypePieces;
    TypeTags(v);
  }

  lemma ValuedName(v: Named<ValueInfo>)
    requires '<' !in v.name && '<' !in v.value.dataType
    ensures ReadField(Concat(ValuedPieces(v)), "<Name>", "</Name>") == Text(v.name)
  {
    hide EscapeXml, Alternating, ValuedPieces, Concat, ReadField, Inert;
    ValuedAlternates(v);
    ValuedTags(v);
    FieldBetween(ValuedPieces(v), 2, "<Name>", "</Name>", [1], [1, 1]);
  }

  lemma ValuedType(v: Named<ValueInfo>)
    requires '<' !in v.name && '<' !in v.value.dataType
    ensures ReadField(Concat(ValuedPieces(v)), "<DataType>", "</DataType>") == Text(v.value.dataType)
  {
    hide EscapeXml, Alternating, ValuedPieces, Concat, ReadField, Inert;
    ValuedAlternates(v);
    ValuedTags(v);
    FieldBetween(ValuedPieces(v), 8, "<DataType>", "</DataType>", [1, 1, 1, 1], [1, 1, 2, 1, 1]);
  }

  /** No tag of the element can be mistaken for p, whose second character none of them has. */
  lemma ValuedPasses(v: Named<ValueInfo>, p: string)
    requires '<' !in v.name && '<' !in v.value.dataType
    requires |p| > 1 && p[1] != 'M' && p[1] != 'N' && p[1] != 'V' && p[1] != 'D' && p[1] != '/'
    requires p[1] != 'S' || v.value.stringValue.None?
    ensures Inert(Concat(ValuedPieces(v)), p)
  {
    hide EscapeXml, Alternating, ValuedPieces, Concat, Inert;
    ValuedAlternates(v);
    ValuedTags(v);
    ApartPass(ValuedPieces(v), p, if v.value.stringValue.None? then [1, 1, 1, 1, 1, 1, 1, 1] else [1, 1, 1, 1, 1, 1, 1, 1, 1, 1]);
    InertPieces(ValuedPieces(v), p);
  }

  lemma NoField(s: string, open: string, close: string)
    requires open != [] && open[0] == '<' && close != [] && Inert(s, open)
    ensures ReadField(s, open, close) == Absent
  {
    FindPasses(s, [], open);
    assert s + [] == s;
  }

  lemma ValuedString(v: Named<ValueInfo>)
    requires '<' !in v.name && '<' !in v.value.dataType
    ensures TextOf(ReadField(Concat(ValuedPieces(v)), "<StringValue>", "</StringValue>")) == EscapedValue(v).value.stringValue
    ensures !ReadField(Concat(ValuedPieces(v)), "<StringValue>", "</StringValue>").Panic?
  {
    hide EscapeXml, Alternating, ValuedPieces, Concat, ReadField, Inert;
    if v.value.stringValue.None? {
      ValuedPasses(v, "<StringValue>");
      NoField(Concat(ValuedPieces(v)), "<StringValue>", "</StringValue>");
    } else {
      ValuedAlternates(v);
      ValuedTags(v);
      FieldBetween(ValuedPieces(v), 12, "<StringValue>", "</StringValue>", [1, 1, 1, 1, 1, 1], [1, 1, 2, 1, 1, 2, 1]);
    }
  }

  lemma ValuedReadBack(v: Named<ValueInfo>, found: map<string, ValueJson>)
    requires '<' !in v.name && '<' !in v.value.dataType
    ensures ReadValued(Concat(ValuedPieces(v)), found) == Some(found[v.name := SeenValue(EscapedValue(v)).value])
  {
    hide EscapeXml, ValuedPieces, Concat, ReadField, Inert;
    ValuedName(v);
    ValuedType(v);
    ValuedString(v);
    ValuedPasses(v, "<BinaryValue>");
    NoField(Concat(ValuedPieces(v)), "<BinaryValue>", "</BinaryValue>");
  }

  lemma ValuedIsElement(v: Named<ValueInfo>)
    requires '<' !in v.name && '<' !in v.value.dataType
    ensures IsElement(Concat(ValuedPieces(v)), VALUED_OPEN, VALUED_CLOSE)
  {
    hide EscapeXml, Alternating, ValuedPieces, Concat, IsElement;
    ValuedAlternates(v);
    ValuedTags(v);
    if v.value.stringValue.None? {
      ElementBetween(ValuedPieces(v), VALUED_OPEN, VALUED_CLOSE, [1, 1, 2, 1, 1, 2, 2]);
    } else {
      ElementBetween(ValuedPieces(v), VALUED_OPEN, VALUED_CLOSE, [1, 1, 2, 1, 1, 2, 1, 2, 2]);
    }
  }

  lemma ValuedPassesEnd(v: Named<ValueInfo>)
    requires '<' !in v.name && '<' !in v.value.dataType
    ensures Inert(Concat(ValuedPieces(v)), MESSAGE_CLOSE)
  {
    hide EscapeXml, Alternating, ValuedPieces, Concat, Inert;
    ValuedAlternates(v);
    ValuedTags(v);
    if v.value.stringValue.None? {
      ApartPass(ValuedPieces(v), MESSAGE_CLOSE, [1, 1, 2, 1, 1, 2, 2, 9]);
    } else {
      ApartPass(ValuedPieces(v), MESSAGE_CLOSE, [1, 1, 2, 1, 1, 2, 1, 2, 2, 9]);
    }
    InertPieces(ValuedPieces(v), MESSAGE_CLOSE);
  }

  // ---------------------------------------------------------------- the front of a message

  lemma FrontAlternates(m: MessageInfo)
    requires TagFree(m)
    ensures Alternating(FrontPieces(m)) && |FrontPieces(m)| == 18
  {
    hide EscapeXml;
    EscapedIsClean(m.body);
  }

  lemma FrontTags(m: MessageInfo)
    ensures var p := FrontPieces(m);
            && |p| == 18 && p[0] == MESSAGE_OPEN && p[2] == "<MessageId>" && p[3] == m.id && p[4] == "</MessageId>"
            && p[6] == "<ReceiptHandle>" && p[7] == m.handle && p[8] == "</ReceiptHandle>"
            && p[10] == "<MD5OfBody>" && p[11] == m.bodyHash && p[12] == "</MD5OfBody>"
            && p[14] == "<Body>" && p[15] == EscapeXml(m.body) && p[16] == "</Body>"
  {
    hide EscapeXml;
  }

  /** A field among the first pieces is found whatever follows them. */
  lemma FieldBefore(front: seq<string>, rest: string, k: nat, open: string, close: string, before: seq<nat>, within: seq<nat>)
    requires Alternating(front) && k + 2 < |front| && front[k] == open && front[k + 2] == close
    requires open != [] && open[0] == '<' && close != [] && close[0] == '<'
    requires 2 * |before| == k && Apart(front, open, before)
    requires 2 * |within| == k + 2 && Apart(front, close, within)
    ensures ReadField(Concat(front) + rest, open, close) == Text(front[k + 1])
  {
    hide Alternating, Apart, Inert, ReadField, Concat;
    ApartPass(front, open, before);
    ApartPass(front, close, within);
    var pieces := front + [rest];
    assert forall j :: 0 <= j < |front| ==> pieces[j] == front[j];
    FieldOfPieces(pieces, k, open, close);
    ConcatJoin(front, [rest]);
    ConcatOne(rest);
  }

  lemma FrontId(m: MessageInfo, rest: string)
    requires TagFree(m)
    ensures ReadField(Concat(FrontPieces(m)) + rest, "<MessageId>", "</MessageId>") == Text(m.id)
  {
    hide EscapeXml, Alternating, FrontPieces, Concat, ReadField, Inert, TagFree;
    FrontAlternates(m);
    FrontTags(m);
    FieldBefore(FrontPieces(m), rest, 2, "<MessageId>", "</MessageId>", [8], [1, 1]);
  }

  lemma FrontHandle(m: MessageInfo, rest: string)
    requires TagFree(m)
    ensures ReadField(Concat(FrontPieces(m)) + rest, "<ReceiptHandle>", "</ReceiptHandle>") == Text(m.handle)
  {
    hide EscapeXml, Alternating, FrontPieces, Concat, ReadField, Inert, TagFree;
    FrontAlternates(m);
    FrontTags(m);
    FieldBefore(FrontPieces(m), rest, 6, "<ReceiptHandle>", "</ReceiptHandle>", [1, 1, 1], [1, 1, 2, 1]);
  }

  lemma FrontHash(m: MessageInfo, rest: string)
    requires TagFree(m)
    ensures ReadField(Concat(FrontPieces(m)) + rest, "<MD5OfBody>", "</MD5OfBody>") == Text(m.bodyHash)
  {
    hide EscapeXml, Alternating, FrontPieces, Concat, ReadField, Inert, TagFree;
    FrontAlternates(m);
    FrontTags(m);
    FieldBefore(FrontPieces(m), rest, 10, "<MD5OfBody>", "</MD5OfBody>", [2, 2, 1, 1, 1], [1, 1, 3, 1, 2, 1]);
  }

  lemma FrontBody(m: MessageInfo, rest: string)
    requires TagFree(m)
    ensures ReadField(Concat(FrontPieces(m)) + rest, "<Body>", "</Body>") == Text(EscapeXml(m.body))
  {
    hide EscapeXml, Alternating, FrontPieces, Concat, ReadField, Inert, TagFree;
    FrontAlternates(m);
    FrontTags(m);
    FieldBefore(FrontPieces(m), rest, 14, "<Body>", "</Body>", [1, 1, 1, 1, 1, 1, 1], [1, 1, 2, 1, 2, 1, 2, 1]);
  }

  lemma FrontPasses(m: MessageInfo)
    requires TagFree(m)
    ensures Inert(Concat(FrontPieces(m)), ATTRIBUTE_OPEN) && Inert(Concat(FrontPieces(m)), VALUED_OPEN)
  {
    hide EscapeXml, Alternating, FrontPieces, Concat, Inert, TagFree;
    FrontAlternates(m);
    FrontTags(m);
    ApartPass(FrontPieces(m), ATTRIBUTE_OPEN, [1, 1, 1, 1, 1, 1, 1, 1, 1]);
    ApartPass(FrontPieces(m), VALUED_OPEN, [8, 8, 1, 1, 1, 2, 1, 1, 1]);
    InertPieces(FrontPieces(m), ATTRIBUTE_OPEN);
    InertPieces(FrontPieces(m), VALUED_OPEN);
  }

  lemma FrontPassesEnd(m: MessageInfo)
    requires TagFree(m)
    ensures forall j :: 0 <= j < 18 ==> Inert(FrontPieces(m)[j], MESSAGE_CLOSE)
  {
    hide EscapeXml, Alternating, FrontPieces, Concat, Inert, TagFree;
    FrontAlternates(m);
    FrontTags(m);
    ApartPass(FrontPieces(m), MESSAGE_CLOSE, [1, 1, 9, 1, 2, 1, 3, 1, 2]);
  }

  // ---------------------------------------------------------------- a whole message

  lemma RowsPass(m: MessageInfo)
    requires TagFree(m)
    ensures Inert(Rows(WIDE, AttributeTexts(m.attributes)), VALUED_OPEN)
    ensures Inert(Rows(WIDE, AttributeTexts(m.attributes)), MESSAGE_CLOSE)
    ensures Inert(Rows(WIDE, ValuedTexts(m.valued)), ATTRIBUTE_OPEN)
    ensures Inert(Rows(WIDE, ValuedTexts(m.valued)), MESSAGE_CLOSE)
  {
    hide Concat, Inert, Rows, AttributePieces, ValuedPieces;
    var attributes, valued := AttributeTexts(m.attributes), ValuedTexts(m.valued);
    forall k | 0 <= k < |attributes|
      ensures Inert(attributes[k], VALUED_OPEN) && Inert(attributes[k], MESSAGE_CLOSE)
    {
      AttributePasses(m.attributes[k]);
    }
    forall k | 0 <= k < |valued|
      ensures Inert(valued[k], ATTRIBUTE_OPEN) && Inert(valued[k], MESSAGE_CLOSE)
    {
      ValuedPasses(m.valued[k], ATTRIBUTE_OPEN);
      ValuedPassesEnd(m.valued[k]);
    }
    RowsInert(WIDE, attributes, VALUED_OPEN);
    RowsInert(WIDE, attributes, MESSAGE_CLOSE);
    RowsInert(WIDE, valued, ATTRIBUTE_OPEN);
    RowsInert(WIDE, valued, MESSAGE_CLOSE);
  }

  lemma BackPasses()
    ensures Inert(Concat(BackPieces()), ATTRIBUTE_OPEN) && Inert(Concat(BackPieces()), VALUED_OPEN)
  {
    hide Inert, Concat;
    InertText(INDENT, ATTRIBUTE_OPEN);
    InertText(INDENT, VALUED_OPEN);
    InertTag(MESSAGE_CLOSE, ATTRIBUTE_OPEN, 1);
    InertTag(MESSAGE_CLOSE, VALUED_OPEN, 1);
    InertPieces(BackPieces(), ATTRIBUTE_OPEN);
    InertPieces(BackPieces(), VALUED_OPEN);
  }

  lemma FiveJoin(front: seq<string>, a: string, b: string, back: seq<string>)
    ensures Concat(front + [a, b] + back) == Concat(front) + (a + (b + Concat(back)))
  {
    hide Concat;
    assert front + [a, b] + back == front + ([a] + ([b] + back));
    ConcatJoin(front, [a] + ([b] + back));
    ConcatJoin([a], [b] + back);
    ConcatJoin([b], back);
    ConcatOne(a);
    ConcatOne(b);
  }

  lemma MessageIsElement(m: MessageInfo)
    requires TagFree(m)
    ensures IsElement(MessageText(m), MESSAGE_OPEN, MESSAGE_CLOSE)
  {
    hide Inert, Rows, Concat, FrontPieces, AttributeTexts, ValuedTexts, TagFree;
    var a, b := Rows(WIDE, AttributeTexts(m.attributes)), Rows(WIDE, ValuedTexts(m.valued));
    var pieces := FrontPieces(m) + [a, b] + BackPieces();
    FrontTags(m);
    FrontPassesEnd(m);
    RowsPass(m);
    InertText(INDENT, MESSAGE_CLOSE);
    FiveJoin(FrontPieces(m), a, b, BackPieces());
    forall j | 0 <= j < |pieces| - 1
      ensures Inert(pieces[j], MESSAGE_CLOSE)
    {
      if j < 18 {
        assert pieces[j] == FrontPieces(m)[j];
      }
    }
    assert pieces[0] == FrontPieces(m)[0] && pieces[|pieces| - 1] == MESSAGE_CLOSE;
  }

  lemma NestedElements(m: MessageInfo)
    requires TagFree(m)
    ensures Elements(MessageText(m), ATTRIBUTE_OPEN, ATTRIBUTE_CLOSE) == AttributeTexts(m.attributes)
    ensures Elements(MessageText(m), VALUED_OPEN, VALUED_CLOSE) == ValuedTexts(m.valued)
  {
    hide Inert, Rows, Concat, FrontPieces, AttributePieces, ValuedPieces, IsElement, Elements;
    var attributes, valued := AttributeTexts(m.attributes), ValuedTexts(m.valued);
    var front, a, b, back := Concat(FrontPieces(m)), Rows(WIDE, attributes), Rows(WIDE, valued), Concat(BackPieces());
    forall k | 0 <= k < |attributes|
      ensures IsElement(attributes[k], ATTRIBUTE_OPEN, ATTRIBUTE_CLOSE)
    {
      AttributeIsElement(m.attributes[k]);
    }
    forall k | 0 <= k < |valued|
      ensures IsElement(valued[k], VALUED_OPEN, VALUED_CLOSE)
    {
      ValuedIsElement(m.valued[k]);
    }
    FrontPasses(m);
    RowsPass(m);
    BackPasses();
    InertJoin(b, back, ATTRIBUTE_OPEN);
    RowsReadBack(WIDE, front, attributes, b + back, ATTRIBUTE_OPEN, ATTRIBUTE_CLOSE);
    InertJoin(front, a, VALUED_OPEN);
    RowsReadBack(WIDE, front + a, valued, back, VALUED_OPEN, VALUED_CLOSE);
    assert front + (a + (b + back)) == front + a + (b + back);
  }

  lemma {:induction false} FoldAll<T>(read: (string, map<string, T>) -> Option<map<string, T>>, texts: seq<string>,
                                      es: seq<Named<T>>, found: map<string, T>)
    requires |texts| == |es|
    requires forall k, had :: 0 <= k < |texts| ==> read(texts[k], had) == Some(had[es[k].name := es[k].value])
    ensures Fold(read, texts, found) == Some(Extend(found, es))
    decreases |texts|
  {
    if texts != [] {
      forall k, had | 0 <= k < |texts[1..]|
        ensures read(texts[1..][k], had) == Some(had[es[1..][k].name := es[1..][k].value])
      {
        assert texts[1..][k] == texts[k + 1] && es[1..][k] == es[k + 1];
      }
      FoldAll(read, texts[1..], es[1..], found[es[0].name := es[0].value]);
    }
  }

  lemma AttributesReadBack(m: MessageInfo)
    requires TagFree(m)
    ensures Fold(ReadAttribute, AttributeTexts(m.attributes), map[]) == Some(Extend(map[], EscapedAttributes(m.attributes)))
  {
    hide ReadAttribute, AttributePieces, Concat, Fold, Extend, EscapeXml;
    var texts, es := AttributeTexts(m.attributes), EscapedAttributes(m.attributes);
    forall k, had | 0 <= k < |texts|
      ensures ReadAttribute(texts[k], had) == Some(had[es[k].name := es[k].value])
    {
      AttributeReadBack(m.attributes[k], had);
    }
    FoldAll(ReadAttribute, texts, es, map[]);
  }

  lemma ValuesReadBack(m: MessageInfo)
    requires TagFree(m)
    ensures Fold(ReadValued, ValuedTexts(m.valued), map[]) == Some(Extend(map[], SeenValues(EscapedValues(m.valued))))
  {
    hide ReadValued, ValuedPieces, Concat, Fold, Extend, EscapeXml;
    var texts, es := ValuedTexts(m.valued), SeenValues(EscapedValues(m.valued));
    forall k, had | 0 <= k < |texts|
      ensures ReadValued(texts[k], had) == Some(had[es[k].name := es[k].value])
    {
      ValuedReadBack(m.valued[k], had);
    }
    FoldAll(ReadValued, texts, es, map[]);
  }

  lemma MessageReadBack(m: MessageInfo)
    requires TagFree(m)
    ensures AsMessage(MessageText(m)) == Some(Seen(Escaped(m)))
  {
    hide TagFree, FrontPieces, Concat, ReadField, Rows, Elements, Fold, Extend, AttributeTexts, ValuedTexts,
         EscapedAttributes, EscapedValues, SeenValues, EscapeXml;
    var rest := Rows(WIDE, AttributeTexts(m.attributes)) + (Rows(WIDE, ValuedTexts(m.valued)) + Concat(BackPieces()));
    FrontId(m, rest);
    FrontHandle(m, rest);
    FrontHash(m, rest);
    FrontBody(m, rest);
    NestedElements(m);
    AttributesReadBack(m);
    ValuesReadBack(m);
  }

  // ---------------------------------------------------------------- the whole response

  lemma HeadPasses()
    ensures Inert(Concat(HeadPieces()), MESSAGE_OPEN)
  {
    hide Inert, Concat;
    var p := MESSAGE_OPEN;
    InertTag("<?xml version=\"1.0\"?>", p, 1);
    InertText("\n", p);
    InertTag("<ReceiveMessageResponse ", p, 1);
    InertText("xmlns=\"http:", p);
    InertText("//queue.amazonaws.com", p);
    InertText("/doc/2012-11-05/\">", p);
    InertText("\n  ", p);
    InertTag("<ReceiveMessageResult>", p, 1);
    InertPieces(HeadPieces(), p);
  }

  lemma FootPasses(requestId: string)
    requires '<' !in requestId
    ensures Inert(Concat(FootPieces(requestId)), MESSAGE_OPEN)
  {
    hide Inert, Concat;
    var p := MESSAGE_OPEN;
    InertText("  ", p);
    InertTag("</ReceiveMessageResult>", p, 1);
    InertText("\n  ", p);
    InertTag("<ResponseMetadata>", p, 1);
    InertText("\n    ", p);
    InertTag("<RequestId>", p, 1);
    InertText(requestId, p);
    InertTag("</RequestId>", p, 1);
    InertTag("</ResponseMetadata>", p, 1);
    InertText("\n", p);
    InertTag("</ReceiveMessageResponse>", p, 1);
    InertPieces(FootPieces(requestId), p);
  }

  /** The scan recovers every message, in order, with its attributes of both kinds, body and values
      as escaped. */
  lemma ScanUndoesBuild(ms: seq<MessageInfo>, requestId: string)
    requires '<' !in requestId && forall k :: 0 <= k < |ms| ==> TagFree(ms[k])
    ensures ScanMessages(Document(ms, requestId)) == Some(SeenAll(EscapedAll(ms)))
  {
    hide TagFree, MessageText, Concat, Inert, IsElement, Elements, Rows, AsMessage, Collect, HeadPieces, FootPieces, Escaped, Seen;
    var texts := MessageTexts(ms);
    forall k | 0 <= k < |texts|
      ensures IsElement(texts[k], MESSAGE_OPEN, MESSAGE_CLOSE) && AsMessage(texts[k]) == Some(SeenAll(EscapedAll(ms))[k])
    {
      MessageIsElement(ms[k]);
      MessageReadBack(ms[k]);
    }
    HeadPasses();
    FootPasses(requestId);
    RowsReadBack(INDENT, Concat(HeadPieces()), texts, Concat(FootPieces(requestId)), MESSAGE_OPEN, MESSAGE_CLOSE);
    CollectAll(AsMessage, texts, SeenAll(EscapedAll(ms)));
  }

  // ---------------------------------------------------------------- as it was sent

  predicate PlainMessage(m: MessageInfo) {
    && PlainText(m.body)
    && (forall k :: 0 <= k < |m.attributes| ==> PlainText(m.attributes[k].value))
    && (forall k :: 0 <= k < |m.valued| ==>
          m.valued[k].value.stringValue.Some? ==> PlainText(m.valued[k].value.stringValue.value))
  }

  /** The source takes both kinds of attributes from lists without a name twice. */
  ghost predicate DistinctNames<T(!new)>(es: seq<Named<T>>) {
    forall i, j :: 0 <= i < j < |es| ==> es[i].name != es[j].name
  }

  lemma {:induction false} ExtendAt<T(!new)>(found: map<string, T>, es: seq<Named<T>>)
    requires DistinctNames(es)
    ensures forall k :: 0 <= k < |es| ==> es[k].name in Extend(found, es) && Extend(found, es)[es[k].name] == es[k].value
    ensures forall n :: (forall k :: 0 <= k < |es| ==> es[k].name != n) ==>
              if n in found then n in Extend(found, es) && Extend(found, es)[n] == found[n] else n !in Extend(found, es)
    decreases |es|
  {
    if es != [] {
      var rest := es[1..];
      assert forall k :: 0 <= k < |rest| ==> rest[k] == es[k + 1];
      assert forall k :: 0 < k < |es| ==> es[k] == rest[k - 1];
      ExtendAt(found[es[0].name := es[0].value], rest);
    }
  }

  lemma ExtendIff<T(!new)>(a: seq<Named<T>>, b: seq<Named<T>>)
    requires DistinctNames(a) && |a| == |b| && forall k :: 0 <= k < |a| ==> a[k].name == b[k].name
    ensures Extend(map[], a) == Extend(map[], b) <==> forall k :: 0 <= k < |a| ==> a[k].value == b[k].value
  {
    hide Extend;
    ExtendAt(map[], a);
    ExtendAt(map[], b);
    if forall k :: 0 <= k < |a| ==> a[k].value == b[k].value {
      assert a == b;
    } else {
      var k :| 0 <= k < |a| && a[k].value != b[k].value;
      assert Extend(map[], a)[a[k].name] == a[k].value && Extend(map[], b)[b[k].name] == b[k].value;
    }
  }

  lemma AttributesUnchangedIff(es: seq<Named<string>>)
    requires DistinctNames(es)
    ensures Extend(map[], EscapedAttributes(es)) == Extend(map[], es) <==> forall k :: 0 <= k < |es| ==> PlainText(es[k].value)
  {
    hide EscapeXml, PlainText, Extend;
    ExtendIff(es, EscapedAttributes(es));
    forall k | 0 <= k < |es|
      ensures EscapedAttributes(es)[k].value == es[k].value <==> PlainText(es[k].value)
    {
      EscapeChangesIff(es[k].value);
    }
  }

  lemma ValueUnchangedIff(v: Named<ValueInfo>)
    ensures SeenValue(EscapedValue(v)).value == SeenValue(v).value <==>
              (v.value.stringValue.Some? ==> PlainText(v.value.stringValue.value))
  {
    hide EscapeXml, PlainText;
    if v.value.stringValue.Some? {
      EscapeChangesIff(v.value.stringValue.value);
    }
  }

  lemma ValuesUnchangedIff(es: seq<Named<ValueInfo>>)
    requires DistinctNames(es)
    ensures Extend(map[], SeenValues(EscapedValues(es))) == Extend(map[], SeenValues(es)) <==>
              forall k :: 0 <= k < |es| ==> es[k].value.stringValue.Some? ==> PlainText(es[k].value.stringValue.value)
  {
    hide EscapeXml, PlainText, Extend;
    var a, b := SeenValues(es), SeenValues(EscapedValues(es));
    ExtendIff(a, b);
    forall k | 0 <= k < |es|
      ensures a[k].value == b[k].value <==> (es[k].value.stringValue.Some? ==> PlainText(es[k].value.stringValue.value))
    {
      ValueUnchangedIff(es[k]);
    }
  }

  lemma NonEmptyIff<T>(a: map<string, T>, b: map<string, T>)
    ensures NonEmpty(a) == NonEmpty(b) <==> a == b
  {
  }

  lemma MessageUnchangedIff(m: MessageInfo)
    requires DistinctNames(m.attributes) && DistinctNames(m.valued)
    ensures Seen(Escaped(m)) == Seen(m) <==> PlainMessage(m)
  {
    hide EscapeXml, PlainText, Extend, EscapedAttributes, EscapedValues, SeenValues, NonEmpty, DistinctNames;
    EscapeChangesIff(m.body);
    AttributesUnchangedIff(m.attributes);
    ValuesUnchangedIff(m.valued);
    NonEmptyIff(Extend(map[], EscapedAttributes(m.attributes)), Extend(map[], m.attributes));
    NonEmptyIff(Extend(map[], SeenValues(EscapedValues(m.valued))), Extend(map[], SeenValues(m.valued)));
  }

  /** The client sees every message as it was sent exactly when no body and no value has a special
      character. */
  lemma SeenAsSentIff(ms: seq<MessageInfo>, requestId: string)
    requires '<' !in requestId && forall k :: 0 <= k < |ms| ==> TagFree(ms[k])
    requires forall k :: 0 <= k < |ms| ==> DistinctNames(ms[k].attributes) && DistinctNames(ms[k].valued)
    ensures ScanMessages(Document(ms, requestId)) == Some(SeenAll(ms)) <==> forall k :: 0 <= k < |ms| ==> PlainMessage(ms[k])
  {
    hide TagFree, DistinctNames, ScanMessages, Document, Escaped, Seen, PlainMessage;
    ScanUndoesBuild(ms, requestId);
    var a, b := SeenAll(EscapedAll(ms)), SeenAll(ms);
    forall k | 0 <= k < |ms|
      ensures a[k] == b[k] <==> PlainMessage(ms[k])
    {
      MessageUnchangedIff(ms[k]);
    }
    if k :| 0 <= k < |ms| && !PlainMessage(ms[k]) {
      assert a[k] != b[k];
    } else {
      assert a == b;
    }
  }

  // ---------------------------------------------------------------- names that cannot come back

  lemma AtWithin(s: string, from: nat, end: nat, p: string, i: nat)
    requires from <= end <= |s| && At(s[from..end], p, i)
    ensures At(s, p, from + i) && from + i + |p| <= end
  {
    var t := s[from..end];
    assert forall k :: i <= k < i + |p| ==> t[k] == s[from + k];
    assert t[i..i + |p|] == s[from + i..from + i + |p|];
  }

  lemma FieldEndsFirst(s: string, open: string, close: string)
    requires open != [] && close != []
    ensures ReadField(s, open, close).Text? ==> !Contains(ReadField(s, open, close).value, close)
  {
    hide Find;
    if ReadField(s, open, close).Text? {
      var value, from, end := ReadField(s, open, close).value, Find(s, open).value + |open|, Find(s, close).value;
      FindIsFirst(s, close);
      FindIsFirst(value, close);
      if Find(value, close).Some? {
        AtWithin(s, from, end, close, Find(value, close).value);
      }
    }
  }

  lemma ReadName(text: string, found: map<string, ValueJson>, n: string)
    requires ReadValued(text, found).Some? && n in ReadValued(text, found).value
    ensures n in found || !Contains(n, "</Name>")
  {
    hide ReadField, Contains, ReadValue;
    FieldEndsFirst(text, "<Name>", "</Name>");
  }

  lemma {:induction false} FoldNames(texts: seq<string>, found: map<string, ValueJson>, n: string)
    requires Fold(ReadValued, texts, found).Some? && n in Fold(ReadValued, texts, found).value
    ensures n in found || !Contains(n, "</Name>")
    decreases |texts|
  {
    hide ReadValued, Contains;
    if texts != [] {
      var next := ReadValued(texts[0], found).value;
      FoldNames(texts[1..], next, n);
      if n in next {
        ReadName(texts[0], found, n);
      }
    }
  }

  lemma {:induction false} CollectAt<T>(read: string -> Option<T>, texts: seq<string>, k: nat)
    requires Collect(read, texts).Some? && k < |Collect(read, texts).value|
    ensures k < |texts| && read(texts[k]) == Some(Collect(read, texts).value[k])
  {
    if k > 0 {
      CollectAt(read, texts[1..], k - 1);
    }
  }

  lemma {:induction false} ExtendHas<T>(found: map<string, T>, es: seq<Named<T>>, n: string)
    requires n in found || exists k :: 0 <= k < |es| && es[k].name == n
    ensures n in Extend(found, es)
    decreases |es|
  {
    if es != [] {
      if k :| 0 <= k < |es| && es[k].name == n {
        assert k > 0 ==> es[1..][k - 1].name == n;
      }
      ExtendHas(found[es[0].name := es[0].value], es[1..], n);
    }
  }

  /** A message attribute whose name contains its own closing tag never comes back, whatever text
      the scan is given. */
  lemma ClosingTagInNameIsLost(xml: string, ms: seq<MessageInfo>, i: nat, j: nat)
    requires i < |ms| && j < |ms[i].valued| && Contains(ms[i].valued[j].name, "</Name>")
    ensures ScanMessages(xml) != Some(SeenAll(ms))
  {
    hide ReadField, Contains, Elements, Extend, Fold;
    if ScanMessages(xml) == Some(SeenAll(ms)) {
      var texts, n := Elements(xml, MESSAGE_OPEN, MESSAGE_CLOSE), ms[i].valued[j].name;
      CollectAt(AsMessage, texts, i);
      var es := SeenValues(ms[i].valued);
      assert es[j].name == n;
      ExtendHas(map[], es, n);
      FoldNames(Elements(texts[i], VALUED_OPEN, VALUED_CLOSE), map[], n);
    }
  }

  // ---------------------------------------------------------------- the loops of the source

  method BuildMessage(m: MessageInfo) returns (text: string)
    ensures text == MessageText(m)
  {
    hide Concat, FrontPieces, AttributePieces, ValuedPieces, BackPieces, Rows;
    var front := Concat(FrontPieces(m));
    ghost var attributes, valued := AttributeTexts(m.attributes), ValuedTexts(m.valued);
    text := front;
    for i := 0 to |m.attributes|
      invariant text + Rows(WIDE, attributes[i..]) == front + Rows(WIDE, attributes)
    {
      RowsMore(WIDE, text, attributes, i);
      text := text + (WIDE + Concat(AttributePieces(m.attributes[i])) + "\n");
    }
    NoRows(WIDE, attributes[|attributes|..]);
    assert text + [] == text;
    for i := 0 to |m.valued|
      invariant text + Rows(WIDE, valued[i..]) == front + Rows(WIDE, attributes) + Rows(WIDE, valued)
    {
      RowsMore(WIDE, text, valued, i);
      text := text + (WIDE + Concat(ValuedPieces(m.valued[i])) + "\n");
    }
    NoRows(WIDE, valued[|valued|..]);
    assert text + [] == text;
    var back := Concat(BackPieces());
    text := text + back;
    assert front + Rows(WIDE, attributes) + Rows(WIDE, valued) + back
        == front + (Rows(WIDE, attributes) + (Rows(WIDE, valued) + back));
  }

  method BuildReceiveMessage(ms: seq<MessageInfo>, requestId: string) returns (xml: string)
    ensures xml == Document(ms, requestId)
  {
    hide Concat, HeadPieces, FootPieces, MessageText, Rows;
    var head := Concat(HeadPieces());
    ghost var texts := MessageTexts(ms);
    xml := head;
    for i := 0 to |ms|
      invariant xml + Rows(INDENT, texts[i..]) == head + Rows(INDENT, texts)
    {
      RowsMore(INDENT, xml, texts, i);
      var text := BuildMessage(ms[i]);
      xml := xml + (INDENT + text + "\n");
    }
    NoRows(INDENT, texts[|texts|..]);
    assert xml + [] == xml;
    var foot := Concat(FootPieces(requestId));
    xml := xml + foot;
    assert head + Rows(INDENT, texts) + foot == head + (Rows(INDENT, texts) + foot);
  }

  /** The scan with the loops that the source nests: elements of a message within a message. */
  method ScanReceiveMessage(xml: string) returns (messages: Option<seq<MessageJson>>)
    ensures messages == ScanMessages(xml)
  {
    hide Elements, AsMessage;
    var texts := CollectElements(xml, MESSAGE_OPEN, MESSAGE_CLOSE);
    var found: seq<MessageJson> := [];
    assert texts[0..] == texts;
    PrependNothing(Collect(AsMessage, texts));
    for i := 0 to |texts|
      invariant Collect(AsMessage, texts) == Prepend(found, Collect(AsMessage, texts[i..]))
    {
      CollectStep(AsMessage, found, texts, i);
      var message := ReadMessage(texts[i]);
      if message.None? {
        return None;
      }
      found := found + [message.value];
    }
    assert texts[|texts|..] == [] && found + [] == found;
    messages := Some(found);
  }

  function Prepend<T>(done: seq<T>, rest: Option<seq<T>>): Option<seq<T>> {
    if rest.None? then None else Some(done + rest.value)
  }

  lemma PrependNothing<T>(rest: Option<seq<T>>)
    ensures Prepend([], rest) == rest
  {
    if rest.Some? {
      assert [] + rest.value == rest.value;
    }
  }

  lemma CollectStep<T>(read: string -> Option<T>, done: seq<T>, texts: seq<string>, i: nat)
    requires i < |texts|
    ensures Prepend(done, Collect(read, texts[i..]))
         == if read(texts[i]).None? then None else Prepend(done + [read(texts[i]).value], Collect(read, texts[i + 1..]))
  {
    assert texts[i..][1..] == texts[i + 1..];
    var rest := Collect(read, texts[i + 1..]);
    if read(texts[i]).Some? && rest.Some? {
      assert done + ([read(texts[i]).value] + rest.value) == done + [read(texts[i]).value] + rest.value;
    }
  }

  method ReadMessage(text: string) returns (message: Option<MessageJson>)
    ensures message == AsMessage(text)
  {
    hide Elements, ReadField, ReadAttribute, ReadValued;
    var id, handle := ReadField(text, "<MessageId>", "</MessageId>"), ReadField(text, "<ReceiptHandle>", "</ReceiptHandle>");
    var body, bodyHash := ReadField(text, "<Body>", "</Body>"), ReadField(text, "<MD5OfBody>", "</MD5OfBody>");
    if id.Panic? || handle.Panic? || body.Panic? || bodyHash.Panic? {
      return None;
    }
    var attributeTexts := CollectElements(text, ATTRIBUTE_OPEN, ATTRIBUTE_CLOSE);
    var attributes := FoldTexts(ReadAttribute, attributeTexts);
    if attributes.None? {
      return None;
    }
    var valuedTexts := CollectElements(text, VALUED_OPEN, VALUED_CLOSE);
    var valued := FoldTexts(ReadValued, valuedTexts);
    if valued.None? {
      return None;
    }
    message := Some(MessageJson(TextOf(id), TextOf(handle), TextOf(body), TextOf(bodyHash),
                                NonEmpty(attributes.value), NonEmpty(valued.value)));
  }

  method FoldTexts<T>(read: (string, map<string, T>) -> Option<map<string, T>>, texts: seq<string>)
    returns (found: Option<map<string, T>>)
    ensures found == Fold(read, texts, map[])
  {
    var had: map<string, T> := map[];
    assert texts[0..] == texts;
    for i := 0 to |texts|
      invariant Fold(read, texts[i..], had) == Fold(read, texts, map[])
    {
      assert texts[i..][1..] == texts[i + 1..];
      var next := read(texts[i], had);
      if next.None? {
        return None;
      }
      had := next.value;
    }
    assert texts[|texts|..] == [];
    found := Some(had);
  }
}
