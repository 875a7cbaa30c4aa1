/** The queue attributes as XML, and the scan that turns the XML back into a map. */
module XmlAttributes {
  import opened Types
  import opened Escape
  import opened Markup

  datatype Pair = Pair(name: string, value: string)

  // ---------------------------------------------------------------- the document

  function HeadPieces(): seq<string> {
    ["<?xml version=\"1.0\"?>", "\n", "<GetQueueAttributesResponse "]
  }

  function OpenPieces(): seq<string> {
    ["xmlns=\"http:", "//queue.amazonaws.com", "/doc/2012-11-05/\">", "\n  ", "<GetQueueAttributesResult>", "\n"]
  }

  function EntryPieces(name: string, value: string): seq<string> {
    ["<Attribute>", "\n      ", "<Name>", name, "</Name>", "\n      ", "<Value>", value, "</Value>", "\n    ", "</Attribute>"]
  }

  function ClosePieces(): seq<string> {
    ["  ", "</GetQueueAttributesResult>", "\n  ", "<ResponseMetadata>", "\n    "]
  }

  function FootPieces(requestId: string): seq<string> {
    ["<RequestId>", requestId, "</RequestId>", "\n  ", "</ResponseMetadata>", "\n", "</GetQueueAttributesResponse>"]
  }

  function Head(): string {
    Concat(HeadPieces()) + Concat(OpenPieces())
  }

  function Foot(requestId: string): string {
    Concat(ClosePieces()) + Concat(FootPieces(requestId))
  }

  function Rows(attributes: seq<Pair>): string {
    if attributes == [] then []
    else "    " + Concat(EntryPieces(EscapeXml(attributes[0].name), EscapeXml(attributes[0].value)))
         + ("\n" + Rows(attributes[1..]))
  }

  function Document(attributes: seq<Pair>, requestId: string): string {
    Head() + (Rows(attributes) + Foot(requestId))
  }

  // ---------------------------------------------------------------- the scan

  /** One attribute element; an incomplete one is skipped, None stands for a panic. */
  function ReadAttribute(text: string, found: map<string, string>): Option<map<string, string>> {
    match ReadField(text, "<Name>", "</Name>")
    case Absent => Some(found)
    case Panic => None
    case Text(name) =>
      match ReadField(text, "<Value>", "</Value>")
      case Absent => Some(found)
      case Panic => None
      case Text(value) => Some(found[name := UnescapeXml(value)])
  }

  function ScanFrom(s: string, found: map<string, string>): Option<map<string, string>>
    decreases |s|
  {
    match NextElement(s, "<Attribute>", "</Attribute>")
    case None => Some(found)
    case Some(element) =>
      var next := ReadAttribute(element.text, found);
      if next.None? then None else ScanFrom(element.rest, next.value)
  }

  /** What the client should get: every name once, with the last value given for it. */
  function AsMap(attributes: seq<Pair>): map<string, string> {
    if attributes == [] then map[]
    else
      var front, last := attributes[..|attributes| - 1], attributes[|attributes| - 1];
      AsMap(front)[EscapeXml(last.name) := last.value]
  }

  // ---------------------------------------------------------------- round trip

  lemma EntryInert(name: string, value: string)
    requires '<' !in name && '<' !in value
    ensures var e := EntryPieces(name, value);
            && (forall j :: 0 <= j < 2 ==> Inert(e[j], "<Name>"))
            && (forall j :: 0 <= j < 4 ==> Inert(e[j], "</Name>"))
            && (forall j :: 0 <= j < 6 ==> Inert(e[j], "<Value>"))
            && (forall j :: 0 <= j < 8 ==> Inert(e[j], "</Value>"))
            && (forall j :: 0 <= j < 10 ==> Inert(e[j], "</Attribute>"))
  {
    hide Inert;
    EntryInertName(name, value);
    EntryInertValue(name, value);
    EntryInertEnd(name, value);
  }

  lemma EntryInertName(name: string, value: string)
    requires '<' !in name && '<' !in value
    ensures var e := EntryPieces(name, value);
            && (forall j :: 0 <= j < 2 ==> Inert(e[j], "<Name>"))
            && (forall j :: 0 <= j < 4 ==> Inert(e[j], "</Name>"))
  {
    hide Inert;
    InertTag("<Attribute>", "<Name>", 1);
    InertText("\n      ", "<Name>");
    InertTag("<Attribute>", "</Name>", 1);
    InertText("\n      ", "</Name>");
    InertTag("<Name>", "</Name>", 1);
    InertText(name, "</Name>");
  }

  lemma EntryInertValue(name: string, value: string)
    requires '<' !in name && '<' !in value
    ensures var e := EntryPieces(name, value);
            && (forall j :: 0 <= j < 6 ==> Inert(e[j], "<Value>"))
            && (forall j :: 0 <= j < 8 ==> Inert(e[j], "</Value>"))
  {
    hide Inert;
    InertTag("<Attribute>", "<Value>", 1);
    InertText("\n      ", "<Value>");
    InertTag("<Name>", "<Value>", 1);
    InertText(name, "<Value>");
    InertTag("</Name>", "<Value>", 1);
    InertTag("<Attribute>", "</Value>", 1);
    InertText("\n      ", "</Value>");
    InertTag("<Name>", "</Value>", 1);
    InertText(name, "</Value>");
    InertTag("</Name>", "</Value>", 2);
    InertTag("<Value>", "</Value>", 1);
    InertText(value, "</Value>");
  }

  lemma EntryInertEnd(name: string, value: string)
    requires '<' !in name && '<' !in value
    ensures var e := EntryPieces(name, value);
            forall j :: 0 <= j < 10 ==> Inert(e[j], "</Attribute>")
  {
    hide Inert;
    var p := "</Attribute>";
    InertTag("<Attribute>", p, 1);
    InertText("\n      ", p);
    InertTag("<Name>", p, 1);
    InertText(name, p);
    InertTag("</Name>", p, 2);
    InertTag("<Value>", p, 1);
    InertText(value, p);
    InertTag("</Value>", p, 2);
    InertText("\n    ", p);
  }

  lemma HeadInert(p: string)
    requires |p| > 1 && p[1] != '?' && p[1] != 'G'
    ensures Inert(Head(), p)
  {
    hide Inert, HeadPieces, OpenPieces;
    HeadPiecesInert(p);
    OpenPiecesInert(p);
    InertJoin(Concat(HeadPieces()), Concat(OpenPieces()), p);
  }

  lemma HeadPiecesInert(p: string)
    requires |p| > 1 && p[1] != '?' && p[1] != 'G'
    ensures Inert(Concat(HeadPieces()), p)
  {
    hide Inert, Concat;
    InertTag("<?xml version=\"1.0\"?>", p, 1);
    InertText("\n", p);
    InertTag("<GetQueueAttributesResponse ", p, 1);
    InertPieces(HeadPieces(), p);
  }

  lemma OpenPiecesInert(p: string)
    requires |p| > 1 && p[1] != 'G'
    ensures Inert(Concat(OpenPieces()), p)
  {
    hide Inert, Concat;
    InertText("xmlns=\"http:", p);
    InertText("//queue.amazonaws.com", p);
    InertText("/doc/2012-11-05/\">", p);
    InertText("\n  ", p);
    InertTag("<GetQueueAttributesResult>", p, 1);
    InertText("\n", p);
    InertPieces(OpenPieces(), p);
  }

  lemma FootInert(requestId: string, p: string)
    requires '<' !in requestId && |p| > 1 && p[1] != '/' && p[1] != 'R'
    ensures Inert(Foot(requestId), p)
  {
    hide Inert, ClosePieces, FootPieces;
    ClosePiecesInert(p);
    FootPiecesInert(requestId, p);
    InertJoin(Concat(ClosePieces()), Concat(FootPieces(requestId)), p);
  }

  lemma ClosePiecesInert(p: string)
    requires |p| > 1 && p[1] != '/' && p[1] != 'R'
    ensures Inert(Concat(ClosePieces()), p)
  {
    hide Inert, Concat;
    InertText("  ", p);
    InertTag("</GetQueueAttributesResult>", p, 1);
    InertText("\n  ", p);
    InertTag("<ResponseMetadata>", p, 1);
    InertText("\n    ", p);
    InertPieces(ClosePieces(), p);
  }

  lemma FootPiecesInert(requestId: string, p: string)
    requires '<' !in requestId && |p| > 1 && p[1] != '/' && p[1] != 'R'
    ensures Inert(Concat(FootPieces(requestId)), p)
  {
    hide Inert, Concat;
    InertTag("<RequestId>", p, 1);
    InertText(requestId, p);
    InertTag("</RequestId>", p, 1);
    InertText("\n  ", p);
    InertTag("</ResponseMetadata>", p, 1);
    InertText("\n", p);
    InertTag("</GetQueueAttributesResponse>", p, 1);
    InertPieces(FootPieces(requestId), p);
  }

  lemma EntryReadBack(name: string, value: string, found: map<string, string>)
    ensures ReadAttribute(Concat(EntryPieces(EscapeXml(name), EscapeXml(value))), found)
         == Some(found[EscapeXml(name) := value])
  {
    hide EscapeXml, UnescapeXml, ReadField, Concat, Inert;
    EscapedIsClean(name);
    EscapedIsClean(value);
    var e := EntryPieces(EscapeXml(name), EscapeXml(value));
    EntryInert(EscapeXml(name), EscapeXml(value));
    FieldOfPieces(e, 2, "<Name>", "</Name>");
    FieldOfPieces(e, 6, "<Value>", "</Value>");
    UnescapeUndoesEscape(value);
  }

  lemma RowsStep(lead: string, attributes: seq<Pair>, foot: string)
    requires attributes != [] && Inert(lead, "<Attribute>")
    ensures NextElement(lead + (Rows(attributes) + foot), "<Attribute>", "</Attribute>")
         == Some(Element(Concat(EntryPieces(EscapeXml(attributes[0].name), EscapeXml(attributes[0].value))),
                         "\n" + (Rows(attributes[1..]) + foot)))
  {
    hide EscapeXml, Concat, Inert, NextElement, EntryPieces, Rows;
    var a := attributes[0];
    EscapedIsClean(a.name);
    EscapedIsClean(a.value);
    var e := EntryPieces(EscapeXml(a.name), EscapeXml(a.value));
    EntryInert(EscapeXml(a.name), EscapeXml(a.value));
    EntryEnds(EscapeXml(a.name), EscapeXml(a.value));
    InertText("    ", "<Attribute>");
    InertJoin(lead, "    ", "<Attribute>");
    var rest := "\n" + (Rows(attributes[1..]) + foot);
    ElementOfPieces(lead + "    ", e, rest, "<Attribute>", "</Attribute>");
    RowsUnfold(attributes);
    Regroup(lead, "    ", Concat(e), "\n", Rows(attributes[1..]), foot);
  }

  lemma RowsUnfold(attributes: seq<Pair>)
    requires attributes != []
    ensures Rows(attributes)
         == "    " + Concat(EntryPieces(EscapeXml(attributes[0].name), EscapeXml(attributes[0].value)))
            + ("\n" + Rows(attributes[1..]))
  {
  }

  lemma EntryEnds(name: string, value: string)
    ensures var e := EntryPieces(name, value);
            |e| == 11 && e[0] == "<Attribute>" && e[10] == "</Attribute>"
  {
  }

  lemma {:induction false} RowsReadBack(lead: string, done: seq<Pair>, attributes: seq<Pair>, requestId: string)
    requires Inert(lead, "<Attribute>") && '<' !in requestId
    ensures ScanFrom(lead + (Rows(attributes) + Foot(requestId)), AsMap(done)) == Some(AsMap(done + attributes))
    decreases |attributes|
  {
    hide Concat, Inert, EntryPieces, Foot, EscapeXml, NextElement, ReadAttribute;
    var foot := Foot(requestId);
    if attributes == [] {
      FootInert(requestId, "<Attribute>");
      InertJoin(lead, foot, "<Attribute>");
      assert Rows(attributes) + foot == foot;
      NoElement(lead + foot, "<Attribute>", "</Attribute>");
      assert done + attributes == done;
    } else {
      var a := attributes[0];
      RowsStep(lead, attributes, foot);
      EntryReadBack(a.name, a.value, AsMap(done));
      assert (done + [a])[..|done|] == done;
      InertText("\n", "<Attribute>");
      RowsReadBack("\n", done + [a], attributes[1..], requestId);
      assert done + [a] + attributes[1..] == done + attributes;
    }
  }

  /** Scanning the response gives back every attribute with its value, whatever the names and
      values are, and never slices out of range. */
  lemma ScanUndoesBuild(attributes: seq<Pair>, requestId: string)
    requires '<' !in requestId
    ensures ScanFrom(Document(attributes, requestId), map[]) == Some(AsMap(attributes))
  {
    hide Inert, ScanFrom, Head, Foot;
    HeadInert("<Attribute>");
    RowsReadBack(Head(), [], attributes, requestId);
    assert [] + attributes == attributes;
  }

  // ---------------------------------------------------------------- the loops of the source

  method BuildGetQueueAttributes(attributes: seq<Pair>, requestId: string) returns (xml: string)
    ensures xml == Document(attributes, requestId)
  {
    hide Concat, Head, Foot, EntryPieces, EscapeXml;
    xml := Head();
    for i := 0 to |attributes|
      invariant xml + Rows(attributes[i..]) == Head() + Rows(attributes)
    {
      var entry := Concat(EntryPieces(EscapeXml(attributes[i].name), EscapeXml(attributes[i].value)));
      assert attributes[i..][1..] == attributes[i + 1..];
      Longer(xml, "    " + entry, "\n", Rows(attributes[i + 1..]));
      xml := xml + ("    " + entry + "\n");
    }
    assert xml + Rows(attributes[|attributes|..]) == xml;
    xml := xml + Foot(requestId);
    assert Head() + Rows(attributes) + Foot(requestId) == Head() + (Rows(attributes) + Foot(requestId));
  }

  lemma Longer(a: string, b: string, c: string, d: string)
    ensures a + (b + c) + d == a + (b + (c + d))
  {
  }

  /** The scan as the source runs it, on positions in the whole response. */
  method ScanAttributes(xml: string) returns (found: Option<map<string, string>>)
    ensures found == ScanFrom(xml, map[])
  {
    hide Find, ReadAttribute;
    var attributes: map<string, string> := map[];
    var pos := 0;
    assert xml[0..] == xml;
    while true
      invariant pos <= |xml| && ScanFrom(xml[pos..], attributes) == ScanFrom(xml, map[])
      decreases |xml| - pos
    {
      var start := Find(xml[pos..], "<Attribute>");
      if start.None? {
        return Some(attributes);
      }
      var absStart := pos + start.value;
      assert xml[pos..][start.value..] == xml[absStart..];
      var end := Find(xml[absStart..], "</Attribute>");
      if end.None? {
        return Some(attributes);
      }
      var next := ReadAttribute(xml[absStart..absStart + end.value + 12], attributes);
      assert xml[absStart..][..end.value + 12] == xml[absStart..absStart + end.value + 12];
      assert xml[absStart..][end.value + 12..] == xml[absStart + end.value + 12..];
      if next.None? {
        return None;
      }
      attributes := next.value;
      pos := absStart + end.value + 12;
    }
  }
}
