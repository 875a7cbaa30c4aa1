/** Which of its scans the JSON protocol picks for a response: it looks for marker words
    anywhere in the text, so a value that contains one misleads it. */
module XmlDispatch {
  import opened Types
  import opened Escape
  import opened Markup
  import opened XmlAttributes

  datatype Branch = EmptyObject | ReceivedMessages | SentBatch | QueueList | QueueAttributes | OtherFields

  function Dispatch(xml: string): Branch {
    if Contains(xml, "DeleteMessageResponse") || Contains(xml, "PurgeQueueResponse") then EmptyObject
    else if Contains(xml, "<Message>") && Contains(xml, "ReceiveMessageResponse") then ReceivedMessages
    else if Contains(xml, "SendMessageBatchResponse") || Contains(xml, "SendMessageBatchResult") then SentBatch
    else if Contains(xml, "ListQueuesResponse") || Contains(xml, "ListQueuesResult") then QueueList
    else if Contains(xml, "GetQueueAttributesResponse") || Contains(xml, "GetQueueAttributesResult") then QueueAttributes
    else OtherFields
  }

  datatype Json = Attributes(found: map<string, string>) | Crash | Else(branch: Branch)

  function ToJson(xml: string): Json {
    if !Dispatch(xml).QueueAttributes? then Else(Dispatch(xml))
    else
      var found := ScanFrom(xml, map[]);
      if found.None? then Crash else Attributes(found.value)
  }

  // ---------------------------------------------------------------- words in text

  predicate Letter(c: char) {
    'A' <= c <= 'Z' || 'a' <= c <= 'z'
  }

  /** A word that starts with a capital found in no tag of the document. */
  ghost predicate Marker(p: string) {
    |p| > 5 && (forall c :: c in p ==> Letter(c)) && (p[0] == 'D' || p[0] == 'P' || p[0] == 'S' || p[0] == 'L')
  }

  lemma ContainsIffAt(s: string, p: string)
    requires p != []
    ensures Contains(s, p) <==> exists i :: 0 <= i && At(s, p, i)
  {
    FindIsFirst(s, p);
  }

  lemma ContainsInFirst(a: string, b: string, p: string)
    requires p != [] && (Contains(a, p) || Contains(b, p))
    ensures Contains(a + b, p)
  {
    ContainsIffAt(a, p);
    ContainsIffAt(b, p);
    ContainsIffAt(a + b, p);
    if Contains(a, p) {
      var i :| 0 <= i && At(a, p, i);
      assert (a + b)[i..i + |p|] == a[i..i + |p|];
      assert At(a + b, p, i);
    } else {
      var i :| 0 <= i && At(b, p, i);
      assert (a + b)[|a| + i..|a| + i + |p|] == b[i..i + |p|];
      assert At(a + b, p, |a| + i);
    }
  }

  lemma AtChars(s: string, p: string, i: nat)
    requires At(s, p, i)
    ensures forall k :: i <= k < i + |p| ==> s[k] in p
  {
    forall k | i <= k < i + |p|
      ensures s[k] in p
    {
      assert s[i..i + |p|][k - i] == s[k];
    }
  }

  lemma AtLeft(a: string, b: string, p: string, i: nat)
    requires At(a + b, p, i) && i + |p| <= |a|
    ensures At(a, p, i)
  {
    assert (a + b)[i..i + |p|] == a[i..i + |p|];
  }

  lemma AtRight(a: string, b: string, p: string, i: nat)
    requires At(a + b, p, i) && |a| <= i
    ensures At(b, p, i - |a|)
  {
    assert (a + b)[i..i + |p|] == b[i - |a|..i - |a| + |p|];
  }

  lemma Straddle(a: string, b: string, p: string, i: nat)
    requires At(a + b, p, i) && i < |a| < i + |p|
    ensures a[|a| - 1] in p && b != [] && b[0] in p
  {
    AtChars(a + b, p, i);
    assert (a + b)[|a| - 1] == a[|a| - 1] && (a + b)[|a|] == b[0];
  }

  /** A word lies on one side of a character that is not in it. */
  lemma ContainsSplit(a: string, b: string, p: string)
    requires p != [] && (a == [] || a[|a| - 1] !in p || b == [] || b[0] !in p)
    ensures Contains(a + b, p) <==> Contains(a, p) || Contains(b, p)
  {
    hide Contains, At;
    if Contains(a + b, p) {
      ContainsIffAt(a, p);
      ContainsIffAt(b, p);
      ContainsIffAt(a + b, p);
      var s := a + b;
      var i :| 0 <= i && At(s, p, i);
      if i + |p| <= |a| {
        AtLeft(a, b, p, i);
      } else if |a| <= i {
        AtRight(a, b, p, i);
      } else {
        Straddle(a, b, p, i);
      }
    } else if Contains(a, p) || Contains(b, p) {
      ContainsInFirst(a, b, p);
    }
  }

  lemma NotWithout(s: string, p: string)
    requires p != [] && p[0] !in s
    ensures !Contains(s, p)
  {
    FindIsFirst(s, p);
    if Find(s, p).Some? {
      AtChars(s, p, Find(s, p).value);
    }
  }

  lemma TooShort(s: string, p: string)
    requires p != [] && |s| < |p|
    ensures !Contains(s, p)
  {
  }

  lemma ContainsStep(c: char, s: string, p: string)
    requires p != []
    ensures Contains([c] + s, p) <==> p <= [c] + s || Contains(s, p)
  {
    assert ([c] + s)[1..] == s;
  }

  // ---------------------------------------------------------------- words in escaped text

  lemma {:induction false} PrefixOfEscaped(p: string, s: string)
    requires forall c :: c in p ==> Letter(c)
    ensures p <= Encode(s, SPECIAL) <==> p <= s
    decreases |p|
  {
    if p != [] && s != [] {
      var head, rest := Encode([s[0]], SPECIAL), Encode(s[1..], SPECIAL);
      assert p[0] in p;
      if s[0] in SPECIAL {
        assert Encode(s, SPECIAL)[0] == '&';
      } else {
        PrefixOfEscaped(p[1..], s[1..]);
        assert Encode(s, SPECIAL) == [s[0]] + rest;
        ConsPrefix(p, s[0], rest);
        ConsPrefix(p, s[0], s[1..]);
        assert s == [s[0]] + s[1..];
      }
    }
  }

  lemma ConsPrefix(p: string, c: char, s: string)
    requires p != []
    ensures p <= [c] + s <==> p[0] == c && p[1..] <= s
  {
    if p <= [c] + s {
      assert forall i :: 0 <= i < |p| - 1 ==> p[1..][i] == p[i + 1] == ([c] + s)[i + 1] == s[i];
    }
  }

  lemma EntityShape(c: char, rest: string, p: string)
    requires c in SPECIAL && |p| > 5 && forall x :: x in p ==> Letter(x)
    ensures Contains(Entity(c) + rest, p) <==> Contains(rest, p)
  {
    hide Contains;
    var entity := Entity(c);
    assert entity[|entity| - 1] == ';';
    ContainsSplit(entity, rest, p);
    if |entity| == 6 {
      var front := entity[..5];
      assert entity == front + [';'];
      ContainsSplit(front, [';'], p);
      TooShort(front, p);
      TooShort([';'], p);
    } else {
      TooShort(entity, p);
    }
  }

  /** A word is in the escaped text exactly when it is in the text. */
  lemma {:induction false} WordsSurviveEscape(s: string, p: string)
    requires |p| > 5 && forall c :: c in p ==> Letter(c)
    ensures Contains(EscapeXml(s), p) <==> Contains(s, p)
  {
    hide EscapeXml, Contains;
    EscapeIsOnePass(s);
    WordsSurviveEncode(s, p);
  }

  lemma {:induction false} WordsSurviveEncode(s: string, p: string)
    requires |p| > 5 && forall c :: c in p ==> Letter(c)
    ensures Contains(Encode(s, SPECIAL), p) <==> Contains(s, p)
  {
    hide Contains;
    if s != [] {
      WordsSurviveEncode(s[1..], p);
      var c, rest := s[0], Encode(s[1..], SPECIAL);
      assert s == [c] + s[1..];
      if c in SPECIAL {
        EntityShape(c, rest, p);
        ContainsSplit([c], s[1..], p);
        TooShort([c], p);
      } else {
        PrefixOfEscaped(p, s);
        ContainsStep(c, rest, p);
        ContainsStep(c, s[1..], p);
      }
    }
  }

  // ---------------------------------------------------------------- words in the document

  predicate HexId(s: string) {
    forall c :: c in s ==> '0' <= c <= '9' || 'a' <= c <= 'f' || c == '-'
  }

  lemma {:induction false} NotInConcat(pieces: seq<string>, x: char)
    requires forall k :: 0 <= k < |pieces| ==> x !in pieces[k]
    ensures x !in Concat(pieces)
  {
    if pieces != [] {
      NotInConcat(pieces[1..], x);
    }
  }

  lemma HeadPiecesHaveNot(x: char)
    requires x == 'D' || x == 'P' || x == 'S' || x == 'L'
    ensures x !in Concat(HeadPieces())
  {
    hide Concat;
    NotInConcat(HeadPieces(), x);
  }

  lemma OpenPiecesHaveNot(x: char)
    requires x == 'D' || x == 'P' || x == 'S' || x == 'L'
    ensures x !in Concat(OpenPieces())
  {
    hide Concat;
    NotInConcat(OpenPieces(), x);
  }

  lemma OpenPiecesEnd()
    ensures var o := Concat(OpenPieces()); o != [] && o[|o| - 1] == '\n'
  {
    hide Concat;
    ConcatSplit(OpenPieces(), 5);
    assert OpenPieces()[6..] == [];
    ConcatEmpty();
  }

  lemma HeadHasNoMarker(p: string)
    requires Marker(p)
    ensures !Contains(Head(), p) && Head() != [] && Head()[|Head()| - 1] == '\n'
  {
    hide Concat, HeadPieces, OpenPieces, Contains;
    HeadPiecesHaveNot(p[0]);
    OpenPiecesHaveNot(p[0]);
    OpenPiecesEnd();
    NotWithout(Head(), p);
  }

  lemma ConcatEmpty()
    ensures Concat([]) == []
  {
  }

  lemma FootHasNoMarker(requestId: string, p: string)
    requires Marker(p) && HexId(requestId)
    ensures !Contains(Foot(requestId), p) && Foot(requestId) != [] && Foot(requestId)[0] == ' '
  {
    hide Concat;
    NotInConcat(ClosePieces(), p[0]);
    NotInConcat(FootPieces(requestId), p[0]);
    ConcatSplit(ClosePieces(), 0);
    assert ClosePieces()[..0] == [];
    ConcatEmpty();
    NotWithout(Foot(requestId), p);
  }

  lemma EntryMarkers(name: string, value: string, p: string)
    requires Marker(p)
    ensures var e := Concat(EntryPieces(name, value));
            && (Contains(e, p) <==> Contains(name, p) || Contains(value, p))
            && e != [] && e[0] == '<' && e[|e| - 1] == '>'
  {
    hide Contains;
    var e := EntryPieces(name, value);
    var a, b, c := e[0] + e[1] + e[2], e[4] + e[5] + e[6], e[8] + e[9] + e[10];
    ConcatEleven(e);
    NotWithout(a, p);
    NotWithout(b, p);
    NotWithout(c, p);
    FieldMarkers(a, name, b + (value + c), p);
    FieldMarkers(b, value, c, p);
  }

  lemma ConcatEleven(e: seq<string>)
    requires |e| == 11
    ensures Concat(e) == e[0] + e[1] + e[2] + (e[3] + (e[4] + e[5] + e[6] + (e[7] + (e[8] + e[9] + e[10]))))
  {
    assert e == [e[0], e[1], e[2]] + ([e[3]] + ([e[4], e[5], e[6]] + ([e[7]] + [e[8], e[9], e[10]])));
    ConcatJoin([e[0], e[1], e[2]], [e[3]] + ([e[4], e[5], e[6]] + ([e[7]] + [e[8], e[9], e[10]])));
    ConcatJoin([e[3]], [e[4], e[5], e[6]] + ([e[7]] + [e[8], e[9], e[10]]));
    ConcatJoin([e[4], e[5], e[6]], [e[7]] + [e[8], e[9], e[10]]);
    ConcatJoin([e[7]], [e[8], e[9], e[10]]);
    ConcatOne(e[3]);
    ConcatOne(e[7]);
    ConcatThree(e[0], e[1], e[2]);
    ConcatThree(e[4], e[5], e[6]);
    ConcatThree(e[8], e[9], e[10]);
  }

  lemma ConcatThree(a: string, b: string, c: string)
    ensures Concat([a, b, c]) == a + b + c
  {
    assert [a, b, c][1..] == [b, c] && [b, c][1..] == [c];
    ConcatOne(c);
  }

  lemma FieldMarkers(before: string, text: string, after: string, p: string)
    requires Marker(p) && before != [] && before[|before| - 1] == '>' && after != [] && after[0] == '<'
    requires !Contains(before, p)
    ensures Contains(before + (text + after), p) <==> Contains(text, p) || Contains(after, p)
  {
    hide Contains;
    ContainsSplit(before, text + after, p);
    ContainsSplit(text, after, p);
  }

  lemma {:induction false} RowsMarkers(attributes: seq<Pair>, p: string)
    requires Marker(p)
    ensures Contains(Rows(attributes), p) <==>
            exists k :: 0 <= k < |attributes| && (Contains(attributes[k].name, p) || Contains(attributes[k].value, p))
  {
    hide Contains, EscapeXml, EntryPieces;
    if attributes == [] {
      TooShort([], p);
    } else {
      var a, rest := attributes[0], attributes[1..];
      RowsMarkers(rest, p);
      var e := Concat(EntryPieces(EscapeXml(a.name), EscapeXml(a.value)));
      EntryMarkers(EscapeXml(a.name), EscapeXml(a.value), p);
      WordsSurviveEscape(a.name, p);
      WordsSurviveEscape(a.value, p);
      RowMarkers(e, Rows(rest), p);
      assert forall k :: 0 < k < |attributes| ==> attributes[k] == rest[k - 1];
      assert forall k :: 0 <= k < |rest| ==> rest[k] == attributes[k + 1];
    }
  }

  lemma RowMarkers(entry: string, rest: string, p: string)
    requires Marker(p) && entry != [] && entry[0] == '<' && entry[|entry| - 1] == '>'
    ensures Contains("    " + entry + ("\n" + rest), p) <==> Contains(entry, p) || Contains(rest, p)
  {
    hide Contains;
    ContainsSplit("    " + entry, "\n" + rest, p);
    ContainsSplit("    ", entry, p);
    ContainsSplit("\n", rest, p);
    TooShort("    ", p);
    TooShort("\n", p);
  }

  lemma DocumentMarkers(attributes: seq<Pair>, requestId: string, p: string)
    requires Marker(p) && HexId(requestId)
    ensures Contains(Document(attributes, requestId), p) <==>
            exists k :: 0 <= k < |attributes| && (Contains(attributes[k].name, p) || Contains(attributes[k].value, p))
  {
    hide Contains, Head, Foot, Rows;
    HeadHasNoMarker(p);
    FootHasNoMarker(requestId, p);
    RowsMarkers(attributes, p);
    ContainsSplit(Head(), Rows(attributes) + Foot(requestId), p);
    ContainsSplit(Rows(attributes), Foot(requestId), p);
  }

  // ---------------------------------------------------------------- the branch taken

  const MARKERS: seq<string> := [
    "DeleteMessageResponse", "PurgeQueueResponse", "SendMessageBatchResponse", "SendMessageBatchResult",
    "ListQueuesResponse", "ListQueuesResult"]

  ghost predicate Misleading(attributes: seq<Pair>) {
    exists p, k :: p in MARKERS && 0 <= k < |attributes|
                   && (Contains(attributes[k].name, p) || Contains(attributes[k].value, p))
  }

  lemma MarkersAreMarkers(p: string)
    requires p in MARKERS
    ensures Marker(p)
  {
    hide Marker;
    DeleteIsMarker();
    SendIsMarker();
    ListIsMarker();
  }

  lemma DeleteIsMarker()
    ensures Marker("DeleteMessageResponse") && Marker("PurgeQueueResponse")
  {
  }

  lemma SendIsMarker()
    ensures Marker("SendMessageBatchResponse") && Marker("SendMessageBatchResult")
  {
  }

  lemma ListIsMarker()
    ensures Marker("ListQueuesResponse") && Marker("ListQueuesResult")
  {
  }

  lemma RowsHaveNoTag(attributes: seq<Pair>, p: string)
    requires p == "<Message>"
    ensures Inert(Rows(attributes), p)
  {
    hide Inert, EscapeXml, EntryPieces, Concat;
    if attributes == [] {
      InertText([], p);
    } else {
      var a := attributes[0];
      var entry := Concat(EntryPieces(EscapeXml(a.name), EscapeXml(a.value)));
      EscapedIsClean(a.name);
      EscapedIsClean(a.value);
      EntryHasNoTag(EscapeXml(a.name), EscapeXml(a.value), p);
      RowsHaveNoTag(attributes[1..], p);
      InertText("    ", p);
      InertText("\n", p);
      InertJoin("    ", entry, p);
      InertJoin("\n", Rows(attributes[1..]), p);
      InertJoin("    " + entry, "\n" + Rows(attributes[1..]), p);
    }
  }

  lemma EntryHasNoTag(name: string, value: string, p: string)
    requires '<' !in name && '<' !in value && p == "<Message>"
    ensures Inert(Concat(EntryPieces(name, value)), p)
  {
    hide Inert, Concat;
    InertTag("<Attribute>", p, 1);
    InertText("\n      ", p);
    InertTag("<Name>", p, 1);
    InertText(name, p);
    InertTag("</Name>", p, 1);
    InertTag("<Value>", p, 1);
    InertText(value, p);
    InertTag("</Value>", p, 1);
    InertText("\n    ", p);
    InertTag("</Attribute>", p, 1);
    InertPieces(EntryPieces(name, value), p);
  }

  /** No message element, whatever the values are. */
  lemma NoMessageTag(attributes: seq<Pair>, requestId: string)
    requires HexId(requestId)
    ensures !Contains(Document(attributes, requestId), "<Message>")
  {
    hide Inert, Rows, Head, Foot;
    var p := "<Message>";
    HeadInert(p);
    RowsHaveNoTag(attributes, p);
    FootInert(requestId, p);
    InertJoin(Rows(attributes), Foot(requestId), p);
    InertJoin(Head(), Rows(attributes) + Foot(requestId), p);
    var s := Document(attributes, requestId);
    FindPasses(s, [], p);
    assert s + [] == s;
  }

  lemma OwnMarker(attributes: seq<Pair>, requestId: string)
    ensures Contains(Document(attributes, requestId), "GetQueueAttributesResponse")
  {
    hide Contains, Rows, Foot, OpenPieces;
    var p := "GetQueueAttributesResponse";
    var h := HeadPieces();
    ConcatThree(h[0], h[1], h[2]);
    assert h[2] == "<" + (p + " ");
    FoundHere(p, " ");
    assert Contains(p + " ", p) by {
      Itself(p, " ");
    }
    ContainsInFirst("<", p + " ", p);
    ContainsInFirst(h[0] + h[1], h[2], p);
    ContainsInFirst(Concat(h), Concat(OpenPieces()), p);
    ContainsInFirst(Head(), Rows(attributes) + Foot(requestId), p);
  }

  lemma Itself(p: string, rest: string)
    requires p != []
    ensures Contains(p + rest, p)
  {
  }

  /** The response is read as queue attributes exactly when no attribute contains a marker. */
  lemma DispatchIsRightIff(attributes: seq<Pair>, requestId: string)
    requires HexId(requestId)
    ensures Dispatch(Document(attributes, requestId)).QueueAttributes? <==> !Misleading(attributes)
  {
    hide Contains, Document;
    var xml := Document(attributes, requestId);
    NoMessageTag(attributes, requestId);
    OwnMarker(attributes, requestId);
    forall p | p in MARKERS
      ensures Contains(xml, p) <==> exists k :: 0 <= k < |attributes| && (Contains(attributes[k].name, p) || Contains(attributes[k].value, p))
    {
      MarkersAreMarkers(p);
      DocumentMarkers(attributes, requestId, p);
    }
    MarkersListed(xml);
  }

  lemma MarkersListed(xml: string)
    ensures (exists p :: p in MARKERS && Contains(xml, p)) <==>
            || Contains(xml, "DeleteMessageResponse") || Contains(xml, "PurgeQueueResponse")
            || Contains(xml, "SendMessageBatchResponse") || Contains(xml, "SendMessageBatchResult")
            || Contains(xml, "ListQueuesResponse") || Contains(xml, "ListQueuesResult")
  {
    hide Contains;
    assert MARKERS[0] in MARKERS && MARKERS[1] in MARKERS && MARKERS[2] in MARKERS;
    assert MARKERS[3] in MARKERS && MARKERS[4] in MARKERS && MARKERS[5] in MARKERS;
  }

  /** The attributes as they were given: every name once, with its last value. */
  function Given(attributes: seq<Pair>): map<string, string> {
    if attributes == [] then map[]
    else
      var front, last := attributes[..|attributes| - 1], attributes[|attributes| - 1];
      Given(front)[last.name := last.value]
  }

  ghost predicate PlainNames(attributes: seq<Pair>) {
    forall k :: 0 <= k < |attributes| ==> PlainText(attributes[k].name)
  }

  lemma {:induction false} KeysOfMaps(attributes: seq<Pair>)
    ensures forall n :: n in Given(attributes) <==> exists k :: 0 <= k < |attributes| && attributes[k].name == n
    ensures forall n :: n in AsMap(attributes) <==> exists k :: 0 <= k < |attributes| && EscapeXml(attributes[k].name) == n
  {
    hide EscapeXml;
    if attributes != [] {
      var front := attributes[..|attributes| - 1];
      KeysOfMaps(front);
      assert forall k :: 0 <= k < |front| ==> attributes[k] == front[k];
    }
  }

  lemma {:induction false} PlainNamesSurvive(attributes: seq<Pair>)
    requires PlainNames(attributes)
    ensures AsMap(attributes) == Given(attributes)
  {
    hide EscapeXml;
    if attributes != [] {
      var front := attributes[..|attributes| - 1];
      assert forall k :: 0 <= k < |front| ==> front[k] == attributes[k];
      PlainNamesSurvive(front);
      EscapeChangesIff(attributes[|attributes| - 1].name);
    }
  }

  /** A longest one among the names with a special character. */
  lemma {:induction false} LongestSpecial(attributes: seq<Pair>) returns (k: nat)
    requires !PlainNames(attributes)
    ensures k < |attributes| && !PlainText(attributes[k].name)
    ensures forall j :: 0 <= j < |attributes| && !PlainText(attributes[j].name) ==> |attributes[j].name| <= |attributes[k].name|
  {
    hide PlainText;
    var last := |attributes| - 1;
    var front := attributes[..last];
    assert forall j :: 0 <= j < last ==> front[j] == attributes[j];
    if PlainNames(front) {
      k := last;
    } else {
      k := LongestSpecial(front);
      if !PlainText(attributes[last].name) && |attributes[last].name| > |attributes[k].name| {
        k := last;
      }
    }
  }

  /** The names come back as they were given exactly when none has a special character. */
  lemma NamesSurviveIff(attributes: seq<Pair>)
    ensures AsMap(attributes) == Given(attributes) <==> PlainNames(attributes)
  {
    hide EscapeXml, AsMap, Given, PlainText;
    if PlainNames(attributes) {
      PlainNamesSurvive(attributes);
    } else {
      KeysOfMaps(attributes);
      var k := LongestSpecial(attributes);
      var escaped := EscapeXml(attributes[k].name);
      EscapeChangesIff(attributes[k].name);
      assert escaped in AsMap(attributes) && escaped !in Given(attributes);
    }
  }

  /** Building the response and reading it back gives the map of escaped names exactly when no
      name or value contains a marker, and the attributes as they were given exactly when besides
      no name has a special character. */
  lemma AttributesRoundTrip(attributes: seq<Pair>, requestId: string)
    requires HexId(requestId)
    ensures ToJson(Document(attributes, requestId)) == Attributes(AsMap(attributes)) <==> !Misleading(attributes)
    ensures ToJson(Document(attributes, requestId)) == Attributes(Given(attributes)) <==>
              !Misleading(attributes) && PlainNames(attributes)
  {
    hide Document, ScanFrom, EscapeXml, Dispatch, AsMap, Given, PlainNames;
    DispatchIsRightIff(attributes, requestId);
    ScanUndoesBuild(attributes, requestId);
    NamesSurviveIff(attributes);
  }
}
