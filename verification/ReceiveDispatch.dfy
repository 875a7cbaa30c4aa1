/** Which branch the JSON protocol takes for a ReceiveMessage response, and what comes back. */
module ReceiveDispatch {
  import opened Types
  import opened Escape
  import opened Markup
  import opened XmlElements
  import opened XmlDispatch
  import opened Words
  import opened XmlReceive

  datatype Reply = Received(messages: seq<MessageJson>) | Crashed | Other(branch: Branch)

  function ToReply(xml: string): Reply {
    if !Dispatch(xml).ReceivedMessages? then Other(Dispatch(xml))
    else
      var messages := ScanMessages(xml);
      if messages.None? then Crashed else Received(messages.value)
  }

  // ---------------------------------------------------------------- fields that hold a word

  function FrontFields(m: MessageInfo): seq<string> {
    [m.id, m.handle, m.bodyHash, m.body]
  }

  function AttributeFields(a: Named<string>): seq<string> {
    [a.name, a.value]
  }

  function ValuedFields(v: Named<ValueInfo>): seq<string> {
    [v.name, v.value.dataType] + (if v.value.stringValue.Some? then [v.value.stringValue.value] else [])
  }

  /** Some field of the message holds the word. */
  ghost predicate Holds(m: MessageInfo, p: string)
    requires p != []
  {
    || AnyContains(FrontFields(m), p)
    || (exists k :: 0 <= k < |m.attributes| && AnyContains(AttributeFields(m.attributes[k]), p))
    || (exists k :: 0 <= k < |m.valued| && AnyContains(ValuedFields(m.valued[k]), p))
  }

  ghost predicate AnyHolds(ms: seq<MessageInfo>, p: string)
    requires p != []
  {
    exists k :: 0 <= k < |ms| && Holds(ms[k], p)
  }

  // ---------------------------------------------------------------- the pieces of a message

  lemma SpacesAreHarmless()
    ensures Harmless(GAP) && Harmless(DEEP) && Harmless(INDENT) && Harmless("\n") && Harmless("\n          ")
  {
  }

  lemma MessageTagsAreHarmless()
    ensures Harmless(MESSAGE_OPEN) && Harmless(MESSAGE_CLOSE) && Harmless("<MessageId>") && Harmless("</MessageId>")
  {
  }

  lemma HandleTagsAreHarmless()
    ensures Harmless("<ReceiptHandle>") && Harmless("</ReceiptHandle>")
  {
  }

  lemma BodyTagsAreHarmless()
    ensures Harmless("<MD5OfBody>") && Harmless("</MD5OfBody>") && Harmless("<Body>") && Harmless("</Body>")
  {
  }

  lemma NameTagsAreHarmless()
    ensures Harmless("<Name>") && Harmless("</Name>") && Harmless("<Value>") && Harmless("</Value>")
  {
  }

  lemma AttributeTagsAreHarmless()
    ensures Harmless(ATTRIBUTE_OPEN) && Harmless(ATTRIBUTE_CLOSE)
  {
  }

  lemma ValuedTagsAreHarmless()
    ensures Harmless(VALUED_OPEN) && Harmless(VALUED_CLOSE)
  {
  }

  lemma TypeTagsAreHarmless()
    ensures Harmless("<DataType>") && Harmless("</DataType>")
  {
  }

  lemma StringTagsAreHarmless()
    ensures Harmless("<StringValue>") && Harmless("</StringValue>")
  {
  }

  lemma FrontHarmless(m: MessageInfo)
    ensures Fenced(FrontPieces(m), 0)
    ensures forall j :: 0 <= j < 18 && j != 3 && j != 7 && j != 11 && j != 15 ==> Harmless(FrontPieces(m)[j])
  {
    hide EscapeXml, Harmless;
    SpacesAreHarmless();
    MessageTagsAreHarmless();
    HandleTagsAreHarmless();
    BodyTagsAreHarmless();
  }

  lemma FrontContains(m: MessageInfo, p: string)
    requires Word(p)
    ensures Contains(Concat(FrontPieces(m)), p) <==> AnyContains(FrontFields(m), p)
  {
    hide EscapeXml, Harmless, FrontPieces, Contains, Concat, Fenced;
    FrontHarmless(m);
    FrontTags(m);
    FieldsContain(FrontPieces(m), [3, 7, 11, 15], FrontFields(m), p);
  }

  lemma AttributeHarmless(a: Named<string>)
    ensures Fenced(AttributePieces(a), 0)
    ensures forall j :: 0 <= j < 11 && j != 3 && j != 7 ==> Harmless(AttributePieces(a)[j])
  {
    hide EscapeXml, Harmless;
    SpacesAreHarmless();
    AttributeTagsAreHarmless();
    NameTagsAreHarmless();
  }

  lemma AttributeContains(a: Named<string>, p: string)
    requires Word(p)
    ensures Contains(Concat(AttributePieces(a)), p) <==> AnyContains(AttributeFields(a), p)
  {
    hide EscapeXml, Harmless, AttributePieces, Contains, Concat, Fenced;
    AttributeHarmless(a);
    AttributeTags(a);
    FieldsContain(AttributePieces(a), [3, 7], AttributeFields(a), p);
  }

  lemma TypesHarmless(v: Named<ValueInfo>)
    ensures Fenced(TypePieces(v), 0)
    ensures forall j :: 0 <= j < 11 && j != 3 && j != 9 ==> Harmless(TypePieces(v)[j])
  {
    hide Harmless;
    SpacesAreHarmless();
    ValuedTagsAreHarmless();
    NameTagsAreHarmless();
    TypeTagsAreHarmless();
  }

  lemma ValuedHarmless(v: Named<ValueInfo>)
    ensures Fenced(ValuedPieces(v), 0)
    ensures forall j :: 0 <= j < |ValuedPieces(v)| && j != 3 && j != 9 && (j != 13 || v.value.stringValue.None?) ==>
              Harmless(ValuedPieces(v)[j])
  {
    hide EscapeXml, Harmless, TypePieces;
    TypesHarmless(v);
    TypeTags(v);
    SpacesAreHarmless();
    ValuedTagsAreHarmless();
    NameTagsAreHarmless();
    StringTagsAreHarmless();
    var front, tail := TypePieces(v), StringPieces(v.value.stringValue) + [DEEP, "</Value>", GAP, VALUED_CLOSE];
    assert ValuedPieces(v) == front + tail;
  }

  lemma ValuedContains(v: Named<ValueInfo>, p: string)
    requires Word(p)
    ensures Contains(Concat(ValuedPieces(v)), p) <==> AnyContains(ValuedFields(v), p)
  {
    hide EscapeXml, Harmless, ValuedPieces, Contains, Concat, Fenced;
    ValuedHarmless(v);
    ValuedTags(v);
    if v.value.stringValue.Some? {
      FieldsContain(ValuedPieces(v), [3, 9, 13], ValuedFields(v), p);
    } else {
      FieldsContain(ValuedPieces(v), [3, 9], ValuedFields(v), p);
    }
  }

  // ---------------------------------------------------------------- words in a message

  lemma TextsAreBracketed(m: MessageInfo)
    ensures forall k :: 0 <= k < |m.attributes| ==> Bracketed(AttributeTexts(m.attributes)[k])
    ensures forall k :: 0 <= k < |m.valued| ==> Bracketed(ValuedTexts(m.valued)[k])
  {
    hide AttributePieces, ValuedPieces, Concat;
    forall k | 0 <= k < |m.attributes|
      ensures Bracketed(AttributeTexts(m.attributes)[k])
    {
      AttributeTags(m.attributes[k]);
      ElementIsBracketed(AttributePieces(m.attributes[k]));
    }
    forall k | 0 <= k < |m.valued|
      ensures Bracketed(ValuedTexts(m.valued)[k])
    {
      ValuedTags(m.valued[k]);
      ElementIsBracketed(ValuedPieces(m.valued[k]));
    }
  }

  lemma BackIsFree(p: string)
    requires Word(p)
    ensures !Contains(Concat(BackPieces()), p)
    ensures var back := Concat(BackPieces()); back != [] && back[0] == ' ' && back[|back| - 1] == '>'
  {
    hide Contains;
    assert BackPieces()[1..] == [MESSAGE_CLOSE];
    ConcatOne(MESSAGE_CLOSE);
    assert Concat(BackPieces()) == INDENT + MESSAGE_CLOSE;
    WordFacts(p);
    MessageTagsAreHarmless();
    HarmlessIsFree(MESSAGE_CLOSE, p);
    ContainsSplit(INDENT, MESSAGE_CLOSE, p);
    TooShort(INDENT, p);
  }

  lemma FrontEnds(m: MessageInfo)
    ensures var front := Concat(FrontPieces(m)); front != [] && front[0] == '<' && front[|front| - 1] == '\n'
  {
    hide Concat;
    EndsWithNewline(FrontPieces(m));
    ConcatSplit(FrontPieces(m), 0);
    assert FrontPieces(m)[..0] == [];
    ConcatEmpty();
  }

  lemma RowsOfMessage(m: MessageInfo, p: string)
    requires Word(p)
    ensures Contains(Rows(WIDE, AttributeTexts(m.attributes)), p) <==>
              exists k :: 0 <= k < |m.attributes| && AnyContains(AttributeFields(m.attributes[k]), p)
    ensures Contains(Rows(WIDE, ValuedTexts(m.valued)), p) <==>
              exists k :: 0 <= k < |m.valued| && AnyContains(ValuedFields(m.valued[k]), p)
  {
    hide Contains, Concat, AttributePieces, ValuedPieces, AttributeFields, ValuedFields, Rows;
    TextsAreBracketed(m);
    RowsContain(WIDE, AttributeTexts(m.attributes), p);
    RowsContain(WIDE, ValuedTexts(m.valued), p);
    forall k | 0 <= k < |m.attributes|
      ensures Contains(AttributeTexts(m.attributes)[k], p) <==> AnyContains(AttributeFields(m.attributes[k]), p)
    {
      AttributeContains(m.attributes[k], p);
    }
    forall k | 0 <= k < |m.valued|
      ensures Contains(ValuedTexts(m.valued)[k], p) <==> AnyContains(ValuedFields(m.valued[k]), p)
    {
      ValuedContains(m.valued[k], p);
    }
    hide AnyContains;
    AnyOf(AttributeTexts(m.attributes), p);
    AnyOf(ValuedTexts(m.valued), p);
  }

  lemma MessageContains(m: MessageInfo, p: string)
    requires Word(p)
    ensures Contains(MessageText(m), p) <==> Holds(m, p)
    ensures Bracketed(MessageText(m))
  {
    hide Contains, Concat, Rows, FrontPieces, BackPieces, AttributeTexts, ValuedTexts, AnyContains,
         FrontFields, AttributeFields, ValuedFields;
    WordFacts(p);
    FrontContains(m, p);
    RowsOfMessage(m, p);
    BackIsFree(p);
    FrontEnds(m);
    var front, a, b, back := Concat(FrontPieces(m)), Rows(WIDE, AttributeTexts(m.attributes)),
        Rows(WIDE, ValuedTexts(m.valued)), Concat(BackPieces());
    RowsEnd(WIDE, AttributeTexts(m.attributes));
    RowsEnd(WIDE, ValuedTexts(m.valued));
    ContainsSplit(front, a + (b + back), p);
    ContainsSplit(a, b + back, p);
    ContainsSplit(b, back, p);
  }

  // ---------------------------------------------------------------- words in the response

  lemma HeadLacks(c: char)
    requires c == 'D' || c == 'P' || c == 'S' || c == 'L' || c == 'G'
    ensures c !in Concat(HeadPieces())
  {
    hide Concat;
    NotInConcat(HeadPieces(), c);
  }

  lemma FootLacks(requestId: string, c: char)
    requires HexId(requestId) && (c == 'D' || c == 'P' || c == 'S' || c == 'L' || c == 'G')
    ensures c !in Concat(FootPieces(requestId))
  {
    hide Concat;
    NotInConcat(FootPieces(requestId), c);
  }

  lemma Edges(requestId: string)
    ensures var head := Concat(HeadPieces()); head != [] && head[|head| - 1] == '\n'
    ensures var foot := Concat(FootPieces(requestId)); foot != [] && foot[0] == ' '
  {
    hide Concat;
    EndsWithNewline(HeadPieces());
    ConcatSplit(FootPieces(requestId), 0);
    assert FootPieces(requestId)[..0] == [];
    ConcatEmpty();
  }

  lemma DocumentContains(ms: seq<MessageInfo>, requestId: string, p: string)
    requires HexId(requestId) && (p == DELETED || p == PURGED)
    ensures Contains(Document(ms, requestId), p) <==> AnyHolds(ms, p)
  {
    hide Contains, Rows, Concat, HeadPieces, FootPieces, MessageText, Holds;
    WordFacts(p);
    HeadLacks(p[0]);
    FootLacks(requestId, p[0]);
    Edges(requestId);
    var head, rows, foot := Concat(HeadPieces()), Rows(INDENT, MessageTexts(ms)), Concat(FootPieces(requestId));
    NotWithout(head, p);
    NotWithout(foot, p);
    forall k | 0 <= k < |ms|
      ensures Bracketed(MessageTexts(ms)[k]) && (Contains(MessageTexts(ms)[k], p) <==> Holds(ms[k], p))
    {
      MessageContains(ms[k], p);
    }
    RowsContain(INDENT, MessageTexts(ms), p);
    RowsEnd(INDENT, MessageTexts(ms));
    ContainsSplit(head, rows + foot, p);
    ContainsSplit(rows, foot, p);
  }

  lemma MessageHasTag(m: MessageInfo)
    ensures Contains(MessageText(m), MESSAGE_OPEN)
  {
    hide Contains, Concat, FrontPieces, Rows, AttributeTexts, ValuedTexts;
    FrontTags(m);
    var pieces := FrontPieces(m);
    ConcatSplit(pieces, 0);
    assert pieces[..0] == [];
    ConcatEmpty();
    assert Concat(pieces) == MESSAGE_OPEN + Concat(pieces[1..]);
    Itself(MESSAGE_OPEN, Concat(pieces[1..]));
    ContainsInFirst(Concat(pieces), Rows(WIDE, AttributeTexts(m.attributes))
                                    + (Rows(WIDE, ValuedTexts(m.valued)) + Concat(BackPieces())), MESSAGE_OPEN);
  }

  /** The response has a message tag exactly when there is a message. */
  lemma MessageTagIff(ms: seq<MessageInfo>, requestId: string)
    requires HexId(requestId)
    ensures Contains(Document(ms, requestId), MESSAGE_OPEN) <==> ms != []
  {
    hide Contains, Inert, Rows, Concat, HeadPieces, FootPieces, MessageText, Find;
    var head, rows, foot := Concat(HeadPieces()), Rows(INDENT, MessageTexts(ms)), Concat(FootPieces(requestId));
    if ms == [] {
      NoRows(INDENT, MessageTexts(ms));
      HeadPasses();
      FootPasses(requestId);
      assert rows + foot == foot;
      InertJoin(head, foot, MESSAGE_OPEN);
      InertIsAbsent(head + foot, MESSAGE_OPEN);
    } else {
      MessageHasTag(ms[0]);
      var first := MessageTexts(ms)[0];
      RowsUnfold(INDENT, MessageTexts(ms));
      ContainsInFirst(INDENT, first, MESSAGE_OPEN);
      ContainsInFirst(INDENT + first, "\n" + Rows(INDENT, MessageTexts(ms)[1..]), MESSAGE_OPEN);
      ContainsInFirst(rows, foot, MESSAGE_OPEN);
      ContainsInFirst(head, rows + foot, MESSAGE_OPEN);
    }
  }

  lemma OwnWord(ms: seq<MessageInfo>, requestId: string)
    ensures Contains(Document(ms, requestId), RECEIVED)
  {
    hide Contains, Rows, FootPieces, Concat, MessageTexts;
    var pieces := HeadPieces();
    ConcatSplit(pieces, 2);
    assert pieces[2] == "<" + (RECEIVED + " ");
    Itself(RECEIVED, " ");
    ContainsInFirst("<", RECEIVED + " ", RECEIVED);
    ContainsInFirst(pieces[2], Concat(pieces[3..]), RECEIVED);
    ContainsInFirst(Concat(pieces[..2]), pieces[2] + Concat(pieces[3..]), RECEIVED);
    ContainsInFirst(Concat(pieces), Rows(INDENT, MessageTexts(ms)) + Concat(FootPieces(requestId)), RECEIVED);
  }

  /** The response is read as messages exactly when there is one and no field, escaped or not,
      holds "DeleteMessageResponse" or "PurgeQueueResponse". */
  lemma ReceiveDispatchIsRightIff(ms: seq<MessageInfo>, requestId: string)
    requires HexId(requestId)
    ensures Dispatch(Document(ms, requestId)).ReceivedMessages? <==>
              ms != [] && !AnyHolds(ms, DELETED) && !AnyHolds(ms, PURGED)
  {
    hide Contains, Document, AnyHolds;
    DocumentContains(ms, requestId, DELETED);
    DocumentContains(ms, requestId, PURGED);
    MessageTagIff(ms, requestId);
    OwnWord(ms, requestId);
  }

  lemma NoWordInNothing(requestId: string, p: string)
    requires HexId(requestId) && p != [] && (p[0] == 'D' || p[0] == 'P' || p[0] == 'S' || p[0] == 'L' || p[0] == 'G')
    ensures !Contains(Document([], requestId), p)
  {
    hide Contains, Concat, HeadPieces, FootPieces;
    HeadLacks(p[0]);
    FootLacks(requestId, p[0]);
    NoRows(INDENT, MessageTexts([]));
    NotWithout(Document([], requestId), p);
  }

  /** Without a message the response falls through all scans. */
  lemma NothingReceived(requestId: string)
    requires HexId(requestId)
    ensures ToReply(Document([], requestId)) == Other(OtherFields)
  {
    hide Contains, Document, ScanMessages;
    MessageTagIff([], requestId);
    NoWordInNothing(requestId, "DeleteMessageResponse");
    NoWordInNothing(requestId, "PurgeQueueResponse");
    NoWordInNothing(requestId, "SendMessageBatchResponse");
    NoWordInNothing(requestId, "SendMessageBatchResult");
    NoWordInNothing(requestId, "ListQueuesResponse");
    NoWordInNothing(requestId, "ListQueuesResult");
    NoWordInNothing(requestId, "GetQueueAttributesResponse");
    NoWordInNothing(requestId, "GetQueueAttributesResult");
  }

  /** Building the response and reading it back shows the client every message, its body and values
      as escaped, exactly under that condition; and as sent exactly when besides no body and no
      value has a special character. */
  lemma ReceiveRoundTrip(ms: seq<MessageInfo>, requestId: string)
    requires HexId(requestId) && forall k :: 0 <= k < |ms| ==> TagFree(ms[k])
    requires forall k :: 0 <= k < |ms| ==> DistinctNames(ms[k].attributes) && DistinctNames(ms[k].valued)
    ensures var right := ms != [] && !AnyHolds(ms, DELETED) && !AnyHolds(ms, PURGED);
            var reply := ToReply(Document(ms, requestId));
            && (reply == Received(SeenAll(EscapedAll(ms))) <==> right)
            && (reply == Received(SeenAll(ms)) <==> right && forall k :: 0 <= k < |ms| ==> PlainMessage(ms[k]))
  {
    hide Dispatch, Document, ScanMessages, SeenAll, EscapedAll, PlainMessage, AnyHolds, TagFree, DistinctNames;
    ReceiveDispatchIsRightIff(ms, requestId);
    ScanUndoesBuild(ms, requestId);
    SeenAsSentIff(ms, requestId);
  }

  /** A message attribute whose name contains a closing name tag is not seen by any client. */
  lemma TaggedNameIsLost(ms: seq<MessageInfo>, requestId: string, i: nat, j: nat)
    requires i < |ms| && j < |ms[i].valued| && Contains(ms[i].valued[j].name, "</Name>")
    ensures ToReply(Document(ms, requestId)) != Received(SeenAll(ms))
    ensures ToReply(Document(ms, requestId)) != Received(SeenAll(EscapedAll(ms)))
  {
    hide Contains, Dispatch, Document, ScanMessages, Seen;
    ClosingTagInNameIsLost(Document(ms, requestId), ms, i, j);
    ClosingTagInNameIsLost(Document(ms, requestId), EscapedAll(ms), i, j);
  }
}
