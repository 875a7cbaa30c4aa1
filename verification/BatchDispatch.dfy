/** Which branch the JSON protocol takes for a SendMessageBatch response: a field that holds one
    of three words misleads it. */
module BatchDispatch {
  import opened Types
  import opened Escape
  import opened Markup
  import opened XmlElements
  import opened XmlDispatch
  import opened Words
  import opened XmlBatch

  datatype Reply = Batch(json: BatchJson) | Crashed | Other(branch: Branch)

  function ToReply(xml: string): Reply {
    if !Dispatch(xml).SentBatch? then Other(Dispatch(xml))
    else
      var json := ScanBatch(xml);
      if json.None? then Crashed else Batch(json.value)
  }

  // ---------------------------------------------------------------- fields that hold a word

  function SuccessFields(e: Success): seq<string> {
    [e.id, e.messageId, e.bodyHash] + (if e.attributesHash.Some? then [e.attributesHash.value] else [])
  }

  function FailureFields(e: Failure): seq<string> {
    [e.id, e.code, e.message]
  }

  ghost predicate BatchContains(successful: seq<Success>, failed: seq<Failure>, p: string)
    requires p != []
  {
    || (exists k :: 0 <= k < |successful| && AnyContains(SuccessFields(successful[k]), p))
    || (exists k :: 0 <= k < |failed| && AnyContains(FailureFields(failed[k]), p))
  }

  // ---------------------------------------------------------------- the pieces of an entry

  lemma ElementTagsAreHarmless()
    ensures Harmless(SUCCESS_OPEN) && Harmless(SUCCESS_CLOSE)
  {
  }

  lemma GapsAreHarmless()
    ensures Harmless(GAP) && Harmless("\n    ") && Harmless("<Id>") && Harmless("</Id>")
  {
  }

  lemma MessageIdIsHarmless()
    ensures Harmless("<MessageId>") && Harmless("</MessageId>")
  {
  }

  lemma BodyHashIsHarmless()
    ensures Harmless("<MD5OfMessageBody>") && Harmless("</MD5OfMessageBody>")
  {
  }

  lemma AttributesHashIsHarmless()
    ensures Harmless("<MD5OfMessageAttributes>") && Harmless("</MD5OfMessageAttributes>")
  {
  }

  lemma FailureElementIsHarmless()
    ensures Harmless(FAILURE_OPEN) && Harmless(FAILURE_CLOSE)
  {
  }

  lemma CodeIsHarmless()
    ensures Harmless("<Code>") && Harmless("</Code>") && Harmless("<Message>") && Harmless("</Message>")
  {
  }

  lemma FaultIsHarmless()
    ensures Harmless("<SenderFault>") && Harmless("</SenderFault>") && Harmless("true") && Harmless("false")
  {
  }

  lemma FieldPiecesHarmless(e: Success)
    ensures Fenced(FieldPieces(e), 0) && |FieldPieces(e)| == 13
    ensures forall j :: 0 <= j < 13 && j != 3 && j != 7 && j != 11 ==> Harmless(FieldPieces(e)[j])
  {
    hide EscapeXml, Harmless;
    ElementTagsAreHarmless();
    GapsAreHarmless();
    MessageIdIsHarmless();
    BodyHashIsHarmless();
  }

  lemma SuccessHarmless(e: Success)
    ensures Fenced(SuccessPieces(e), 0)
    ensures forall j :: 0 <= j < |SuccessPieces(e)| && j != 3 && j != 7 && j != 11 && j != 15 ==> Harmless(SuccessPieces(e)[j])
    ensures |SuccessPieces(e)| == (if e.attributesHash.Some? then 19 else 15)
    ensures e.attributesHash.Some? ==> SuccessPieces(e)[15] == EscapeXml(e.attributesHash.value)
  {
    hide EscapeXml, Harmless, FieldPieces;
    FieldPiecesHarmless(e);
    ElementTagsAreHarmless();
    GapsAreHarmless();
    AttributesHashIsHarmless();
    var front, tail := FieldPieces(e), HashPieces(e.attributesHash) + ["\n    ", SUCCESS_CLOSE];
    assert SuccessPieces(e) == front + tail;
    assert tail[|tail| - 1] == SUCCESS_CLOSE;
  }

  lemma SuccessContains(e: Success, p: string)
    requires Word(p)
    ensures Contains(Concat(SuccessPieces(e)), p) <==> AnyContains(SuccessFields(e), p)
  {
    hide EscapeXml, Harmless, SuccessPieces, Contains, Concat, Fenced;
    SuccessHarmless(e);
    SuccessTags(e);
    if e.attributesHash.Some? {
      FieldsContain(SuccessPieces(e), [3, 7, 11, 15], SuccessFields(e), p);
    } else {
      FieldsContain(SuccessPieces(e), [3, 7, 11], SuccessFields(e), p);
    }
  }

  lemma FailureHarmless(e: Failure)
    ensures Fenced(FailurePieces(e), 0)
    ensures forall j :: 0 <= j < |FailurePieces(e)| && j != 3 && j != 7 && j != 11 ==> Harmless(FailurePieces(e)[j])
  {
    hide EscapeXml, Harmless;
    GapsAreHarmless();
    FailureElementIsHarmless();
    CodeIsHarmless();
    FaultIsHarmless();
  }

  lemma FailureContains(e: Failure, p: string)
    requires Word(p)
    ensures Contains(Concat(FailurePieces(e)), p) <==> AnyContains(FailureFields(e), p)
  {
    hide EscapeXml, Harmless, FailurePieces, Contains, Concat, Fenced, Truth;
    FailureHarmless(e);
    FailureTags(e);
    FieldsContain(FailurePieces(e), [3, 7, 11], FailureFields(e), p);
  }

  // ---------------------------------------------------------------- words in the document

  lemma RowsHaveNoBoundary(successful: seq<Success>, failed: seq<Failure>)
    ensures forall k :: 0 <= k < |successful| ==> Bracketed(Successes(successful)[k])
    ensures forall k :: 0 <= k < |failed| ==> Bracketed(Failures(failed)[k])
  {
    hide SuccessPieces, FailurePieces, Concat, EscapeXml;
    forall k | 0 <= k < |successful|
      ensures Bracketed(Successes(successful)[k])
    {
      SuccessAlternates(successful[k]);
      SuccessTags(successful[k]);
      ElementIsBracketed(SuccessPieces(successful[k]));
    }
    forall k | 0 <= k < |failed|
      ensures Bracketed(Failures(failed)[k])
    {
      FailureTags(failed[k]);
      ElementIsBracketed(FailurePieces(failed[k]));
    }
  }

  lemma HeadIsFree(p: string)
    requires Word(p)
    ensures !Contains(Concat(HeadPieces()), p)
    ensures var head := Concat(HeadPieces()); head != [] && head[|head| - 1] == '\n'
  {
    hide Concat, Contains, HeadPieces;
    WordFacts(p);
    ReceivedFacts();
    DeletedFacts();
    HeadParts();
    var first, rest := HeadPieces()[..2], HeadPieces()[2..];
    ConcatJoin(first, rest);
    assert HeadPieces() == first + rest;
    ContainsSplit(Concat(first), Concat(rest), p);
    if p == DELETED {
      FreeOf(Concat(first), p, 'D');
      FreeOf(Concat(rest), p, 'D');
    } else if p == PURGED {
      FreeOf(Concat(first), p, 'P');
      FreeOf(Concat(rest), p, 'P');
    } else {
      FreeOf(Concat(first), p, 'R');
      FreeOf(Concat(rest), p, 'v');
    }
  }

  lemma HeadParts()
    ensures |HeadPieces()| == 9
    ensures var a := Concat(HeadPieces()[..2]);
            'D' !in a && 'P' !in a && 'R' !in a && a != [] && a[|a| - 1] == '\n'
    ensures var b := Concat(HeadPieces()[2..]);
            'D' !in b && 'P' !in b && 'v' !in b && b != [] && b[|b| - 1] == '\n'
  {
    hide Concat;
    FirstParts();
    RestParts();
  }

  lemma FirstParts()
    ensures |HeadPieces()| == 9
    ensures var a := Concat(HeadPieces()[..2]);
            'D' !in a && 'P' !in a && 'R' !in a && a != [] && a[|a| - 1] == '\n'
  {
    hide Concat;
    var a := HeadPieces()[..2];
    assert a == ["<?xml version=\"1.0\"?>", "\n"];
    NotInConcat(a, 'D');
    NotInConcat(a, 'P');
    NotInConcat(a, 'R');
    EndsWithNewline(a);
  }

  lemma RestParts()
    ensures |HeadPieces()| == 9
    ensures var b := Concat(HeadPieces()[2..]);
            'D' !in b && 'P' !in b && 'v' !in b && b != [] && b[|b| - 1] == '\n'
  {
    hide Concat;
    var b := HeadPieces()[2..];
    RestHas(b, 'D');
    RestHas(b, 'P');
    RestHas(b, 'v');
    EndsWithNewline(b);
  }

  lemma RestHas(b: seq<string>, c: char)
    requires b == HeadPieces()[2..] && (c == 'D' || c == 'P' || c == 'v')
    ensures c !in Concat(b)
  {
    hide Concat;
    NotInConcat(b, c);
  }

  lemma FootLacks(requestId: string, c: char)
    requires HexId(requestId) && (c == 'D' || c == 'P' || c == 'v')
    ensures c !in Concat(FootPieces(requestId))
  {
    hide Concat;
    NotInConcat(FootPieces(requestId), c);
  }

  lemma FootIsFree(requestId: string, p: string)
    requires Word(p) && HexId(requestId)
    ensures !Contains(Concat(FootPieces(requestId)), p)
    ensures var foot := Concat(FootPieces(requestId)); foot != [] && foot[0] == ' '
  {
    hide Concat, Contains;
    FootLacks(requestId, 'D');
    FootLacks(requestId, 'P');
    FootLacks(requestId, 'v');
    ConcatSplit(FootPieces(requestId), 0);
    assert FootPieces(requestId)[..0] == [];
    ConcatEmpty();
    HarmlessIsFree(Concat(FootPieces(requestId)), p);
  }

  lemma RowsOfBatch(successful: seq<Success>, failed: seq<Failure>, p: string)
    requires Word(p)
    ensures AnyContains(Successes(successful), p) <==> exists k :: 0 <= k < |successful| && AnyContains(SuccessFields(successful[k]), p)
    ensures AnyContains(Failures(failed), p) <==> exists k :: 0 <= k < |failed| && AnyContains(FailureFields(failed[k]), p)
  {
    hide Contains, Concat, SuccessPieces, FailurePieces, SuccessFields, FailureFields;
    forall k | 0 <= k < |successful|
      ensures Contains(Successes(successful)[k], p) <==> AnyContains(SuccessFields(successful[k]), p)
    {
      SuccessContains(successful[k], p);
    }
    forall k | 0 <= k < |failed|
      ensures Contains(Failures(failed)[k], p) <==> AnyContains(FailureFields(failed[k]), p)
    {
      FailureContains(failed[k], p);
    }
    hide AnyContains;
    AnyOf(Successes(successful), p);
    AnyOf(Failures(failed), p);
  }

  lemma DocumentContains(successful: seq<Success>, failed: seq<Failure>, requestId: string, p: string)
    requires Word(p) && HexId(requestId)
    ensures Contains(Document(successful, failed, requestId), p) <==> BatchContains(successful, failed, p)
  {
    hide Contains, Rows, Concat, HeadPieces, FootPieces, AnyContains, Successes, Failures, SuccessFields, FailureFields;
    WordFacts(p);
    HeadIsFree(p);
    FootIsFree(requestId, p);
    RowsHaveNoBoundary(successful, failed);
    RowsCount(successful, failed);
    RowsContain(INDENT, Successes(successful), p);
    RowsContain(INDENT, Failures(failed), p);
    RowsOfBatch(successful, failed, p);
    var good, bad, foot := Rows(INDENT, Successes(successful)), Rows(INDENT, Failures(failed)), Concat(FootPieces(requestId));
    RowsEnd(INDENT, Successes(successful));
    ContainsSplit(Concat(HeadPieces()), good + (bad + foot), p);
    ContainsSplit(good, bad + foot, p);
    ContainsSplit(bad, foot, p);
  }

  lemma RowsCount(successful: seq<Success>, failed: seq<Failure>)
    ensures |Successes(successful)| == |successful| && |Failures(failed)| == |failed|
  {
  }

  // ---------------------------------------------------------------- the message tag

  lemma SuccessHasNoMessageTag(e: Success)
    ensures Inert(Concat(SuccessPieces(e)), "<Message>")
  {
    hide EscapeXml, Alternating, SuccessPieces, Concat, Inert;
    SuccessAlternates(e);
    SuccessTags(e);
    var pieces := SuccessPieces(e);
    if e.attributesHash.None? {
      ApartPass(pieces, "<Message>", [1, 1, 1, 8, 1, 2, 1, 1]);
    } else {
      ApartPass(pieces, "<Message>", [1, 1, 1, 8, 1, 2, 1, 2, 1, 1]);
    }
    InertPieces(pieces, "<Message>");
  }

  lemma HeadHasNoMessageTag()
    ensures Inert(Concat(HeadPieces()), "<Message>")
  {
    hide Inert, Concat;
    var p := "<Message>";
    InertTag("<?xml version=\"1.0\"?>", p, 1);
    InertText("\n", p);
    InertTag("<SendMessageBatchResponse ", p, 1);
    InertText("xmlns=\"http:", p);
    InertText("//queue.amazonaws.com", p);
    InertText("/doc/2012-11-05/\">", p);
    InertText("\n  ", p);
    InertTag("<SendMessageBatchResult>", p, 1);
    InertPieces(HeadPieces(), p);
  }

  lemma FootHasNoMessageTag(requestId: string)
    requires '<' !in requestId
    ensures Inert(Concat(FootPieces(requestId)), "<Message>")
  {
    hide Inert, Concat;
    var p := "<Message>";
    InertText("  ", p);
    InertTag("</SendMessageBatchResult>", p, 1);
    InertText("\n  ", p);
    InertTag("<ResponseMetadata>", p, 1);
    InertText("\n    ", p);
    InertTag("<RequestId>", p, 1);
    InertText(requestId, p);
    InertTag("</RequestId>", p, 1);
    InertTag("</ResponseMetadata>", p, 1);
    InertText("\n", p);
    InertTag("</SendMessageBatchResponse>", p, 1);
    InertPieces(FootPieces(requestId), p);
  }

  lemma FailureHasMessageTag(e: Failure)
    ensures Contains(Concat(FailurePieces(e)), "<Message>")
  {
    hide EscapeXml, FailurePieces, Contains, Concat, Truth;
    FailureTags(e);
    var pieces := FailurePieces(e);
    ConcatSplit(pieces, 10);
    Itself("<Message>", Concat(pieces[11..]));
    ContainsInFirst(Concat(pieces[..10]), pieces[10] + Concat(pieces[11..]), "<Message>");
  }

  /** A failed entry brings a message tag into the document, and nothing else does. */
  lemma MessageTagIff(successful: seq<Success>, failed: seq<Failure>, requestId: string)
    requires HexId(requestId)
    ensures Contains(Document(successful, failed, requestId), "<Message>") <==> failed != []
  {
    hide Contains, Inert, Rows, Concat, HeadPieces, FootPieces, SuccessPieces, FailurePieces, Find;
    var p := "<Message>";
    var head, foot := Concat(HeadPieces()), Concat(FootPieces(requestId));
    var good, bad := Rows(INDENT, Successes(successful)), Rows(INDENT, Failures(failed));
    if failed == [] {
      NoRows(INDENT, Failures(failed));
      forall k | 0 <= k < |successful|
        ensures Inert(Successes(successful)[k], p)
      {
        SuccessHasNoMessageTag(successful[k]);
      }
      RowsInert(INDENT, Successes(successful), p);
      HeadHasNoMessageTag();
      FootHasNoMessageTag(requestId);
      assert bad + foot == foot;
      InertJoin(good, foot, p);
      InertJoin(head, good + foot, p);
      InertIsAbsent(head + (good + foot), p);
    } else {
      FailureHasMessageTag(failed[0]);
      var first := Failures(failed)[0];
      RowsUnfold(INDENT, Failures(failed));
      ContainsInFirst("    ", first, p);
      ContainsInFirst("    " + first, "\n" + Rows(INDENT, Failures(failed)[1..]), p);
      ContainsInFirst(bad, foot, p);
      ContainsInFirst(good, bad + foot, p);
      ContainsInFirst(head, good + (bad + foot), p);
    }
  }

  // ---------------------------------------------------------------- the branch taken

  lemma OwnWord(successful: seq<Success>, failed: seq<Failure>, requestId: string)
    ensures Contains(Document(successful, failed, requestId), "SendMessageBatchResponse")
  {
    hide Contains, Rows, FootPieces, Concat, Successes, Failures;
    var p := "SendMessageBatchResponse";
    var pieces := HeadPieces();
    ConcatSplit(pieces, 2);
    assert pieces[2] == "<" + (p + " ");
    Itself(p, " ");
    ContainsInFirst("<", p + " ", p);
    ContainsInFirst(pieces[2], Concat(pieces[3..]), p);
    ContainsInFirst(Concat(pieces[..2]), pieces[2] + Concat(pieces[3..]), p);
    ContainsInFirst(Concat(pieces), Rows(INDENT, Successes(successful)) + (Rows(INDENT, Failures(failed)) + Concat(FootPieces(requestId))), p);
  }

  /** The response is read as a batch exactly when no field holds "DeleteMessageResponse" or
      "PurgeQueueResponse" and, if there is a failed entry, none holds "ReceiveMessageResponse". */
  lemma BatchDispatchIsRightIff(successful: seq<Success>, failed: seq<Failure>, requestId: string)
    requires HexId(requestId)
    ensures Dispatch(Document(successful, failed, requestId)).SentBatch? <==>
              && !BatchContains(successful, failed, DELETED) && !BatchContains(successful, failed, PURGED)
              && (failed != [] ==> !BatchContains(successful, failed, RECEIVED))
  {
    hide Contains, Document, BatchContains;
    DocumentContains(successful, failed, requestId, DELETED);
    DocumentContains(successful, failed, requestId, PURGED);
    DocumentContains(successful, failed, requestId, RECEIVED);
    MessageTagIff(successful, failed, requestId);
    OwnWord(successful, failed, requestId);
  }

  /** Building a batch response and reading it back shows the client every entry, with its fields
      as escaped, exactly under that condition; and as sent exactly when besides no field has a
      special character and no entry has a hash of its message attributes. */
  lemma BatchRoundTrip(successful: seq<Success>, failed: seq<Failure>, requestId: string)
    requires HexId(requestId)
    ensures var right := && !BatchContains(successful, failed, DELETED) && !BatchContains(successful, failed, PURGED)
                         && (failed != [] ==> !BatchContains(successful, failed, RECEIVED));
            var reply := ToReply(Document(successful, failed, requestId));
            && (reply == Batch(Shown(EscapedSuccesses(successful), EscapedFailures(failed))) <==> right)
            && (reply == Batch(Shown(successful, failed)) <==> right && PlainBatch(successful, failed))
  {
    hide Dispatch, Document, ScanBatch, Shown, EscapedSuccesses, EscapedFailures, PlainBatch, BatchContains;
    BatchDispatchIsRightIff(successful, failed, requestId);
    ScanUndoesBuild(successful, failed, requestId);
    SeenAsSentIff(successful, failed, requestId);
  }
}
