/** The SendMessageBatch response as XML, and the two scans that collect its entries. */
module XmlBatch {
  import opened Types
  import opened Escape
  import opened Markup
  import opened XmlElements

  datatype Success = Success(id: string, messageId: string, bodyHash: string, attributesHash: Option<string>)

  datatype Failure = Failure(id: string, code: string, message: string, senderFault: bool)

  // ---------------------------------------------------------------- the document

  const INDENT := "    "
  const GAP := "\n      "
  const SUCCESS_OPEN := "<SendMessageBatchResultEntry>"
  const SUCCESS_CLOSE := "</SendMessageBatchResultEntry>"
  const FAILURE_OPEN := "<BatchResultErrorEntry>"
  const FAILURE_CLOSE := "</BatchResultErrorEntry>"

  function HeadPieces(): seq<string> {
    ["<?xml version=\"1.0\"?>", "\n", "<SendMessageBatchResponse ",
     "xmlns=\"http:", "//queue.amazonaws.com", "/doc/2012-11-05/\">", "\n  ", "<SendMessageBatchResult>", "\n"]
  }

  function HashPieces(hash: Option<string>): seq<string> {
    if hash.None? then []
    else [GAP, "<MD5OfMessageAttributes>", EscapeXml(hash.value), "</MD5OfMessageAttributes>"]
  }

  function FieldPieces(e: Success): seq<string> {
    [SUCCESS_OPEN, GAP, "<Id>", EscapeXml(e.id), "</Id>", GAP, "<MessageId>", EscapeXml(e.messageId),
     "</MessageId>", GAP, "<MD5OfMessageBody>", EscapeXml(e.bodyHash), "</MD5OfMessageBody>"]
  }

  function SuccessPieces(e: Success): seq<string> {
    FieldPieces(e) + HashPieces(e.attributesHash) + ["\n    ", SUCCESS_CLOSE]
  }

  function Truth(b: bool): string {
    if b then "true" else "false"
  }

  function FailurePieces(e: Failure): seq<string> {
    [FAILURE_OPEN, GAP, "<Id>", EscapeXml(e.id), "</Id>", GAP, "<Code>", EscapeXml(e.code), "</Code>", GAP,
     "<Message>", EscapeXml(e.message), "</Message>", GAP, "<SenderFault>", Truth(e.senderFault), "</SenderFault>",
     "\n    ", FAILURE_CLOSE]
  }

  function FootPieces(requestId: string): seq<string> {
    ["  ", "</SendMessageBatchResult>", "\n  ", "<ResponseMetadata>", "\n    ", "<RequestId>", requestId,
     "</RequestId>", "\n  ", "</ResponseMetadata>", "\n", "</SendMessageBatchResponse>"]
  }

  function Successes(es: seq<Success>): seq<string> {
    seq(|es|, k requires 0 <= k < |es| => Concat(SuccessPieces(es[k])))
  }

  function Failures(es: seq<Failure>): seq<string> {
    seq(|es|, k requires 0 <= k < |es| => Concat(FailurePieces(es[k])))
  }

  function Document(successful: seq<Success>, failed: seq<Failure>, requestId: string): string {
    Concat(HeadPieces()) + (Rows(INDENT, Successes(successful)) + (Rows(INDENT, Failures(failed)) + Concat(FootPieces(requestId))))
  }

  // ---------------------------------------------------------------- the scans

  /** An entry as JSON; a field is None when one of its tags is missing. The scan never looks for
      the hash of the message attributes. */
  datatype SuccessJson =
    SuccessJson(id: Option<string>, messageId: Option<string>, bodyHash: Option<string>, attributesHash: Option<string>)

  datatype FailureJson =
    FailureJson(id: Option<string>, code: Option<string>, message: Option<string>, senderFault: Option<bool>)

  /** Each list is left out when it is empty. */
  datatype BatchJson = BatchJson(successful: Option<seq<SuccessJson>>, failed: Option<seq<FailureJson>>)

  function Flag(f: Field): Option<bool> {
    if f.Text? then Some(f.value == "true") else None
  }

  /** None stands for a panic, here and below. */
  function AsSuccess(text: string): Option<SuccessJson> {
    var id, messageId := ReadField(text, "<Id>", "</Id>"), ReadField(text, "<MessageId>", "</MessageId>");
    var bodyHash := ReadField(text, "<MD5OfMessageBody>", "</MD5OfMessageBody>");
    if id.Panic? || messageId.Panic? || bodyHash.Panic? then None
    else Some(SuccessJson(TextOf(id), TextOf(messageId), TextOf(bodyHash), None))
  }

  function AsFailure(text: string): Option<FailureJson> {
    var id, code := ReadField(text, "<Id>", "</Id>"), ReadField(text, "<Code>", "</Code>");
    var message, fault := ReadField(text, "<Message>", "</Message>"), ReadField(text, "<SenderFault>", "</SenderFault>");
    if id.Panic? || code.Panic? || message.Panic? || fault.Panic? then None
    else Some(FailureJson(TextOf(id), TextOf(code), TextOf(message), Flag(fault)))
  }

  function NonEmpty<T>(s: seq<T>): Option<seq<T>> {
    if s == [] then None else Some(s)
  }

  function ScanBatch(xml: string): Option<BatchJson> {
    var good := Collect(AsSuccess, Elements(xml, SUCCESS_OPEN, SUCCESS_CLOSE));
    var bad := Collect(AsFailure, Elements(xml, FAILURE_OPEN, FAILURE_CLOSE));
    if good.None? || bad.None? then None else Some(BatchJson(NonEmpty(good.value), NonEmpty(bad.value)))
  }

  // ---------------------------------------------------------------- what a client sees

  function Seen(e: Success): SuccessJson {
    SuccessJson(Some(e.id), Some(e.messageId), Some(e.bodyHash), e.attributesHash)
  }

  function SeenFailure(e: Failure): FailureJson {
    FailureJson(Some(e.id), Some(e.code), Some(e.message), Some(e.senderFault))
  }

  function SeenAll(es: seq<Success>): (r: seq<SuccessJson>)
    ensures |r| == |es|
  {
    seq(|es|, k requires 0 <= k < |es| => Seen(es[k]))
  }

  function SeenFailures(es: seq<Failure>): (r: seq<FailureJson>)
    ensures |r| == |es|
  {
    seq(|es|, k requires 0 <= k < |es| => SeenFailure(es[k]))
  }

  /** The entries as the client would like to see them. */
  function Shown(successful: seq<Success>, failed: seq<Failure>): BatchJson {
    BatchJson(NonEmpty(SeenAll(successful)), NonEmpty(SeenFailures(failed)))
  }

  /** What becomes of an entry: its fields escaped, its second hash lost. */
  function EscapedSuccess(e: Success): Success {
    Success(EscapeXml(e.id), EscapeXml(e.messageId), EscapeXml(e.bodyHash), None)
  }

  function EscapedFailure(e: Failure): Failure {
    Failure(EscapeXml(e.id), EscapeXml(e.code), EscapeXml(e.message), e.senderFault)
  }

  function EscapedSuccesses(es: seq<Success>): (r: seq<Success>)
    ensures |r| == |es|
  {
    seq(|es|, k requires 0 <= k < |es| => EscapedSuccess(es[k]))
  }

  function EscapedFailures(es: seq<Failure>): (r: seq<Failure>)
    ensures |r| == |es|
  {
    seq(|es|, k requires 0 <= k < |es| => EscapedFailure(es[k]))
  }

  // ---------------------------------------------------------------- pieces that pass

  lemma FieldsAlternate(e: Success)
    ensures Alternating(FieldPieces(e))
  {
    hide EscapeXml;
    EscapedIsClean(e.id);
    EscapedIsClean(e.messageId);
    EscapedIsClean(e.bodyHash);
  }

  lemma SuccessAlternates(e: Success)
    ensures Alternating(SuccessPieces(e)) && |SuccessPieces(e)| == (if e.attributesHash.None? then 15 else 19)
    ensures forall j :: 0 <= j < 13 ==> SuccessPieces(e)[j] == FieldPieces(e)[j]
    ensures e.attributesHash.Some? ==>
              SuccessPieces(e)[14] == "<MD5OfMessageAttributes>" && SuccessPieces(e)[16] == "</MD5OfMessageAttributes>"
    ensures SuccessPieces(e)[|SuccessPieces(e)| - 1] == SUCCESS_CLOSE
  {
    hide EscapeXml, FieldPieces, Alternating;
    FieldsAlternate(e);
    assert |FieldPieces(e)| == 13 by {
      FieldCount(e);
    }
    if e.attributesHash.Some? {
      EscapedIsClean(e.attributesHash.value);
    }
    TailAlternates(FieldPieces(e), HashPieces(e.attributesHash) + ["\n    ", SUCCESS_CLOSE]);
    assert SuccessPieces(e) == FieldPieces(e) + (HashPieces(e.attributesHash) + ["\n    ", SUCCESS_CLOSE]);
  }

  lemma FieldCount(e: Success)
    ensures |FieldPieces(e)| == 13
  {
  }

  lemma FailureAlternates(e: Failure)
    ensures Alternating(FailurePieces(e)) && |FailurePieces(e)| == 19
  {
    hide EscapeXml;
    EscapedIsClean(e.id);
    EscapedIsClean(e.code);
    EscapedIsClean(e.message);
  }

  // ---------------------------------------------------------------- reading one entry

  lemma SuccessTags(e: Success)
    ensures var p := SuccessPieces(e);
            && |p| > 12 && p[0] == SUCCESS_OPEN && p[2] == "<Id>" && p[4] == "</Id>"
            && p[6] == "<MessageId>" && p[8] == "</MessageId>"
            && p[10] == "<MD5OfMessageBody>" && p[12] == "</MD5OfMessageBody>"
            && p[3] == EscapeXml(e.id) && p[7] == EscapeXml(e.messageId) && p[11] == EscapeXml(e.bodyHash)
  {
    hide EscapeXml, Alternating;
    SuccessAlternates(e);
  }

  lemma SuccessId(e: Success)
    ensures ReadField(Concat(SuccessPieces(e)), "<Id>", "</Id>") == Text(EscapeXml(e.id))
  {
    hide EscapeXml, Alternating, SuccessPieces, Concat, ReadField, Inert, Truth;
    SuccessAlternates(e);
    SuccessTags(e);
    var pieces := SuccessPieces(e);
    FieldBetween(pieces, 2, "<Id>", "</Id>", [1], [1, 1]);
  }

  lemma SuccessMessageId(e: Success)
    ensures ReadField(Concat(SuccessPieces(e)), "<MessageId>", "</MessageId>") == Text(EscapeXml(e.messageId))
  {
    hide EscapeXml, Alternating, SuccessPieces, Concat, ReadField, Inert, Truth;
    SuccessAlternates(e);
    SuccessTags(e);
    var pieces := SuccessPieces(e);
    FieldBetween(pieces, 6, "<MessageId>", "</MessageId>", [1, 1, 1], [1, 1, 2, 1]);
  }

  lemma BodyHashOpens(e: Success)
    ensures Apart(SuccessPieces(e), "<MD5OfMessageBody>", [1, 1, 1, 2, 1])
  {
    hide EscapeXml, SuccessPieces, Alternating;
    SuccessTags(e);
  }

  lemma BodyHashCloses(e: Success)
    ensures Apart(SuccessPieces(e), "</MD5OfMessageBody>", [1, 1, 2, 1, 3, 1])
  {
    hide EscapeXml, SuccessPieces, Alternating;
    SuccessTags(e);
  }

  lemma SuccessBodyHash(e: Success)
    ensures ReadField(Concat(SuccessPieces(e)), "<MD5OfMessageBody>", "</MD5OfMessageBody>") == Text(EscapeXml(e.bodyHash))
  {
    hide EscapeXml, Alternating, SuccessPieces, Concat, ReadField, Inert, Apart;
    SuccessAlternates(e);
    SuccessTags(e);
    BodyHashOpens(e);
    BodyHashCloses(e);
    FieldBetween(SuccessPieces(e), 10, "<MD5OfMessageBody>", "</MD5OfMessageBody>", [1, 1, 1, 2, 1], [1, 1, 2, 1, 3, 1]);
  }

  lemma SuccessReadBack(e: Success)
    ensures AsSuccess(Concat(SuccessPieces(e))) == Some(Seen(EscapedSuccess(e)))
  {
    hide SuccessPieces, Concat, ReadField, EscapeXml;
    SuccessId(e);
    SuccessMessageId(e);
    SuccessBodyHash(e);
  }

  lemma SuccessIsElement(e: Success)
    ensures IsElement(Concat(SuccessPieces(e)), SUCCESS_OPEN, SUCCESS_CLOSE)
  {
    hide EscapeXml, Alternating, SuccessPieces, Concat, IsElement;
    SuccessAlternates(e);
    SuccessTags(e);
    if e.attributesHash.None? {
      ElementBetween(SuccessPieces(e), SUCCESS_OPEN, SUCCESS_CLOSE, [1, 1, 2, 1, 2, 1, 2]);
    } else {
      ElementBetween(SuccessPieces(e), SUCCESS_OPEN, SUCCESS_CLOSE, [1, 1, 2, 1, 2, 1, 2, 1, 2]);
    }
  }

  lemma SuccessIsNoFailure(e: Success)
    ensures Inert(Concat(SuccessPieces(e)), FAILURE_OPEN)
  {
    hide EscapeXml, Alternating, SuccessPieces, Concat, Inert;
    SuccessAlternates(e);
    SuccessTags(e);
    var pieces := SuccessPieces(e);
    var rest := if e.attributesHash.None? then [1] else [1, 1, 1];
    ApartPass(pieces, FAILURE_OPEN, [1, 1, 1, 1, 1, 1, 1] + rest);
    InertPieces(pieces, FAILURE_OPEN);
  }

  lemma FailureTags(e: Failure)
    ensures var p := FailurePieces(e);
            && |p| == 19 && p[0] == FAILURE_OPEN && p[2] == "<Id>" && p[4] == "</Id>"
            && p[6] == "<Code>" && p[8] == "</Code>" && p[10] == "<Message>" && p[12] == "</Message>"
            && p[14] == "<SenderFault>" && p[16] == "</SenderFault>" && p[18] == FAILURE_CLOSE
            && p[3] == EscapeXml(e.id) && p[7] == EscapeXml(e.code) && p[11] == EscapeXml(e.message)
            && p[15] == Truth(e.senderFault)
  {
    hide EscapeXml;
  }

  lemma FailureId(e: Failure)
    ensures ReadField(Concat(FailurePieces(e)), "<Id>", "</Id>") == Text(EscapeXml(e.id))
  {
    hide EscapeXml, Alternating, FailurePieces, Concat, ReadField, Inert, Truth;
    FailureAlternates(e);
    FailureTags(e);
    var pieces := FailurePieces(e);
    FieldBetween(pieces, 2, "<Id>", "</Id>", [1], [1, 1]);
  }

  lemma FailureCode(e: Failure)
    ensures ReadField(Concat(FailurePieces(e)), "<Code>", "</Code>") == Text(EscapeXml(e.code))
  {
    hide EscapeXml, Alternating, FailurePieces, Concat, ReadField, Inert, Truth;
    FailureAlternates(e);
    FailureTags(e);
    var pieces := FailurePieces(e);
    FieldBetween(pieces, 6, "<Code>", "</Code>", [1, 1, 1], [1, 1, 2, 1]);
  }

  lemma FailureMessage(e: Failure)
    ensures ReadField(Concat(FailurePieces(e)), "<Message>", "</Message>") == Text(EscapeXml(e.message))
  {
    hide EscapeXml, Alternating, FailurePieces, Concat, ReadField, Inert, Truth;
    FailureAlternates(e);
    FailureTags(e);
    var pieces := FailurePieces(e);
    FieldBetween(pieces, 10, "<Message>", "</Message>", [1, 1, 1, 1, 1], [1, 1, 2, 1, 2, 1]);
  }

  lemma FailureSenderFault(e: Failure)
    ensures ReadField(Concat(FailurePieces(e)), "<SenderFault>", "</SenderFault>") == Text(Truth(e.senderFault))
  {
    hide EscapeXml, Alternating, FailurePieces, Concat, ReadField, Inert, Truth;
    FailureAlternates(e);
    FailureTags(e);
    var pieces := FailurePieces(e);
    FieldBetween(pieces, 14, "<SenderFault>", "</SenderFault>", [1, 1, 1, 1, 1, 1, 1], [1, 1, 2, 1, 2, 1, 2, 1]);
  }

  lemma FailureReadBack(e: Failure)
    ensures AsFailure(Concat(FailurePieces(e))) == Some(SeenFailure(EscapedFailure(e)))
  {
    hide FailurePieces, Concat, ReadField, EscapeXml;
    FailureId(e);
    FailureCode(e);
    FailureMessage(e);
    FailureSenderFault(e);
  }

  lemma FailureIsElement(e: Failure)
    ensures IsElement(Concat(FailurePieces(e)), FAILURE_OPEN, FAILURE_CLOSE)
  {
    hide EscapeXml, Alternating, FailurePieces, Concat, IsElement, Truth;
    FailureAlternates(e);
    FailureTags(e);
    ElementBetween(FailurePieces(e), FAILURE_OPEN, FAILURE_CLOSE, [1, 1, 2, 1, 2, 1, 2, 1, 2]);
  }

  lemma FailureIsNoSuccess(e: Failure)
    ensures Inert(Concat(FailurePieces(e)), SUCCESS_OPEN)
  {
    hide EscapeXml, Alternating, FailurePieces, Concat, Inert, Truth;
    FailureAlternates(e);
    FailureTags(e);
    ApartPass(FailurePieces(e), SUCCESS_OPEN, [1, 1, 1, 1, 1, 1, 1, 5, 1, 1]);
    InertPieces(FailurePieces(e), SUCCESS_OPEN);
  }

  lemma HeadInert(p: string)
    requires p == SUCCESS_OPEN || p == FAILURE_OPEN
    ensures Inert(Concat(HeadPieces()), p)
  {
    hide Inert;
    InertTag("<?xml version=\"1.0\"?>", p, 1);
    InertText("\n", p);
    InertTag("<SendMessageBatchResponse ", p, if p == SUCCESS_OPEN then 20 else 1);
    InertText("xmlns=\"http:", p);
    InertText("//queue.amazonaws.com", p);
    InertText("/doc/2012-11-05/\">", p);
    InertText("\n  ", p);
    InertTag("<SendMessageBatchResult>", p, if p == SUCCESS_OPEN then 23 else 1);
    InertPieces(HeadPieces(), p);
  }

  lemma FootInert(requestId: string, p: string)
    requires '<' !in requestId && (p == SUCCESS_OPEN || p == FAILURE_OPEN)
    ensures Inert(Concat(FootPieces(requestId)), p)
  {
    hide Inert;
    InertText("  ", p);
    InertTag("</SendMessageBatchResult>", p, 1);
    InertText("\n  ", p);
    InertTag("<ResponseMetadata>", p, 1);
    InertText("\n    ", p);
    InertTag("<RequestId>", p, 1);
    InertText(requestId, p);
    InertTag("</RequestId>", p, 1);
    InertTag("</ResponseMetadata>", p, 1);
    InertText("\n", p);
    InertTag("</SendMessageBatchResponse>", p, 1);
    InertPieces(FootPieces(requestId), p);
  }

  // ---------------------------------------------------------------- round trip

  lemma ElementsReadBack(successful: seq<Success>, failed: seq<Failure>, requestId: string)
    requires '<' !in requestId
    ensures Elements(Document(successful, failed, requestId), SUCCESS_OPEN, SUCCESS_CLOSE) == Successes(successful)
    ensures Elements(Document(successful, failed, requestId), FAILURE_OPEN, FAILURE_CLOSE) == Failures(failed)
  {
    hide Inert, Rows, Elements, Concat, HeadPieces, FootPieces, IsElement, SuccessPieces, FailurePieces;
    var good, bad, foot := Successes(successful), Failures(failed), Concat(FootPieces(requestId));
    forall k | 0 <= k < |good|
      ensures IsElement(good[k], SUCCESS_OPEN, SUCCESS_CLOSE) && Inert(good[k], FAILURE_OPEN)
    {
      SuccessIsElement(successful[k]);
      SuccessIsNoFailure(successful[k]);
    }
    forall k | 0 <= k < |bad|
      ensures IsElement(bad[k], FAILURE_OPEN, FAILURE_CLOSE) && Inert(bad[k], SUCCESS_OPEN)
    {
      FailureIsElement(failed[k]);
      FailureIsNoSuccess(failed[k]);
    }
    HeadInert(SUCCESS_OPEN);
    RowsInert(INDENT, bad, SUCCESS_OPEN);
    FootInert(requestId, SUCCESS_OPEN);
    InertJoin(Rows(INDENT, bad), foot, SUCCESS_OPEN);
    RowsReadBack(INDENT, Concat(HeadPieces()), good, Rows(INDENT, bad) + foot, SUCCESS_OPEN, SUCCESS_CLOSE);
    HeadInert(FAILURE_OPEN);
    RowsInert(INDENT, good, FAILURE_OPEN);
    InertJoin(Concat(HeadPieces()), Rows(INDENT, good), FAILURE_OPEN);
    FootInert(requestId, FAILURE_OPEN);
    RowsReadBack(INDENT, Concat(HeadPieces()) + Rows(INDENT, good), bad, foot, FAILURE_OPEN, FAILURE_CLOSE);
    assert Document(successful, failed, requestId) == Concat(HeadPieces()) + Rows(INDENT, good) + (Rows(INDENT, bad) + foot);
  }

  lemma SuccessesReadBack(es: seq<Success>)
    ensures Collect(AsSuccess, Successes(es)) == Some(SeenAll(EscapedSuccesses(es)))
  {
    hide AsSuccess, SuccessPieces, Concat, Collect, EscapedSuccess;
    forall k | 0 <= k < |es|
      ensures AsSuccess(Successes(es)[k]) == Some(Seen(EscapedSuccess(es[k])))
    {
      SuccessReadBack(es[k]);
    }
    CollectAll(AsSuccess, Successes(es), SeenAll(EscapedSuccesses(es)));
  }

  lemma FailuresReadBack(es: seq<Failure>)
    ensures Collect(AsFailure, Failures(es)) == Some(SeenFailures(EscapedFailures(es)))
  {
    hide AsFailure, FailurePieces, Concat, Collect, EscapedFailure;
    forall k | 0 <= k < |es|
      ensures AsFailure(Failures(es)[k]) == Some(SeenFailure(EscapedFailure(es[k])))
    {
      FailureReadBack(es[k]);
    }
    CollectAll(AsFailure, Failures(es), SeenFailures(EscapedFailures(es)));
  }

  /** The scans recover every entry once, in order, its fields as escaped and without
      the hash of the message attributes. */
  lemma ScanUndoesBuild(successful: seq<Success>, failed: seq<Failure>, requestId: string)
    requires '<' !in requestId
    ensures ScanBatch(Document(successful, failed, requestId))
         == Some(Shown(EscapedSuccesses(successful), EscapedFailures(failed)))
  {
    hide Elements, Document, AsSuccess, AsFailure, Collect, Successes, Failures, SeenAll, SeenFailures, EscapedSuccesses, EscapedFailures;
    ElementsReadBack(successful, failed, requestId);
    SuccessesReadBack(successful);
    FailuresReadBack(failed);
  }

  predicate PlainSuccess(e: Success) {
    PlainText(e.id) && PlainText(e.messageId) && PlainText(e.bodyHash) && e.attributesHash.None?
  }

  predicate PlainFailure(e: Failure) {
    PlainText(e.id) && PlainText(e.code) && PlainText(e.message)
  }

  ghost predicate PlainBatch(successful: seq<Success>, failed: seq<Failure>) {
    && (forall k :: 0 <= k < |successful| ==> PlainSuccess(successful[k]))
    && (forall k :: 0 <= k < |failed| ==> PlainFailure(failed[k]))
  }

  lemma EntryUnchangedIff(e: Success, f: Failure)
    ensures Seen(EscapedSuccess(e)) == Seen(e) <==> PlainSuccess(e)
    ensures SeenFailure(EscapedFailure(f)) == SeenFailure(f) <==> PlainFailure(f)
  {
    hide EscapeXml, PlainText;
    EscapeChangesIff(e.id);
    EscapeChangesIff(e.messageId);
    EscapeChangesIff(e.bodyHash);
    EscapeChangesIff(f.id);
    EscapeChangesIff(f.code);
    EscapeChangesIff(f.message);
  }

  lemma SuccessesUnchangedIff(es: seq<Success>, e: Failure)
    ensures NonEmpty(SeenAll(EscapedSuccesses(es))) == NonEmpty(SeenAll(es)) <==> forall k :: 0 <= k < |es| ==> PlainSuccess(es[k])
  {
    hide Seen, EscapedSuccess, PlainSuccess;
    var a, b := SeenAll(EscapedSuccesses(es)), SeenAll(es);
    forall k | 0 <= k < |es|
      ensures a[k] == b[k] <==> PlainSuccess(es[k])
    {
      EntryUnchangedIff(es[k], e);
    }
    if k :| 0 <= k < |es| && !PlainSuccess(es[k]) {
      assert a[k] != b[k];
    } else {
      assert a == b;
    }
  }

  lemma FailuresUnchangedIff(es: seq<Failure>, e: Success)
    ensures NonEmpty(SeenFailures(EscapedFailures(es))) == NonEmpty(SeenFailures(es)) <==> forall k :: 0 <= k < |es| ==> PlainFailure(es[k])
  {
    hide SeenFailure, EscapedFailure, PlainFailure;
    var a, b := SeenFailures(EscapedFailures(es)), SeenFailures(es);
    forall k | 0 <= k < |es|
      ensures a[k] == b[k] <==> PlainFailure(es[k])
    {
      EntryUnchangedIff(e, es[k]);
    }
    if k :| 0 <= k < |es| && !PlainFailure(es[k]) {
      assert a[k] != b[k];
    } else {
      assert a == b;
    }
  }

  /** The client sees every entry as it was sent exactly when no field has a special character and
      no entry has a hash of its message attributes. */
  lemma SeenAsSentIff(successful: seq<Success>, failed: seq<Failure>, requestId: string)
    requires '<' !in requestId
    ensures ScanBatch(Document(successful, failed, requestId)) == Some(Shown(successful, failed))
       <==> PlainBatch(successful, failed)
  {
    hide Document, ScanBatch, SeenAll, SeenFailures, EscapedSuccesses, EscapedFailures, PlainSuccess, PlainFailure, NonEmpty;
    ScanUndoesBuild(successful, failed, requestId);
    SuccessesUnchangedIff(successful, Failure("", "", "", false));
    FailuresUnchangedIff(failed, Success("", "", "", None));
  }

  method BuildSendMessageBatch(successful: seq<Success>, failed: seq<Failure>, requestId: string) returns (xml: string)
    ensures xml == Document(successful, failed, requestId)
  {
    hide Concat, HeadPieces, FootPieces, SuccessPieces, FailurePieces, Rows;
    var head := Concat(HeadPieces());
    ghost var good, bad := Successes(successful), Failures(failed);
    xml := head;
    for i := 0 to |successful|
      invariant xml + Rows(INDENT, good[i..]) == head + Rows(INDENT, good)
    {
      RowsMore(INDENT, xml, good, i);
      xml := xml + ("    " + Concat(SuccessPieces(successful[i])) + "\n");
    }
    NoRows(INDENT, good[|successful|..]);
    assert xml + [] == xml;
    for i := 0 to |failed|
      invariant xml + Rows(INDENT, bad[i..]) == head + Rows(INDENT, good) + Rows(INDENT, bad)
    {
      RowsMore(INDENT, xml, bad, i);
      xml := xml + ("    " + Concat(FailurePieces(failed[i])) + "\n");
    }
    NoRows(INDENT, bad[|failed|..]);
    assert xml + [] == xml;
    var foot := Concat(FootPieces(requestId));
    xml := xml + foot;
    assert head + Rows(INDENT, good) + Rows(INDENT, bad) + foot == head + (Rows(INDENT, good) + (Rows(INDENT, bad) + foot));
  }
}
