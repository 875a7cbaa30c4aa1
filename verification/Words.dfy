/** Words in a document made of pieces: the marker words that the JSON protocol looks for. */
module Words {
  import opened Types
  import opened Escape
  import opened Markup
  import opened XmlElements
  import opened XmlDispatch

  // ---------------------------------------------------------------- the words

  ghost predicate AnyContains(texts: seq<string>, p: string)
    requires p != []
  {
    exists k :: 0 <= k < |texts| && Contains(texts[k], p)
  }

  const DELETED := "DeleteMessageResponse"
  const PURGED := "PurgeQueueResponse"
  const RECEIVED := "ReceiveMessageResponse"

  ghost predicate Word(p: string) {
    p == DELETED || p == PURGED || p == RECEIVED
  }

  lemma WordFacts(p: string)
    requires Word(p)
    ensures |p| > 5 && (forall c :: c in p ==> Letter(c))
  {
    if p == DELETED {
    } else if p == PURGED {
    } else {
      ReceivedFacts();
    }
  }

  lemma ReceivedFacts()
    ensures |RECEIVED| > 5 && (forall c :: c in RECEIVED ==> Letter(c)) && RECEIVED[4] == 'i' && 'v' in RECEIVED && 'R' in RECEIVED
  {
    assert RECEIVED[5] == 'v' && RECEIVED[0] == 'R';
  }

  lemma DeletedFacts()
    ensures 'D' in DELETED && 'l' in DELETED && 'P' in PURGED
  {
    assert DELETED[0] == 'D' && DELETED[2] == 'l' && PURGED[0] == 'P';
  }

  /** Every word has a character that the text has not. */
  predicate Harmless(t: string) {
    Lacks(t, 'P') && Lacks(t, 'v') && (Lacks(t, 'D') || Lacks(t, 'l'))
  }

  predicate Lacks(t: string, c: char) {
    forall i :: 0 <= i < |t| ==> t[i] != c
  }

  lemma FreeOf(t: string, p: string, c: char)
    requires p != [] && c in p && Lacks(t, c)
    ensures !Contains(t, p)
  {
    hide Find;
    FindIsFirst(t, p);
    if Find(t, p).Some? {
      var i := Find(t, p).value;
      var k :| 0 <= k < |p| && p[k] == c;
      CharOf(t, p, i, k);
    }
  }

  lemma CharOf(t: string, p: string, i: nat, k: nat)
    requires At(t, p, i) && k < |p|
    ensures p[k] in t
  {
    assert t[i..i + |p|][k] == t[i + k];
  }

  lemma HarmlessIsFree(t: string, p: string)
    requires Harmless(t) && Word(p)
    ensures !Contains(t, p)
  {
    hide Contains;
    ReceivedFacts();
    DeletedFacts();
    if p == DELETED {
      FreeOf(t, p, if Lacks(t, 'D') then 'D' else 'l');
    } else if p == PURGED {
      FreeOf(t, p, 'P');
    } else {
      FreeOf(t, p, 'v');
    }
  }

  // ---------------------------------------------------------------- words and pieces

  predicate Bracketed(t: string) {
    t != [] && t[0] == '<' && t[|t| - 1] == '>'
  }

  /** Tags at the places of one parity, so no word lies across a boundary. */
  ghost predicate Fenced(pieces: seq<string>, parity: nat) {
    forall j :: 0 <= j < |pieces| && (j + parity) % 2 == 0 ==> Bracketed(pieces[j])
  }

  lemma FencedTail(pieces: seq<string>, parity: nat)
    requires Fenced(pieces, parity) && pieces != []
    ensures Fenced(pieces[1..], parity + 1)
  {
    forall j | 0 <= j < |pieces[1..]| && (j + (parity + 1)) % 2 == 0
      ensures Bracketed(pieces[1..][j])
    {
      assert (j + 1 + parity) % 2 == 0;
    }
  }

  lemma {:induction false} PiecesContain(pieces: seq<string>, parity: nat, p: string)
    requires Fenced(pieces, parity) && p != [] && '<' !in p && '>' !in p
    ensures Contains(Concat(pieces), p) <==> AnyContains(pieces, p)
  {
    hide Contains;
    if pieces == [] {
      TooShort([], p);
    } else {
      var rest := pieces[1..];
      FencedTail(pieces, parity);
      PiecesContain(rest, parity + 1, p);
      if parity % 2 == 1 && rest != [] {
        assert Bracketed(pieces[1]);
      }
      ContainsSplit(pieces[0], Concat(rest), p);
      AnyStep(pieces, p);
    }
  }

  lemma AnyStep(texts: seq<string>, p: string)
    requires p != [] && texts != []
    ensures AnyContains(texts, p) <==> Contains(texts[0], p) || AnyContains(texts[1..], p)
  {
    hide Contains;
    if k :| 0 <= k < |texts| && Contains(texts[k], p) {
      assert k > 0 ==> texts[1..][k - 1] == texts[k];
    }
    if k :| 0 <= k < |texts| - 1 && Contains(texts[1..][k], p) {
      assert texts[k + 1] == texts[1..][k];
    }
  }

  lemma AnyOf(texts: seq<string>, p: string)
    requires p != []
    ensures AnyContains(texts, p) <==> exists k :: 0 <= k < |texts| && Contains(texts[k], p)
  {
  }

  /** Of all pieces only those at `at` can hold a word, and they hold it as the fields do, escaped
      or not. */
  lemma FieldsContain(pieces: seq<string>, at: seq<nat>, fields: seq<string>, p: string)
    requires Fenced(pieces, 0) && Word(p) && |at| == |fields|
    requires forall i :: 0 <= i < |at| ==>
               at[i] < |pieces| && (pieces[at[i]] == EscapeXml(fields[i]) || pieces[at[i]] == fields[i])
    requires forall j :: 0 <= j < |pieces| && j !in at ==> Harmless(pieces[j])
    ensures Contains(Concat(pieces), p) <==> AnyContains(fields, p)
  {
    hide Contains, EscapeXml, Harmless, Fenced;
    WordFacts(p);
    PiecesContain(pieces, 0, p);
    forall i | 0 <= i < |fields|
      ensures Contains(pieces[at[i]], p) <==> Contains(fields[i], p)
    {
      WordsSurviveEscape(fields[i], p);
    }
    if j :| 0 <= j < |pieces| && Contains(pieces[j], p) {
      if j !in at {
        HarmlessIsFree(pieces[j], p);
      }
      var i :| 0 <= i < |at| && at[i] == j;
      assert Contains(fields[i], p);
    }
  }

  // ---------------------------------------------------------------- words in rows

  lemma OneRow(indent: string, entry: string, rest: string, p: string)
    requires Word(p) && Blank(indent) && Bracketed(entry)
    ensures Contains(indent + entry + ("\n" + rest), p) <==> Contains(entry, p) || Contains(rest, p)
  {
    hide Contains;
    WordFacts(p);
    ContainsSplit(indent + entry, "\n" + rest, p);
    ContainsSplit(indent, entry, p);
    ContainsSplit("\n", rest, p);
    NotWithout(indent, p);
    TooShort("\n", p);
  }

  lemma {:induction false} RowsContain(indent: string, elements: seq<string>, p: string)
    requires Word(p) && Blank(indent) && forall k :: 0 <= k < |elements| ==> Bracketed(elements[k])
    ensures Contains(Rows(indent, elements), p) <==> AnyContains(elements, p)
  {
    hide Contains, Rows;
    WordFacts(p);
    if elements == [] {
      NoRows(indent, elements);
      TooShort([], p);
    } else {
      RowsContain(indent, elements[1..], p);
      RowsUnfold(indent, elements);
      OneRow(indent, elements[0], Rows(indent, elements[1..]), p);
      AnyStep(elements, p);
    }
  }

  lemma {:induction false} RowsEnd(indent: string, elements: seq<string>)
    ensures Rows(indent, elements) == [] || Rows(indent, elements)[|Rows(indent, elements)| - 1] == '\n'
  {
    if elements != [] {
      RowsEnd(indent, elements[1..]);
    }
  }

  lemma ElementIsBracketed(pieces: seq<string>)
    requires |pieces| > 1 && Bracketed(pieces[0]) && Bracketed(pieces[|pieces| - 1])
    ensures Bracketed(Concat(pieces))
  {
    var last := |pieces| - 1;
    ConcatSplit(pieces, 0);
    ConcatSplit(pieces, last);
    assert pieces[last + 1..] == [] && pieces[..0] == [];
  }

  lemma EndsWithNewline(pieces: seq<string>)
    requires pieces != [] && pieces[|pieces| - 1] == "\n"
    ensures var t := Concat(pieces); t != [] && t[|t| - 1] == '\n'
  {
    ConcatSplit(pieces, |pieces| - 1);
    assert pieces[|pieces|..] == [];
  }

  lemma InertIsAbsent(s: string, p: string)
    requires p != [] && p[0] == '<' && Inert(s, p)
    ensures !Contains(s, p)
  {
    FindPasses(s, [], p);
    assert s + [] == s;
  }
}
