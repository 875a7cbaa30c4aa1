/** Elements on lines of their own, and the scans that collect them and read their fields. */
module XmlElements {
  import opened Types
  import opened Markup

  // ---------------------------------------------------------------- the scan

  /** The elements of one kind, from first to last. */
  function Elements(s: string, open: string, close: string): seq<string>
    requires open != [] && close != []
    decreases |s|
  {
    match NextElement(s, open, close)
    case None => []
    case Some(element) => [element.text] + Elements(element.rest, open, close)
  }

  function TextOf(f: Field): Option<string> {
    if f.Text? then Some(f.value) else None
  }

  function Collect<T>(read: string -> Option<T>, texts: seq<string>): Option<seq<T>> {
    if texts == [] then Some([])
    else
      var first, rest := read(texts[0]), Collect(read, texts[1..]);
      if first.None? || rest.None? then None else Some([first.value] + rest.value)
  }

  lemma {:induction false} CollectAll<T>(read: string -> Option<T>, texts: seq<string>, values: seq<T>)
    requires |texts| == |values| && forall k :: 0 <= k < |texts| ==> read(texts[k]) == Some(values[k])
    ensures Collect(read, texts) == Some(values)
  {
    if texts != [] {
      CollectAll(read, texts[1..], values[1..]);
      assert values == [values[0]] + values[1..];
    }
  }

  // ---------------------------------------------------------------- rows of elements

  /** A text that one search finds as one element, wherever it stands. */
  ghost predicate IsElement(text: string, open: string, close: string)
    requires open != [] && close != []
  {
    exists pieces: seq<string> ::
      && |pieces| > 1 && text == Concat(pieces) && pieces[0] == open && pieces[|pieces| - 1] == close
      && forall j :: 0 <= j < |pieces| - 1 ==> Inert(pieces[j], close)
  }

  /** The space before a row. */
  predicate Blank(indent: string) {
    forall i :: 0 <= i < |indent| ==> indent[i] == ' '
  }

  /** Rows of elements, each on its own lines. */
  function Rows(indent: string, elements: seq<string>): string {
    if elements == [] then [] else indent + elements[0] + ("\n" + Rows(indent, elements[1..]))
  }

  lemma RowsUnfold(indent: string, elements: seq<string>)
    requires elements != []
    ensures Rows(indent, elements) == indent + elements[0] + ("\n" + Rows(indent, elements[1..]))
  {
  }

  lemma FirstOfRows(indent: string, lead: string, elements: seq<string>, rest: string, open: string, close: string)
    requires open != [] && close != [] && open[0] == '<' && close[0] == '<'
    requires Blank(indent) && Inert(lead, open) && elements != [] && IsElement(elements[0], open, close)
    ensures NextElement(lead + (Rows(indent, elements) + rest), open, close)
         == Some(Element(elements[0], "\n" + (Rows(indent, elements[1..]) + rest)))
  {
    hide Concat, Inert, NextElement, Rows;
    var pieces: seq<string> :|
      && |pieces| > 1 && elements[0] == Concat(pieces) && pieces[0] == open && pieces[|pieces| - 1] == close
      && forall j :: 0 <= j < |pieces| - 1 ==> Inert(pieces[j], close);
    InertText(indent, open);
    InertJoin(lead, indent, open);
    ElementOfPieces(lead + indent, pieces, "\n" + (Rows(indent, elements[1..]) + rest), open, close);
    RowsUnfold(indent, elements);
    Regroup(lead, indent, elements[0], "\n", Rows(indent, elements[1..]), rest);
  }

  lemma {:induction false} RowsReadBack(indent: string, lead: string, elements: seq<string>, rest: string, open: string, close: string)
    requires open != [] && close != [] && open[0] == '<' && close[0] == '<'
    requires Blank(indent) && Inert(lead, open) && Inert(rest, open)
    requires forall k :: 0 <= k < |elements| ==> IsElement(elements[k], open, close)
    ensures Elements(lead + (Rows(indent, elements) + rest), open, close) == elements
    decreases |elements|
  {
    hide Inert, NextElement, IsElement;
    if elements == [] {
      InertJoin(lead, rest, open);
      assert Rows(indent, elements) + rest == rest;
      NoElement(lead + rest, open, close);
    } else {
      FirstOfRows(indent, lead, elements, rest, open, close);
      InertText("\n", open);
      RowsReadBack(indent, "\n", elements[1..], rest, open, close);
    }
  }

  lemma {:induction false} RowsInert(indent: string, elements: seq<string>, p: string)
    requires Blank(indent) && forall k :: 0 <= k < |elements| ==> Inert(elements[k], p)
    ensures Inert(Rows(indent, elements), p)
  {
    hide Inert;
    if elements == [] {
      InertText([], p);
    } else {
      RowsInert(indent, elements[1..], p);
      InertText(indent, p);
      InertText("\n", p);
      InertJoin(indent, elements[0], p);
      InertJoin("\n", Rows(indent, elements[1..]), p);
      InertJoin(indent + elements[0], "\n" + Rows(indent, elements[1..]), p);
    }
  }

  lemma RowsMore(indent: string, xml: string, elements: seq<string>, i: nat)
    requires i < |elements|
    ensures xml + (indent + elements[i] + "\n") + Rows(indent, elements[i + 1..]) == xml + Rows(indent, elements[i..])
  {
    hide Rows;
    assert elements[i..][1..] == elements[i + 1..];
    RowsUnfold(indent, elements[i..]);
    assert indent + elements[i] + "\n" + Rows(indent, elements[i + 1..]) == indent + elements[i] + ("\n" + Rows(indent, elements[i + 1..]));
  }

  lemma NoRows(indent: string, elements: seq<string>)
    requires elements == []
    ensures Rows(indent, elements) == []
  {
  }

  // ---------------------------------------------------------------- pieces that pass

  predicate Tag(t: string) {
    forall i :: 0 < i < |t| ==> t[i] != '<'
  }

  /** Tags at the even places, text between them. */
  ghost predicate Alternating(pieces: seq<string>) {
    forall j :: 0 <= j < |pieces| ==> if j % 2 == 0 then Tag(pieces[j]) else '<' !in pieces[j]
  }

  /** The tags differ from p, the k-th at the place ms[k]. */
  ghost predicate Apart(pieces: seq<string>, p: string, ms: seq<nat>) {
    forall k :: 0 <= k < |ms| ==> 2 * k < |pieces| && ms[k] < |pieces[2 * k]| && ms[k] < |p| && pieces[2 * k][ms[k]] != p[ms[k]]
  }

  lemma ApartPass(pieces: seq<string>, p: string, ms: seq<nat>)
    requires Alternating(pieces) && Apart(pieces, p, ms)
    ensures forall j :: 0 <= j < |pieces| && j < 2 * |ms| ==> Inert(pieces[j], p)
  {
    hide Inert;
    forall j | 0 <= j < |pieces| && j < 2 * |ms|
      ensures Inert(pieces[j], p)
    {
      if j % 2 == 0 {
        assert j == 2 * (j / 2);
        InertTag(pieces[j], p, ms[j / 2]);
      } else {
        InertText(pieces[j], p);
      }
    }
  }

  lemma TailAlternates(front: seq<string>, tail: seq<string>)
    requires Alternating(front) && |front| % 2 == 1
    requires forall j :: 0 <= j < |tail| ==> if j % 2 == 1 then Tag(tail[j]) else '<' !in tail[j]
    ensures Alternating(front + tail)
  {
    var all := front + tail;
    forall j | 0 <= j < |all|
      ensures if j % 2 == 0 then Tag(all[j]) else '<' !in all[j]
    {
      hide Tag;
      if j < |front| {
        assert all[j] == front[j];
      } else {
        assert all[j] == tail[j - |front|];
      }
    }
  }

  // ---------------------------------------------------------------- fields and elements

  lemma FieldBetween(pieces: seq<string>, k: nat, open: string, close: string, before: seq<nat>, within: seq<nat>)
    requires Alternating(pieces) && k + 2 < |pieces| && pieces[k] == open && pieces[k + 2] == close
    requires open != [] && open[0] == '<' && close != [] && close[0] == '<'
    requires 2 * |before| == k && Apart(pieces, open, before)
    requires 2 * |within| == k + 2 && Apart(pieces, close, within)
    ensures ReadField(Concat(pieces), open, close) == Text(pieces[k + 1])
  {
    hide Alternating, Apart, Inert, ReadField, Concat;
    ApartPass(pieces, open, before);
    ApartPass(pieces, close, within);
    FieldOfPieces(pieces, k, open, close);
  }

  lemma ElementBetween(pieces: seq<string>, open: string, close: string, ms: seq<nat>)
    requires open != [] && close != [] && |pieces| > 1 && pieces[0] == open && pieces[|pieces| - 1] == close
    requires Alternating(pieces) && Apart(pieces, close, ms) && 2 * |ms| >= |pieces| - 1
    ensures IsElement(Concat(pieces), open, close)
  {
    hide Inert, Concat;
    ApartPass(pieces, close, ms);
  }

  // ---------------------------------------------------------------- the loop of the source

  lemma ElementsAt(xml: string, pos: nat, open: string, close: string)
    requires open != [] && close != [] && pos <= |xml|
    ensures var start := Find(xml[pos..], open);
            if start.None? then Elements(xml[pos..], open, close) == []
            else
              var from := pos + start.value;
              var end := Find(xml[from..], close);
              if end.None? then Elements(xml[pos..], open, close) == []
              else
                var next := from + end.value + |close|;
                Elements(xml[pos..], open, close) == [xml[from..next]] + Elements(xml[next..], open, close)
  {
    hide Find;
    var start := Find(xml[pos..], open);
    if start.Some? {
      var from := pos + start.value;
      assert xml[pos..][start.value..] == xml[from..];
      var end := Find(xml[from..], close);
      if end.Some? {
        assert xml[from..][..end.value + |close|] == xml[from..from + end.value + |close|];
        assert xml[from..][end.value + |close|..] == xml[from + end.value + |close|..];
      }
    }
  }

  /** Collecting the elements of one kind by position, as both loops of the source do. */
  method CollectElements(xml: string, open: string, close: string) returns (elements: seq<string>)
    requires open != [] && close != []
    ensures elements == Elements(xml, open, close)
  {
    hide Find, Elements;
    elements := [];
    var pos := 0;
    assert xml[0..] == xml;
    while true
      invariant pos <= |xml| && elements + Elements(xml[pos..], open, close) == Elements(xml, open, close)
      decreases |xml| - pos
    {
      ElementsAt(xml, pos, open, close);
      var start := Find(xml[pos..], open);
      if start.None? {
        return;
      }
      var absStart := pos + start.value;
      var end := Find(xml[absStart..], close);
      if end.None? {
        return;
      }
      elements := elements + [xml[absStart..absStart + end.value + |close|]];
      pos := absStart + end.value + |close|;
    }
  }
}
