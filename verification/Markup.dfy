/** Finding tags in text, and why a search for a tag passes over everything before it. */
module Markup {
  import opened Types

  ghost predicate At(s: string, p: string, i: nat) {
    i + |p| <= |s| && s[i..i + |p|] == p
  }

  /** Where p first occurs in s. */
  function Find(s: string, p: string): (r: Option<nat>)
    requires p != []
    ensures r.Some? ==> r.value + |p| <= |s|
  {
    if p <= s then Some(0)
    else if s == [] then None
    else Shift(Find(s[1..], p), 1)
  }

  function Shift(r: Option<nat>, n: nat): Option<nat> {
    if r.Some? then Some(r.value + n) else None
  }

  lemma AtTail(s: string, p: string, j: nat)
    requires 0 < j <= |s|
    ensures At(s, p, j) <==> At(s[1..], p, j - 1)
  {
    if j + |p| <= |s| {
      assert s[j..j + |p|] == s[1..][j - 1..j - 1 + |p|];
    }
  }

  /** The position found is an occurrence and the first one; without one nothing is found. */
  lemma {:induction false} FindIsFirst(s: string, p: string)
    requires p != []
    ensures match Find(s, p)
            case Some(i) => At(s, p, i) && forall j :: 0 <= j < i ==> !At(s, p, j)
            case None => forall j :: 0 <= j ==> !At(s, p, j)
  {
    if !(p <= s) && s != [] {
      FindIsFirst(s[1..], p);
      forall j | 0 < j <= |s|
        ensures At(s, p, j) <==> At(s[1..], p, j - 1)
      {
        AtTail(s, p, j);
      }
    }
  }

  predicate Contains(s: string, p: string)
    requires p != []
  {
    Find(s, p).Some?
  }

  ghost predicate Differs(a: string, i: nat, p: string) {
    exists m :: 0 <= m < |p| && i + m < |a| && a[i + m] != p[m]
  }

  /** No occurrence of p starts in a, whatever follows a. */
  ghost predicate Inert(a: string, p: string) {
    forall i :: 0 <= i < |a| && a[i] == '<' ==> Differs(a, i, p)
  }

  lemma InertText(a: string, p: string)
    requires '<' !in a
    ensures Inert(a, p)
  {
  }

  lemma InertTag(t: string, p: string, m: nat)
    requires m < |t| && m < |p| && t[m] != p[m] && forall i :: 0 < i < |t| ==> t[i] != '<'
    ensures Inert(t, p)
  {
    assert t[0 + m] != p[m];
  }

  lemma InertJoin(a: string, b: string, p: string)
    requires Inert(a, p) && Inert(b, p)
    ensures Inert(a + b, p)
  {
    var s := a + b;
    forall i | 0 <= i < |s| && s[i] == '<'
      ensures Differs(s, i, p)
    {
      if i < |a| {
        var m :| 0 <= m < |p| && i + m < |a| && a[i + m] != p[m];
        assert s[i + m] != p[m];
      } else {
        var m :| 0 <= m < |p| && i - |a| + m < |b| && b[i - |a| + m] != p[m];
        assert s[i + m] != p[m];
      }
    }
  }

  lemma InertTail(a: string, p: string)
    requires a != [] && Inert(a, p)
    ensures Inert(a[1..], p)
  {
    var s := a[1..];
    forall i | 0 <= i < |s| && s[i] == '<'
      ensures Differs(s, i, p)
    {
      assert a[i + 1] == '<';
      var m :| 0 <= m < |p| && i + 1 + m < |a| && a[i + 1 + m] != p[m];
      assert s[i + m] != p[m];
    }
  }

  lemma FindStep(s: string, p: string)
    requires p != [] && s != [] && !(p <= s)
    ensures Find(s, p) == Shift(Find(s[1..], p), 1)
  {
  }

  lemma InertHead(a: string, b: string, p: string)
    requires a != [] && p != [] && p[0] == '<' && Inert(a, p)
    ensures !(p <= a + b)
  {
    if a[0] == '<' {
      var m :| 0 <= m < |p| && 0 + m < |a| && a[0 + m] != p[m];
      assert (a + b)[m] != p[m];
    }
  }

  lemma {:induction false} FindPasses(a: string, b: string, p: string)
    requires p != [] && p[0] == '<' && Inert(a, p)
    ensures Find(a + b, p) == Shift(Find(b, p), |a|)
  {
    hide Inert, Find;
    if a == [] {
      assert a + b == b;
    } else {
      InertTail(a, p);
      FindPasses(a[1..], b, p);
      assert (a + b)[1..] == a[1..] + b;
      InertHead(a, b, p);
      FindStep(a + b, p);
    }
  }

  // ---------------------------------------------------------------- text in pieces

  function Concat(pieces: seq<string>): string {
    if pieces == [] then [] else pieces[0] + Concat(pieces[1..])
  }

  lemma {:induction false} ConcatJoin(a: seq<string>, b: seq<string>)
    ensures Concat(a + b) == Concat(a) + Concat(b)
  {
    if a == [] {
      assert a + b == b;
    } else {
      assert (a + b)[1..] == a[1..] + b;
      ConcatJoin(a[1..], b);
    }
  }

  lemma ConcatSplit(pieces: seq<string>, k: nat)
    requires k < |pieces|
    ensures Concat(pieces) == Concat(pieces[..k]) + (pieces[k] + Concat(pieces[k + 1..]))
  {
    ConcatJoin(pieces[..k], pieces[k..]);
    assert pieces == pieces[..k] + pieces[k..];
    assert pieces[k..][1..] == pieces[k + 1..];
  }

  lemma {:induction false} InertPieces(pieces: seq<string>, p: string)
    requires forall k :: 0 <= k < |pieces| ==> Inert(pieces[k], p)
    ensures Inert(Concat(pieces), p)
  {
    if pieces != [] {
      InertPieces(pieces[1..], p);
      InertJoin(pieces[0], Concat(pieces[1..]), p);
    }
  }

  /** A tag is found at the piece that is the tag, if no piece before it can be mistaken for it. */
  lemma FindPiece(pieces: seq<string>, k: nat, p: string)
    requires k < |pieces| && pieces[k] == p && p != [] && p[0] == '<'
    requires forall j :: 0 <= j < k ==> Inert(pieces[j], p)
    ensures Find(Concat(pieces), p) == Some(|Concat(pieces[..k])|)
  {
    hide Inert;
    ConcatSplit(pieces, k);
    InertPieces(pieces[..k], p);
    FindPasses(Concat(pieces[..k]), p + Concat(pieces[k + 1..]), p);
    FoundHere(p, Concat(pieces[k + 1..]));
  }

  lemma FoundHere(p: string, rest: string)
    requires p != []
    ensures Find(p + rest, p) == Some(0)
  {
  }

  // ---------------------------------------------------------------- one field

  /** The text between two tags: absent when a tag is missing, and a panic when the first
      closing tag does not come after the first opening one. */
  datatype Field = Absent | Panic | Text(value: string)

  function ReadField(s: string, open: string, close: string): Field
    requires open != [] && close != []
  {
    var start := Find(s, open);
    if start.None? then Absent
    else
      var end := Find(s, close);
      if end.None? then Absent
      else if start.value + |open| <= end.value then Text(s[start.value + |open|..end.value])
      else Panic
  }

  lemma FieldOfPieces(pieces: seq<string>, k: nat, open: string, close: string)
    requires k + 2 < |pieces| && pieces[k] == open && pieces[k + 2] == close
    requires open != [] && open[0] == '<' && close != [] && close[0] == '<'
    requires forall j :: 0 <= j < k ==> Inert(pieces[j], open)
    requires forall j :: 0 <= j < k + 2 ==> Inert(pieces[j], close)
    ensures ReadField(Concat(pieces), open, close) == Text(pieces[k + 1])
  {
    hide Inert, Find, Concat;
    FindPiece(pieces, k, open);
    FindPiece(pieces, k + 2, close);
    ConcatTwo(pieces, k);
    ConcatSplit(pieces, k + 2);
    Between(Concat(pieces[..k]), open, pieces[k + 1], close + Concat(pieces[k + 3..]));
  }

  lemma ConcatTwo(pieces: seq<string>, k: nat)
    requires k + 1 < |pieces|
    ensures Concat(pieces[..k + 2]) == Concat(pieces[..k]) + (pieces[k] + pieces[k + 1])
  {
    var pair := [pieces[k], pieces[k + 1]];
    assert pieces[..k + 2] == pieces[..k] + pair;
    ConcatJoin(pieces[..k], pair);
    assert pair[1..] == [pieces[k + 1]];
    ConcatOne(pieces[k + 1]);
  }

  lemma Between(before: string, open: string, text: string, after: string)
    ensures (before + (open + text) + after)[|before| + |open|..|before| + |open| + |text|] == text
  {
  }

  // ---------------------------------------------------------------- one element after another

  datatype Element = Element(text: string, rest: string)

  /** The next element from its opening to its closing tag, and what follows it. */
  function NextElement(s: string, open: string, close: string): (r: Option<Element>)
    requires open != [] && close != []
    ensures r.Some? ==> |r.value.rest| < |s|
  {
    var start := Find(s, open);
    if start.None? then None
    else
      var from := s[start.value..];
      var end := Find(from, close);
      if end.None? then None
      else Some(Element(from[..end.value + |close|], from[end.value + |close|..]))
  }

  lemma ElementOfPieces(lead: string, pieces: seq<string>, rest: string, open: string, close: string)
    requires |pieces| > 1 && pieces[0] == open && pieces[|pieces| - 1] == close
    requires open != [] && open[0] == '<' && close != [] && close[0] == '<'
    requires Inert(lead, open) && forall j :: 0 <= j < |pieces| - 1 ==> Inert(pieces[j], close)
    ensures NextElement(lead + (Concat(pieces) + rest), open, close) == Some(Element(Concat(pieces), rest))
  {
    hide Inert, Find, Concat;
    var text := Concat(pieces);
    FindPasses(lead, text + rest, open);
    StartsWithFirst(pieces, rest, open);
    assert (lead + (text + rest))[|lead|..] == text + rest;
    EndsWithLast(pieces, rest, close);
    assert (text + rest)[..|text|] == text && (text + rest)[|text|..] == rest;
  }

  lemma StartsWithFirst(pieces: seq<string>, rest: string, open: string)
    requires pieces != [] && pieces[0] == open && open != []
    ensures Find(Concat(pieces) + rest, open) == Some(0)
  {
    hide Find;
    var tail := Concat(pieces[1..]);
    assert open + tail + rest == open + (tail + rest);
    FoundHere(open, tail + rest);
  }

  lemma EndsWithLast(pieces: seq<string>, rest: string, close: string)
    requires pieces != [] && pieces[|pieces| - 1] == close && close != [] && close[0] == '<'
    requires forall j :: 0 <= j < |pieces| - 1 ==> Inert(pieces[j], close)
    ensures Find(Concat(pieces) + rest, close) == Some(|Concat(pieces)| - |close|)
  {
    hide Inert, Find, Concat;
    var last := |pieces| - 1;
    var more := pieces + [rest];
    FindPiece(more, last, close);
    assert more[..last] == pieces[..last];
    ConcatOne(rest);
    ConcatOne(close);
    ConcatJoin(pieces, [rest]);
    assert pieces == pieces[..last] + [close];
    ConcatJoin(pieces[..last], [close]);
  }

  lemma Regroup(a: string, b: string, c: string, d: string, e: string, f: string)
    ensures a + (b + c + (d + e) + f) == a + b + (c + (d + (e + f)))
  {
    assert b + c + (d + e) + f == b + (c + (d + (e + f)));
  }

  lemma ConcatOne(s: string)
    ensures Concat([s]) == s
  {
    assert [s][1..] == [];
  }

  lemma NoElement(s: string, open: string, close: string)
    requires open != [] && open[0] == '<' && close != [] && Inert(s, open)
    ensures NextElement(s, open, close) == None
  {
    FindPasses(s, [], open);
    assert s + [] == s;
  }
}
