/** The bytes that are hashed for the MD5 of a message's attributes: sorted by name, every part
    preceded by its length. Strings are their UTF-8 bytes. */
module AttributeDigest {
  import opened Types

  type byte = x: nat | x < 256 witness 0

  type Text = seq<byte>

  datatype Value = Value(dataType: Text, stringValue: Option<Text>, binaryValue: Option<Text>)

  type Attributes = map<Text, Value>

  predicate Continues(t: Text, from: nat, count: nat) {
    from + count <= |t| && forall i :: from <= i < from + count ==> 0x80 <= t[i] <= 0xBF
  }

  /** How many bytes the first character of the text takes, 0 when it is malformed (RFC 3629,
      section 4). */
  function FirstLength(t: Text): (r: nat)
    requires t != []
    ensures r <= |t|
  {
    if t[0] <= 0x7F then 1
    else if 0xC2 <= t[0] <= 0xDF && Continues(t, 1, 1) then 2
    else if 0xE0 <= t[0] <= 0xEF && Continues(t, 1, 2)
         && (t[0] == 0xE0 ==> 0xA0 <= t[1]) && (t[0] == 0xED ==> t[1] <= 0x9F) then 3
    else if 0xF0 <= t[0] <= 0xF4 && Continues(t, 1, 3)
         && (t[0] == 0xF0 ==> 0x90 <= t[1]) && (t[0] == 0xF4 ==> t[1] <= 0x8F) then 4
    else 0
  }

  /** The bytes of some string. */
  predicate Utf8(t: Text) {
    t == [] || (FirstLength(t) > 0 && Utf8(t[FirstLength(t)..]))
  }

  predicate IsString(t: Option<Text>) {
    t.Some? ==> Utf8(t.value)
  }

  /** Everything the program keeps of an attribute is a string; only the bytes that a binary
      value decodes to may be any. */
  ghost predicate WellFormed(m: Attributes) {
    forall n :: n in m ==> Utf8(n) && Utf8(m[n].dataType) && IsString(m[n].stringValue) && IsString(m[n].binaryValue)
  }

  // ---------------------------------------------------------------- the buffer

  /** The length as u32, most significant byte first: bits above the 32nd are cut off. */
  function Length(n: nat): (r: Text)
    ensures |r| == 4
  {
    [n / 256 / 256 / 256 % 256, n / 256 / 256 % 256, n / 256 % 256, n % 256]
  }

  function Part(t: Text): Text {
    Length(|t|) + t
  }

  /** The bytes of the value: of the string if there is one, else of the decoded binary. */
  function ValueBytes(v: Value, decode: Text -> Option<Text>): Option<Text> {
    if v.stringValue.Some? then v.stringValue
    else if v.binaryValue.Some? then decode(v.binaryValue.value)
    else None
  }

  function Entry(name: Text, v: Value, decode: Text -> Option<Text>): Text {
    Part(name) + (Part(v.dataType) + (if ValueBytes(v, decode).Some? then Part(ValueBytes(v, decode).value) else []))
  }

  function Buffer(m: Attributes, names: seq<Text>, decode: Text -> Option<Text>): Text
    requires forall n :: n in names ==> n in m
  {
    if names == [] then [] else Entry(names[0], m[names[0]], decode) + Buffer(m, names[1..], decode)
  }

  // ---------------------------------------------------------------- the order of the names

  predicate Before(a: Text, b: Text) {
    if b == [] then false
    else if a == [] then true
    else a[0] < b[0] || (a[0] == b[0] && Before(a[1..], b[1..]))
  }

  lemma {:induction false} BeforeIsTotal(a: Text, b: Text)
    ensures a == b || Before(a, b) || Before(b, a)
    ensures !(Before(a, b) && Before(b, a)) && (a == b ==> !Before(a, b))
  {
    if a != [] && b != [] {
      BeforeIsTotal(a[1..], b[1..]);
      if a[0] == b[0] && a[1..] == b[1..] {
        assert a == [a[0]] + a[1..] && b == [b[0]] + b[1..];
      }
    }
  }

  lemma {:induction false} BeforeIsTransitive(a: Text, b: Text, c: Text)
    requires Before(a, b) && Before(b, c)
    ensures Before(a, c)
  {
    if a != [] && a[0] == b[0] && b[0] == c[0] {
      BeforeIsTransitive(a[1..], b[1..], c[1..]);
    }
  }

  /** a is a proper start of b, or the first byte in which they differ is smaller in a. */
  ghost predicate Smaller(a: Text, b: Text) {
    exists k :: 0 <= k <= |a| && k < |b| && SmallerAt(a, b, k)
  }

  ghost predicate SmallerAt(a: Text, b: Text, k: nat)
    requires k <= |a| && k < |b|
  {
    a[..k] == b[..k] && (k == |a| || a[k] < b[k])
  }

  lemma SmallerTails(a: Text, b: Text, k: nat)
    requires a != [] && b != [] && a[0] == b[0] && k < |a| && k + 1 < |b|
    ensures SmallerAt(a[1..], b[1..], k) <==> SmallerAt(a, b, k + 1)
  {
    assert a[..k + 1] == [a[0]] + a[1..][..k] && b[..k + 1] == [b[0]] + b[1..][..k];
    assert a[1..][..k] == a[..k + 1][1..] && b[1..][..k] == b[..k + 1][1..];
  }

  /** The order is that of the bytes from left to right, a start of a name before the name. */
  lemma {:induction false} BeforeIsLexicographic(a: Text, b: Text)
    ensures Before(a, b) <==> Smaller(a, b)
  {
    if b != [] && (a == [] || a[0] < b[0]) {
      assert SmallerAt(a, b, 0);
    } else if a != [] && b != [] && a[0] == b[0] {
      BeforeIsLexicographic(a[1..], b[1..]);
      if Before(a, b) {
        var k :| 0 <= k <= |a[1..]| && k < |b[1..]| && SmallerAt(a[1..], b[1..], k);
        SmallerTails(a, b, k);
      } else if Smaller(a, b) {
        var k :| 0 <= k <= |a| && k < |b| && SmallerAt(a, b, k);
        SmallerTails(a, b, k - 1);
      }
    }
  }

  ghost predicate Sorted(names: seq<Text>) {
    forall i, j :: 0 <= i < j < |names| ==> Before(names[i], names[j])
  }

  /** The keys of the map, each once, in order. */
  ghost predicate NamesOf(names: seq<Text>, m: Attributes) {
    Sorted(names) && forall n :: n in names <==> n in m
  }

  /** There is only one way to sort the names. */
  lemma {:induction false} SortedOnce(a: seq<Text>, b: seq<Text>)
    requires Sorted(a) && Sorted(b) && forall n :: n in a <==> n in b
    ensures a == b
  {
    assert b != [] ==> b[0] in a;
    if a != [] {
      assert a[0] in b;
      FirstIsFirst(a, b[0]);
      FirstIsFirst(b, a[0]);
      BeforeIsTotal(a[0], b[0]);
      TailElements(a);
      TailElements(b);
      SortedOnce(a[1..], b[1..]);
    }
  }

  lemma FirstIsFirst(a: seq<Text>, n: Text)
    requires Sorted(a) && n in a
    ensures n == a[0] || Before(a[0], n)
  {
  }

  lemma TailElements(a: seq<Text>)
    requires a != [] && Sorted(a)
    ensures Sorted(a[1..]) && forall n :: n in a[1..] <==> n in a && n != a[0]
  {
    forall n | n in a[1..]
      ensures n in a && n != a[0]
    {
      var i :| 0 <= i < |a[1..]| && a[1..][i] == n;
      assert a[i + 1] == n;
      BeforeIsTotal(a[0], n);
    }
  }

  // ---------------------------------------------------------------- one buffer, one set of attributes

  lemma LengthIsExact(n: nat)
    requires n < U32_LIMIT
    ensures var l := Length(n); n == ((l[0] as int * 256 + l[1]) * 256 + l[2]) * 256 + l[3]
  {
    var a, b, c := n / 256, n / 256 / 256, n / 256 / 256 / 256;
    assert n == a * 256 + n % 256 && a == b * 256 + a % 256 && b == c * 256 + b % 256 && c == c % 256;
  }

  lemma LengthSplits(a: nat, b: nat, s: Text, t: Text)
    requires a < U32_LIMIT && b < U32_LIMIT && Length(a) + s == Length(b) + t
    ensures a == b && s == t
  {
    hide Length;
    var x, y := Length(a) + s, Length(b) + t;
    assert Length(a) == x[..4] && Length(b) == y[..4];
    assert s == x[4..] && t == y[4..];
    LengthIsExact(a);
    LengthIsExact(b);
  }

  lemma PartSplits(a: Text, b: Text, s: Text, t: Text)
    requires |a| < U32_LIMIT && |b| < U32_LIMIT && Part(a) + s == Part(b) + t
    ensures a == b && s == t
  {
    hide Length;
    assert Part(a) + s == Length(|a|) + (a + s) && Part(b) + t == Length(|b|) + (b + t);
    LengthSplits(|a|, |b|, a + s, b + t);
    assert (a + s)[..|a|] == a && (b + t)[..|b|] == b;
    assert (a + s)[|a|..] == s && (b + t)[|b|..] == t;
  }

  /** Every attribute has bytes to hash, and no length reaches 2^32. */
  ghost predicate Hashable(m: Attributes, decode: Text -> Option<Text>) {
    forall n :: n in m ==>
      && |n| < U32_LIMIT && |m[n].dataType| < U32_LIMIT
      && ValueBytes(m[n], decode).Some? && |ValueBytes(m[n], decode).value| < U32_LIMIT
  }

  /** The same name, type and value bytes, the value being given as a string or as binary. */
  ghost predicate SameBytes(m: Attributes, m': Attributes, decode: Text -> Option<Text>) {
    && m.Keys == m'.Keys
    && forall n :: n in m ==> m[n].dataType == m'[n].dataType && ValueBytes(m[n], decode) == ValueBytes(m'[n], decode)
  }

  lemma EntrySplits(a: Text, v: Value, b: Text, w: Value, s: Text, t: Text, decode: Text -> Option<Text>)
    requires |a| < U32_LIMIT && |v.dataType| < U32_LIMIT && ValueBytes(v, decode).Some? && |ValueBytes(v, decode).value| < U32_LIMIT
    requires |b| < U32_LIMIT && |w.dataType| < U32_LIMIT && ValueBytes(w, decode).Some? && |ValueBytes(w, decode).value| < U32_LIMIT
    requires Entry(a, v, decode) + s == Entry(b, w, decode) + t
    ensures a == b && v.dataType == w.dataType && ValueBytes(v, decode) == ValueBytes(w, decode) && s == t
  {
    hide Part, ValueBytes;
    var x, y := ValueBytes(v, decode).value, ValueBytes(w, decode).value;
    assert Entry(a, v, decode) + s == Part(a) + (Part(v.dataType) + (Part(x) + s));
    assert Entry(b, w, decode) + t == Part(b) + (Part(w.dataType) + (Part(y) + t));
    PartSplits(a, b, Part(v.dataType) + (Part(x) + s), Part(w.dataType) + (Part(y) + t));
    PartSplits(v.dataType, w.dataType, Part(x) + s, Part(y) + t);
    PartSplits(x, y, s, t);
  }

  lemma {:induction false} BufferSplits(m: Attributes, names: seq<Text>, m': Attributes, names': seq<Text>,
                                        decode: Text -> Option<Text>)
    requires Hashable(m, decode) && Hashable(m', decode)
    requires (forall n :: n in names ==> n in m) && (forall n :: n in names' ==> n in m')
    requires Buffer(m, names, decode) == Buffer(m', names', decode)
    ensures names == names'
    ensures forall n :: n in names ==> m[n].dataType == m'[n].dataType && ValueBytes(m[n], decode) == ValueBytes(m'[n], decode)
  {
    hide ValueBytes, Entry;
    if names != [] && names' != [] {
      EntrySplits(names[0], m[names[0]], names'[0], m'[names'[0]],
                  Buffer(m, names[1..], decode), Buffer(m', names'[1..], decode), decode);
      BufferSplits(m, names[1..], m', names'[1..], decode);
      assert names == [names[0]] + names[1..] && names' == [names'[0]] + names'[1..];
    } else if names != [] {
      EntryHasBytes(names[0], m[names[0]], decode);
    } else if names' != [] {
      EntryHasBytes(names'[0], m'[names'[0]], decode);
    }
  }

  lemma EntryHasBytes(name: Text, v: Value, decode: Text -> Option<Text>)
    ensures |Entry(name, v, decode)| > 0
  {
  }

  lemma {:induction false} BufferOfSame(m: Attributes, m': Attributes, names: seq<Text>, decode: Text -> Option<Text>)
    requires SameBytes(m, m', decode) && forall n :: n in names ==> n in m
    ensures Buffer(m, names, decode) == Buffer(m', names, decode)
  {
    if names != [] {
      BufferOfSame(m, m', names[1..], decode);
    }
  }

  /** Two sets of attributes are hashed alike exactly when they have the same bytes. */
  lemma SameBufferIffSameBytes(m: Attributes, names: seq<Text>, m': Attributes, names': seq<Text>,
                               decode: Text -> Option<Text>)
    requires NamesOf(names, m) && NamesOf(names', m') && Hashable(m, decode) && Hashable(m', decode)
    ensures Buffer(m, names, decode) == Buffer(m', names', decode) <==> SameBytes(m, m', decode)
  {
    hide Sorted, Hashable, Buffer, ValueBytes;
    if Buffer(m, names, decode) == Buffer(m', names', decode) {
      BufferSplits(m, names, m', names', decode);
      assert forall n :: n in m <==> n in names;
    } else if SameBytes(m, m', decode) {
      assert forall n :: n in names <==> n in names' by {
        assert forall n :: n in m <==> n in m.Keys;
        assert forall n :: n in m' <==> n in m'.Keys;
      }
      SortedOnce(names, names');
      BufferOfSame(m, m', names, decode);
    }
  }

  /** Without a value the buffer does not tell: an attribute that has none can take the name of
      the next one for its value, and the next one its type for its name. */
  lemma UnvaluedAttributesCollide(n: Text, t: Text, name: Text, dataType: Text, value: Text, decode: Text -> Option<Text>)
    requires Before(n, name) && Before(n, dataType)
    ensures var one: Attributes := map[n := Value(t, None, None), name := Value(dataType, Some(value), None)];
            var other: Attributes := map[n := Value(t, Some(name), None), dataType := Value(value, None, None)];
            && NamesOf([n, name], one) && NamesOf([n, dataType], other)
            && Buffer(one, [n, name], decode) == Buffer(other, [n, dataType], decode)
            && !SameBytes(one, other, decode)
            && (WellFormed(one) <==> WellFormed(other))
  {
    hide Utf8;
    BeforeIsTotal(n, name);
    BeforeIsTotal(n, dataType);
    var one: Attributes := map[n := Value(t, None, None), name := Value(dataType, Some(value), None)];
    var other: Attributes := map[n := Value(t, Some(name), None), dataType := Value(value, None, None)];
    TwoEntries(one, n, name, decode);
    TwoEntries(other, n, dataType, decode);
    Shuffled(Part(n), Part(t), Part(name), Part(dataType), Part(value));
    assert ValueBytes(one[n], decode) == None && ValueBytes(other[n], decode) == Some(name);
    TwoWellFormed(one, n, name);
    TwoWellFormed(other, n, dataType);
  }

  lemma TwoWellFormed(m: Attributes, a: Text, b: Text)
    requires a in m && b in m && forall n :: n in m ==> n == a || n == b
    ensures WellFormed(m) <==>
              && Utf8(a) && Utf8(m[a].dataType) && IsString(m[a].stringValue) && IsString(m[a].binaryValue)
              && Utf8(b) && Utf8(m[b].dataType) && IsString(m[b].stringValue) && IsString(m[b].binaryValue)
  {
    hide Utf8;
  }

  lemma TwoEntries(m: Attributes, a: Text, b: Text, decode: Text -> Option<Text>)
    requires a in m && b in m
    ensures Buffer(m, [a, b], decode) == Entry(a, m[a], decode) + Entry(b, m[b], decode)
  {
    hide Entry;
    assert [a, b][1..] == [b] && [b][1..] == [];
    assert Buffer(m, [b], decode) == Entry(b, m[b], decode);
  }

  lemma Shuffled(a: Text, b: Text, c: Text, d: Text, e: Text)
    ensures a + (b + []) + (c + (d + e)) == a + (b + c) + (d + (e + []))
  {
  }

  // ---------------------------------------------------------------- the layout

  /** The bytes of one attribute: name, type and value in this order, each after its length; a string
      hides a binary value, and a binary value that does not decode leaves nothing. */
  lemma EntryIsSpelled(name: Text, v: Value, decode: Text -> Option<Text>)
    ensures Entry(name, v, decode)
         == Length(|name|) + name + Length(|v.dataType|) + v.dataType
            + match (v.stringValue, v.binaryValue)
              case (Some(s), _) => Length(|s|) + s
              case (None, Some(coded)) =>
                (match decode(coded) case Some(raw) => Length(|raw|) + raw case None => [])
              case (None, None) => []
  {
    hide Length;
  }

  lemma ShortLength(n: nat)
    requires n < 256
    ensures Length(n) == [0, 0, 0, n]
  {
  }

  /** The bytes of two attributes, "ab" of type "S" with the string "xy" and "a" of type "B" with the
      raw bytes 1, 2 and 3: the shorter name comes first. */
  lemma ConcreteBuffer(m: Attributes, names: seq<Text>, decode: Text -> Option<Text>)
    requires m == map[[97, 98] := Value([83], Some([120, 121]), None), [97] := Value([66], None, Some([122]))]
    requires decode([122]) == Some([1, 2, 3]) && NamesOf(names, m)
    ensures Buffer(m, names, decode)
         == [0, 0, 0, 1, 97, 0, 0, 0, 1, 66, 0, 0, 0, 3, 1, 2, 3]
            + [0, 0, 0, 2, 97, 98, 0, 0, 0, 1, 83, 0, 0, 0, 2, 120, 121]
  {
    hide Entry, Buffer, Length, Sorted;
    var a: Text, b: Text := [97], [97, 98];
    assert a != b && |a| == 1 && |b| == 2;
    TwoSorted(names, m, a, b);
    TwoEntries(m, a, b, decode);
    ConcreteEntries(m[a], m[b], decode);
  }

  lemma TwoSorted(names: seq<Text>, m: Attributes, a: Text, b: Text)
    requires |a| == 1 && |b| == 2 && b[0] == a[0] && NamesOf(names, m) && forall n :: n in m <==> n == a || n == b
    ensures names == [a, b]
  {
    assert SmallerAt(a, b, 1);
    BeforeIsLexicographic(a, b);
    SortedOnce(names, [a, b]);
  }

  lemma ConcreteEntries(v: Value, w: Value, decode: Text -> Option<Text>)
    requires v == Value([66], None, Some([122])) && w == Value([83], Some([120, 121]), None)
    requires decode([122]) == Some([1, 2, 3])
    ensures Entry([97], v, decode) == [0, 0, 0, 1, 97, 0, 0, 0, 1, 66, 0, 0, 0, 3, 1, 2, 3]
    ensures Entry([97, 98], w, decode) == [0, 0, 0, 2, 97, 98, 0, 0, 0, 1, 83, 0, 0, 0, 2, 120, 121]
  {
    hide Entry, Length;
    ShortLength(1);
    ShortLength(2);
    ShortLength(3);
    EntryIsSpelled([97], v, decode);
    EntryIsSpelled([97, 98], w, decode);
  }

  // ---------------------------------------------------------------- the loops of the source

  /** Sorting the names the map gives in any order. */
  method SortNames(order: seq<Text>) returns (names: seq<Text>)
    requires forall i, j :: 0 <= i < j < |order| ==> order[i] != order[j]
    ensures Sorted(names) && multiset(names) == multiset(order)
  {
    names := [];
    assert order[..0] == [];
    for i := 0 to |order|
      invariant Sorted(names) && multiset(names) == multiset(order[..i])
    {
      assert order[..i + 1] == order[..i] + [order[i]];
      forall n | n in names
        ensures n != order[i]
      {
        assert n in multiset(names);
        assert n in order[..i];
      }
      names := Insert(names, order[i]);
    }
    assert order[..|order|] == order;
  }

  method Insert(names: seq<Text>, n: Text) returns (r: seq<Text>)
    requires Sorted(names) && n !in names
    ensures Sorted(r) && multiset(r) == multiset(names) + multiset{n}
  {
    var i := 0;
    while i < |names| && Before(names[i], n)
      invariant i <= |names| && forall k :: 0 <= k < i ==> Before(names[k], n)
    {
      i := i + 1;
    }
    InsertedAt(names, n, i);
    assert names == names[..i] + names[i..];
    r := names[..i] + [n] + names[i..];
  }

  lemma InsertedAt(names: seq<Text>, n: Text, i: nat)
    requires Sorted(names) && n !in names && i <= |names|
    requires forall k :: 0 <= k < i ==> Before(names[k], n)
    requires i < |names| ==> !Before(names[i], n)
    ensures Sorted(names[..i] + [n] + names[i..])
  {
    forall k | i <= k < |names|
      ensures Before(n, names[k])
    {
      assert names[i] in names && names[i] != n;
      BeforeIsTotal(n, names[i]);
      if k > i {
        BeforeIsTransitive(n, names[i], names[k]);
      }
    }
  }

  lemma BufferStep(m: Attributes, names: seq<Text>, i: nat, decode: Text -> Option<Text>)
    requires (forall n :: n in names ==> n in m) && i < |names|
    ensures Buffer(m, names[i..], decode) == Entry(names[i], m[names[i]], decode) + Buffer(m, names[i + 1..], decode)
  {
    assert names[i..][1..] == names[i + 1..];
  }

  lemma SameMembers(order: seq<Text>, names: seq<Text>)
    requires multiset(names) == multiset(order)
    ensures forall n :: n in names <==> n in order
  {
    assert forall n :: n in names <==> n in multiset(names);
    assert forall n :: n in order <==> n in multiset(order);
  }

  /** The buffer for a map that gives its names in any order: by SortedOnce it depends on the
      map alone. */
  method BuildBuffer(m: Attributes, order: seq<Text>, decode: Text -> Option<Text>)
    returns (buffer: Text, names: seq<Text>)
    requires (forall i, j :: 0 <= i < j < |order| ==> order[i] != order[j]) && (forall n :: n in order <==> n in m)
    ensures NamesOf(names, m) && buffer == Buffer(m, names, decode)
  {
    hide Entry, Sorted, Buffer;
    names := SortNames(order);
    SameMembers(order, names);
    buffer := [];
    assert names[0..] == names;
    for i := 0 to |names|
      invariant buffer + Buffer(m, names[i..], decode) == Buffer(m, names, decode)
    {
      BufferStep(m, names, i, decode);
      buffer := buffer + Entry(names[i], m[names[i]], decode);
    }
    BufferEnd(m, names[|names|..], decode);
  }

  lemma BufferEnd(m: Attributes, names: seq<Text>, decode: Text -> Option<Text>)
    requires names == []
    ensures Buffer(m, names, decode) == []
  {
  }
}
