/** How many sets of attributes one buffer may stand for. The buffer tells its parts, but not
    where one attribute ends and the next begins: two parts may be an attribute without a value
    or the beginning of one with a value. */
module AttributeReadings {
  import opened Types
  import opened AttributeDigest

  /** One attribute as it enters the buffer. */
  datatype Group = Group(name: Text, dataType: Text, value: Option<Text>)

  function Groups(m: Attributes, names: seq<Text>, decode: Text -> Option<Text>): seq<Group>
    requires forall n :: n in names ==> n in m
  {
    if names == [] then []
    else [Group(names[0], m[names[0]].dataType, ValueBytes(m[names[0]], decode))] + Groups(m, names[1..], decode)
  }

  function PartsOf(g: Group): seq<Text> {
    [g.name, g.dataType] + (if g.value.Some? then [g.value.value] else [])
  }

  /** All parts one after the other, without the boundaries of the attributes. */
  function Flatten(gs: seq<Group>): seq<Text> {
    if gs == [] then [] else PartsOf(gs[0]) + Flatten(gs[1..])
  }

  function Encoded(parts: seq<Text>): Text {
    if parts == [] then [] else Part(parts[0]) + Encoded(parts[1..])
  }

  ghost predicate Short(m: Attributes, decode: Text -> Option<Text>) {
    forall n :: n in m ==>
      && |n| < U32_LIMIT && |m[n].dataType| < U32_LIMIT
      && (ValueBytes(m[n], decode).Some? ==> |ValueBytes(m[n], decode).value| < U32_LIMIT)
  }

  ghost predicate ShortParts(parts: seq<Text>) {
    forall i :: 0 <= i < |parts| ==> |parts[i]| < U32_LIMIT
  }

  // ---------------------------------------------------------------- the buffer is its parts

  lemma {:induction false} EncodedJoin(a: seq<Text>, b: seq<Text>)
    ensures Encoded(a + b) == Encoded(a) + Encoded(b)
  {
    hide Part;
    if a == [] {
      assert a + b == b;
    } else {
      assert (a + b)[1..] == a[1..] + b;
      EncodedJoin(a[1..], b);
    }
  }

  lemma EntryIsEncoded(name: Text, v: Value, decode: Text -> Option<Text>)
    ensures Entry(name, v, decode) == Encoded(PartsOf(Group(name, v.dataType, ValueBytes(v, decode))))
  {
    hide Part, ValueBytes;
    var g := Group(name, v.dataType, ValueBytes(v, decode));
    var parts := PartsOf(g);
    EncodedJoin([name, v.dataType], parts[2..]);
    EncodedTwo(name, v.dataType);
    if g.value.Some? {
      EncodedOne(g.value.value);
      assert parts[2..] == [g.value.value];
    } else {
      assert parts[2..] == [];
    }
    assert parts == [name, v.dataType] + parts[2..];
  }

  lemma EncodedOne(t: Text)
    ensures Encoded([t]) == Part(t)
  {
    hide Part;
    assert [t][1..] == [];
  }

  lemma EncodedTwo(t: Text, u: Text)
    ensures Encoded([t, u]) == Part(t) + Part(u)
  {
    hide Part;
    assert [t, u][1..] == [u];
    EncodedOne(u);
  }

  lemma {:induction false} BufferIsEncoded(m: Attributes, names: seq<Text>, decode: Text -> Option<Text>)
    requires forall n :: n in names ==> n in m
    ensures Buffer(m, names, decode) == Encoded(Flatten(Groups(m, names, decode)))
  {
    hide Entry, PartsOf, ValueBytes;
    if names != [] {
      EntryIsEncoded(names[0], m[names[0]], decode);
      BufferIsEncoded(m, names[1..], decode);
      var g := Group(names[0], m[names[0]].dataType, ValueBytes(m[names[0]], decode));
      var gs := Groups(m, names, decode);
      assert gs[0] == g && gs[1..] == Groups(m, names[1..], decode);
      EncodedJoin(PartsOf(g), Flatten(gs[1..]));
    }
  }

  lemma {:induction false} EncodedSplits(a: seq<Text>, b: seq<Text>)
    requires ShortParts(a) && ShortParts(b) && Encoded(a) == Encoded(b)
    ensures a == b
  {
    hide Part;
    if a != [] && b != [] {
      PartSplits(a[0], b[0], Encoded(a[1..]), Encoded(b[1..]));
      EncodedSplits(a[1..], b[1..]);
      assert a == [a[0]] + a[1..] && b == [b[0]] + b[1..];
    } else if a != [] {
      PartHasBytes(a[0]);
    } else if b != [] {
      PartHasBytes(b[0]);
    }
  }

  lemma PartHasBytes(t: Text)
    ensures |Part(t)| > 0
  {
  }

  lemma {:induction false} GroupsAreShort(m: Attributes, names: seq<Text>, decode: Text -> Option<Text>)
    requires (forall n :: n in names ==> n in m) && Short(m, decode)
    ensures ShortParts(Flatten(Groups(m, names, decode)))
  {
    hide ValueBytes;
    if names != [] {
      GroupsAreShort(m, names[1..], decode);
      var gs := Groups(m, names, decode);
      assert gs[1..] == Groups(m, names[1..], decode);
      var g := Group(names[0], m[names[0]].dataType, ValueBytes(m[names[0]], decode));
      assert gs[0] == g;
      assert ShortParts(PartsOf(g));
    }
  }

  /** For all attributes, with or without values: two buffers are equal exactly when the parts
      are, whatever attributes they belong to. */
  lemma SameBufferIffSameParts(m: Attributes, names: seq<Text>, m': Attributes, names': seq<Text>,
                               decode: Text -> Option<Text>)
    requires NamesOf(names, m) && NamesOf(names', m') && Short(m, decode) && Short(m', decode)
    ensures Buffer(m, names, decode) == Buffer(m', names', decode) <==>
              Flatten(Groups(m, names, decode)) == Flatten(Groups(m', names', decode))
  {
    hide Short, Buffer, Encoded, Flatten, ShortParts, Sorted;
    BufferIsEncoded(m, names, decode);
    BufferIsEncoded(m', names', decode);
    GroupsAreShort(m, names, decode);
    GroupsAreShort(m', names', decode);
    if Buffer(m, names, decode) == Buffer(m', names', decode) {
      EncodedSplits(Flatten(Groups(m, names, decode)), Flatten(Groups(m', names', decode)));
    }
  }

  // ---------------------------------------------------------------- cutting the parts

  predicate Follows(last: Option<Text>, name: Text) {
    last.None? || Before(last.value, name)
  }

  /** Names and types are strings; a value may be any bytes. */
  predicate Proper(name: Text, dataType: Text) {
    Utf8(name) && Utf8(dataType)
  }

  /** Each name comes after the one before it. */
  ghost predicate Climbs(gs: seq<Group>, last: Option<Text>) {
    gs != [] ==> Follows(last, gs[0].name) && Proper(gs[0].name, gs[0].dataType) && Climbs(gs[1..], Some(gs[0].name))
  }

  /** The attributes gs have these parts. */
  ghost predicate Cut(gs: seq<Group>, parts: seq<Text>, last: Option<Text>) {
    Climbs(gs, last) && Flatten(gs) == parts
  }

  /** In how many ways the parts can be cut into attributes with ascending names, names and types
      being strings. */
  function Readings(parts: seq<Text>, last: Option<Text>): nat
    decreases |parts|
  {
    if parts == [] then 1
    else if |parts| < 2 || !Follows(last, parts[0]) || !Proper(parts[0], parts[1]) then 0
    else Readings(parts[2..], Some(parts[0])) + if |parts| > 2 then Readings(parts[3..], Some(parts[0])) else 0
  }

  lemma CutStep(gs: seq<Group>, parts: seq<Text>, last: Option<Text>)
    requires Cut(gs, parts, last) && gs != []
    ensures |parts| >= 2 && Follows(last, parts[0]) && Proper(parts[0], parts[1])
    ensures gs[0].name == parts[0] && gs[0].dataType == parts[1]
    ensures if gs[0].value.None? then Cut(gs[1..], parts[2..], Some(parts[0]))
            else |parts| > 2 && gs[0].value.value == parts[2] && Cut(gs[1..], parts[3..], Some(parts[0]))
  {
    hide Proper;
    var head := PartsOf(gs[0]);
    assert parts == head + Flatten(gs[1..]);
    assert parts[|head|..] == Flatten(gs[1..]);
  }

  lemma CutMore(g: Group, gs: seq<Group>, rest: seq<Text>, last: Option<Text>)
    requires Follows(last, g.name) && Proper(g.name, g.dataType) && Cut(gs, rest, Some(g.name))
    ensures Cut([g] + gs, PartsOf(g) + rest, last)
  {
    hide Proper;
    assert ([g] + gs)[1..] == gs;
  }

  lemma {:induction false} CutIsCounted(gs: seq<Group>, parts: seq<Text>, last: Option<Text>)
    requires Cut(gs, parts, last)
    ensures Readings(parts, last) > 0
  {
    hide Proper;
    if gs != [] {
      CutStep(gs, parts, last);
      CutIsCounted(gs[1..], if gs[0].value.None? then parts[2..] else parts[3..], Some(parts[0]));
    }
  }

  lemma {:induction false} SomeCut(parts: seq<Text>, last: Option<Text>) returns (gs: seq<Group>)
    requires Readings(parts, last) > 0
    ensures Cut(gs, parts, last)
    decreases |parts|
  {
    hide Cut, Proper;
    if parts == [] {
      NoGroups(last);
      gs := [];
    } else if Readings(parts[2..], Some(parts[0])) > 0 {
      var rest := SomeCut(parts[2..], Some(parts[0]));
      gs := WithoutValue(rest, parts, last);
    } else {
      var rest := SomeCut(parts[3..], Some(parts[0]));
      gs := WithValue(rest, parts, last);
    }
  }

  lemma NoGroups(last: Option<Text>)
    ensures Cut([], [], last)
  {
  }

  lemma WithoutValue(rest: seq<Group>, parts: seq<Text>, last: Option<Text>) returns (gs: seq<Group>)
    requires |parts| >= 2 && Follows(last, parts[0]) && Proper(parts[0], parts[1]) && Cut(rest, parts[2..], Some(parts[0]))
    ensures Cut(gs, parts, last) && gs != [] && gs[0].value.None? && gs[1..] == rest
  {
    hide Cut, Proper;
    var g := Group(parts[0], parts[1], None);
    CutMore(g, rest, parts[2..], last);
    assert PartsOf(g) + parts[2..] == parts;
    gs := [g] + rest;
  }

  lemma WithValue(rest: seq<Group>, parts: seq<Text>, last: Option<Text>) returns (gs: seq<Group>)
    requires |parts| > 2 && Follows(last, parts[0]) && Proper(parts[0], parts[1]) && Cut(rest, parts[3..], Some(parts[0]))
    ensures Cut(gs, parts, last) && gs != [] && gs[0].value.Some? && gs[1..] == rest
  {
    hide Cut, Proper;
    var g := Group(parts[0], parts[1], Some(parts[2]));
    CutMore(g, rest, parts[3..], last);
    assert PartsOf(g) + parts[3..] == parts;
    gs := [g] + rest;
  }

  /** Two different cuts are counted as two. */
  lemma {:induction false} TwoCutsCount(gs: seq<Group>, other: seq<Group>, parts: seq<Text>, last: Option<Text>)
    requires Cut(gs, parts, last) && Cut(other, parts, last) && gs != other
    ensures Readings(parts, last) > 1
  {
    hide Cut, Climbs, Proper;
    if gs == [] || other == [] {
      EmptyCut(gs, other, parts, last);
    } else {
      CutStep(gs, parts, last);
      CutStep(other, parts, last);
      if gs[0].value.None? == other[0].value.None? {
        assert gs == [gs[0]] + gs[1..] && other == [other[0]] + other[1..];
        TwoCutsCount(gs[1..], other[1..], if gs[0].value.None? then parts[2..] else parts[3..], Some(parts[0]));
      } else if gs[0].value.None? {
        CutIsCounted(gs[1..], parts[2..], Some(parts[0]));
        CutIsCounted(other[1..], parts[3..], Some(parts[0]));
      } else {
        CutIsCounted(other[1..], parts[2..], Some(parts[0]));
        CutIsCounted(gs[1..], parts[3..], Some(parts[0]));
      }
    }
  }

  lemma EmptyCut(gs: seq<Group>, other: seq<Group>, parts: seq<Text>, last: Option<Text>)
    requires Cut(gs, parts, last) && Cut(other, parts, last) && (gs == [] || other == [])
    ensures gs == other
  {
    if gs != [] {
      CutStep(gs, parts, last);
    } else if other != [] {
      CutStep(other, parts, last);
    }
  }

  /** When more than one cut is counted there is one besides any given one. */
  lemma {:induction false} OtherCut(gs: seq<Group>, parts: seq<Text>, last: Option<Text>) returns (other: seq<Group>)
    requires Cut(gs, parts, last) && Readings(parts, last) > 1
    ensures Cut(other, parts, last) && other != gs
  {
    hide Cut, Climbs, Proper;
    if gs == [] {
      NoParts(parts, last);
    }
    CutStep(gs, parts, last);
    if gs[0].value.None? {
      if |parts| > 2 && Readings(parts[3..], Some(parts[0])) > 0 {
        var rest := SomeCut(parts[3..], Some(parts[0]));
        other := WithValue(rest, parts, last);
      } else {
        var rest := OtherCut(gs[1..], parts[2..], Some(parts[0]));
        other := WithoutValue(rest, parts, last);
      }
    } else if Readings(parts[2..], Some(parts[0])) > 0 {
      var rest := SomeCut(parts[2..], Some(parts[0]));
      other := WithoutValue(rest, parts, last);
    } else {
      var rest := OtherCut(gs[1..], parts[3..], Some(parts[0]));
      other := WithValue(rest, parts, last);
    }
  }

  lemma NoParts(parts: seq<Text>, last: Option<Text>)
    requires Cut([], parts, last)
    ensures Readings(parts, last) == 1
  {
  }

  // ---------------------------------------------------------------- cuts and sets of attributes

  function NamesIn(gs: seq<Group>): (r: seq<Text>)
    ensures |r| == |gs|
  {
    seq(|gs|, i requires 0 <= i < |gs| => gs[i].name)
  }

  /** `encode` writes any bytes as a binary value. */
  ghost predicate Encodes(encode: Text -> Text, decode: Text -> Option<Text>) {
    forall t :: Utf8(encode(t)) && decode(encode(t)) == Some(t)
  }

  function ValueOf(g: Group, encode: Text -> Text): Value {
    Value(g.dataType, None, if g.value.Some? then Some(encode(g.value.value)) else None)
  }

  /** The attributes as a map, values given as binary. */
  function AsAttributes(gs: seq<Group>, encode: Text -> Text): Attributes {
    if gs == [] then map[] else AsAttributes(gs[1..], encode)[gs[0].name := ValueOf(gs[0], encode)]
  }

  lemma {:induction false} ClimbsAbove(gs: seq<Group>, last: Option<Text>, i: nat)
    requires Climbs(gs, last) && i < |gs|
    ensures Follows(last, gs[i].name) && Proper(gs[i].name, gs[i].dataType)
  {
    hide Before, Proper;
    if i > 0 {
      ClimbsAbove(gs[1..], Some(gs[0].name), i - 1);
      if last.Some? {
        BeforeIsTransitive(last.value, gs[0].name, gs[i].name);
      }
    }
  }

  lemma {:induction false} ClimbsSorted(gs: seq<Group>, last: Option<Text>)
    requires Climbs(gs, last)
    ensures Sorted(NamesIn(gs))
  {
    hide Before, Proper;
    if gs != [] {
      ClimbsSorted(gs[1..], Some(gs[0].name));
      var names, tail := NamesIn(gs), NamesIn(gs[1..]);
      forall i, j | 0 <= i < j < |names|
        ensures Before(names[i], names[j])
      {
        if i == 0 {
          ClimbsAbove(gs[1..], Some(gs[0].name), j - 1);
        } else {
          assert Before(tail[i - 1], tail[j - 1]);
        }
      }
    }
  }

  lemma {:induction false} SortedClimbs(gs: seq<Group>, last: Option<Text>)
    requires Sorted(NamesIn(gs)) && (gs != [] ==> Follows(last, gs[0].name))
    requires forall i :: 0 <= i < |gs| ==> Proper(gs[i].name, gs[i].dataType)
    ensures Climbs(gs, last)
  {
    hide Before, Proper;
    if gs != [] {
      var names, tail := NamesIn(gs), NamesIn(gs[1..]);
      assert forall i :: 0 <= i < |tail| ==> tail[i] == names[i + 1];
      if |gs| > 1 {
        assert Before(names[0], names[1]);
      }
      SortedClimbs(gs[1..], Some(gs[0].name));
    }
  }

  lemma {:induction false} GroupAt(m: Attributes, names: seq<Text>, decode: Text -> Option<Text>, i: nat)
    requires (forall n :: n in names ==> n in m) && i < |names|
    ensures |Groups(m, names, decode)| == |names|
    ensures Groups(m, names, decode)[i] == Group(names[i], m[names[i]].dataType, ValueBytes(m[names[i]], decode))
  {
    hide ValueBytes;
    if i > 0 {
      GroupAt(m, names[1..], decode, i - 1);
    } else if |names| > 1 {
      GroupAt(m, names[1..], decode, 0);
    }
  }

  lemma {:induction false} GroupsEmpty(m: Attributes, decode: Text -> Option<Text>)
    ensures Groups(m, [], decode) == []
  {
  }

  /** The attributes of a set are one cut of its parts. */
  lemma GroupsAreCut(m: Attributes, names: seq<Text>, decode: Text -> Option<Text>)
    requires NamesOf(names, m) && WellFormed(m)
    ensures Cut(Groups(m, names, decode), Flatten(Groups(m, names, decode)), None)
    ensures NamesIn(Groups(m, names, decode)) == names
  {
    hide Groups, Flatten, ValueBytes, Utf8;
    var gs := Groups(m, names, decode);
    if names == [] {
      GroupsEmpty(m, decode);
    } else {
      GroupAt(m, names, decode, 0);
    }
    forall i | 0 <= i < |names|
      ensures gs[i].name == names[i] && Proper(gs[i].name, gs[i].dataType)
    {
      GroupAt(m, names, decode, i);
      assert names[i] in m;
    }
    assert NamesIn(gs) == names;
    SortedClimbs(gs, None);
  }

  lemma {:induction false} AttributeAt(gs: seq<Group>, last: Option<Text>, encode: Text -> Text)
    requires Climbs(gs, last)
    ensures forall n :: n in AsAttributes(gs, encode) <==> n in NamesIn(gs)
    ensures forall i :: 0 <= i < |gs| ==>
              gs[i].name in AsAttributes(gs, encode) && AsAttributes(gs, encode)[gs[i].name] == ValueOf(gs[i], encode)
  {
    hide Before, Proper, ValueOf;
    if gs != [] {
      AttributeAt(gs[1..], Some(gs[0].name), encode);
      var names, tail := NamesIn(gs), NamesIn(gs[1..]);
      assert names == [gs[0].name] + tail;
      forall i | 0 < i < |gs|
        ensures gs[i] == gs[1..][i - 1] && gs[i].name != gs[0].name
      {
        ClimbsAbove(gs[1..], Some(gs[0].name), i - 1);
        BeforeIsTotal(gs[0].name, gs[i].name);
      }
    }
  }

  /** Every cut is the attributes of some set. */
  lemma CutIsGroups(gs: seq<Group>, parts: seq<Text>, decode: Text -> Option<Text>, encode: Text -> Text)
    requires Cut(gs, parts, None) && Encodes(encode, decode)
    ensures NamesOf(NamesIn(gs), AsAttributes(gs, encode)) && Groups(AsAttributes(gs, encode), NamesIn(gs), decode) == gs
    ensures WellFormed(AsAttributes(gs, encode))
  {
    hide Groups, Flatten, AsAttributes, Before, Climbs, Utf8;
    var names, m := NamesIn(gs), AsAttributes(gs, encode);
    ClimbsSorted(gs, None);
    AttributeAt(gs, None, encode);
    if gs == [] {
      GroupsEmpty(m, decode);
      assert names == [];
    } else {
      GroupAt(m, names, decode, 0);
    }
    forall i | 0 <= i < |gs|
      ensures Groups(m, names, decode)[i] == gs[i]
    {
      GroupAt(m, names, decode, i);
    }
    forall n | n in m
      ensures Utf8(n) && Utf8(m[n].dataType) && IsString(m[n].stringValue) && IsString(m[n].binaryValue)
    {
      assert n in names;
      var i :| 0 <= i < |gs| && gs[i].name == n;
      ClimbsAbove(gs, None, i);
    }
  }

  lemma SameGroupsIffSameBytes(m: Attributes, names: seq<Text>, m': Attributes, names': seq<Text>, decode: Text -> Option<Text>)
    requires NamesOf(names, m) && NamesOf(names', m') && WellFormed(m) && WellFormed(m')
    ensures Groups(m, names, decode) == Groups(m', names', decode) <==> SameBytes(m, m', decode)
  {
    hide Groups, ValueBytes, Sorted, WellFormed;
    GroupsAreCut(m, names, decode);
    GroupsAreCut(m', names', decode);
    if Groups(m, names, decode) == Groups(m', names', decode) {
      assert names == names';
      assert m.Keys == m'.Keys by {
        assert forall n :: n in m <==> n in m';
      }
      forall n | n in m
        ensures m[n].dataType == m'[n].dataType && ValueBytes(m[n], decode) == ValueBytes(m'[n], decode)
      {
        assert n in names;
        var i :| 0 <= i < |names| && names[i] == n;
        GroupAt(m, names, decode, i);
        GroupAt(m', names', decode, i);
      }
    } else if SameBytes(m, m', decode) {
      assert forall n :: n in names <==> n in names' by {
        assert forall n :: n in m.Keys <==> n in m'.Keys;
      }
      SortedOnce(names, names');
      SameBytesSameGroups(m, m', names, decode);
    }
  }

  lemma {:induction false} SameBytesSameGroups(m: Attributes, m': Attributes, names: seq<Text>, decode: Text -> Option<Text>)
    requires SameBytes(m, m', decode) && (forall n :: n in names ==> n in m)
    ensures (forall n :: n in names ==> n in m') && Groups(m, names, decode) == Groups(m', names, decode)
  {
    hide ValueBytes;
    assert forall n :: n in m ==> n in m.Keys;
    if names != [] {
      SameBytesSameGroups(m, m', names[1..], decode);
    }
  }

  // ---------------------------------------------------------------- the exact condition

  /** Some other set of attributes that the program can hold has the same bytes to hash. */
  ghost predicate Ambiguous(m: Attributes, names: seq<Text>, decode: Text -> Option<Text>)
    requires NamesOf(names, m)
  {
    exists m': Attributes, names' ::
      NamesOf(names', m') && WellFormed(m') && Short(m', decode) && !SameBytes(m, m', decode)
      && Buffer(m', names', decode) == Buffer(m, names, decode)
  }

  lemma CutIsShort(gs: seq<Group>, decode: Text -> Option<Text>, encode: Text -> Text)
    requires Climbs(gs, None) && ShortParts(Flatten(gs)) && Encodes(encode, decode)
    ensures Short(AsAttributes(gs, encode), decode)
  {
    hide Climbs, Flatten, AsAttributes, Utf8;
    AttributeAt(gs, None, encode);
    var m := AsAttributes(gs, encode);
    forall n | n in m
      ensures |n| < U32_LIMIT && |m[n].dataType| < U32_LIMIT
      ensures ValueBytes(m[n], decode).Some? ==> |ValueBytes(m[n], decode).value| < U32_LIMIT
    {
      assert n in NamesIn(gs);
      var i :| 0 <= i < |gs| && gs[i].name == n;
      GroupIsShort(gs, i);
    }
  }

  lemma {:induction false} GroupIsShort(gs: seq<Group>, i: nat)
    requires ShortParts(Flatten(gs)) && i < |gs|
    ensures |gs[i].name| < U32_LIMIT && |gs[i].dataType| < U32_LIMIT
    ensures gs[i].value.Some? ==> |gs[i].value.value| < U32_LIMIT
  {
    var head, rest, all := PartsOf(gs[0]), Flatten(gs[1..]), Flatten(gs);
    assert forall k :: 0 <= k < |head| ==> head[k] == all[k];
    assert forall k :: 0 <= k < |rest| ==> rest[k] == all[|head| + k];
    if i > 0 {
      GroupIsShort(gs[1..], i - 1);
    } else {
      assert head[0] == gs[0].name && head[1] == gs[0].dataType;
      assert gs[0].value.Some? ==> head[2] == gs[0].value.value;
    }
  }

  /** A set of attributes shares its hash input with another set exactly when its list of parts
      can be cut into attributes in more than one way. */
  lemma AmbiguousIff(m: Attributes, names: seq<Text>, decode: Text -> Option<Text>, encode: Text -> Text)
    requires NamesOf(names, m) && WellFormed(m) && Short(m, decode) && Encodes(encode, decode)
    ensures Ambiguous(m, names, decode) <==> Readings(Flatten(Groups(m, names, decode)), None) > 1
  {
    hide Sorted, WellFormed, Short, SameBytes, Buffer, Flatten, Groups, Readings, Cut, Encodes;
    var gs := Groups(m, names, decode);
    var parts := Flatten(gs);
    GroupsAreCut(m, names, decode);
    if Ambiguous(m, names, decode) {
      var m': Attributes, names' :|
        NamesOf(names', m') && WellFormed(m') && Short(m', decode) && !SameBytes(m, m', decode)
        && Buffer(m', names', decode) == Buffer(m, names, decode);
      SameBufferIffSameParts(m, names, m', names', decode);
      SameGroupsIffSameBytes(m, names, m', names', decode);
      GroupsAreCut(m', names', decode);
      TwoCutsCount(gs, Groups(m', names', decode), parts, None);
    } else if Readings(parts, None) > 1 {
      var other := OtherCut(gs, parts, None);
      CutIsGroups(other, parts, decode, encode);
      var m', names' := AsAttributes(other, encode), NamesIn(other);
      GroupsAreShort(m, names, decode);
      CutParts(other, parts);
      CutIsShort(other, decode, encode);
      SameBufferIffSameParts(m, names, m', names', decode);
      SameGroupsIffSameBytes(m, names, m', names', decode);
    }
  }

  lemma CutParts(gs: seq<Group>, parts: seq<Text>)
    requires Cut(gs, parts, None)
    ensures Climbs(gs, None) && Flatten(gs) == parts
  {
  }

  // ---------------------------------------------------------------- examples of both kinds

  /** Giving every value does not help: two valued attributes can be read as three without, when
      both values are strings. */
  lemma ValuedAttributesCollide(a: Group, b: Group)
    requires a.value.Some? && b.value.Some?
    requires Proper(a.name, a.dataType) && Proper(b.name, b.dataType) && Proper(a.value.value, b.value.value)
    requires Before(a.name, b.name) && Before(a.name, a.value.value) && Before(a.value.value, b.dataType)
    ensures Readings(Flatten([a, b]), None) > 1
  {
    hide Climbs, Before, Utf8;
    var three := [Group(a.name, a.dataType, None), Group(a.value.value, b.name, None), Group(b.dataType, b.value.value, None)];
    FlattenThree(three);
    FlattenTwo(a, b);
    var parts := [a.name, a.dataType, a.value.value, b.name, b.dataType, b.value.value];
    assert Flatten([a, b]) == parts && Flatten(three) == parts;
    ClimbsTwo(a, b, None);
    ClimbsTwo(three[1], three[2], Some(a.name));
    assert three[1..] == [three[1], three[2]];
    ClimbsFirst(three, None);
    TwoCutsCount([a, b], three, parts, None);
  }

  lemma ClimbsFirst(gs: seq<Group>, last: Option<Text>)
    requires gs != [] && Follows(last, gs[0].name) && Proper(gs[0].name, gs[0].dataType) && Climbs(gs[1..], Some(gs[0].name))
    ensures Climbs(gs, last)
  {
  }

  lemma ClimbsTwo(a: Group, b: Group, last: Option<Text>)
    requires Follows(last, a.name) && Before(a.name, b.name) && Proper(a.name, a.dataType) && Proper(b.name, b.dataType)
    ensures Climbs([a, b], last)
  {
    hide Proper, Before;
    assert [a, b][1..] == [b] && [b][1..] == [];
    ClimbsFirst([b], Some(a.name));
  }

  lemma FlattenTwo(a: Group, b: Group)
    ensures Flatten([a, b]) == PartsOf(a) + PartsOf(b)
  {
    assert [a, b][1..] == [b] && [b][1..] == [];
    assert Flatten([b]) == PartsOf(b);
  }

  lemma FlattenThree(gs: seq<Group>)
    requires |gs| == 3
    ensures Flatten(gs) == PartsOf(gs[0]) + (PartsOf(gs[1]) + PartsOf(gs[2]))
  {
    assert gs[1..] == [gs[1], gs[2]];
    FlattenTwo(gs[1], gs[2]);
  }

  const STRING: Text := [83, 116, 114, 105, 110, 103]

  lemma {:induction false} AsciiIsUtf8(t: Text)
    requires forall i :: 0 <= i < |t| ==> t[i] <= 0x7F
    ensures Utf8(t)
  {
    if t != [] {
      AsciiIsUtf8(t[1..]);
    }
  }

  lemma LettersAreUtf8()
    ensures Utf8([65]) && Utf8([66]) && Utf8([67]) && Utf8([78]) && Utf8(STRING)
  {
    hide Utf8;
    AsciiIsUtf8([65]);
    AsciiIsUtf8([66]);
    AsciiIsUtf8([67]);
    AsciiIsUtf8([78]);
    AsciiIsUtf8(STRING);
  }

  /** A set of two attributes, its names and its groups. */
  lemma PairOfAttributes(a: Text, v: Value, b: Text, w: Value, decode: Text -> Option<Text>)
    requires Before(a, b) && Utf8(a) && Utf8(v.dataType) && Utf8(b) && Utf8(w.dataType)
    requires IsString(v.stringValue) && IsString(v.binaryValue) && IsString(w.stringValue) && IsString(w.binaryValue)
    ensures var m: Attributes := map[a := v, b := w];
            && NamesOf([a, b], m) && WellFormed(m)
            && Groups(m, [a, b], decode)
               == [Group(a, v.dataType, ValueBytes(v, decode)), Group(b, w.dataType, ValueBytes(w, decode))]
  {
    hide Utf8, ValueBytes, Groups;
    var m: Attributes := map[a := v, b := w];
    BeforeIsTotal(a, b);
    assert m[a] == v && m[b] == w;
    GroupAt(m, [a, b], decode, 0);
    GroupAt(m, [a, b], decode, 1);
  }

  /** "A" with value "B" and "C", both of type "String", can be read in two ways, whatever string
      the value of "C" is. */
  lemma ConcreteCollision(value: Text)
    requires Utf8(value)
    ensures Readings(Flatten([Group([65], STRING, Some([66])), Group([67], STRING, Some(value))]), None) > 1
  {
    hide Utf8, Flatten, Readings;
    LettersAreUtf8();
    ValuedAttributesCollide(Group([65], STRING, Some([66])), Group([67], STRING, Some(value)));
  }

  /** The set {"A": "B", "C": value} of strings shares its hash input with another set. */
  lemma ConcreteSetIsAmbiguous(value: Text, decode: Text -> Option<Text>, encode: Text -> Text)
    requires |value| < U32_LIMIT && Utf8(value) && Encodes(encode, decode)
    ensures var m: Attributes := map[[65] := Value(STRING, Some([66]), None), [67] := Value(STRING, Some(value), None)];
            NamesOf([[65], [67]], m) && WellFormed(m) && Ambiguous(m, [[65], [67]], decode)
  {
    hide Ambiguous, Readings, Flatten, Utf8, Encodes, Groups, WellFormed, Sorted;
    var m: Attributes := map[[65] := Value(STRING, Some([66]), None), [67] := Value(STRING, Some(value), None)];
    LettersAreUtf8();
    PairOfAttributes([65], Value(STRING, Some([66]), None), [67], Value(STRING, Some(value), None), decode);
    ConcreteCollision(value);
    PairIsShort(m, [65], [67], decode);
    AmbiguousIff(m, [[65], [67]], decode, encode);
  }

  lemma PairIsShort(m: Attributes, a: Text, b: Text, decode: Text -> Option<Text>)
    requires a in m && b in m && (forall n :: n in m ==> n == a || n == b)
    requires |a| < U32_LIMIT && |m[a].dataType| < U32_LIMIT
    requires ValueBytes(m[a], decode).Some? ==> |ValueBytes(m[a], decode).value| < U32_LIMIT
    requires |b| < U32_LIMIT && |m[b].dataType| < U32_LIMIT
    requires ValueBytes(m[b], decode).Some? ==> |ValueBytes(m[b], decode).value| < U32_LIMIT
    ensures Short(m, decode)
  {
  }

  /** Bytes that are no string cannot pass for a name: an attribute with such a value, followed by
      one without a value, can be read in one way only. */
  lemma BytesAreNoName(a: Group, b: Group)
    requires Climbs([a, b], None) && a.value.Some? && !Utf8(a.value.value) && b.value.None?
    ensures Readings(Flatten([a, b]), None) == 1
  {
    hide Utf8, Before;
    FlattenTwo(a, b);
    var parts := [a.name, a.dataType, a.value.value, b.name, b.dataType];
    assert Flatten([a, b]) == parts;
    CutIsCounted([a, b], parts, None);
    assert parts[2..][0] == a.value.value;
    TwoParts(parts[3..], Some(a.name));
  }

  lemma ByteIsNoString()
    ensures !Utf8([0xFF])
  {
  }

  /** "A" of type "B" with a binary value that decodes to the byte FF and "C" of type "N" without a
      value share their hash input with no other set. */
  lemma ConcreteSetIsUnambiguous(binary: Text, decode: Text -> Option<Text>, encode: Text -> Text)
    requires Utf8(binary) && decode(binary) == Some([0xFF]) && Encodes(encode, decode)
    ensures var m: Attributes := map[[65] := Value([66], None, Some(binary)), [67] := Value([78], None, None)];
            NamesOf([[65], [67]], m) && WellFormed(m) && !Ambiguous(m, [[65], [67]], decode)
  {
    hide Ambiguous, Readings, Flatten, Utf8, Encodes, Groups, WellFormed, Sorted;
    var m: Attributes := map[[65] := Value([66], None, Some(binary)), [67] := Value([78], None, None)];
    var a, b := Group([65], [66], Some([0xFF])), Group([67], [78], None);
    LettersAreUtf8();
    PairOfAttributes([65], Value([66], None, Some(binary)), [67], Value([78], None, None), decode);
    ByteIsNoString();
    ClimbsTwo(a, b, None);
    BytesAreNoName(a, b);
    PairIsShort(m, [65], [67], decode);
    AmbiguousIff(m, [[65], [67]], decode, encode);
  }

  /** One attribute, and two without values, can be read in one way only. */
  lemma FewPartsAreUnambiguous(gs: seq<Group>)
    requires Climbs(gs, None) && (|gs| == 1 || (|gs| == 2 && gs[0].value.None? && gs[1].value.None?))
    ensures Readings(Flatten(gs), None) == 1
  {
    hide Before, Utf8;
    CutIsCounted(gs, Flatten(gs), None);
    if |gs| == 2 {
      assert gs == [gs[0], gs[1]];
      FlattenTwo(gs[0], gs[1]);
    } else {
      assert gs[1..] == [];
      OneAttribute(gs);
    }
    FourParts(Flatten(gs), None);
  }

  lemma OneAttribute(gs: seq<Group>)
    requires |gs| == 1
    ensures |Flatten(gs)| <= 3
  {
    assert Flatten(gs[1..]) == [];
  }

  lemma FourParts(parts: seq<Text>, last: Option<Text>)
    requires |parts| <= 4
    ensures Readings(parts, last) <= 1
  {
    if |parts| >= 2 {
      TwoParts(parts[2..], Some(parts[0]));
      if |parts| > 2 {
        TwoParts(parts[3..], Some(parts[0]));
        assert |parts[2..]| < 2 || |parts[3..]| == 1;
      }
    }
  }

  lemma TwoParts(parts: seq<Text>, last: Option<Text>)
    requires |parts| <= 2
    ensures Readings(parts, last) <= 1 && (|parts| == 1 ==> Readings(parts, last) == 0)
  {
    if |parts| == 2 {
      assert parts[2..] == [];
    }
  }
}
