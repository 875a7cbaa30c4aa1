/** A JSON request is flattened into parameters with numbered keys, which the handlers read back
    by counting up from one. */
module JsonParams {
  import opened Types
  import opened Text

  type Params = map<string, string>

  /** A message attribute as the JSON gives it; a part is None when it is missing or no string. */
  datatype Member = Member(name: string, dataType: Option<string>, stringValue: Option<string>, binaryValue: Option<string>)

  /** A member of an object with its value as a string, which for other JSON values is their
      serialized form. */
  datatype Pair = Pair(key: string, value: string)

  /** The value of a top-level key. Numbers and booleans are literals. An object is given as its
      members read as message attributes, and as pairs; `json` is the serialized form. */
  datatype JsonValue =
    | Str(text: string)
    | Literal(text: string)
    | Null
    | Array(items: seq<string>, json: string)
    | Object(members: seq<Member>, pairs: seq<Pair>, json: string)

  datatype Field = Field(key: string, value: JsonValue)

  /** The JSON parser on a text that should be an object; None for anything else. */
  type ObjectParser = string -> Option<seq<Pair>>

  // ---------------------------------------------------------------- numbered keys

  datatype Part = Name | DataType | StringValue | BinaryValue

  function Suffix(part: Part): string {
    match part
    case Name => "Name"
    case DataType => "Value.DataType"
    case StringValue => "Value.StringValue"
    case BinaryValue => "Value.BinaryValue"
  }

  const MEMBER := "MessageAttribute."

  function Key(index: nat, part: Part): string {
    MEMBER + (Decimal(index) + ("." + Suffix(part)))
  }

  function Numbered(key: string, index: nat): string {
    key + ("." + Decimal(index))
  }

  lemma DotNotBefore(a: string, s: string, b: string, t: string)
    requires '.' !in b && a + ("." + s) == b + ("." + t)
    ensures |b| <= |a|
  {
    var x, y := a + ("." + s), b + ("." + t);
    assert x[|a|] == '.';
    assert forall i :: 0 <= i < |b| ==> y[i] == b[i] && b[i] != '.';
  }

  lemma SplitAtDot(a: string, s: string, b: string, t: string)
    requires '.' !in a && '.' !in b && a + ("." + s) == b + ("." + t)
    ensures a == b && s == t
  {
    DotNotBefore(a, s, b, t);
    DotNotBefore(b, t, a, s);
    var x, y := a + ("." + s), b + ("." + t);
    assert x[..|a|] == a && y[..|b|] == b;
    assert x[|a| + 1..] == s && y[|b| + 1..] == t;
  }

  /** No two indices and no two parts share a key. */
  lemma KeysAreDistinct(i: nat, p: Part, j: nat, q: Part)
    requires Key(i, p) == Key(j, q)
    ensures i == j && p == q
  {
    var x, y := Decimal(i) + ("." + Suffix(p)), Decimal(j) + ("." + Suffix(q));
    assert Key(i, p)[|MEMBER|..] == x && Key(j, q)[|MEMBER|..] == y;
    SplitAtDot(Decimal(i), Suffix(p), Decimal(j), Suffix(q));
    DecimalInjective(i, j);
    SuffixesDiffer(p, q);
  }

  lemma SuffixesDiffer(p: Part, q: Part)
    requires Suffix(p) == Suffix(q)
    ensures p == q
  {
    assert |Suffix(Name)| == 4 && |Suffix(DataType)| == 14;
    assert Suffix(StringValue)[6] == 'S' && Suffix(BinaryValue)[6] == 'B';
  }

  lemma NumberedAreDistinct(key: string, i: nat, j: nat)
    requires Numbered(key, i) == Numbered(key, j)
    ensures i == j
  {
    assert Numbered(key, i)[|key| + 1..] == Decimal(i) && Numbered(key, j)[|key| + 1..] == Decimal(j);
    DecimalInjective(i, j);
  }

  lemma JoinedLeft(a: string, b: string, c: string, d: string)
    ensures a + (b + (c + d)) == a + b + (c + d)
  {
  }

  /** The keys, spelled out. */
  lemma KeyIsSpelled(index: nat, part: Part)
    ensures Key(index, part)
         == "MessageAttribute." + Decimal(index)
            + match part
              case Name => ".Name"
              case DataType => ".Value.DataType"
              case StringValue => ".Value.StringValue"
              case BinaryValue => ".Value.BinaryValue"
  {
    hide Decimal;
    JoinedLeft(MEMBER, Decimal(index), ".", Suffix(part));
    assert "." + "Name" == ".Name" && "." + "Value.DataType" == ".Value.DataType";
    assert "." + "Value.StringValue" == ".Value.StringValue" && "." + "Value.BinaryValue" == ".Value.BinaryValue";
  }

  // ---------------------------------------------------------------- flattening

  function Held(m: Member, part: Part): Option<string> {
    match part
    case Name => Some(m.name)
    case DataType => m.dataType
    case StringValue => m.stringValue
    case BinaryValue => m.binaryValue
  }

  function InsertPart(params: Params, m: Member, index: nat, part: Part): Params {
    if Held(m, part).Some? then params[Key(index, part) := Held(m, part).value] else params
  }

  function InsertMember(params: Params, m: Member, index: nat): Params {
    InsertPart(InsertPart(InsertPart(InsertPart(params, m, index, Name), m, index, DataType),
                          m, index, StringValue), m, index, BinaryValue)
  }

  function InsertMembers(params: Params, members: seq<Member>, index: nat): Params
    decreases |members|
  {
    if members == [] then params
    else InsertMembers(InsertMember(params, members[0], index), members[1..], index + 1)
  }

  function InsertItems(params: Params, key: string, items: seq<string>, index: nat): Params
    decreases |items|
  {
    if items == [] then params
    else InsertItems(params[Numbered(key, index) := items[0]], key, items[1..], index + 1)
  }

  /** Without a trailing s. */
  function Singular(key: string): string {
    if key != [] && key[|key| - 1] == 's' then key[..|key| - 1] else key
  }

  function InsertPairs(params: Params, pairs: seq<Pair>): Params
    decreases |pairs|
  {
    if pairs == [] then params else InsertPairs(params[pairs[0].key := pairs[0].value], pairs[1..])
  }

  /** The characters that trimming removes (the White_Space property of Unicode). */
  predicate White(c: char) {
    || '\U{0009}' <= c <= '\U{000D}' || c == ' ' || c == '\U{0085}' || c == '\U{00A0}' || c == '\U{1680}'
    || '\U{2000}' <= c <= '\U{200A}' || c == '\U{2028}' || c == '\U{2029}' || c == '\U{202F}'
    || c == '\U{205F}' || c == '\U{3000}'
  }

  /** Whether the trimmed text starts with a brace. */
  predicate LooksLikeObject(text: string) {
    text != [] && if White(text[0]) then LooksLikeObject(text[1..]) else text[0] == '{'
  }

  /** The member "Attributes" as an object, or as the text of one, is copied pair by pair; a text
      that only looks like an object adds nothing. None for every other field. */
  function Copied(f: Field, parse: ObjectParser): Option<seq<Pair>> {
    if f.key != "Attributes" then None
    else if f.value.Object? then Some(f.value.pairs)
    else if f.value.Str? && LooksLikeObject(f.value.text) then
      (if parse(f.value.text).Some? then parse(f.value.text) else Some([]))
    else None
  }

  function InsertField(params: Params, f: Field, parse: ObjectParser): Params {
    if Copied(f, parse).Some? then InsertPairs(params, Copied(f, parse).value)
    else if f.key == "MessageAttributes" && f.value.Object? then InsertMembers(params, f.value.members, 1)
    else
      match f.value
      case Str(text) => params[f.key := text]
      case Literal(text) => params[f.key := text]
      case Null => params
      case Array(items, json) =>
        if f.key == "Entries" then params[f.key := json] else InsertItems(params, Singular(f.key), items, 1)
      case Object(_, _, json) => params[f.key := json]
  }

  function InsertFields(params: Params, fields: seq<Field>, parse: ObjectParser): Params
    decreases |fields|
  {
    if fields == [] then params else InsertFields(InsertField(params, fields[0], parse), fields[1..], parse)
  }

  function Lookup(params: Params, key: string): Option<string> {
    if key in params then Some(params[key]) else None
  }

  /** What the numbered keys of the members look up to. */
  lemma {:induction false} MembersLookup(params: Params, members: seq<Member>, index: nat, i: nat, part: Part)
    ensures Lookup(InsertMembers(params, members, index), Key(i, part))
         == if index <= i < index + |members| && Held(members[i - index], part).Some? then Held(members[i - index], part)
            else Lookup(params, Key(i, part))
    decreases |members|
  {
    hide InsertMember, Key, Lookup, Held;
    if members != [] {
      MembersLookup(InsertMember(params, members[0], index), members[1..], index + 1, i, part);
      MemberLookup(params, members[0], index, i, part);
      assert forall k :: 0 < k < |members| ==> members[k] == members[1..][k - 1];
    }
  }

  lemma MemberLookup(params: Params, m: Member, index: nat, i: nat, part: Part)
    ensures Lookup(InsertMember(params, m, index), Key(i, part))
         == if i == index && Held(m, part).Some? then Held(m, part) else Lookup(params, Key(i, part))
  {
    hide Key, Held, InsertPart;
    var a := InsertPart(params, m, index, Name);
    var b := InsertPart(a, m, index, DataType);
    var c := InsertPart(b, m, index, StringValue);
    PartLookup(params, m, index, Name, i, part);
    PartLookup(a, m, index, DataType, i, part);
    PartLookup(b, m, index, StringValue, i, part);
    PartLookup(c, m, index, BinaryValue, i, part);
  }

  lemma PartLookup(params: Params, m: Member, index: nat, inserted: Part, i: nat, part: Part)
    ensures Lookup(InsertPart(params, m, index, inserted), Key(i, part))
         == if i == index && inserted == part && Held(m, part).Some? then Held(m, part) else Lookup(params, Key(i, part))
  {
    hide Key, Held;
    if Key(i, part) == Key(index, inserted) {
      KeysAreDistinct(i, part, index, inserted);
    }
  }

  // ---------------------------------------------------------------- which keys a field inserts

  ghost predicate MemberKey(members: seq<Member>, index: nat, k: string) {
    exists n, part :: index <= n < index + |members| && Held(members[n - index], part).Some? && Key(n, part) == k
  }

  ghost predicate ItemKey(key: string, count: nat, index: nat, k: string) {
    exists n :: index <= n < index + count && Numbered(key, n) == k
  }

  /** The keys that a field inserts. */
  ghost predicate Inserts(f: Field, parse: ObjectParser, k: string) {
    if Copied(f, parse).Some? then exists i :: 0 <= i < |Copied(f, parse).value| && Copied(f, parse).value[i].key == k
    else if f.key == "MessageAttributes" && f.value.Object? then MemberKey(f.value.members, 1, k)
    else
      match f.value
      case Null => false
      case Array(items, _) => if f.key == "Entries" then f.key == k else ItemKey(Singular(f.key), |items|, 1, k)
      case _ => f.key == k
  }

  lemma {:induction false} PairsInsert(params: Params, pairs: seq<Pair>, k: string)
    ensures if exists i :: 0 <= i < |pairs| && pairs[i].key == k then k in InsertPairs(params, pairs)
            else Lookup(InsertPairs(params, pairs), k) == Lookup(params, k)
    ensures k in params ==> k in InsertPairs(params, pairs)
    decreases |pairs|
  {
    if pairs != [] {
      PairsInsert(params[pairs[0].key := pairs[0].value], pairs[1..], k);
      assert forall i :: 0 < i < |pairs| ==> pairs[i] == pairs[1..][i - 1];
    }
  }

  lemma {:induction false} ItemsInsert(params: Params, key: string, items: seq<string>, index: nat, k: string)
    ensures if ItemKey(key, |items|, index, k) then k in InsertItems(params, key, items, index)
            else Lookup(InsertItems(params, key, items, index), k) == Lookup(params, k)
    ensures k in params ==> k in InsertItems(params, key, items, index)
    decreases |items|
  {
    hide Numbered;
    if items != [] {
      ItemsInsert(params[Numbered(key, index) := items[0]], key, items[1..], index + 1, k);
    }
  }

  lemma PartsInsert(params: Params, m: Member, index: nat, k: string)
    ensures if exists part :: Held(m, part).Some? && Key(index, part) == k then k in InsertMember(params, m, index)
            else Lookup(InsertMember(params, m, index), k) == Lookup(params, k)
    ensures k in params ==> k in InsertMember(params, m, index)
  {
    hide Key;
    if part :| Held(m, part).Some? && Key(index, part) == k {
      match part {
        case Name =>
        case DataType =>
        case StringValue =>
        case BinaryValue =>
      }
    } else {
      assert Held(m, Name).Some? ==> Key(index, Name) != k;
      assert Held(m, DataType).Some? ==> Key(index, DataType) != k;
      assert Held(m, StringValue).Some? ==> Key(index, StringValue) != k;
      assert Held(m, BinaryValue).Some? ==> Key(index, BinaryValue) != k;
    }
  }

  lemma {:induction false} MembersInsert(params: Params, members: seq<Member>, index: nat, k: string)
    ensures if MemberKey(members, index, k) then k in InsertMembers(params, members, index)
            else Lookup(InsertMembers(params, members, index), k) == Lookup(params, k)
    ensures k in params ==> k in InsertMembers(params, members, index)
    decreases |members|
  {
    hide Key, Held, InsertMember, MemberKey;
    if members == [] {
      NoMemberKey(index, k);
    } else {
      PartsInsert(params, members[0], index, k);
      MembersInsert(InsertMember(params, members[0], index), members[1..], index + 1, k);
      MemberKeyStep(members, index, k);
    }
  }

  lemma NoMemberKey(index: nat, k: string)
    ensures !MemberKey([], index, k)
  {
  }

  lemma MemberKeyStep(members: seq<Member>, index: nat, k: string)
    requires members != []
    ensures MemberKey(members, index, k) <==>
              (exists part :: Held(members[0], part).Some? && Key(index, part) == k) || MemberKey(members[1..], index + 1, k)
  {
    hide Key, Held;
    if part :| Held(members[0], part).Some? && Key(index, part) == k {
      assert Held(members[index - index], part).Some?;
    }
    if MemberKey(members[1..], index + 1, k) {
      var n, part :| index + 1 <= n < index + 1 + |members[1..]| && Held(members[1..][n - index - 1], part).Some? && Key(n, part) == k;
      assert members[1..][n - index - 1] == members[n - index];
    }
    if MemberKey(members, index, k) {
      var n, part :| index <= n < index + |members| && Held(members[n - index], part).Some? && Key(n, part) == k;
      if n > index {
        assert members[1..][n - (index + 1)] == members[n - index];
      }
    }
  }

  /** A field inserts exactly the keys that Inserts says. */
  lemma InsertsIsExact(params: Params, f: Field, parse: ObjectParser, k: string)
    ensures if Inserts(f, parse, k) then k in InsertField(params, f, parse)
            else Lookup(InsertField(params, f, parse), k) == Lookup(params, k)
  {
    hide ItemKey, MemberKey, InsertPairs, InsertItems, InsertMembers, Singular, LooksLikeObject;
    if Copied(f, parse).Some? {
      PairsInsert(params, Copied(f, parse).value, k);
    } else if f.key == "MessageAttributes" && f.value.Object? {
      MembersInsert(params, f.value.members, 1, k);
    } else if f.value.Array? && f.key != "Entries" {
      ItemsInsert(params, Singular(f.key), f.value.items, 1, k);
    }
  }

  // ---------------------------------------------------------------- which write of a key is the last

  /** What a field leaves under a key. */
  function Writes(f: Field, parse: ObjectParser, k: string): Option<string> {
    Lookup(InsertField(map[], f, parse), k)
  }

  /** What the last of the fields that inserts k leaves there. */
  function LastWrite(fields: seq<Field>, parse: ObjectParser, k: string): Option<string> {
    if fields == [] then None
    else if LastWrite(fields[1..], parse, k).Some? then LastWrite(fields[1..], parse, k)
    else Writes(fields[0], parse, k)
  }

  lemma {:induction false} PairsOverlay(params: Params, pairs: seq<Pair>)
    ensures InsertPairs(params, pairs) == params + InsertPairs(map[], pairs)
    decreases |pairs|
  {
    if pairs != [] {
      var p := pairs[0];
      PairsOverlay(params[p.key := p.value], pairs[1..]);
      PairsOverlay(map[p.key := p.value], pairs[1..]);
    }
  }

  lemma {:induction false} ItemsOverlay(params: Params, key: string, items: seq<string>, index: nat)
    ensures InsertItems(params, key, items, index) == params + InsertItems(map[], key, items, index)
    decreases |items|
  {
    hide Numbered;
    if items != [] {
      ItemsOverlay(params[Numbered(key, index) := items[0]], key, items[1..], index + 1);
      ItemsOverlay(map[Numbered(key, index) := items[0]], key, items[1..], index + 1);
    }
  }

  lemma PartOverlay(params: Params, over: Params, m: Member, index: nat, part: Part)
    ensures InsertPart(params + over, m, index, part) == params + InsertPart(over, m, index, part)
  {
    hide Key, Held;
  }

  lemma MemberOverlay(params: Params, m: Member, index: nat)
    ensures InsertMember(params, m, index) == params + InsertMember(map[], m, index)
  {
    hide InsertPart;
    var a: Params := InsertPart(map[], m, index, Name);
    var b := InsertPart(a, m, index, DataType);
    assert params + map[] == params;
    PartOverlay(params, map[], m, index, Name);
    PartOverlay(params, a, m, index, DataType);
    PartOverlay(params, b, m, index, StringValue);
    PartOverlay(params, InsertPart(b, m, index, StringValue), m, index, BinaryValue);
  }

  lemma {:induction false} MembersOverlay(params: Params, members: seq<Member>, index: nat)
    ensures InsertMembers(params, members, index) == params + InsertMembers(map[], members, index)
    decreases |members|
  {
    hide InsertMember;
    if members != [] {
      MemberOverlay(params, members[0], index);
      MembersOverlay(InsertMember(params, members[0], index), members[1..], index + 1);
      MembersOverlay(InsertMember(map[], members[0], index), members[1..], index + 1);
    }
  }

  /** A field does the same to all parameters: what it writes hides what was there. */
  lemma FieldOverlay(params: Params, f: Field, parse: ObjectParser)
    ensures InsertField(params, f, parse) == params + InsertField(map[], f, parse)
  {
    hide InsertPairs, InsertItems, InsertMembers, Singular, LooksLikeObject;
    if Copied(f, parse).Some? {
      PairsOverlay(params, Copied(f, parse).value);
    } else if f.key == "MessageAttributes" && f.value.Object? {
      MembersOverlay(params, f.value.members, 1);
    } else if f.value.Array? && f.key != "Entries" {
      ItemsOverlay(params, Singular(f.key), f.value.items, 1);
    }
  }

  lemma {:induction false} FieldsLookup(params: Params, fields: seq<Field>, parse: ObjectParser, k: string)
    ensures Lookup(InsertFields(params, fields, parse), k)
         == if LastWrite(fields, parse, k).Some? then LastWrite(fields, parse, k) else Lookup(params, k)
    decreases |fields|
  {
    hide InsertField;
    if fields != [] {
      FieldOverlay(params, fields[0], parse);
      FieldsLookup(InsertField(params, fields[0], parse), fields[1..], parse, k);
    }
  }

  lemma {:induction false} LastWriteJoin(a: seq<Field>, b: seq<Field>, parse: ObjectParser, k: string)
    ensures LastWrite(a + b, parse, k) == if LastWrite(b, parse, k).Some? then LastWrite(b, parse, k) else LastWrite(a, parse, k)
  {
    hide Writes;
    if a == [] {
      assert a + b == b;
    } else {
      assert (a + b)[1..] == a[1..] + b;
      LastWriteJoin(a[1..], b, parse, k);
    }
  }

  lemma {:induction false} NoWrite(fields: seq<Field>, parse: ObjectParser, k: string)
    ensures LastWrite(fields, parse, k).None? <==> forall i :: 0 <= i < |fields| ==> !Inserts(fields[i], parse, k)
  {
    hide Inserts, InsertField;
    if fields != [] {
      InsertsIsExact(map[], fields[0], parse, k);
      NoWrite(fields[1..], parse, k);
      assert forall i :: 0 < i < |fields| ==> fields[i] == fields[1..][i - 1];
    }
  }

  /** The fields but the one at `at`. */
  function Others(fields: seq<Field>, at: nat): seq<Field>
    requires at < |fields|
  {
    fields[..at] + fields[at + 1..]
  }

  /** No field but the one at `at` inserts k. */
  ghost predicate OnlyAt(fields: seq<Field>, at: nat, parse: ObjectParser, k: string) {
    forall i :: 0 <= i < |fields| && i != at ==> !Inserts(fields[i], parse, k)
  }

  /** No field after the one at `at` leaves anything but v under k. */
  ghost predicate Undisturbed(fields: seq<Field>, at: nat, parse: ObjectParser, k: string, v: string)
    requires at < |fields|
  {
    var later := LastWrite(fields[at + 1..], parse, k);
    later.Some? ==> later.value == v
  }

  /** What a key looks up to, by what the field at `at` writes under it. */
  lemma LookupBy(fields: seq<Field>, at: nat, parse: ObjectParser, k: string)
    requires at < |fields|
    ensures var own, found := Writes(fields[at], parse, k), Lookup(InsertFields(map[], fields, parse), k);
            if own.Some? then found.Some? && (found == own <==> Undisturbed(fields, at, parse, k, own.value))
            else
              && found == LastWrite(Others(fields, at), parse, k)
              && (found.None? <==> OnlyAt(fields, at, parse, k))
  {
    hide Writes, InsertFields, Inserts, LastWrite, OnlyAt;
    var before, own, after := fields[..at], [fields[at]], fields[at + 1..];
    assert fields == before + (own + after);
    FieldsLookup(map[], fields, parse, k);
    LastWriteJoin(before, own + after, parse, k);
    LastWriteJoin(own, after, parse, k);
    LastWriteJoin(before, after, parse, k);
    LastWriteOne(fields[at], parse, k);
    EmptyLookup(k);
    OthersOnly(fields, at, parse, k);
  }

  lemma EmptyLookup(k: string)
    ensures Lookup(map[], k) == None
  {
  }

  lemma OthersOnly(fields: seq<Field>, at: nat, parse: ObjectParser, k: string)
    requires at < |fields|
    ensures LastWrite(Others(fields, at), parse, k).None? <==> OnlyAt(fields, at, parse, k)
  {
    hide Inserts, LastWrite;
    var others := Others(fields, at);
    NoWrite(others, parse, k);
    assert forall i :: 0 <= i < at ==> fields[i] == others[i];
    assert forall i :: at <= i < |others| ==> fields[i + 1] == others[i];
    if OnlyAt(fields, at, parse, k) {
      forall i | 0 <= i < |others|
        ensures !Inserts(others[i], parse, k)
      {
        assert !Inserts(fields[if i < at then i else i + 1], parse, k);
      }
    } else {
      var i :| 0 <= i < |fields| && i != at && Inserts(fields[i], parse, k);
      assert Inserts(others[if i < at then i else i - 1], parse, k);
    }
  }

  lemma LastWriteOne(f: Field, parse: ObjectParser, k: string)
    ensures LastWrite([f], parse, k) == Writes(f, parse, k)
  {
    hide Writes;
    assert [f][1..] == [];
  }

  // ---------------------------------------------------------------- reading message attributes

  datatype Value = Value(dataType: string, stringValue: Option<string>, binaryValue: Option<string>)

  lemma {:induction false} NamesAreCounted(params: Params, n: nat)
    requires forall i :: 1 <= i <= n ==> Key(i, Name) in params
    ensures n <= |params|
  {
    hide Key;
    if n > 0 {
      var fewer := params - {Key(n, Name)};
      forall i | 1 <= i <= n - 1
        ensures Key(i, Name) in fewer
      {
        if Key(i, Name) == Key(n, Name) {
          KeysAreDistinct(i, Name, n, Name);
        }
      }
      NamesAreCounted(fewer, n - 1);
      assert fewer.Keys == params.Keys - {Key(n, Name)};
      assert |fewer| == |fewer.Keys| && |params| == |params.Keys|;
    }
  }

  /** Reading from `index` on, up to the first index without a name or a data type. */
  function ReadFrom(params: Params, index: nat, found: map<string, Value>): map<string, Value>
    requires index >= 1 && forall i :: 1 <= i < index ==> Key(i, Name) in params
    decreases |params| + 1 - index
  {
    var name, dataType := Lookup(params, Key(index, Name)), Lookup(params, Key(index, DataType));
    if name.None? || dataType.None? then found
    else
      NamesAreCounted(params, index);
      ReadFrom(params, index + 1, found[name.value := Value(dataType.value,
        Lookup(params, Key(index, StringValue)), Lookup(params, Key(index, BinaryValue)))])
  }

  /** The members up to the first one without a data type. */
  function Typed(members: seq<Member>): (r: seq<Member>)
    ensures |r| <= |members|
  {
    if members == [] || members[0].dataType.None? then [] else [members[0]] + Typed(members[1..])
  }

  function AsMap(members: seq<Member>, found: map<string, Value>): map<string, Value>
    requires forall m :: m in members ==> m.dataType.Some?
  {
    if members == [] then found
    else
      var m := members[0];
      AsMap(members[1..], found[m.name := Value(m.dataType.value, m.stringValue, m.binaryValue)])
  }

  lemma {:induction false} TypedHaveTypes(members: seq<Member>)
    ensures forall m :: m in Typed(members) ==> m in members && m.dataType.Some?
    ensures Typed(members) == members <==> forall m :: m in members ==> m.dataType.Some?
  {
    if members != [] {
      TypedHaveTypes(members[1..]);
      assert members == [members[0]] + members[1..];
    }
  }

  /** The list of members that is read from `index` on: up to the first index without a name or a
      data type. */
  function ReadList(params: Params, index: nat): (r: seq<Member>)
    requires index >= 1 && forall i :: 1 <= i < index ==> Key(i, Name) in params
    ensures forall m :: m in r ==> m.dataType.Some?
    decreases |params| + 1 - index
  {
    var name, dataType := Lookup(params, Key(index, Name)), Lookup(params, Key(index, DataType));
    if name.None? || dataType.None? then []
    else
      NamesAreCounted(params, index);
      [Member(name.value, dataType, Lookup(params, Key(index, StringValue)), Lookup(params, Key(index, BinaryValue)))]
      + ReadList(params, index + 1)
  }

  /** The map that is read is the list that is read, later names replacing equal earlier ones. */
  lemma {:induction false} ReadIsList(params: Params, index: nat, found: map<string, Value>)
    requires index >= 1 && forall i :: 1 <= i < index ==> Key(i, Name) in params
    ensures ReadFrom(params, index, found) == AsMap(ReadList(params, index), found)
    decreases |params| + 1 - index
  {
    hide Key, Lookup;
    ReadStep(params, index, found);
    ListStep(params, index);
    var list := ReadList(params, index);
    if list != [] {
      NamesAreCounted(params, index);
      var m := list[0];
      ReadIsList(params, index + 1, found[m.name := Value(m.dataType.value, m.stringValue, m.binaryValue)]);
    }
  }

  /** The parameters have the n-th member of the list under its keys. */
  ghost predicate Under(params: Params, list: seq<Member>, n: nat)
    requires 1 <= n <= |list|
  {
    forall part :: Lookup(params, Key(n, part)) == Held(list[n - 1], part)
  }

  predicate Stops(params: Params, index: nat) {
    Lookup(params, Key(index, Name)).None? || Lookup(params, Key(index, DataType)).None?
  }

  lemma ListStep(params: Params, index: nat)
    requires index >= 1 && forall i :: 1 <= i < index ==> Key(i, Name) in params
    ensures var list := ReadList(params, index);
            if Stops(params, index) then list == []
            else
              && Key(index, Name) in params
              && list != [] && list[1..] == ReadList(params, index + 1)
              && list[0] == Member(Lookup(params, Key(index, Name)).value, Lookup(params, Key(index, DataType)),
                                   Lookup(params, Key(index, StringValue)), Lookup(params, Key(index, BinaryValue)))
  {
    hide Key;
  }

  /** What is read from `index` on is the rest of a list exactly when its members from there are
      under their indices and the index after the last stops the reading. */
  lemma {:induction false} ListIff(params: Params, list: seq<Member>, index: nat)
    requires 1 <= index <= |list| + 1 && forall i :: 1 <= i < index ==> Key(i, Name) in params
    requires forall m :: m in list ==> m.dataType.Some?
    ensures ReadList(params, index) == list[index - 1..] <==>
              (forall n :: index <= n <= |list| ==> Under(params, list, n)) && Stops(params, |list| + 1)
    decreases |list| - index
  {
    hide Key, Lookup, ReadList, Stops, Under;
    ListStep(params, index);
    if index <= |list| {
      UnderIff(params, list, index);
      var rest := list[index - 1..];
      assert rest[0] == list[index - 1] && rest[1..] == list[index..];
      if Under(params, list, index) {
        ListIff(params, list, index + 1);
        var read := ReadList(params, index);
        assert rest == [rest[0]] + rest[1..] && read == [read[0]] + read[1..];
      }
    }
  }

  lemma UnderIff(params: Params, list: seq<Member>, n: nat)
    requires 1 <= n <= |list| && list[n - 1].dataType.Some?
    ensures Under(params, list, n) <==>
              !Stops(params, n)
              && list[n - 1] == Member(Lookup(params, Key(n, Name)).value, Lookup(params, Key(n, DataType)),
                                       Lookup(params, Key(n, StringValue)), Lookup(params, Key(n, BinaryValue)))
  {
    hide Key, Lookup;
    var m := list[n - 1];
    if Under(params, list, n) {
      assert Lookup(params, Key(n, Name)) == Held(m, Name);
      assert Lookup(params, Key(n, DataType)) == Held(m, DataType);
      assert Lookup(params, Key(n, StringValue)) == Held(m, StringValue);
      assert Lookup(params, Key(n, BinaryValue)) == Held(m, BinaryValue);
    }
  }

  lemma ReadStep(params: Params, index: nat, found: map<string, Value>)
    requires index >= 1 && forall i :: 1 <= i < index ==> Key(i, Name) in params
    ensures var name, dataType := Lookup(params, Key(index, Name)), Lookup(params, Key(index, DataType));
            if name.None? || dataType.None? then ReadFrom(params, index, found) == found
            else
              && Key(index, Name) in params
              && ReadFrom(params, index, found) == ReadFrom(params, index + 1, found[name.value := Value(dataType.value,
                   Lookup(params, Key(index, StringValue)), Lookup(params, Key(index, BinaryValue)))])
  {
    hide Key;
  }

  /** The part stays as the request has it: one that is there is not replaced, and one that is
      missing is not added. */
  ghost predicate PartKept(fields: seq<Field>, at: nat, parse: ObjectParser, members: seq<Member>, n: nat, part: Part)
    requires at < |fields| && 1 <= n <= |members|
  {
    var held := Held(members[n - 1], part);
    if held.Some? then Undisturbed(fields, at, parse, Key(n, part), held.value) else OnlyAt(fields, at, parse, Key(n, part))
  }

  ghost predicate MemberKept(fields: seq<Field>, at: nat, parse: ObjectParser, members: seq<Member>, n: nat)
    requires at < |fields| && 1 <= n <= |members|
  {
    forall part :: PartKept(fields, at, parse, members, n, part)
  }

  /** No other field continues the list of typed members: none gives the next index a data type,
      or none gives it a name and the request has none. */
  ghost predicate EndKept(fields: seq<Field>, at: nat, parse: ObjectParser, members: seq<Member>)
    requires at < |fields|
  {
    var next := |Typed(members)| + 1;
    OnlyAt(fields, at, parse, Key(next, DataType)) || (next > |members| && OnlyAt(fields, at, parse, Key(next, Name)))
  }

  lemma OwnWrites(f: Field, parse: ObjectParser, index: nat, part: Part)
    requires f.key == "MessageAttributes" && f.value.Object?
    ensures Writes(f, parse, Key(index, part))
         == if 1 <= index <= |f.value.members| then Held(f.value.members[index - 1], part) else None
  {
    hide InsertMembers, Key, Held;
    MembersLookup(map[], f.value.members, 1, index, part);
  }

  lemma PartIff(fields: seq<Field>, at: nat, parse: ObjectParser, n: nat, part: Part)
    requires at < |fields| && fields[at].key == "MessageAttributes" && fields[at].value.Object?
    requires 1 <= n <= |fields[at].value.members|
    ensures var members, params := fields[at].value.members, InsertFields(map[], fields, parse);
            Lookup(params, Key(n, part)) == Held(members[n - 1], part) <==> PartKept(fields, at, parse, members, n, part)
  {
    hide InsertFields, Key, Held, Writes, OnlyAt, Undisturbed, Others;
    OwnWrites(fields[at], parse, n, part);
    LookupBy(fields, at, parse, Key(n, part));
  }

  lemma UnderKept(fields: seq<Field>, at: nat, parse: ObjectParser, list: seq<Member>, n: nat)
    requires at < |fields| && fields[at].key == "MessageAttributes" && fields[at].value.Object?
    requires list <= fields[at].value.members && 1 <= n <= |list|
    ensures Under(InsertFields(map[], fields, parse), list, n) <==>
              MemberKept(fields, at, parse, fields[at].value.members, n)
  {
    hide InsertFields, Key, Held, PartKept, Lookup;
    var members, params := fields[at].value.members, InsertFields(map[], fields, parse);
    forall part
      ensures Lookup(params, Key(n, part)) == Held(list[n - 1], part) <==> PartKept(fields, at, parse, members, n, part)
    {
      PartIff(fields, at, parse, n, part);
    }
  }

  lemma {:induction false} TypedIsPrefix(members: seq<Member>)
    ensures |Typed(members)| <= |members| && Typed(members) == members[..|Typed(members)|]
    ensures |Typed(members)| < |members| ==> members[|Typed(members)|].dataType.None?
  {
    if members != [] && members[0].dataType.Some? {
      TypedIsPrefix(members[1..]);
    }
  }

  lemma StopsKept(fields: seq<Field>, at: nat, parse: ObjectParser)
    requires at < |fields| && fields[at].key == "MessageAttributes" && fields[at].value.Object?
    ensures var members := fields[at].value.members;
            Stops(InsertFields(map[], fields, parse), |Typed(members)| + 1) <==> EndKept(fields, at, parse, members)
  {
    hide InsertFields, Key, Writes, OnlyAt, Undisturbed, Others, Typed, Lookup;
    var members := fields[at].value.members;
    var next := |Typed(members)| + 1;
    TypedIsPrefix(members);
    OwnWrites(fields[at], parse, next, Name);
    OwnWrites(fields[at], parse, next, DataType);
    LookupBy(fields, at, parse, Key(next, Name));
    LookupBy(fields, at, parse, Key(next, DataType));
  }

  /** Reading the parameters of a request gives back its message attributes, up to the first one
      without a string data type, exactly when no other field replaces or adds a part of one of
      them and none continues the list. So all of them come back exactly when besides each has a
      data type. The list read is the map read, later names replacing equal earlier ones. */
  lemma AttributesRoundTrip(fields: seq<Field>, at: nat, parse: ObjectParser)
    requires at < |fields| && fields[at].key == "MessageAttributes" && fields[at].value.Object?
    ensures var members, params := fields[at].value.members, InsertFields(map[], fields, parse);
            var kept := EndKept(fields, at, parse, members)
                        && forall n :: 1 <= n <= |Typed(members)| ==> MemberKept(fields, at, parse, members, n);
            && ReadFrom(params, 1, map[]) == AsMap(ReadList(params, 1), map[])
            && (ReadList(params, 1) == Typed(members) <==> kept)
            && (ReadList(params, 1) == members <==> kept && forall m :: m in members ==> m.dataType.Some?)
  {
    hide InsertFields, Key, Lookup, Held, ReadFrom, ReadList, AsMap, MemberKept, EndKept, Typed, Under, Stops;
    var members, params := fields[at].value.members, InsertFields(map[], fields, parse);
    var typed := Typed(members);
    TypedHaveTypes(members);
    TypedIsPrefix(members);
    ReadIsList(params, 1, map[]);
    ListIff(params, typed, 1);
    StopsKept(fields, at, parse);
    forall n | 1 <= n <= |typed|
      ensures Under(params, typed, n) <==> MemberKept(fields, at, parse, members, n)
    {
      UnderKept(fields, at, parse, typed, n);
    }
    assert typed[0..] == typed;
  }

  /** A copied key is not told from an expanded one: an object "Attributes" with the keys of the
      next index adds a message attribute that the request does not have. */
  lemma CopiedKeysIntrude(members: seq<Member>, name: string, dataType: string, json: string, parse: ObjectParser)
    requires (forall m :: m in members ==> m.dataType.Some?)
    ensures var next := |members| + 1;
            var copied := Object([], [Pair(Key(next, Name), name), Pair(Key(next, DataType), dataType)], json);
            var fields := [Field("Attributes", copied), Field("MessageAttributes", Object(members, [], json))];
            var added := members + [Member(name, Some(dataType), None, None)];
            && (forall m :: m in added ==> m.dataType.Some?)
            && ReadFrom(InsertFields(map[], fields, parse), 1, map[]) == AsMap(added, map[])
  {
    hide InsertMembers, Key, Lookup, Held, ReadList, Under, Stops;
    var next := |members| + 1;
    var pairs := [Pair(Key(next, Name), name), Pair(Key(next, DataType), dataType)];
    var fields := [Field("Attributes", Object([], pairs, json)), Field("MessageAttributes", Object(members, [], json))];
    var first: Params := map[Key(next, Name) := name][Key(next, DataType) := dataType];
    var params := InsertMembers(first, members, 1);
    TwoPairs(pairs);
    TwoFields(fields, parse);
    var extra := Member(name, Some(dataType), None, None);
    var added := members + [extra];
    forall n | 1 <= n <= |added|
      ensures Under(params, added, n)
    {
      AddedUnder(first, members, extra, n);
    }
    AddedStops(first, members, extra);
    ListIff(params, added, 1);
    assert added[0..] == added;
    ReadIsList(params, 1, map[]);
  }

  lemma AddedUnder(first: Params, members: seq<Member>, extra: Member, n: nat)
    requires extra.dataType.Some? && extra.stringValue.None? && extra.binaryValue.None?
    requires first == map[Key(|members| + 1, Name) := extra.name][Key(|members| + 1, DataType) := extra.dataType.value]
    requires 1 <= n <= |members| + 1
    ensures Under(InsertMembers(first, members, 1), members + [extra], n)
  {
    hide InsertMembers, Key, Lookup, Held;
    forall part
      ensures Lookup(InsertMembers(first, members, 1), Key(n, part)) == Held((members + [extra])[n - 1], part)
    {
      MembersLookup(first, members, 1, n, part);
      ExtraLookup(first, extra, |members| + 1, n, part);
    }
  }

  lemma AddedStops(first: Params, members: seq<Member>, extra: Member)
    requires extra.dataType.Some? && extra.stringValue.None? && extra.binaryValue.None?
    requires first == map[Key(|members| + 1, Name) := extra.name][Key(|members| + 1, DataType) := extra.dataType.value]
    ensures Stops(InsertMembers(first, members, 1), |members| + 2)
  {
    hide InsertMembers, Key, Lookup, Held;
    MembersLookup(first, members, 1, |members| + 2, Name);
    ExtraLookup(first, extra, |members| + 1, |members| + 2, Name);
  }

  lemma ExtraLookup(params: Params, m: Member, next: nat, i: nat, part: Part)
    requires m.dataType.Some? && m.stringValue.None? && m.binaryValue.None?
    requires params == map[Key(next, Name) := m.name][Key(next, DataType) := m.dataType.value]
    ensures Lookup(params, Key(i, part)) == if i == next then Held(m, part) else None
  {
    hide Key;
    if Key(i, part) == Key(next, Name) {
      KeysAreDistinct(i, part, next, Name);
    } else if Key(i, part) == Key(next, DataType) {
      KeysAreDistinct(i, part, next, DataType);
    }
    if Key(next, Name) == Key(next, DataType) {
      KeysAreDistinct(next, Name, next, DataType);
    }
  }

  lemma TwoPairs(pairs: seq<Pair>)
    requires |pairs| == 2
    ensures InsertPairs(map[], pairs) == map[pairs[0].key := pairs[0].value][pairs[1].key := pairs[1].value]
  {
    var first: Params := map[pairs[0].key := pairs[0].value];
    assert pairs[1..][0] == pairs[1] && pairs[1..][1..] == [];
    assert InsertPairs(first, pairs[1..]) == first[pairs[1].key := pairs[1].value];
  }

  lemma TwoFields(fields: seq<Field>, parse: ObjectParser)
    requires |fields| == 2
    ensures InsertFields(map[], fields, parse) == InsertField(InsertField(map[], fields[0], parse), fields[1], parse)
  {
    hide InsertField;
    assert fields[1..][0] == fields[1] && fields[1..][1..] == [];
    assert InsertFields(InsertField(map[], fields[0], parse), fields[1..], parse)
        == InsertField(InsertField(map[], fields[0], parse), fields[1], parse);
  }

  // ---------------------------------------------------------------- reading a list of names

  lemma {:induction false} ItemsAreCounted(params: Params, key: string, n: nat)
    requires forall i :: 1 <= i <= n ==> Numbered(key, i) in params
    ensures n <= |params|
  {
    hide Numbered;
    if n > 0 {
      var fewer := params - {Numbered(key, n)};
      forall i | 1 <= i <= n - 1
        ensures Numbered(key, i) in fewer
      {
        if Numbered(key, i) == Numbered(key, n) {
          NumberedAreDistinct(key, i, n);
        }
      }
      ItemsAreCounted(fewer, key, n - 1);
      assert fewer.Keys == params.Keys - {Numbered(key, n)};
      assert |fewer| == |fewer.Keys| && |params| == |params.Keys|;
    }
  }

  function ReadItems(params: Params, key: string, index: nat): seq<string>
    requires index >= 1 && forall i :: 1 <= i < index ==> Numbered(key, i) in params
    decreases |params| + 1 - index
  {
    var item := Lookup(params, Numbered(key, index));
    if item.None? then []
    else
      ItemsAreCounted(params, key, index);
      [item.value] + ReadItems(params, key, index + 1)
  }

  lemma {:induction false} ItemsLookup(params: Params, key: string, items: seq<string>, index: nat, i: nat)
    ensures Lookup(InsertItems(params, key, items, index), Numbered(key, i))
         == if index <= i < index + |items| then Some(items[i - index]) else Lookup(params, Numbered(key, i))
    decreases |items|
  {
    hide Numbered;
    if items != [] {
      ItemsLookup(params[Numbered(key, index) := items[0]], key, items[1..], index + 1, i);
      if Numbered(key, i) == Numbered(key, index) {
        NumberedAreDistinct(key, i, index);
      }
    }
  }

  /** The n-th item is under its number. */
  predicate ItemUnder(params: Params, key: string, items: seq<string>, n: nat)
    requires 1 <= n <= |items|
  {
    Lookup(params, Numbered(key, n)) == Some(items[n - 1])
  }

  /** What is read from `index` on is the rest of a list exactly when its items from there are
      under their numbers and the number after the last is free. */
  lemma {:induction false} ItemsIff(params: Params, key: string, items: seq<string>, index: nat)
    requires 1 <= index <= |items| + 1 && forall i :: 1 <= i < index ==> Numbered(key, i) in params
    ensures ReadItems(params, key, index) == items[index - 1..] <==>
              (forall n :: index <= n <= |items| ==> ItemUnder(params, key, items, n))
              && Lookup(params, Numbered(key, |items| + 1)).None?
    decreases |items| - index
  {
    hide Numbered;
    if index <= |items| {
      var rest := items[index - 1..];
      assert rest[0] == items[index - 1] && rest[1..] == items[index..];
      if ItemUnder(params, key, items, index) {
        ItemsIff(params, key, items, index + 1);
        var read := ReadItems(params, key, index);
        assert read == [items[index - 1]] + ReadItems(params, key, index + 1) && read[1..] == ReadItems(params, key, index + 1);
        assert rest == [rest[0]] + rest[1..];
      }
    }
  }

  /** The names asked for: a JSON array given as text (`decode` stands for the JSON parser) or
      the numbered keys. */
  function ReadNames(params: Params, decode: string -> Option<seq<string>>): seq<string> {
    if "AttributeNames" in params && decode(params["AttributeNames"]).Some?
    then decode(params["AttributeNames"]).value
    else ReadItems(params, "AttributeName", 1)
  }

  /** No later field replaces the n-th name. */
  ghost predicate NameKept(fields: seq<Field>, at: nat, parse: ObjectParser, items: seq<string>, n: nat)
    requires at < |fields| && 1 <= n <= |items|
  {
    Undisturbed(fields, at, parse, Numbered("AttributeName", n), items[n - 1])
  }

  /** No later field replaces a numbered name and no other one adds a next. */
  ghost predicate NamesKept(fields: seq<Field>, at: nat, parse: ObjectParser, items: seq<string>)
    requires at < |fields|
  {
    && OnlyAt(fields, at, parse, Numbered("AttributeName", |items| + 1))
    && forall n :: 1 <= n <= |items| ==> NameKept(fields, at, parse, items, n)
  }

  lemma OwnItems(f: Field, parse: ObjectParser, n: nat)
    requires f.key == "AttributeNames" && f.value.Array?
    ensures Writes(f, parse, Numbered("AttributeName", n))
         == if 1 <= n <= |f.value.items| then Some(f.value.items[n - 1]) else None
  {
    hide InsertItems, Numbered, Singular;
    SingularOfNames();
    ItemsLookup(map[], "AttributeName", f.value.items, 1, n);
  }

  lemma ItemIff(fields: seq<Field>, at: nat, parse: ObjectParser, n: nat)
    requires at < |fields| && fields[at].key == "AttributeNames" && fields[at].value.Array?
    requires 1 <= n <= |fields[at].value.items|
    ensures var items := fields[at].value.items;
            ItemUnder(InsertFields(map[], fields, parse), "AttributeName", items, n) <==> NameKept(fields, at, parse, items, n)
  {
    hide OnlyAt, Undisturbed, Others, Writes, InsertFields, Numbered, Lookup;
    OwnItems(fields[at], parse, n);
    LookupBy(fields, at, parse, Numbered("AttributeName", n));
  }

  lemma NextIff(fields: seq<Field>, at: nat, parse: ObjectParser)
    requires at < |fields| && fields[at].key == "AttributeNames" && fields[at].value.Array?
    ensures var k := Numbered("AttributeName", |fields[at].value.items| + 1);
            Lookup(InsertFields(map[], fields, parse), k).None? <==> OnlyAt(fields, at, parse, k)
  {
    hide OnlyAt, Undisturbed, Others, Writes, InsertFields, Numbered, Lookup;
    var next := |fields[at].value.items| + 1;
    OwnItems(fields[at], parse, next);
    LookupBy(fields, at, parse, Numbered("AttributeName", next));
  }

  lemma ItemsKept(fields: seq<Field>, at: nat, parse: ObjectParser)
    requires at < |fields| && fields[at].key == "AttributeNames" && fields[at].value.Array?
    ensures var items := fields[at].value.items;
            ReadItems(InsertFields(map[], fields, parse), "AttributeName", 1) == items <==> NamesKept(fields, at, parse, items)
  {
    hide OnlyAt, InsertFields, ReadItems, Numbered, Lookup, ItemUnder, NameKept;
    var items, params := fields[at].value.items, InsertFields(map[], fields, parse);
    ItemsIff(params, "AttributeName", items, 1);
    assert items[0..] == items;
    NextIff(fields, at, parse);
    forall n | 1 <= n <= |items|
      ensures ItemUnder(params, "AttributeName", items, n) <==> NameKept(fields, at, parse, items, n)
    {
      ItemIff(fields, at, parse, n);
    }
  }

  /** An array of attribute names is read back as the same list exactly when another field leaves a
      list under the name of the list itself and it is the same, or none does, no later field
      replaces a numbered name and no other field adds the next. */
  lemma NamesRoundTrip(fields: seq<Field>, at: nat, parse: ObjectParser, decode: string -> Option<seq<string>>)
    requires at < |fields| && fields[at].key == "AttributeNames" && fields[at].value.Array?
    ensures var items, text := fields[at].value.items, LastWrite(Others(fields, at), parse, "AttributeNames");
            ReadNames(InsertFields(map[], fields, parse), decode) == items <==>
              if text.Some? && decode(text.value).Some? then decode(text.value).value == items
              else NamesKept(fields, at, parse, items)
  {
    hide OnlyAt, Undisturbed, Others, Writes, LastWrite, InsertFields, ReadItems, NamesKept;
    ItemsKept(fields, at, parse);
    ArrayWritesNoText(fields[at], parse);
    LookupBy(fields, at, parse, "AttributeNames");
  }

  /** A copied name beyond the next number changes nothing. */
  lemma CopiedNameBeyondIsHarmless(items: seq<string>, n: nat, name: string, json: string, parse: ObjectParser,
                                   decode: string -> Option<seq<string>>)
    requires n > |items| + 1
    ensures var fields := [Field("AttributeNames", Array(items, json)),
                           Field("Attributes", Object([], [Pair(Numbered("AttributeName", n), name)], json))];
            ReadNames(InsertFields(map[], fields, parse), decode) == items
  {
    hide InsertItems, ReadItems, Numbered, InsertFields, InsertField, LastWrite, NamesKept;
    var copied := Field("Attributes", Object([], [Pair(Numbered("AttributeName", n), name)], json));
    var fields := [Field("AttributeNames", Array(items, json)), copied];
    NamesRoundTrip(fields, 0, parse, decode);
    assert Others(fields, 0) == [copied] && fields[1..] == [copied];
    LastWriteOne(copied, parse, "AttributeNames");
    OnePairWrites(copied, parse, "AttributeNames");
    NumberedStarts("AttributeName", n);
    assert NamesKept(fields, 0, parse, items) by {
      BeyondIsKept(items, n, copied, fields, parse);
    }
  }

  lemma OnePairWrites(f: Field, parse: ObjectParser, k: string)
    requires f.key == "Attributes" && f.value.Object? && |f.value.pairs| == 1
    ensures Writes(f, parse, k) == if f.value.pairs[0].key == k then Some(f.value.pairs[0].value) else None
  {
    var pairs := f.value.pairs;
    assert pairs[1..] == [];
    assert InsertPairs(map[], pairs) == map[pairs[0].key := pairs[0].value];
  }

  lemma BeyondIsKept(items: seq<string>, n: nat, copied: Field, fields: seq<Field>, parse: ObjectParser)
    requires n > |items| + 1 && |fields| == 2 && fields[1] == copied
    requires copied.key == "Attributes" && copied.value.Object? && |copied.value.pairs| == 1
    requires copied.value.pairs[0].key == Numbered("AttributeName", n)
    ensures NamesKept(fields, 0, parse, items)
  {
    hide Numbered, LastWrite, Writes, InsertPairs;
    assert fields[1..] == [copied];
    forall i | 1 <= i <= |items|
      ensures NameKept(fields, 0, parse, items, i)
    {
      var k := Numbered("AttributeName", i);
      LastWriteOne(copied, parse, k);
      OnePairWrites(copied, parse, k);
      if k == Numbered("AttributeName", n) {
        NumberedAreDistinct("AttributeName", i, n);
      }
    }
    if Numbered("AttributeName", |items| + 1) == Numbered("AttributeName", n) {
      NumberedAreDistinct("AttributeName", |items| + 1, n);
    }
  }

  lemma SingularOfNames()
    ensures Singular("AttributeNames") == "AttributeName"
  {
  }

  lemma ArrayWritesNoText(f: Field, parse: ObjectParser)
    requires f.key == "AttributeNames" && f.value.Array?
    ensures Writes(f, parse, "AttributeNames") == None
  {
    hide Numbered, InsertItems, Singular;
    SingularOfNames();
    forall n
      ensures "AttributeNames" != Numbered("AttributeName", n)
    {
      NumberedStarts("AttributeName", n);
    }
    ItemsInsert(map[], "AttributeName", f.value.items, 1, "AttributeNames");
  }

  lemma NumberedStarts(key: string, i: nat)
    ensures key <= Numbered(key, i) && Numbered(key, i)[|key|] == '.'
  {
  }

  /** A copied "AttributeNames" hides the list: whenever its text reads as a list, that list is
      what is read, whatever the array of the request says. */
  lemma CopiedNamesHideTheList(items: seq<string>, text: string, json: string, parse: ObjectParser,
                               decode: string -> Option<seq<string>>)
    requires decode(text).Some?
    ensures var fields := [Field("AttributeNames", Array(items, json)),
                           Field("Attributes", Object([], [Pair("AttributeNames", text)], json))];
            ReadNames(InsertFields(map[], fields, parse), decode) == decode(text).value
  {
    hide InsertItems, ReadItems;
    var fields := [Field("AttributeNames", Array(items, json)),
                   Field("Attributes", Object([], [Pair("AttributeNames", text)], json))];
    TwoFields(fields, parse);
    var first := InsertField(map[], fields[0], parse);
    assert InsertPairs(first, fields[1].value.pairs) == first["AttributeNames" := text];
  }

  // ---------------------------------------------------------------- what requests look like

  lemma NumberIsSpelled(index: nat)
    ensures Numbered("AttributeName", index) == "AttributeName." + Decimal(index)
  {
    hide Decimal;
    assert "AttributeName" + "." == "AttributeName.";
    assert "AttributeName" + ("." + Decimal(index)) == ("AttributeName" + ".") + Decimal(index);
  }

  lemma ItemIsSpelled(key: string, index: nat)
    ensures Numbered(key, index) == key + "." + Decimal(index)
  {
    hide Decimal;
  }

  /** The parameters have the parts of a message attribute under its keys, and nothing under those of
      the parts that it lacks. */
  predicate AttributeGiven(params: Params, m: Member, index: nat) {
    && Lookup(params, "MessageAttribute." + Decimal(index) + ".Name") == Some(m.name)
    && Lookup(params, "MessageAttribute." + Decimal(index) + ".Value.DataType") == m.dataType
    && Lookup(params, "MessageAttribute." + Decimal(index) + ".Value.StringValue") == m.stringValue
    && Lookup(params, "MessageAttribute." + Decimal(index) + ".Value.BinaryValue") == m.binaryValue
  }

  lemma GivenIsUnder(params: Params, list: seq<Member>, n: nat)
    requires 1 <= n <= |list|
    ensures AttributeGiven(params, list[n - 1], n) <==> Under(params, list, n)
  {
    hide Decimal, Key, Lookup;
    KeyIsSpelled(n, Name);
    KeyIsSpelled(n, DataType);
    KeyIsSpelled(n, StringValue);
    KeyIsSpelled(n, BinaryValue);
    if Under(params, list, n) {
      assert Lookup(params, Key(n, Name)) == Held(list[n - 1], Name);
      assert Lookup(params, Key(n, DataType)) == Held(list[n - 1], DataType);
      assert Lookup(params, Key(n, StringValue)) == Held(list[n - 1], StringValue);
      assert Lookup(params, Key(n, BinaryValue)) == Held(list[n - 1], BinaryValue);
    }
    if AttributeGiven(params, list[n - 1], n) {
      forall part
        ensures Lookup(params, Key(n, part)) == Held(list[n - 1], part)
      {
        match part {
          case Name =>
          case DataType =>
          case StringValue =>
          case BinaryValue =>
        }
      }
    }
  }

  /** A form request is read by its keys: the attributes that are under the numbers from one on, up
      to the first number without a name. */
  lemma FormAttributesAreRead(params: Params, list: seq<Member>)
    requires forall i :: 0 <= i < |list| ==> list[i].dataType.Some? && AttributeGiven(params, list[i], i + 1)
    requires "MessageAttribute." + Decimal(|list| + 1) + ".Name" !in params
    ensures ReadList(params, 1) == list
  {
    hide Decimal, Key, AttributeGiven, Under, ReadList;
    forall n | 1 <= n <= |list|
      ensures Under(params, list, n)
    {
      assert AttributeGiven(params, list[n - 1], n - 1 + 1);
      GivenIsUnder(params, list, n);
    }
    KeyIsSpelled(|list| + 1, Name);
    ListIff(params, list, 1);
    assert list[0..] == list;
  }

  /** And the names that are under the numbers from one on, up to the first number that is free. */
  lemma FormNamesAreRead(params: Params, names: seq<string>, decode: string -> Option<seq<string>>)
    requires forall i :: 0 <= i < |names| ==> Lookup(params, "AttributeName." + Decimal(i + 1)) == Some(names[i])
    requires "AttributeName." + Decimal(|names| + 1) !in params && "AttributeNames" !in params
    ensures ReadNames(params, decode) == names
  {
    hide Decimal, ReadItems, Numbered;
    forall n | 1 <= n <= |names|
      ensures ItemUnder(params, "AttributeName", names, n)
    {
      assert Lookup(params, "AttributeName." + Decimal(n - 1 + 1)) == Some(names[n - 1]);
      NumberIsSpelled(n);
    }
    NumberIsSpelled(|names| + 1);
    ItemsIff(params, "AttributeName", names, 1);
    assert names[0..] == names;
  }

  /** What one field writes, by its value: a text or literal stands under its own key, null under
      none; the items of an array under the key without a trailing s, numbered from one, but a batch
      of entries stays as it is; the parts of message attributes under their numbered keys. */
  lemma FieldByValue(f: Field, parse: ObjectParser)
    requires f.key != "Attributes"
    ensures var written := InsertField(map[], f, parse);
            match f.value
            case Str(text) => written == map[f.key := text]
            case Literal(text) => written == map[f.key := text]
            case Null => written == map[]
            case Array(items, json) =>
              if f.key == "Entries" then written == map["Entries" := json]
              else
                forall i :: 0 <= i < |items| ==>
                  Lookup(written, (if f.key != [] && f.key[|f.key| - 1] == 's' then f.key[..|f.key| - 1] else f.key)
                                  + "." + Decimal(i + 1)) == Some(items[i])
            case Object(members, _, json) =>
              if f.key != "MessageAttributes" then written == map[f.key := json]
              else forall i :: 0 <= i < |members| ==> AttributeGiven(written, members[i], i + 1)
  {
    hide Decimal, Key, Numbered, InsertItems, InsertMembers, AttributeGiven;
    var written := InsertField(map[], f, parse);
    if f.value.Array? && f.key != "Entries" {
      forall i | 0 <= i < |f.value.items|
        ensures Lookup(written, Singular(f.key) + "." + Decimal(i + 1)) == Some(f.value.items[i])
      {
        ItemIsSpelled(Singular(f.key), i + 1);
        ItemsLookup(map[], Singular(f.key), f.value.items, 1, i + 1);
      }
    } else if f.value.Object? && f.key == "MessageAttributes" {
      forall i | 0 <= i < |f.value.members|
        ensures AttributeGiven(written, f.value.members[i], i + 1)
      {
        MemberIsGiven(f.value.members, i);
      }
    }
  }

  lemma MemberIsGiven(members: seq<Member>, i: nat)
    requires i < |members|
    ensures AttributeGiven(InsertMembers(map[], members, 1), members[i], i + 1)
  {
    hide Decimal, Key, InsertMembers, Under, AttributeGiven;
    var written := InsertMembers(map[], members, 1);
    forall part
      ensures Lookup(written, Key(i + 1, part)) == Held(members[i], part)
    {
      MembersLookup(map[], members, 1, i + 1, part);
    }
    IsUnder(written, members, i + 1);
    GivenIsUnder(written, members, i + 1);
  }

  lemma IsUnder(params: Params, list: seq<Member>, n: nat)
    requires 1 <= n <= |list| && forall part :: Lookup(params, Key(n, part)) == Held(list[n - 1], part)
    ensures Under(params, list, n)
  {
    hide Key;
  }

  // ---------------------------------------------------------------- the loops of the source

  method ExpandMembers(start: Params, members: seq<Member>) returns (params: Params)
    ensures params == InsertMembers(start, members, 1)
  {
    hide InsertMember;
    params := start;
    var index := 1;
    assert members[0..] == members;
    for k := 0 to |members|
      invariant index == k + 1
      invariant InsertMembers(params, members[k..], index) == InsertMembers(start, members, 1)
    {
      assert members[k..][1..] == members[k + 1..];
      params := InsertMember(params, members[k], index);
      index := index + 1;
    }
  }

  method CopyPairs(start: Params, pairs: seq<Pair>) returns (params: Params)
    ensures params == InsertPairs(start, pairs)
  {
    params := start;
    assert pairs[0..] == pairs;
    for k := 0 to |pairs|
      invariant InsertPairs(params, pairs[k..]) == InsertPairs(start, pairs)
    {
      assert pairs[k..][1..] == pairs[k + 1..];
      params := params[pairs[k].key := pairs[k].value];
    }
  }

  method NumberItems(start: Params, key: string, items: seq<string>) returns (params: Params)
    ensures params == InsertItems(start, key, items, 1)
  {
    hide Numbered;
    params := start;
    assert items[0..] == items;
    for i := 0 to |items|
      invariant InsertItems(params, key, items[i..], i + 1) == InsertItems(start, key, items, 1)
    {
      assert items[i..][1..] == items[i + 1..];
      params := params[Numbered(key, i + 1) := items[i]];
    }
  }

  method ExpandField(start: Params, f: Field, parse: ObjectParser) returns (params: Params)
    ensures params == InsertField(start, f, parse)
  {
    hide InsertPairs, InsertMembers, InsertItems, LooksLikeObject;
    if f.key == "Attributes" {
      if f.value.Object? {
        params := CopyPairs(start, f.value.pairs);
        return;
      }
      if f.value.Str? && LooksLikeObject(f.value.text) {
        var pairs := parse(f.value.text);
        params := CopyPairs(start, if pairs.Some? then pairs.value else []);
        return;
      }
    }
    if f.key == "MessageAttributes" && f.value.Object? {
      params := ExpandMembers(start, f.value.members);
      return;
    }
    match f.value {
      case Str(text) => params := start[f.key := text];
      case Literal(text) => params := start[f.key := text];
      case Null => params := start;
      case Array(items, json) =>
        if f.key == "Entries" {
          params := start[f.key := json];
        } else {
          params := NumberItems(start, Singular(f.key), items);
        }
      case Object(_, _, json) => params := start[f.key := json];
    }
  }

  method ParseJson(fields: seq<Field>, parse: ObjectParser) returns (params: Params)
    ensures params == InsertFields(map[], fields, parse)
  {
    hide InsertField;
    params := map[];
    assert fields[0..] == fields;
    for k := 0 to |fields|
      invariant InsertFields(params, fields[k..], parse) == InsertFields(map[], fields, parse)
    {
      assert fields[k..][1..] == fields[k + 1..];
      params := ExpandField(params, fields[k], parse);
    }
  }

  method ParseMessageAttributes(params: Params) returns (attributes: map<string, Value>)
    ensures attributes == ReadFrom(params, 1, map[])
  {
    hide Key;
    attributes := map[];
    var index := 1;
    while Key(index, Name) in params && Key(index, DataType) in params
      invariant index >= 1 && forall i :: 1 <= i < index ==> Key(i, Name) in params
      invariant ReadFrom(params, index, attributes) == ReadFrom(params, 1, map[])
      decreases |params| + 1 - index
    {
      NamesAreCounted(params, index);
      attributes := attributes[params[Key(index, Name)] := Value(params[Key(index, DataType)],
        Lookup(params, Key(index, StringValue)), Lookup(params, Key(index, BinaryValue)))];
      index := index + 1;
    }
  }

  method ParseAttributeNames(params: Params, decode: string -> Option<seq<string>>) returns (names: seq<string>)
    ensures names == ReadNames(params, decode)
  {
    hide Numbered;
    if "AttributeNames" in params {
      var list := decode(params["AttributeNames"]);
      if list.Some? {
        return list.value;
      }
    }
    names := [];
    var index := 1;
    while Numbered("AttributeName", index) in params
      invariant index >= 1 && forall i :: 1 <= i < index ==> Numbered("AttributeName", i) in params
      invariant names + ReadItems(params, "AttributeName", index) == ReadItems(params, "AttributeName", 1)
      decreases |params| + 1 - index
    {
      ItemsAreCounted(params, "AttributeName", index);
      names := names + [params[Numbered("AttributeName", index)]];
      index := index + 1;
    }
  }
}
