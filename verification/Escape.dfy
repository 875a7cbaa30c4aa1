/** Escaping and unescaping of XML text by chains of replacements. */
module Escape {
  /** Every occurrence of p, found from left to right without overlap, becomes r. */
  function Replace(s: string, p: string, r: string): string
    requires p != []
  {
    if |s| < |p| then s
    else if p <= s then r + Replace(s[|p|..], p, r)
    else [s[0]] + Replace(s[1..], p, r)
  }

  function EscapeXml(s: string): string {
    var amp := Replace(s, "&", "&amp;");
    var lt := Replace(amp, "<", "&lt;");
    var gt := Replace(lt, ">", "&gt;");
    var quot := Replace(gt, "\"", "&quot;");
    Replace(quot, "'", "&apos;")
  }

  function UnescapeXml(s: string): string {
    var quot := Replace(s, "&quot;", "\"");
    var apos := Replace(quot, "&apos;", "'");
    var lt := Replace(apos, "&lt;", "<");
    var gt := Replace(lt, "&gt;", ">");
    Replace(gt, "&amp;", "&")
  }

  const SPECIAL: set<char> := {'&', '<', '>', '"', '\''}

  /** The predefined entity of a special character (section 4.6 of XML 1.0). */
  function Entity(c: char): string {
    match c
    case '&' => "&amp;"
    case '<' => "&lt;"
    case '>' => "&gt;"
    case '"' => "&quot;"
    case _ => "&apos;"
  }

  /** One pass over the text: the characters in `which` become entities. */
  function Encode(s: string, which: set<char>): string {
    if s == [] then []
    else (if s[0] in which then Entity(s[0]) else [s[0]]) + Encode(s[1..], which)
  }

  // ---------------------------------------------------------------- one pass

  /** Text without the first character of the pattern is passed over. */
  lemma {:induction false} ReplacePasses(a: string, b: string, p: string, r: string)
    requires p != [] && p[0] !in a
    ensures Replace(a + b, p, r) == a + Replace(b, p, r)
  {
    if a == [] {
      assert a + b == b;
    } else {
      assert (a + b)[0] == a[0] && (a + b)[1..] == a[1..] + b;
      if |a + b| < |p| {
        assert Replace(b, p, r) == b;
      } else {
        ReplacePasses(a[1..], b, p, r);
        assert p[0] != a[0];
      }
    }
  }

  lemma ReplaceHit(b: string, p: string, r: string)
    requires p != []
    ensures Replace(p + b, p, r) == r + Replace(b, p, r)
  {
    assert (p + b)[|p|..] == b;
  }

  lemma ReplaceMiss(s: string, p: string, r: string)
    requires s != [] && p != [] && !(p <= s)
    ensures Replace(s, p, r) == [s[0]] + Replace(s[1..], p, r)
  {
  }

  /** Escaping one more character of an already encoded text. */
  lemma {:induction false} EscapeOne(s: string, which: set<char>, c: char)
    requires which <= SPECIAL && c in SPECIAL && c !in which && (c == '&' <==> which == {})
    ensures Replace(Encode(s, which), [c], Entity(c)) == Encode(s, which + {c})
  {
    if s != [] {
      var rest := Encode(s[1..], which);
      EscapeOne(s[1..], which, c);
      if s[0] == c {
        ReplaceHit(rest, [c], Entity(c));
      } else {
        var head := if s[0] in which then Entity(s[0]) else [s[0]];
        assert c !in head;
        ReplacePasses(head, rest, [c], Entity(c));
      }
    }
  }

  lemma {:induction false} EncodeNothing(s: string)
    ensures Encode(s, {}) == s
  {
    if s != [] {
      EncodeNothing(s[1..]);
    }
  }

  /** The five replacements in a row are one pass. */
  lemma EscapeIsOnePass(s: string)
    ensures EscapeXml(s) == Encode(s, SPECIAL)
  {
    hide Encode, Replace;
    EncodeNothing(s);
    EscapeOne(s, {}, '&');
    EscapeOne(s, {'&'}, '<');
    EscapeOne(s, {'&', '<'}, '>');
    EscapeOne(s, {'&', '<', '>'}, '"');
    EscapeOne(s, {'&', '<', '>', '"'}, '\'');
    assert {} + {'&'} == {'&'} && {'&'} + {'<'} == {'&', '<'} && {'&', '<'} + {'>'} == {'&', '<', '>'};
    assert {'&', '<', '>'} + {'"'} == {'&', '<', '>', '"'} && {'&', '<', '>', '"'} + {'\''} == SPECIAL;
  }

  lemma {:induction false} EncodedIsClean(s: string)
    ensures forall c :: c in Encode(s, SPECIAL) ==> c !in SPECIAL - {'&'}
  {
    if s != [] {
      EncodedIsClean(s[1..]);
    }
  }

  /** Escaped text has no markup character and no quote. */
  lemma EscapedIsClean(s: string)
    ensures forall c :: c in EscapeXml(s) ==> c != '<' && c != '>' && c != '"' && c != '\''
  {
    hide EscapeXml;
    EscapeIsOnePass(s);
    EncodedIsClean(s);
  }

  // ---------------------------------------------------------------- and back

  lemma EntitiesDiffer(c: char, d: char, rest: string)
    requires c in SPECIAL && d in SPECIAL && c != d
    ensures !(Entity(d) <= Entity(c) + rest)
  {
    var s := Entity(c) + rest;
    assert s[1] == Entity(c)[1] && s[2] == Entity(c)[2];
  }

  /** Unescaping one kind of entity; the ampersand must be the last. */
  lemma {:induction false} UnescapeOne(s: string, which: set<char>, d: char)
    requires which <= SPECIAL && d in which && '&' in which && (d == '&' ==> which == {'&'})
    ensures Replace(Encode(s, which), Entity(d), [d]) == Encode(s, which - {d})
  {
    if s != [] {
      var c, rest := s[0], Encode(s[1..], which);
      UnescapeOne(s[1..], which, d);
      if c == d {
        ReplaceHit(rest, Entity(d), [d]);
      } else if c in which {
        EntitiesDiffer(c, d, rest);
        PassEntity(c, d, rest);
      } else {
        ReplacePasses([c], rest, Entity(d), [d]);
      }
    }
  }

  lemma PassEntity(c: char, d: char, rest: string)
    requires c in SPECIAL && d in SPECIAL && c != d
    ensures Replace(Entity(c) + rest, Entity(d), [d]) == Entity(c) + Replace(rest, Entity(d), [d])
  {
    hide Replace, Entity;
    EntitiesDiffer(c, d, rest);
    EntityShape(c);
    EntityShape(d);
    PassOver(Entity(c), rest, Entity(d), [d]);
  }

  lemma EntityShape(c: char)
    requires c in SPECIAL
    ensures var e := Entity(c); |e| > 1 && e[0] == '&' && forall i :: 0 < i < |e| ==> e[i] != '&'
  {
  }

  /** An entity other than the one searched for is passed over as a whole. */
  lemma PassOver(e: string, rest: string, p: string, r: string)
    requires |e| > 1 && e[0] == '&' && (forall i :: 0 < i < |e| ==> e[i] != '&')
    requires p != [] && p[0] == '&' && !(p <= e + rest)
    ensures Replace(e + rest, p, r) == e + Replace(rest, p, r)
  {
    hide Replace;
    var tail := e[1..];
    assert forall i :: 0 <= i < |tail| ==> tail[i] == e[i + 1];
    assert (e + rest)[1..] == tail + rest;
    ReplaceMiss(e + rest, p, r);
    ReplacePasses(tail, rest, p, r);
    assert e == ['&'] + tail;
  }

  /** Unescaping undoes escaping, for every text. */
  lemma UnescapeUndoesEscape(s: string)
    ensures UnescapeXml(EscapeXml(s)) == s
  {
    hide EscapeXml, Encode, Replace;
    EscapeIsOnePass(s);
    UnescapeOne(s, SPECIAL, '"');
    UnescapeOne(s, {'&', '<', '>', '\''}, '\'');
    UnescapeOne(s, {'&', '<', '>'}, '<');
    UnescapeOne(s, {'&', '>'}, '>');
    UnescapeOne(s, {'&'}, '&');
    EncodeNothing(s);
    assert SPECIAL - {'"'} == {'&', '<', '>', '\''} && {'&', '<', '>', '\''} - {'\''} == {'&', '<', '>'};
    assert {'&', '<', '>'} - {'<'} == {'&', '>'} && {'&', '>'} - {'>'} == {'&'} && {'&'} - {'&'} == {};
  }

  // ---------------------------------------------------------------- what escaping changes

  predicate PlainText(s: string) {
    forall c :: c in s ==> c !in SPECIAL
  }

  lemma {:induction false} EncodingGrows(s: string)
    ensures if PlainText(s) then Encode(s, SPECIAL) == s
            else |Encode(s, SPECIAL)| > |s| && !PlainText(Encode(s, SPECIAL))
  {
    if s != [] {
      EncodingGrows(s[1..]);
      assert s == [s[0]] + s[1..];
      if s[0] in SPECIAL {
        assert Encode(s, SPECIAL)[0] == '&';
        EncodingIsNoShorter(s[1..]);
      } else if !PlainText(s) {
        var c :| c in Encode(s[1..], SPECIAL) && c in SPECIAL;
        assert c in Encode(s, SPECIAL);
      }
    }
  }

  lemma {:induction false} EncodingIsNoShorter(s: string)
    ensures |Encode(s, SPECIAL)| >= |s|
  {
    if s != [] {
      EncodingIsNoShorter(s[1..]);
    }
  }

  /** Escaping leaves a text as it is exactly when it has no special character; any other text
      becomes longer and still has one. */
  lemma EscapeChangesIff(s: string)
    ensures EscapeXml(s) == s <==> PlainText(s)
    ensures !PlainText(s) ==> |EscapeXml(s)| > |s| && !PlainText(EscapeXml(s))
  {
    hide EscapeXml, Encode;
    EscapeIsOnePass(s);
    EncodingGrows(s);
  }

  lemma EncodeStep(s: string, which: set<char>)
    requires s != []
    ensures Encode(s, which) == (if s[0] in which then Entity(s[0]) else [s[0]]) + Encode(s[1..], which)
  {
  }

  lemma Regrouped(a: string, b: string, c: string)
    ensures a + (b + c) == a + b + c
  {
  }

  lemma {:induction false} EncodeJoins(s: string, t: string, which: set<char>)
    ensures Encode(s + t, which) == Encode(s, which) + Encode(t, which)
  {
    hide Entity, Encode;
    if s == [] {
      assert s + t == t && Encode(s, which) == [] by { EncodeNone(s, which); }
    } else {
      assert (s + t)[0] == s[0] && (s + t)[1..] == s[1..] + t;
      EncodeStep(s, which);
      EncodeStep(s + t, which);
      EncodeJoins(s[1..], t, which);
      Regrouped(if s[0] in which then Entity(s[0]) else [s[0]], Encode(s[1..], which), Encode(t, which));
    }
  }

  lemma EncodeNone(s: string, which: set<char>)
    requires s == []
    ensures Encode(s, which) == []
  {
  }

  lemma EscapeOfOne(c: char)
    ensures EscapeXml([c])
         == if c == '&' then "&amp;" else if c == '<' then "&lt;" else if c == '>' then "&gt;"
            else if c == '"' then "&quot;" else if c == '\'' then "&apos;" else [c]
  {
    hide EscapeXml;
    EscapeIsOnePass([c]);
    assert [c][1..] == [];
  }

  /** Escaping goes letter by letter: the five special characters become the entities of section 4.6
      of XML 1.0, wherever they stand, and every other character stays. */
  lemma EntitiesAreSpelled(s: string, c: char, t: string)
    ensures EscapeXml(s + [c] + t)
         == EscapeXml(s)
            + (match c case '&' => "&amp;" case '<' => "&lt;" case '>' => "&gt;"
                       case '"' => "&quot;" case '\'' => "&apos;" case _ => [c])
            + EscapeXml(t)
  {
    hide EscapeXml, Encode;
    EscapeIsOnePass(s + [c] + t);
    EscapeIsOnePass(s);
    EscapeIsOnePass([c]);
    EscapeIsOnePass(t);
    EncodeJoins(s + [c], t, SPECIAL);
    EncodeJoins(s, [c], SPECIAL);
    EscapeOfOne(c);
  }
}
