/** Receipt handles: how they are signed, and how a presented one is checked. The keyed hash is
    the parameter `mac`; the text encoding is left to the Handle datatype. */
module Receipt {
  import opened Types
  import opened QueueModel

  /** The comparison that always looks at every byte: differences accumulate in one byte, which
      is zero in the end exactly when there were none. */
  method SameSignature(expected: bytes, provided: bytes) returns (same: bool)
    ensures same <==> expected == provided
  {
    if |expected| != |provided| {
      return false;
    }
    var diff: bv8 := 0;
    for i := 0 to |expected|
      invariant diff == 0 <==> expected[..i] == provided[..i]
    {
      NoBitLost(diff, expected[i], provided[i]);
      diff := diff | (expected[i] ^ provided[i]);
      assert expected[..i + 1] == expected[..i] + [expected[i]];
      assert provided[..i + 1] == provided[..i] + [provided[i]];
    }
    assert expected[..|expected|] == expected;
    assert provided[..|expected|] == provided;
    same := diff == 0;
  }

  lemma NoBitLost(d: bv8, a: bv8, b: bv8)
    ensures d | (a ^ b) == 0 <==> d == 0 && a == b
  {
  }

  method Generate(p: Params, id: string, m: Message, nonce: nat) returns (h: Handle)
    ensures h == Ticketed(p, id, m, nonce)
    ensures ParseHandle(p, h) == Some(HandleData(id, m.id, nonce))
  {
    var signature := p.mac(id, m.id, nonce);
    h := Decoded(id, m.id, nonce, Bytes(signature), 0);
  }

  method Parse(p: Params, h: Handle) returns (data: Option<HandleData>)
    ensures data == ParseHandle(p, h)
  {
    match h
    case Undecodable(_) => data := None;
    case Decoded(queueId, messageId, nonce, signature, _) =>
      match signature {
        case Missing => data := None;
        case NotHex(_) => data := None;
        case Bytes(provided) =>
          var expected := p.mac(queueId, messageId, nonce);
          var same := SameSignature(expected, provided);
          data := if same then Some(HandleData(queueId, messageId, nonce)) else None;
      }
  }
}
