/** L402 macaroons: identifier, HMAC chain, and the V2 binary form (lib/l402/l402.go). */
module Macaroons {
  import opened Base

  // --- identifiers ---

  type uint16 = x: int | 0 <= x < 0x1_0000

  datatype Identifier = Identifier(version: uint16, paymentHash: Hash32, tokenId: Hash32)

  const IDENTIFIER_VERSION: uint16 := 0
  const IDENTIFIER_SIZE := 66

  function EncodeIdentifier(id: Identifier): (raw: Bytes)
    ensures |raw| == IDENTIFIER_SIZE
  {
    [(id.version / 256) as char, (id.version % 256) as char] + id.paymentHash + id.tokenId
  }

  datatype IdentifierError = WrongSize | UnsupportedVersion

  function DecodeIdentifier(raw: Bytes): Result<Identifier, IdentifierError> {
    if |raw| != IDENTIFIER_SIZE then Err(WrongSize)
    else
      var version := raw[0] as int * 256 + raw[1] as int;
      if version != IDENTIFIER_VERSION then Err(UnsupportedVersion)
      else Ok(Identifier(version, raw[2..34], raw[34..66]))
  }

  /** Version in two octets, high one first, then payment hash and token id; the current version is zero. */
  lemma IdentifierLayout(id: Identifier)
    ensures var raw := EncodeIdentifier(id);
            && |raw| == 66 && raw[0] as int * 256 + raw[1] as int == id.version
            && raw[2..34] == id.paymentHash && raw[34..66] == id.tokenId
    ensures IDENTIFIER_VERSION == 0
  {
  }

  /** Decoding undoes encoding exactly on the current version, and encoding undoes every decode. */
  lemma IdentifierRoundTrip(id: Identifier, raw: Bytes)
    ensures DecodeIdentifier(EncodeIdentifier(id)) == Ok(id) <==> id.version == IDENTIFIER_VERSION
    ensures DecodeIdentifier(raw).Ok? ==> EncodeIdentifier(DecodeIdentifier(raw).value) == raw
  {
    var enc := EncodeIdentifier(id);
    assert enc[2..34] == id.paymentHash && enc[34..66] == id.tokenId;
    if DecodeIdentifier(raw).Ok? {
      assert raw == [raw[0], raw[1]] + raw[2..34] + raw[34..66];
    }
  }

  function StorageKey(c: Crypto, id: Identifier): Hash32 { c.sha256(EncodeIdentifier(id)) }

  // --- the HMAC chain ---

  datatype Mac = Mac(location: Bytes, id: Bytes, caveats: seq<Bytes>, signature: Hash32) {
    /** Go slices and strings are at most 2^63 - 1 octets long. */
    predicate Sized() {
      |location| <= MAX_INT64 && |id| <= MAX_INT64 && forall cav <- caveats :: |cav| <= MAX_INT64
    }
  }

  /** The signature after appending caveats to a macaroon signed sig. */
  function Extend(c: Crypto, sig: Hash32, caveats: seq<Bytes>): Hash32
    decreases caveats
  {
    if caveats == [] then sig else Extend(c, c.hmac(sig, caveats[0]), caveats[1..])
  }

  function Chain(c: Crypto, rootKey: Hash32, id: Bytes, caveats: seq<Bytes>): Hash32 {
    Extend(c, c.hmac(rootKey, id), caveats)
  }

  lemma {:induction false} ExtendAppend(c: Crypto, sig: Hash32, a: seq<Bytes>, b: seq<Bytes>)
    ensures Extend(c, sig, a + b) == Extend(c, Extend(c, sig, a), b)
    decreases a
  {
    if a == [] {
      assert a + b == b;
    } else {
      ExtendAppend(c, c.hmac(sig, a[0]), a[1..], b);
      assert (a + b)[1..] == a[1..] + b;
    }
  }

  method ComputeChain(c: Crypto, rootKey: Hash32, id: Bytes, caveats: seq<Bytes>) returns (sig: Hash32)
    ensures sig == Chain(c, rootKey, id, caveats)
  {
    sig := c.hmac(rootKey, id);
    for i := 0 to |caveats|
      invariant Extend(c, sig, caveats[i..]) == Chain(c, rootKey, id, caveats)
    {
      assert caveats[i..][1..] == caveats[i + 1..];
      sig := c.hmac(sig, caveats[i]);
    }
  }

  function Mint(c: Crypto, rootKey: Hash32, id: Identifier, caveats: seq<Bytes>): (m: Mac)
    ensures SignatureValid(c, rootKey, m)
  {
    Mac([], EncodeIdentifier(id), caveats, Chain(c, rootKey, EncodeIdentifier(id), caveats))
  }

  predicate SignatureValid(c: Crypto, rootKey: Hash32, m: Mac) {
    Chain(c, rootKey, m.id, m.caveats) == m.signature
  }

  /** What a holder gets by appending caveats one after another, without the root key. */
  function Attenuated(c: Crypto, m: Mac, more: seq<Bytes>): Mac {
    m.(caveats := m.caveats + more, signature := Extend(c, m.signature, more))
  }

  /** The macaroon as the mutable object that Attenuate updates. */
  class Macaroon {
    var location: Bytes
    var id: Bytes
    var caveats: seq<Bytes>
    var signature: Hash32

    constructor (m: Mac)
      ensures View() == m
    {
      location, id, caveats, signature := m.location, m.id, m.caveats, m.signature;
    }

    function View(): Mac
      reads this
    {
      Mac(location, id, caveats, signature)
    }

    method Attenuate(c: Crypto, caveat: Bytes)
      modifies this
      ensures View() == Attenuated(c, old(View()), [caveat])
      ensures signature == c.hmac(old(signature), caveat) && caveats == old(caveats) + [caveat]
    {
      assert Extend(c, signature, [caveat]) == Extend(c, c.hmac(signature, caveat), [caveat][1..]);
      signature := c.hmac(signature, caveat);
      caveats := caveats + [caveat];
    }

    method VerifySignature(c: Crypto, rootKey: Hash32) returns (ok: bool)
      ensures ok <==> SignatureValid(c, rootKey, View())
    {
      var want := ComputeChain(c, rootKey, id, caveats);
      ok := want == signature;
    }
  }

  /** Single steps compose: attenuating by a and then by b is attenuating by a + b. */
  lemma AttenuatedAppend(c: Crypto, m: Mac, a: seq<Bytes>, b: seq<Bytes>)
    ensures Attenuated(c, Attenuated(c, m, a), b) == Attenuated(c, m, a + b)
  {
    ExtendAppend(c, m.signature, a, b);
    assert m.caveats + a + b == m.caveats + (a + b);
  }

  /** Appending caveats keeps a valid signature valid. */
  lemma AttenuationKeepsSignature(c: Crypto, rootKey: Hash32, m: Mac, more: seq<Bytes>)
    requires SignatureValid(c, rootKey, m)
    ensures SignatureValid(c, rootKey, Attenuated(c, m, more))
  {
    ExtendAppend(c, c.hmac(rootKey, m.id), m.caveats, more);
  }

  ghost predicate HmacKeyInjective(c: Crypto) {
    forall k, k', msg :: c.hmac(k, msg) == c.hmac(k', msg) ==> k == k'
  }

  lemma {:induction false} ExtendInjective(c: Crypto, sig: Hash32, sig': Hash32, more: seq<Bytes>)
    requires HmacKeyInjective(c) && Extend(c, sig, more) == Extend(c, sig', more)
    ensures sig == sig'
    decreases more
  {
    if more != [] {
      ExtendInjective(c, c.hmac(sig, more[0]), c.hmac(sig', more[0]), more[1..]);
    }
  }

  /** With an HMAC that is injective in its key, a valid attenuation had a valid original. */
  lemma OriginalSignature(c: Crypto, rootKey: Hash32, m: Mac, more: seq<Bytes>)
    requires HmacKeyInjective(c) && SignatureValid(c, rootKey, Attenuated(c, m, more))
    ensures SignatureValid(c, rootKey, m)
  {
    ExtendAppend(c, c.hmac(rootKey, m.id), m.caveats, more);
    ExtendInjective(c, Chain(c, rootKey, m.id, m.caveats), m.signature, more);
  }

  // --- a signature binds identifier and caveats ---

  /** The key of link i when the texts are signed one after another: the root key, then each HMAC in turn. */
  function LinkKey(c: Crypto, rootKey: Hash32, texts: seq<Bytes>, i: nat): Hash32
    requires i <= |texts|
  {
    if i == 0 then rootKey else c.hmac(LinkKey(c, rootKey, texts, i - 1), texts[i - 1])
  }

  lemma {:induction false} LinkKeyPrefix(c: Crypto, rootKey: Hash32, texts: seq<Bytes>, more: seq<Bytes>, i: nat)
    requires i <= |texts|
    ensures LinkKey(c, rootKey, texts + more, i) == LinkKey(c, rootKey, texts, i)
  {
    if i > 0 {
      LinkKeyPrefix(c, rootKey, texts, more, i - 1);
    }
  }

  /** The chain signs the identifier and then each caveat, every link under the HMAC of the one before. */
  lemma {:induction false} ChainLinks(c: Crypto, rootKey: Hash32, id: Bytes, caveats: seq<Bytes>)
    ensures Chain(c, rootKey, id, caveats) == LinkKey(c, rootKey, [id] + caveats, |caveats| + 1)
    decreases |caveats|
  {
    if caveats == [] {
      assert LinkKey(c, rootKey, [id] + [], 0) == rootKey;
    } else {
      var init, last := caveats[..|caveats| - 1], caveats[|caveats| - 1];
      assert caveats == init + [last] && [id] + caveats == ([id] + init) + [last];
      ChainLinks(c, rootKey, id, init);
      ExtendAppend(c, c.hmac(rootKey, id), init, [last]);
      ExtendOne(c, Chain(c, rootKey, id, init), last);
      LinkKeyPrefix(c, rootKey, [id] + init, [last], |init| + 1);
    }
  }

  lemma ExtendOne(c: Crypto, sig: Hash32, caveat: Bytes)
    ensures Extend(c, sig, [caveat]) == c.hmac(sig, caveat)
  {
    assert Extend(c, sig, [caveat]) == Extend(c, c.hmac(sig, caveat), [caveat][1..]);
  }

  /** Two different (key, text) pairs, at link i of the two chains, with one HMAC. */
  predicate Collision(c: Crypto, rootKey: Hash32, a: seq<Bytes>, b: seq<Bytes>, i: nat) {
    && i < |a| && i < |b|
    && (LinkKey(c, rootKey, a, i) != LinkKey(c, rootKey, b, i) || a[i] != b[i])
    && c.hmac(LinkKey(c, rootKey, a, i), a[i]) == c.hmac(LinkKey(c, rootKey, b, i), b[i])
  }

  lemma {:induction false} SameLinks(c: Crypto, rootKey: Hash32, a: seq<Bytes>, b: seq<Bytes>, n: nat) returns (i: nat)
    requires n <= |a| && n <= |b| && LinkKey(c, rootKey, a, n) == LinkKey(c, rootKey, b, n)
    ensures a[..n] == b[..n] || Collision(c, rootKey, a, b, i)
  {
    i := 0;
    if n > 0 {
      if LinkKey(c, rootKey, a, n - 1) == LinkKey(c, rootKey, b, n - 1) && a[n - 1] == b[n - 1] {
        i := SameLinks(c, rootKey, a, b, n - 1);
        assert a[..n] == a[..n - 1] + [a[n - 1]] && b[..n] == b[..n - 1] + [b[n - 1]];
      } else {
        i := n - 1;
      }
    }
  }

  /**
   * A signature binds what it signs: two macaroons valid under one root key, with one signature and equally many
   * caveats, have the same identifier and the same caveats, or the two chains collide at a link that is returned.
   */
  lemma SignatureBinds(c: Crypto, rootKey: Hash32, m: Mac, m': Mac) returns (i: nat)
    requires SignatureValid(c, rootKey, m) && SignatureValid(c, rootKey, m') && m.signature == m'.signature
    requires |m.caveats| == |m'.caveats|
    ensures (m.id == m'.id && m.caveats == m'.caveats)
         || Collision(c, rootKey, [m.id] + m.caveats, [m'.id] + m'.caveats, i)
  {
    var a, b, n := [m.id] + m.caveats, [m'.id] + m'.caveats, |m.caveats| + 1;
    ChainLinks(c, rootKey, m.id, m.caveats);
    ChainLinks(c, rootKey, m'.id, m'.caveats);
    i := SameLinks(c, rootKey, a, b, n);
    if a[..n] == b[..n] {
      assert a[..n] == a && b[..n] == b;
      assert a[0] == b[0] && m.caveats == a[1..] && m'.caveats == b[1..];
    }
  }

  // --- varints (binary.PutUvarint and binary.Uvarint) ---

  function PutUvarint(n: nat): (w: Bytes)
    ensures w != []
  {
    if n < 128 then [n as char] else [(n % 128 + 128) as char] + PutUvarint(n / 128)
  }

  datatype Varint = Varint(value: nat, size: nat)

  /** Reads a varint whose first i octets are already consumed; None on a short or over-long one. */
  function Uvarint(data: Bytes, i: nat): (r: Option<Varint>)
    ensures r.Some? ==> 0 < r.value.size <= |data|
  {
    if i >= 10 || data == [] then None
    else
      var b := data[0] as int;
      if b < 128 then if i == 9 && b > 1 then None else Some(Varint(b, 1))
      else
        var rest := Uvarint(data[1..], i + 1);
        if rest.None? then None
        else Some(Varint(b - 128 + 128 * rest.value.value, rest.value.size + 1))
  }

  /** What is left of the 64 bits after i groups of seven. */
  const CAPACITY: seq<nat> :=
    [0x1_0000_0000_0000_0000, 0x200_0000_0000_0000, 0x4_0000_0000_0000, 0x800_0000_0000, 0x10_0000_0000,
     0x2000_0000, 0x40_0000, 0x8000, 0x100, 0x2]

  lemma {:induction false} UvarintRoundTrip(n: nat, i: nat, rest: Bytes)
    requires i < 10 && n < CAPACITY[i]
    ensures Uvarint(PutUvarint(n) + rest, i) == Some(Varint(n, |PutUvarint(n)|))
    ensures (PutUvarint(n) + rest)[|PutUvarint(n)|..] == rest
  {
    var w := PutUvarint(n) + rest;
    if n >= 128 {
      UvarintRoundTrip(n / 128, i + 1, rest);
      assert w[1..] == PutUvarint(n / 128) + rest;
    }
  }

  lemma CapacityStep(i: nat)
    requires i < 9
    ensures CAPACITY[i] == 128 * CAPACITY[i + 1] && CAPACITY[i] >= 128
  {
  }

  /** Whatever is read fits 64 bits and took at most ten octets. */
  lemma {:induction false} UvarintFits(data: Bytes, i: nat)
    requires i <= 9
    ensures Uvarint(data, i).Some? ==>
              Uvarint(data, i).value.value < CAPACITY[i] && Uvarint(data, i).value.size <= 10 - i
  {
    if i < 9 {
      CapacityStep(i);
      if data != [] && data[0] as int >= 128 {
        UvarintFits(data[1..], i + 1);
      }
    } else if data != [] && data[0] as int >= 128 {
      assert Uvarint(data[1..], 10).None?;
    }
  }

  lemma {:induction false} UvarintExtends(data: Bytes, i: nat, more: Bytes)
    requires Uvarint(data, i).Some?
    ensures Uvarint(data + more, i) == Uvarint(data, i)
  {
    if data[0] as int >= 128 {
      UvarintExtends(data[1..], i + 1, more);
      assert (data + more)[1..] == data[1..] + more;
    }
  }

  // --- packets ---

  const VERSION_2: Octet := 2 as char
  const EOS := 0
  const LOCATION := 1
  const IDENTIFIER := 2
  const SIGNATURE := 6

  datatype Packet = Packet(fieldType: nat, data: Bytes)

  datatype ParseError =
    | BadFieldType | BadLength | FieldPastEnd | SectionPastEnd
    | NotV2 | InvalidHeader | ThirdParty | MissingIdentifier | InvalidSignature | TrailingBytes

  function PacketBytes(fieldType: nat, data: Bytes): Bytes {
    PutUvarint(fieldType) + PutUvarint(|data|) + data
  }

  /** The length and the data of a field. */
  function ParseField(fieldType: nat, data: Bytes): (r: Result<(Bytes, Packet), ParseError>)
    ensures r.Ok? ==> |r.value.0| < |data| && r.value.0 == data[|data| - |r.value.0|..]
  {
    var len := Uvarint(data, 0);
    if len.None? then Err(BadLength)
    else
      var rest := data[len.value.size..];
      if len.value.value > |rest| then Err(FieldPastEnd)
      else
        SliceTwice(data, len.value.size, len.value.value);
        Ok((rest[len.value.value..], Packet(fieldType, rest[..len.value.value])))
  }

  lemma SliceTwice(data: Bytes, m: nat, n: nat)
    requires m + n <= |data|
    ensures data[m..][n..] == data[m + n..]
  {
  }

  lemma SuffixOfSlice(data: Bytes, m: nat, n: nat)
    requires m <= |data| && n <= |data| - m
    ensures data[m..][|data| - m - n..] == data[|data| - n..]
  {
  }

  function ParsePacket(data: Bytes): (r: Result<(Bytes, Packet), ParseError>)
    ensures r.Ok? ==> |r.value.0| < |data| && r.value.0 == data[|data| - |r.value.0|..]
  {
    var ft := Uvarint(data, 0);
    if ft.None? then Err(BadFieldType)
    else
      var rest := data[ft.value.size..];
      if ft.value.value == EOS then Ok((rest, Packet(EOS, [])))
      else
        var r := ParseField(ft.value.value, rest);
        assert r.Ok? ==> r.value.0 == data[|data| - |r.value.0|..] by {
          if r.Ok? {
            SuffixOfSlice(data, ft.value.size, |r.value.0|);
          }
        }
        r
  }

  lemma PacketRoundTrip(fieldType: nat, data: Bytes, rest: Bytes)
    requires 0 < fieldType < 128 && |data| <= MAX_INT64
    ensures ParsePacket(PacketBytes(fieldType, data) + rest) == Ok((rest, Packet(fieldType, data)))
  {
    UvarintRoundTrip(fieldType, 0, PutUvarint(|data|) + data + rest);
    UvarintRoundTrip(|data|, 0, data + rest);
    assert PacketBytes(fieldType, data) + rest == PutUvarint(fieldType) + (PutUvarint(|data|) + data + rest);
    assert PutUvarint(|data|) + data + rest == PutUvarint(|data|) + (data + rest);
  }

  lemma EosRoundTrip(rest: Bytes)
    ensures ParsePacket(['\0'] + rest) == Ok((rest, Packet(EOS, [])))
  {
  }

  lemma SliceExtends(data: Bytes, n: nat, more: Bytes)
    requires n <= |data|
    ensures (data + more)[n..] == data[n..] + more && (data + more)[..n] == data[..n]
  {
  }

  lemma FieldExtends(fieldType: nat, data: Bytes, more: Bytes)
    requires ParseField(fieldType, data).Ok?
    ensures var (rest, p) := ParseField(fieldType, data).value;
            ParseField(fieldType, data + more) == Ok((rest + more, p))
  {
    UvarintExtends(data, 0, more);
    var len := Uvarint(data, 0).value;
    SliceExtends(data, len.size, more);
    SliceExtends(data[len.size..], len.value, more);
  }

  lemma PacketExtends(data: Bytes, more: Bytes)
    requires ParsePacket(data).Ok?
    ensures var (rest, p) := ParsePacket(data).value; ParsePacket(data + more) == Ok((rest + more, p))
  {
    UvarintExtends(data, 0, more);
    var ft := Uvarint(data, 0).value;
    SliceExtends(data, ft.size, more);
    if ft.value != EOS {
      FieldExtends(ft.value, data[ft.size..], more);
    }
  }

  // --- sections ---

  function ParseSection(data: Bytes): (r: Result<(Bytes, seq<Packet>), ParseError>)
    ensures r.Ok? ==> |r.value.0| < |data|
    decreases |data|
  {
    if data == [] then Err(SectionPastEnd)
    else
      var (rest, p) :- ParsePacket(data);
      if p.fieldType == EOS then Ok((rest, []))
      else
        var (rest', ps) :- ParseSection(rest);
        Ok((rest', [p] + ps))
  }

  /** The result of a section whose leading packets were already read. */
  function Prepend(packets: seq<Packet>, r: Result<(Bytes, seq<Packet>), ParseError>)
    : Result<(Bytes, seq<Packet>), ParseError>
  {
    var (rest, ps) :- r;
    Ok((rest, packets + ps))
  }

  method ReadSection(data: Bytes) returns (r: Result<(Bytes, seq<Packet>), ParseError>)
    ensures r == ParseSection(data)
  {
    var left, packets: seq<Packet> := data, [];
    assert forall ps: seq<Packet> :: packets + ps == ps;
    while true
      invariant ParseSection(data) == Prepend(packets, ParseSection(left))
      decreases |left|
    {
      if |left| == 0 {
        return Err(SectionPastEnd);
      }
      var r := ParsePacket(left);
      if r.Err? {
        return Err(r.error);
      }
      var (rest, p) := r.value;
      if p.fieldType == EOS {
        assert packets + [] == packets;
        return Ok((rest, packets));
      }
      assert forall ps :: packets + ([p] + ps) == packets + [p] + ps;
      left, packets := rest, packets + [p];
    }
  }

  lemma {:induction false} SectionExtends(data: Bytes, more: Bytes)
    requires ParseSection(data).Ok?
    ensures var (rest, ps) := ParseSection(data).value; ParseSection(data + more) == Ok((rest + more, ps))
    decreases |data|
  {
    PacketExtends(data, more);
    var (rest, p) := ParsePacket(data).value;
    if p.fieldType != EOS {
      SectionExtends(rest, more);
    }
  }

  // --- whole macaroons ---

  /** The caveat list and its terminator, followed by rest. */
  function CaveatBytes(caveats: seq<Bytes>, rest: Bytes): (w: Bytes)
    ensures w != []
  {
    if caveats == [] then ['\0'] + rest
    else PacketBytes(IDENTIFIER, caveats[0]) + (['\0'] + CaveatBytes(caveats[1..], rest))
  }

  /** The header section, followed by rest. */
  function HeaderBytes(location: Bytes, id: Bytes, rest: Bytes): Bytes {
    var tail := PacketBytes(IDENTIFIER, id) + (['\0'] + rest);
    if location == [] then tail else PacketBytes(LOCATION, location) + tail
  }

  function Wire(m: Mac): (raw: Bytes)
    ensures raw != []
  {
    [VERSION_2] + HeaderBytes(m.location, m.id, CaveatBytes(m.caveats, PacketBytes(SIGNATURE, m.signature)))
  }

  lemma Associates(a: Bytes, b: Bytes, c: Bytes, d: Bytes)
    ensures a + b + c + d == a + (b + (c + d))
  {
  }

  lemma AssociatesTwo(a: Bytes, b: Bytes, c: Bytes)
    ensures a + b + c == a + (b + c)
  {
  }

  method MarshalHeader(location: Bytes, id: Bytes) returns (buf: Bytes)
    ensures forall rest :: buf + rest == [VERSION_2] + HeaderBytes(location, id, rest)
  {
    ghost var l, p := PacketBytes(LOCATION, location), PacketBytes(IDENTIFIER, id);
    buf := [VERSION_2];
    if location != [] {
      buf := buf + PacketBytes(LOCATION, location);
    }
    buf := buf + PacketBytes(IDENTIFIER, id);
    buf := buf + ['\0'];
    forall rest ensures buf + rest == [VERSION_2] + HeaderBytes(location, id, rest) {
      if location == [] {
        Associates([VERSION_2], p, ['\0'], rest);
      } else {
        Associates([VERSION_2] + l, p, ['\0'], rest);
        AssociatesTwo([VERSION_2], l, p + (['\0'] + rest));
      }
    }
  }

  method MarshalBinary(m: Mac) returns (buf: Bytes)
    ensures buf == Wire(m)
  {
    ghost var sig := PacketBytes(SIGNATURE, m.signature);
    buf := MarshalHeader(m.location, m.id);
    assert m.caveats[0..] == m.caveats;
    for i := 0 to |m.caveats|
      invariant buf + CaveatBytes(m.caveats[i..], sig) == Wire(m)
    {
      assert m.caveats[i..][1..] == m.caveats[i + 1..];
      Associates(buf, PacketBytes(IDENTIFIER, m.caveats[i]), ['\0'], CaveatBytes(m.caveats[i + 1..], sig));
      buf := buf + PacketBytes(IDENTIFIER, m.caveats[i]);
      buf := buf + ['\0'];
    }
    Associates(buf, ['\0'], sig, []);
    buf := buf + ['\0'];
    buf := buf + PacketBytes(SIGNATURE, m.signature);
  }

  lemma ShortPacket(fieldType: nat, data: Bytes)
    requires fieldType < 128 && |data| < 128
    ensures PacketBytes(fieldType, data) == [fieldType as char, |data| as char] + data
  {
    assert PutUvarint(fieldType) == [fieldType as char] && PutUvarint(|data|) == [|data| as char];
    assert [fieldType as char] + [|data| as char] + data == [fieldType as char, |data| as char] + data;
  }

  /** The wire form of a short macaroon without location, octet by octet: tag 2, each field with type and length. */
  lemma WireLayout(id: Bytes, cav: Bytes, sig: Hash32)
    requires |id| < 128 && |cav| < 128
    ensures Wire(Mac([], id, [cav], sig)) ==
              [2 as char] + ([2 as char, |id| as char] + id + (['\0']
              + ([2 as char, |cav| as char] + cav + (['\0'] + (['\0'] + ([6 as char, 32 as char] + sig))))))
    ensures PacketBytes(LOCATION, id) == [1 as char, |id| as char] + id
  {
    ShortPacket(IDENTIFIER, id);
    ShortPacket(IDENTIFIER, cav);
    ShortPacket(SIGNATURE, sig);
    ShortPacket(LOCATION, id);
    var tail := PacketBytes(SIGNATURE, sig);
    assert CaveatBytes([cav], tail) == PacketBytes(IDENTIFIER, cav) + (['\0'] + CaveatBytes([cav][1..], tail));
    assert [cav][1..] == [];
    assert CaveatBytes([], tail) == ['\0'] + tail;
  }

  /** Longer numbers take seven bits at a time, low ones first. */
  lemma VarintLayout(n: nat)
    requires 128 <= n < 128 * 128
    ensures PutUvarint(n) == [(n % 128 + 128) as char, (n / 128) as char]
  {
    assert PutUvarint(n / 128) == [(n / 128) as char];
  }

  function ParseHeader(header: seq<Packet>): Result<(Bytes, Bytes), ParseError> {
    var located := |header| > 0 && header[0].fieldType == LOCATION;
    var rest := if located then header[1..] else header;
    if |rest| != 1 || rest[0].fieldType != IDENTIFIER then Err(InvalidHeader)
    else Ok((if located then header[0].data else [], rest[0].data))
  }

  /** One caveat section: the caveat text, or the reason it is refused. */
  function ParseCaveat(section: seq<Packet>): Result<Bytes, ParseError>
    requires section != []
  {
    if section[0].fieldType == LOCATION then Err(ThirdParty)
    else if section[0].fieldType != IDENTIFIER then Err(MissingIdentifier)
    else if |section| > 1 then Err(ThirdParty)
    else Ok(section[0].data)
  }

  function ParseCaveats(data: Bytes): Result<(Bytes, seq<Bytes>), ParseError>
    decreases |data|
  {
    var (rest, section) :- ParseSection(data);
    if section == [] then Ok((rest, []))
    else
      var cav :- ParseCaveat(section);
      var (rest', cavs) :- ParseCaveats(rest);
      Ok((rest', [cav] + cavs))
  }

  function ParseSignature(data: Bytes): Result<Hash32, ParseError> {
    var (rest, sig) :- ParsePacket(data);
    if sig.fieldType != SIGNATURE || |sig.data| != 32 then Err(InvalidSignature)
    else if rest != [] then Err(TrailingBytes)
    else Ok(sig.data)
  }

  function FromWire(raw: Bytes): Result<Mac, ParseError> {
    if raw == [] || raw[0] != VERSION_2 then Err(NotV2)
    else
      var (data, header) :- ParseSection(raw[1..]);
      var (location, id) :- ParseHeader(header);
      var (data', caveats) :- ParseCaveats(data);
      var sig :- ParseSignature(data');
      Ok(Mac(location, id, caveats, sig))
  }

  /** A parsed caveat list behind caveats that were read before it. */
  function Behind(caveats: seq<Bytes>, r: Result<(Bytes, seq<Bytes>), ParseError>)
    : Result<(Bytes, seq<Bytes>), ParseError>
  {
    match r
    case Err(e) => Err(e)
    case Ok((rest, cavs)) => Ok((rest, caveats + cavs))
  }

  lemma LastCaveat(caveats: seq<Bytes>, data: Bytes, rest: Bytes)
    requires ParseSection(data) == Ok((rest, []))
    ensures Behind(caveats, ParseCaveats(data)) == Ok((rest, caveats))
  {
    assert ParseCaveats(data) == Ok((rest, []));
    assert caveats + [] == caveats;
  }

  lemma BehindMore(caveats: seq<Bytes>, cav: Bytes, rest: Bytes, cavs: seq<Bytes>)
    ensures Behind(caveats, Ok((rest, [cav] + cavs))) == Behind(caveats + [cav], Ok((rest, cavs)))
  {
    assert caveats + ([cav] + cavs) == caveats + [cav] + cavs;
  }

  lemma NextCaveat(caveats: seq<Bytes>, data: Bytes, rest: Bytes, section: seq<Packet>)
    requires ParseSection(data) == Ok((rest, section)) && section != []
    ensures match ParseCaveat(section)
            case Err(e) => ParseCaveats(data) == Err(e)
            case Ok(cav) => Behind(caveats, ParseCaveats(data)) == Behind(caveats + [cav], ParseCaveats(rest))
  {
    if ParseCaveat(section).Ok? {
      match ParseCaveats(rest) {
        case Err(e) => assert ParseCaveats(data) == Err(e);
        case Ok((left, cavs)) =>
          assert ParseCaveats(data) == Ok((left, [ParseCaveat(section).value] + cavs));
          BehindMore(caveats, ParseCaveat(section).value, left, cavs);
      }
    }
  }

  lemma BehindNothing(r: Result<(Bytes, seq<Bytes>), ParseError>)
    ensures Behind([], r) == r
  {
    if r.Ok? {
      assert [] + r.value.1 == r.value.1;
    }
  }

  method ReadCaveats(start: Bytes) returns (r: Result<(Bytes, seq<Bytes>), ParseError>)
    ensures r == ParseCaveats(start)
  {
    var data, caveats: seq<Bytes> := start, [];
    BehindNothing(ParseCaveats(start));
    while true
      invariant ParseCaveats(start) == Behind(caveats, ParseCaveats(data))
      decreases |data|
    {
      var s := ReadSection(data);
      if s.Err? {
        return Err(s.error);
      }
      var (rest, section) := s.value;
      if section == [] {
        LastCaveat(caveats, data, rest);
        return Ok((rest, caveats));
      }
      NextCaveat(caveats, data, rest, section);
      var cav := ParseCaveat(section);
      if cav.Err? {
        return Err(cav.error);
      }
      data, caveats := rest, caveats + [cav.value];
    }
  }

  method UnmarshalBinary(raw: Bytes) returns (r: Result<Mac, ParseError>)
    ensures r == FromWire(raw)
  {
    if |raw| == 0 || raw[0] != VERSION_2 {
      return Err(NotV2);
    }
    var head := ReadSection(raw[1..]);
    if head.Err? {
      return Err(head.error);
    }
    var h := ParseHeader(head.value.1);
    if h.Err? {
      return Err(h.error);
    }
    var cavs := ReadCaveats(head.value.0);
    if cavs.Err? {
      return Err(cavs.error);
    }
    var sig := ParseSignature(cavs.value.0);
    if sig.Err? {
      return Err(sig.error);
    }
    r := Ok(Mac(h.value.0, h.value.1, cavs.value.1, sig.value));
  }

  lemma SectionCons(w: Bytes, rest: Bytes, p: Packet)
    requires ParsePacket(w) == Ok((rest, p)) && p.fieldType != EOS
    ensures ParseSection(w) == Prepend([p], ParseSection(rest))
  {
  }

  lemma CaveatsCons(w: Bytes, rest: Bytes, cav: Bytes)
    requires ParseSection(w) == Ok((rest, [Packet(IDENTIFIER, cav)])) && ParseCaveats(rest).Ok?
    ensures ParseCaveats(w) == Ok((ParseCaveats(rest).value.0, [cav] + ParseCaveats(rest).value.1))
  {
  }

  lemma SectionRoundTrip(fieldType: nat, data: Bytes, rest: Bytes)
    requires 0 < fieldType < 128 && |data| <= MAX_INT64
    ensures ParseSection(PacketBytes(fieldType, data) + (['\0'] + rest)) == Ok((rest, [Packet(fieldType, data)]))
  {
    PacketRoundTrip(fieldType, data, ['\0'] + rest);
    EosRoundTrip(rest);
    SectionCons(PacketBytes(fieldType, data) + (['\0'] + rest), ['\0'] + rest, Packet(fieldType, data));
    assert [Packet(fieldType, data)] + [] == [Packet(fieldType, data)];
  }

  lemma LocatedHeader(w: Bytes, tail: Bytes, rest: Bytes, location: Bytes, id: Bytes)
    requires ParsePacket(w) == Ok((tail, Packet(LOCATION, location)))
    requires ParseSection(tail) == Ok((rest, [Packet(IDENTIFIER, id)]))
    ensures ParseSection(w) == Ok((rest, [Packet(LOCATION, location), Packet(IDENTIFIER, id)]))
  {
    SectionCons(w, tail, Packet(LOCATION, location));
    assert [Packet(LOCATION, location)] + [Packet(IDENTIFIER, id)] ==
             [Packet(LOCATION, location), Packet(IDENTIFIER, id)];
  }

  lemma HeaderRoundTrip(location: Bytes, id: Bytes, rest: Bytes)
    requires |location| <= MAX_INT64 && |id| <= MAX_INT64
    ensures var r := ParseSection(HeaderBytes(location, id, rest));
            r.Ok? && r.value.0 == rest && ParseHeader(r.value.1) == Ok((location, id))
  {
    HeaderLists(location, id);
    if location == [] {
      SectionRoundTrip(IDENTIFIER, id, rest);
    } else {
      SectionRoundTrip(IDENTIFIER, id, rest);
      LocatedRoundTrip(location, id, rest, PacketBytes(IDENTIFIER, id) + (['\0'] + rest));
    }
  }

  lemma LocatedRoundTrip(location: Bytes, id: Bytes, rest: Bytes, tail: Bytes)
    requires |location| <= MAX_INT64 && ParseSection(tail) == Ok((rest, [Packet(IDENTIFIER, id)]))
    ensures ParseSection(PacketBytes(LOCATION, location) + tail)
         == Ok((rest, [Packet(LOCATION, location), Packet(IDENTIFIER, id)]))
  {
    PacketRoundTrip(LOCATION, location, tail);
    LocatedHeader(PacketBytes(LOCATION, location) + tail, tail, rest, location, id);
  }

  lemma HeaderLists(location: Bytes, id: Bytes)
    ensures ParseHeader([Packet(IDENTIFIER, id)]) == Ok(([], id))
    ensures ParseHeader([Packet(LOCATION, location), Packet(IDENTIFIER, id)]) == Ok((location, id))
  {
    assert [Packet(LOCATION, location), Packet(IDENTIFIER, id)][1..] == [Packet(IDENTIFIER, id)];
  }

  lemma NoCaveats(rest: Bytes)
    ensures ParseCaveats(['\0'] + rest) == Ok((rest, []))
  {
    EosRoundTrip(rest);
  }

  lemma OneMoreCaveat(cav: Bytes, tail: Bytes, rest: Bytes, cavs: seq<Bytes>)
    requires |cav| <= MAX_INT64 && ParseCaveats(tail) == Ok((rest, cavs))
    ensures ParseCaveats(PacketBytes(IDENTIFIER, cav) + (['\0'] + tail)) == Ok((rest, [cav] + cavs))
  {
    SectionRoundTrip(IDENTIFIER, cav, tail);
    CaveatsCons(PacketBytes(IDENTIFIER, cav) + (['\0'] + tail), tail, cav);
  }

  lemma {:induction false} CaveatsRoundTrip(caveats: seq<Bytes>, rest: Bytes)
    requires forall cav <- caveats :: |cav| <= MAX_INT64
    ensures ParseCaveats(CaveatBytes(caveats, rest)) == Ok((rest, caveats))
  {
    if caveats == [] {
      NoCaveats(rest);
    } else {
      CaveatsRoundTrip(caveats[1..], rest);
      OneMoreCaveat(caveats[0], CaveatBytes(caveats[1..], rest), rest, caveats[1..]);
      assert caveats == [caveats[0]] + caveats[1..];
    }
  }

  /** Parsing undoes printing for every macaroon. */
  lemma WireRoundTrip(m: Mac)
    requires m.Sized()
    ensures FromWire(Wire(m)) == Ok(m)
  {
    var sig := PacketBytes(SIGNATURE, m.signature);
    var cavs := CaveatBytes(m.caveats, sig);
    HeaderRoundTrip(m.location, m.id, cavs);
    CaveatsRoundTrip(m.caveats, sig);
    PacketRoundTrip(SIGNATURE, m.signature, []);
    assert sig + [] == sig;
    assert Wire(m)[1..] == HeaderBytes(m.location, m.id, cavs);
  }

  lemma WireInjective(m: Mac, m': Mac)
    requires m.Sized() && m'.Sized() && Wire(m) == Wire(m')
    ensures m == m'
  {
    WireRoundTrip(m);
    WireRoundTrip(m');
  }

  lemma {:induction false} CaveatsExtend(data: Bytes, more: Bytes)
    requires ParseCaveats(data).Ok?
    ensures var (rest, cavs) := ParseCaveats(data).value; ParseCaveats(data + more) == Ok((rest + more, cavs))
    decreases |data|
  {
    SectionExtends(data, more);
    var (rest, section) := ParseSection(data).value;
    if section != [] {
      CaveatsExtend(rest, more);
    }
  }

  lemma SignatureEndsInput(data: Bytes, more: Bytes)
    requires ParseSignature(data).Ok? && more != []
    ensures ParseSignature(data + more) == Err(TrailingBytes)
  {
    PacketExtends(data, more);
  }

  /** All input is consumed: no accepted string is a proper prefix of another. */
  lemma AcceptsOnlyWholeInput(raw: Bytes, more: Bytes)
    requires FromWire(raw).Ok? && more != []
    ensures FromWire(raw + more) == Err(TrailingBytes)
  {
    var (data, header) := ParseSection(raw[1..]).value;
    var (data', caveats) := ParseCaveats(data).value;
    SliceExtends(raw, 1, more);
    SectionExtends(raw[1..], more);
    CaveatsExtend(data, more);
    SignatureEndsInput(data', more);
  }
}
