// The TLS 1.2 ClientHello the certificate fetch sends (infra/ops/src/database-ca.ts), and a reader of it written from
// section 7.4.1.2 of RFC 5246 and, for the server's name, section 3 of RFC 6066.
module ClientHello {
  import opened Options
  import opened Bytes

  datatype Extension = Extension(kind: nat, body: bytes)
  datatype Hello = Hello(random: bytes, suites: seq<nat>, extensions: seq<Extension>)

  // ---------- What the fetch sends ----------

  function Vector(body: bytes): bytes {
    U16(|body|) + body
  }

  function Encoded(e: Extension): bytes {
    U16(e.kind) + Vector(e.body)
  }

  function Numbers(values: seq<nat>): bytes {
    if values == [] then [] else U16(values[0]) + Numbers(values[1..])
  }

  function AllEncoded(extensions: seq<Extension>): bytes {
    if extensions == [] then [] else Encoded(extensions[0]) + AllEncoded(extensions[1..])
  }

  const SUITES: seq<nat> := [0xc02b, 0xc02f, 0xc02c, 0xc030, 0xcca9, 0xcca8, 0x009c, 0x009d]
  const GROUPS: seq<nat> := [0x001d, 0x0017, 0x0018]
  const SIGNATURES: seq<nat> := [0x0403, 0x0804, 0x0401, 0x0503, 0x0805, 0x0501, 0x0806, 0x0601]

  // `isAddress` is node's `isIP(host)`: a server named by an address is not named in the hello.
  function Extensions(host: bytes, isAddress: bool): seq<Extension> {
    (if isAddress then [] else [Extension(0x0000, Vector([0] + Vector(host)))]) +
    [Extension(0x000a, Vector(Numbers(GROUPS))), Extension(0x000b, [1, 0]),
        Extension(0x000d, Vector(Numbers(SIGNATURES)))]
  }

  function Body(h: Hello): bytes {
    U16(0x0303) + h.random + [0] + Vector(Numbers(h.suites)) + [1, 0] + Vector(AllEncoded(h.extensions))
  }

  function Handshake(body: bytes): bytes {
    [1] + U24(|body|) + body
  }

  function Record(handshake: bytes): bytes {
    [0x16, 3, 1] + U16(|handshake|) + handshake
  }

  function Sent(host: bytes, isAddress: bool, random: bytes): Hello {
    Hello(random, SUITES, Extensions(host, isAddress))
  }

  function ClientHello(host: bytes, isAddress: bool, random: bytes): bytes {
    Record(Handshake(Body(Sent(host, isAddress, random))))
  }

  // ---------- How a server reads it ----------

  // A vector with a sixteen-bit length, and what follows it.
  function ReadVector(b: bytes): Option<(bytes, bytes)> {
    if |b| < 2 || 2 + ReadU16(b) > |b| then None
    else Some((b[2..2 + ReadU16(b)], b[2 + ReadU16(b)..]))
  }

  function ReadNumbers(b: bytes): Option<seq<nat>>
    decreases |b|
  {
    if b == [] then Some([])
    else if |b| < 2 then None
    else match ReadNumbers(b[2..])
      case None => None
      case Some(rest) => Some([ReadU16(b)] + rest)
  }

  function ReadExtensions(b: bytes): Option<seq<Extension>>
    decreases |b|
  {
    if b == [] then Some([])
    else if |b| < 2 then None
    else match ReadVector(b[2..])
      case None => None
      case Some((body, rest)) =>
        match ReadExtensions(rest)
        case None => None
        case Some(others) => Some([Extension(ReadU16(b), body)] + others)
  }

  // An empty session id and the null compression method alone are what the fetch may send.
  function ReadBody(b: bytes): Option<Hello> {
    if |b| < 35 || b[..2] != [3, 3] || b[34] != 0 then None
    else match ReadVector(b[35..])
      case None => None
      case Some((suites, rest)) =>
        if |rest| < 2 || rest[..2] != [1, 0] then None
        else match (ReadNumbers(suites), ReadVector(rest[2..]))
          case (Some(numbers), Some((extensions, after))) =>
            if after != [] then None
            else (match ReadExtensions(extensions)
                  case None => None
                  case Some(read) => Some(Hello(b[2..34], numbers, read)))
          case _ => None
  }

  function ReadRecord(b: bytes): Option<Hello> {
    if |b| < 9 || b[..3] != [0x16, 3, 1] || 5 + ReadU16(b[3..]) != |b| then None
    else if b[5] != 1 || 9 + ReadU24(b[6..]) != |b| then None
    else ReadBody(b[9..])
  }

  // The host name of a server name extension: a list holding one name of type 0.
  function ReadServerName(body: bytes): Option<bytes> {
    match ReadVector(body)
    case None => None
    case Some((names, after)) =>
      if after != [] || names == [] || names[0] != 0 then None
      else match ReadVector(names[1..])
        case None => None
        case Some((host, others)) => if others == [] then Some(host) else None
  }

  function ServerName(h: Hello): Option<bytes> {
    if h.extensions == [] || h.extensions[0].kind != 0 then None else ReadServerName(h.extensions[0].body)
  }

  // ---------- Reading undoes writing ----------

  lemma VectorRead(body: bytes, rest: bytes)
    requires |body| < 0x1_0000
    ensures ReadVector(Vector(body) + rest) == Some((body, rest))
  {
    var all := Vector(body) + rest;
    assert all == U16(|body|) + (body + rest);
    LengthsReadBack(|body|, body + rest);
    assert all[2..2 + |body|] == body && all[2 + |body|..] == rest;
  }

  lemma {:induction false} NumbersRead(values: seq<nat>)
    requires forall i :: 0 <= i < |values| ==> values[i] < 0x1_0000
    ensures ReadNumbers(Numbers(values)) == Some(values) && |Numbers(values)| == 2 * |values|
  {
    if values != [] {
      NumbersRead(values[1..]);
      var all := Numbers(values);
      LengthsReadBack(values[0], Numbers(values[1..]));
      assert all[2..] == Numbers(values[1..]);
      assert values == [values[0]] + values[1..];
    }
  }

  predicate Encodable(e: Extension) {
    e.kind < 0x1_0000 && |e.body| < 0x1_0000
  }

  lemma {:induction false} ExtensionsRead(extensions: seq<Extension>)
    requires forall i :: 0 <= i < |extensions| ==> Encodable(extensions[i])
    ensures ReadExtensions(AllEncoded(extensions)) == Some(extensions)
  {
    if extensions != [] {
      var first, rest := extensions[0], AllEncoded(extensions[1..]);
      ExtensionsRead(extensions[1..]);
      assert Encodable(first);
      var all := AllEncoded(extensions);
      assert all == U16(first.kind) + (Vector(first.body) + rest);
      LengthsReadBack(first.kind, Vector(first.body) + rest);
      assert all[2..] == Vector(first.body) + rest;
      VectorRead(first.body, rest);
      assert extensions == [first] + extensions[1..];
    }
  }

  lemma ServerNameRead(host: bytes)
    requires |host| + 3 < 0x1_0000
    ensures ReadServerName(Vector([0] + Vector(host))) == Some(host)
  {
    var names := [0] + Vector(host);
    assert Vector(names) + [] == Vector(names);
    VectorRead(names, []);
    assert names[1..] == Vector(host) + [];
    VectorRead(host, []);
  }

  predicate Sendable(h: Hello) {
    && |h.random| == 32
    && (forall i :: 0 <= i < |h.suites| ==> h.suites[i] < 0x1_0000)
    && (forall i :: 0 <= i < |h.extensions| ==> Encodable(h.extensions[i]))
  }

  lemma BodyRead(h: Hello)
    requires Sendable(h) && |Body(h)| < 0x1_0000
    ensures ReadBody(Body(h)) == Some(h)
  {
    var suites, extensions := Numbers(h.suites), AllEncoded(h.extensions);
    var b := Body(h);
    var rest := [1, 0] + Vector(extensions);
    assert b == [3, 3] + h.random + [0] + (Vector(suites) + rest);
    assert b[..2] == [3, 3] && b[2..34] == h.random && b[34] == 0;
    assert b[35..] == Vector(suites) + rest;
    VectorRead(suites, rest);
    NumbersRead(h.suites);
    assert rest[2..] == Vector(extensions) + [];
    VectorRead(extensions, []);
    ExtensionsRead(h.extensions);
  }

  // Of any hello: a server reads it back when the record's sixteen-bit length holds it, and reads nothing when not.
  lemma RecordRead(h: Hello)
    requires Sendable(h) && 4 + |Body(h)| < 0x1_0000
    ensures ReadRecord(Record(Handshake(Body(h)))) == Some(h)
  {
    BodyRead(h);
    HeadersRead(Body(h));
  }

  lemma HeadersRead(body: bytes)
    requires 4 + |body| < 0x1_0000
    ensures ReadRecord(Record(Handshake(body))) == ReadBody(body)
  {
    hide Body, ReadBody, Sendable;
    var handshake := Handshake(body);
    var all := Record(handshake);
    assert all[3..] == U16(|handshake|) + handshake;
    LengthsReadBack(|handshake|, handshake);
    assert all[6..] == U24(|body|) + body && all[9..] == body && all[5] == 1;
    LengthsReadBack(|body|, body);
  }

  lemma RecordTooLong(handshake: bytes)
    requires |handshake| >= 0x1_0000
    ensures ReadRecord(Record(handshake)) == None
  {
    assert Record(handshake)[3..] == U16(|handshake|) + handshake;
    LengthsReadBack(|handshake|, handshake);
  }

  // ---------- The hello the fetch sends ----------

  function EncodedSize(extensions: seq<Extension>): nat {
    if extensions == [] then 0 else 4 + |extensions[0].body| + EncodedSize(extensions[1..])
  }

  lemma {:induction false} AllEncodedSize(extensions: seq<Extension>)
    ensures |AllEncoded(extensions)| == EncodedSize(extensions)
  {
    if extensions != [] {
      AllEncodedSize(extensions[1..]);
    }
  }

  lemma GroupsAndSignatures()
    ensures |Numbers(GROUPS)| == 6 && |Numbers(SIGNATURES)| == 16
  {
    NumbersRead(GROUPS);
    NumbersRead(SIGNATURES);
  }

  lemma ExtensionsSize(host: bytes, isAddress: bool)
    ensures EncodedSize(Extensions(host, isAddress)) == if isAddress then 40 else 49 + |host|
  {
    GroupsAndSignatures();
    hide Numbers;
    var fixed := Extensions(host, true);
    var groups, points, signatures := fixed[0], fixed[1], fixed[2];
    assert fixed == [groups, points, signatures];
    EncodedSizeCons(signatures, []);
    EncodedSizeCons(points, [signatures]);
    EncodedSizeCons(groups, [points, signatures]);
    if !isAddress {
      EncodedSizeCons(Extensions(host, false)[0], fixed);
    }
  }

  lemma EncodedSizeCons(first: Extension, rest: seq<Extension>)
    ensures EncodedSize([first] + rest) == 4 + |first.body| + EncodedSize(rest)
  {
    assert ([first] + rest)[1..] == rest;
  }

  lemma BodySize(host: bytes, isAddress: bool, random: bytes)
    requires |random| == 32
    ensures |Body(Sent(host, isAddress, random))| == if isAddress then 97 else 106 + |host|
  {
    var h := Sent(host, isAddress, random);
    AllEncodedSize(h.extensions);
    ExtensionsSize(host, isAddress);
    NumbersRead(SUITES);
  }

  // A server reads the fetch's hello back exactly, for every host and every random, if and only if the name has at most
  // 65425 bytes.
  lemma HelloReadIff(host: bytes, isAddress: bool, random: bytes)
    requires |random| == 32
    ensures ReadRecord(ClientHello(host, isAddress, random)) == Some(Sent(host, isAddress, random))
      <==> isAddress || |host| <= 65425
  {
    var hello := Sent(host, isAddress, random);
    BodySize(host, isAddress, random);
    if isAddress || |host| <= 65425 {
      SentSendable(host, isAddress, random);
      RecordRead(hello);
    } else {
      RecordTooLong(Handshake(Body(hello)));
    }
  }

  lemma SentSendable(host: bytes, isAddress: bool, random: bytes)
    requires |random| == 32 && (isAddress || |host| <= 65425)
    ensures Sendable(Sent(host, isAddress, random))
  {
    GroupsAndSignatures();
    hide Numbers;
  }

  // The name the server is asked for is the host, and there is none for an address.
  lemma NameRead(host: bytes, isAddress: bool, random: bytes)
    requires |random| == 32 && (isAddress || |host| <= 65425)
    ensures var hello := ReadRecord(ClientHello(host, isAddress, random));
            hello.Some? && ServerName(hello.value) == if isAddress then None else Some(host)
  {
    HelloReadIff(host, isAddress, random);
    if !isAddress {
      ServerNameRead(host);
    }
  }

  // ---------- What the fetch offers ----------

  // The numbers in an extension that is a vector of them.
  function ReadList(body: bytes): Option<seq<nat>> {
    match ReadVector(body)
    case None => None
    case Some((numbers, after)) => if after == [] then ReadNumbers(numbers) else None
  }

  lemma ListRead(values: seq<nat>)
    requires 2 * |values| < 0x1_0000 && forall i :: 0 <= i < |values| ==> values[i] < 0x1_0000
    ensures ReadList(Vector(Numbers(values))) == Some(values)
  {
    NumbersRead(values);
    VectorRead(Numbers(values), []);
    assert Vector(Numbers(values)) + [] == Vector(Numbers(values));
  }

  // After the server's name, if any: three curves, uncompressed points, eight signature algorithms.
  predicate Offers(extensions: seq<Extension>) {
    && |extensions| == 3
    && extensions[0].kind == 10 && ReadList(extensions[0].body) == Some([29, 23, 24])
    && extensions[1] == Extension(11, [1, 0])
    && extensions[2].kind == 13
    && ReadList(extensions[2].body)
       == Some([0x0403, 0x0804, 0x0401, 0x0503, 0x0805, 0x0501, 0x0806, 0x0601])
  }

  // What a server is offered: the eight suites in order, the caller's random, and those extensions, behind the server's
  // name when the host is no address.
  lemma OffersRead(host: bytes, isAddress: bool, random: bytes)
    requires |random| == 32 && (isAddress || |host| <= 65425)
    ensures var hello := ReadRecord(ClientHello(host, isAddress, random));
            && hello.Some? && hello.value.random == random
            && hello.value.suites == [0xc02b, 0xc02f, 0xc02c, 0xc030, 0xcca9, 0xcca8, 0x009c, 0x009d]
            && (if isAddress then Offers(hello.value.extensions)
                else
                  |hello.value.extensions| == 4 && hello.value.extensions[0].kind == 0
                  && Offers(hello.value.extensions[1..]))
  {
    HelloReadIff(host, isAddress, random);
    FixedOffers(host, isAddress);
    hide Offers, Extensions, ReadRecord, ClientHello;
  }

  lemma FixedOffers(host: bytes, isAddress: bool)
    ensures var sent := Extensions(host, isAddress);
            if isAddress then Offers(sent) else |sent| == 4 && sent[0].kind == 0 && Offers(sent[1..])
  {
    ListRead(GROUPS);
    ListRead(SIGNATURES);
    hide Numbers, ReadList, Vector;
    var fixed := [Extension(0x000a, Vector(Numbers(GROUPS))), Extension(0x000b, [1, 0]),
        Extension(0x000d, Vector(Numbers(SIGNATURES)))];
    assert Offers(fixed);
    if isAddress {
      assert Extensions(host, true) == [] + fixed == fixed;
    } else {
      assert Extensions(host, false)[1..] == fixed;
    }
  }
}
