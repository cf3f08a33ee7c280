// The certificates in what a TLS 1.2 server sends after PostgreSQL's S (infra/ops/src/database-ca.ts): TLS records,
// then handshake messages, then certificates. `Read` says what the loops compute; the encoder below is sections 6.2.1
// and 7.4.2 of RFC 5246, and the theorems say that reading undoes it under every fragmentation and at every prefix.
module CertificateReader {
  import opened Bytes

  datatype Refusal =
    | Alert(body: bytes)
    | OtherRecord(kind: byte)
    | OtherMessage(kind: byte)
    | EmptyChain

  datatype Verdict =
    | Incomplete
    | Chain(certificates: seq<bytes>)
    | Refused(why: Refusal)

  // What the complete records of a flight carry, or why one of them stops the read.
  datatype Carried =
    | Handshake(content: bytes)
    | Stopped(why: Refusal)

  function Prepend(fragment: bytes, c: Carried): Carried {
    match c
    case Handshake(content) => Handshake(fragment + content)
    case Stopped(why) => c
  }

  function Records(flight: bytes): Carried
    decreases |flight|
  {
    if |flight| < 5 then Handshake([])
    else
      var end := 5 + ReadU16(flight[3..]);
      if end > |flight| then Handshake([])
      else if flight[0] == 21 then Stopped(Alert(flight[5..end]))
      else if flight[0] != 22 then Stopped(OtherRecord(flight[0]))
      else Prepend(flight[5..end], Records(flight[end..]))
  }

  // A certificate whose length runs past the list is cut at its end, as `subarray` does.
  function Certificates(list: bytes): seq<bytes>
    decreases |list|
  {
    if |list| < 3 then []
    else
      var end := 3 + ReadU24(list);
      if end > |list| then [list[3..]]
      else [list[3..end]] + Certificates(list[end..])
  }

  // The list's own length is skipped, not checked.
  function Presented(message: bytes): Verdict {
    var found := if |message| < 3 then [] else Certificates(message[3..]);
    if found == [] then Refused(EmptyChain) else Chain(found)
  }

  function Messages(handshake: bytes): Verdict
    decreases |handshake|
  {
    if |handshake| < 4 then Incomplete
    else
      var end := 4 + ReadU24(handshake[1..]);
      if end > |handshake| then Incomplete
      else if handshake[0] == 2 then Messages(handshake[end..])
      else if handshake[0] != 11 then Refused(OtherMessage(handshake[0]))
      else Presented(handshake[4..end])
  }

  function Read(flight: bytes): Verdict {
    match Records(flight)
    case Stopped(why) => Refused(why)
    case Handshake(content) => Messages(content)
  }

  // ---------- The reader, loop by loop ----------

  lemma RecordNext(flight: bytes, at: nat, end: nat)
    requires at + 5 <= |flight| && end == at + 5 + ReadU16(flight[at + 3..])
    ensures Records(flight[at..])
         == if end > |flight| then Handshake([])
            else if flight[at] == 21 then Stopped(Alert(flight[at + 5..end]))
            else if flight[at] != 22 then Stopped(OtherRecord(flight[at]))
            else Prepend(flight[at + 5..end], Records(flight[end..]))
  {
    var rest := flight[at..];
    assert rest[3..] == flight[at + 3..];
    if end <= |flight| {
      assert rest[5..end - at] == flight[at + 5..end] && rest[end - at..] == flight[end..];
    }
  }

  method HandshakeOf(flight: bytes) returns (carried: Carried)
    ensures carried == Records(flight)
  {
    var handshake: bytes := [];
    var at := 0;
    assert flight[0..] == flight;
    while at + 5 <= |flight|
      invariant 0 <= at <= |flight|
      invariant Records(flight) == Prepend(handshake, Records(flight[at..]))
      decreases |flight| - at
    {
      hide Records, ReadU16;
      var kind := flight[at];
      var end := at + 5 + ReadU16(flight[at + 3..]);
      RecordNext(flight, at, end);
      if end > |flight| {
        break;
      }
      var fragment := flight[at + 5..end];
      at := end;
      if kind == 21 {
        return Stopped(Alert(fragment));
      }
      if kind != 22 {
        return Stopped(OtherRecord(kind));
      }
      PrependTwice(handshake, fragment, Records(flight[at..]));
      handshake := handshake + fragment;
    }
    return Handshake(handshake);
  }

  lemma PrependTwice(a: bytes, b: bytes, c: Carried)
    ensures Prepend(a, Prepend(b, c)) == Prepend(a + b, c)
  {
    if c.Handshake? {
      assert a + (b + c.content) == (a + b) + c.content;
    }
  }

  lemma CertificateNext(message: bytes, next: nat, end: nat)
    requires next + 3 <= |message| && end == if next + 3 + ReadU24(message[next..]) <= |message|
             then next + 3 + ReadU24(message[next..]) else |message|
    ensures Certificates(message[next..]) == [message[next + 3..end]] + Certificates(message[end..])
    ensures next + 3 + ReadU24(message[next..]) > |message| ==> Certificates(message[end..]) == []
  {
    var rest := message[next..];
    var length := ReadU24(rest);
    assert Certificates(rest)
        == if 3 + length > |rest| then [rest[3..]] else [rest[3..3 + length]] + Certificates(rest[3 + length..]);
    assert |message[end..]| < 3 ==> Certificates(message[end..]) == [];
    hide ReadU24, Certificates;
    if 3 + length > |rest| {
      assert rest[3..] == message[next + 3..end];
    } else {
      assert rest[3..3 + length] == message[next + 3..end] && rest[3 + length..] == message[end..];
    }
  }

  method CertificatesOf(message: bytes) returns (certificates: seq<bytes>)
    ensures certificates == if |message| < 3 then [] else Certificates(message[3..])
  {
    hide Certificates, ReadU24;
    certificates := [];
    var next := 3;
    while next + 3 <= |message|
      invariant 3 <= next
      invariant next <= |message| ==> Certificates(message[3..]) == certificates + Certificates(message[next..])
      invariant next > |message| >= 3 ==> Certificates(message[3..]) == certificates
      invariant |message| < 3 ==> certificates == []
      decreases |message| - next
    {
      var length := ReadU24(message[next..]);
      var end := if next + 3 + length <= |message| then next + 3 + length else |message|;
      CertificateNext(message, next, end);
      assert certificates + ([message[next + 3..end]] + Certificates(message[end..]))
          == certificates + [message[next + 3..end]] + Certificates(message[end..]);
      certificates := certificates + [message[next + 3..end]];
      next := next + 3 + length;
    }
    if next <= |message| {
      TooShort(message[next..]);
    }
  }

  lemma TooShort(list: bytes)
    requires |list| < 3
    ensures Certificates(list) == []
  {}

  method CertificatesIn(flight: bytes) returns (verdict: Verdict)
    ensures verdict == Read(flight)
  {
    var carried := HandshakeOf(flight);
    if carried.Stopped? {
      return Refused(carried.why);
    }
    var handshake := carried.content;
    var at := 0;
    while at + 4 <= |handshake|
      invariant 0 <= at <= |handshake|
      invariant Messages(handshake) == Messages(handshake[at..])
      decreases |handshake| - at
    {
      ghost var rest := handshake[at..];
      assert rest[1..] == handshake[at + 1..];
      var kind := handshake[at];
      var end := at + 4 + ReadU24(handshake[at + 1..]);
      if end > |handshake| {
        return Incomplete;
      }
      var message := handshake[at + 4..end];
      assert rest[4..end - at] == message && rest[end - at..] == handshake[end..];
      at := end;
      if kind == 2 {
        continue;
      }
      if kind != 11 {
        return Refused(OtherMessage(kind));
      }
      var certificates := CertificatesOf(message);
      if |certificates| == 0 {
        return Refused(EmptyChain);
      }
      return Chain(certificates);
    }
    return Incomplete;
  }

  // ---------- What a server sends ----------

  // One handshake record: its protocol version and its fragment of the handshake stream.
  datatype Fragment = Fragment(major: byte, minor: byte, body: bytes)

  function Record(f: Fragment): bytes {
    [22, f.major, f.minor] + U16(|f.body|) + f.body
  }

  function Flight(records: seq<Fragment>): bytes {
    if records == [] then [] else Record(records[0]) + Flight(records[1..])
  }

  function Content(records: seq<Fragment>): bytes {
    if records == [] then [] else records[0].body + Content(records[1..])
  }

  predicate Fit(records: seq<Fragment>) {
    forall i :: 0 <= i < |records| ==> |records[i].body| < 0x1_0000
  }

  function Message(kind: byte, body: bytes): bytes {
    [kind] + U24(|body|) + body
  }

  function Hellos(hellos: seq<bytes>): bytes {
    if hellos == [] then [] else Message(2, hellos[0]) + Hellos(hellos[1..])
  }

  function CertificateList(chain: seq<bytes>): bytes {
    if chain == [] then [] else U24(|chain[0]|) + chain[0] + CertificateList(chain[1..])
  }

  function CertificateMessage(chain: seq<bytes>): bytes {
    var list := CertificateList(chain);
    Message(11, U24(|list|) + list)
  }

  // A server's first messages: its hello, and its chain, leaf first. The lengths fit their 24 bits.
  predicate Sendable(hellos: seq<bytes>, chain: seq<bytes>) {
    && chain != []
    && (forall i :: 0 <= i < |hellos| ==> |hellos[i]| < 0x100_0000)
    && 3 + |CertificateList(chain)| < 0x100_0000
  }

  function Opening(hellos: seq<bytes>, chain: seq<bytes>): bytes {
    Hellos(hellos) + CertificateMessage(chain)
  }

  // How many of the records lie whole within the first `k` bytes.
  function Whole(records: seq<Fragment>, k: nat): (n: nat)
    ensures n <= |records|
  {
    if records == [] || |Record(records[0])| > k then 0
    else 1 + Whole(records[1..], k - |Record(records[0])|)
  }

  // ---------- Reading undoes sending ----------

  lemma RecordRead(f: Fragment, rest: bytes)
    requires |f.body| < 0x1_0000
    ensures Records(Record(f) + rest) == Prepend(f.body, Records(rest))
  {
    var all := Record(f) + rest;
    assert all[3..] == U16(|f.body|) + (f.body + rest);
    LengthsReadBack(|f.body|, f.body + rest);
    assert all[5..5 + |f.body|] == f.body && all[5 + |f.body|..] == rest;
  }

  lemma {:induction false} RecordsOfFlight(records: seq<Fragment>, tail: bytes)
    requires Fit(records)
    ensures Records(Flight(records) + tail) == Prepend(Content(records), Records(tail))
  {
    if records == [] {
      assert Flight(records) + tail == tail;
      assert forall c: bytes :: [] + c == c;
    } else {
      var first, rest := records[0], Flight(records[1..]) + tail;
      assert Flight(records) + tail == Record(first) + rest;
      RecordRead(first, rest);
      RecordsOfFlight(records[1..], tail);
      PrependTwice(first.body, Content(records[1..]), Records(tail));
    }
  }

  // A prefix carries the content of its whole records: the cut one is waited for.
  lemma {:induction false} RecordsOfPrefix(records: seq<Fragment>, k: nat)
    requires Fit(records) && k <= |Flight(records)|
    ensures Records(Flight(records)[..k]) == Handshake(Content(records[..Whole(records, k)]))
  {
    if records != [] {
      var first, all := records[0], Flight(records);
      var cut := all[..k];
      if |Record(first)| <= k {
        var k' := k - |Record(first)|;
        RecordsOfPrefix(records[1..], k');
        assert records[..Whole(records, k)] == [first] + records[1..][..Whole(records[1..], k')];
        assert cut == Record(first) + Flight(records[1..])[..k'];
        RecordRead(first, Flight(records[1..])[..k']);
        assert Content(records[..Whole(records, k)])
            == first.body + Content(records[1..][..Whole(records[1..], k')]) by {
          assert records[..Whole(records, k)][1..] == records[1..][..Whole(records[1..], k')];
        }
      } else if 5 <= k {
        var body := Record(first)[5..] + Flight(records[1..]);
        assert all == [22, first.major, first.minor] + (U16(|first.body|) + body);
        assert cut[3..] == U16(|first.body|) + body[..k - 5];
        LengthsReadBack(|first.body|, body[..k - 5]);
      }
    }
  }

  lemma HelloSkipped(body: bytes, rest: bytes)
    requires |body| < 0x100_0000
    ensures Messages(Message(2, body) + rest) == Messages(rest)
  {
    MessageRead(2, body, rest);
  }

  lemma {:induction false} MessagesOfHellos(hellos: seq<bytes>, rest: bytes)
    requires forall i :: 0 <= i < |hellos| ==> |hellos[i]| < 0x100_0000
    ensures Messages(Hellos(hellos) + rest) == Messages(rest)
  {
    hide Messages, Message;
    if hellos == [] {
      assert Hellos(hellos) + rest == rest;
    } else {
      var first, all := hellos[0], Hellos(hellos) + rest;
      assert all == Message(2, first) + (Hellos(hellos[1..]) + rest);
      HelloSkipped(first, Hellos(hellos[1..]) + rest);
      MessagesOfHellos(hellos[1..], rest);
    }
  }

  lemma MessageRead(kind: byte, body: bytes, rest: bytes)
    requires |body| < 0x100_0000
    ensures var all := Message(kind, body) + rest;
            && all[0] == kind && 4 + ReadU24(all[1..]) == |Message(kind, body)|
            && all[4..4 + |body|] == body && all[4 + |body|..] == rest
  {
    var all := Message(kind, body) + rest;
    assert all == [kind] + (U24(|body|) + (body + rest));
    assert all[1..] == U24(|body|) + (body + rest);
    LengthsReadBack(|body|, body + rest);
  }

  lemma {:induction false} CertificatesOfList(chain: seq<bytes>)
    requires |CertificateList(chain)| < 0x100_0000
    ensures Certificates(CertificateList(chain)) == chain
  {
    if chain != [] {
      var first, rest := chain[0], CertificateList(chain[1..]);
      var all := CertificateList(chain);
      assert all == U24(|first|) + (first + rest);
      LengthsReadBack(|first|, first + rest);
      assert all[3..3 + |first|] == first && all[3 + |first|..] == rest;
      CertificatesOfList(chain[1..]);
      assert chain == [first] + chain[1..];
    }
  }

  lemma MessagesOfCertificates(chain: seq<bytes>, rest: bytes)
    requires Sendable([], chain)
    ensures Messages(CertificateMessage(chain) + rest) == Chain(chain)
  {
    var list := CertificateList(chain);
    MessageRead(11, U24(|list|) + list, rest);
    assert (U24(|list|) + list)[3..] == list;
    CertificatesOfList(chain);
  }

  // A message cut short is waited for; a hello before it changes nothing.
  lemma {:induction false} MessagesOfPrefix(hellos: seq<bytes>, chain: seq<bytes>, k: nat)
    requires Sendable(hellos, chain) && k < |Opening(hellos, chain)|
    ensures Messages(Opening(hellos, chain)[..k]) == Incomplete
  {
    var cut := Opening(hellos, chain)[..k];
    if hellos == [] {
      var list := CertificateList(chain);
      CutMessage(11, U24(|list|) + list, k);
      assert Opening(hellos, chain) == CertificateMessage(chain);
    } else {
      var first, rest := hellos[0], Opening(hellos[1..], chain);
      assert Opening(hellos, chain) == Message(2, first) + rest;
      if k < |Message(2, first)| {
        CutMessage(2, first, k);
        assert cut == Message(2, first)[..k];
      } else {
        var k' := k - |Message(2, first)|;
        assert cut == Message(2, first) + rest[..k'];
        MessageRead(2, first, rest[..k']);
        MessagesOfPrefix(hellos[1..], chain, k');
      }
    }
  }

  lemma CutMessage(kind: byte, body: bytes, k: nat)
    requires |body| < 0x100_0000 && k < |Message(kind, body)|
    ensures Messages(Message(kind, body)[..k]) == Incomplete
  {
    var cut := Message(kind, body)[..k];
    if 4 <= k {
      assert cut == [kind] + (U24(|body|) + body[..k - 4]);
      assert cut[1..] == U24(|body|) + body[..k - 4];
      LengthsReadBack(|body|, body[..k - 4]);
    }
  }

  // The main theorem. However the opening messages, and whatever handshake bytes follow them, are split into records,
  // and wherever the flight is cut, the verdict is the chain once the whole records carry the whole Certificate message
  // and "incomplete" until then: never an error, never another chain.
  lemma ReadPrefix(hellos: seq<bytes>, chain: seq<bytes>, records: seq<Fragment>, rest: bytes, k: nat)
    requires Sendable(hellos, chain) && Fit(records) && Content(records) == Opening(hellos, chain) + rest
    requires k <= |Flight(records)|
    ensures Read(Flight(records)[..k]) ==
      if |Content(records[..Whole(records, k)])| >= |Opening(hellos, chain)| then Chain(chain) else Incomplete
  {
    var got := Content(records[..Whole(records, k)]);
    RecordsOfPrefix(records, k);
    ContentSplit(records, Whole(records, k));
    MessagesOfOpening(hellos, chain, rest, |got|);
    assert got == (Opening(hellos, chain) + rest)[..|got|];
  }

  lemma MessagesOfOpening(hellos: seq<bytes>, chain: seq<bytes>, rest: bytes, n: nat)
    requires Sendable(hellos, chain) && n <= |Opening(hellos, chain) + rest|
    ensures Messages((Opening(hellos, chain) + rest)[..n]) ==
      if n >= |Opening(hellos, chain)| then Chain(chain) else Incomplete
  {
    var opening := Opening(hellos, chain);
    var got := (opening + rest)[..n];
    if n >= |opening| {
      var after := rest[..n - |opening|];
      assert got == Hellos(hellos) + (CertificateMessage(chain) + after);
      MessagesOfHellos(hellos, CertificateMessage(chain) + after);
      MessagesOfCertificates(chain, after);
    } else {
      assert got == opening[..n];
      MessagesOfPrefix(hellos, chain, n);
    }
  }

  lemma {:induction false} ContentSplit(records: seq<Fragment>, n: nat)
    requires n <= |records|
    ensures Content(records) == Content(records[..n]) + Content(records[n..])
  {
    if n == 0 {
      assert records[..n] == [] && records[n..] == records;
    } else {
      ContentSplit(records[1..], n - 1);
      assert records[..n][1..] == records[1..][..n - 1] && records[1..][n - 1..] == records[n..];
    }
  }

  lemma {:induction false} WholeOfAll(records: seq<Fragment>)
    ensures Whole(records, |Flight(records)|) == |records|
  {
    if records != [] {
      WholeOfAll(records[1..]);
    }
  }

  // The whole flight: the reader is the encoder's inverse for every chain and every way of cutting it into records.
  lemma ReadUndoesFlight(hellos: seq<bytes>, chain: seq<bytes>, records: seq<Fragment>, rest: bytes)
    requires Sendable(hellos, chain) && Fit(records) && Content(records) == Opening(hellos, chain) + rest
    ensures Read(Flight(records)) == Chain(chain)
  {
    WholeOfAll(records);
    assert records[..|records|] == records && Flight(records)[..|Flight(records)|] == Flight(records);
    ReadPrefix(hellos, chain, records, rest, |Flight(records)|);
  }

  // ---------- Later bytes ----------

  lemma {:induction false} RecordsExtend(flight: bytes, more: bytes)
    ensures Records(flight).Stopped? ==> Records(flight + more) == Records(flight)
    ensures Records(flight).Handshake? && Records(flight + more).Handshake? ==>
      Records(flight).content <= Records(flight + more).content
    decreases |flight|
  {
    var all := flight + more;
    if |flight| >= 5 {
      assert ReadU16(all[3..]) == ReadU16(flight[3..]);
      var end := 5 + ReadU16(flight[3..]);
      if end <= |flight| {
        assert all[5..end] == flight[5..end] && all[end..] == flight[end..] + more;
        RecordsExtend(flight[end..], more);
      }
    }
  }

  lemma {:induction false} MessagesExtend(handshake: bytes, more: bytes)
    requires Messages(handshake) != Incomplete
    ensures Messages(handshake + more) == Messages(handshake)
    decreases |handshake|
  {
    var all := handshake + more;
    assert ReadU24(all[1..]) == ReadU24(handshake[1..]);
    var end := 4 + ReadU24(handshake[1..]);
    assert all[4..end] == handshake[4..end] && all[end..] == handshake[end..] + more;
    if handshake[0] == 2 {
      MessagesExtend(handshake[end..], more);
    }
  }

  // Of any flight at all: a verdict once given is kept by whatever follows, unless what follows holds a whole record
  // that is not a handshake record, which is then the verdict.
  lemma VerdictKept(flight: bytes, more: bytes)
    requires Read(flight) != Incomplete
    ensures Records(flight).Stopped? ==> Read(flight + more) == Read(flight)
    ensures Records(flight).Handshake? ==>
      Read(flight + more) == if Records(flight + more).Handshake? then Read(flight)
      else Refused(Records(flight + more).why)
  {
    RecordsExtend(flight, more);
    if Records(flight).Handshake? && Records(flight + more).Handshake? {
      var before, after := Records(flight).content, Records(flight + more).content;
      assert after == before + after[|before|..];
      MessagesExtend(before, after[|before|..]);
    }
  }

  // So "once complete, the answer is unchanged" holds exactly while every later whole record is a handshake record.
  lemma ChainKeptIff(flight: bytes, more: bytes)
    requires Read(flight).Chain?
    ensures Read(flight + more) == Read(flight) <==> Records(flight + more).Handshake?
  {
    VerdictKept(flight, more);
  }

  // A chain, then an alert in the same delivery: the chain is lost.
  lemma AlertAfterChain()
    ensures var flight := Flight([Fragment(3, 3, CertificateMessage([[7]]))]);
            Read(flight) == Chain([[7]]) && Read(flight + [21, 3, 3, 0, 2, 1, 0]) == Refused(Alert([1, 0]))
  {
    var records := [Fragment(3, 3, CertificateMessage([[7]]))];
    SmallChain();
    ReadUndoesFlight([], [[7]], records, []);
    AlertStops();
    hide Flight, Records, CertificateMessage, Sendable, Fit;
    RecordsOfFlight(records, [21, 3, 3, 0, 2, 1, 0]);
  }

  lemma AlertStops()
    ensures Records([21, 3, 3, 0, 2, 1, 0]) == Stopped(Alert([1, 0]))
  {
    var alert: bytes := [21, 3, 3, 0, 2, 1, 0];
    assert alert[3..] == [0, 2, 1, 0] && alert[5..7] == [1, 0];
  }

  lemma SmallChain()
    ensures Sendable([], [[7]]) && Fit([Fragment(3, 3, CertificateMessage([[7]]))])
    ensures Content([Fragment(3, 3, CertificateMessage([[7]]))]) == Opening([], [[7]]) + []
  {
    assert CertificateList([[7]]) == [0, 0, 1, 7] + CertificateList([]);
  }

  // ---------- Encoding undoes reading ----------

  // Whether the entries of a certificate list fill it exactly.
  predicate Tiled(list: bytes)
    decreases |list|
  {
    list == [] || (|list| >= 3 && 3 + ReadU24(list) <= |list| && Tiled(list[3 + ReadU24(list)..]))
  }

  lemma U24OfRead(b: bytes)
    requires |b| >= 3
    ensures U24(ReadU24(b)) == b[..3]
  {
    var v := ReadU24(b);
    assert v / 256 == b[0] as nat * 256 + b[1] as nat;
  }

  // The reader accepts a list that its entries do not fill, cutting the last certificate: what it read encodes back to
  // the list exactly when they do.
  lemma {:induction false} EncodingUndoesReadingIff(list: bytes)
    requires |list| < 0x100_0000
    ensures CertificateList(Certificates(list)) == list <==> Tiled(list)
    decreases |list|
  {
    if |list| >= 3 {
      var end := 3 + ReadU24(list);
      U24OfRead(list);
      var found := Certificates(list);
      if end > |list| {
        assert found[1..] == [];
        var last := list[3..];
        var again := U24(|last|) + last + CertificateList(found[1..]);
        assert CertificateList(found) == again;
        assert again == U24(|last|) + last;
        LengthsReadBack(|last|, last);
      } else {
        var rest := list[end..];
        EncodingUndoesReadingIff(rest);
        assert found[1..] == Certificates(rest);
        assert CertificateList(found) == list[..3] + list[3..end] + CertificateList(Certificates(rest));
        assert list == list[..3] + list[3..end] + rest;
      }
    }
  }

  // Such a list: an entry of two bytes in a list that ends after its first.
  lemma CutEntryRead()
    ensures var list: bytes := [0, 0, 2, 7];
            Certificates(list) == [[7]] && CertificateList(Certificates(list)) == [0, 0, 1, 7] && !Tiled(list)
  {
    var list: bytes := [0, 0, 2, 7];
    assert ReadU24(list) == 2 && list[3..] == [7];
    assert Certificates(list) == [[7]];
    assert [[7]][1..] == [];
    EncodingUndoesReadingIff(list);
    assert U24(1) == [0, 0, 1];
  }
}
