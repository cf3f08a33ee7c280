// What the certificate reader refuses, and as what (infra/ops/src/database-ca.ts:50-75): after any handshake records, a
// whole record of another type; after any hellos, a whole message of another type or a Certificate message with no
// entry.
module CertificateRefusals {
  import opened Bytes
  import opened CertificateReader

  // A record of any type, as section 6.2.1 of RFC 5246 lays it out.
  function AnyRecord(kind: byte, f: Fragment): bytes {
    [kind, f.major, f.minor] + U16(|f.body|) + f.body
  }

  lemma AnyRecordStops(kind: byte, f: Fragment, more: bytes)
    requires kind != 22 && |f.body| < 0x1_0000
    ensures Records(AnyRecord(kind, f) + more) == Stopped(if kind == 21 then Alert(f.body) else OtherRecord(kind))
  {
    var all := AnyRecord(kind, f) + more;
    assert all[3..] == U16(|f.body|) + (f.body + more);
    LengthsReadBack(|f.body|, f.body + more);
    assert all[5..5 + |f.body|] == f.body && all[0] == kind;
  }

  // After any handshake records, whatever they carry and whatever follows: a whole alert is refused with its body, and
  // any other whole record that carries no handshake with its type.
  lemma RecordRefused(records: seq<Fragment>, kind: byte, f: Fragment, more: bytes)
    requires Fit(records) && kind != 22 && |f.body| < 0x1_0000
    ensures Read(Flight(records) + (AnyRecord(kind, f) + more))
        == Refused(if kind == 21 then Alert(f.body) else OtherRecord(kind))
  {
    AnyRecordStops(kind, f, more);
    hide Records, AnyRecord;
    RecordsOfFlight(records, AnyRecord(kind, f) + more);
  }

  lemma WholeContent(records: seq<Fragment>)
    requires Fit(records)
    ensures Read(Flight(records)) == Messages(Content(records))
  {
    hide Messages, Records;
    RecordsOfFlight(records, []);
    NothingRead();
    assert Flight(records) + [] == Flight(records) && Content(records) + [] == Content(records);
  }

  lemma NothingRead()
    ensures Records([]) == Handshake([])
  {}

  // After any hellos, however they are cut into records: a whole message that is neither a hello nor the certificates
  // is refused with its type.
  lemma MessageRefused(hellos: seq<bytes>, kind: byte, body: bytes, rest: bytes, records: seq<Fragment>)
    requires (forall i :: 0 <= i < |hellos| ==> |hellos[i]| < 0x100_0000) && |body| < 0x100_0000
    requires kind != 2 && kind != 11 && Fit(records)
    requires Content(records) == Hellos(hellos) + (Message(kind, body) + rest)
    ensures Read(Flight(records)) == Refused(OtherMessage(kind))
  {
    WholeContent(records);
    MessageRead(kind, body, rest);
    OtherKind(kind, body, rest);
    hide Messages, Message;
    MessagesOfHellos(hellos, Message(kind, body) + rest);
  }

  lemma OtherKind(kind: byte, body: bytes, rest: bytes)
    requires kind != 2 && kind != 11 && |body| < 0x100_0000
    ensures Messages(Message(kind, body) + rest) == Refused(OtherMessage(kind))
  {
    MessageRead(kind, body, rest);
  }

  // A Certificate message, whatever it holds, is refused as presenting none if and only if it has no room for an
  // entry's length after the list's own.
  lemma EmptyRefusedIff(hellos: seq<bytes>, body: bytes, rest: bytes, records: seq<Fragment>)
    requires (forall i :: 0 <= i < |hellos| ==> |hellos[i]| < 0x100_0000) && |body| < 0x100_0000
    requires Fit(records) && Content(records) == Hellos(hellos) + (Message(11, body) + rest)
    ensures Read(Flight(records)) == Refused(EmptyChain) <==> |body| < 6
    ensures |body| >= 6 ==> Read(Flight(records)).Chain?
  {
    WholeContent(records);
    CertificateKind(body, rest);
    hide Messages, Message;
    MessagesOfHellos(hellos, Message(11, body) + rest);
  }

  lemma CertificateKind(body: bytes, rest: bytes)
    requires |body| < 0x100_0000
    ensures var verdict := Messages(Message(11, body) + rest);
            if |body| < 6 then verdict == Refused(EmptyChain) else verdict.Chain?
  {
    MessageRead(11, body, rest);
    if |body| >= 3 {
      assert |body[3..]| < 3 <==> |body| < 6;
      assert Certificates(body[3..]) == [] <==> |body[3..]| < 3;
    }
  }
}
