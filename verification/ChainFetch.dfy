// The fetch of a database's certificates over one connection (infra/ops/src/database-ca.ts): PostgreSQL's SSLRequest,
// its one-byte answer, then the TLS flight in whatever chunks the network delivers.
module ChainFetch {
  import opened Bytes
  import opened CertificateReader

  datatype Outcome =
    | Waiting
    | Found(chain: seq<bytes>)
    | NoTls
    | NotPostgres
    | HandshakeFailed(why: Refusal)
    | TimedOut
    | Unreachable
    | HungUp

  datatype Event = Connected | Data(chunk: bytes) | Timeout | SocketError | Closed

  datatype State = State(answered: bool, flight: bytes, written: seq<bytes>, outcome: Outcome)

  const SSL_REQUEST: bytes := [0, 0, 0, 8, 0x04, 0xd2, 0x16, 0x2f]

  const START := State(false, [], [], Waiting)

  function Verdicted(s: State): State {
    match Read(s.flight)
    case Incomplete => s
    case Chain(certificates) => s.(outcome := Found(certificates))
    case Refused(why) => s.(outcome := HandshakeFailed(why))
  }

  // The promise settles once and the socket is destroyed then: nothing after that counts.
  function Step(s: State, e: Event, hello: bytes): State {
    if s.outcome != Waiting then s
    else match e
      case Connected => s.(written := s.written + [SSL_REQUEST])
      case Timeout => s.(outcome := TimedOut)
      case SocketError => s.(outcome := Unreachable)
      case Closed => s.(outcome := HungUp)
      case Data(chunk) =>
        if s.answered then Verdicted(s.(flight := s.flight + chunk))
        else if chunk != [] && chunk[0] == 0x4e then s.(answered := true, outcome := NoTls)
        else if chunk == [] || chunk[0] != 0x53 then s.(answered := true, outcome := NotPostgres)
        else Verdicted(s.(answered := true, written := s.written + [hello], flight := s.flight + chunk[1..]))
  }

  function Run(events: seq<Event>, hello: bytes): State {
    if events == [] then START else Step(Run(events[..|events| - 1], hello), events[|events| - 1], hello)
  }

  class Fetch {
    const hello: bytes
    var answered: bool
    var flight: bytes
    var written: seq<bytes>
    var outcome: Outcome

    function Abstract(): State
      reads this
    {
      State(answered, flight, written, outcome)
    }

    constructor (hello: bytes)
      ensures Abstract() == START && this.hello == hello
    {
      this.hello := hello;
      answered, flight, written, outcome := false, [], [], Waiting;
    }

    // `socket.on("data", …)`, while the promise is unsettled.
    method OnData(chunk: bytes)
      requires outcome == Waiting
      modifies this
      ensures Abstract() == Step(old(Abstract()), Data(chunk), hello)
    {
      var data := chunk;
      if !answered {
        answered := true;
        if |data| > 0 && data[0] == 0x4e {
          outcome := NoTls;
          return;
        }
        if |data| == 0 || data[0] != 0x53 {
          outcome := NotPostgres;
          return;
        }
        written := written + [hello];
        data := data[1..];
      }
      flight := flight + data;
      var verdict := CertificatesIn(flight);
      match verdict
      case Incomplete =>
      case Chain(certificates) => outcome := Found(certificates);
      case Refused(why) => outcome := HandshakeFailed(why);
    }

    // Every other event of the socket, and the timer.
    method On(e: Event)
      requires !e.Data? && outcome == Waiting
      modifies this
      ensures Abstract() == Step(old(Abstract()), e, hello)
    {
      match e
      case Connected => written := written + [SSL_REQUEST];
      case Timeout => outcome := TimedOut;
      case SocketError => outcome := Unreachable;
      case Closed => outcome := HungUp;
    }
  }

  // ---------- Every chunking of the same bytes ----------

  function Deliveries(chunks: seq<bytes>): seq<Event> {
    seq(|chunks|, i requires 0 <= i < |chunks| => Data(chunks[i]))
  }

  lemma LastDelivery(chunks: seq<bytes>, hello: bytes)
    requires chunks != []
    ensures var n := |chunks| - 1;
            && Run([Connected] + Deliveries(chunks), hello)
                == Step(Run([Connected] + Deliveries(chunks[..n]), hello), Data(chunks[n]), hello)
            && Concat(chunks) == Concat(chunks[..n]) + chunks[n]
  {
    var n := |chunks| - 1;
    var events := [Connected] + Deliveries(chunks);
    assert events[..|events| - 1] == [Connected] + Deliveries(chunks[..n]);
    assert chunks == chunks[..n] + [chunks[n]];
    ConcatAppend(chunks[..n], [chunks[n]]);
    assert Concat([chunks[n]]) == chunks[n] + Concat([]) == chunks[n];
  }

  // Every verdict along a flight is either "incomplete" or this chain.
  ghost predicate Steady(flight: bytes, chain: seq<bytes>) {
    forall k :: 0 <= k <= |flight| ==> Read(flight[..k]) == Incomplete || Read(flight[..k]) == Chain(chain)
  }

  lemma FlightSteady(hellos: seq<bytes>, chain: seq<bytes>, records: seq<Fragment>, rest: bytes)
    requires Sendable(hellos, chain) && Fit(records) && Content(records) == Opening(hellos, chain) + rest
    ensures Steady(Flight(records), chain)
  {
    forall k | 0 <= k <= |Flight(records)|
      ensures Read(Flight(records)[..k]) == Incomplete || Read(Flight(records)[..k]) == Chain(chain)
    {
      ReadPrefix(hellos, chain, records, rest, k);
    }
  }

  // A chain read from a prefix is read from every longer one: the answer cannot be taken back.
  lemma SteadyMonotone(flight: bytes, chain: seq<bytes>, j: nat, k: nat)
    requires Steady(flight, chain) && j <= k <= |flight| && Read(flight[..j]) == Chain(chain)
    ensures Read(flight[..k]) == Chain(chain)
  {
    assert flight[..k] == flight[..j] + flight[j..k];
    VerdictKept(flight[..j], flight[j..k]);
  }

  // After any chunks that spell S and a prefix of such a flight, the fetch has found the chain exactly when that prefix
  // reads as it, and otherwise waits: where the chunks are cut does not matter.
  lemma {:induction false} ChunkedRun(flight: bytes, chain: seq<bytes>, chunks: seq<bytes>, k: nat, hello: bytes)
    requires Steady(flight, chain) && k <= |flight|
    requires forall i :: 0 <= i < |chunks| ==> chunks[i] != []
    requires Concat(chunks) == if chunks == [] then [] else [0x53] + flight[..k]
    ensures Run([Connected] + Deliveries(chunks), hello).outcome
      == (if chunks != [] && Read(flight[..k]) == Chain(chain) then Found(chain) else Waiting)
    ensures Heard(Run([Connected] + Deliveries(chunks), hello), chunks, flight[..k], hello)
  {
    NoChunks();
    hide Read, Concat;
    if chunks == [] {
      var events := [Connected] + Deliveries(chunks);
      assert events == [Connected] && events[..0] == [];
    } else {
      var n := |chunks| - 1;
      var earlier, last := chunks[..n], chunks[n];
      LastDelivery(chunks, hello);
      var before := Run([Connected] + Deliveries(earlier), hello);
      if n == 0 {
        assert earlier == [];
        ChunkedRun(flight, chain, [], 0, hello);
        assert last == [0x53] + flight[..k];
        assert last[1..] == flight[..k] && before.flight + last[1..] == flight[..k];
      } else {
        var j := Earlier(flight, chunks, k);
        ChunkedRun(flight, chain, earlier, j, hello);
        if Read(flight[..j]) == Chain(chain) {
          SteadyMonotone(flight, chain, j, k);
        }
      }
    }
  }

  lemma NoChunks()
    ensures Concat([]) == []
  {}

  // What the fetch has kept and written once it has heard `chunks`.
  predicate Heard(s: State, chunks: seq<bytes>, flight: bytes, hello: bytes) {
    && s.answered == (chunks != [])
    && s.written == (if chunks == [] then [SSL_REQUEST] else [SSL_REQUEST, hello])
    && (s.outcome == Waiting ==> s.flight == if chunks == [] then [] else flight)
  }

  lemma Earlier(flight: bytes, chunks: seq<bytes>, k: nat) returns (j: nat)
    requires |chunks| > 1 && chunks[0] != [] && k <= |flight| && Concat(chunks) == [0x53] + flight[..k]
    ensures j <= k && Concat(chunks[..|chunks| - 1]) == [0x53] + flight[..j]
    ensures flight[..j] + chunks[|chunks| - 1] == flight[..k]
  {
    var n := |chunks| - 1;
    var before, last := Concat(chunks[..n]), chunks[n];
    assert chunks == chunks[..n] + [last];
    ConcatAppend(chunks[..n], [last]);
    assert Concat([last]) == last + Concat([]) == last;
    FirstChunk(chunks[..n]);
    j := |before| - 1;
    assert before == ([0x53] + flight[..k])[..|before|] == [0x53] + flight[..j];
    assert last == ([0x53] + flight[..k])[|before|..] == flight[j..k];
  }

  lemma FirstChunk(chunks: seq<bytes>)
    requires chunks != [] && chunks[0] != []
    ensures |Concat(chunks)| >= 1
  {}

  // The main result: for every chain, fragmentation and chunking, the fetch ends with the chain the server sent, having
  // asked for TLS once and said hello once.
  lemma FetchFindsChain(hellos: seq<bytes>, chain: seq<bytes>, records: seq<Fragment>, rest: bytes, chunks: seq<bytes>,
      hello: bytes)
    requires Sendable(hellos, chain) && Fit(records) && Content(records) == Opening(hellos, chain) + rest
    requires forall i :: 0 <= i < |chunks| ==> chunks[i] != []
    requires Concat(chunks) == [0x53] + Flight(records)
    ensures var s := Run([Connected] + Deliveries(chunks), hello);
            s.outcome == Found(chain) && s.written == [SSL_REQUEST, hello]
  {
    FlightSteady(hellos, chain, records, rest);
    ReadUndoesFlight(hellos, chain, records, rest);
    assert Flight(records)[..|Flight(records)|] == Flight(records);
    assert chunks != [];
    ChunkedRun(Flight(records), chain, chunks, |Flight(records)|, hello);
  }

  // Once settled, no later event changes the outcome: not the close that follows, nor the timer.
  lemma {:induction false} SettledOnce(events: seq<Event>, later: seq<Event>, hello: bytes)
    requires Run(events, hello).outcome != Waiting
    ensures Run(events + later, hello) == Run(events, hello)
  {
    if later == [] {
      assert events + later == events;
    } else {
      var n := |later| - 1;
      SettledOnce(events, later[..n], hello);
      assert (events + later)[..|events + later| - 1] == events + later[..n];
    }
  }

  // ---------- How any run ends ----------

  // The bytes of every delivery, joined.
  function Joined(events: seq<Event>): bytes {
    if events == [] then []
    else Joined(events[..|events| - 1]) + if events[|events| - 1].Data? then events[|events| - 1].chunk else []
  }

  function Tail(b: bytes): bytes {
    if b == [] then [] else b[1..]
  }

  predicate HasData(events: seq<Event>) {
    exists i :: 0 <= i < |events| && events[i].Data?
  }

  // Nothing was delivered, or an S and a flight that is still incomplete.
  predicate Spells(events: seq<Event>) {
    HasData(events) ==>
      var heard := Joined(events); heard != [] && heard[0] == 0x53 && Read(heard[1..]) == Incomplete
  }

  // Connections and deliveries alone, and at no point anything but an S and an incomplete flight.
  predicate Undecided(events: seq<Event>) {
    && (forall i :: 0 <= i < |events| ==> events[i].Connected? || events[i].Data?)
    && forall n :: 0 <= n <= |events| ==> Spells(events[..n])
  }

  // A request for each connection, and one hello, at the first delivery.
  function Sent(events: seq<Event>, hello: bytes): seq<bytes> {
    if events == [] then []
    else
      var before, last := events[..|events| - 1], events[|events| - 1];
      Sent(before, hello)
      + if last.Connected? then [SSL_REQUEST] else if last.Data? && !HasData(before) then [hello] else []
  }

  // What the event that decides makes of it, after what was heard before.
  function Ending(before: seq<Event>, e: Event): Outcome {
    match e
    case Connected => Waiting
    case Timeout => TimedOut
    case SocketError => Unreachable
    case Closed => HungUp
    case Data(chunk) =>
      var heard := Joined(before) + chunk;
      if heard == [] then NotPostgres
      else if heard[0] == 0x4e then NoTls
      else if heard[0] != 0x53 then NotPostgres
      else
        match Read(heard[1..])
        case Incomplete => Waiting
        case Chain(certificates) => Found(certificates)
        case Refused(why) => HandshakeFailed(why)
  }

  lemma UndecidedPrefix(events: seq<Event>)
    requires events != [] && Undecided(events)
    ensures Undecided(events[..|events| - 1]) && Spells(events)
  {
    hide Spells;
    var before := events[..|events| - 1];
    assert events[..|events|] == events;
    forall n | 0 <= n <= |before|
      ensures Spells(before[..n])
    {
      assert before[..n] == events[..n];
    }
  }

  lemma HasDataStep(events: seq<Event>)
    requires events != []
    ensures HasData(events) <==> HasData(events[..|events| - 1]) || events[|events| - 1].Data?
    ensures !HasData(events) ==> Joined(events) == []
  {
    var n := |events| - 1;
    if HasData(events[..n]) {
      var i :| 0 <= i < n && events[..n][i].Data?;
      assert events[i].Data?;
    }
    NoneJoined(events);
  }

  lemma {:induction false} NoneJoined(events: seq<Event>)
    ensures !HasData(events) ==> Joined(events) == []
  {
    if events != [] && !HasData(events) {
      var n := |events| - 1;
      assert forall i :: 0 <= i < n ==> events[..n][i] == events[i];
      NoneJoined(events[..n]);
    }
  }

  // What the fetch knows and has written while nothing has decided.
  lemma {:induction false} WaitsWhileUndecided(events: seq<Event>, hello: bytes)
    requires Undecided(events)
    ensures var s := Run(events, hello);
            && s.outcome == Waiting && s.answered == HasData(events) && s.written == Sent(events, hello)
            && s.flight == if HasData(events) then Tail(Joined(events)) else []
  {
    if events != [] {
      var n := |events| - 1;
      UndecidedPrefix(events);
      WaitsWhileUndecided(events[..n], hello);
      UndecidedSpells(events[..n]);
      HasDataStep(events);
      NoneJoined(events[..n]);
      WaitingStep(Run(events[..n], hello), events[..n], events[n], hello);
      assert Joined(events) == Joined(events[..n]) + if events[n].Data? then events[n].chunk else [];
      hide Step, Spells, Undecided, HasData;
    }
  }

  lemma WaitingStep(s: State, before: seq<Event>, e: Event, hello: bytes)
    requires s.outcome == Waiting && s.answered == HasData(before) && (e.Connected? || e.Data?)
    requires s.flight == if HasData(before) then Tail(Joined(before)) else []
    requires HasData(before) ==> Joined(before) != []
    requires !HasData(before) ==> Joined(before) == []
    requires var heard := Joined(before) + if e.Data? then e.chunk else [];
             e.Data? ==> heard != [] && heard[0] == 0x53 && Read(heard[1..]) == Incomplete
    ensures var t := Step(s, e, hello); var heard := Joined(before) + if e.Data? then e.chunk else [];
            && t.outcome == Waiting && t.answered == (s.answered || e.Data?)
            && t.flight == (if t.answered then Tail(heard) else [])
            && t.written == s.written
               + if e.Connected? then [SSL_REQUEST] else if e.Data? && !s.answered then [hello] else []
  {
    hide Read, HasData, Joined;
    if e.Data? && s.answered {
      assert (Joined(before) + e.chunk)[1..] == Joined(before)[1..] + e.chunk;
    }
    if e.Data? && !s.answered {
      assert Joined(before) + e.chunk == e.chunk && s.flight + e.chunk[1..] == e.chunk[1..];
    }
    if e.Connected? {
      assert Joined(before) + [] == Joined(before);
    }
  }

  lemma UndecidedSpells(events: seq<Event>)
    requires Undecided(events)
    ensures Spells(events)
  {
    assert events[..|events|] == events;
  }

  lemma UndecidedMore(events: seq<Event>, e: Event)
    requires Undecided(events) && !Undecided(events + [e])
    ensures e.Timeout? || e.SocketError? || e.Closed? || (e.Data? && !Spells(events + [e]))
  {
    hide Spells;
    if e.Connected? || (e.Data? && Spells(events + [e])) {
      var all := events + [e];
      forall n | 0 <= n <= |all|
        ensures Spells(all[..n])
      {
        if n == |all| {
          assert all[..n] == all;
          if e.Connected? {
            ConnectedSpells(events);
          }
        } else {
          assert all[..n] == events[..n];
        }
      }
    }
  }

  lemma ConnectedSpells(events: seq<Event>)
    requires Undecided(events)
    ensures Spells(events + [Connected])
  {
    UndecidedSpells(events);
    assert (events + [Connected])[..|events|] == events;
    HasDataStep(events + [Connected]);
    assert Joined(events + [Connected]) == Joined(events) + [] == Joined(events);
  }

  // Of every run: the first event that decides it gives the outcome, whatever follows; and where that is not an S, all
  // the fetch ever wrote is its requests, and it kept no flight.
  lemma EndsAs(before: seq<Event>, e: Event, later: seq<Event>, hello: bytes)
    requires Undecided(before) && !Undecided(before + [e])
    ensures var s := Run(before + [e] + later, hello);
            && s.outcome == Ending(before, e) != Waiting
            && (!HasData(before) && (e.Data? ==> e.chunk == [] || e.chunk[0] != 0x53) ==>
              s.flight == [] && forall i :: 0 <= i < |s.written| ==> s.written[i] == SSL_REQUEST)
  {
    WaitsWhileUndecided(before, hello);
    UndecidedSpells(before);
    UndecidedMore(before, e);
    NoneJoined(before);
    var all := before + [e];
    assert all[..|before|] == before;
    HasDataStep(all);
    DecidingStep(Run(before, hello), before, e, hello);
    SettledOnce(all, later, hello);
    if !HasData(before) {
      OnlyRequests(before, hello);
    }
  }

  lemma DecidingStep(s: State, before: seq<Event>, e: Event, hello: bytes)
    requires s.outcome == Waiting && s.answered == HasData(before) && !e.Connected?
    requires s.flight == if HasData(before) then Tail(Joined(before)) else []
    requires HasData(before) ==> Joined(before) != [] && Joined(before)[0] == 0x53
    requires !HasData(before) ==> Joined(before) == []
    ensures Step(s, e, hello).outcome == Ending(before, e)
  {
    hide Read;
    if e.Data? && !HasData(before) {
      assert Joined(before) + e.chunk == e.chunk;
      if e.chunk != [] {
        assert s.flight + e.chunk[1..] == e.chunk[1..];
      }
    }
    if e.Data? && HasData(before) {
      assert (Joined(before) + e.chunk)[1..] == Joined(before)[1..] + e.chunk;
    }
  }

  lemma {:induction false} OnlyRequests(events: seq<Event>, hello: bytes)
    requires !HasData(events)
    ensures forall i :: 0 <= i < |Sent(events, hello)| ==> Sent(events, hello)[i] == SSL_REQUEST
  {
    if events != [] {
      var n := |events| - 1;
      HasDataStep(events);
      OnlyRequests(events[..n], hello);
      assert !events[n].Data?;
      assert Sent(events, hello) == Sent(events[..n], hello) + if events[n].Connected? then [SSL_REQUEST] else [];
    }
  }

  // The first thing sent is PostgreSQL's SSLRequest: its own length, then the code 80877103, each in four bytes.
  lemma RequestsTls()
    ensures |SSL_REQUEST| == 8 && SSL_REQUEST[..4] == [0, 0, 0, 8]
    ensures ((SSL_REQUEST[4] as int * 256 + SSL_REQUEST[5]) * 256 + SSL_REQUEST[6]) * 256 + SSL_REQUEST[7] == 80877103
  {
  }
}
