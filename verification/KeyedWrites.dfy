// The keyed writes of the admin MCP (mcps/admin/src/calls.ts:70-92) and the commit of `standalone.enable`, one keyed
// write per planned step (mcps/admin/src/standalone.ts:62-72), against an Answerable ID that keeps a receipt per key
// (apps/id/src/services/operations.ts:42-106). Requests and answers are lost, late or refused at will, other staff make
// rows at will, and the client may stop anywhere and commit again.
module KeyedWrites {
  type Key = string

  // What a row is for: a link, a capability or an entitlement, by everything that makes it one.
  type Target = string

  // A link (PUT) that exists already is left; a capability or an entitlement (POST) that exists is refused.
  datatype Request = Request(key: Key, target: Target, link: bool)
  datatype Receipt = Receipt(request: Request, row: nat)

  datatype Reply =
    | Made(row: nat)
    | Replayed(row: nat)
    | Conflict
    | KeyReused
    | InProgress
    | ServerError
    | Denied(stale: bool) // any other refusal: 412, or 403, 404, 422 and the like

  // Rows by what they are for, receipts by key, and the keys whose write made a row, in order.
  datatype Id = Id(rows: map<Target, nat>, receipts: map<Key, Receipt>, applied: seq<Key>, nextRow: nat)

  // One transaction: the receipt of a key seen before, else the write and its receipt together.
  function Process(id: Id, r: Request): (Id, Reply) {
    if r.key in id.receipts then
      (id, if id.receipts[r.key].request == r then Replayed(id.receipts[r.key].row) else KeyReused)
    else if r.target in id.rows then
      if r.link then (id.(receipts := id.receipts[r.key := Receipt(r, id.rows[r.target])]), Made(id.rows[r.target]))
      else (id, Conflict)
    else
      (Id(id.rows[r.target := id.nextRow], id.receipts[r.key := Receipt(r, id.nextRow)], id.applied + [r.key],
          id.nextRow + 1), Made(id.nextRow))
  }

  // ---------- One client committing its steps ----------

  datatype Done = Done(created: seq<nat>, existing: seq<nat>)
  // `UPSTREAM_UNAVAILABLE`, `INTENT_STALE` and `UPSTREAM_REJECTED`.
  datatype Failure = Unavailable | Stale | Rejected

  datatype Client =
    | Idle
    | Sending(index: nat, second: bool, call: nat, done: Done)
    | Finished(done: Done)
    | Threw(index: nat, why: Failure)

  // Calls on the network, by number: requests ID has not handled, and replies on their way back.
  datatype World = World(id: Id, requests: map<nat, Request>, replies: map<nat, Reply>, nextCall: nat, client: Client)

  datatype Event =
    | Commit                       // the commit starts, or starts again after a failure or a crash
    | Crash
    | Arrive(call: nat)            // ID handles a request
    | Refuse(call: nat, busy: bool) // ID answers a 5xx, or that a write with the key is still running; nothing applied
    | Deny(call: nat, stale: bool) // ID refuses a request outright, without applying it
    | Lose(call: nat)              // a request never arrives
    | Deliver                      // the client gets the reply it waits for
    | Timeout                      // it gives up on it
    | Someone(target: Target)      // other staff make a row

  function Send(w: World, steps: seq<Request>, index: nat, second: bool, done: Done): World
    requires index <= |steps|
  {
    if index == |steps| then w.(client := Finished(done))
    else
      w.(requests := w.requests[w.nextCall := steps[index]], nextCall := w.nextCall + 1,
          client := Sending(index, second, w.nextCall, done))
  }

  // No answer, or a 5xx: the same write once more, under the same key; then the outcome is unknown.
  function Again(w: World, steps: seq<Request>): World
    requires w.client.Sending? && w.client.index < |steps|
  {
    if w.client.second then w.(client := Threw(w.client.index, Unavailable))
    else Send(w, steps, w.client.index, true, w.client.done)
  }

  function Received(w: World, steps: seq<Request>, reply: Reply): World
    requires w.client.Sending? && w.client.index < |steps|
  {
    var c := w.client;
    match reply
    case Made(_) => Send(w, steps, c.index + 1, false, c.done.(created := c.done.created + [c.index]))
    case Replayed(_) => Send(w, steps, c.index + 1, false, c.done.(created := c.done.created + [c.index]))
    case Conflict => Send(w, steps, c.index + 1, false, c.done.(existing := c.done.existing + [c.index]))
    case KeyReused => w.(client := Threw(c.index, Rejected))
    case InProgress => w.(client := Threw(c.index, Unavailable))
    case ServerError => Again(w, steps)
    case Denied(stale) => w.(client := Threw(c.index, if stale then Stale else Rejected))
  }

  predicate Enabled(w: World, steps: seq<Request>, e: Event) {
    match e
    case Arrive(call) => call in w.requests
    case Refuse(call, _) => call in w.requests
    case Deny(call, _) => call in w.requests
    case Lose(call) => call in w.requests
    case Deliver => w.client.Sending? && w.client.index < |steps| && w.client.call in w.replies
    case Timeout => w.client.Sending? && w.client.index < |steps|
    case _ => true
  }

  function Step(w: World, steps: seq<Request>, e: Event): World {
    if !Enabled(w, steps, e) then w
    else match e
      case Commit => Send(w, steps, 0, false, Done([], []))
      case Crash => w.(client := Idle)
      case Arrive(call) =>
        var (id, reply) := Process(w.id, w.requests[call]);
        w.(id := id, requests := w.requests - {call}, replies := w.replies[call := reply])
      case Refuse(call, busy) =>
        w.(requests := w.requests - {call}, replies := w.replies[call := if busy then ServerError else InProgress])
      case Deny(call, stale) => w.(requests := w.requests - {call}, replies := w.replies[call := Denied(stale)])
      case Lose(call) => w.(requests := w.requests - {call})
      case Deliver => Received(w, steps, w.replies[w.client.call])
      case Timeout => Again(w, steps)
      case Someone(target) =>
        if target in w.id.rows then w
        else w.(id := w.id.(rows := w.id.rows[target := w.id.nextRow], nextRow := w.id.nextRow + 1))
  }

  function Run(w: World, steps: seq<Request>, events: seq<Event>): World {
    if events == [] then w else Step(Run(w, steps, events[..|events| - 1]), steps, events[|events| - 1])
  }

  // An intent's keys are its own: each step's key names that step alone, and ID has seen none of them.
  predicate Fresh(steps: seq<Request>, id: Id) {
    && (forall i, j :: 0 <= i < j < |steps| ==> steps[i].key != steps[j].key)
    && (forall i :: 0 <= i < |steps| ==> steps[i].key !in id.receipts && steps[i].key !in id.applied)
  }

  // ---------- What ID keeps ----------

  function Count(keys: seq<Key>, key: Key): nat {
    multiset(keys)[key]
  }

  // Each key at most once among the writes that made a row, and then with its receipt; row numbers are never reused.
  ghost predicate IdOk(id: Id) {
    && (forall key :: Count(id.applied, key) <= 1)
    && (forall key :: key in id.applied ==> key in id.receipts)
    && (forall t :: t in id.rows ==> id.rows[t] < id.nextRow)
    && (forall t, u :: t in id.rows && u in id.rows && t != u ==> id.rows[t] != id.rows[u])
    && (forall key :: key in id.receipts ==> ReceiptOk(id, key))
  }

  // A receipt names the row its write is about.
  predicate ReceiptOk(id: Id, key: Key)
    requires key in id.receipts
  {
    var r := id.receipts[key];
    r.request.key == key && r.request.target in id.rows && id.rows[r.request.target] == r.row
    && (key in id.applied || r.request.link)
  }

  lemma CountAppend(keys: seq<Key>, last: Key, key: Key)
    ensures Count(keys + [last], key) == Count(keys, key) + if key == last then 1 else 0
  {}

  lemma ProcessKeepsId(id: Id, r: Request)
    requires IdOk(id)
    ensures IdOk(Process(id, r).0)
  {
    var t := Process(id, r).0;
    if t.applied != id.applied {
      forall key
        ensures Count(t.applied, key) <= 1
      {
        CountAppend(id.applied, r.key, key);
        assert Count(id.applied, r.key) == 0;
      }
    }
    forall key | key in t.receipts
      ensures ReceiptOk(t, key)
    {
      if key in id.receipts {
        assert ReceiptOk(id, key);
      }
    }
  }

  // What Process does to one key's standing.
  predicate Extends(id: Id, t: Id) {
    && (forall u :: u in id.rows ==> u in t.rows && t.rows[u] == id.rows[u])
    && (forall key :: key in id.receipts ==> key in t.receipts && t.receipts[key] == id.receipts[key])
  }

  // ---------- What every reachable world keeps ----------

  // A key of this commit has a receipt only for its own step.
  predicate OwnReceipt(id: Id, step: Request) {
    step.key in id.receipts ==> id.receipts[step.key].request == step
  }

  // A reply says what ID did, and still stands.
  predicate ReplyOk(id: Id, step: Request, reply: Reply) {
    match reply
    case Made(row) => step.key in id.receipts && id.receipts[step.key].row == row
    case Replayed(row) => step.key in id.receipts && id.receipts[step.key].row == row
    case Conflict => step.key !in id.receipts && step.target in id.rows && !step.link
    case KeyReused => false
    case _ => true
  }

  // The steps done so far, each once: created those ID has a receipt for, existing those whose row was someone's.
  predicate DoneOk(id: Id, steps: seq<Request>, n: nat, done: Done)
    requires n <= |steps|
  {
    && done.created == Sorted(id, steps, n, true)
    && done.existing == Sorted(id, steps, n, false)
    && forall i :: 0 <= i < n ==> steps[i].target in id.rows && (steps[i].link ==> steps[i].key in id.receipts)
  }

  // The first `n` steps whose key has a receipt, or has none.
  function Sorted(id: Id, steps: seq<Request>, n: nat, received: bool): seq<nat>
    requires n <= |steps|
  {
    if n == 0 then []
    else Sorted(id, steps, n - 1, received) + if (steps[n - 1].key in id.receipts) == received then [n - 1] else []
  }

  predicate ClientOk(w: World, steps: seq<Request>) {
    match w.client
    case Idle => true
    case Sending(index, _, call, done) =>
      && index < |steps| && call < w.nextCall && DoneOk(w.id, steps, index, done)
      && (call in w.requests ==> w.requests[call] == steps[index])
      && (call in w.replies ==> ReplyOk(w.id, steps[index], w.replies[call]))
    case Finished(done) => DoneOk(w.id, steps, |steps|, done)
    case Threw(index, _) => index < |steps|
  }

  ghost predicate Ok(w: World, steps: seq<Request>) {
    && IdOk(w.id)
    && (forall i :: 0 <= i < |steps| ==> OwnReceipt(w.id, steps[i]))
    && (forall call :: call in w.requests ==> call < w.nextCall && w.requests[call] in steps)
    && (forall call :: call in w.replies ==> call < w.nextCall && !w.replies[call].KeyReused?)
    && ClientOk(w, steps)
  }

  predicate Distinct(steps: seq<Request>) {
    forall i, j :: 0 <= i < j < |steps| ==> steps[i].key != steps[j].key
  }

  // ID only grows, and a key refused for a row that exists stays refused.
  predicate Grows(id: Id, t: Id, steps: seq<Request>) {
    && Extends(id, t)
    && forall i ::
      0 <= i < |steps| && steps[i].key !in id.receipts && steps[i].target in id.rows && !steps[i].link ==>
        steps[i].key !in t.receipts
  }

  lemma GrowsReflexive(id: Id, steps: seq<Request>)
    ensures Grows(id, id, steps)
  {}

  lemma ProcessGrows(id: Id, steps: seq<Request>, r: Request)
    requires IdOk(id) && Distinct(steps) && r in steps && forall i :: 0 <= i < |steps| ==> OwnReceipt(id, steps[i])
    ensures var (t, reply) := Process(id, r);
            Grows(id, t, steps) && ReplyOk(t, r, reply) && forall i :: 0 <= i < |steps| ==> OwnReceipt(t, steps[i])
  {
    var t := Process(id, r).0;
    var at :| 0 <= at < |steps| && steps[at] == r;
    forall i | 0 <= i < |steps|
      ensures OwnReceipt(t, steps[i])
      ensures steps[i].key !in id.receipts && steps[i].target in id.rows && !steps[i].link ==>
          steps[i].key !in t.receipts
    {
      assert OwnReceipt(id, steps[i]) && OwnReceipt(id, steps[at]);
      if steps[i].key == r.key {
        assert i == at;
      }
    }
    if r.key in id.receipts {
      assert OwnReceipt(id, steps[at]);
    }
  }

  lemma {:induction false} SortedStable(id: Id, t: Id, steps: seq<Request>, n: nat, received: bool)
    requires n <= |steps| && Grows(id, t, steps)
    requires forall i :: 0 <= i < n ==> steps[i].target in id.rows && (steps[i].link ==> steps[i].key in id.receipts)
    ensures Sorted(t, steps, n, received) == Sorted(id, steps, n, received)
  {
    if n > 0 {
      SortedStable(id, t, steps, n - 1, received);
    }
  }

  lemma DoneStable(id: Id, t: Id, steps: seq<Request>, n: nat, done: Done)
    requires n <= |steps| && Grows(id, t, steps) && DoneOk(id, steps, n, done)
    ensures DoneOk(t, steps, n, done)
  {
    SortedStable(id, t, steps, n, true);
    SortedStable(id, t, steps, n, false);
  }

  // The client's knowledge outlives whatever ID does meanwhile.
  lemma ClientStable(w: World, t: World, steps: seq<Request>)
    requires ClientOk(w, steps) && Grows(w.id, t.id, steps) && t.client == w.client && w.nextCall <= t.nextCall
    requires forall call :: call in t.requests ==> call in w.requests && t.requests[call] == w.requests[call]
    requires w.client.Sending? && w.client.call in t.replies ==>
      ReplyOk(t.id, steps[w.client.index], t.replies[w.client.call])
      || (w.client.call in w.replies && t.replies[w.client.call] == w.replies[w.client.call])
    ensures ClientOk(t, steps)
  {
    match w.client
    case Sending(index, _, call, done) => DoneStable(w.id, t.id, steps, index, done);
    case Finished(done) => DoneStable(w.id, t.id, steps, |steps|, done);
    case _ =>
  }

  lemma ReplyStable(id: Id, t: Id, steps: seq<Request>, i: nat, reply: Reply)
    requires i < |steps| && Grows(id, t, steps) && ReplyOk(id, steps[i], reply)
    ensures ReplyOk(t, steps[i], reply)
  {}

  // A new request under way, from a client that has done the steps before it.
  lemma SendOk(w: World, steps: seq<Request>, index: nat, second: bool, done: Done)
    requires Ok(w, steps) && index <= |steps| && DoneOk(w.id, steps, index, done)
    ensures Ok(Send(w, steps, index, second, done), steps)
  {}

  lemma ArriveOk(w: World, steps: seq<Request>, call: nat)
    requires Ok(w, steps) && Distinct(steps) && call in w.requests
    ensures Ok(Step(w, steps, Arrive(call)), steps)
  {
    var r, t := w.requests[call], Step(w, steps, Arrive(call));
    ProcessKeepsId(w.id, r);
    ProcessGrows(w.id, steps, r);
    if w.client.Sending? && w.client.call in w.replies && w.client.call != call {
      ReplyStable(w.id, t.id, steps, w.client.index, w.replies[w.client.call]);
    }
    ClientStable(w, t, steps);
  }

  lemma SomeoneKeepsId(id: Id, target: Target)
    requires IdOk(id) && target !in id.rows
    ensures IdOk(id.(rows := id.rows[target := id.nextRow], nextRow := id.nextRow + 1))
  {
    forall key | key in id.receipts
      ensures ReceiptOk(id.(rows := id.rows[target := id.nextRow], nextRow := id.nextRow + 1), key)
    {
      assert ReceiptOk(id, key);
    }
  }

  lemma SomeoneOk(w: World, steps: seq<Request>, target: Target)
    requires Ok(w, steps)
    ensures Ok(Step(w, steps, Someone(target)), steps)
  {
    hide IdOk, DoneOk, ReplyOk;
    if target !in w.id.rows {
      SomeoneKeepsId(w.id, target);
      var t := Step(w, steps, Someone(target));
      assert Grows(w.id, t.id, steps);
      ClientStable(w, t, steps);
      assert forall i :: 0 <= i < |steps| ==> OwnReceipt(w.id, steps[i]);
    }
  }

  // One more step done: created when ID has its receipt, existing when it refused it.
  lemma DoneNext(id: Id, steps: seq<Request>, n: nat, done: Done, reply: Reply)
    requires n < |steps| && DoneOk(id, steps, n, done) && ReplyOk(id, steps[n], reply)
    requires reply.Made? || reply.Replayed? || reply.Conflict?
    requires steps[n].key in id.receipts ==> steps[n].target in id.rows
    ensures DoneOk(id, steps, n + 1,
      if reply.Conflict? then done.(existing := done.existing + [n]) else done.(created := done.created + [n]))
  {}

  lemma ReceivedOk(w: World, steps: seq<Request>)
    requires Ok(w, steps) && Enabled(w, steps, Deliver)
    ensures Ok(Step(w, steps, Deliver), steps)
  {
    var c := w.client;
    var step, reply := steps[c.index], w.replies[c.call];
    if step.key in w.id.receipts {
      assert OwnReceipt(w.id, step) && ReceiptOk(w.id, step.key);
    }
    assert step.key in w.id.receipts ==> step.target in w.id.rows;
    assert Step(w, steps, Deliver) == Received(w, steps, reply);
    if reply.Made? || reply.Replayed? || reply.Conflict? {
      DoneNext(w.id, steps, c.index, c.done, reply);
      NextOk(w, steps, reply);
    } else if reply.ServerError? && !c.second {
      SendOk(w, steps, c.index, true, c.done);
    }
  }

  lemma NextOk(w: World, steps: seq<Request>, reply: Reply)
    requires Ok(w, steps) && w.client.Sending? && w.client.index < |steps|
    requires reply.Made? || reply.Replayed? || reply.Conflict?
    requires var c := w.client; DoneOk(w.id, steps, c.index + 1,
      if reply.Conflict? then c.done.(existing := c.done.existing + [c.index])
      else c.done.(created := c.done.created + [c.index]))
    ensures Ok(Received(w, steps, reply), steps)
  {
    hide IdOk, OwnReceipt, DoneOk;
    var c := w.client;
    if reply.Conflict? {
      SendOk(w, steps, c.index + 1, false, c.done.(existing := c.done.existing + [c.index]));
    } else {
      SendOk(w, steps, c.index + 1, false, c.done.(created := c.done.created + [c.index]));
    }
  }

  lemma StepOk(w: World, steps: seq<Request>, e: Event)
    requires Ok(w, steps) && Distinct(steps)
    ensures Ok(Step(w, steps, e), steps)
  {
    if Enabled(w, steps, e) {
      match e
      case Commit => SendOk(w, steps, 0, false, Done([], []));
      case Crash =>
      case Arrive(call) => ArriveOk(w, steps, call);
      case Refuse(call, busy) =>
        GrowsReflexive(w.id, steps);
        ClientStable(w, Step(w, steps, e), steps);
      case Deny(call, stale) =>
        GrowsReflexive(w.id, steps);
        ClientStable(w, Step(w, steps, e), steps);
      case Lose(call) =>
        GrowsReflexive(w.id, steps);
        ClientStable(w, Step(w, steps, e), steps);
      case Deliver => ReceivedOk(w, steps);
      case Timeout => if !w.client.second { SendOk(w, steps, w.client.index, true, w.client.done); }
      case Someone(target) => SomeoneOk(w, steps, target);
    }
  }

  // Before the intent's first commit: a client that has sent nothing.
  predicate Start(w: World, steps: seq<Request>) {
    w.requests == map[] && w.replies == map[] && w.client == Idle && Fresh(steps, w.id)
  }

  lemma {:induction false} RunOk(w: World, steps: seq<Request>, events: seq<Event>)
    requires IdOk(w.id) && Start(w, steps)
    ensures Ok(Run(w, steps, events), steps)
  {
    if events != [] {
      RunOk(w, steps, events[..|events| - 1]);
      StepOk(Run(w, steps, events[..|events| - 1]), steps, events[|events| - 1]);
    }
  }

  // ---------- The promises ----------

  // Whichever requests and answers are lost, late or refused, and however often the commit is started again, each
  // step's write has made a row at most once.
  lemma AtMostOnce(w: World, steps: seq<Request>, events: seq<Event>, i: nat)
    requires IdOk(w.id) && Start(w, steps) && i < |steps|
    ensures Count(Run(w, steps, events).id.applied, steps[i].key) <= 1
  {
    RunOk(w, steps, events);
  }

  // A write that returns has been applied exactly once, or was a link that stood already, and the row it names is the
  // row of its target.
  lemma ReturnedExactlyOnce(w: World, steps: seq<Request>, events: seq<Event>)
    requires IdOk(w.id) && Start(w, steps)
    requires var t := Run(w, steps, events);
             Enabled(t, steps, Deliver) && (t.replies[t.client.call].Made? || t.replies[t.client.call].Replayed?)
    ensures var t := Run(w, steps, events); var step, reply := steps[t.client.index], t.replies[t.client.call];
            && step.target in t.id.rows && t.id.rows[step.target] == reply.row
            && (Count(t.id.applied, step.key) == 1 || (step.link && Count(t.id.applied, step.key) == 0))
  {
    RunOk(w, steps, events);
    var t := Run(w, steps, events);
    var step := steps[t.client.index];
    assert ReceiptOk(t.id, step.key) && OwnReceipt(t.id, step);
  }

  // No reply ever says that a key of the commit was used before with other input, so that a write throws for one of two
  // reasons: ID refused it outright, and it says which refusal; or ID did not answer its second sending, failed it, or
  // was still at work on the key, and the outcome is unknown.
  lemma ThrowsWhy(w: World, steps: seq<Request>, events: seq<Event>, e: Event)
    requires IdOk(w.id) && Start(w, steps)
    ensures var t := Run(w, steps, events); forall call :: call in t.replies ==> !t.replies[call].KeyReused?
    ensures var t, u := Run(w, steps, events), Run(w, steps, events + [e]);
            !t.client.Threw? && u.client.Threw? ==>
              t.client.Sending? && u.client.index == t.client.index && ThrownFor(t, e, u.client.why)
  {
    RunOk(w, steps, events);
    assert (events + [e])[..|events|] == events;
  }

  // What the client, in the middle of a write, threw for.
  predicate ThrownFor(t: World, e: Event, why: Failure)
    requires t.client.Sending?
  {
    if e.Deliver? && t.client.call in t.replies then
      match t.replies[t.client.call]
      case Denied(stale) => why == if stale then Stale else Rejected
      case InProgress => why == Unavailable
      case ServerError => why == Unavailable && t.client.second
      case _ => false
    else e.Timeout? && why == Unavailable && t.client.second
  }

  // A commit that succeeds, after any number that failed, leaves a row for every planned target, and lists every step
  // once: created exactly those whose write ID has applied under this intent, existing exactly the others.
  lemma CommitListsEachOnce(w: World, steps: seq<Request>, events: seq<Event>, i: nat)
    requires IdOk(w.id) && Start(w, steps) && Run(w, steps, events).client.Finished? && i < |steps|
    ensures var t := Run(w, steps, events); var done := t.client.done;
            && steps[i].target in t.id.rows
            && multiset(done.created + done.existing)[i] == 1 && |done.created| + |done.existing| == |steps|
            && (i in done.created <==> steps[i].key in t.id.receipts)
            && (i in done.existing <==> steps[i].key !in t.id.receipts)
  {
    RunOk(w, steps, events);
    var t := Run(w, steps, events);
    SortedCounts(t.id, steps, |steps|, true, i);
    SortedCounts(t.id, steps, |steps|, false, i);
    SortedCovers(t.id, steps, |steps|);
    assert i in t.client.done.created <==> i in multiset(t.client.done.created);
    assert i in t.client.done.existing <==> i in multiset(t.client.done.existing);
  }

  lemma {:induction false} SortedCounts(id: Id, steps: seq<Request>, n: nat, received: bool, i: nat)
    requires n <= |steps|
    ensures multiset(Sorted(id, steps, n, received))[i] == if i < n && (steps[i].key in id.receipts) == received then 1
            else 0
  {
    if n > 0 {
      SortedCounts(id, steps, n - 1, received, i);
    }
  }

  lemma {:induction false} SortedCovers(id: Id, steps: seq<Request>, n: nat)
    requires n <= |steps|
    ensures |Sorted(id, steps, n, true)| + |Sorted(id, steps, n, false)| == n
  {
    if n > 0 {
      SortedCovers(id, steps, n - 1);
    }
  }

  // ---------- Resumption ----------

  // What a network that works for a while does with the current step: ID handles the request, the client hears.
  function Smooth(w: World, steps: seq<Request>): World
    requires w.client.Sending?
  {
    Step(Step(w, steps, Arrive(w.client.call)), steps, Deliver)
  }

  predicate Waiting(w: World, steps: seq<Request>) {
    w.client.Sending? && w.client.index < |steps| && w.client.call in w.requests
    && w.requests[w.client.call] == steps[w.client.index]
  }

  lemma SmoothAdvances(w: World, steps: seq<Request>)
    requires Ok(w, steps) && Distinct(steps) && Waiting(w, steps)
    ensures var t := Smooth(w, steps);
            Ok(t, steps)
            && (if w.client.index + 1 == |steps| then t.client.Finished?
               else Waiting(t, steps) && t.client.index == w.client.index + 1)
  {
    var a := Step(w, steps, Arrive(w.client.call));
    StepOk(w, steps, Arrive(w.client.call));
    StepOk(a, steps, Deliver);
    assert OwnReceipt(w.id, steps[w.client.index]);
  }

  // From any state any run of failures may have left, starting the commit again finishes it once the network works.
  lemma {:induction false} Finishes(w: World, steps: seq<Request>) returns (events: seq<Event>)
    requires Ok(w, steps) && Distinct(steps) && Waiting(w, steps)
    ensures Run(w, steps, events).client.Finished?
    decreases |steps| - w.client.index
  {
    var t := Smooth(w, steps);
    var two := [Arrive(w.client.call), Deliver];
    SmoothAdvances(w, steps);
    RunPair(w, steps, two[0], two[1]);
    if t.client.Finished? {
      events := two;
    } else {
      var rest := Finishes(t, steps);
      events := two + rest;
      RunAppend(w, steps, two, rest);
    }
  }

  lemma RunPair(w: World, steps: seq<Request>, a: Event, b: Event)
    ensures Run(w, steps, [a, b]) == Step(Step(w, steps, a), steps, b)
  {
    assert [a, b][..1] == [a] && [a][..0] == [];
    assert Run(w, steps, []) == w && Run(w, steps, [a]) == Step(w, steps, a);
  }

  lemma {:induction false} RunAppend(w: World, steps: seq<Request>, a: seq<Event>, b: seq<Event>)
    ensures Run(w, steps, a + b) == Run(Run(w, steps, a), steps, b)
  {
    if b == [] {
      assert a + b == a;
    } else {
      var n := |b| - 1;
      assert (a + b)[..|a + b| - 1] == a + b[..n];
      RunAppend(w, steps, a, b[..n]);
    }
  }

  lemma CommitResumes(w: World, steps: seq<Request>, events: seq<Event>) returns (more: seq<Event>)
    requires IdOk(w.id) && Start(w, steps)
    ensures Run(w, steps, events + [Commit] + more).client.Finished?
  {
    RunOk(w, steps, events);
    var t := Run(w, steps, events);
    StepOk(t, steps, Commit);
    var u := Step(t, steps, Commit);
    assert (events + [Commit])[..|events|] == events;
    assert Run(w, steps, events + [Commit]) == u;
    if u.client.Finished? {
      more := [];
      assert events + [Commit] + more == events + [Commit];
    } else {
      more := Finishes(u, steps);
      RunAppend(w, steps, events + [Commit], more);
    }
  }

  // ---------- How often a write is sent ----------

  // What the client hears of the write it has sent: done, or there already; no answer, or a 5xx; that the key is still
  // at work; or a refusal.
  datatype Hearing = Answered | Silence | Busy | Refusal

  function Hears(w: World, steps: seq<Request>, e: Event): seq<Hearing> {
    if !Enabled(w, steps, e) then []
    else match e
      case Timeout => [Silence]
      case Deliver =>
        [match w.replies[w.client.call]
         case Made(_) => Answered
         case Replayed(_) => Answered
         case Conflict => Answered
         case ServerError => Silence
         case InProgress => Busy
         case _ => Refusal]
      case _ => []
  }

  function HeardIn(w: World, steps: seq<Request>, events: seq<Event>): seq<Hearing> {
    if events == [] then []
    else
      var before := events[..|events| - 1];
      HeardIn(w, steps, before) + Hears(Run(w, steps, before), steps, events[|events| - 1])
  }

  function AnsweredIn(heard: seq<Hearing>): nat {
    if heard == [] then 0 else AnsweredIn(heard[..|heard| - 1]) + if heard[|heard| - 1] == Answered then 1 else 0
  }

  // The outcome of a write is unknown: its key is at work, or it was sent twice and not answered either time.
  predicate UnknownAt(heard: seq<Hearing>, k: nat)
    requires k < |heard|
  {
    heard[k] == Busy || (heard[k] == Silence && k > 0 && heard[k - 1] == Silence)
  }

  predicate Unknown(heard: seq<Hearing>) {
    exists k :: 0 <= k < |heard| && UnknownAt(heard, k)
  }

  predicate AfterSilence(heard: seq<Hearing>) {
    heard != [] && heard[|heard| - 1] == Silence
  }

  // One commit, as told by what the client has heard in it: it is at the step after those done, which it has sent once
  // more exactly when it last heard nothing; it gives up as unavailable exactly on an unknown outcome, and as refused
  // exactly on a refusal; and each hearing but the last answers one sending.
  predicate Told(t: World, from: nat, steps: seq<Request>, heard: seq<Hearing>) {
    match t.client
    case Idle => true
    case Sending(index, second, call, _) =>
      && index == AnsweredIn(heard) < |steps| && (second <==> AfterSilence(heard))
      && !Unknown(heard) && Refusal !in heard
      && call == from + |heard| && t.nextCall == call + 1 && (call in t.requests ==> t.requests[call] == steps[index])
      && |heard| <= 2 * index + if second then 1 else 0
    case Finished(_) =>
      && AnsweredIn(heard) == |steps| && !Unknown(heard) && Refusal !in heard
      && t.nextCall == from + |heard| <= from + 2 * |steps|
    case Threw(index, why) =>
      && index == AnsweredIn(heard) < |steps| && (why == Unavailable <==> Unknown(heard))
      && (why != Unavailable <==> Refusal in heard) && t.nextCall == from + |heard| <= from + 2 * (index + 1)
  }

  lemma HeardMore(heard: seq<Hearing>, h: Hearing)
    ensures var more := heard + [h];
            && AnsweredIn(more) == AnsweredIn(heard) + (if h == Answered then 1 else 0)
            && (Unknown(more) <==> Unknown(heard) || UnknownAt(more, |heard|))
            && (Refusal in more <==> Refusal in heard || h == Refusal)
            && (AfterSilence(more) <==> h == Silence)
  {
    var more := heard + [h];
    assert more[..|more| - 1] == heard;
    assert forall k :: 0 <= k < |heard| ==> (UnknownAt(more, k) <==> UnknownAt(heard, k));
  }

  lemma StepTold(t: World, from: nat, steps: seq<Request>, heard: seq<Hearing>, e: Event)
    requires Told(t, from, steps, heard) && Ok(t, steps) && e != Commit
    ensures Told(Step(t, steps, e), from, steps, heard + Hears(t, steps, e))
  {
    hide Ok, IdOk, Unknown, AnsweredIn, Process;
    var hears := Hears(t, steps, e);
    if hears == [] {
      assert heard + hears == heard;
    } else {
      HeardMore(heard, hears[0]);
    }
  }

  // Between one start of the commit and the next, whatever is lost, late or refused, each step's write is sent once,
  // and once more under the same key exactly after no answer or a 5xx; a second silence ends the commit with the
  // outcome unknown, so that no write goes out more than twice.
  lemma {:induction false} SentOnceMore(w: World, steps: seq<Request>, before: seq<Event>, during: seq<Event>)
    requires IdOk(w.id) && Start(w, steps) && Commit !in during
    ensures var start := Run(w, steps, before);
            Told(Run(w, steps, before + [Commit] + during), start.nextCall, steps,
              HeardIn(Run(w, steps, before + [Commit]), steps, during))
  {
    hide Told, Ok;
    var start, begun := Run(w, steps, before), Run(w, steps, before + [Commit]);
    assert (before + [Commit])[..|before|] == before;
    if during == [] {
      assert before + [Commit] + during == before + [Commit];
      BegunTold(start, steps);
    } else {
      var n := |during| - 1;
      var all := before + [Commit] + during;
      assert all[..|all| - 1] == before + [Commit] + during[..n];
      SentOnceMore(w, steps, before, during[..n]);
      RunOk(w, steps, before + [Commit] + during[..n]);
      RunAppend(w, steps, before + [Commit], during[..n]);
      StepTold(Run(w, steps, before + [Commit] + during[..n]), start.nextCall, steps,
          HeardIn(begun, steps, during[..n]), during[n]);
    }
  }

  lemma BegunTold(w: World, steps: seq<Request>)
    ensures Told(Step(w, steps, Commit), w.nextCall, steps, [])
  {
  }
}
