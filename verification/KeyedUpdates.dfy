// A change the registrar makes of a row ID holds (infra/ops/src/registrar.ts:62-78): the row is read, and what differs
// is sent with its ETag under `<key>-r<revision>`. ID keeps a receipt for each key
// (apps/id/src/services/operations.ts:42-106) and refuses a change of a row that moved on. Requests and answers are
// lost or late, others change the row, and the registration is cut off and run again, with the same declaration or
// another.
module KeyedUpdates {
  import opened Differences

  // What a declaration sends of a row it reads, by the declaration: any function of the two.
  type Planner = (nat, Fields) -> Fields

  datatype Request = Request(revision: nat, patch: Fields)
  datatype Reply = Applied | Replayed | KeyReused | Stale

  // The row, its bodies by revision so far, and ID's receipts and applied changes, by the revision in their key.
  datatype Id = Id(revision: nat, past: map<nat, Fields>, receipts: map<nat, Fields>, applied: seq<nat>)

  function BodyOf(id: Id): Fields
    requires id.revision in id.past
  {
    id.past[id.revision]
  }

  function Moved(id: Id, body: Fields): Id {
    id.(revision := id.revision + 1, past := id.past[id.revision + 1 := body])
  }

  // One transaction: the receipt of a key seen before, else the precondition, else the change with its receipt.
  function Process(id: Id, r: Request): (Id, Reply)
    requires id.revision in id.past
  {
    if r.revision in id.receipts then (id, if id.receipts[r.revision] == r.patch then Replayed else KeyReused)
    else if r.revision != id.revision then (id, Stale)
    else
      (Moved(id, BodyOf(id) + r.patch).(receipts := id.receipts[r.revision := r.patch],
          applied := id.applied + [r.revision]), Applied)
  }

  // ---------- Runs of one registration ----------

  datatype Client = Idle | Sending(call: nat) | Done | Threw

  datatype World = World(id: Id, sent: map<nat, Request>, requests: set<nat>, replies: map<nat, Reply>, nextCall: nat,
      client: Client)

  datatype Event =
    | Begin(declaration: nat) // a run, the one before it cut off: the row read, and what differs sent
    | Arrive(call: nat)       // ID handles a request
    | Lose(call: nat)
    | Deliver                 // the run gets the reply it waits for
    | Timeout
    | Someone(body: Fields)   // anyone else changes the row

  predicate Enabled(w: World, e: Event) {
    match e
    case Arrive(call) => call in w.requests && call in w.sent && w.id.revision in w.id.past
    case Begin(_) => w.id.revision in w.id.past
    case Deliver => w.client.Sending? && w.client.call in w.replies
    case Timeout => w.client.Sending?
    case _ => true
  }

  function Begun(w: World, plan: Planner, declaration: nat): World
    requires w.id.revision in w.id.past
  {
    var patch := plan(declaration, BodyOf(w.id));
    if patch == map[] then w.(client := Done)
    else
      w.(sent := w.sent[w.nextCall := Request(w.id.revision, patch)], requests := w.requests + {w.nextCall},
         nextCall := w.nextCall + 1, client := Sending(w.nextCall))
  }

  function Step(w: World, plan: Planner, e: Event): World {
    if !Enabled(w, e) then w
    else match e
      case Begin(declaration) => Begun(w, plan, declaration)
      case Arrive(call) =>
        var (id, reply) := Process(w.id, w.sent[call]);
        w.(id := id, requests := w.requests - {call}, replies := w.replies[call := reply])
      case Lose(call) => w.(requests := w.requests - {call})
      case Deliver =>
        var reply := w.replies[w.client.call];
        w.(client := if reply.Applied? || reply.Replayed? then Done else Threw)
      case Timeout => w.(client := Threw)
      case Someone(body) => w.(id := Moved(w.id, body))
  }

  function Run(w: World, plan: Planner, events: seq<Event>): World {
    if events == [] then w else Step(Run(w, plan, events[..|events| - 1]), plan, events[|events| - 1])
  }

  // Before any run: a row, and no receipt of its keys.
  predicate Start(w: World) {
    && w.id.past.Keys == {w.id.revision} && w.id.receipts == map[] && w.id.applied == []
    && w.sent == map[] && w.requests == {} && w.replies == map[] && w.client == Idle
  }

  // ---------- What every reachable world keeps ----------

  // A receipt is of a revision the row has left, by that very change.
  predicate ReceiptOk(id: Id, r: nat) {
    r in id.receipts ==>
      r < id.revision && r in id.past && r + 1 in id.past && id.past[r + 1] == id.past[r] + id.receipts[r]
  }

  ghost predicate IdOk(id: Id) {
    && id.revision in id.past && (forall r :: r in id.past ==> r <= id.revision)
    && (forall r :: r in id.receipts ==> ReceiptOk(id, r))
    && (forall r :: r in id.applied <==> r in id.receipts)
    && (forall r: nat :: multiset(id.applied)[r] <= 1)
  }

  // What was sent is what its declaration plans for the body the row had at that revision.
  ghost predicate SentOk(w: World, plan: Planner, call: nat, declarations: set<nat>)
    requires call in w.sent
  {
    var r := w.sent[call];
    call < w.nextCall && r.revision in w.id.past && exists d ::
      d in declarations && r.patch == plan(d, w.id.past[r.revision])
  }

  // A reply stands: an applied or replayed change has its receipt, and a refused key another change's.
  predicate ReplyOk(w: World, call: nat)
    requires call in w.replies
  {
    && call in w.sent
    && (!w.replies[call].Stale? ==>
          && w.sent[call].revision in w.id.receipts
          && (w.replies[call].KeyReused? <==> w.id.receipts[w.sent[call].revision] != w.sent[call].patch))
  }

  ghost predicate Ok(w: World, plan: Planner, declarations: set<nat>) {
    && IdOk(w.id)
    && (forall call :: call in w.sent ==> SentOk(w, plan, call, declarations))
    && (forall call :: call in w.replies ==> ReplyOk(w, call))
    && w.requests <= w.sent.Keys && (w.client.Sending? ==> w.client.call in w.sent)
    && (forall r :: r in w.id.receipts ==> Planned(w.id, plan, r, declarations))
  }

  ghost predicate Planned(id: Id, plan: Planner, r: nat, declarations: set<nat>) {
    r in id.receipts && r in id.past ==> exists d :: d in declarations && id.receipts[r] == plan(d, id.past[r])
  }

  lemma AppliedAppend(applied: seq<nat>, last: nat, r: nat)
    ensures multiset(applied + [last])[r] == multiset(applied)[r] + if r == last then 1 else 0
  {}

  lemma ProcessOk(id: Id, r: Request)
    requires IdOk(id)
    ensures IdOk(Process(id, r).0)
  {
    var t := Process(id, r).0;
    forall k | k in t.receipts
      ensures ReceiptOk(t, k)
    {
      assert ReceiptOk(id, k);
    }
    if t.applied != id.applied {
      forall k: nat
        ensures multiset(t.applied)[k] <= 1
      {
        AppliedAppend(id.applied, r.revision, k);
        assert r.revision !in id.applied;
      }
    }
  }

  lemma MovedOk(id: Id, body: Fields)
    requires IdOk(id)
    ensures IdOk(Moved(id, body))
  {
    forall k | k in id.receipts
      ensures ReceiptOk(Moved(id, body), k)
    {
      assert ReceiptOk(id, k);
    }
  }

  // ID's past and receipts only grow.
  predicate Grows(a: Id, b: Id) {
    && a.revision <= b.revision
    && (forall r :: r in a.past ==> r in b.past && b.past[r] == a.past[r])
    && (forall r :: r in a.receipts ==> r in b.receipts && b.receipts[r] == a.receipts[r])
  }

  lemma ProcessGrows(id: Id, r: Request)
    requires IdOk(id)
    ensures Grows(id, Process(id, r).0)
  {}

  lemma ArriveOk(w: World, plan: Planner, call: nat, declarations: set<nat>)
    requires Ok(w, plan, declarations) && call in w.requests && call in w.sent
    ensures Ok(Step(w, plan, Arrive(call)), plan, declarations)
  {
    var t, r := Step(w, plan, Arrive(call)), w.sent[call];
    ProcessOk(w.id, r);
    ProcessGrows(w.id, r);
    assert SentOk(w, plan, call, declarations);
    forall c | c in t.sent
      ensures SentOk(t, plan, c, declarations)
    {
      assert SentOk(w, plan, c, declarations);
    }
    forall c | c in t.replies
      ensures ReplyOk(t, c)
    {
      assert c != call ==> ReplyOk(w, c);
    }
    forall k | k in t.id.receipts
      ensures Planned(t.id, plan, k, declarations)
    {
      if k in w.id.receipts {
        assert Planned(w.id, plan, k, declarations) && ReceiptOk(w.id, k);
      }
    }
  }

  lemma MovedGrows(id: Id, body: Fields)
    requires IdOk(id)
    ensures Grows(id, Moved(id, body))
  {}

  lemma BeginOk(w: World, plan: Planner, declaration: nat, declarations: set<nat>)
    requires Ok(w, plan, declarations) && declaration in declarations && w.id.revision in w.id.past
    ensures Ok(Begun(w, plan, declaration), plan, declarations)
  {
    hide IdOk, ReplyOk, Planned, ReceiptOk;
    var t := Begun(w, plan, declaration);
    assert forall c :: c in w.sent ==> SentOk(w, plan, c, declarations);
    assert t.sent != w.sent ==> SentOk(t, plan, w.nextCall, declarations);
    StaysOk(w, t, plan, declarations);
  }

  lemma StepOk(w: World, plan: Planner, e: Event, declarations: set<nat>)
    requires Ok(w, plan, declarations) && (e.Begin? ==> e.declaration in declarations)
    ensures Ok(Step(w, plan, e), plan, declarations)
  {
    hide IdOk, ReplyOk, Planned, ReceiptOk;
    if Enabled(w, e) {
      var t := Step(w, plan, e);
      match e
      case Arrive(call) => ArriveOk(w, plan, call, declarations);
      case Someone(body) =>
        MovedOk(w.id, body);
        MovedGrows(w.id, body);
        StaysOk(w, t, plan, declarations);
      case Begin(declaration) => BeginOk(w, plan, declaration, declarations);
      case _ => StaysOk(w, t, plan, declarations);
    }
  }

  // A step that makes no receipt.
  lemma StaysOk(w: World, t: World, plan: Planner, declarations: set<nat>)
    requires Ok(w, plan, declarations) && IdOk(t.id) && Grows(w.id, t.id) && t.id.receipts == w.id.receipts
    requires w.nextCall <= t.nextCall && t.requests <= t.sent.Keys && t.replies == w.replies
             && (t.client.Sending? ==> t.client.call in t.sent)
    requires forall c :: c in w.sent ==> c in t.sent && t.sent[c] == w.sent[c]
    requires forall c :: c in t.sent && c !in w.sent ==> SentOk(t, plan, c, declarations)
    ensures Ok(t, plan, declarations)
  {
    forall c | c in w.sent
      ensures SentOk(t, plan, c, declarations)
    {
      assert SentOk(w, plan, c, declarations);
    }
    forall c | c in t.replies
      ensures ReplyOk(t, c)
    {
      assert ReplyOk(w, c);
    }
    forall k | k in t.id.receipts
      ensures Planned(t.id, plan, k, declarations)
    {
      assert Planned(w.id, plan, k, declarations) && ReceiptOk(w.id, k);
    }
  }

  // Every run's declaration is one of these.
  predicate Declares(events: seq<Event>, declarations: set<nat>) {
    forall i :: 0 <= i < |events| && events[i].Begin? ==> events[i].declaration in declarations
  }

  lemma {:induction false} RunOk(w: World, plan: Planner, events: seq<Event>, declarations: set<nat>)
    requires Ok(w, plan, declarations) && Declares(events, declarations)
    ensures Ok(Run(w, plan, events), plan, declarations)
  {
    if events != [] {
      var n := |events| - 1;
      assert forall i :: 0 <= i < n ==> events[..n][i] == events[i];
      RunOk(w, plan, events[..n], declarations);
      StepOk(Run(w, plan, events[..n]), plan, events[n], declarations);
    }
  }

  function DeclarationsOf(events: seq<Event>): set<nat> {
    set i | 0 <= i < |events| && events[i].Begin? :: events[i].declaration
  }

  lemma Reachable(w: World, plan: Planner, events: seq<Event>)
    requires Start(w)
    ensures Ok(Run(w, plan, events), plan, DeclarationsOf(events))
  {
    RunOk(w, plan, events, DeclarationsOf(events));
  }

  // ---------- The promises ----------

  // Whatever is lost, late or cut off, and whichever declarations are run: no key's change is applied twice.
  lemma AppliedOnce(w: World, plan: Planner, events: seq<Event>, revision: nat)
    requires Start(w)
    ensures multiset(Run(w, plan, events).id.applied)[revision] <= 1
  {
    Reachable(w, plan, events);
  }

  // A run that is told its change was made, now or before, has had it applied exactly once, to the very body it read.
  lemma ReturnedApplied(w: World, plan: Planner, events: seq<Event>)
    requires Start(w)
    requires var t := Run(w, plan, events);
             Enabled(t, Deliver) && t.client.call in t.sent
             && (t.replies[t.client.call].Applied? || t.replies[t.client.call].Replayed?)
    ensures var t := Run(w, plan, events); var sent := t.sent[t.client.call];
            && multiset(t.id.applied)[sent.revision] == 1
            && sent.revision in t.id.past && sent.revision + 1 in t.id.past
            && t.id.past[sent.revision + 1] == t.id.past[sent.revision] + sent.patch
  {
    Reachable(w, plan, events);
    var t := Run(w, plan, events);
    assert ReplyOk(t, t.client.call);
    assert ReceiptOk(t.id, t.sent[t.client.call].revision);
    assert t.sent[t.client.call].revision in multiset(t.id.applied);
  }

  // Over cut and repeated runs of one declaration, no key is refused as used before.
  lemma NeverReused(w: World, plan: Planner, events: seq<Event>, declaration: nat)
    requires Start(w) && Declares(events, {declaration})
    ensures forall call :: call in Run(w, plan, events).replies ==> !Run(w, plan, events).replies[call].KeyReused?
  {
    RunOk(w, plan, events, {declaration});
    var t := Run(w, plan, events);
    forall call | call in t.replies
      ensures !t.replies[call].KeyReused?
    {
      assert ReplyOk(t, call) && SentOk(t, plan, call, {declaration});
      var sent := t.sent[call].revision;
      assert sent in t.id.receipts ==> Planned(t.id, plan, sent, {declaration});
    }
  }

  // ---------- When another declaration's key is refused ----------

  predicate NoBegin(events: seq<Event>) {
    forall i :: 0 <= i < |events| ==> !events[i].Begin?
  }

  // Some earlier run's request is still on its way with another change under the same key.
  predicate Rivalled(w: World, revision: nat, patch: Fields) {
    exists c :: c in w.requests && c in w.sent && w.sent[c].revision == revision && w.sent[c].patch != patch
  }

  ghost predicate MayBeReused(t: World, plan: Planner, call: nat) {
    exists events: seq<Event> :: NoBegin(events) && Reused(Run(t, plan, events), call)
  }

  predicate Reused(w: World, call: nat) {
    call in w.replies && w.replies[call].KeyReused?
  }

  predicate Unrivalled(w: World, call: nat, r: Request) {
    && call in w.sent && w.sent[call] == r && !Rivalled(w, r.revision, r.patch) && !Reused(w, call)
    && (r.revision in w.id.receipts ==> w.id.receipts[r.revision] == r.patch)
  }

  lemma {:induction false} StaysUnrivalled(w: World, plan: Planner, events: seq<Event>, call: nat, r: Request)
    requires NoBegin(events) && Unrivalled(w, call, r)
    ensures Unrivalled(Run(w, plan, events), call, r)
  {
    if events != [] {
      var n := |events| - 1;
      assert forall i :: 0 <= i < n ==> events[..n][i] == events[i];
      StaysUnrivalled(w, plan, events[..n], call, r);
      StepUnrivalled(Run(w, plan, events[..n]), plan, events[n], call, r);
    }
  }

  lemma StepUnrivalled(w: World, plan: Planner, e: Event, call: nat, r: Request)
    requires !e.Begin? && Unrivalled(w, call, r)
    ensures Unrivalled(Step(w, plan, e), call, r)
  {
    if Enabled(w, e) && e.Arrive? {
      assert !Rivalled(w, r.revision, r.patch);
    }
  }

  lemma RunTwo(w: World, plan: Planner, a: Event, b: Event)
    ensures Run(w, plan, [a, b]) == Step(Step(w, plan, a), plan, b)
  {
    assert [a, b][..1] == [a] && [a][..0] == [];
    assert Run(w, plan, []) == w && Run(w, plan, [a]) == Step(w, plan, a);
  }

  // A run's change may be refused as a key used before if and only if, when it begins, a request of an earlier run is
  // still on its way with another change of the same revision: whoever changes a declaration has only to wait that
  // request out.
  lemma ReusedIff(start: World, plan: Planner, events: seq<Event>, declaration: nat)
    requires Start(start)
    ensures var w := Run(start, plan, events);
            w.id.revision in w.id.past && (plan(declaration, BodyOf(w.id)) != map[] ==>
              (MayBeReused(Begun(w, plan, declaration), plan, w.nextCall)
               <==> Rivalled(w, w.id.revision, plan(declaration, BodyOf(w.id)))))
  {
    var w := Run(start, plan, events);
    Reachable(start, plan, events);
    if plan(declaration, BodyOf(w.id)) != map[] {
      RivalDecides(w, plan, DeclarationsOf(events), declaration);
    }
  }

  lemma RivalDecides(w: World, plan: Planner, declarations: set<nat>, declaration: nat)
    requires Ok(w, plan, declarations) && plan(declaration, BodyOf(w.id)) != map[]
    ensures MayBeReused(Begun(w, plan, declaration), plan, w.nextCall)
       <==> Rivalled(w, w.id.revision, plan(declaration, BodyOf(w.id)))
  {
    var r, t := Request(w.id.revision, plan(declaration, BodyOf(w.id))), Begun(w, plan, declaration);
    assert w.id.revision in w.id.receipts ==> ReceiptOk(w.id, w.id.revision);
    assert forall c :: c in w.replies ==> ReplyOk(w, c);
    assert forall c :: c in w.sent ==> SentOk(w, plan, c, declarations);
    hide Ok;
    if Rivalled(w, r.revision, r.patch) {
      var c :| c in w.requests && c in w.sent && w.sent[c].revision == r.revision && w.sent[c].patch != r.patch;
      RunTwo(t, plan, Arrive(c), Arrive(w.nextCall));
      assert NoBegin([Arrive(c), Arrive(w.nextCall)]);
      assert Reused(Run(t, plan, [Arrive(c), Arrive(w.nextCall)]), w.nextCall);
    } else {
      assert Unrivalled(t, w.nextCall, r);
      forall events: seq<Event> | NoBegin(events)
        ensures !Reused(Run(t, plan, events), w.nextCall)
      {
        StaysUnrivalled(t, plan, events, w.nextCall, r);
      }
    }
  }

  // From every start: two runs of declarations that send different changes, the first cut off with its request on its
  // way. That request makes the first change, and the second run's key is refused.
  lemma RivalIsReused(start: World, plan: Planner, first: nat, second: nat)
    requires Start(start) && start.id.revision in start.id.past
    requires plan(first, BodyOf(start.id)) != map[] && plan(second, BodyOf(start.id)) != map[]
             && plan(first, BodyOf(start.id)) != plan(second, BodyOf(start.id))
    ensures var n := start.nextCall; var events := [Begin(first), Begin(second), Arrive(n), Arrive(n + 1)];
            && Rivalled(Run(start, plan, [Begin(first)]), start.id.revision, plan(second, BodyOf(start.id)))
            && Reused(Run(start, plan, events), n + 1)
  {
    hide *;
    var n := start.nextCall;
    var one := Step(start, plan, Begin(first));
    BeginSends(start, plan, first);
    BeginSends(one, plan, second);
    RunOne(start, plan, Begin(first));
    RunTwo(start, plan, Begin(first), Begin(second));
    var two := Step(one, plan, Begin(second));
    RunTwo(two, plan, Arrive(n), Arrive(n + 1));
    Rivals(one, n, second, plan);
    NoReceipts(start);
    TwoArrive(two, plan, n, n + 1);
    assert [Begin(first), Begin(second), Arrive(n), Arrive(n + 1)]
        == [Begin(first), Begin(second)] + [Arrive(n), Arrive(n + 1)];
    RunAppend(start, plan, [Begin(first), Begin(second)], [Arrive(n), Arrive(n + 1)]);
  }

  lemma NoReceipts(w: World)
    requires Start(w)
    ensures w.id.receipts == map[]
  {}

  lemma RunOne(w: World, plan: Planner, e: Event)
    ensures Run(w, plan, [e]) == Step(w, plan, e)
  {
    assert [e][..0] == [] && Run(w, plan, []) == w;
  }

  lemma BeginSends(w: World, plan: Planner, declaration: nat)
    requires w.id.revision in w.id.past && plan(declaration, BodyOf(w.id)) != map[]
    ensures var t, n := Step(w, plan, Begin(declaration)), w.nextCall;
            && t.id == w.id && t.nextCall == n + 1 && t.requests == w.requests + {n}
            && t.sent == w.sent[n := Request(w.id.revision, plan(declaration, BodyOf(w.id)))]
  {}

  lemma Rivals(w: World, call: nat, declaration: nat, plan: Planner)
    requires w.id.revision in w.id.past && call in w.requests && call in w.sent
    requires w.sent[call].revision == w.id.revision && w.sent[call].patch != plan(declaration, BodyOf(w.id))
    ensures Rivalled(w, w.id.revision, plan(declaration, BodyOf(w.id)))
  {}

  lemma TwoArrive(w: World, plan: Planner, c: nat, d: nat)
    requires c != d && {c, d} <= w.requests && {c, d} <= w.sent.Keys && w.id.revision in w.id.past
    requires w.id.revision !in w.id.receipts && w.sent[c].revision == w.id.revision == w.sent[d].revision
             && w.sent[c].patch != w.sent[d].patch
    ensures Reused(Step(Step(w, plan, Arrive(c)), plan, Arrive(d)), d)
  {
    hide BodyOf;
    var t := Step(w, plan, Arrive(c));
    assert t.id.revision in t.id.past && w.id.revision in t.id.receipts;
  }

  lemma {:induction false} RunAppend(w: World, plan: Planner, a: seq<Event>, b: seq<Event>)
    ensures Run(w, plan, a + b) == Run(Run(w, plan, a), plan, b)
  {
    if b == [] {
      assert a + b == a;
    } else {
      assert (a + b)[..|a + b| - 1] == a + b[..|b| - 1];
      RunAppend(w, plan, a, b[..|b| - 1]);
    }
  }

  // What a run is told: it is done when it finds nothing to change, or when its change was made, now or before; it
  // throws when it hears nothing, when the row moved on or when the key was used.
  lemma ToldIff(start: World, plan: Planner, events: seq<Event>, e: Event)
    requires Start(start)
    ensures var w, t := Run(start, plan, events), Run(start, plan, events + [e]);
            && w.id.revision in w.id.past
            && (t.client.Done? && !w.client.Done? <==>
                  || (!w.client.Done? && e.Begin? && plan(e.declaration, w.id.past[w.id.revision]) == map[])
                  || (e.Deliver? && w.client.Sending? && w.client.call in w.replies
                      && w.replies[w.client.call] in {Applied, Replayed}))
            && (t.client.Threw? && !w.client.Threw? <==>
                  || (e.Timeout? && w.client.Sending?)
                  || (e.Deliver? && w.client.Sending? && w.client.call in w.replies
                      && w.replies[w.client.call] in {KeyReused, Stale}))
            && (e.Begin? && plan(e.declaration, w.id.past[w.id.revision]) != map[] ==>
                  t.client == Sending(w.nextCall)
                  && t.sent[w.nextCall] == Request(w.id.revision, plan(e.declaration, w.id.past[w.id.revision])))
  {
    Reachable(start, plan, events);
    assert (events + [e])[..|events|] == events;
  }
}
