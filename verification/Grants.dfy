// The Toolbox's cache of members' grant strings (mcps/toolbox/src/grants.ts), as the steps its asynchronous code takes
// between awaits, in any interleaving: reads, Answerable ID's answers and failures, the `finally` that forgets a fetch,
// invalidations and the clock.
module Grants {
  import opened Options

  type Id = string

  // ---------- Grant strings ----------

  predicate Word(s: string, most: nat) {
    1 <= |s| <= most && 'a' <= s[0] <= 'z' && forall i :: 1 <= i < |s| ==> 'a' <= s[i] <= 'z' || '0' <= s[i] <= '9'
  }

  predicate DottedWords(s: string) {
    Word(s, 16) || exists i :: 0 <= i < |s| && s[i] == '.' && Word(s[..i], 16) && Word(s[i + 1..], 16)
  }

  predicate IsGrant(scope: string) {
    scope != "toolbox" &&
    (Word(scope, 12) || exists i ::
      0 <= i < |scope| && scope[i] == '/' && Word(scope[..i], 12) && DottedWords(scope[i + 1..]))
  }

  // A target of a member's access view: the whole resource's, or one client's.
  datatype Target = Target(kind: string, id: Id, resource: Option<Id>, scopes: set<string>)

  // ID's access view, or none for its 404.
  type View = Option<seq<Target>>

  function Onto(t: Target): Option<Id> {
    if t.kind == "resource" then Some(t.id) else t.resource
  }

  // `fetchTargets`: the Toolbox's targets, with their grant strings only.
  function Relevant(view: View, toolbox: Id): seq<Target> {
    match view
    case None => []
    case Some(targets) => Kept(targets, toolbox)
  }

  function Kept(targets: seq<Target>, toolbox: Id): seq<Target> {
    if targets == [] then []
    else
      var t := targets[0];
      (if Onto(t) == Some(toolbox) then [t.(scopes := set s | s in t.scopes && IsGrant(s))] else [])
          + Kept(targets[1..], toolbox)
  }

  // `grantsOf`, without the order of its list.
  function GrantsOf(targets: seq<Target>, clientId: Id): set<string> {
    set i, s | 0 <= i < |targets| && (targets[i].kind == "resource" || targets[i].id == clientId)
    && s in targets[i].scopes :: s
  }

  // What an answer holds: exactly the grant strings the view gives the Toolbox as a whole or this very client of it.
  lemma GrantsOfView(targets: seq<Target>, toolbox: Id, clientId: Id, scope: string)
    ensures scope in GrantsOf(Relevant(Some(targets), toolbox), clientId) <==>
      IsGrant(scope) && exists t ::
        && t in targets && scope in t.scopes
        && (if t.kind == "resource" then t.id == toolbox else t.resource == Some(toolbox) && t.id == clientId)
  {
    var kept := Kept(targets, toolbox);
    KeptAre(targets, toolbox);
    if scope in GrantsOf(kept, clientId) {
      var i :| 0 <= i < |kept| && (kept[i].kind == "resource" || kept[i].id == clientId) && scope in kept[i].scopes;
      assert kept[i] in kept;
      var t :| t in targets && Onto(t) == Some(toolbox) && kept[i] == t.(scopes := set s | s in t.scopes && IsGrant(s));
      assert scope in t.scopes;
    }
    if t :|
        IsGrant(scope) && t in targets && scope in t.scopes
        && (if t.kind == "resource" then t.id == toolbox else t.resource == Some(toolbox) && t.id == clientId) {
      var k := t.(scopes := set s | s in t.scopes && IsGrant(s));
      assert k in kept;
      var i :| 0 <= i < |kept| && kept[i] == k;
      assert scope in kept[i].scopes;
      assert scope in GrantsOf(kept, clientId);
    }
  }

  lemma {:induction false} KeptAre(targets: seq<Target>, toolbox: Id)
    ensures forall t :: t in targets && Onto(t) == Some(toolbox) ==>
      t.(scopes := set s | s in t.scopes && IsGrant(s)) in Kept(targets, toolbox)
    ensures forall k :: k in Kept(targets, toolbox) ==>
      exists t :: t in targets && Onto(t) == Some(toolbox) && k == t.(scopes := set s | s in t.scopes && IsGrant(s))
  {
    if targets != [] {
      KeptAre(targets[1..], toolbox);
      assert targets == [targets[0]] + targets[1..];
    }
  }

  // ---------- The reader's own state ----------

  // The key of a fetch: `<organisation>/<member>/<version>`.
  datatype Key = Key(org: Id, member: Id, version: int)
  datatype Principal = Principal(org: Id, member: Id, userId: Id, version: int, clientId: Id)
  datatype Entry = Entry(userId: Id, version: int, targets: seq<Target>, expiresAt: int, stale: bool)
  type Slot = (Id, Id)
  type Cache = map<Slot, Entry>

  const LIFETIME := 60000

  function KeyOf(p: Principal): Key {
    Key(p.org, p.member, p.version)
  }

  function SlotOf(k: Key): Slot {
    (k.org, k.member)
  }

  function KeptEntry(cache: Cache, p: Principal): Option<Entry> {
    if (p.org, p.member) in cache && cache[(p.org, p.member)].version == p.version then Some(cache[(p.org, p.member)])
    else None
  }

  predicate Usable(kept: Option<Entry>, now: int) {
    kept.Some? && !kept.value.stale && now < kept.value.expiresAt
  }

  // Drop what has expired, then set the slot.
  function Remember(cache: Cache, now: int, slot: Slot, entry: Entry): Cache {
    (map s | s in cache && cache[s].expiresAt > now :: cache[s])[slot := entry]
  }

  function MarkStale(cache: Cache, orgs: set<Id>, users: set<Id>): Cache {
    map s | s in cache :: if s.0 in orgs || cache[s].userId in users then cache[s].(stale := true) else cache[s]
  }

  // Any entry but the one set stays, as it was, exactly while it has not expired.
  predicate Evicts(before: Cache, after: Cache, now: int, slot: Slot) {
    && (forall other :: other in after && other != slot ==> other in before && after[other] == before[other])
    && forall other :: other in before && other != slot ==> (other in after <==> now < before[other].expiresAt)
  }

  lemma RememberEvicts(cache: Cache, now: int, slot: Slot, entry: Entry)
    ensures Evicts(cache, Remember(cache, now, slot, entry), now, slot)
  {}

  // ---------- Every interleaving ----------

  // How a fetch ended: ID's view, the entry kept from before, or neither.
  datatype Outcome = Got(targets: seq<Target>) | Fell(targets: seq<Target>) | Unavailable
  datatype Phase = Asking | Settled(outcome: Outcome, at: int)
  // A pending fetch: its call to ID, for whom it asks, the entry it may fall back on, and the clients of the callers
  // awaiting it.
  datatype Flight = Flight(call: nat, userId: Id, kept: Option<Entry>, phase: Phase, waiters: seq<Id>)

  // History: every view ID answered, and every answer a caller got with the time it was decided.
  datatype Response = Response(call: nat, key: Key, targets: seq<Target>, at: int)
  datatype Via = Cached | Fetched(call: nat) | KeptAfter(call: nat)
  datatype Answer = Answer(key: Key, clientId: Id, grants: Option<set<string>>, decidedAt: int, via: Via)

  datatype State = State(
    now: int, cache: Cache, pending: map<Key, Flight>,
    calls: map<nat, Key>, nextCall: nat, responses: seq<Response>, answers: seq<Answer>, changed: nat)

  datatype Event =
    | Read(p: Principal)
    | Answered(call: nat, view: View)
    | Failed(call: nat)
    | Finally(key: Key)
    | Invalidate(orgs: set<Id>, users: set<Id>)
    | Tick(ms: nat)

  const START := State(0, map[], map[], map[], 0, [], [], 0)

  function ReadStep(s: State, p: Principal): State {
    var kept, key := KeptEntry(s.cache, p), KeyOf(p);
    if Usable(kept, s.now) then
      s.(answers := s.answers
          + [Answer(key, p.clientId, Some(GrantsOf(kept.value.targets, p.clientId)), s.now, Cached)])
    else if key in s.pending then
      s.(pending := s.pending[key := s.pending[key].(waiters := s.pending[key].waiters + [p.clientId])])
    else
      s.(pending := s.pending[key := Flight(s.nextCall, p.userId, kept, Asking, [p.clientId])],
         calls := s.calls[s.nextCall := key], nextCall := s.nextCall + 1)
  }

  function SettleStep(s: State, call: nat, outcome: Outcome): State
    requires call in s.calls && s.calls[call] in s.pending
  {
    var key := s.calls[call];
    s.(pending := s.pending[key := s.pending[key].(phase := Settled(outcome, s.now))], calls := s.calls - {call})
  }

  // ID answers a call: what it says is remembered, and the fetch settles with it.
  function AnsweredStep(s: State, call: nat, view: View, toolbox: Id): State
    requires call in s.calls && s.calls[call] in s.pending
  {
    var key := s.calls[call];
    var targets := Relevant(view, toolbox);
    var entry := Entry(s.pending[key].userId, key.version, targets, s.now + LIFETIME, false);
    SettleStep(s, call, Got(targets)).(
      cache := Remember(s.cache, s.now, SlotOf(key), entry),
      responses := s.responses + [Response(call, key, targets, s.now)])
  }

  // A call fails: the kept entry answers while it has not expired.
  function FailedStep(s: State, call: nat): State
    requires call in s.calls && s.calls[call] in s.pending
  {
    var kept := s.pending[s.calls[call]].kept;
    SettleStep(s, call, if kept.Some? && s.now < kept.value.expiresAt then Fell(kept.value.targets) else Unavailable)
  }

  function AnswerOf(key: Key, f: Flight, clientId: Id): Answer
    requires f.phase.Settled?
  {
    match f.phase.outcome
    case Got(targets) => Answer(key, clientId, Some(GrantsOf(targets, clientId)), f.phase.at, Fetched(f.call))
    case Fell(targets) => Answer(key, clientId, Some(GrantsOf(targets, clientId)), f.phase.at, KeptAfter(f.call))
    case Unavailable => Answer(key, clientId, None, f.phase.at, KeptAfter(f.call))
  }

  function AnswersOf(key: Key, f: Flight, waiters: seq<Id>): seq<Answer>
    requires f.phase.Settled?
  {
    if waiters == [] then [] else [AnswerOf(key, f, waiters[0])] + AnswersOf(key, f, waiters[1..])
  }

  // The `finally` forgets the fetch; then everyone awaiting it is answered.
  function FinallyStep(s: State, key: Key): State
    requires key in s.pending && s.pending[key].phase.Settled?
  {
    s.(pending := s.pending - {key}, answers := s.answers + AnswersOf(key, s.pending[key], s.pending[key].waiters))
  }

  function InvalidateStep(s: State, orgs: set<Id>, users: set<Id>): State {
    s.(cache := MarkStale(s.cache, orgs, users), changed := if orgs != {} || users != {} then s.changed + 1
    else s.changed)
  }

  predicate Enabled(s: State, e: Event) {
    match e
    case Answered(call, _) => call in s.calls && s.calls[call] in s.pending
    case Failed(call) => call in s.calls && s.calls[call] in s.pending
    case Finally(key) => key in s.pending && s.pending[key].phase.Settled?
    case _ => true
  }

  function Step(s: State, e: Event, toolbox: Id): State {
    if !Enabled(s, e) then s
    else match e
      case Read(p) => ReadStep(s, p)
      case Answered(call, view) => AnsweredStep(s, call, view, toolbox)
      case Failed(call) => FailedStep(s, call)
      case Finally(key) => FinallyStep(s, key)
      case Invalidate(orgs, users) => InvalidateStep(s, orgs, users)
      case Tick(ms) => s.(now := s.now + ms)
  }

  function Run(s: State, events: seq<Event>, toolbox: Id): State {
    if events == [] then s else Step(Run(s, events[..|events| - 1], toolbox), events[|events| - 1], toolbox)
  }

  // ---------- Where targets come from ----------

  // A response for this key, of a call numbered `mark` or later, with these targets, received at `at`.
  ghost predicate Sourced(responses: seq<Response>, key: Key, targets: seq<Target>, at: int, mark: nat) {
    exists i ::
      0 <= i < |responses| && responses[i].key == key && responses[i].targets == targets && responses[i].at == at
      && responses[i].call >= mark
  }

  lemma SourcedKept(responses: seq<Response>, more: seq<Response>, key: Key, targets: seq<Target>, at: int, mark: nat)
    requires Sourced(responses, key, targets, at, mark)
    ensures Sourced(responses + more, key, targets, at, mark)
  {
    var i :| 0 <= i < |responses| && responses[i].key == key && responses[i].targets == targets && responses[i].at == at
        && responses[i].call >= mark;
    assert (responses + more)[i] == responses[i];
  }

  ghost predicate EntryFrom(responses: seq<Response>, slot: Slot, e: Entry, mark: nat) {
    Sourced(responses, Key(slot.0, slot.1, e.version), e.targets, e.expiresAt - LIFETIME, mark)
  }

  // An answer with grants holds what a response for its very key, received less than a minute before it was decided,
  // gives its client.
  ghost predicate Fresh(responses: seq<Response>, a: Answer, mark: nat) {
    a.grants.Some? ==> exists i :: 0 <= i < |responses| && Gives(responses[i], a, mark)
  }

  predicate Gives(r: Response, a: Answer, mark: nat) {
    && r.key == a.key && r.call >= mark && r.at <= a.decidedAt < r.at + LIFETIME
    && a.grants == Some(GrantsOf(r.targets, a.clientId))
  }

  lemma FreshKept(responses: seq<Response>, more: seq<Response>, a: Answer, mark: nat)
    requires Fresh(responses, a, mark)
    ensures Fresh(responses + more, a, mark)
  {
    if a.grants.Some? {
      var i :| 0 <= i < |responses| && Gives(responses[i], a, mark);
      assert Gives((responses + more)[i], a, mark);
    }
  }

  lemma FreshFrom(responses: seq<Response>, key: Key, targets: seq<Target>, at: int, mark: nat, a: Answer)
    requires Sourced(responses, key, targets, at, mark) && a.key == key && at <= a.decidedAt < at + LIFETIME
    requires a.grants == Some(GrantsOf(targets, a.clientId))
    ensures Fresh(responses, a, mark)
  {
    var i :| 0 <= i < |responses| && responses[i].key == key && responses[i].targets == targets && responses[i].at == at
        && responses[i].call >= mark;
    assert Gives(responses[i], a, mark);
  }

  // ---------- What every reachable state keeps ----------

  ghost predicate FlightOk(s: State, key: Key)
    requires key in s.pending
  {
    var f := s.pending[key];
    && f.call < s.nextCall && f.waiters != []
    && (f.kept.Some? ==> f.kept.value.version == key.version)
    && (f.kept.Some? ==> EntryOk(s, SlotOf(key), f.kept.value))
    && (f.phase.Asking? ==> f.call in s.calls && s.calls[f.call] == key)
    && (f.phase.Settled? ==> SettledOk(s, key, f))
  }

  ghost predicate EntryOk(s: State, slot: Slot, e: Entry) {
    EntryFrom(s.responses, slot, e, 0) && e.expiresAt <= s.now + LIFETIME
  }

  ghost predicate CallOk(s: State, call: nat)
    requires call in s.calls
  {
    var key := s.calls[call];
    call < s.nextCall && key in s.pending && s.pending[key].phase.Asking? && s.pending[key].call == call
  }

  ghost predicate SettledOk(s: State, key: Key, f: Flight)
    requires f.phase.Settled?
  {
    && f.phase.at <= s.now
    && match f.phase.outcome
       case Got(targets) => Sourced(s.responses, key, targets, f.phase.at, f.call)
       case Fell(targets) =>
         f.kept.Some? && f.kept.value.targets == targets && f.phase.at < f.kept.value.expiresAt <= f.phase.at + LIFETIME
       case Unavailable => true
  }

  ghost predicate Ok(s: State) {
    && (forall slot :: slot in s.cache ==> EntryOk(s, slot, s.cache[slot]))
    && (forall key :: key in s.pending ==> FlightOk(s, key))
    && (forall call :: call in s.calls ==> CallOk(s, call))
    && (forall i :: 0 <= i < |s.answers| ==> Fresh(s.responses, s.answers[i], 0))
    && (forall i :: 0 <= i < |s.responses| ==> s.responses[i].call < s.nextCall)
  }

  lemma ReadOk(s: State, p: Principal)
    requires Ok(s)
    ensures Ok(ReadStep(s, p))
  {
    hide Fresh, EntryFrom, Sourced, GrantsOf;
    var t, kept, key := ReadStep(s, p), KeptEntry(s.cache, p), KeyOf(p);
    assert kept.Some? ==> EntryOk(s, SlotOf(key), kept.value);
    if Usable(kept, s.now) {
      CachedFresh(s, p);
    } else if key in s.pending {
      assert FlightOk(s, key);
      PendingOk(s, t, key);
    } else {
      PendingOk(s, t, key);
    }
  }

  // One pending fetch begun, or joined by one more caller.
  lemma PendingOk(s: State, t: State, key: Key)
    requires Ok(s) && t == s.(pending := t.pending, calls := t.calls, nextCall := t.nextCall)
    requires t.pending.Keys == s.pending.Keys + {key} && FlightOk(t, key) && s.nextCall <= t.nextCall
    requires forall k :: k in s.pending && k != key ==> t.pending[k] == s.pending[k]
    requires key in s.pending ==>
        t.calls == s.calls && t.pending[key].phase == s.pending[key].phase && t.pending[key].call == s.pending[key].call
    requires key !in s.pending ==>
        t.calls == s.calls[s.nextCall := key] && t.pending[key].phase.Asking?
        && t.pending[key].call == s.nextCall < t.nextCall
    ensures Ok(t)
  {
    hide Fresh, EntryOk, SettledOk;
    forall k | k in t.pending
      ensures FlightOk(t, k)
    {
      if k != key {
        assert FlightOk(s, k);
        FlightSame(s, t, k);
      }
    }
    forall call | call in t.calls
      ensures CallOk(t, call)
    {
      if call in s.calls {
        assert CallOk(s, call);
      }
    }
    forall slot | slot in t.cache
      ensures EntryOk(t, slot, t.cache[slot])
    {
      EntrySame(s, t, slot, s.cache[slot]);
    }
  }

  lemma EntrySame(s: State, t: State, slot: Slot, e: Entry)
    requires EntryOk(s, slot, e) && t.responses == s.responses && s.now <= t.now
    ensures EntryOk(t, slot, e)
  {}

  lemma FlightSame(s: State, t: State, key: Key)
    requires key in s.pending && key in t.pending && t.pending[key] == s.pending[key] && FlightOk(s, key)
    requires t.responses == s.responses && s.now <= t.now && s.nextCall <= t.nextCall
    requires forall call ::
        call in s.calls ==> call in t.calls && (call < s.nextCall ==> t.calls[call] == s.calls[call])
    ensures FlightOk(t, key)
  {
    var f := s.pending[key];
    if f.kept.Some? {
      EntrySame(s, t, SlotOf(key), f.kept.value);
    }
  }

  lemma CachedFresh(s: State, p: Principal)
    requires Ok(s) && Usable(KeptEntry(s.cache, p), s.now)
    ensures Fresh(s.responses, ReadStep(s, p).answers[|s.answers|], 0)
  {
    var e := KeptEntry(s.cache, p).value;
    assert EntryOk(s, (p.org, p.member), e);
    FreshFrom(s.responses, KeyOf(p), e.targets, e.expiresAt - LIFETIME, 0, ReadStep(s, p).answers[|s.answers|]);
  }

  lemma SettleOk(s: State, call: nat, outcome: Outcome, more: seq<Response>)
    requires Ok(s) && call in s.calls
    requires forall i :: 0 <= i < |more| ==> more[i].call < s.nextCall
    requires var key := s.calls[call];
             SettledOk(s.(responses := s.responses + more), key, s.pending[key].(phase := Settled(outcome, s.now)))
    ensures Ok(SettleStep(s, call, outcome).(responses := s.responses + more))
  {
    var t := SettleStep(s, call, outcome).(responses := s.responses + more);
    var key := s.calls[call];
    forall slot | slot in t.cache
      ensures EntryOk(t, slot, t.cache[slot])
    {
      assert EntryOk(s, slot, s.cache[slot]);
      SourcedKept(s.responses, more, Key(slot.0, slot.1, t.cache[slot].version), t.cache[slot].targets,
          t.cache[slot].expiresAt - LIFETIME, 0);
    }
    assert CallOk(s, call);
    forall k | k in t.pending
      ensures FlightOk(t, k)
    {
      FlightKept(s, more, k);
    }
    forall c | c in t.calls
      ensures CallOk(t, c)
    {
      assert CallOk(s, c);
    }
    forall i | 0 <= i < |t.answers|
      ensures Fresh(t.responses, t.answers[i], 0)
    {
      FreshKept(s.responses, more, s.answers[i], 0);
    }
  }

  lemma FlightKept(s: State, more: seq<Response>, key: Key)
    requires key in s.pending && FlightOk(s, key)
    ensures FlightOk(s.(responses := s.responses + more), key)
  {
    var f := s.pending[key];
    if f.kept.Some? {
      assert EntryOk(s, SlotOf(key), f.kept.value);
      SourcedKept(s.responses, more, key, f.kept.value.targets, f.kept.value.expiresAt - LIFETIME, 0);
    }
    if f.phase.Settled? && f.phase.outcome.Got? {
      SourcedKept(s.responses, more, key, f.phase.outcome.targets, f.phase.at, f.call);
    }
  }

  lemma AnsweredOk(s: State, call: nat, view: View, toolbox: Id)
    requires Ok(s) && call in s.calls
    ensures Ok(AnsweredStep(s, call, view, toolbox))
  {
    var key, targets := s.calls[call], Relevant(view, toolbox);
    hide Relevant, Fresh;
    assert CallOk(s, call) && FlightOk(s, key);
    var response := Response(call, key, targets, s.now);
    assert (s.responses + [response])[|s.responses|] == response;
    assert Sourced(s.responses + [response], key, targets, s.now, call);
    SettleOk(s, call, Got(targets), [response]);
    var t := AnsweredStep(s, call, view, toolbox);
    var settled := SettleStep(s, call, Got(targets)).(responses := s.responses + [response]);
    assert t == settled.(cache := t.cache);
    forall slot | slot in t.cache
      ensures EntryOk(t, slot, t.cache[slot])
    {
      if slot != SlotOf(key) {
        assert EntryOk(settled, slot, s.cache[slot]);
      }
    }
    CacheOk(settled, t.cache);
  }

  lemma CacheOk(s: State, cache: Cache)
    requires Ok(s) && forall slot :: slot in cache ==> EntryOk(s.(cache := cache), slot, cache[slot])
    ensures Ok(s.(cache := cache))
  {
    var t := s.(cache := cache);
    forall key | key in t.pending
      ensures FlightOk(t, key)
    {
      assert FlightOk(s, key);
      assert t.pending[key].kept.Some? ==> EntryOk(s, SlotOf(key), t.pending[key].kept.value);
    }
    assert forall call :: call in t.calls ==> CallOk(s, call);
  }

  lemma FailedOk(s: State, call: nat)
    requires Ok(s) && call in s.calls
    ensures Ok(FailedStep(s, call))
  {
    var key := s.calls[call];
    assert CallOk(s, call) && FlightOk(s, key);
    var kept := s.pending[key].kept;
    assert kept.Some? ==> EntryOk(s, SlotOf(key), kept.value);
    assert s.responses + [] == s.responses;
    SettleOk(s, call, if kept.Some? && s.now < kept.value.expiresAt then Fell(kept.value.targets) else Unavailable, []);
  }

  lemma AnswerFresh(s: State, key: Key, clientId: Id)
    requires key in s.pending && FlightOk(s, key) && s.pending[key].phase.Settled?
    ensures var f := s.pending[key];
            Fresh(s.responses, AnswerOf(key, f, clientId), if f.phase.outcome.Got? then f.call else 0)
  {
    var f := s.pending[key];
    var a := AnswerOf(key, f, clientId);
    match f.phase.outcome
    case Got(targets) => FreshFrom(s.responses, key, targets, f.phase.at, f.call, a);
    case Fell(targets) =>
      assert EntryOk(s, SlotOf(key), f.kept.value);
      FreshFrom(s.responses, key, targets, f.kept.value.expiresAt - LIFETIME, 0, a);
    case Unavailable =>
  }

  lemma {:induction false} AnswersAre(key: Key, f: Flight, waiters: seq<Id>)
    requires f.phase.Settled?
    ensures |AnswersOf(key, f, waiters)| == |waiters|
    ensures forall i :: 0 <= i < |waiters| ==> AnswersOf(key, f, waiters)[i] == AnswerOf(key, f, waiters[i])
  {
    if waiters != [] {
      AnswersAre(key, f, waiters[1..]);
    }
  }

  lemma FreshWeaker(responses: seq<Response>, a: Answer, mark: nat)
    requires Fresh(responses, a, mark)
    ensures Fresh(responses, a, 0)
  {
    if a.grants.Some? {
      var i :| 0 <= i < |responses| && Gives(responses[i], a, mark);
      assert Gives(responses[i], a, 0);
    }
  }

  lemma FinallyOk(s: State, key: Key)
    requires Ok(s) && key in s.pending && s.pending[key].phase.Settled?
    ensures Ok(FinallyStep(s, key))
  {
    var t, f := FinallyStep(s, key), s.pending[key];
    AnswersAre(key, f, f.waiters);
    forall i | 0 <= i < |t.answers|
      ensures Fresh(t.responses, t.answers[i], 0)
    {
      if i >= |s.answers| {
        AnswerFresh(s, key, f.waiters[i - |s.answers|]);
        FreshWeaker(s.responses, t.answers[i], if f.phase.outcome.Got? then f.call else 0);
      }
    }
    forall k | k in t.pending
      ensures FlightOk(t, k)
    {
      assert FlightOk(s, k);
    }
    assert forall call :: call in t.calls ==> CallOk(s, call);
  }

  lemma StepOk(s: State, e: Event, toolbox: Id)
    requires Ok(s)
    ensures Ok(Step(s, e, toolbox))
  {
    if Enabled(s, e) {
      match e
      case Read(p) => ReadOk(s, p);
      case Answered(call, view) => AnsweredOk(s, call, view, toolbox);
      case Failed(call) => FailedOk(s, call);
      case Finally(key) => FinallyOk(s, key);
      case Invalidate(orgs, users) => OtherOk(s, Step(s, e, toolbox));
      case Tick(ms) => OtherOk(s, Step(s, e, toolbox));
    }
  }

  // Marking entries stale and letting time pass.
  lemma OtherOk(s: State, t: State)
    requires Ok(s) && s.now <= t.now && t.pending == s.pending && t.calls == s.calls && t.nextCall == s.nextCall
    requires t.responses == s.responses && t.answers == s.answers
    requires t.cache.Keys == s.cache.Keys
    requires forall slot :: slot in s.cache ==> t.cache[slot].(stale := s.cache[slot].stale) == s.cache[slot]
    ensures Ok(t)
  {
    forall key | key in t.pending
      ensures FlightOk(t, key)
    {
      assert FlightOk(s, key);
      assert t.pending[key].kept.Some? ==> EntryOk(s, SlotOf(key), t.pending[key].kept.value);
    }
    forall slot | slot in t.cache
      ensures EntryOk(t, slot, t.cache[slot])
    {
      assert EntryOk(s, slot, s.cache[slot]);
    }
    assert forall call :: call in t.calls ==> CallOk(s, call);
  }

  lemma {:induction false} RunOk(s: State, events: seq<Event>, toolbox: Id)
    requires Ok(s)
    ensures Ok(Run(s, events, toolbox))
  {
    if events != [] {
      RunOk(s, events[..|events| - 1], toolbox);
      StepOk(Run(s, events[..|events| - 1], toolbox), events[|events| - 1], toolbox);
    }
  }

  // ---------- The promises ----------

  // In every interleaving: every answer with grants comes from an ID response received less than a minute before it was
  // decided, for the same organisation, member and version, filtered to the caller's own client.
  lemma EveryAnswerFresh(events: seq<Event>, toolbox: Id, i: nat)
    requires i < |Run(START, events, toolbox).answers|
    ensures var s := Run(START, events, toolbox); Fresh(s.responses, s.answers[i], 0)
  {
    RunOk(START, events, toolbox);
  }

  // And at most one call to ID is in flight per organisation, member and version.
  lemma SingleFlight(events: seq<Event>, toolbox: Id, a: nat, b: nat)
    requires var s := Run(START, events, toolbox); a in s.calls && b in s.calls && s.calls[a] == s.calls[b]
    ensures a == b
  {
    RunOk(START, events, toolbox);
  }

  // ---------- Invalidation ----------

  // An answer for a member after an invalidation at call number `mark`: read from ID by a call begun since, or, after
  // such a call failed, from the kept entry, whose response is still less than a minute old.
  ghost predicate AnswerSince(s: State, a: Answer, mark: nat) {
    a.grants.Some? ==>
      match a.via
      case Cached => Fresh(s.responses, a, mark)
      case Fetched(call) => call >= mark && Fresh(s.responses, a, mark)
      case KeptAfter(call) => call >= mark && Fresh(s.responses, a, 0)
  }

  // Every answer for the member after the first `seen`.
  ghost predicate Promise(s: State, slot: Slot, mark: nat, seen: nat) {
    forall i :: seen <= i < |s.answers| && SlotOf(s.answers[i].key) == slot ==> AnswerSince(s, s.answers[i], mark)
  }

  // A fetch that can no longer bring the member anything from before.
  predicate Harmless(f: Flight, mark: nat) {
    f.call >= mark || (f.phase.Settled? && f.phase.outcome.Unavailable?)
  }

  ghost predicate Undisturbed(s: State, slot: Slot, mark: nat) {
    forall key :: key in s.pending && SlotOf(key) == slot ==> Harmless(s.pending[key], mark)
  }

  ghost predicate Since(s: State, slot: Slot, mark: nat, seen: nat) {
    && mark <= s.nextCall && seen <= |s.answers|
    && (slot in s.cache && !s.cache[slot].stale ==> EntryFrom(s.responses, slot, s.cache[slot], mark))
    && Undisturbed(s, slot, mark)
    && Promise(s, slot, mark, seen)
  }

  predicate Names(s: State, slot: Slot, orgs: set<Id>, users: set<Id>) {
    slot.0 in orgs || (slot in s.cache ==> s.cache[slot].userId in users)
  }

  lemma AnswersKept(s: State, t: State, slot: Slot, mark: nat, seen: nat, i: nat)
    requires Promise(s, slot, mark, seen) && s.answers <= t.answers && s.responses <= t.responses
    requires seen <= i < |s.answers| && SlotOf(t.answers[i].key) == slot
    ensures AnswerSince(t, t.answers[i], mark)
  {
    var a := s.answers[i];
    assert AnswerSince(s, a, mark) && t.answers[i] == a;
    assert t.responses == s.responses + t.responses[|s.responses|..];
    if a.grants.Some? {
      FreshKept(s.responses, t.responses[|s.responses|..], a, if a.via.KeptAfter? then 0 else mark);
    }
  }

  lemma StepSince(s: State, e: Event, toolbox: Id, slot: Slot, mark: nat, seen: nat)
    requires Ok(s) && Since(s, slot, mark, seen)
    ensures Since(Step(s, e, toolbox), slot, mark, seen)
  {
    if Enabled(s, e) {
      match e
      case Read(p) => ReadSince(s, p, slot, mark, seen);
      case Answered(call, view) => AnsweredSince(s, call, view, toolbox, slot, mark, seen);
      case Failed(call) =>
        assert CallOk(s, call);
        assert Harmless(s.pending[s.calls[call]], mark) || SlotOf(s.calls[call]) != slot;
        assert FailedStep(s, call).responses == s.responses;
      case Finally(key) => FinallySince(s, key, slot, mark, seen);
      case Invalidate(orgs, users) =>
      case Tick(ms) =>
    }
  }

  lemma ReadSince(s: State, p: Principal, slot: Slot, mark: nat, seen: nat)
    requires Ok(s) && Since(s, slot, mark, seen)
    ensures Since(ReadStep(s, p), slot, mark, seen)
  {
    hide Fresh, Sourced, GrantsOf;
    var t, kept := ReadStep(s, p), KeptEntry(s.cache, p);
    if Usable(kept, s.now) {
      var a := t.answers[|s.answers|];
      if SlotOf(a.key) == slot {
        assert EntryOk(s, slot, kept.value);
        FreshFrom(s.responses, a.key, kept.value.targets, kept.value.expiresAt - LIFETIME, mark, a);
      }
      forall i | seen <= i < |t.answers| && SlotOf(t.answers[i].key) == slot
        ensures AnswerSince(t, t.answers[i], mark)
      {
        if i < |s.answers| {
          AnswersKept(s, t, slot, mark, seen, i);
        }
      }
    }
  }

  lemma AnsweredSince(s: State, call: nat, view: View, toolbox: Id, slot: Slot, mark: nat, seen: nat)
    requires Ok(s) && Since(s, slot, mark, seen) && call in s.calls
    ensures Since(AnsweredStep(s, call, view, toolbox), slot, mark, seen)
  {
    hide Fresh, Relevant;
    assert CallOk(s, call);
    var t, key := AnsweredStep(s, call, view, toolbox), s.calls[call];
    var r := t.responses[|s.responses|];
    if slot in t.cache && !t.cache[slot].stale {
      if slot == SlotOf(key) {
        assert Harmless(s.pending[key], mark);
        assert r.key == key && r.targets == t.cache[slot].targets;
      } else {
        SourcedKept(s.responses, [r], Key(slot.0, slot.1, s.cache[slot].version), s.cache[slot].targets,
            s.cache[slot].expiresAt - LIFETIME, mark);
      }
    }
    forall i | seen <= i < |t.answers| && SlotOf(t.answers[i].key) == slot
      ensures AnswerSince(t, t.answers[i], mark)
    {
      AnswersKept(s, t, slot, mark, seen, i);
    }
  }

  lemma FinallySince(s: State, key: Key, slot: Slot, mark: nat, seen: nat)
    requires Ok(s) && Since(s, slot, mark, seen) && key in s.pending && s.pending[key].phase.Settled?
    ensures Since(FinallyStep(s, key), slot, mark, seen)
  {
    hide GrantsOf, Gives;
    var t, f := FinallyStep(s, key), s.pending[key];
    AnswersAre(key, f, f.waiters);
    forall i | seen <= i < |t.answers| && SlotOf(t.answers[i].key) == slot
      ensures AnswerSince(t, t.answers[i], mark)
    {
      if i < |s.answers| {
        AnswersKept(s, t, slot, mark, seen, i);
      } else {
        var a := AnswerOf(key, f, f.waiters[i - |s.answers|]);
        assert t.answers[i] == a && Harmless(f, mark);
        AnswerFresh(s, key, f.waiters[i - |s.answers|]);
        if f.phase.outcome.Got? {
          FreshSince(s.responses, a, f.call, mark);
        }
      }
    }
  }

  lemma FreshSince(responses: seq<Response>, a: Answer, from: nat, mark: nat)
    requires Fresh(responses, a, from) && mark <= from
    ensures Fresh(responses, a, mark)
  {
    if a.grants.Some? {
      var i :| 0 <= i < |responses| && Gives(responses[i], a, from);
      assert Gives(responses[i], a, mark);
    }
  }

  lemma {:induction false} RunSince(s: State, events: seq<Event>, toolbox: Id, slot: Slot, mark: nat, seen: nat)
    requires Ok(s) && Since(s, slot, mark, seen)
    ensures Since(Run(s, events, toolbox), slot, mark, seen)
  {
    if events != [] {
      var n := |events| - 1;
      RunSince(s, events[..n], toolbox, slot, mark, seen);
      RunOk(s, events[..n], toolbox);
      StepSince(Run(s, events[..n], toolbox), events[n], toolbox, slot, mark, seen);
    }
  }

  // The member is not answered from before the invalidation, whatever happens next.
  ghost predicate Effective(s: State, orgs: set<Id>, users: set<Id>, slot: Slot, toolbox: Id) {
    forall events :: Promise(Run(InvalidateStep(s, orgs, users), events, toolbox), slot, s.nextCall, |s.answers|)
  }

  // In any reachable state, an invalidation that names a member's organisation or user takes effect for that member,
  // over every later run, exactly when no read of the member is in flight (but one that has already failed for good).
  lemma InvalidationEffectiveIff(s: State, orgs: set<Id>, users: set<Id>, slot: Slot, toolbox: Id)
    requires Ok(s) && Names(s, slot, orgs, users)
    ensures Effective(s, orgs, users, slot, toolbox) <==> Undisturbed(s, slot, s.nextCall)
  {
    var t := InvalidateStep(s, orgs, users);
    StepOk(s, Invalidate(orgs, users), toolbox);
    if Undisturbed(s, slot, s.nextCall) {
      assert Since(t, slot, s.nextCall, |s.answers|);
      forall events: seq<Event>
        ensures Promise(Run(t, events, toolbox), slot, s.nextCall, |s.answers|)
      {
        RunSince(t, events, toolbox, slot, s.nextCall, |s.answers|);
      }
    } else {
      var key :| key in s.pending && SlotOf(key) == slot && !Harmless(s.pending[key], s.nextCall);
      var events := Overtaken(t, key, toolbox);
      assert !Promise(Run(t, events, toolbox), slot, s.nextCall, |s.answers|);
    }
  }

  // A fetch already under way answers its callers from before.
  lemma Overtaken(s: State, key: Key, toolbox: Id) returns (events: seq<Event>)
    requires Ok(s) && key in s.pending && !Harmless(s.pending[key], s.nextCall)
    ensures !Promise(Run(s, events, toolbox), SlotOf(key), s.nextCall, |s.answers|)
  {
    assert FlightOk(s, key);
    var f := s.pending[key];
    if f.phase.Asking? {
      var answered := Answered(f.call, None);
      var t := AnsweredStep(s, f.call, None, toolbox);
      events := [answered, Finally(key)];
      RunTwo(s, answered, Finally(key), toolbox);
      LateAnswer(t, key, s.nextCall);
    } else {
      events := [Finally(key)];
      assert events[..0] == [];
      LateAnswer(s, key, s.nextCall);
    }
  }

  lemma RunTwo(s: State, a: Event, b: Event, toolbox: Id)
    ensures Run(s, [a, b], toolbox) == Step(Step(s, a, toolbox), b, toolbox)
  {
    assert [a, b][..1] == [a] && [a][..0] == [];
    assert Run(s, [], toolbox) == s && Run(s, [a], toolbox) == Step(s, a, toolbox);
  }

  lemma LateAnswer(s: State, key: Key, mark: nat)
    requires key in s.pending && s.pending[key].phase.Settled? && !s.pending[key].phase.outcome.Unavailable?
    requires s.pending[key].call < mark && s.pending[key].waiters != []
    ensures !Promise(FinallyStep(s, key), SlotOf(key), mark, |s.answers|)
  {
    var f := s.pending[key];
    AnswersAre(key, f, f.waiters);
    var t := FinallyStep(s, key);
    assert t.answers[|s.answers|] == AnswerOf(key, f, f.waiters[0]);
    assert !AnswerSince(t, t.answers[|s.answers|], mark);
  }
}
