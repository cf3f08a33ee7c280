// What a caller of the grants reader is answered (mcps/toolbox/src/grants.ts:54-86), over any events between its read
// and its answer: at once while an answer of ID's is under a minute old, else what its fetch brings, and, when that
// fails, what the entry it found says until that expires.
module GrantsAnswers {
  import opened Options
  import opened Grants

  // The cache holds an entry of the caller's own membership and version.
  predicate Has(s: State, p: Principal) {
    (p.org, p.member) in s.cache && s.cache[(p.org, p.member)].version == p.version
  }

  function FoundEntry(s: State, p: Principal): Option<Entry> {
    if Has(s, p) then Some(s.cache[(p.org, p.member)]) else None
  }

  predicate Ends(e: Event, call: nat) {
    (e.Answered? && e.call == call) || (e.Failed? && e.call == call)
  }

  // What the end of a caller's fetch gives its client: ID's view, else the entry found when the fetch began, until it
  // expires.
  function Given(began: State, p: Principal, e: Event, now: int, toolbox: Id, clientId: Id): Option<set<string>> {
    if e.Answered? then Some(GrantsOf(Relevant(e.view, toolbox), clientId))
    else if Has(began, p) && now < began.cache[(p.org, p.member)].expiresAt then
      Some(GrantsOf(began.cache[(p.org, p.member)].targets, clientId))
    else None
  }

  lemma {:induction false} RunAppend(s: State, a: seq<Event>, b: seq<Event>, toolbox: Id)
    ensures Run(s, a + b, toolbox) == Run(Run(s, a, toolbox), b, toolbox)
  {
    if b == [] {
      assert a + b == a;
    } else {
      assert (a + b)[..|a + b| - 1] == a + b[..|b| - 1];
      RunAppend(s, a, b[..|b| - 1], toolbox);
    }
  }

  lemma RunOne(s: State, e: Event, toolbox: Id)
    ensures Run(s, [e], toolbox) == Step(s, e, toolbox)
  {
    assert [e][..0] == [] && Run(s, [], toolbox) == s;
  }

  // ---------- A fetch from its read to its answer ----------

  // The caller's fetch, as its read began it.
  predicate Begun(s: State, key: Key, call: nat, kept: Option<Entry>, clientId: Id) {
    && key in s.pending && s.pending[key].call == call && s.pending[key].kept == kept
    && s.pending[key].waiters != [] && s.pending[key].waiters[0] == clientId
  }

  lemma StepBegun(s: State, e: Event, toolbox: Id, key: Key, call: nat, kept: Option<Entry>, clientId: Id)
    requires Ok(s) && Begun(s, key, call, kept, clientId) && e != Finally(key)
    ensures Begun(Step(s, e, toolbox), key, call, kept, clientId)
    ensures !Ends(e, call) || s.pending[key].phase.Settled? ==>
        Step(s, e, toolbox).pending[key].phase == s.pending[key].phase
  {
    assert FlightOk(s, key);
    if Enabled(s, e) && (e.Answered? || e.Failed?) {
      assert CallOk(s, e.call);
    }
    hide Fresh, EntryOk, SettledOk, Relevant, GrantsOf;
  }

  lemma {:induction false} RunBegun(s: State, events: seq<Event>, toolbox: Id, key: Key, call: nat, kept: Option<Entry>,
      clientId: Id)
    requires Ok(s) && Begun(s, key, call, kept, clientId) && Finally(key) !in events
    requires s.pending[key].phase.Settled? || forall i :: 0 <= i < |events| ==> !Ends(events[i], call)
    ensures var t := Run(s, events, toolbox);
            Ok(t) && Begun(t, key, call, kept, clientId) && t.pending[key].phase == s.pending[key].phase
  {
    RunOk(s, events, toolbox);
    if events != [] {
      var n := |events| - 1;
      assert events == events[..n] + [events[n]];
      assert forall i :: 0 <= i < n ==> events[..n][i] == events[i];
      RunBegun(s, events[..n], toolbox, key, call, kept, clientId);
      StepBegun(Run(s, events[..n], toolbox), events[n], toolbox, key, call, kept, clientId);
      hide Ok, Begun, Step;
    }
  }

  // The phase a fetch ends in, and what its callers are then given.
  predicate Brings(outcome: Outcome, began: State, p: Principal, e: Event, now: int, toolbox: Id) {
    match outcome
    case Got(targets) => e.Answered? && targets == Relevant(e.view, toolbox)
    case Fell(targets) =>
      e.Failed? && Has(began, p) && now < began.cache[(p.org, p.member)].expiresAt
      && targets == began.cache[(p.org, p.member)].targets
    case Unavailable => e.Failed? && !(Has(began, p) && now < began.cache[(p.org, p.member)].expiresAt)
  }

  lemma EndBrings(began: State, s: State, p: Principal, e: Event, toolbox: Id, call: nat)
    requires Ok(s) && Ends(e, call)
    requires Begun(s, Key(p.org, p.member, p.version), call, FoundEntry(began, p), p.clientId)
    requires s.pending[Key(p.org, p.member, p.version)].phase.Asking?
    ensures var key := Key(p.org, p.member, p.version); var t := Step(s, e, toolbox);
            && key in t.pending && t.pending[key].phase.Settled? && t.pending[key].phase.at == s.now
            && Brings(t.pending[key].phase.outcome, began, p, e, s.now, toolbox)
  {
    var key := Key(p.org, p.member, p.version);
    assert FlightOk(s, key);
    hide Fresh, EntryOk, SettledOk, Relevant, GrantsOf;
  }

  lemma ReadBegins(s: State, p: Principal, toolbox: Id)
    requires Step(s, Read(p), toolbox).nextCall > s.nextCall
    ensures var key := Key(p.org, p.member, p.version); var t := Step(s, Read(p), toolbox);
            && Begun(t, key, s.nextCall, FoundEntry(s, p), p.clientId)
            && t.pending[key].phase.Asking?
  {}

  lemma FinallyGives(s: State, key: Key, i: nat, began: State, p: Principal, e: Event, now: int, toolbox: Id)
    requires key in s.pending && s.pending[key].phase.Settled? && s.pending[key].phase.at == now
    requires Brings(s.pending[key].phase.outcome, began, p, e, now, toolbox)
    requires i < |s.pending[key].waiters|
    ensures var t := Step(s, Finally(key), toolbox); var a := s.pending[key].waiters[i];
            && |t.answers| == |s.answers| + |s.pending[key].waiters|
            && var answer := t.answers[|s.answers| + i];
              && answer.key == key && answer.clientId == a && answer.decidedAt == now
              && answer.grants == Given(began, p, e, now, toolbox, a)
  {
    AnswersAre(key, s.pending[key], s.pending[key].waiters);
    hide GrantsOf, Relevant, Has;
  }

  // Where a fetch stands once it has ended, until its `finally`.
  lemma FetchSettles(s: State, p: Principal, between: seq<Event>, e: Event, later: seq<Event>, toolbox: Id)
    requires Ok(s) && Step(s, Read(p), toolbox).nextCall > s.nextCall
    requires Ends(e, s.nextCall) && (forall k :: 0 <= k < |between| ==> !Ends(between[k], s.nextCall))
    requires Finally(Key(p.org, p.member, p.version)) !in between
             && Finally(Key(p.org, p.member, p.version)) !in later
    ensures var key := Key(p.org, p.member, p.version); var u := Run(s, [Read(p)] + between, toolbox);
            var v := Run(Step(u, e, toolbox), later, toolbox);
            && Begun(v, key, s.nextCall, FoundEntry(s, p), p.clientId)
            && v.pending[key].phase.Settled? && v.pending[key].phase.at == u.now
            && Brings(v.pending[key].phase.outcome, s, p, e, u.now, toolbox)
  {
    var key, call := Key(p.org, p.member, p.version), s.nextCall;
    ReadBegins(s, p, toolbox);
    StepOk(s, Read(p), toolbox);
    var began := Step(s, Read(p), toolbox);
    RunOne(s, Read(p), toolbox);
    RunAppend(s, [Read(p)], between, toolbox);
    hide Ok, Begun, Step, Brings, Has, Ends, Run;
    BegunPending(began, key, call, FoundEntry(s, p), p.clientId);
    RunBegun(began, between, toolbox, key, call, FoundEntry(s, p), p.clientId);
    var u := Run(began, between, toolbox);
    BegunPending(u, key, call, FoundEntry(s, p), p.clientId);
    EndBrings(s, u, p, e, toolbox, call);
    StepOk(u, e, toolbox);
    NotFinally(e, key, call);
    StepBegun(u, e, toolbox, key, call, FoundEntry(s, p), p.clientId);
    RunBegun(Step(u, e, toolbox), later, toolbox, key, call, FoundEntry(s, p), p.clientId);
    BegunPending(Run(Step(u, e, toolbox), later, toolbox), key, call, FoundEntry(s, p), p.clientId);
  }

  lemma BegunPending(s: State, key: Key, call: nat, kept: Option<Entry>, clientId: Id)
    requires Begun(s, key, call, kept, clientId)
    ensures key in s.pending && s.pending[key].waiters != [] && s.pending[key].waiters[0] == clientId
  {}

  // A caller whose read began a fetch, whatever happens before the fetch ends and until its `finally`: it and whoever
  // joined it are given ID's view when ID answered; when the call failed, exactly what the entry the read found gives
  // each one's client while the clock is before that entry's end; and nothing, which is no access but an error, if and
  // only if there was no such entry or it had expired.
  lemma FetchGives(s: State, p: Principal, between: seq<Event>, e: Event, later: seq<Event>, toolbox: Id, i: nat)
    requires Ok(s) && Step(s, Read(p), toolbox).nextCall > s.nextCall
    requires Ends(e, s.nextCall) && (forall k :: 0 <= k < |between| ==> !Ends(between[k], s.nextCall))
    requires Finally(Key(p.org, p.member, p.version)) !in between
             && Finally(Key(p.org, p.member, p.version)) !in later
    requires var key := Key(p.org, p.member, p.version);
             var v := Run(Step(Run(s, [Read(p)] + between, toolbox), e, toolbox), later, toolbox);
             key in v.pending ==> i < |v.pending[key].waiters|
    ensures var key := Key(p.org, p.member, p.version); var u := Run(s, [Read(p)] + between, toolbox);
            var v := Run(Step(u, e, toolbox), later, toolbox); var t := Step(v, Finally(key), toolbox);
            && key in v.pending && |v.pending[key].waiters| > 0 && v.pending[key].waiters[0] == p.clientId
            && |t.answers| == |v.answers| + |v.pending[key].waiters|
            && var answer := t.answers[|v.answers| + i];
              && answer.key == key && answer.clientId == v.pending[key].waiters[i] && answer.decidedAt == u.now
              && answer.grants == Given(s, p, e, u.now, toolbox, answer.clientId)
  {
    var key := Key(p.org, p.member, p.version);
    FetchSettles(s, p, between, e, later, toolbox);
    hide *;
    var u := Run(s, [Read(p)] + between, toolbox);
    var v := Run(Step(u, e, toolbox), later, toolbox);
    BegunPending(v, key, s.nextCall, FoundEntry(s, p), p.clientId);
    FinallyGives(v, key, i, s, p, e, u.now, toolbox);
  }

  lemma NotFinally(e: Event, key: Key, call: nat)
    requires Ends(e, call)
    ensures e != Finally(key)
  {}

  // The entry a caller falls back on is what ID answered for its very key, sixty seconds before it expires.
  lemma EntryIsAnswer(s: State, p: Principal)
    requires Ok(s) && Has(s, p)
    ensures exists i ::
        0 <= i < |s.responses| && s.responses[i].key == Key(p.org, p.member, p.version)
        && s.responses[i].targets == s.cache[(p.org, p.member)].targets
        && s.responses[i].at + 60000 == s.cache[(p.org, p.member)].expiresAt
  {
    assert EntryOk(s, (p.org, p.member), s.cache[(p.org, p.member)]);
  }

  // ---------- An answer kept for a minute ----------

  function Elapsed(events: seq<Event>): int {
    if events == [] then 0
    else Elapsed(events[..|events| - 1]) + if events[|events| - 1].Tick? then events[|events| - 1].ms else 0
  }

  // Nothing names the member, or answers for it.
  predicate Spares(s: State, e: Event, slot: Slot, userId: Id) {
    && (e.Invalidate? ==> slot.0 !in e.orgs && userId !in e.users)
    && (e.Answered? && e.call in s.calls ==> (s.calls[e.call].org, s.calls[e.call].member) != slot)
  }

  predicate AllSpare(s: State, events: seq<Event>, toolbox: Id, slot: Slot, userId: Id) {
    forall n :: 0 <= n < |events| ==> Spares(Run(s, events[..n], toolbox), events[n], slot, userId)
  }

  // What the cache holds for the member since: the entry, or nothing once it has expired.
  predicate Holds(s: State, slot: Slot, entry: Entry) {
    (slot in s.cache ==> s.cache[slot] == entry) && (s.now < entry.expiresAt ==> slot in s.cache)
  }

  lemma StepHolds(s: State, e: Event, toolbox: Id, slot: Slot, entry: Entry)
    requires Holds(s, slot, entry) && Spares(s, e, slot, entry.userId)
    ensures Holds(Step(s, e, toolbox), slot, entry)
    ensures Step(s, e, toolbox).now == s.now + if e.Tick? then e.ms else 0
  {
    hide Relevant, GrantsOf;
  }

  lemma {:induction false} RunHolds(s: State, events: seq<Event>, toolbox: Id, slot: Slot, entry: Entry)
    requires Holds(s, slot, entry) && AllSpare(s, events, toolbox, slot, entry.userId)
    ensures Holds(Run(s, events, toolbox), slot, entry) && Run(s, events, toolbox).now == s.now + Elapsed(events)
  {
    if events != [] {
      var n := |events| - 1;
      forall k | 0 <= k < n
        ensures Spares(Run(s, events[..n][..k], toolbox), events[..n][k], slot, entry.userId)
      {
        assert events[..n][..k] == events[..k];
      }
      RunHolds(s, events[..n], toolbox, slot, entry);
      assert Spares(Run(s, events[..n], toolbox), events[n], slot, entry.userId);
      StepHolds(Run(s, events[..n], toolbox), events[n], toolbox, slot, entry);
      hide Step, Holds, Spares;
    }
  }

  lemma AnsweredHolds(s: State, call: nat, view: View, toolbox: Id)
    requires call in s.calls && s.calls[call] in s.pending
    ensures var key := s.calls[call]; var t := Step(s, Answered(call, view), toolbox);
            var entry := Entry(s.pending[key].userId, key.version, Relevant(view, toolbox), s.now + 60000, false);
            Holds(t, (key.org, key.member), entry) && t.now == s.now
  {
    hide Relevant;
  }

  // Once ID has answered for a member, and while nothing names the member or answers for it again: for sixty seconds a
  // read of the same version is answered at once with that, asking nothing of ID; and from then on no read is.
  lemma AnsweredAtOnceIff(s: State, call: nat, view: View, later: seq<Event>, p: Principal, toolbox: Id)
    requires call in s.calls && s.calls[call] in s.pending && s.calls[call] == Key(p.org, p.member, p.version)
    requires var t := Step(s, Answered(call, view), toolbox);
             AllSpare(t, later, toolbox, (p.org, p.member), s.pending[s.calls[call]].userId)
    ensures var t := Run(Step(s, Answered(call, view), toolbox), later, toolbox); var u := Step(t, Read(p), toolbox);
            if Elapsed(later) < 60000 then
              u == t.(answers := t.answers + [Answer(Key(p.org, p.member, p.version), p.clientId,
                Some(GrantsOf(Relevant(view, toolbox), p.clientId)), t.now, Cached)])
            else u.answers == t.answers
  {
    var key, slot := s.calls[call], (p.org, p.member);
    var entry := Entry(s.pending[key].userId, key.version, Relevant(view, toolbox), s.now + 60000, false);
    AnsweredHolds(s, call, view, toolbox);
    RunHolds(Step(s, Answered(call, view), toolbox), later, toolbox, slot, entry);
    hide Relevant, GrantsOf, Run;
  }

  // ---------- Every read is answered ----------

  // Of one membership and version, through one client: the reads made, the answers given, and those still awaited.
  function Reads(events: seq<Event>, key: Key, clientId: Id): nat {
    if events == [] then 0
    else
      var n := |events| - 1;
      Reads(events[..n], key, clientId)
      + if events[n].Read? && Key(events[n].p.org, events[n].p.member, events[n].p.version) == key
           && events[n].p.clientId == clientId then 1 else 0
  }

  function AnswersTo(answers: seq<Answer>, key: Key, clientId: Id): nat {
    if answers == [] then 0
    else
      var n := |answers| - 1;
      AnswersTo(answers[..n], key, clientId) + if answers[n].key == key && answers[n].clientId == clientId then 1 else 0
  }

  function Awaited(s: State, key: Key, clientId: Id): nat {
    if key in s.pending then multiset(s.pending[key].waiters)[clientId] else 0
  }

  lemma {:induction false} GivenAppend(a: seq<Answer>, b: seq<Answer>, key: Key, clientId: Id)
    ensures AnswersTo(a + b, key, clientId) == AnswersTo(a, key, clientId) + AnswersTo(b, key, clientId)
  {
    if b == [] {
      assert a + b == a;
    } else {
      assert (a + b)[..|a + b| - 1] == a + b[..|b| - 1];
      GivenAppend(a, b[..|b| - 1], key, clientId);
    }
  }

  lemma {:induction false} GivenTo(settled: Key, f: Flight, waiters: seq<Id>, key: Key, clientId: Id)
    requires f.phase.Settled?
    ensures AnswersTo(AnswersOf(settled, f, waiters), key, clientId)
        == if settled == key then multiset(waiters)[clientId] else 0
  {
    if waiters != [] {
      var first, rest := AnswerOf(settled, f, waiters[0]), AnswersOf(settled, f, waiters[1..]);
      GivenTo(settled, f, waiters[1..], key, clientId);
      GivenAppend([first], rest, key, clientId);
      assert [first][..0] == [] && waiters == [waiters[0]] + waiters[1..];
      hide GrantsOf;
    }
  }

  // What is counted of one membership, version and client: the answers given and those awaited.
  function Counted(s: State, key: Key, clientId: Id): nat {
    AnswersTo(s.answers, key, clientId) + Awaited(s, key, clientId)
  }

  lemma ReadCounts(s: State, p: Principal, toolbox: Id, key: Key, clientId: Id)
    ensures Counted(Step(s, Read(p), toolbox), key, clientId)
        == Counted(s, key, clientId) + if Key(p.org, p.member, p.version) == key && p.clientId == clientId then 1 else 0
  {
    hide GrantsOf, AnswersTo, Usable, KeptEntry;
    var t := Step(s, Read(p), toolbox);
    if t.answers != s.answers {
      GivenAppend(s.answers, [t.answers[|s.answers|]], key, clientId);
      GivenOne(t.answers[|s.answers|], key, clientId);
    }
  }

  lemma FinallyCounts(s: State, done: Key, toolbox: Id, key: Key, clientId: Id)
    ensures Counted(Step(s, Finally(done), toolbox), key, clientId) == Counted(s, key, clientId)
  {
    hide AnswersOf, AnswersTo;
    if Enabled(s, Finally(done)) {
      var f := s.pending[done];
      GivenAppend(s.answers, AnswersOf(done, f, f.waiters), key, clientId);
      GivenTo(done, f, f.waiters, key, clientId);
    }
  }

  lemma OtherCounts(s: State, e: Event, toolbox: Id, key: Key, clientId: Id)
    requires !e.Read? && !e.Finally?
    ensures Counted(Step(s, e, toolbox), key, clientId) == Counted(s, key, clientId)
  {
    hide Relevant, AnswersTo, Remember, MarkStale;
  }

  lemma StepAnswers(s: State, e: Event, toolbox: Id, key: Key, clientId: Id)
    ensures Counted(Step(s, e, toolbox), key, clientId) == Counted(s, key, clientId) + Reads([e], key, clientId)
  {
    hide Step, Counted;
    assert [e][..0] == [] && Reads([], key, clientId) == 0;
    match e
    case Read(p) => ReadCounts(s, p, toolbox, key, clientId);
    case Finally(done) => FinallyCounts(s, done, toolbox, key, clientId);
    case _ => OtherCounts(s, e, toolbox, key, clientId);
  }

  lemma GivenOne(a: Answer, key: Key, clientId: Id)
    ensures AnswersTo([a], key, clientId) == if a.key == key && a.clientId == clientId then 1 else 0
  {
    assert [a][..0] == [];
  }

  lemma {:induction false} ReadsAppend(events: seq<Event>, e: Event, key: Key, clientId: Id)
    ensures Reads(events + [e], key, clientId) == Reads(events, key, clientId) + Reads([e], key, clientId)
  {
    assert (events + [e])[..|events|] == events && [e][..0] == [];
  }

  // Over any events, no read is lost and none is answered twice: each is answered, or its fetch is still under way.
  lemma {:induction false} EachReadAnsweredOnce(s: State, events: seq<Event>, toolbox: Id, key: Key, clientId: Id)
    ensures Counted(Run(s, events, toolbox), key, clientId) == Counted(s, key, clientId) + Reads(events, key, clientId)
  {
    hide Step, Counted;
    if events != [] {
      var n := |events| - 1;
      EachReadAnsweredOnce(s, events[..n], toolbox, key, clientId);
      StepAnswers(Run(s, events[..n], toolbox), events[n], toolbox, key, clientId);
      ReadsAppend(events[..n], events[n], key, clientId);
      assert events == events[..n] + [events[n]];
    }
  }

  // ---------- Grant strings ----------

  predicate Named(s: string, most: nat) {
    && 0 < |s| <= most && 'a' <= s[0] <= 'z'
    && forall i :: 0 <= i < |s| ==> 'a' <= s[i] <= 'z' || '0' <= s[i] <= '9'
  }

  predicate Markless(s: string) {
    '/' !in s && '.' !in s
  }

  lemma NamedIsWord(s: string, most: nat)
    ensures Word(s, most) <==> Named(s, most)
  {
  }

  predicate OnlyAt(s: string, c: char, at: nat) {
    at < |s| && s[at] == c && forall i :: 0 <= i < |s| && i != at ==> s[i] != c
  }

  lemma MarkOnlyAt(a: string, mark: char, b: string)
    requires mark !in a && mark !in b
    ensures var all := a + [mark] + b; OnlyAt(all, mark, |a|) && all[..|a|] == a && all[|a| + 1..] == b
  {
  }

  lemma WordMarkless(s: string, most: nat)
    requires Word(s, most)
    ensures Markless(s)
  {
  }

  lemma MarkedNoWord(s: string, i: nat, most: nat)
    requires i < |s| && (s[i] == '/' || s[i] == '.')
    ensures !Word(s, most)
  {
  }

  lemma DottedIs(domain: string, operation: string)
    requires Markless(domain) && Markless(operation)
    ensures DottedWords(domain) <==> Named(domain, 16)
    ensures DottedWords(domain + "." + operation) <==> Named(domain, 16) && Named(operation, 16)
  {
    NamedIsWord(domain, 16);
    NamedIsWord(operation, 16);
    MarkOnlyAt(domain, '.', operation);
    MarkedNoWord(domain + "." + operation, |domain|, 16);
    hide Word, Named;
  }

  lemma SlashedIs(provider: string, rest: string)
    requires '/' !in provider && '/' !in rest
    ensures IsGrant(provider + "/" + rest) <==> Named(provider, 12) && DottedWords(rest)
  {
    var all := provider + "/" + rest;
    NamedIsWord(provider, 12);
    MarkOnlyAt(provider, '/', rest);
    assert all[|provider|] in all;
    assert all != "toolbox" by {
      assert '/' !in "toolbox";
    }
    MarkedNoWord(all, |provider|, 12);
    hide Word, Named;
    hide DottedWords;
  }

  // A grant string is a provider other than the resource's own scope, a provider and a domain, or a provider, a domain
  // and an operation: lower case letters and digits after a letter, at most 12 of a provider and 16 of the others.
  lemma GrantForms(provider: string, domain: string, operation: string)
    requires Markless(provider) && Markless(domain) && Markless(operation)
    ensures IsGrant(provider) <==> provider != "toolbox" && Named(provider, 12)
    ensures IsGrant(provider + "/" + domain) <==> Named(provider, 12) && Named(domain, 16)
    ensures IsGrant(provider + "/" + domain + "." + operation) <==>
        Named(provider, 12) && Named(domain, 16) && Named(operation, 16)
  {
    NamedIsWord(provider, 12);
    assert forall i :: 0 <= i < |provider| ==> provider[i] in provider;
    DottedIs(domain, operation);
    hide DottedWords;
    SlashedIs(provider, domain);
    SlashedIs(provider, domain + "." + operation);
    assert provider + "/" + (domain + "." + operation) == provider + "/" + domain + "." + operation;
  }

  lemma SplitBack(s: string, i: nat)
    requires i < |s|
    ensures s == s[..i] + [s[i]] + s[i + 1..]
  {
  }

  lemma Regrouped(provider: string, domain: string, operation: string)
    ensures provider + "/" + (domain + "." + operation) == provider + "/" + domain + "." + operation
  {
  }

  lemma DottedFormed(rest: string) returns (domain: string, operation: string)
    requires DottedWords(rest)
    ensures Markless(domain) && Markless(operation) && (rest == domain || rest == domain + "." + operation)
  {
    if Word(rest, 16) {
      domain, operation := rest, "";
    } else {
      hide Word, Markless;
      var k :| 0 <= k < |rest| && rest[k] == '.' && Word(rest[..k], 16) && Word(rest[k + 1..], 16);
      domain, operation := rest[..k], rest[k + 1..];
      SplitBack(rest, k);
      WordMarkless(operation, 16);
    }
    WordMarkless(domain, 16);
  }

  // And every grant string is of one of those forms.
  lemma GrantIsFormed(scope: string) returns (provider: string, domain: string, operation: string)
    requires IsGrant(scope)
    ensures Markless(provider) && Markless(domain) && Markless(operation)
    ensures scope == provider || scope == provider + "/" + domain
            || scope == provider + "/" + domain + "." + operation
  {
    if Word(scope, 12) {
      provider, domain, operation := scope, "", "";
    } else {
      hide Word, Markless;
      var i :| 0 <= i < |scope| && scope[i] == '/' && Word(scope[..i], 12) && DottedWords(scope[i + 1..]);
      provider := scope[..i];
      SplitBack(scope, i);
      domain, operation := DottedFormed(scope[i + 1..]);
      Regrouped(provider, domain, operation);
    }
    WordMarkless(provider, 12);
  }
}
