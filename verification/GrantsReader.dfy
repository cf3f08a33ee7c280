// `createGrantsReader` (mcps/toolbox/src/grants.ts:46-98) as it keeps its maps: members' entries in a map per
// organisation, swept and marked in place. Each method takes the step of `Grants` that its name says.
module GrantsReader {
  import opened Options
  import opened Grants

  type Members = map<Id, Entry>

  // The nested maps hold what the flat cache of the steps does, and no organisation is kept empty.
  ghost predicate Same(nested: map<Id, Members>, flat: Cache) {
    && (forall o, m :: (o, m) in flat <==> o in nested && m in nested[o])
    && (forall o, m :: o in nested && m in nested[o] ==> nested[o][m] == flat[(o, m)])
    && (forall o :: o in nested ==> nested[o] != map[])
  }

  // The reader's fields as a state without history.
  function Now(now: int, cache: Cache, pending: map<Key, Flight>, calls: map<nat, Key>, nextCall: nat): State {
    State(now, cache, pending, calls, nextCall, [], [], 0)
  }

  class Reader {
    const toolbox: Id
    var cache: map<Id, Members>
    ghost var flat: Cache
    var pending: map<Key, Flight>
    var calls: map<nat, Key>
    var nextCall: nat
    var changed: nat

    ghost predicate Valid()
      reads this
    {
      Same(cache, flat)
    }

    constructor (toolbox: Id)
      ensures Valid() && flat == map[] && pending == map[] && calls == map[] && nextCall == 0 && changed == 0
      ensures this.toolbox == toolbox
    {
      this.toolbox := toolbox;
      cache, flat, pending, calls, nextCall, changed := map[], map[], map[], map[], 0, 0;
    }

    method Lookup(org: Id, member: Id) returns (cached: Option<Entry>)
      requires Valid()
      ensures cached == if (org, member) in flat then Some(flat[(org, member)]) else None
    {
      if org in cache && member in cache[org] {
        return Some(cache[org][member]);
      }
      return None;
    }

    // `read`: an answer now, or none while the caller awaits the fetch it joined or began.
    method Read(p: Principal, now: int) returns (answer: Option<set<string>>)
      requires Valid()
      modifies this
      ensures Valid() && flat == old(flat) && changed == old(changed)
      ensures var t := ReadStep(Now(now, old(flat), old(pending), old(calls), old(nextCall)), p);
              && pending == t.pending && calls == t.calls && nextCall == t.nextCall
              && answer == if t.answers == [] then None else t.answers[0].grants
    {
      var cached := Lookup(p.org, p.member);
      var kept := if cached.Some? && cached.value.version == p.version then cached else None;
      if kept.Some? && !kept.value.stale && now < kept.value.expiresAt {
        return Some(GrantsOf(kept.value.targets, p.clientId));
      }
      var key := KeyOf(p);
      if key !in pending {
        pending := pending[key := Flight(nextCall, p.userId, kept, Asking, [p.clientId])];
        calls := calls[nextCall := key];
        nextCall := nextCall + 1;
      } else {
        pending := pending[key := pending[key].(waiters := pending[key].waiters + [p.clientId])];
      }
      return None;
    }

    // `refresh`, when ID answers.
    method OnAnswered(call: nat, view: View, now: int)
      requires Valid() && call in calls && calls[call] in pending
      modifies this
      ensures Valid() && changed == old(changed) && nextCall == old(nextCall)
      ensures var t := AnsweredStep(Now(now, old(flat), old(pending), old(calls), old(nextCall)), call, view, toolbox);
              flat == t.cache && pending == t.pending && calls == t.calls
    {
      hide Evicts, Remember, Same;
      var key := calls[call];
      var targets := Relevant(view, toolbox);
      RememberEntry(key.org, key.member, Entry(pending[key].userId, key.version, targets, now + LIFETIME, false), now);
      pending := pending[key := pending[key].(phase := Settled(Got(targets), now))];
      calls := calls - {call};
    }

    // `refresh`, when ID does not.
    method OnFailed(call: nat, now: int)
      requires Valid() && call in calls && calls[call] in pending
      modifies this
      ensures Valid() && flat == old(flat) && changed == old(changed) && nextCall == old(nextCall)
      ensures var t := FailedStep(Now(now, old(flat), old(pending), old(calls), old(nextCall)), call);
              pending == t.pending && calls == t.calls
    {
      var key := calls[call];
      var kept := pending[key].kept;
      var outcome := if kept.Some? && now < kept.value.expiresAt then Fell(kept.value.targets) else Unavailable;
      pending := pending[key := pending[key].(phase := Settled(outcome, now))];
      calls := calls - {call};
    }

    // `remember`: sweep what has expired, then set the member's entry.
    method RememberEntry(org: Id, member: Id, entry: Entry, now: int)
      requires Valid()
      modifies this`cache, this`flat
      ensures Valid() && flat == Remember(old(flat), now, (org, member), entry)
      ensures Evicts(old(flat), flat, now, (org, member))
    {
      hide Evicts, Same;
      RememberEvicts(flat, now, (org, member), entry);
      SweepAll(now);
      var members := if org in cache then cache[org] else map[];
      SetSame(cache, flat, org, member, entry);
      cache := cache[org := members[member := entry]];
      flat := flat[(org, member) := entry];
    }

    // Every organisation swept, and dropped when that leaves it empty.
    method SweepAll(now: int)
      requires Valid()
      modifies this`cache, this`flat
      ensures Valid() && flat == map s | s in old(flat) && old(flat)[s].expiresAt > now :: old(flat)[s]
    {
      hide Same;
      var todo := cache.Keys;
      ghost var before := cache;
      while todo != {}
        invariant todo <= cache.Keys <= before.Keys && flat == old(flat)
        invariant forall o :: o in todo ==> cache[o] == before[o]
        invariant forall o :: o in before && o !in todo ==> SweptOne(before, cache, o, now)
        decreases todo
      {
        var o :| o in todo;
        todo := todo - {o};
        var members := Sweep(cache[o], now);
        cache := if members == map[] then cache - {o} else cache[o := members];
      }
      flat := map s | s in flat && flat[s].expiresAt > now :: flat[s];
      SweptSame(before, cache, old(flat), flat, now);
    }

    // `invalidate`: the named organisations' entries, then the named users' everywhere.
    method Invalidate(orgs: set<Id>, users: set<Id>)
      requires Valid()
      modifies this`cache, this`flat, this`changed
      ensures Valid() && flat == MarkStale(old(flat), orgs, users)
      ensures changed == if orgs != {} || users != {} then old(changed) + 1 else old(changed)
    {
      ghost var before := cache;
      StaleOrganisations(orgs);
      ghost var between := cache;
      if users != {} {
        StaleUsers(users);
      } else {
        StaledNone(between);
      }
      StaledTwice(before, orgs, users);
      flat := MarkStale(flat, orgs, users);
      StaledSame(before, cache, old(flat), orgs, users);
      if orgs != {} || users != {} {
        changed := changed + 1;
      }
    }

    method StaleOrganisations(orgs: set<Id>)
      modifies this`cache
      ensures cache == map o | o in old(cache) :: if o in orgs then Staled(old(cache)[o], true, {}) else old(cache)[o]
    {
      var todo := orgs;
      while todo != {}
        invariant todo <= orgs && cache.Keys == old(cache.Keys)
        invariant forall o ::
            o in cache ==> cache[o] == if o in orgs && o !in todo then Staled(old(cache)[o], true, {})
            else old(cache)[o]
        decreases todo
      {
        var o :| o in todo;
        todo := todo - {o};
        if o in cache {
          cache := cache[o := map m | m in cache[o] :: cache[o][m].(stale := true)];
        }
      }
    }

    method StaleUsers(users: set<Id>)
      modifies this`cache
      ensures cache == map o | o in old(cache) :: Staled(old(cache)[o], false, users)
    {
      var todo := cache.Keys;
      while todo != {}
        invariant todo <= cache.Keys == old(cache.Keys)
        invariant forall o ::
            o in cache ==> cache[o] == if o !in todo then Staled(old(cache)[o], false, users) else old(cache)[o]
        decreases todo
      {
        var o :| o in todo;
        todo := todo - {o};
        cache := cache[o := map m | m in cache[o] ::
          if cache[o][m].userId in users then cache[o][m].(stale := true) else cache[o][m]];
      }
    }
  }

  predicate SweptOne(before: map<Id, Members>, after: map<Id, Members>, o: Id, now: int)
    requires o in before
  {
    (o in after <==> Unexpired(before[o], now) != map[]) && (o in after ==> after[o] == Unexpired(before[o], now))
  }

  lemma SetSame(nested: map<Id, Members>, flat: Cache, org: Id, member: Id, entry: Entry)
    requires Same(nested, flat)
    ensures Same(nested[org := (if org in nested then nested[org] else map[])[member := entry]],
        flat[(org, member) := entry])
  {
    var members := if org in nested then nested[org] else map[];
    assert member in members[member := entry];
  }

  lemma StaledNone(nested: map<Id, Members>)
    ensures nested == map o | o in nested :: Staled(nested[o], false, {})
  {
    forall o | o in nested
      ensures nested[o] == Staled(nested[o], false, {})
    {}
  }

  lemma StaledTwice(before: map<Id, Members>, orgs: set<Id>, users: set<Id>)
    ensures var between := map o | o in before :: if o in orgs then Staled(before[o], true, {}) else before[o];
            forall o :: o in before ==> Staled(between[o], false, users) == Staled(before[o], o in orgs, users)
  {}

  function Unexpired(members: Members, now: int): Members {
    map m | m in members && members[m].expiresAt > now :: members[m]
  }

  method Sweep(members: Members, now: int) returns (left: Members)
    ensures left == Unexpired(members, now)
  {
    left := members;
    var todo := members.Keys;
    while todo != {}
      invariant todo <= members.Keys
      invariant left == map m | m in members && (m in todo || members[m].expiresAt > now) :: members[m]
      decreases todo
    {
      var m :| m in todo;
      todo := todo - {m};
      if members[m].expiresAt <= now {
        left := left - {m};
      }
    }
  }

  function Staled(members: Members, all: bool, users: set<Id>): Members {
    map m | m in members :: if all || members[m].userId in users then members[m].(stale := true) else members[m]
  }

  lemma SweptSame(before: map<Id, Members>, after: map<Id, Members>, flat: Cache, swept: Cache, now: int)
    requires Same(before, flat) && after.Keys <= before.Keys
    requires forall o :: o in before ==> SweptOne(before, after, o, now)
    requires swept == map s | s in flat && flat[s].expiresAt > now :: flat[s]
    ensures Same(after, swept)
  {
    forall o, m
      ensures (o, m) in swept <==> o in after && m in after[o]
    {
      if (o, m) in swept {
        assert m in Unexpired(before[o], now);
        assert SweptOne(before, after, o, now);
      }
      if o in after && m in after[o] {
        assert SweptOne(before, after, o, now);
      }
    }
    assert forall o :: o in after ==> SweptOne(before, after, o, now);
  }

  lemma StaledSame(before: map<Id, Members>, after: map<Id, Members>, flat: Cache, orgs: set<Id>, users: set<Id>)
    requires Same(before, flat) && after.Keys == before.Keys
    requires forall o :: o in after ==> after[o] == Staled(before[o], o in orgs, users)
    ensures Same(after, MarkStale(flat, orgs, users))
  {
    forall o | o in after
      ensures after[o] != map[]
    {
      var m :| m in before[o];
      assert m in after[o];
    }
  }
}
