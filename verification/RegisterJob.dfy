// The register Job as it runs (infra/ops/src/registrar.ts:38-127, infra/ops/src/register.ts:100-154): reads, then the
// write each row needs, counting as it goes, until one throws. Each method takes the acts its name says.
module RegisterJob {
  import opened Options
  import opened Registrar
  import opened Register
  import opened RegisterActs

  class Job {
    // What is remote: ID's rows, the receipts it keeps, the identifiers it retired, and its clients' current secrets;
    // and the secret store.
    var rows: Rows
    var receipts: map<Key, Op>
    const retired: set<RowId>
    var secrets: map<string, nat>
    var store: map<string, nat>
    ghost var answered: map<string, nat>
    var minted: nat
    // This run's count.
    var tally: Tally

    constructor (id: World, secrets: map<string, nat>, store: map<string, nat>, minted: nat)
      ensures State(World(rows, receipts, retired, false), this.secrets, this.store, answered, this.minted, tally)
        == Anew(State(id, secrets, store, map[], minted, Tally(0, 0, 0)))
    {
      rows, receipts, retired := id.rows, id.receipts, id.retired;
      this.secrets, this.store, this.minted := secrets, store, minted;
      answered, tally := map[], Tally(0, 0, 0);
    }

    method Count(o: Outcome)
      modifies this`tally
      ensures tally == Counted(old(tally), o)
    {
      match o
      case Made => tally := tally.(made := tally.made + 1);
      case Changed => tally := tally.(changed := tally.changed + 1);
      case Found => tally := tally.(found := tally.found + 1);
      case Threw =>
    }

    // `write`, of a creation: ID replays a receipt, refuses a key used for other input, refuses what names a row it
    // lacks, answers a conflict, or makes the row.
    method Write(op: Op, create: bool) returns (threw: bool, made: bool)
      requires !op.EnsureSecret? && (create <==> !op.EnsureResource? && !op.EnsureClient?)
      requires op.EnsureEntitlement? || op.EnsureGroup? || !Present(rows, RowOf(op))
      requires op.EnsureEntitlement? && op.holder.group.Some? ==> op.holder.group.value in rows.groups
      modifies this`rows, this`receipts, this`tally
      ensures World(rows, receipts, retired, threw) == Step(World(old(rows), old(receipts), retired, false), op)
      ensures var outcome := OutcomeOf(World(old(rows), old(receipts), retired, false), op);
              tally == Counted(old(tally), outcome) && (made <==> outcome == Made)
    {
      made := false;
      ghost var w := World(rows, receipts, retired, false);
      var key := KeyOf(op);
      if key in receipts && (op.EnsureLink? ==> op.clientId !in rows.clients) {
        threw := receipts[key] != Input(op);
        if !threw {
          Count(Found);
        }
      } else if exists row :: row in Names(op) && !Present(rows, row) {
        assert Lacks(rows, op);
        threw := true;
      } else if Present(rows, RowOf(op)) || (RowOf(op) in retired && (op.EnsureGroup? || !create)) {
        threw := !create;
        if !threw {
          Count(Found);
        }
      } else {
        assert OutcomeOf(w, op) == Made;
        rows := With(rows, op);
        receipts := if op.EnsureLink? then receipts else receipts[key := Input(op)];
        Count(Made);
        threw, made := false, true;
      }
    }

    // `resource`: created when ID has none, else changed where it differs.
    method EnsureResource(key: string, id: string, d: Resource, own: bool) returns (threw: bool)
      modifies this`rows, this`receipts, this`tally
      ensures var op := Op.EnsureResource(key, id, d, own); var w := World(old(rows), old(receipts), retired, false);
              World(rows, receipts, retired, threw) == Step(w, op) && tally == Counted(old(tally), OutcomeOf(w, op))
    {
      if id !in rows.resources {
        var made;
        threw, made := Write(Op.EnsureResource(key, id, d, own), false);
        return;
      }
      var held := rows.resources[id];
      var scopes := if own then d.scopes else held.scopes + d.scopes;
      if held.name == d.name && held.ttl == d.ttl && held.scopes == scopes {
        Count(Found);
      } else {
        rows := rows.(resources := rows.resources[id := Resource(d.name, d.ttl, scopes)]);
        Count(Changed);
      }
      threw := false;
    }

    // `client`: whether this run made it, and then, for a machine client, the secret ID answered.
    method EnsureClient(key: string, clientId: string, d: Declared) returns (threw: bool, created: Option<nat>)
      modifies this`rows, this`receipts, this`secrets, this`answered, this`minted, this`tally
      ensures State(World(rows, receipts, retired, threw), secrets, store, answered, minted, tally)
        == Do(State(World(old(rows), old(receipts), retired, false), old(secrets), store, old(answered), old(minted),
              old(tally)), Ensure(Op.EnsureClient(key, clientId, d)))
      ensures created.Some? ==> clientId in answered && answered[clientId] == created.value && clientId in rows.clients
      ensures created.None? ==> answered == old(answered)
      ensures clientId in old(rows).clients ==> clientId in rows.clients
    {
      created := None;
      if clientId !in rows.clients {
        var made;
        threw, made := Write(Op.EnsureClient(key, clientId, d), false);
        if made && d.fixed == MACHINE {
          created := Some(minted);
          secrets, answered, minted := secrets[clientId := minted], answered[clientId := minted], minted + 1;
        }
        return;
      }
      var held := rows.clients[clientId];
      var wanted :=
        held.(name := d.name, uris := held.uris + d.uris, scopes := held.scopes + d.scopes,
            machineScopes := held.machineScopes + d.machineScopes);
      if held == wanted {
        Count(Found);
      } else {
        rows := rows.(clients := rows.clients[clientId := wanted]);
        Count(Changed);
      }
      threw := false;
    }

    // `link`: made when the client's row lacks it.
    method EnsureLink(key: string, clientId: string, target: string) returns (threw: bool)
      modifies this`rows, this`receipts, this`tally
      ensures var op := Op.EnsureLink(key, clientId, target); var w := World(old(rows), old(receipts), retired, false);
              World(rows, receipts, retired, threw) == Step(w, op) && tally == Counted(old(tally), OutcomeOf(w, op))
    {
      if clientId in rows.clients && target in rows.clients[clientId].links {
        Count(Found);
        threw := false;
      } else {
        var made;
        threw, made := Write(Op.EnsureLink(key, clientId, target), true);
      }
    }

    // `capability`: made when the organisation holds none, else widened by what it lacks.
    method EnsureCapability(key: string, slot: Slot, scopes: Scopes) returns (threw: bool)
      modifies this`rows, this`receipts, this`tally
      ensures var op := Op.EnsureCapability(key, slot, scopes);
              var w := World(old(rows), old(receipts), retired, false);
              World(rows, receipts, retired, threw) == Step(w, op) && tally == Counted(old(tally), OutcomeOf(w, op))
    {
      threw := false;
      if slot !in rows.capabilities {
        var made;
        threw, made := Write(Op.EnsureCapability(key, slot, scopes), true);
      } else if scopes <= rows.capabilities[slot] {
        Count(Found);
      } else {
        rows := rows.(capabilities := rows.capabilities[slot := rows.capabilities[slot] + scopes]);
        Count(Changed);
      }
    }

    // A role's group, sent without a read, and looked up by its slug for the group's entitlement.
    method EnsureRole(group: Op, entitlement: Op) returns (threw: bool)
      requires group.EnsureGroup? && entitlement.EnsureEntitlement? && entitlement.holder.group == Some(group.slug)
      modifies this`rows, this`receipts, this`tally
      ensures var w := World(old(rows), old(receipts), retired, false); var one := Step(w, group);
              && World(rows, receipts, retired, threw) == Step(one, entitlement)
              && tally == if one.threw then Counted(old(tally), OutcomeOf(w, group))
                else Counted(Counted(old(tally), OutcomeOf(w, group)), OutcomeOf(one, entitlement))
    {
      var made;
      threw, made := Write(group, true);
      if threw {
        return;
      }
      if group.slug !in rows.groups {
        threw := true;
        return;
      }
      threw, made := Write(entitlement, true);
    }

    // `machine`: the client, its secret stored from the creation's answer or rotated when it is not stored, then each
    // audience's link and capability.
    method Machine(clientId: string, name: string, scopes: Scopes, audiences: seq<Audience>) returns (threw: bool)
      requires clientId !in answered
      modifies this
      ensures State(World(rows, receipts, retired, threw), secrets, store, answered, minted, tally)
        == DoAll(State(World(old(rows), old(receipts), retired, false), old(secrets), old(store), old(answered),
                old(minted), old(tally)), MachineActs(clientId, name, scopes, AudiencesActs(clientId, audiences)))
    {
      ghost var before := State(World(rows, receipts, retired, false), secrets, store, answered, minted, tally);
      ghost var acts := MachineActs(clientId, name, scopes, AudiencesActs(clientId, audiences));
      hide *;
      MachineStarts(before, clientId, name, scopes, audiences);
      threw := StoreSecret(clientId, Declared(name, MACHINE, {}, {}, scopes));
      var i := 0;
      while i < |audiences| && !threw
        invariant i <= |audiences|
        invariant State(World(rows, receipts, retired, threw), secrets, store, answered, minted, tally)
          == DoAll(before, acts[..3 + 2 * i])
      {
        AudienceAt(clientId, audiences, i);
        DoTwo(before, acts, 3 + 2 * i);
        threw := EnsureAudience(clientId, audiences[i]);
        i := i + 1;
      }
      if threw {
        StaysThrown(before, acts, 3 + 2 * i);
      } else {
        assert acts[..|acts|] == acts;
      }
    }

    method EnsureAudience(clientId: string, a: Audience) returns (threw: bool)
      modifies this`rows, this`receipts, this`tally
      ensures State(World(rows, receipts, retired, threw), secrets, store, answered, minted, tally)
        == Do(Do(State(World(old(rows), old(receipts), retired, false), secrets, store, answered, minted, old(tally)),
             LinkOf(clientId, a)), CapabilityOf(clientId, a))
    {
      threw := EnsureLink(clientId + "-link" + a.suffix + "-v1", clientId, a.resource);
      if !threw {
        var key := clientId + "-capability" + a.suffix + "-v1";
        threw := EnsureCapability(key, MachineSlot(clientId, a.resource), a.granted);
      }
    }

    method StoreSecret(clientId: string, d: Declared) returns (threw: bool)
      requires clientId !in answered && d.fixed == MACHINE
      modifies this
      ensures State(World(rows, receipts, retired, threw), secrets, store, answered, minted, tally)
        == Do(Do(Do(State(World(old(rows), old(receipts), retired, false), old(secrets), old(store), old(answered),
                old(minted), old(tally)), Ensure(Op.EnsureClient(ClientKey(clientId), clientId, d))), Rotate(clientId)),
             Put(clientId))
    {
      var created: Option<nat>;
      threw, created := EnsureClient(ClientKey(clientId), clientId, d);
      if threw {
        return;
      }
      hide Step, OutcomeOf;
      if created.Some? {
        store := store[clientId := created.value];
      } else if clientId !in store {
        if clientId !in rows.clients {
          return true;
        }
        Count(Made);
        secrets, answered, minted := secrets[clientId := minted], answered[clientId := minted], minted + 1;
        store := store[clientId := secrets[clientId]];
      }
    }
  }

  // An audience of a machine client: its keys' suffix, its resource, and what is granted there.
  datatype Audience = Audience(suffix: string, resource: string, granted: Scopes)

  function LinkOf(clientId: string, a: Audience): Act {
    AudienceActs(clientId, a.suffix, a.resource, a.granted)[0]
  }

  function CapabilityOf(clientId: string, a: Audience): Act {
    AudienceActs(clientId, a.suffix, a.resource, a.granted)[1]
  }

  function AudiencesActs(clientId: string, audiences: seq<Audience>): seq<Act> {
    if audiences == [] then []
    else
      [LinkOf(clientId, audiences[0]), CapabilityOf(clientId, audiences[0])]
      + AudiencesActs(clientId, audiences[1..])
  }

  lemma {:induction false} AudiencesLength(clientId: string, audiences: seq<Audience>)
    ensures |AudiencesActs(clientId, audiences)| == 2 * |audiences|
  {
    if audiences != [] {
      AudiencesLength(clientId, audiences[1..]);
    }
  }

  lemma {:induction false} AudienceIn(clientId: string, audiences: seq<Audience>, i: nat)
    requires i < |audiences|
    ensures |AudiencesActs(clientId, audiences)| == 2 * |audiences|
    ensures AudiencesActs(clientId, audiences)[2 * i] == LinkOf(clientId, audiences[i])
    ensures AudiencesActs(clientId, audiences)[2 * i + 1] == CapabilityOf(clientId, audiences[i])
  {
    hide LinkOf, CapabilityOf;
    AudiencesLength(clientId, audiences);
    if i > 0 {
      AudienceIn(clientId, audiences[1..], i - 1);
    }
  }

  lemma AudienceAt(clientId: string, audiences: seq<Audience>, i: nat)
    requires i < |audiences|
    ensures forall name, scopes ::
        var acts := MachineActs(clientId, name, scopes, AudiencesActs(clientId, audiences));
        && |acts| == 3 + 2 * |audiences| && acts[3 + 2 * i] == LinkOf(clientId, audiences[i])
        && acts[3 + 2 * i + 1] == CapabilityOf(clientId, audiences[i])
  {
    AudienceIn(clientId, audiences, i);
  }

  lemma MachineStarts(
      s: State, clientId: string, name: string, scopes: Scopes, audiences: seq<Audience>)
    ensures var acts := MachineActs(clientId, name, scopes, AudiencesActs(clientId, audiences));
            && |acts| == 3 + 2 * |audiences|
            && DoAll(s, acts[..3])
               == Do(Do(Do(s, Ensure(Op.EnsureClient(ClientKey(clientId), clientId,
                 Declared(name, MACHINE, {}, {}, scopes)))), Rotate(clientId)), Put(clientId))
  {
    AudiencesLength(clientId, audiences);
    hide Do;
    var acts := MachineActs(clientId, name, scopes, AudiencesActs(clientId, audiences));
    assert acts[..0] == [];
    Prefix(s, acts, 0);
    Prefix(s, acts, 1);
    Prefix(s, acts, 2);
  }

  lemma DoTwo(s: State, acts: seq<Act>, n: nat)
    requires n + 2 <= |acts|
    ensures DoAll(s, acts[..n + 2]) == Do(Do(DoAll(s, acts[..n]), acts[n]), acts[n + 1])
  {
    Prefix(s, acts, n);
    Prefix(s, acts, n + 1);
  }

  lemma {:induction false} StaysThrown(s: State, acts: seq<Act>, n: nat)
    requires n <= |acts| && DoAll(s, acts[..n]).id.threw
    ensures DoAll(s, acts) == DoAll(s, acts[..n])
    decreases |acts| - n
  {
    if n == |acts| {
      assert acts[..n] == acts;
    } else {
      Prefix(s, acts, n);
      StaysThrown(s, acts, n + 1);
    }
  }
}
