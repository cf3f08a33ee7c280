// The register Job (infra/ops/src/register.ts): the ordered run of registrations, and the machine clients' secrets it
// stores the moment ID answers them, or rotates when a client exists whose secret is not stored. A run may be cut off
// after any write, or by a throw, and run again.
module Register {
  import opened Options
  import opened Registrar

  // One write at a time: a row, a rotation when the secret is not to hand, or the store's put; or a machine client's
  // first call, for which ID must give it a token.
  datatype Act =
    | Ensure(op: Op) | Rotate(clientId: string) | Put(clientId: string)
    | SignIn(clientId: string, resource: string, scopes: Scopes)

  datatype Tally = Tally(made: nat, changed: nat, found: nat)

  // ID and its clients' current secrets; the secrets the store holds; and, of this run alone, the secrets ID has
  // answered and what the tally counts. Each secret ID mints is a new one.
  datatype State = State(id: World, secrets: map<string, nat>, store: map<string, nat>, answered: map<string, nat>,
      minted: nat, tally: Tally)

  // `tokenEndpointAuthMethod: "client_secret_basic"`, `grantTypes: ["client_credentials"]`
  const MACHINE := "client_secret_basic client_credentials"

  function Counted(t: Tally, o: Outcome): Tally {
    match o
    case Made => t.(made := t.made + 1)
    case Changed => t.(changed := t.changed + 1)
    case Found => t.(found := t.found + 1)
    case Threw => t
  }

  function Minted(s: State, clientId: string): State {
    s.(secrets := s.secrets[clientId := s.minted], answered := s.answered[clientId := s.minted], minted := s.minted + 1)
  }

  function Thrown(s: State): State {
    s.(id := s.id.(threw := true))
  }

  function MachineSlot(clientId: string, resource: string): Slot {
    (clientId, Some(resource), "client_credentials")
  }

  // ID gives the client a token for the resource: its secret is the stored one, it is linked, and the client and its
  // capability both allow the scopes (apps/id/src/auth/machine-capability.ts:7-60).
  predicate Trusted(s: State, clientId: string, resource: string, scopes: Scopes) {
    var slot := MachineSlot(clientId, resource);
    && clientId in s.id.rows.clients && resource in s.id.rows.clients[clientId].links
    && scopes <= s.id.rows.clients[clientId].machineScopes
    && slot in s.id.rows.capabilities && scopes <= s.id.rows.capabilities[slot]
    && Stored(s, clientId)
  }

  predicate Stored(s: State, clientId: string) {
    clientId in s.store && clientId in s.secrets && s.store[clientId] == s.secrets[clientId]
  }

  function Do(s: State, act: Act): State {
    if s.id.threw then s
    else
      match act
      case Ensure(op) =>
        var o := OutcomeOf(s.id, op);
        var t := s.(id := Step(s.id, op), tally := Counted(s.tally, o));
        if op.EnsureClient? && o == Made && op.client.fixed == MACHINE then Minted(t, op.clientId) else t
      case Rotate(clientId) =>
        if clientId in s.answered || clientId in s.store then s
        else if clientId !in s.id.rows.clients then Thrown(s)
        else Minted(s.(tally := Counted(s.tally, Made)), clientId)
      case Put(clientId) =>
        if clientId in s.answered then s.(store := s.store[clientId := s.answered[clientId]]) else s
      case SignIn(clientId, resource, scopes) => if Trusted(s, clientId, resource, scopes) then s else Thrown(s)
  }

  // A new run remembers nothing of the one before but what ID and the store hold.
  function Anew(s: State): State {
    s.(id := Again(s.id), answered := map[], tally := Tally(0, 0, 0))
  }

  function DoAll(s: State, acts: seq<Act>): State {
    if acts == [] then s else Do(DoAll(s, acts[..|acts| - 1]), acts[|acts| - 1])
  }

  function Registered(s: State, acts: seq<Act>): State {
    DoAll(Anew(s), acts)
  }

  function CutOff(s: State, acts: seq<Act>, cuts: seq<nat>): State
    requires forall i :: 0 <= i < |cuts| ==> cuts[i] <= |acts|
  {
    if cuts == [] then s else Registered(CutOff(s, acts, cuts[..|cuts| - 1]), acts[..cuts[|cuts| - 1]])
  }

  // ---------- Acts in turn ----------

  lemma Prefix(s: State, acts: seq<Act>, n: nat)
    requires n < |acts|
    ensures DoAll(s, acts[..n + 1]) == Do(DoAll(s, acts[..n]), acts[n])
  {
    assert acts[..n + 1][..n] == acts[..n];
  }

  lemma {:induction false} DoAllAppend(s: State, a: seq<Act>, b: seq<Act>)
    ensures DoAll(s, a + b) == DoAll(DoAll(s, a), b)
  {
    if b == [] {
      assert a + b == a;
    } else {
      assert (a + b)[..|a + b| - 1] == a + b[..|b| - 1];
      DoAllAppend(s, a, b[..|b| - 1]);
    }
  }

  lemma ThrownStays(s: State, act: Act)
    requires s.id.threw
    ensures Do(s, act) == s
  {}

  lemma {:induction false} ThrownStaysAll(s: State, acts: seq<Act>)
    requires s.id.threw
    ensures DoAll(s, acts) == s
  {
    if acts != [] {
      ThrownStaysAll(s, acts[..|acts| - 1]);
    }
  }

  // ---------- ID goes as the registrar says ----------

  // The declarations of a list of acts. A rotation needs its client only where no secret was stored before the runs.
  function OpsOf(acts: seq<Act>, stored: set<string>): seq<Op> {
    if acts == [] then [] else OpsOf(acts[..|acts| - 1], stored) + OpsOfAct(acts[|acts| - 1], stored)
  }

  function OpsOfAct(act: Act, stored: set<string>): seq<Op> {
    match act
    case Ensure(op) => [op]
    case Rotate(clientId) => if clientId in stored then [] else [EnsureSecret(clientId)]
    case _ => []
  }

  // A secret in the store was there before the runs, or is of a client ID has; so is one answered.
  ghost predicate Tied(s: State, stored: set<string>) {
    && stored <= s.store.Keys
    && (forall c :: c in s.store ==> c in stored || c in s.id.rows.clients)
    && (forall c :: c in s.answered ==> c in s.id.rows.clients)
  }

  lemma ClientKept(w: World, op: Op, c: string)
    requires c in w.rows.clients
    ensures c in Step(w, op).rows.clients
  {
    PresentStep(w, op, ClientRow(c));
  }

  lemma DoFollows(s: State, act: Act, stored: set<string>)
    requires Tied(s, stored) && !act.SignIn?
    ensures Tied(Do(s, act), stored)
    ensures Do(s, act).id == match act
        case Ensure(op) => Step(s.id, op)
        case Rotate(c) => if c in stored then s.id else Step(s.id, EnsureSecret(c))
        case _ => s.id
  {
    if act.Ensure? {
      forall c | c in s.id.rows.clients
        ensures c in Step(s.id, act.op).rows.clients
      {
        ClientKept(s.id, act.op, c);
      }
      if !s.id.threw && act.op.EnsureClient? && OutcomeOf(s.id, act.op) == Made {
        assert act.op.clientId in Step(s.id, act.op).rows.clients;
      }
      hide OutcomeOf;
    }
  }

  lemma {:induction false} IdFollows(s: State, acts: seq<Act>, stored: set<string>)
    requires Tied(s, stored) && forall i :: 0 <= i < |acts| ==> !acts[i].SignIn?
    ensures DoAll(s, acts).id == Run(s.id, OpsOf(acts, stored)) && Tied(DoAll(s, acts), stored)
  {
    if acts != [] {
      var n := |acts| - 1;
      assert forall i :: 0 <= i < n ==> !acts[..n][i].SignIn?;
      IdFollows(s, acts[..n], stored);
      DoFollows(DoAll(s, acts[..n]), acts[n], stored);
      hide Do, Step, Tied;
      var ops := OpsOf(acts, stored);
      if OpsOfAct(acts[n], stored) == [] {
        assert ops == OpsOf(acts[..n], stored);
      } else {
        assert ops[..|ops| - 1] == OpsOf(acts[..n], stored);
      }
    }
  }

  lemma {:induction false} OpsOfPrefix(acts: seq<Act>, n: nat, stored: set<string>)
    requires n <= |acts|
    ensures var some := OpsOf(acts[..n], stored);
            |some| <= |OpsOf(acts, stored)| && some == OpsOf(acts, stored)[..|some|]
    decreases |acts|
  {
    if n == |acts| {
      assert acts[..n] == acts;
    } else {
      assert acts[..|acts| - 1][..n] == acts[..n];
      OpsOfPrefix(acts[..|acts| - 1], n, stored);
    }
  }

  // A put comes after its rotation, and nobody signs in midway.
  predicate Sequenced(acts: seq<Act>) {
    && (forall i :: 0 <= i < |acts| ==> !acts[i].SignIn?)
    && (forall i :: 0 <= i < |acts| && acts[i].Put? ==> Rotate(acts[i].clientId) in acts[..i])
  }

  predicate Sound(acts: seq<Act>, stored: set<string>) {
    Coherent(OpsOf(acts, stored)) && Ordered(OpsOf(acts, stored)) && Sequenced(acts)
  }

  lemma SequencedPrefix(acts: seq<Act>, n: nat)
    requires n <= |acts| && Sequenced(acts)
    ensures Sequenced(acts[..n])
  {
    forall i | 0 <= i < n
      ensures acts[..n][i] == acts[i] && acts[..n][..i] == acts[..i]
    {}
  }

  // Wherever earlier runs were cut off, a whole run leaves ID as one uninterrupted run would.
  lemma {:induction false} CutIds(s: State, acts: seq<Act>, cuts: seq<nat>, stored: set<string>)
    requires Sound(acts, stored) && Tied(Anew(s), stored) && forall i :: 0 <= i < |cuts| ==> cuts[i] <= |acts|
    ensures var t := CutOff(s, acts, cuts);
            && Tied(Anew(t), stored)
            && Run(Again(t.id), OpsOf(acts, stored)) == Run(Again(s.id), OpsOf(acts, stored))
  {
    if cuts != [] {
      var k := |cuts| - 1;
      var before, ops := CutOff(s, acts, cuts[..k]), OpsOf(acts, stored);
      CutIds(s, acts, cuts[..k], stored);
      SequencedPrefix(acts, cuts[k]);
      IdFollows(Anew(before), acts[..cuts[k]], stored);
      OpsOfPrefix(acts, cuts[k], stored);
      CutRunConverges(Again(before.id), ops, |OpsOf(acts[..cuts[k]], stored)|);
      hide Sound, OpsOf, Run;
    }
  }

  // ---------- Stored secrets are ID's ----------

  // What the store holds is ID's current secret of the client, or that of a client removed; what this run was answered
  // is ID's.
  ghost predicate InSync(s: State) {
    && (forall c :: c in s.store ==> if c in s.id.rows.clients then Stored(s, c) else ClientRow(c) in s.id.retired)
    && (forall c ::
      c in s.answered ==> c in s.id.rows.clients && c in s.secrets && s.secrets[c] == s.answered[c])
  }

  lemma MadeClient(w: World, op: Op)
    requires op.EnsureClient? && OutcomeOf(w, op) == Made
    ensures op.clientId !in w.rows.clients && RowOf(op) !in w.retired
  {}

  lemma ClientsAfter(w: World, op: Op, c: string)
    ensures c in Step(w, op).rows.clients ==>
      c in w.rows.clients || (!w.threw && op.EnsureClient? && op.clientId == c && OutcomeOf(w, op) == Made)
    ensures Step(w, op).retired == w.retired
  {
    if c in Step(w, op).rows.clients && c !in w.rows.clients {
      PresentOnlyMade(w, op, ClientRow(c));
    }
    StepIs(w, op);
    hide Step;
  }

  // Rows go on as they were, but for a client made, which the store then holds nothing of.
  lemma RowsInSync(s: State, id: World, made: set<string>)
    requires InSync(s) && id.retired == s.id.retired && forall c :: c in made ==> ClientRow(c) !in s.id.retired
    requires forall c :: c in made ==> c !in s.id.rows.clients
    requires forall c :: c in id.rows.clients <==> c in s.id.rows.clients || c in made
    ensures InSync(s.(id := id)) && forall c :: c in made ==> c !in s.store
  {}

  lemma MintedInSync(s: State, c: string)
    requires InSync(s) && c in s.id.rows.clients && c !in s.store
    ensures InSync(Minted(s, c))
  {}

  lemma EnsureInSync(s: State, op: Op)
    requires InSync(s) && !s.id.threw
    ensures InSync(Do(s, Ensure(op)))
  {
    var id := Step(s.id, op);
    var isMade := op.EnsureClient? && OutcomeOf(s.id, op) == Made;
    var made := if isMade then {op.clientId} else {};
    if isMade {
      MadeClient(s.id, op);
      assert op.clientId in id.rows.clients;
    }
    forall c
      ensures c in id.rows.clients <==> c in s.id.rows.clients || c in made
    {
      ClientsAfter(s.id, op, c);
      if c in s.id.rows.clients {
        ClientKept(s.id, op, c);
      }
    }
    ClientsAfter(s.id, op, "");
    hide OutcomeOf, Step, InSync;
    RowsInSync(s, id, made);
    var t := s.(id := id, tally := Counted(s.tally, OutcomeOf(s.id, op)));
    TallyInSync(s.(id := id), t.tally);
    if isMade {
      MintedInSync(t, op.clientId);
    }
  }

  lemma TallyInSync(s: State, tally: Tally)
    requires InSync(s)
    ensures InSync(s.(tally := tally))
  {}

  lemma DoInSync(s: State, act: Act)
    requires InSync(s)
    ensures InSync(Do(s, act))
  {
    if act.Ensure? && !s.id.threw {
      EnsureInSync(s, act.op);
    } else {
      hide OutcomeOf, Step, Trusted;
    }
  }

  lemma {:induction false} AllInSync(s: State, acts: seq<Act>)
    requires InSync(s)
    ensures InSync(DoAll(s, acts))
  {
    if acts != [] {
      var n := |acts| - 1;
      AllInSync(s, acts[..n]);
      DoInSync(DoAll(s, acts[..n]), acts[n]);
      hide InSync, Do;
    }
  }

  lemma AnewInSync(s: State)
    requires InSync(s)
    ensures InSync(Anew(s))
  {}

  lemma {:induction false} CutInSync(s: State, acts: seq<Act>, cuts: seq<nat>)
    requires InSync(Anew(s)) && forall i :: 0 <= i < |cuts| ==> cuts[i] <= |acts|
    ensures InSync(Anew(CutOff(s, acts, cuts)))
  {
    if cuts != [] {
      var k := |cuts| - 1;
      CutInSync(s, acts, cuts[..k]);
      AllInSync(Anew(CutOff(s, acts, cuts[..k])), acts[..cuts[k]]);
      AnewInSync(CutOff(s, acts, cuts));
      hide InSync;
    }
  }

  lemma ThrewBefore(s: State, act: Act)
    requires !Do(s, act).id.threw
    ensures !s.id.threw
  {}

  // After its rotation a client's secret is to hand, and after its put it is stored; neither is forgotten.
  lemma {:induction false} SecretsToHand(s: State, acts: seq<Act>, c: string)
    ensures (Rotate(c) in acts && !DoAll(s, acts).id.threw) || c in s.answered ==>
        c in DoAll(s, acts).answered || c in DoAll(s, acts).store
    ensures c in s.store ==> c in DoAll(s, acts).store
    ensures c in s.answered ==> c in DoAll(s, acts).answered
  {
    if acts != [] {
      var n := |acts| - 1;
      assert acts == acts[..n] + [acts[n]];
      SecretsToHand(s, acts[..n], c);
      hide OutcomeOf, Step, Trusted;
    }
  }

  lemma PutAfterRotate(acts: seq<Act>, n: nat)
    requires Sequenced(acts) && n < |acts| && acts[n].Put?
    ensures Rotate(acts[n].clientId) in acts[..n]
  {}

  lemma StoreKeeps(s: State, act: Act, c: string)
    ensures c in s.store ==> c in Do(s, act).store
    ensures act == Put(c) && c in s.answered && !s.id.threw ==> c in Do(s, act).store
  {
    hide OutcomeOf, Step, Trusted;
  }

  lemma {:induction false} SecretsStored(s: State, acts: seq<Act>, c: string)
    requires Sequenced(acts) && Put(c) in acts && !DoAll(s, acts).id.threw
    ensures c in DoAll(s, acts).store
  {
    hide Sequenced, Do;
    var n := |acts| - 1;
    assert acts == acts[..n] + [acts[n]];
    ThrewBefore(DoAll(s, acts[..n]), acts[n]);
    StoreKeeps(DoAll(s, acts[..n]), acts[n], c);
    if acts[n] == Put(c) {
      PutAfterRotate(acts, n);
      SecretsToHand(s, acts[..n], c);
    } else {
      SequencedPrefix(acts, n);
      SecretsStored(s, acts[..n], c);
    }
  }

  // ---------- The promise of a list of acts ----------

  // However many runs were cut off, after whichever writes or by a throw, a whole run leaves ID as one uninterrupted
  // run does; and unless it throws, every machine client's secret is stored, and it is ID's while ID has the client.
  lemma RegisterConverges(s: State, acts: seq<Act>, cuts: seq<nat>)
    requires Sound(acts, s.store.Keys) && InSync(Anew(s)) && forall i :: 0 <= i < |cuts| ==> cuts[i] <= |acts|
    ensures var done := Registered(CutOff(s, acts, cuts), acts);
            && done.id == Registered(s, acts).id
            && InSync(done)
            && forall c :: Put(c) in acts && !done.id.threw ==>
              c in done.store && (c in done.id.rows.clients ==> Stored(done, c))
  {
    var cut, stored := CutOff(s, acts, cuts), s.store.Keys;
    CutIds(s, acts, cuts, stored);
    IdFollows(Anew(cut), acts, stored);
    IdFollows(Anew(s), acts, stored);
    CutInSync(s, acts, cuts);
    AllInSync(Anew(cut), acts);
    forall c | Put(c) in acts && !Registered(cut, acts).id.threw
      ensures c in Registered(cut, acts).store
    {
      SecretsStored(Anew(cut), acts, c);
    }
    hide Sound, OpsOf, Run, DoAll, Tied;
  }

  // And after a run that did not throw, a further run makes nothing, changes nothing, and leaves ID and the store as
  // they are.
  lemma FurtherRun(s: State, acts: seq<Act>)
    requires Sound(acts, s.store.Keys) && (forall c :: Rotate(c) in acts ==> Put(c) in acts)
    requires !Registered(s, acts).id.threw
    ensures var done := Registered(s, acts); var again := Registered(done, acts);
            && again.tally.made == 0 && again.tally.changed == 0
            && again.id == done.id && again.secrets == done.secrets && again.store == done.store
  {
    var done, ops := Registered(s, acts), OpsOf(acts, s.store.Keys);
    IdFollows(Anew(s), acts, s.store.Keys);
    RunFinds(Again(s.id), ops);
    forall c | Rotate(c) in acts
      ensures c in done.store
    {
      SecretsStored(Anew(s), acts, c);
    }
    Quiet(done, acts, s.store.Keys);
  }

  lemma {:induction false} Quiet(done: State, acts: seq<Act>, stored: set<string>)
    requires AllFound(done.id, OpsOf(acts, stored)) && Sequenced(acts) && !done.id.threw
    requires forall c :: Rotate(c) in acts ==> c in done.store
    ensures var again := DoAll(Anew(done), acts);
            again == Anew(done).(tally := Tally(0, 0, again.tally.found))
  {
    if acts != [] {
      var n := |acts| - 1;
      var last := acts[n];
      assert acts == acts[..n] + [last];
      var ops, some := OpsOf(acts, stored), OpsOf(acts[..n], stored);
      SequencedPrefix(acts, n);
      forall i | 0 <= i < |some|
        ensures OutcomeOf(done.id, some[i]) == Found
      {
        assert some[i] == ops[i];
      }
      Quiet(done, acts[..n], stored);
      if last.Ensure? {
        assert ops[|ops| - 1] == last.op;
      }
      hide OutcomeOf;
    }
  }
}
