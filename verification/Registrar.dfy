// What a deployment registers in Answerable ID (infra/ops/src/registrar.ts), row by row: read first, created under its
// key when ID lacks it, changed where it differs, lists only widening but for an MCP's own resource. ID keeps a receipt
// for each key (apps/id/src/services/operations.ts:42-106): a key sent again makes nothing, whether the row it once
// made is still there or was removed since.
module Registrar {
  import opened Options

  type Scopes = set<string>

  datatype Resource = Resource(name: string, ttl: nat, scopes: Scopes)

  // A client's row: what its creation fixes, what a registration may change, and what it is linked to.
  datatype Client = Client(name: string, fixed: string, uris: Scopes, scopes: Scopes, machineScopes: Scopes,
      links: set<string>)

  // A client as declared; a list left out is empty, and widens nothing.
  datatype Declared = Declared(name: string, fixed: string, uris: Scopes, scopes: Scopes, machineScopes: Scopes)

  // A capability by its client, resource (none for a login) and grant kind.
  type Slot = (string, Option<string>, string)

  // An entitlement by the client, group and resource it names.
  datatype Target = Target(client: Option<string>, group: Option<string>, resource: Option<string>)

  datatype Rows = Rows(
    resources: map<string, Resource>, clients: map<string, Client>, capabilities: map<Slot, Scopes>,
    entitlements: map<Target, Scopes>, groups: set<string>)

  // A declaration, with the key its creation is sent under. A secret is one that is stored or rotated.
  datatype Op =
    | EnsureResource(key: string, id: string, declared: Resource, own: bool)
    | EnsureClient(key: string, clientId: string, client: Declared)
    | EnsureLink(key: string, clientId: string, target: string)
    | EnsureCapability(key: string, slot: Slot, scopes: Scopes)
    | EnsureEntitlement(key: string, holder: Target, scopes: Scopes)
    | EnsureGroup(key: string, slug: string)
    | EnsureSecret(clientId: string)

  datatype Outcome = Made | Changed | Found | Threw

  // A row by what identifies it, whatever it holds.
  datatype RowId =
    | ResourceRow(id: string) | ClientRow(clientId: string) | LinkRow(clientId: string, target: string)
    | CapabilityRow(slot: Slot) | EntitlementRow(holder: Target) | GroupRow(slug: string) | SecretOf(clientId: string)

  // ID's names for the commands: a key counts for the command it was sent with, and for its caller, whom each of these
  // keys has one of.
  datatype Command = CreateResource | CreateClient | LinkResource | CreateCapability | CreateEntitlement | CreateGroup
    | RotateSecret

  type Key = (Command, string)

  // ID: its rows; for each key it has seen, what was sent; the identifiers of rows it once had, which stay taken
  // (apps/web/content/docs/id/manage.mdx:259); and whether the run against it has thrown.
  datatype World = World(rows: Rows, receipts: map<Key, Op>, retired: set<RowId>, threw: bool)

  function RowOf(op: Op): RowId {
    match op
    case EnsureResource(_, id, _, _) => ResourceRow(id)
    case EnsureClient(_, clientId, _) => ClientRow(clientId)
    case EnsureLink(_, clientId, target) => LinkRow(clientId, target)
    case EnsureCapability(_, slot, _) => CapabilityRow(slot)
    case EnsureEntitlement(_, holder, _) => EntitlementRow(holder)
    case EnsureGroup(_, slug) => GroupRow(slug)
    case EnsureSecret(clientId) => SecretOf(clientId)
  }

  function KeyOf(op: Op): Key {
    match op
    case EnsureResource(key, _, _, _) => (CreateResource, key)
    case EnsureClient(key, _, _) => (CreateClient, key)
    case EnsureLink(key, _, _) => (LinkResource, key)
    case EnsureCapability(key, _, _) => (CreateCapability, key)
    case EnsureEntitlement(key, _, _) => (CreateEntitlement, key)
    case EnsureGroup(key, _) => (CreateGroup, key)
    case EnsureSecret(clientId) => (RotateSecret, clientId)
  }

  // What a creation sends: how a resource is kept afterwards is no part of it.
  function Input(op: Op): Op {
    if op.EnsureResource? then op.(own := false) else op
  }

  predicate Present(rows: Rows, row: RowId) {
    match row
    case ResourceRow(id) => id in rows.resources
    case ClientRow(clientId) => clientId in rows.clients
    case LinkRow(clientId, target) => clientId in rows.clients && target in rows.clients[clientId].links
    case CapabilityRow(slot) => slot in rows.capabilities
    case EntitlementRow(holder) => holder in rows.entitlements
    case GroupRow(slug) => slug in rows.groups
    case SecretOf(clientId) => clientId in rows.clients
  }

  // The rows a declaration names.
  function Names(op: Op): set<RowId> {
    match op
    case EnsureLink(_, clientId, _) => {ClientRow(clientId)}
    case EnsureCapability(_, slot, _) => {ClientRow(slot.0)}
    case EnsureSecret(clientId) => {ClientRow(clientId)}
    case EnsureEntitlement(_, holder, _) =>
      (if holder.client.Some? then {ClientRow(holder.client.value)} else {})
      + if holder.group.Some? then {GroupRow(holder.group.value)} else {}
    case _ => {}
  }

  predicate Lacks(rows: Rows, op: Op) {
    exists row :: row in Names(op) && !Present(rows, row)
  }

  // ---------- One declaration ----------

  // A resource as it will be: its scopes keep what it holds unless it is an MCP's own.
  function ResourceAfter(rows: Rows, id: string, d: Resource, own: bool): Resource {
    if id in rows.resources && !own then d.(scopes := rows.resources[id].scopes + d.scopes) else d
  }

  function ClientAfter(rows: Rows, clientId: string, d: Declared): Client {
    if clientId in rows.clients then
      var held := rows.clients[clientId];
      held.(name := d.name, uris := held.uris + d.uris, scopes := held.scopes + d.scopes,
          machineScopes := held.machineScopes + d.machineScopes)
    else Client(d.name, d.fixed, d.uris, d.scopes, d.machineScopes, {})
  }

  // The rows once the declaration's row is made, or changed where it differs.
  function With(rows: Rows, op: Op): Rows {
    match op
    case EnsureResource(_, id, d, own) => rows.(resources := rows.resources[id := ResourceAfter(rows, id, d, own)])
    case EnsureClient(_, clientId, d) => rows.(clients := rows.clients[clientId := ClientAfter(rows, clientId, d)])
    case EnsureLink(_, clientId, target) =>
      if clientId !in rows.clients then rows
      else
        rows.(clients :=
          rows.clients[clientId := rows.clients[clientId].(links := rows.clients[clientId].links + {target})])
    case EnsureCapability(_, slot, scopes) =>
      rows.(capabilities :=
        rows.capabilities[slot := (if slot in rows.capabilities then rows.capabilities[slot] else {}) + scopes])
    case EnsureEntitlement(_, holder, scopes) => rows.(entitlements := rows.entitlements[holder := scopes])
    case EnsureGroup(_, slug) => rows.(groups := rows.groups + {slug})
    case EnsureSecret(_) => rows
  }

  // The row is there as declared.
  predicate Holds(rows: Rows, op: Op) {
    match op
    case EnsureResource(_, id, d, own) => id in rows.resources && rows.resources[id] == ResourceAfter(rows, id, d, own)
    case EnsureClient(_, clientId, d) =>
      clientId in rows.clients && rows.clients[clientId] == ClientAfter(rows, clientId, d)
    case EnsureCapability(_, slot, scopes) => slot in rows.capabilities && scopes <= rows.capabilities[slot]
    case EnsureEntitlement(_, holder, scopes) => holder in rows.entitlements && rows.entitlements[holder] == scopes
    case _ => Present(rows, RowOf(op))
  }

  // A link's key carries its client's revision, which making or removing a link moves on
  // (apps/id/drizzle/0001_invariants.sql:147-162), so ID has seen it only where the client is gone.
  predicate Used(w: World, op: Op) {
    KeyOf(op) in w.receipts && (op.EnsureLink? ==> op.clientId !in w.rows.clients)
  }

  // What ID makes of a creation: a receipt for the same input is replayed, whatever became of the row, and counted
  // found; one for other input is refused. A conflict is found too, but for a resource or a client, whose creation is
  // not said to be one. A group is looked up by its slug before its entitlement is sent.
  function Creation(w: World, op: Op): Outcome {
    if op.EnsureEntitlement? && op.holder.group.Some? && op.holder.group.value !in w.rows.groups then Threw
    else if Used(w, op) then (if w.receipts[KeyOf(op)] == Input(op) then Found else Threw)
    else if Lacks(w.rows, op) then Threw
    else if Present(w.rows, RowOf(op)) then Found
    else if (op.EnsureResource? || op.EnsureClient?) && RowOf(op) in w.retired then Threw
    else if op.EnsureGroup? && RowOf(op) in w.retired then Found
    else Made
  }

  // What the tally counts, or a throw. Entitlements and groups are sent without being read.
  function OutcomeOf(w: World, op: Op): Outcome {
    match op
    case EnsureSecret(clientId) => if clientId in w.rows.clients then Found else Threw
    case EnsureEntitlement(_, _, _) => Creation(w, op)
    case EnsureGroup(_, _) => Creation(w, op)
    case _ => if !Present(w.rows, RowOf(op)) then Creation(w, op) else if Holds(w.rows, op) then Found else Changed
  }

  function Step(w: World, op: Op): World {
    if w.threw then w
    else
      match OutcomeOf(w, op)
      case Found => w
      case Threw => w.(threw := true)
      case Changed => w.(rows := With(w.rows, op))
      case Made =>
        w.(rows := With(w.rows, op),
          receipts := if op.EnsureLink? then w.receipts else w.receipts[KeyOf(op) := Input(op)])
  }

  function Run(w: World, ops: seq<Op>): World {
    if ops == [] then w else Step(Run(w, ops[..|ops| - 1]), ops[|ops| - 1])
  }

  // A new run has not thrown.
  function Again(w: World): World {
    w.(threw := false)
  }

  ghost predicate AllHold(rows: Rows, ops: seq<Op>) {
    forall i :: 0 <= i < |ops| ==> Holds(rows, ops[i])
  }

  // ---------- What ID will make ----------

  // The row is there, or nothing stands against making it: no receipt for its key, and an identifier never used. Where
  // nothing is read first, a receipt or a conflict must stand for the very row declared.
  predicate Clear(w: World, op: Op) {
    var row := RowOf(op);
    match op
    case EnsureLink(_, _, _) => true
    case EnsureSecret(_) => true
    case EnsureEntitlement(_, _, _) =>
      if Used(w, op) then w.receipts[KeyOf(op)] == Input(op) && Holds(w.rows, op)
      else Present(w.rows, row) ==> Holds(w.rows, op)
    case EnsureGroup(_, _) =>
      if Used(w, op) then w.receipts[KeyOf(op)] == Input(op) && Present(w.rows, row)
      else Present(w.rows, row) || row !in w.retired
    case EnsureCapability(_, _, _) => Present(w.rows, row) || !Used(w, op)
    case _ => Present(w.rows, row) || (!Used(w, op) && row !in w.retired)
  }

  // ---------- Declarations that agree ----------

  // One key to a row, and one row to a key.
  predicate SameKeys(a: Op, b: Op) {
    a.EnsureLink? || a.EnsureSecret? || (RowOf(a) == RowOf(b) <==> KeyOf(a) == KeyOf(b))
  }

  predicate Keyed(ops: seq<Op>) {
    forall i, j :: 0 <= i < j < |ops| ==> SameKeys(ops[i], ops[j])
  }

  // Two declarations of one row agree on what they set outright; lists may differ, but not of an MCP's own resource.
  predicate Agree(a: Op, b: Op) {
    SameKeys(a, b) &&
    match (a, b)
    case (EnsureResource(_, i, d, o), EnsureResource(_, j, e, p)) =>
      i == j ==> d.name == e.name && d.ttl == e.ttl && o == p && (o ==> d.scopes == e.scopes)
    case (EnsureClient(_, i, d), EnsureClient(_, j, e)) => i == j ==> d.name == e.name
    case (EnsureEntitlement(_, i, d), EnsureEntitlement(_, j, e)) => i == j ==> d == e
    case _ => true
  }

  predicate Coherent(ops: seq<Op>) {
    forall i, j :: 0 <= i < j < |ops| ==> Agree(ops[i], ops[j])
  }

  predicate DeclaredBefore(ops: seq<Op>, n: nat, row: RowId)
    requires n <= |ops|
  {
    exists j :: 0 <= j < n && RowOf(ops[j]) == row
  }

  // Every row a declaration names is declared before it.
  predicate Ordered(ops: seq<Op>) {
    forall i, row :: 0 <= i < |ops| && row in Names(ops[i]) ==> DeclaredBefore(ops, i, row)
  }

  // ---------- One declaration after another ----------

  lemma ThrewStays(w: World, ops: seq<Op>)
    requires w.threw
    ensures Run(w, ops) == w
  {
    if ops != [] {
      ThrewStays(w, ops[..|ops| - 1]);
    }
  }

  lemma StepIs(w: World, op: Op)
    ensures var t := Step(w, op);
            && (t.rows == w.rows || t.rows == With(w.rows, op))
            && (t.receipts == w.receipts || (!op.EnsureLink? && t.receipts == w.receipts[KeyOf(op) := Input(op)]))
            && t.retired == w.retired
  {
    hide OutcomeOf, With;
  }

  lemma PresentStep(w: World, op: Op, row: RowId)
    requires Present(w.rows, row)
    ensures Present(Step(w, op).rows, row)
  {
    StepIs(w, op);
    hide Step, ResourceAfter;
  }

  // A row appears only when its own declaration makes it.
  lemma PresentOnlyMade(w: World, op: Op, row: RowId)
    requires !Present(w.rows, row) && Present(Step(w, op).rows, row)
    ensures row == RowOf(op) || (row.SecretOf? && RowOf(op) == ClientRow(row.clientId))
    ensures !w.threw && OutcomeOf(w, op) == Made
  {
    hide ResourceAfter;
  }

  lemma OtherStep(w: World, b: Op, a: Op)
    requires !a.EnsureLink? && !a.EnsureSecret? && RowOf(a) != RowOf(b) && KeyOf(a) != KeyOf(b)
    ensures var t := Step(w, b);
            && (Present(t.rows, RowOf(a)) <==> Present(w.rows, RowOf(a))) && (Used(t, a) <==> Used(w, a))
            && (Used(w, a) ==> t.receipts[KeyOf(a)] == w.receipts[KeyOf(a)])
            && (a.EnsureEntitlement? ==> (Holds(t.rows, a) <==> Holds(w.rows, a)))
  {
    StepIs(w, b);
    hide Step, Input, ResourceAfter, ClientAfter;
  }

  lemma SameStep(w: World, b: Op, a: Op)
    requires !a.EnsureLink? && !a.EnsureSecret? && RowOf(a) == RowOf(b) && KeyOf(a) == KeyOf(b)
    requires a.EnsureEntitlement? ==> a == b
    ensures Clear(Step(w, b), a) <==> Clear(w, a)
  {
    hide ResourceAfter, ClientAfter;
  }

  // No other declaration changes what stands against making a row.
  lemma ClearStep(w: World, b: Op, a: Op)
    requires SameKeys(a, b) && (a.EnsureEntitlement? ==> Agree(a, b))
    ensures Clear(Step(w, b), a) <==> Clear(w, a)
  {
    if !a.EnsureLink? && !a.EnsureSecret? {
      if RowOf(a) == RowOf(b) {
        SameStep(w, b, a);
      } else {
        OtherStep(w, b, a);
        hide Step, Present, Holds, Used, KeyOf, RowOf;
      }
    }
  }

  // A declaration nothing stands against, of rows that are there, is there as declared.
  lemma StepHolds(w: World, op: Op)
    requires !w.threw && Clear(w, op) && !Lacks(w.rows, op)
    ensures !Step(w, op).threw && Holds(Step(w, op).rows, op)
  {
    match op
    case EnsureResource(_, id, d, own) =>
      var s := ResourceAfter(w.rows, id, d, own).scopes;
      assert s + d.scopes == s;
    case EnsureClient(_, clientId, d) =>
      var c := ClientAfter(w.rows, clientId, d);
      assert c.uris + d.uris == c.uris && c.scopes + d.scopes == c.scopes
             && c.machineScopes + d.machineScopes == c.machineScopes;
    case EnsureLink(_, clientId, target) =>
      assert ClientRow(clientId) in Names(op);
    case EnsureEntitlement(_, holder, _) =>
      if holder.group.Some? {
        assert GroupRow(holder.group.value) in Names(op);
      }
    case EnsureSecret(clientId) =>
      assert ClientRow(clientId) in Names(op);
    case _ =>
  }

  lemma WithKeeps(rows: Rows, a: Op, b: Op)
    requires Holds(rows, a) && Agree(a, b) && (a.EnsureEntitlement? && b.EnsureEntitlement? ==> a.holder != b.holder)
    ensures Holds(With(rows, b), a)
  {
    hide SameKeys;
    match (a, b)
    case (EnsureResource(_, i, d, o), EnsureResource(_, j, e, p)) =>
      if i == j && !o {
        assert (rows.resources[i].scopes + e.scopes) + d.scopes == rows.resources[i].scopes + e.scopes;
      }
    case (EnsureClient(_, i, d), EnsureClient(_, j, e)) =>
      if i == j {
        var c := rows.clients[i];
        assert c.uris + d.uris == c.uris && (c.uris + e.uris) + d.uris == c.uris + e.uris;
        assert c.scopes + d.scopes == c.scopes && (c.scopes + e.scopes) + d.scopes == c.scopes + e.scopes;
        assert c.machineScopes + d.machineScopes == c.machineScopes
               && (c.machineScopes + e.machineScopes) + d.machineScopes == c.machineScopes + e.machineScopes;
      }
    case (EnsureClient(_, i, d), EnsureLink(_, j, t)) =>
      if i == j {
        var c := rows.clients[i];
        assert c.uris + d.uris == c.uris && c.scopes + d.scopes == c.scopes
               && c.machineScopes + d.machineScopes == c.machineScopes;
      }
    case _ =>
  }

  lemma HoldsKept(w: World, a: Op, b: Op)
    requires Holds(w.rows, a) && Agree(a, b)
    ensures Holds(Step(w, b).rows, a)
  {
    if a.EnsureEntitlement? && b.EnsureEntitlement? {
      EntitlementKept(w, a, b);
    } else {
      WithKeeps(w.rows, a, b);
      hide Holds, With, OutcomeOf, Agree;
    }
  }

  lemma EntitlementKept(w: World, a: Op, b: Op)
    requires a.EnsureEntitlement? && b.EnsureEntitlement? && Holds(w.rows, a)
    ensures Holds(Step(w, b).rows, a)
  {}

  // A declaration something stands against throws, or leaves its row out.
  lemma NotClearStep(w: World, op: Op)
    requires !w.threw && !Clear(w, op)
    ensures Step(w, op).threw || !Holds(Step(w, op).rows, op)
  {}

  lemma BlockedStep(w: World, b: Op, a: Op)
    requires !Clear(w, a) && !Holds(w.rows, a) && Agree(a, b)
    ensures !Holds(Step(w, b).rows, a)
  {}

  predicate AllAgree(ops: seq<Op>, op: Op) {
    forall i :: 0 <= i < |ops| ==> Agree(op, ops[i])
  }

  lemma {:induction false} ClearRun(w: World, ops: seq<Op>, op: Op)
    requires forall i :: 0 <= i < |ops| ==> SameKeys(op, ops[i]) && (op.EnsureEntitlement? ==> Agree(op, ops[i]))
    ensures Clear(Run(w, ops), op) <==> Clear(w, op)
  {
    if ops != [] {
      var n := |ops| - 1;
      assert forall i :: 0 <= i < n ==> ops[..n][i] == ops[i];
      ClearRun(w, ops[..n], op);
      ClearStep(Run(w, ops[..n]), ops[n], op);
      hide Clear, Step;
    }
  }

  lemma {:induction false} HoldsRun(w: World, ops: seq<Op>, op: Op)
    requires AllAgree(ops, op) && Holds(w.rows, op)
    ensures Holds(Run(w, ops).rows, op)
  {
    if ops != [] {
      var n := |ops| - 1;
      assert forall i :: 0 <= i < n ==> ops[..n][i] == ops[i];
      HoldsRun(w, ops[..n], op);
      HoldsKept(Run(w, ops[..n]), op, ops[n]);
      hide Holds, Step;
    }
  }

  lemma {:induction false} BlockedRun(w: World, ops: seq<Op>, op: Op)
    requires AllAgree(ops, op) && !Clear(w, op) && !Holds(w.rows, op)
    ensures !Clear(Run(w, ops), op) && !Holds(Run(w, ops).rows, op)
  {
    if ops != [] {
      var n := |ops| - 1;
      assert forall i :: 0 <= i < n ==> ops[..n][i] == ops[i];
      BlockedRun(w, ops[..n], op);
      BlockedStep(Run(w, ops[..n]), ops[n], op);
      ClearStep(Run(w, ops[..n]), ops[n], op);
      hide Holds, Clear, Step;
    }
  }

  lemma {:induction false} RunAppend(w: World, a: seq<Op>, b: seq<Op>)
    ensures Run(w, a + b) == Run(Run(w, a), b)
  {
    if b == [] {
      assert a + b == a;
    } else {
      assert (a + b)[..|a + b| - 1] == a + b[..|b| - 1];
      RunAppend(w, a, b[..|b| - 1]);
    }
  }

  lemma {:induction false} PresentRun(w: World, ops: seq<Op>, row: RowId)
    requires Present(w.rows, row)
    ensures Present(Run(w, ops).rows, row)
  {
    if ops != [] {
      var n := |ops| - 1;
      PresentRun(w, ops[..n], row);
      PresentStep(Run(w, ops[..n]), ops[n], row);
      hide Present, Step;
    }
  }

  // Coherence is of any two declarations, in either order.
  lemma AgreeEither(ops: seq<Op>, i: nat, j: nat)
    requires Coherent(ops) && i < |ops| && j < |ops|
    ensures Agree(ops[i], ops[j])
  {
    if i == j {
      AgreeSelf(ops[i]);
    } else if j < i {
      AgreeBack(ops[j], ops[i]);
    }
  }

  lemma AgreeSelf(a: Op)
    ensures Agree(a, a)
  {}

  lemma AgreeBack(a: Op, b: Op)
    requires Agree(a, b)
    ensures Agree(b, a)
  {}

  lemma AgreesWithAll(ops: seq<Op>, i: nat, m: nat, n: nat)
    requires Coherent(ops) && i < |ops| && m <= n <= |ops|
    ensures AllAgree(ops[m..n], ops[i])
  {
    forall j | 0 <= j < n - m
      ensures Agree(ops[i], ops[m..n][j])
    {
      AgreeEither(ops, i, m + j);
    }
  }

  lemma OrderedPrefix(ops: seq<Op>, n: nat)
    requires n <= |ops| && Coherent(ops) && Ordered(ops)
    ensures Coherent(ops[..n]) && Ordered(ops[..n])
  {
    hide Agree;
    forall i, row | 0 <= i < n && row in Names(ops[..n][i])
      ensures DeclaredBefore(ops[..n], i, row)
    {
      assert DeclaredBefore(ops, i, row);
      var j :| 0 <= j < i && RowOf(ops[j]) == row;
      assert ops[..n][j] == ops[j];
    }
  }

  // What names a client or a group names a row, and a row held is there.
  lemma HoldsPresent(rows: Rows, op: Op)
    requires Holds(rows, op)
    ensures Present(rows, RowOf(op))
  {}

  lemma NothingLacks(rows: Rows, ops: seq<Op>, n: nat)
    requires n < |ops| && Ordered(ops) && AllHold(rows, ops[..n])
    ensures !Lacks(rows, ops[n])
  {
    hide Holds, Present, Names;
    forall row | row in Names(ops[n])
      ensures Present(rows, row)
    {
      assert DeclaredBefore(ops, n, row);
      var j :| 0 <= j < n && RowOf(ops[j]) == row;
      assert ops[..n][j] == ops[j];
      HoldsPresent(rows, ops[j]);
    }
  }

  lemma {:induction false} RunHolds(w: World, ops: seq<Op>)
    requires Coherent(ops) && Ordered(ops) && !w.threw && forall i :: 0 <= i < |ops| ==> Clear(w, ops[i])
    ensures !Run(w, ops).threw && AllHold(Run(w, ops).rows, ops)
  {
    if ops != [] {
      var n := |ops| - 1;
      var before, last := Run(w, ops[..n]), ops[n];
      OrderedPrefix(ops, n);
      hide Clear, Step, Agree, Holds, Lacks, Ordered;
      assert forall i :: 0 <= i < n ==> ops[..n][i] == ops[i];
      RunHolds(w, ops[..n]);
      NothingLacks(before.rows, ops, n);
      AgreesWithAll(ops, n, 0, n);
      assert ops[0..n] == ops[..n];
      SameKeysOf(ops[..n], last);
      ClearRun(w, ops[..n], last);
      StepHolds(before, last);
      forall i | 0 <= i < n
        ensures Holds(Step(before, last).rows, ops[i])
      {
        HoldsKept(before, ops[i], last);
      }
    }
  }

  lemma SameKeysOf(ops: seq<Op>, op: Op)
    requires AllAgree(ops, op)
    ensures forall i :: 0 <= i < |ops| ==> SameKeys(op, ops[i]) && Agree(op, ops[i])
  {
    hide SameKeys;
  }

  lemma ThrowStays(w: World, ops: seq<Op>, n: nat)
    requires n <= |ops| && Run(w, ops[..n]).threw
    ensures Run(w, ops) == Run(w, ops[..n])
  {
    assert ops == ops[..n] + ops[n..];
    RunAppend(w, ops[..n], ops[n..]);
    ThrewStays(Run(w, ops[..n]), ops[n..]);
  }

  // A run that has not thrown, with a declaration something stands against, has left its row out.
  lemma BlockedOut(w: World, ops: seq<Op>, i: nat)
    requires Coherent(ops) && i < |ops| && !Run(w, ops).threw && !Clear(w, ops[i])
    ensures !Holds(Run(w, ops).rows, ops[i])
  {
    hide Clear, Step, Agree, Holds;
    var before := Run(w, ops[..i]);
    var then_ := Run(w, ops[..i + 1]);
    assert ops[..i + 1][..i] == ops[..i];
    if then_.threw {
      ThrowStays(w, ops, i + 1);
    }
    if before.threw {
      ThrowStays(w, ops, i);
    }
    AgreesWithAll(ops, i, 0, i);
    AgreesWithAll(ops, i, i + 1, |ops|);
    assert ops[0..i] == ops[..i] && ops[i + 1..|ops|] == ops[i + 1..];
    SameKeysOf(ops[..i], ops[i]);
    ClearRun(w, ops[..i], ops[i]);
    NotClearStep(before, ops[i]);
    AgreeSelf(ops[i]);
    ClearSelf(before, ops[i]);
    BlockedRun(then_, ops[i + 1..], ops[i]);
    assert ops == ops[..i + 1] + ops[i + 1..];
    RunAppend(w, ops[..i + 1], ops[i + 1..]);
  }

  lemma ClearSelf(w: World, op: Op)
    ensures Clear(Step(w, op), op) <==> Clear(w, op)
  {
    AgreeSelf(op);
    ClearStep(w, op, op);
  }

  // A run ends without a throw and with every declaration there as declared if and only if nothing stood against any:
  // no declared row absent while ID has a receipt for its key, or while its identifier is that of a row removed.
  lemma RunSettlesIff(w: World, ops: seq<Op>)
    requires Coherent(ops) && Ordered(ops) && !w.threw
    ensures !Run(w, ops).threw && AllHold(Run(w, ops).rows, ops)
       <==> forall i :: 0 <= i < |ops| ==> Clear(w, ops[i])
  {
    hide Clear, Step, Agree, Holds, Ordered, Coherent;
    if forall i :: 0 <= i < |ops| ==> Clear(w, ops[i]) {
      RunHolds(w, ops);
    } else if !Run(w, ops).threw {
      var i :| 0 <= i < |ops| && !Clear(w, ops[i]);
      BlockedOut(w, ops, i);
    }
  }

  // ---------- Runs cut off, and runs again ----------

  // Every declaration is counted found: there as declared, or its receipt or a conflict answered.
  ghost predicate AllFound(w: World, ops: seq<Op>) {
    forall i :: 0 <= i < |ops| ==> OutcomeOf(w, ops[i]) == Found
  }

  lemma FoundAfter(w: World, op: Op)
    requires !w.threw && !Step(w, op).threw
    ensures OutcomeOf(Step(w, op), op) == Found
  {
    if Present(w.rows, RowOf(op)) && OutcomeOf(w, op) == Changed {
      match op
      case EnsureResource(_, id, d, own) =>
        var s := ResourceAfter(w.rows, id, d, own).scopes;
        assert s + d.scopes == s;
      case EnsureClient(_, clientId, d) =>
        var c := ClientAfter(w.rows, clientId, d);
        assert c.uris + d.uris == c.uris && c.scopes + d.scopes == c.scopes
               && c.machineScopes + d.machineScopes == c.machineScopes;
      case _ =>
    }
  }

  // A client absent though counted found is made by no declaration of it.
  lemma ClientStaysOut(w: World, c: Op, b: Op)
    requires c.EnsureClient? && RowOf(b) == RowOf(c) && SameKeys(c, b)
    requires OutcomeOf(w, c) == Found && c.clientId !in w.rows.clients
    ensures OutcomeOf(w, b) != Made
  {}

  lemma LinkFoundKept(w: World, a: Op, b: Op)
    requires a.EnsureLink? && OutcomeOf(w, a) == Found && !Step(w, b).threw
    requires RowOf(b) == ClientRow(a.clientId) && a.clientId !in w.rows.clients ==> OutcomeOf(w, b) != Made
    ensures OutcomeOf(Step(w, b), a) == Found
  {
    hide ResourceAfter;
  }

  lemma OtherFound(w: World, a: Op, b: Op)
    requires OutcomeOf(w, a) == Found && !Holds(w.rows, a) && RowOf(a) != RowOf(b) && KeyOf(a) != KeyOf(b)
    requires !a.EnsureLink? && !a.EnsureSecret?
    ensures OutcomeOf(Step(w, b), a) == Found
  {
    OtherStep(w, b, a);
    StepIs(w, b);
    forall row | row in Names(a) && Present(w.rows, row)
      ensures Present(Step(w, b).rows, row)
    {
      PresentStep(w, b, row);
    }
    if a.EnsureEntitlement? && a.holder.group.Some? {
      PresentStep(w, b, GroupRow(a.holder.group.value));
    }
    hide Step, Holds, With;
  }

  lemma SameFound(w: World, a: Op, b: Op)
    requires OutcomeOf(w, a) == Found && Agree(a, b) && !Step(w, b).threw && RowOf(a) == RowOf(b)
    requires !a.EnsureLink? && !a.EnsureSecret?
    ensures OutcomeOf(Step(w, b), a) == Found
  {
    if Holds(w.rows, a) {
      HoldsKept(w, a, b);
    }
    hide ResourceAfter, ClientAfter;
  }

  // No other declaration that agrees with it stops one being found.
  lemma FoundKept(w: World, a: Op, b: Op)
    requires OutcomeOf(w, a) == Found && Agree(a, b) && !Step(w, b).threw && !a.EnsureLink?
    ensures OutcomeOf(Step(w, b), a) == Found
  {
    if a.EnsureSecret? {
      PresentStep(w, b, SecretOf(a.clientId));
      hide Step;
    } else if RowOf(a) == RowOf(b) {
      SameFound(w, a, b);
    } else if Holds(w.rows, a) {
      HoldsKept(w, a, b);
      OtherHeld(w, a, b);
    } else {
      OtherFound(w, a, b);
    }
  }

  lemma OtherHeld(w: World, a: Op, b: Op)
    requires OutcomeOf(w, a) == Found && Holds(w.rows, a) && RowOf(a) != RowOf(b) && KeyOf(a) != KeyOf(b)
    requires !a.EnsureLink? && !a.EnsureSecret? && Holds(Step(w, b).rows, a)
    ensures OutcomeOf(Step(w, b), a) == Found
  {
    OtherStep(w, b, a);
    StepIs(w, b);
    forall row | row in Names(a) && Present(w.rows, row)
      ensures Present(Step(w, b).rows, row)
    {
      PresentStep(w, b, row);
    }
    if a.EnsureEntitlement? && a.holder.group.Some? {
      PresentStep(w, b, GroupRow(a.holder.group.value));
    }
    hide Step, With, ResourceAfter, ClientAfter;
  }

  lemma LinkFoundIn(w: World, ops: seq<Op>, i: nat, b: Op)
    requires Ordered(ops) && AllFound(w, ops) && AllAgree(ops, b) && i < |ops| && ops[i].EnsureLink?
    requires !Step(w, b).threw
    ensures OutcomeOf(Step(w, b), ops[i]) == Found
  {
    hide OutcomeOf, Step;
    var client := ClientRow(ops[i].clientId);
    assert client in Names(ops[i]);
    assert DeclaredBefore(ops, i, client);
    var j :| 0 <= j < i && RowOf(ops[j]) == client;
    if RowOf(b) == client && ops[i].clientId !in w.rows.clients {
      AgreeBack(b, ops[j]);
      ClientStaysOut(w, ops[j], b);
    }
    LinkFoundKept(w, ops[i], b);
  }

  // A run that has not thrown counts each of its declarations found if it is run again.
  lemma {:induction false} RunFinds(w: World, ops: seq<Op>)
    requires Coherent(ops) && Ordered(ops) && !w.threw && !Run(w, ops).threw
    ensures AllFound(Run(w, ops), ops)
  {
    hide Step, OutcomeOf, Agree, Ordered, Coherent;
    if ops != [] {
      var n := |ops| - 1;
      var before, last := Run(w, ops[..n]), ops[n];
      OrderedPrefix(ops, n);
      if before.threw {
        ThrowStays(w, ops, n);
      }
      RunFinds(w, ops[..n]);
      FoundAfter(before, last);
      AgreesWithAll(ops, n, 0, n);
      assert ops[0..n] == ops[..n];
      forall i | 0 <= i < n
        ensures OutcomeOf(Step(before, last), ops[i]) == Found
      {
        assert ops[..n][i] == ops[i];
        if ops[i].EnsureLink? {
          LinkFoundIn(before, ops[..n], i, last);
        } else {
          AgreeEither(ops, i, n);
          FoundKept(before, ops[i], last);
        }
      }
    }
  }

  lemma {:induction false} FoundRunChangesNothing(w: World, ops: seq<Op>)
    requires AllFound(w, ops)
    ensures Run(w, ops) == w
  {
    if ops != [] {
      var n := |ops| - 1;
      assert forall i :: 0 <= i < n ==> ops[..n][i] == ops[i];
      FoundRunChangesNothing(w, ops[..n]);
      hide OutcomeOf;
    }
  }

  // A run that threw throws again at the same declaration, and changes nothing on the way.
  lemma {:induction false} ThrowsAgain(w: World, ops: seq<Op>)
    requires Coherent(ops) && Ordered(ops) && !w.threw && Run(w, ops).threw
    ensures Run(Again(Run(w, ops)), ops) == Run(w, ops)
  {
    hide Agree, Ordered, Coherent, OutcomeOf;
    var n := |ops| - 1;
    OrderedPrefix(ops, n);
    if Run(w, ops[..n]).threw {
      ThrowStays(w, ops, n);
      ThrowsAgain(w, ops[..n]);
    } else {
      RunFinds(w, ops[..n]);
      FoundRunChangesNothing(Run(w, ops[..n]), ops[..n]);
    }
  }

  // Runs cut off after any of their writes, or by a throw, one after another.
  function CutRuns(w: World, ops: seq<Op>, cuts: seq<nat>): World
    requires forall i :: 0 <= i < |cuts| ==> cuts[i] <= |ops|
  {
    if cuts == [] then w else Run(Again(CutRuns(w, ops, cuts[..|cuts| - 1])), ops[..cuts[|cuts| - 1]])
  }

  // However many runs were cut off, and wherever, a whole run ends as one uninterrupted run does: in the same rows,
  // with the same receipts, thrown or not.
  lemma {:induction false} CutRunsConverge(w: World, ops: seq<Op>, cuts: seq<nat>)
    requires Coherent(ops) && Ordered(ops) && forall i :: 0 <= i < |cuts| ==> cuts[i] <= |ops|
    ensures Run(Again(CutRuns(w, ops, cuts)), ops) == Run(Again(w), ops)
  {
    hide Coherent, Ordered, Step;
    if cuts != [] {
      var k := |cuts| - 1;
      var n := cuts[k];
      CutRunsConverge(w, ops, cuts[..k]);
      CutRunConverges(Again(CutRuns(w, ops, cuts[..k])), ops, n);
    }
  }

  lemma CutRunConverges(w: World, ops: seq<Op>, n: nat)
    requires Coherent(ops) && Ordered(ops) && !w.threw && n <= |ops|
    ensures Run(Again(Run(w, ops[..n])), ops) == Run(w, ops)
  {
    hide Coherent, Ordered, Step;
    var cut := Run(w, ops[..n]);
    OrderedPrefix(ops, n);
    if cut.threw {
      ThrowsAgain(w, ops[..n]);
    } else {
      RunFinds(w, ops[..n]);
      FoundRunChangesNothing(cut, ops[..n]);
    }
    assert ops == ops[..n] + ops[n..];
    RunAppend(w, ops[..n], ops[n..]);
    RunAppend(Again(cut), ops[..n], ops[n..]);
  }

  // After a run that finished, a further run counts every declaration found, whether its row is there or not, and
  // touches no row.
  lemma FurtherRunFinds(w: World, ops: seq<Op>, n: nat)
    requires Coherent(ops) && Ordered(ops) && !w.threw && !Run(w, ops).threw && n <= |ops|
    ensures var done := Run(w, ops);
            Run(done, ops[..n]) == done && (n < |ops| ==> OutcomeOf(Run(done, ops[..n]), ops[n]) == Found)
  {
    RunFinds(w, ops);
    hide OutcomeOf, Step;
    var done := Run(w, ops);
    assert forall i :: 0 <= i < n ==> ops[..n][i] == ops[i];
    FoundRunChangesNothing(done, ops[..n]);
  }

  // ---------- Rows removed in ID ----------

  predicate Spent(w: World, op: Op) {
    !Present(w.rows, RowOf(op)) && KeyOf(op) in w.receipts && !op.EnsureLink? && !op.EnsureSecret?
  }

  lemma SpentStep(w: World, b: Op, a: Op)
    requires Spent(w, a) && SameKeys(a, b)
    ensures Spent(Step(w, b), a)
  {
    if Present(Step(w, b).rows, RowOf(a)) {
      PresentOnlyMade(w, b, RowOf(a));
    }
    hide ResourceAfter, ClientAfter;
  }

  lemma {:induction false} SpentRun(w: World, ops: seq<Op>, op: Op)
    requires Spent(w, op) && forall i :: 0 <= i < |ops| ==> SameKeys(op, ops[i])
    ensures Spent(Run(w, ops), op)
  {
    if ops != [] {
      var n := |ops| - 1;
      assert forall i :: 0 <= i < n ==> ops[..n][i] == ops[i];
      SpentRun(w, ops[..n], op);
      SpentStep(Run(w, ops[..n]), ops[n], op);
      hide Spent, Step;
    }
  }

  // A row removed since ID gave the receipt for its key is made again by no run, cut off or whole.
  lemma {:induction false} RemovedStays(w: World, ops: seq<Op>, cuts: seq<nat>, i: nat)
    requires Coherent(ops) && i < |ops| && Spent(w, ops[i]) && forall k :: 0 <= k < |cuts| ==> cuts[k] <= |ops|
    ensures !Present(CutRuns(w, ops, cuts).rows, RowOf(ops[i])) && Spent(CutRuns(w, ops, cuts), ops[i])
  {
    hide SameKeys, Step, Agree;
    if cuts != [] {
      var k := |cuts| - 1;
      RemovedStays(w, ops, cuts[..k], i);
      var before := CutRuns(w, ops, cuts[..k]);
      AgreesWithAll(ops, i, 0, cuts[k]);
      assert ops[0..cuts[k]] == ops[..cuts[k]];
      SameKeysOf(ops[..cuts[k]], ops[i]);
      SpentRun(Again(before), ops[..cuts[k]], ops[i]);
    }
  }

  // A capability a run declares once, absent and its key unused before, is there after it with its receipt.
  lemma {:induction false} ReceiptIs(w: World, ops: seq<Op>, op: Op)
    requires op.EnsureCapability? && op.slot !in w.rows.capabilities && KeyOf(op) !in w.receipts
    requires forall j :: 0 <= j < |ops| ==> SameKeys(op, ops[j]) && (RowOf(ops[j]) == RowOf(op) ==> ops[j] == op)
    requires !Run(w, ops).threw
    ensures var t := Run(w, ops);
            if op in ops then KeyOf(op) in t.receipts && t.receipts[KeyOf(op)] == op
            else op.slot !in t.rows.capabilities && KeyOf(op) !in t.receipts
  {
    if ops != [] {
      var n := |ops| - 1;
      assert forall j :: 0 <= j < n ==> ops[..n][j] == ops[j];
      assert ops == ops[..n] + [ops[n]];
      NotThrownBefore(w, ops);
      ReceiptIs(w, ops[..n], op);
      if ops[n] == op {
        ReceiptStep(Run(w, ops[..n]), op);
      } else {
        OtherStep(Run(w, ops[..n]), ops[n], op);
      }
      hide Step, SameKeys;
    }
  }

  lemma ReceiptStep(w: World, op: Op)
    requires op.EnsureCapability? && !Step(w, op).threw
    requires if KeyOf(op) in w.receipts then w.receipts[KeyOf(op)] == op else op.slot !in w.rows.capabilities
    ensures KeyOf(op) in Step(w, op).receipts && Step(w, op).receipts[KeyOf(op)] == op
  {}

  function Without(w: World, slot: Slot): World {
    w.(rows := w.rows.(capabilities := w.rows.capabilities - {slot}))
  }

  lemma OthersFound(w: World, slot: Slot, op: Op)
    requires OutcomeOf(w, op) == Found && RowOf(op) != CapabilityRow(slot)
    ensures OutcomeOf(Without(w, slot), op) == Found
  {
    assert forall row :: row in Names(op) ==> Present(Without(w, slot).rows, row) == Present(w.rows, row);
    if op.EnsureClient? && Holds(w.rows, op) {
      assert ClientAfter(Without(w, slot).rows, op.clientId, op.client) == ClientAfter(w.rows, op.clientId, op.client);
    }
  }

  // A finished run whose one capability for a slot is then removed: run again it counts every declaration found, that
  // one by its receipt, and the capability is not there.
  lemma RemovedIsFound(w: World, ops: seq<Op>, i: nat)
    requires AllFound(w, ops) && i < |ops| && ops[i].EnsureCapability?
    requires KeyOf(ops[i]) in w.receipts && w.receipts[KeyOf(ops[i])] == ops[i]
    requires forall j :: 0 <= j < |ops| && RowOf(ops[j]) == RowOf(ops[i]) ==> ops[j] == ops[i]
    ensures var removed := Without(w, ops[i].slot);
            && AllFound(removed, ops) && Run(removed, ops) == removed
            && !Holds(removed.rows, ops[i])
  {
    var removed := Without(w, ops[i].slot);
    assert OutcomeOf(removed, ops[i]) == Found;
    forall j | 0 <= j < |ops|
      ensures OutcomeOf(removed, ops[j]) == Found
    {
      if RowOf(ops[j]) != RowOf(ops[i]) {
        assert OutcomeOf(w, ops[j]) == Found;
        OthersFound(w, ops[i].slot, ops[j]);
      }
    }
    FoundRunChangesNothing(removed, ops);
  }

  // ---------- What lists end with ----------

  function Held(rows: Rows, id: string): Scopes {
    if id in rows.resources then rows.resources[id].scopes else {}
  }

  function HeldBy(rows: Rows, slot: Slot): Scopes {
    if slot in rows.capabilities then rows.capabilities[slot] else {}
  }

  function Lists(rows: Rows, clientId: string): (Scopes, Scopes, Scopes) {
    if clientId in rows.clients
    then (rows.clients[clientId].uris, rows.clients[clientId].scopes, rows.clients[clientId].machineScopes)
         else ({}, {}, {})
  }

  predicate Declares(op: Op, id: string, scope: string) {
    op.EnsureResource? && op.id == id && scope in op.declared.scopes
  }

  lemma HeldKept(w: World, op: Op, id: string)
    requires RowOf(op) != ResourceRow(id)
    ensures Held(Step(w, op).rows, id) == Held(w.rows, id)
  {
    StepIs(w, op);
    hide Step, ClientAfter;
  }

  lemma SharedStep(w: World, op: Op, id: string, scope: string)
    requires !Step(w, op).threw && !(op.EnsureResource? && op.id == id && op.own)
    ensures scope in Held(Step(w, op).rows, id)
       <==> scope in Held(w.rows, id) || (Declares(op, id, scope) && Clear(w, op))
  {
    if RowOf(op) != ResourceRow(id) {
      HeldKept(w, op, id);
      hide Step, Clear;
    }
  }

  lemma KeyedPrefix(ops: seq<Op>, n: nat)
    requires Keyed(ops) && n < |ops|
    ensures Keyed(ops[..n]) && forall i :: 0 <= i < n ==> SameKeys(ops[..n][i], ops[n])
  {
    hide SameKeys;
  }

  lemma ClearAtEnd(w: World, ops: seq<Op>)
    requires ops != [] && Keyed(ops) && !ops[|ops| - 1].EnsureEntitlement?
    ensures var n := |ops| - 1; Clear(Run(w, ops[..n]), ops[n]) <==> Clear(w, ops[n])
  {
    var n := |ops| - 1;
    KeyedPrefix(ops, n);
    forall i | 0 <= i < n
      ensures SameKeys(ops[n], ops[..n][i])
    {
      assert SameKeys(ops[..n][i], ops[n]);
    }
    ClearRun(w, ops[..n], ops[n]);
  }

  lemma NotThrownBefore(w: World, ops: seq<Op>)
    requires ops != [] && !Run(w, ops).threw
    ensures !Run(w, ops[..|ops| - 1]).threw
  {
    hide OutcomeOf;
  }

  // A shared resource ends with what it held and everything declared of it that ID would make or widen, whatever the
  // order and however often.
  lemma {:induction false} SharedScopesUnion(w: World, ops: seq<Op>, id: string, scope: string)
    requires forall i :: 0 <= i < |ops| && ops[i].EnsureResource? && ops[i].id == id ==> !ops[i].own
    requires Keyed(ops) && !Run(w, ops).threw
    ensures scope in Held(Run(w, ops).rows, id) <==> scope in Held(w.rows, id) || exists i ::
        0 <= i < |ops| && Declares(ops[i], id, scope) && Clear(w, ops[i])
  {
    hide Step, Held, Clear, SameKeys;
    if ops != [] {
      var n := |ops| - 1;
      assert forall i :: 0 <= i < n ==> ops[..n][i] == ops[i];
      KeyedPrefix(ops, n);
      NotThrownBefore(w, ops);
      SharedScopesUnion(w, ops[..n], id, scope);
      SharedStep(Run(w, ops[..n]), ops[n], id, scope);
      if ops[n].EnsureResource? {
        ClearAtEnd(w, ops);
      }
      hide Keyed;
    }
  }

  lemma OwnStep(w: World, op: Op, id: string)
    requires op.EnsureResource? && op.own && !Step(w, op).threw
    ensures Held(Step(w, op).rows, op.id) == if Clear(w, op) then op.declared.scopes else {}
  {}

  // An MCP's own resource ends with its last manifest's scopes, or stays out.
  lemma {:induction false} OwnScopesLast(w: World, ops: seq<Op>, last: nat)
    requires last < |ops| && ops[last].EnsureResource? && ops[last].own && Keyed(ops) && !Run(w, ops).threw
    requires forall i :: last < i < |ops| ==> !(ops[i].EnsureResource? && ops[i].id == ops[last].id)
    ensures Held(Run(w, ops).rows, ops[last].id) == if Clear(w, ops[last]) then ops[last].declared.scopes else {}
    decreases |ops|
  {
    var n := |ops| - 1;
    KeyedPrefix(ops, n);
    NotThrownBefore(w, ops);
    hide Step, Held, Clear, SameKeys;
    if last < n {
      assert ops[..n][last] == ops[last];
      assert forall i :: last < i < n ==> ops[..n][i] == ops[i];
      OwnScopesLast(w, ops[..n], last);
      HeldKept(Run(w, ops[..n]), ops[n], ops[last].id);
    } else {
      ClearAtEnd(w, ops);
      OwnStep(Run(w, ops[..n]), ops[n], ops[n].id);
    }
  }

  predicate Grants(op: Op, slot: Slot, scope: string) {
    op.EnsureCapability? && op.slot == slot && scope in op.scopes
  }

  lemma HeldByKept(w: World, op: Op, slot: Slot)
    requires RowOf(op) != CapabilityRow(slot)
    ensures HeldBy(Step(w, op).rows, slot) == HeldBy(w.rows, slot)
  {
    StepIs(w, op);
    hide Step, ResourceAfter, ClientAfter;
  }

  lemma CapabilityStep(w: World, op: Op, slot: Slot, scope: string)
    requires !Step(w, op).threw
    ensures scope in HeldBy(Step(w, op).rows, slot)
       <==> scope in HeldBy(w.rows, slot) || (Grants(op, slot, scope) && Clear(w, op))
  {
    if RowOf(op) != CapabilityRow(slot) {
      HeldByKept(w, op, slot);
      hide Step, Clear;
    }
  }

  lemma {:induction false} CapabilityScopesUnion(w: World, ops: seq<Op>, slot: Slot, scope: string)
    requires Keyed(ops) && !Run(w, ops).threw
    ensures scope in HeldBy(Run(w, ops).rows, slot) <==> scope in HeldBy(w.rows, slot) || exists i ::
        0 <= i < |ops| && Grants(ops[i], slot, scope) && Clear(w, ops[i])
  {
    hide Step, HeldBy, Clear, SameKeys;
    if ops != [] {
      var n := |ops| - 1;
      assert forall i :: 0 <= i < n ==> ops[..n][i] == ops[i];
      KeyedPrefix(ops, n);
      NotThrownBefore(w, ops);
      CapabilityScopesUnion(w, ops[..n], slot, scope);
      CapabilityStep(Run(w, ops[..n]), ops[n], slot, scope);
      if ops[n].EnsureCapability? {
        ClearAtEnd(w, ops);
      }
      hide Keyed;
    }
  }

  // The client's three lists, told apart by number.
  predicate Lists3(op: Op, clientId: string, list: int, item: string) {
    op.EnsureClient? && op.clientId == clientId &&
    item in (if list == 0 then op.client.uris else if list == 1 then op.client.scopes else op.client.machineScopes)
  }

  function ListOf(lists: (Scopes, Scopes, Scopes), list: int): Scopes {
    if list == 0 then lists.0 else if list == 1 then lists.1 else lists.2
  }

  lemma ListsKept(w: World, op: Op, clientId: string)
    requires RowOf(op) != ClientRow(clientId)
    ensures Lists(Step(w, op).rows, clientId) == Lists(w.rows, clientId)
  {
    StepIs(w, op);
    hide Step, ResourceAfter;
  }

  lemma ListsAfter(w: World, op: Op)
    requires op.EnsureClient? && !Step(w, op).threw
    ensures var before, after := Lists(w.rows, op.clientId), Lists(Step(w, op).rows, op.clientId);
            after == if Clear(w, op)
              then (before.0 + op.client.uris, before.1 + op.client.scopes, before.2 + op.client.machineScopes)
              else before
  {
    var d := op.client;
    assert {} + d.uris == d.uris && {} + d.scopes == d.scopes && {} + d.machineScopes == d.machineScopes;
  }

  lemma ClientListStep(w: World, op: Op, clientId: string, list: int, item: string)
    requires !Step(w, op).threw
    ensures item in ListOf(Lists(Step(w, op).rows, clientId), list) <==>
        item in ListOf(Lists(w.rows, clientId), list) || (Lists3(op, clientId, list, item) && Clear(w, op))
  {
    if RowOf(op) == ClientRow(clientId) {
      ListsAfter(w, op);
    } else {
      ListsKept(w, op, clientId);
    }
    hide Step, Clear, Lists;
  }

  lemma {:induction false} ClientListsUnion(w: World, ops: seq<Op>, clientId: string, list: int, item: string)
    requires Keyed(ops) && !Run(w, ops).threw
    ensures item in ListOf(Lists(Run(w, ops).rows, clientId), list) <==>
      item in ListOf(Lists(w.rows, clientId), list)
      || exists i :: 0 <= i < |ops| && Lists3(ops[i], clientId, list, item) && Clear(w, ops[i])
  {
    hide Step, Lists, ListOf, Clear, SameKeys;
    if ops != [] {
      var n := |ops| - 1;
      assert forall i :: 0 <= i < n ==> ops[..n][i] == ops[i];
      KeyedPrefix(ops, n);
      NotThrownBefore(w, ops);
      ClientListsUnion(w, ops[..n], clientId, list, item);
      ClientListStep(Run(w, ops[..n]), ops[n], clientId, list, item);
      if ops[n].EnsureClient? {
        ClearAtEnd(w, ops);
      }
      hide Lists3, Keyed;
    }
  }
}
