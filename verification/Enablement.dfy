// What Answerable ID and the Toolbox need before an organisation's people can use an MCP, planned from what they hold
// and made in order: `enablementSteps` (mcps/admin/src/enablement.ts) for a standalone MCP, and the Toolbox's enable
// operation (mcps/toolbox/src/admin-enable.ts).
module Enablement {
  import opened Options

  type Scopes = set<string>

  // A capability or an entitlement of ID, as far as the plans read it.
  datatype Row = Row(clientId: string, resource: Option<string>, grantKind: string, memberId: Option<string>,
      groupId: Option<string>, scopes: Scopes, status: string)

  // A provider's entry in an organisation's catalogue; the overrides are carried, never read.
  datatype Entry = Entry(enabled: bool, overrides: string)

  // What one organisation's plan reads and changes: the resource's allowed scopes and linked clients, the
  // organisation's capabilities and entitlements, and its catalogue.
  datatype World = World(allowed: Scopes, linked: set<string>, capabilities: seq<Row>, entitlements: seq<Row>,
      catalogue: map<string, Entry>)

  datatype Target =
    | Allowed(scopes: Scopes)
    | Link(clientId: string)
    | Capability(clientId: string, resource: Option<string>, grantKind: string, scopes: Scopes)
    | Entitlement(clientId: string, resource: Option<string>, scopes: Scopes)
    | Catalogue(provider: string)

  datatype Standing = Absent | Held | Misfit(row: Row)

  const SIGN_IN: Scopes := {"openid", "offline_access"}
  const GRANT_KINDS := ["authorization_code", "refresh_token"]

  // ---------- What ID holds for a target ----------

  predicate IsFor(row: Row, t: Target) {
    match t
    case Capability(clientId, resource, grantKind, _) =>
      row.clientId == clientId && row.resource == resource && row.grantKind == grantKind
    case Entitlement(clientId, resource, _) =>
      row.clientId == clientId && row.resource == resource && row.memberId == None && row.groupId == None
    case _ => false
  }

  // The first row of a list that is for the target: `find`.
  function Find(rows: seq<Row>, t: Target): Option<Row> {
    if rows == [] then None else if IsFor(rows[0], t) then Some(rows[0]) else Find(rows[1..], t)
  }

  // `held` and `exists`: an inactive row, or one short of a needed scope, is in the way of making one.
  function Fit(found: Option<Row>, needed: Scopes): Standing {
    match found
    case None => Absent
    case Some(row) => if row.status == "active" && needed <= row.scopes then Held else Misfit(row)
  }

  function StandingOf(w: World, t: Target): Standing {
    match t
    case Allowed(scopes) => if scopes <= w.allowed then Held else Absent
    case Link(clientId) => if clientId in w.linked then Held else Absent
    case Capability(_, _, _, scopes) => Fit(Find(w.capabilities, t), scopes)
    case Entitlement(_, _, scopes) => Fit(Find(w.entitlements, t), scopes)
    case Catalogue(provider) => if provider in w.catalogue && w.catalogue[provider].enabled then Held else Absent
  }

  // Making a target: ID's answer to the step's request, or the catalogue row.
  function Make(w: World, t: Target): World {
    match t
    case Allowed(scopes) => w.(allowed := w.allowed + scopes)
    case Link(clientId) => w.(linked := w.linked + {clientId})
    case Capability(clientId, resource, grantKind, scopes) =>
      w.(capabilities := w.capabilities + [Row(clientId, resource, grantKind, None, None, scopes, "active")])
    case Entitlement(clientId, resource, scopes) =>
      w.(entitlements := w.entitlements + [Row(clientId, resource, "", None, None, scopes, "active")])
    case Catalogue(provider) =>
      w.(catalogue :=
        w.catalogue[provider := Entry(true, if provider in w.catalogue then w.catalogue[provider].overrides else "")])
  }

  function MakeAll(w: World, ts: seq<Target>): World
    decreases |ts|
  {
    if ts == [] then w else MakeAll(Make(w, ts[0]), ts[1..])
  }

  // ---------- Plans ----------

  datatype Plan = Steps(make: seq<Target>) | Stopped(row: Row)

  // The targets still to make, in order; the first row that does not fit stops the plan.
  function PlanOf(w: World, ts: seq<Target>): Plan {
    if ts == [] then Steps([])
    else match StandingOf(w, ts[0])
      case Misfit(row) => Stopped(row)
      case Held => PlanOf(w, ts[1..])
      case Absent =>
        match PlanOf(w, ts[1..])
        case Stopped(row) => Stopped(row)
        case Steps(make) => Steps([ts[0]] + make)
  }

  // Two targets that one row could be taken for both of.
  predicate Clash(t: Target, u: Target) {
    match (t, u)
    case (Allowed(_), Allowed(_)) => true
    case (Link(a), Link(b)) => a == b
    case (Capability(a, r, g, _), Capability(b, s, h, _)) => a == b && r == s && g == h
    case (Entitlement(a, r, _), Entitlement(b, s, _)) => a == b && r == s
    case (Catalogue(p), Catalogue(q)) => p == q
    case _ => false
  }

  predicate Distinct(ts: seq<Target>) {
    forall i, j :: 0 <= i < j < |ts| ==> !Clash(ts[i], ts[j])
  }

  // ---------- Making one target settles it and touches no other ----------

  lemma {:induction false} FindAppend(rows: seq<Row>, row: Row, t: Target)
    ensures Find(rows + [row], t)
        == match Find(rows, t) { case Some(r) => Some(r) case None => if IsFor(row, t) then Some(row) else None }
  {
    if rows == [] {
      assert rows + [row] == [row];
      assert [row][1..] == [];
    } else {
      assert (rows + [row])[1..] == rows[1..] + [row];
      FindAppend(rows[1..], row, t);
    }
  }

  lemma MadeIsHeld(w: World, t: Target)
    requires StandingOf(w, t) == Absent
    ensures StandingOf(Make(w, t), t) == Held
  {
    match t
    case Capability(clientId, resource, grantKind, scopes) =>
      FindAppend(w.capabilities, Row(clientId, resource, grantKind, None, None, scopes, "active"), t);
    case Entitlement(clientId, resource, scopes) =>
      FindAppend(w.entitlements, Row(clientId, resource, "", None, None, scopes, "active"), t);
    case _ =>
  }

  lemma MakeTouchesOne(w: World, t: Target, u: Target)
    requires !Clash(t, u)
    ensures StandingOf(Make(w, t), u) == StandingOf(w, u)
  {
    match t
    case Capability(clientId, resource, grantKind, scopes) =>
      FindAppend(w.capabilities, Row(clientId, resource, grantKind, None, None, scopes, "active"), u);
    case Entitlement(clientId, resource, scopes) =>
      FindAppend(w.entitlements, Row(clientId, resource, "", None, None, scopes, "active"), u);
    case _ =>
  }

  lemma {:induction false} PlanTouched(w: World, t: Target, ts: seq<Target>)
    requires forall i :: 0 <= i < |ts| ==> !Clash(t, ts[i])
    ensures PlanOf(Make(w, t), ts) == PlanOf(w, ts)
  {
    if ts != [] {
      MakeTouchesOne(w, t, ts[0]);
      PlanTouched(w, t, ts[1..]);
    }
  }

  // ---------- Any prefix, then plan again ----------

  lemma {:induction false} PlanIsOfTargets(w: World, ts: seq<Target>)
    requires PlanOf(w, ts).Steps?
    ensures forall t :: t in PlanOf(w, ts).make <==> t in ts && StandingOf(w, t) == Absent
    ensures Distinct(ts) ==> Distinct(PlanOf(w, ts).make)
  {
    if ts != [] {
      PlanIsOfTargets(w, ts[1..]);
      assert ts == [ts[0]] + ts[1..];
      if Distinct(ts) && StandingOf(w, ts[0]) == Absent {
        var rest := PlanOf(w, ts[1..]).make;
        forall j | 0 <= j < |rest|
          ensures !Clash(ts[0], rest[j])
        {
          assert rest[j] in ts[1..];
        }
      }
    }
  }

  // Making the first planned target leaves exactly the rest of the plan.
  lemma {:induction false} FirstStep(w: World, ts: seq<Target>)
    requires Distinct(ts) && PlanOf(w, ts).Steps? && PlanOf(w, ts).make != []
    ensures PlanOf(Make(w, PlanOf(w, ts).make[0]), ts) == Steps(PlanOf(w, ts).make[1..])
  {
    var first := PlanOf(w, ts).make[0];
    if StandingOf(w, ts[0]) == Absent {
      MadeIsHeld(w, first);
      PlanTouched(w, first, ts[1..]);
    } else {
      FirstStep(w, ts[1..]);
      PlanIsOfTargets(w, ts[1..]);
      assert first in ts[1..];
      var i :| 0 <= i < |ts[1..]| && ts[1..][i] == first;
      ClashSymmetric(ts[0], first);
      MakeTouchesOne(w, first, ts[0]);
    }
  }

  lemma ClashSymmetric(t: Target, u: Target)
    ensures Clash(t, u) <==> Clash(u, t)
  {}

  // However far a run got before it stopped, planning again gives exactly what is left, and nothing is made twice.
  lemma {:induction false} PlanResumes(w: World, ts: seq<Target>, n: nat)
    requires Distinct(ts) && PlanOf(w, ts).Steps? && n <= |PlanOf(w, ts).make|
    ensures PlanOf(MakeAll(w, PlanOf(w, ts).make[..n]), ts) == Steps(PlanOf(w, ts).make[n..])
    decreases n
  {
    var make := PlanOf(w, ts).make;
    if n == 0 {
      assert make[..0] == [] && make[0..] == make;
    } else {
      FirstStep(w, ts);
      PlanResumes(Make(w, make[0]), ts, n - 1);
      assert make[..n][0] == make[0] && make[..n][1..] == make[1..][..n - 1];
      assert make[1..][n - 1..] == make[n..];
    }
  }

  // Nothing is left to make exactly when every target is held.
  lemma {:induction false} EmptyPlanIff(w: World, ts: seq<Target>)
    ensures PlanOf(w, ts) == Steps([]) <==> forall t :: t in ts ==> StandingOf(w, t) == Held
  {
    if ts != [] {
      EmptyPlanIff(w, ts[1..]);
      assert ts == [ts[0]] + ts[1..];
      assert ts[0] in ts;
      assert forall t :: t in ts <==> t == ts[0] || t in ts[1..];
    }
  }

  // So a whole run leaves every target held, and a run after it has nothing to do.
  lemma WholeRunHolds(w: World, ts: seq<Target>)
    requires Distinct(ts) && PlanOf(w, ts).Steps?
    ensures var done := MakeAll(w, PlanOf(w, ts).make);
            PlanOf(done, ts) == Steps([]) && forall t :: t in ts ==> StandingOf(done, t) == Held
  {
    var make := PlanOf(w, ts).make;
    PlanResumes(w, ts, |make|);
    assert make[..|make|] == make;
    EmptyPlanIff(MakeAll(w, make), ts);
  }

  // The plan stops exactly when some target's row does not fit, and then nothing is to be made.
  lemma {:induction false} StoppedIff(w: World, ts: seq<Target>)
    ensures PlanOf(w, ts).Stopped? <==> exists t :: t in ts && StandingOf(w, t).Misfit?
  {
    if ts != [] {
      StoppedIff(w, ts[1..]);
      assert ts == [ts[0]] + ts[1..];
      assert ts[0] in ts;
      assert forall t :: t in ts <==> t == ts[0] || t in ts[1..];
    }
  }

  // ---------- The standalone MCP's targets ----------

  function CapabilityTargets(clientId: string, resource: Option<string>, needed: Scopes,
      kinds: seq<string>): seq<Target> {
    if kinds == [] then []
    else [Capability(clientId, resource, kinds[0], needed)] + CapabilityTargets(clientId, resource, needed, kinds[1..])
  }

  function ClientTargets(clientId: string, resource: string, mcpScopes: Scopes, everyone: bool): seq<Target> {
    [Link(clientId)]
    + CapabilityTargets(clientId, None, SIGN_IN, GRANT_KINDS)
        + CapabilityTargets(clientId, Some(resource), mcpScopes, GRANT_KINDS)
    + [Entitlement(clientId, None, SIGN_IN)]
        + (if everyone then [Entitlement(clientId, Some(resource), mcpScopes)] else [])
  }

  function StandaloneTargets(clients: seq<string>, resource: string, mcpScopes: Scopes, everyone: bool): seq<Target> {
    if clients == [] then []
    else
      ClientTargets(clients[0], resource, mcpScopes, everyone)
          + StandaloneTargets(clients[1..], resource, mcpScopes, everyone)
  }

  function ClientOf(t: Target): string {
    match t
    case Link(clientId) => clientId
    case Capability(clientId, _, _, _) => clientId
    case Entitlement(clientId, _, _) => clientId
    case _ => ""
  }

  predicate OfClient(ts: seq<Target>, clientId: string) {
    forall i :: 0 <= i < |ts| ==> !ts[i].Allowed? && !ts[i].Catalogue? && ClientOf(ts[i]) == clientId
  }

  lemma ClientTargetsAre(clientId: string, resource: string, mcpScopes: Scopes, everyone: bool)
    ensures Distinct(ClientTargets(clientId, resource, mcpScopes, everyone))
            && OfClient(ClientTargets(clientId, resource, mcpScopes, everyone), clientId)
  {
    KindTargets(clientId, None, SIGN_IN);
    KindTargets(clientId, Some(resource), mcpScopes);
  }

  lemma KindTargets(clientId: string, resource: Option<string>, needed: Scopes)
    ensures CapabilityTargets(clientId, resource, needed, GRANT_KINDS)
      == [Capability(clientId, resource, "authorization_code", needed),
          Capability(clientId, resource, "refresh_token", needed)]
  {
    var kinds := GRANT_KINDS;
    var last := kinds[1..];
    var none := last[1..];
    assert none == [] && last[0] == "refresh_token" && kinds[0] == "authorization_code";
    assert CapabilityTargets(clientId, resource, needed, none) == [];
    assert CapabilityTargets(clientId, resource, needed, last)
        == [Capability(clientId, resource, "refresh_token", needed)]
            + CapabilityTargets(clientId, resource, needed, none);
    assert CapabilityTargets(clientId, resource, needed, kinds)
        == [Capability(clientId, resource, "authorization_code", needed)]
            + CapabilityTargets(clientId, resource, needed, last);
  }

  predicate NoRepeats(clients: seq<string>) {
    forall i, j :: 0 <= i < j < |clients| ==> clients[i] != clients[j]
  }

  lemma {:induction false} StandaloneDistinct(clients: seq<string>, resource: string, mcpScopes: Scopes, everyone: bool)
    requires NoRepeats(clients)
    ensures Distinct(StandaloneTargets(clients, resource, mcpScopes, everyone))
    ensures forall t ::
        t in StandaloneTargets(clients, resource, mcpScopes, everyone) ==>
          !t.Allowed? && !t.Catalogue? && ClientOf(t) in clients
  {
    if clients != [] {
      var first, rest := ClientTargets(clients[0], resource, mcpScopes, everyone),
          StandaloneTargets(clients[1..], resource, mcpScopes, everyone);
      ClientTargetsAre(clients[0], resource, mcpScopes, everyone);
      StandaloneDistinct(clients[1..], resource, mcpScopes, everyone);
      assert clients[0] !in clients[1..];
      forall i, j | 0 <= i < |first| && 0 <= j < |rest|
        ensures !Clash(first[i], rest[j])
      {
        assert rest[j] in rest;
      }
      DistinctAppend(first, rest);
    }
  }

  lemma DistinctAppend(a: seq<Target>, b: seq<Target>)
    requires Distinct(a) && Distinct(b) && forall i, j :: 0 <= i < |a| && 0 <= j < |b| ==> !Clash(a[i], b[j])
    ensures Distinct(a + b)
  {}

  // For distinct host clients: any prefix of an enablement plan, then planning again, gives exactly the remaining
  // steps.
  lemma StandaloneResumes(w: World, clients: seq<string>, resource: string, mcpScopes: Scopes, everyone: bool, n: nat)
    requires NoRepeats(clients)
    requires var p := PlanOf(w, StandaloneTargets(clients, resource, mcpScopes, everyone)); p.Steps? && n <= |p.make|
    ensures var ts := StandaloneTargets(clients, resource, mcpScopes, everyone);
            PlanOf(MakeAll(w, PlanOf(w, ts).make[..n]), ts) == Steps(PlanOf(w, ts).make[n..])
  {
    StandaloneDistinct(clients, resource, mcpScopes, everyone);
    PlanResumes(w, StandaloneTargets(clients, resource, mcpScopes, everyone), n);
  }

  // ---------- A client named twice ----------

  // Some client is named twice for which a target is still to make.
  predicate RepeatsWork(w: World, clients: seq<string>, resource: string, mcpScopes: Scopes, everyone: bool) {
    exists i, j ::
      0 <= i < j < |clients| && clients[i] == clients[j] && ToDo(w, clients[i], resource, mcpScopes, everyone)
  }

  predicate ToDo(w: World, clientId: string, resource: string, mcpScopes: Scopes, everyone: bool) {
    exists t :: t in ClientTargets(clientId, resource, mcpScopes, everyone) && StandingOf(w, t) == Absent
  }

  // A plan names a row twice if and only if a client with something to make is named twice.
  lemma {:induction false} PlannedOnceIff(
      w: World, clients: seq<string>, resource: string, mcpScopes: Scopes, everyone: bool)
    requires PlanOf(w, StandaloneTargets(clients, resource, mcpScopes, everyone)).Steps?
    ensures Distinct(PlanOf(w, StandaloneTargets(clients, resource, mcpScopes, everyone)).make)
       <==> !RepeatsWork(w, clients, resource, mcpScopes, everyone)
  {
    hide ClientTargets, ToDo;
    if clients != [] {
      var first, rest := ClientTargets(clients[0], resource, mcpScopes, everyone), clients[1..];
      var later := StandaloneTargets(rest, resource, mcpScopes, everyone);
      PlanAppend(w, first, later);
      PlannedOnceIff(w, rest, resource, mcpScopes, everyone);
      FirstClientOnce(w, clients, resource, mcpScopes, everyone);
      RepeatsStep(w, clients, resource, mcpScopes, everyone);
      DistinctParts(PlanOf(w, first).make, PlanOf(w, later).make);
    }
  }

  predicate NoClash(a: seq<Target>, b: seq<Target>) {
    forall i, j :: 0 <= i < |a| && 0 <= j < |b| ==> !Clash(a[i], b[j])
  }

  lemma DistinctParts(a: seq<Target>, b: seq<Target>)
    ensures Distinct(a + b) <==> Distinct(a) && Distinct(b) && NoClash(a, b)
  {
    var all := a + b;
    assert forall i :: 0 <= i < |a| ==> all[i] == a[i];
    assert forall j :: 0 <= j < |b| ==> all[|a| + j] == b[j];
  }

  lemma RepeatsStep(w: World, clients: seq<string>, resource: string, mcpScopes: Scopes, everyone: bool)
    requires clients != []
    ensures RepeatsWork(w, clients, resource, mcpScopes, everyone)
       <==> (RepeatsWork(w, clients[1..], resource, mcpScopes, everyone)
             || (clients[0] in clients[1..] && ToDo(w, clients[0], resource, mcpScopes, everyone)))
  {
    hide ToDo;
    var rest := clients[1..];
    if RepeatsWork(w, rest, resource, mcpScopes, everyone) {
      var i, j :| 0 <= i < j < |rest| && rest[i] == rest[j] && ToDo(w, rest[i], resource, mcpScopes, everyone);
      assert clients[i + 1] == rest[i] && clients[j + 1] == rest[j];
    } else if clients[0] in rest && ToDo(w, clients[0], resource, mcpScopes, everyone) {
      var j :| 0 <= j < |rest| && rest[j] == clients[0];
      assert clients[j + 1] == clients[0];
    }
    if RepeatsWork(w, clients, resource, mcpScopes, everyone) {
      var i, j :| 0 <= i < j < |clients| && clients[i] == clients[j]
          && ToDo(w, clients[i], resource, mcpScopes, everyone);
      assert rest[j - 1] == clients[j];
      if i > 0 {
        assert rest[i - 1] == clients[i];
      }
    }
  }

  lemma {:induction false} TargetsOf(
      clients: seq<string>, resource: string, mcpScopes: Scopes, everyone: bool, t: Target)
    ensures t in StandaloneTargets(clients, resource, mcpScopes, everyone)
       <==> exists i :: 0 <= i < |clients| && t in ClientTargets(clients[i], resource, mcpScopes, everyone)
  {
    hide ClientTargets;
    if clients != [] {
      TargetsOf(clients[1..], resource, mcpScopes, everyone, t);
      assert clients == [clients[0]] + clients[1..];
      if i :| 0 <= i < |clients[1..]| && t in ClientTargets(clients[1..][i], resource, mcpScopes, everyone) {
        assert clients[i + 1] == clients[1..][i];
      }
    }
  }

  // The first client's part of the plan is distinct, and clashes with the rest exactly when it is named again with
  // something to make.
  lemma FirstClientOnce(w: World, clients: seq<string>, resource: string, mcpScopes: Scopes, everyone: bool)
    requires clients != []
    requires PlanOf(w, ClientTargets(clients[0], resource, mcpScopes, everyone)).Steps?
    requires PlanOf(w, StandaloneTargets(clients[1..], resource, mcpScopes, everyone)).Steps?
    ensures var make := PlanOf(w, ClientTargets(clients[0], resource, mcpScopes, everyone)).make;
            && Distinct(make)
            && (NoClash(make, PlanOf(w, StandaloneTargets(clients[1..], resource, mcpScopes, everyone)).make)
                <==> !(clients[0] in clients[1..] && ToDo(w, clients[0], resource, mcpScopes, everyone)))
  {
    var first, rest := ClientTargets(clients[0], resource, mcpScopes, everyone), clients[1..];
    var later := StandaloneTargets(rest, resource, mcpScopes, everyone);
    var make, after := PlanOf(w, first).make, PlanOf(w, later).make;
    ClientTargetsAre(clients[0], resource, mcpScopes, everyone);
    PlanIsOfTargets(w, first);
    PlanIsOfTargets(w, later);
    if clients[0] in rest && ToDo(w, clients[0], resource, mcpScopes, everyone) {
      var t :| t in first && StandingOf(w, t) == Absent;
      var k :| 0 <= k < |rest| && rest[k] == clients[0];
      TargetsOf(rest, resource, mcpScopes, everyone, t);
      var i :| 0 <= i < |make| && make[i] == t;
      var j :| 0 <= j < |after| && after[j] == t;
      var f :| 0 <= f < |first| && first[f] == t;
      assert Clash(make[i], after[j]);
    } else {
      forall i, j | 0 <= i < |make| && 0 <= j < |after|
        ensures !Clash(make[i], after[j])
      {
        OtherClient(clients, resource, mcpScopes, everyone, make[i], after[j]);
      }
    }
  }

  lemma OtherClient(clients: seq<string>, resource: string, mcpScopes: Scopes, everyone: bool, t: Target, u: Target)
    requires clients != [] && t in ClientTargets(clients[0], resource, mcpScopes, everyone)
    requires u in StandaloneTargets(clients[1..], resource, mcpScopes, everyone)
    ensures Clash(t, u) ==> clients[0] in clients[1..]
  {
    TargetsOf(clients[1..], resource, mcpScopes, everyone, u);
    var i :| 0 <= i < |clients[1..]| && u in ClientTargets(clients[1..][i], resource, mcpScopes, everyone);
    ClientTargetsAre(clients[0], resource, mcpScopes, everyone);
    ClientTargetsAre(clients[1..][i], resource, mcpScopes, everyone);
  }

  // In an organisation that holds nothing, then, a client named twice is planned for twice.
  lemma RepeatedClientPlannedTwice(resource: string, mcpScopes: Scopes)
    ensures var p := PlanOf(World({}, {}, [], [], map[]), StandaloneTargets(["c", "c"], resource, mcpScopes, false));
            p.Steps? && multiset(p.make)[Link("c")] == 2
  {
    var w := World({}, {}, [], [], map[]);
    var one := ClientTargets("c", resource, mcpScopes, false);
    ClientTargetsAre("c", resource, mcpScopes, false);
    KindTargets("c", None, SIGN_IN);
    KindTargets("c", Some(resource), mcpScopes);
    assert ["c", "c"][1..] == ["c"] && ["c"][1..] == [];
    assert StandaloneTargets(["c"], resource, mcpScopes, false) == one + [];
    assert StandaloneTargets(["c", "c"], resource, mcpScopes, false) == one + one;
    AllAbsent(w, one + one);
    assert multiset(one)[Link("c")] == 1;
    var p := PlanOf(w, StandaloneTargets(["c", "c"], resource, mcpScopes, false));
    assert p == Steps(one + one);
    assert multiset(p.make) == multiset(one) + multiset(one);
  }

  lemma {:induction false} AllAbsent(w: World, ts: seq<Target>)
    requires forall i :: 0 <= i < |ts| ==> StandingOf(w, ts[i]) == Absent
    ensures PlanOf(w, ts) == Steps(ts)
  {
    if ts != [] {
      AllAbsent(w, ts[1..]);
    }
  }

  // ---------- The Toolbox's enable operation ----------

  function ToolboxTargets(clients: seq<string>, resource: string): seq<Target> {
    if clients == [] then []
    else
      [Link(clients[0])]
      + CapabilityTargets(clients[0], None, SIGN_IN, GRANT_KINDS)
          + CapabilityTargets(clients[0], Some(resource), {"toolbox"}, GRANT_KINDS)
      + [Entitlement(clients[0], None, SIGN_IN), Entitlement(clients[0], Some(resource), {"toolbox"})]
      + ToolboxTargets(clients[1..], resource)
  }

  function CatalogueTargets(providers: seq<string>): seq<Target> {
    if providers == [] then [] else [Catalogue(providers[0])] + CatalogueTargets(providers[1..])
  }

  function EnableTargets(scopes: Scopes, clients: seq<string>, resource: string, providers: seq<string>): seq<Target> {
    [Allowed(scopes)] + ToolboxTargets(clients, resource) + CatalogueTargets(providers)
  }

  lemma {:induction false} ToolboxIsStandalone(clients: seq<string>, resource: string)
    ensures ToolboxTargets(clients, resource) == StandaloneTargets(clients, resource, {"toolbox"}, true)
  {
    if clients != [] {
      ToolboxIsStandalone(clients[1..], resource);
    }
  }

  lemma {:induction false} CatalogueDistinct(providers: seq<string>)
    requires NoRepeats(providers)
    ensures Distinct(CatalogueTargets(providers)) && |CatalogueTargets(providers)| == |providers|
    ensures forall i :: 0 <= i < |providers| ==> CatalogueTargets(providers)[i] == Catalogue(providers[i])
  {
    if providers != [] {
      CatalogueDistinct(providers[1..]);
    }
  }

  lemma EnableDistinct(scopes: Scopes, clients: seq<string>, resource: string, providers: seq<string>)
    requires NoRepeats(clients) && NoRepeats(providers)
    ensures Distinct(EnableTargets(scopes, clients, resource, providers))
  {
    ToolboxIsStandalone(clients, resource);
    StandaloneDistinct(clients, resource, {"toolbox"}, true);
    CatalogueDistinct(providers);
    var rows := ToolboxTargets(clients, resource);
    forall i | 0 <= i < |rows|
      ensures !rows[i].Allowed? && !rows[i].Catalogue?
    {
      assert rows[i] in rows;
    }
    DistinctAppend([Allowed(scopes)], rows);
    DistinctAppend([Allowed(scopes)] + rows, CatalogueTargets(providers));
  }

  // What an enable call answers: its steps in order, each with whether it made it or found it.
  function ReportOf(w: World, ts: seq<Target>): seq<(Target, bool)> {
    if ts == [] then [] else [(ts[0], StandingOf(w, ts[0]) == Absent)] + ReportOf(w, ts[1..])
  }

  // A call that stops after `n` of its writes, for whatever reason, and is repeated: the repeat ends where the first
  // would have, reports the same steps in the same order, and makes exactly those the first had not.
  lemma EnableRepeats(w: World, ts: seq<Target>, n: nat)
    requires Distinct(ts) && PlanOf(w, ts).Steps? && n <= |PlanOf(w, ts).make|
    ensures var make := PlanOf(w, ts).make; var stopped := MakeAll(w, make[..n]);
            && PlanOf(stopped, ts) == Steps(make[n..])
            && MakeAll(stopped, make[n..]) == MakeAll(w, make)
            && ReportOf(stopped, ts) == Rereported(ts, make[n..])
  {
    hide PlanOf, MakeAll, ReportOf, Rereported, Distinct;
    var make := PlanOf(w, ts).make;
    var stopped := MakeAll(w, make[..n]);
    PlanResumes(w, ts, n);
    assert make == make[..n] + make[n..];
    MakeAllAppend(w, make[..n], make[n..]);
    ReportAgain(stopped, ts, ts, make[n..]);
  }

  function Rereported(ts: seq<Target>, left: seq<Target>): seq<(Target, bool)> {
    if ts == [] then [] else [(ts[0], ts[0] in left)] + Rereported(ts[1..], left)
  }

  lemma {:induction false} ReportAgain(stopped: World, all: seq<Target>, ts: seq<Target>, left: seq<Target>)
    requires PlanOf(stopped, all) == Steps(left) && forall i :: 0 <= i < |ts| ==> ts[i] in all
    ensures ReportOf(stopped, ts) == Rereported(ts, left)
  {
    if ts != [] {
      PlanIsOfTargets(stopped, all);
      ReportAgain(stopped, all, ts[1..], left);
    }
  }

  lemma {:induction false} MakeAllAppend(w: World, a: seq<Target>, b: seq<Target>)
    ensures MakeAll(w, a + b) == MakeAll(MakeAll(w, a), b)
    decreases |a|
  {
    if a == [] {
      assert a + b == b;
    } else {
      assert (a + b)[1..] == a[1..] + b;
      MakeAllAppend(Make(w, a[0]), a[1..], b);
    }
  }

  // ---------- The catalogue's rows, written with what was read ----------

  function OverridesIn(w: World, provider: string): string {
    if provider in w.catalogue then w.catalogue[provider].overrides else ""
  }

  // What a step planned in one world writes in another: a catalogue row with the overrides the plan read.
  function Written(read: World, w: World, t: Target): World {
    if t.Catalogue? then w.(catalogue := w.catalogue[t.provider := Entry(true, OverridesIn(read, t.provider))])
    else Make(w, t)
  }

  function WriteAll(read: World, w: World, ts: seq<Target>): World
    decreases |ts|
  {
    if ts == [] then w else WriteAll(read, Written(read, w, ts[0]), ts[1..])
  }

  // Where nobody else writes between, a plan's steps make what they planned.
  lemma {:induction false} UndisturbedWrites(read: World, w: World, ts: seq<Target>)
    requires Distinct(ts)
    requires forall i :: 0 <= i < |ts| && ts[i].Catalogue? ==>
        OverridesIn(w, ts[i].provider) == OverridesIn(read, ts[i].provider)
    ensures WriteAll(read, w, ts) == MakeAll(w, ts)
    decreases |ts|
  {
    if ts != [] {
      assert Written(read, w, ts[0]) == Make(w, ts[0]);
      forall i | 0 <= i < |ts[1..]| && ts[1..][i].Catalogue?
        ensures OverridesIn(Make(w, ts[0]), ts[1..][i].provider) == OverridesIn(read, ts[1..][i].provider)
      {
        assert ts[1..][i] == ts[i + 1] && !Clash(ts[0], ts[i + 1]);
      }
      UndisturbedWrites(read, Make(w, ts[0]), ts[1..]);
    }
  }

  // An enable turns providers on. It leaves a provider's overrides as they then are if and only if it writes no row of
  // it, or they are still what its plan read: what an ingest or an operator wrote in between is lost.
  lemma {:induction false} OverridesKeptIff(read: World, now: World, ts: seq<Target>, provider: string)
    requires provider in now.catalogue
    ensures var after := WriteAll(read, now, ts);
            && provider in after.catalogue
            && (after.catalogue[provider].overrides == now.catalogue[provider].overrides
              <==> (Catalogue(provider) in ts ==> OverridesIn(read, provider) == now.catalogue[provider].overrides))
            && (now.catalogue[provider].enabled || Catalogue(provider) in ts ==> after.catalogue[provider].enabled)
    decreases |ts|
  {
    if ts != [] {
      assert ts == [ts[0]] + ts[1..];
      var one := Written(read, now, ts[0]);
      OverridesKeptIff(read, one, ts[1..], provider);
      if ts[0] == Catalogue(provider) {
        WrittenStays(read, one, ts[1..], provider);
      }
    }
  }

  lemma {:induction false} WrittenStays(read: World, w: World, ts: seq<Target>, provider: string)
    requires provider in w.catalogue && w.catalogue[provider].overrides == OverridesIn(read, provider)
    ensures provider in WriteAll(read, w, ts).catalogue
            && WriteAll(read, w, ts).catalogue[provider].overrides == OverridesIn(read, provider)
    decreases |ts|
  {
    if ts != [] {
      WrittenStays(read, Written(read, w, ts[0]), ts[1..], provider);
    }
  }

  // ---------- The plan as it is pushed, loop by loop ----------

  method EnablementSteps(w: World, clients: seq<string>, resource: string, mcpScopes: Scopes,
      everyone: bool) returns (plan: Plan)
    ensures plan == PlanOf(w, StandaloneTargets(clients, resource, mcpScopes, everyone))
  {
    var steps: seq<Target> := [];
    var c := 0;
    while c < |clients|
      invariant c <= |clients|
      invariant PlanOf(w, StandaloneTargets(clients, resource, mcpScopes, everyone))
        == Prefixed(steps, PlanOf(w, StandaloneTargets(clients[c..], resource, mcpScopes, everyone)))
    {
      var one := ClientSteps(w, clients[c], resource, mcpScopes, everyone);
      ghost var first, rest := ClientTargets(clients[c], resource, mcpScopes, everyone),
          StandaloneTargets(clients[c + 1..], resource, mcpScopes, everyone);
      assert clients[c..][1..] == clients[c + 1..];
      PlanAppend(w, first, rest);
      if one.Stopped? {
        return one;
      }
      PrefixedTwice(steps, one.make, PlanOf(w, rest));
      steps := steps + one.make;
      c := c + 1;
    }
    plan := Steps(steps);
  }

  function Prefixed(steps: seq<Target>, plan: Plan): Plan {
    match plan
    case Stopped(row) => plan
    case Steps(make) => Steps(steps + make)
  }

  lemma PrefixedTwice(a: seq<Target>, b: seq<Target>, plan: Plan)
    ensures Prefixed(a, Prefixed(b, plan)) == Prefixed(a + b, plan)
  {
    if plan.Steps? {
      assert a + (b + plan.make) == (a + b) + plan.make;
    }
  }

  lemma {:induction false} PlanAppend(w: World, a: seq<Target>, b: seq<Target>)
    ensures PlanOf(w, a + b)
        == match PlanOf(w, a) { case Stopped(row) => Stopped(row) case Steps(make) => Prefixed(make, PlanOf(w, b)) }
  {
    if a == [] {
      assert a + b == b;
      if PlanOf(w, b).Steps? {
        assert [] + PlanOf(w, b).make == PlanOf(w, b).make;
      }
    } else {
      assert (a + b)[1..] == a[1..] + b;
      PlanAppend(w, a[1..], b);
      if PlanOf(w, a[1..]).Steps? {
        PrefixedTwice([a[0]], PlanOf(w, a[1..]).make, PlanOf(w, b));
      }
    }
  }

  // One target: pushed when ID holds nothing for it, skipped when it holds it, the whole plan stopped when it does not
  // fit.
  method Push(w: World, steps: seq<Target>, ghost all: seq<Target>, ghost k: nat, t: Target) returns (plan: Plan)
    requires k < |all| && all[k] == t && PlanOf(w, all[..k]) == Steps(steps)
    ensures plan == PlanOf(w, all[..k + 1])
    ensures plan.Stopped? ==> plan == PlanOf(w, all)
  {
    assert all[..k + 1] == all[..k] + [t] && all == all[..k + 1] + all[k + 1..];
    PlanAppend(w, all[..k], [t]);
    PlanAppend(w, all[..k + 1], all[k + 1..]);
    assert [t][1..] == [];
    var standing := StandingOf(w, t);
    match standing
    case Misfit(row) => plan := Stopped(row);
    case Held => plan := Steps(steps);
    case Absent => plan := Steps(steps + [t]);
  }

  method ClientSteps(w: World, clientId: string, resource: string, mcpScopes: Scopes,
      everyone: bool) returns (plan: Plan)
    ensures plan == PlanOf(w, ClientTargets(clientId, resource, mcpScopes, everyone))
  {
    ghost var all := ClientTargets(clientId, resource, mcpScopes, everyone);
    KindTargets(clientId, None, SIGN_IN);
    KindTargets(clientId, Some(resource), mcpScopes);
    assert all[..0] == [];
    plan := Push(w, [], all, 0, Link(clientId));
    for name := 0 to 2
      invariant plan.Steps? && plan == PlanOf(w, all[..1 + 2 * name])
    {
      var reach := if name == 0 then None else Some(resource);
      var needed := if name == 0 then SIGN_IN else mcpScopes;
      for kind := 0 to |GRANT_KINDS|
        invariant plan.Steps? && plan == PlanOf(w, all[..1 + 2 * name + kind])
      {
        plan := Push(w, plan.make, all, 1 + 2 * name + kind, Capability(clientId, reach, GRANT_KINDS[kind], needed));
        if plan.Stopped? {
          return;
        }
      }
    }
    plan := Push(w, plan.make, all, 5, Entitlement(clientId, None, SIGN_IN));
    if plan.Steps? && everyone {
      plan := Push(w, plan.make, all, 6, Entitlement(clientId, Some(resource), mcpScopes));
    }
    assert plan.Steps? ==> all[..|all|] == all;
  }
}
