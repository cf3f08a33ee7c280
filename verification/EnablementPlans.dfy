// What the two enable operations plan, make and leave (mcps/admin/src/enablement.ts:34-74,
// mcps/toolbox/src/admin-enable.ts:46-92), target by target.
module EnablementPlans {
  import opened Options
  import opened Enablement

  // ---------- What a row stands for ----------

  // The row is the organisation's capability of this client, resource and grant kind.
  predicate CapabilityRow(row: Row, clientId: string, resource: Option<string>, grantKind: string) {
    row.clientId == clientId && row.resource == resource && row.grantKind == grantKind
  }

  // The row is the whole organisation's entitlement of the resource through this client.
  predicate EveryonesRow(row: Row, clientId: string, resource: Option<string>) {
    row.clientId == clientId && row.resource == resource && row.memberId == None && row.groupId == None
  }

  predicate RowOf(row: Row, t: Target) {
    match t
    case Capability(clientId, resource, grantKind, _) => CapabilityRow(row, clientId, resource, grantKind)
    case Entitlement(clientId, resource, _) => EveryonesRow(row, clientId, resource)
    case _ => false
  }

  // The first row of a list that is the target's.
  predicate FirstOf(rows: seq<Row>, t: Target, i: nat) {
    i < |rows| && RowOf(rows[i], t) && forall j :: 0 <= j < i ==> !RowOf(rows[j], t)
  }

  // The row is active and carries every scope needed.
  predicate Serves(row: Row, needed: Scopes) {
    row.status == "active" && forall scope :: scope in needed ==> scope in row.scopes
  }

  lemma {:induction false} FindIs(rows: seq<Row>, t: Target)
    ensures Find(rows, t).None? <==> forall i :: 0 <= i < |rows| ==> !RowOf(rows[i], t)
    ensures Find(rows, t).Some? ==> exists i: nat :: FirstOf(rows, t, i) && rows[i] == Find(rows, t).value
  {
    if rows != [] && !RowOf(rows[0], t) {
      FindIs(rows[1..], t);
      assert forall i :: 0 < i < |rows| ==> rows[i] == rows[1..][i - 1];
      if Find(rows[1..], t).Some? {
        var i: nat :| FirstOf(rows[1..], t, i) && rows[1..][i] == Find(rows[1..], t).value;
        assert FirstOf(rows, t, i + 1);
      }
    } else if rows != [] {
      assert FirstOf(rows, t, 0);
    }
  }

  // How a capability or an entitlement stands: it is there when the first row of it serves, is to be made when there is
  // none, and stops the plan when the first row does not serve.
  lemma StandsAs(w: World, t: Target, rows: seq<Row>, needed: Scopes)
    requires (t.Capability? && rows == w.capabilities && needed == t.scopes)
             || (t.Entitlement? && rows == w.entitlements && needed == t.scopes)
    ensures StandingOf(w, t) == Absent <==> forall i :: 0 <= i < |rows| ==> !RowOf(rows[i], t)
    ensures StandingOf(w, t) == Held <==> exists i: nat :: FirstOf(rows, t, i) && Serves(rows[i], needed)
    ensures StandingOf(w, t).Misfit? <==> exists i: nat :: FirstOf(rows, t, i) && !Serves(rows[i], needed)
  {
    FindIs(rows, t);
    if i: nat :| FirstOf(rows, t, i) {
      var k: nat :| FirstOf(rows, t, k) && rows[k] == Find(rows, t).value;
      assert i == k by {
        assert !(i < k) && !(k < i);
      }
      assert forall m: nat :: FirstOf(rows, t, m) ==> m == k;
    }
  }

  // ---------- What is asked for ----------

  // What an enablement needs, of these clients: their link, the login and the resource for both grant kinds, everyone's
  // login, and everyone's use of the resource only when everyone is asked for.
  predicate Asked(clients: seq<string>, resource: string, mcpScopes: Scopes, everyone: bool, t: Target) {
    match t
    case Link(clientId) => clientId in clients
    case Capability(clientId, reach, grantKind, scopes) =>
      && clientId in clients && (grantKind == "authorization_code" || grantKind == "refresh_token")
      && ((reach == None && scopes == {"openid", "offline_access"}) || (reach == Some(resource) && scopes == mcpScopes))
    case Entitlement(clientId, reach, scopes) =>
      && clientId in clients
      && ((reach == None && scopes == {"openid", "offline_access"})
          || (everyone && reach == Some(resource) && scopes == mcpScopes))
    case _ => false
  }

  lemma ClientAsked(clientId: string, resource: string, mcpScopes: Scopes, everyone: bool, t: Target)
    ensures t in ClientTargets(clientId, resource, mcpScopes, everyone)
       <==> Asked([clientId], resource, mcpScopes, everyone, t)
  {
    KindTargets(clientId, None, SIGN_IN);
    KindTargets(clientId, Some(resource), mcpScopes);
    hide CapabilityTargets;
  }

  lemma TargetsAsked(clients: seq<string>, resource: string, mcpScopes: Scopes, everyone: bool, t: Target)
    ensures t in StandaloneTargets(clients, resource, mcpScopes, everyone)
       <==> Asked(clients, resource, mcpScopes, everyone, t)
  {
    TargetsOf(clients, resource, mcpScopes, everyone, t);
    hide ClientTargets, StandaloneTargets;
    forall i | 0 <= i < |clients|
      ensures t in ClientTargets(clients[i], resource, mcpScopes, everyone)
         <==> Asked([clients[i]], resource, mcpScopes, everyone, t)
    {
      ClientAsked(clients[i], resource, mcpScopes, everyone, t);
    }
    if Asked(clients, resource, mcpScopes, everyone, t) {
      var i :| 0 <= i < |clients| && clients[i] == ClientOf(t);
      assert [clients[i]][0] == clients[i] && ClientOf(t) in [clients[i]];
      assert Asked([clients[i]], resource, mcpScopes, everyone, t);
    }
  }

  // A plan makes exactly what is asked for and is not there, and stops if and only if a row of something asked for is
  // in the way: no plan gives everyone the resource unless everyone was asked for.
  lemma PlanIsAsked(w: World, clients: seq<string>, resource: string, mcpScopes: Scopes, everyone: bool)
    ensures var plan := PlanOf(w, StandaloneTargets(clients, resource, mcpScopes, everyone));
            && (plan.Stopped? <==>
              exists t :: Asked(clients, resource, mcpScopes, everyone, t) && StandingOf(w, t).Misfit?)
            && (plan.Steps? ==> forall t ::
              t in plan.make <==> Asked(clients, resource, mcpScopes, everyone, t) && StandingOf(w, t) == Absent)
  {
    var ts := StandaloneTargets(clients, resource, mcpScopes, everyone);
    forall t
      ensures t in ts <==> Asked(clients, resource, mcpScopes, everyone, t)
    {
      TargetsAsked(clients, resource, mcpScopes, everyone, t);
    }
    hide StandaloneTargets, StandingOf, Asked;
    StoppedIff(w, ts);
    if PlanOf(w, ts).Steps? {
      PlanIsOfTargets(w, ts);
    }
  }

  // ---------- What a whole run makes ----------

  predicate NewCapability(row: Row, clients: seq<string>, resource: string, mcpScopes: Scopes) {
    && row.clientId in clients && (row.grantKind == "authorization_code" || row.grantKind == "refresh_token")
    && ((row.resource == None && row.scopes == {"openid", "offline_access"})
        || (row.resource == Some(resource) && row.scopes == mcpScopes))
    && row.memberId == None && row.groupId == None && row.status == "active"
  }

  predicate NewEntitlement(row: Row, clients: seq<string>, resource: string, mcpScopes: Scopes, everyone: bool) {
    && row.clientId in clients
    && ((row.resource == None && row.scopes == {"openid", "offline_access"})
        || (everyone && row.resource == Some(resource) && row.scopes == mcpScopes))
    && row.memberId == None && row.groupId == None && row.status == "active"
  }

  // One world is another with rows of an enablement added, and nothing taken or changed.
  ghost predicate Adds(w: World, t: World, clients: seq<string>, resource: string, mcpScopes: Scopes, everyone: bool) {
    && t.allowed == w.allowed && t.catalogue == w.catalogue
    && w.linked <= t.linked && (forall c :: c in t.linked ==> c in w.linked || c in clients)
    && w.capabilities <= t.capabilities && w.entitlements <= t.entitlements
    && (forall i :: |w.capabilities| <= i < |t.capabilities| ==>
      NewCapability(t.capabilities[i], clients, resource, mcpScopes))
    && forall i :: |w.entitlements| <= i < |t.entitlements| ==>
      NewEntitlement(t.entitlements[i], clients, resource, mcpScopes, everyone)
  }

  lemma {:induction false} RunAdds(w: World, ts: seq<Target>, clients: seq<string>, resource: string,
      mcpScopes: Scopes, everyone: bool)
    requires forall i :: 0 <= i < |ts| ==> Asked(clients, resource, mcpScopes, everyone, ts[i])
    ensures Adds(w, MakeAll(w, ts), clients, resource, mcpScopes, everyone)
    decreases |ts|
  {
    if ts != [] {
      var one := Make(w, ts[0]);
      assert Asked(clients, resource, mcpScopes, everyone, ts[0]);
      assert Adds(w, one, clients, resource, mcpScopes, everyone);
      forall i | 0 <= i < |ts[1..]|
        ensures Asked(clients, resource, mcpScopes, everyone, ts[1..][i])
      {
        assert ts[1..][i] == ts[i + 1];
      }
      RunAdds(one, ts[1..], clients, resource, mcpScopes, everyone);
      AddsTwice(w, one, MakeAll(one, ts[1..]), clients, resource, mcpScopes, everyone);
    }
  }

  lemma AddsTwice(a: World, b: World, c: World, clients: seq<string>, resource: string, mcpScopes: Scopes,
      everyone: bool)
    requires Adds(a, b, clients, resource, mcpScopes, everyone) && Adds(b, c, clients, resource, mcpScopes, everyone)
    ensures Adds(a, c, clients, resource, mcpScopes, everyone)
  {
    hide NewCapability, NewEntitlement;
    assert forall i :: 0 <= i < |b.capabilities| ==> c.capabilities[i] == b.capabilities[i];
    assert forall i :: 0 <= i < |b.entitlements| ==> c.entitlements[i] == b.entitlements[i];
  }

  // The organisation's rows that give everyone the resource through the client.
  function Everyones(rows: seq<Row>, clientId: string, resource: string): seq<Row> {
    if rows == [] then []
    else
      var last := rows[|rows| - 1];
      Everyones(rows[..|rows| - 1], clientId, resource)
      + if EveryonesRow(last, clientId, Some(resource)) then [last] else []
  }

  lemma {:induction false} NoneAdded(rows: seq<Row>, more: seq<Row>, clientId: string, resource: string)
    requires forall i :: 0 <= i < |more| ==> more[i].resource != Some(resource)
    ensures Everyones(rows + more, clientId, resource) == Everyones(rows, clientId, resource)
  {
    if more == [] {
      assert rows + more == rows;
    } else {
      var n := |more| - 1;
      assert (rows + more)[..|rows + more| - 1] == rows + more[..n] && (rows + more)[|rows + more| - 1] == more[n];
      NoneAdded(rows, more[..n], clientId, resource);
    }
  }

  // A whole run of a plan that was not stopped only adds rows of what was asked for; unless everyone was asked for it
  // leaves whom the resource is everyone's through as it was.
  lemma WholeRunAdds(w: World, clients: seq<string>, resource: string, mcpScopes: Scopes, everyone: bool,
      clientId: string)
    requires PlanOf(w, StandaloneTargets(clients, resource, mcpScopes, everyone)).Steps?
    ensures var done := MakeAll(w, PlanOf(w, StandaloneTargets(clients, resource, mcpScopes, everyone)).make);
            && Adds(w, done, clients, resource, mcpScopes, everyone)
            && (!everyone ==>
              Everyones(done.entitlements, clientId, resource) == Everyones(w.entitlements, clientId, resource))
  {
    PlanIsAsked(w, clients, resource, mcpScopes, everyone);
    var make := PlanOf(w, StandaloneTargets(clients, resource, mcpScopes, everyone)).make;
    var done := MakeAll(w, make);
    hide StandaloneTargets, Asked, PlanOf;
    assert forall i :: 0 <= i < |make| ==> make[i] in make;
    RunAdds(w, make, clients, resource, mcpScopes, everyone);
    if !everyone {
      var more := done.entitlements[|w.entitlements|..];
      assert done.entitlements == w.entitlements + more;
      forall i | 0 <= i < |more|
        ensures more[i].resource != Some(resource)
      {
        assert NewEntitlement(done.entitlements[|w.entitlements| + i], clients, resource, mcpScopes, everyone);
      }
      NoneAdded(w.entitlements, more, clientId, resource);
    }
  }

  // The organisation can sign its people in to the resource through the client.
  ghost predicate SignsIn(w: World, clientId: string, resource: string, mcpScopes: Scopes) {
    && clientId in w.linked
    && (forall kind :: kind == "authorization_code" || kind == "refresh_token" ==>
      && CapabilityServes(w, clientId, None, kind, {"openid", "offline_access"})
      && CapabilityServes(w, clientId, Some(resource), kind, mcpScopes))
    && EntitlementServes(w, clientId, None, {"openid", "offline_access"})
  }

  predicate CapabilityServes(w: World, clientId: string, resource: Option<string>, kind: string, needed: Scopes) {
    exists i :: 0 <= i < |w.capabilities| && CapabilityRow(w.capabilities[i], clientId, resource, kind)
        && Serves(w.capabilities[i], needed)
  }

  predicate EntitlementServes(w: World, clientId: string, resource: Option<string>, needed: Scopes) {
    exists i :: 0 <= i < |w.entitlements| && EveryonesRow(w.entitlements[i], clientId, resource)
        && Serves(w.entitlements[i], needed)
  }

  lemma HeldServes(w: World, t: Target)
    requires StandingOf(w, t) == Held
    ensures t.Link? ==> t.clientId in w.linked
    ensures t.Capability? ==> CapabilityServes(w, t.clientId, t.resource, t.grantKind, t.scopes)
    ensures t.Entitlement? ==> EntitlementServes(w, t.clientId, t.resource, t.scopes)
  {
    if t.Capability? {
      StandsAs(w, t, w.capabilities, t.scopes);
      var i: nat :| FirstOf(w.capabilities, t, i) && Serves(w.capabilities[i], t.scopes);
    } else if t.Entitlement? {
      StandsAs(w, t, w.entitlements, t.scopes);
      var i: nat :| FirstOf(w.entitlements, t, i) && Serves(w.entitlements[i], t.scopes);
    }
  }

  // And after it every named client has its link, the login and the resource for both grant kinds, and everyone's
  // login; and everyone the resource, where that was asked for.
  lemma WholeRunSignsIn(w: World, clients: seq<string>, resource: string, mcpScopes: Scopes, everyone: bool, c: nat)
    requires NoRepeats(clients) && c < |clients|
    requires PlanOf(w, StandaloneTargets(clients, resource, mcpScopes, everyone)).Steps?
    ensures var done := MakeAll(w, PlanOf(w, StandaloneTargets(clients, resource, mcpScopes, everyone)).make);
            && SignsIn(done, clients[c], resource, mcpScopes)
            && (everyone ==> EntitlementServes(done, clients[c], Some(resource), mcpScopes))
  {
    var ts, client := StandaloneTargets(clients, resource, mcpScopes, everyone), clients[c];
    StandaloneDistinct(clients, resource, mcpScopes, everyone);
    WholeRunHolds(w, ts);
    var done := MakeAll(w, PlanOf(w, ts).make);
    forall t | Asked(clients, resource, mcpScopes, everyone, t)
      ensures StandingOf(done, t) == Held
    {
      TargetsAsked(clients, resource, mcpScopes, everyone, t);
    }
    hide StandaloneTargets, PlanOf, MakeAll, StandingOf;
    HeldServes(done, Link(client));
    forall kind | kind == "authorization_code" || kind == "refresh_token"
      ensures CapabilityServes(done, client, None, kind, {"openid", "offline_access"})
      ensures CapabilityServes(done, client, Some(resource), kind, mcpScopes)
    {
      HeldServes(done, Capability(client, None, kind, {"openid", "offline_access"}));
      HeldServes(done, Capability(client, Some(resource), kind, mcpScopes));
    }
    HeldServes(done, Entitlement(client, None, {"openid", "offline_access"}));
    if everyone {
      HeldServes(done, Entitlement(client, Some(resource), mcpScopes));
    }
  }

  // ---------- In what order ----------

  // A client's rows in order: its link, the login's capabilities, the resource's, everyone's login, everyone's
  // resource.
  function Stage(t: Target): int {
    match t
    case Allowed(_) => -1
    case Link(_) => 0
    case Capability(_, reach, kind, _) =>
      (if reach.None? then 1 else 3) + if kind == "authorization_code" then 0 else 1
    case Entitlement(_, reach, _) => if reach.None? then 5 else 6
    case Catalogue(_) => 7
  }

  // Clients as they are named, each one's rows in order.
  ghost predicate Follows(clients: seq<string>, t: Target, u: Target) {
    exists i, j ::
      0 <= i < |clients| && 0 <= j < |clients| && clients[i] == ClientOf(t) && clients[j] == ClientOf(u)
      && (i < j || (i == j && Stage(t) < Stage(u)))
  }

  ghost predicate InOrder(clients: seq<string>, ts: seq<Target>) {
    forall a, b :: 0 <= a < b < |ts| ==> Follows(clients, ts[a], ts[b])
  }

  lemma ClientInOrder(clientId: string, resource: string, mcpScopes: Scopes, everyone: bool)
    ensures var ts := ClientTargets(clientId, resource, mcpScopes, everyone);
            (forall a :: 0 <= a < |ts| ==> ClientOf(ts[a]) == clientId)
            && forall a, b :: 0 <= a < b < |ts| ==> Stage(ts[a]) < Stage(ts[b])
  {
    KindTargets(clientId, None, SIGN_IN);
    KindTargets(clientId, Some(resource), mcpScopes);
    hide CapabilityTargets;
  }

  lemma {:induction false} TargetsInOrder(clients: seq<string>, resource: string, mcpScopes: Scopes, everyone: bool)
    ensures InOrder(clients, StandaloneTargets(clients, resource, mcpScopes, everyone))
    ensures var ts := StandaloneTargets(clients, resource, mcpScopes, everyone);
            forall a :: 0 <= a < |ts| ==> ClientOf(ts[a]) in clients
  {
    if clients != [] {
      var first, later := ClientTargets(clients[0], resource, mcpScopes, everyone),
          StandaloneTargets(clients[1..], resource, mcpScopes, everyone);
      ClientInOrder(clients[0], resource, mcpScopes, everyone);
      TargetsInOrder(clients[1..], resource, mcpScopes, everyone);
      var ts := first + later;
      hide ClientTargets, Stage;
      assert clients == [clients[0]] + clients[1..];
      forall a, b | 0 <= a < b < |ts|
        ensures Follows(clients, ts[a], ts[b])
      {
        if a >= |first| {
          assert Follows(clients[1..], later[a - |first|], later[b - |first|]);
          LaterFollows(clients, ts[a], ts[b]);
        } else if b >= |first| {
          var j :| 0 <= j < |clients[1..]| && clients[1..][j] == ClientOf(later[b - |first|]);
          assert clients[j + 1] == ClientOf(ts[b]) && clients[0] == ClientOf(ts[a]);
        } else {
          assert clients[0] == ClientOf(ts[a]) && clients[0] == ClientOf(ts[b]);
        }
      }
    }
  }

  lemma LaterFollows(clients: seq<string>, t: Target, u: Target)
    requires clients != [] && Follows(clients[1..], t, u)
    ensures Follows(clients, t, u)
  {
    var i, j :| 0 <= i < |clients[1..]| && 0 <= j < |clients[1..]| && clients[1..][i] == ClientOf(t)
        && clients[1..][j] == ClientOf(u) && (i < j || (i == j && Stage(t) < Stage(u)));
    assert clients[i + 1] == ClientOf(t) && clients[j + 1] == ClientOf(u);
  }

  lemma {:induction false} PlannedFrom(w: World, ts: seq<Target>, b: nat) returns (k: nat)
    requires PlanOf(w, ts).Steps? && b < |PlanOf(w, ts).make|
    ensures k < |ts| && ts[k] == PlanOf(w, ts).make[b]
  {
    if StandingOf(w, ts[0]) == Absent && b == 0 {
      k := 0;
    } else {
      k := PlannedFrom(w, ts[1..], if StandingOf(w, ts[0]) == Absent then b - 1 else b);
      k := k + 1;
    }
  }

  lemma {:induction false} PlanKeepsOrder(w: World, ts: seq<Target>, a: nat, b: nat) returns (j: nat, k: nat)
    requires PlanOf(w, ts).Steps? && a < b < |PlanOf(w, ts).make|
    ensures j < k < |ts| && ts[j] == PlanOf(w, ts).make[a] && ts[k] == PlanOf(w, ts).make[b]
  {
    if StandingOf(w, ts[0]) == Absent {
      if a == 0 {
        k := PlannedFrom(w, ts[1..], b - 1);
        j, k := 0, k + 1;
      } else {
        j, k := PlanKeepsOrder(w, ts[1..], a - 1, b - 1);
        j, k := j + 1, k + 1;
      }
    } else {
      j, k := PlanKeepsOrder(w, ts[1..], a, b);
      j, k := j + 1, k + 1;
    }
  }

  // What is planned is planned in order: client by client as they were named, each one's link first, then its logins'
  // capabilities, the resource's, and everyone's.
  lemma PlanInOrder(w: World, clients: seq<string>, resource: string, mcpScopes: Scopes, everyone: bool)
    requires PlanOf(w, StandaloneTargets(clients, resource, mcpScopes, everyone)).Steps?
    ensures InOrder(clients, PlanOf(w, StandaloneTargets(clients, resource, mcpScopes, everyone)).make)
  {
    var ts := StandaloneTargets(clients, resource, mcpScopes, everyone);
    TargetsInOrder(clients, resource, mcpScopes, everyone);
    var make := PlanOf(w, ts).make;
    hide StandaloneTargets, Follows;
    forall a, b | 0 <= a < b < |make|
      ensures Follows(clients, make[a], make[b])
    {
      var j, k := PlanKeepsOrder(w, ts, a, b);
    }
  }

  // ---------- The Toolbox's own ----------

  // The Toolbox's enable asks for its resource's scopes first, then for everyone's use of the Toolbox through each
  // client, then for each provider's catalogue row.
  lemma EnableIs(scopes: Scopes, clients: seq<string>, resource: string, providers: seq<string>, t: Target)
    ensures var ts := EnableTargets(scopes, clients, resource, providers);
            && ts[0] == Allowed(scopes)
            && (t in ts <==>
              t == Allowed(scopes) || Asked(clients, resource, {"toolbox"}, true, t)
              || (t.Catalogue? && t.provider in providers))
            && forall a, b :: 0 <= a < b < |ts| && ts[a].Catalogue? ==> ts[b].Catalogue?
  {
    ToolboxIsStandalone(clients, resource);
    TargetsAsked(clients, resource, {"toolbox"}, true, t);
    CatalogueAre(providers, t);
    var rows := ToolboxTargets(clients, resource);
    forall i | 0 <= i < |rows|
      ensures !rows[i].Catalogue?
    {
      TargetsAsked(clients, resource, {"toolbox"}, true, rows[i]);
      assert rows[i] in rows;
    }
    hide ToolboxTargets, CatalogueTargets, StandaloneTargets;
  }

  lemma {:induction false} CatalogueAre(providers: seq<string>, t: Target)
    ensures t in CatalogueTargets(providers) <==> t.Catalogue? && t.provider in providers
    ensures forall i :: 0 <= i < |CatalogueTargets(providers)| ==> CatalogueTargets(providers)[i].Catalogue?
  {
    if providers != [] {
      CatalogueAre(providers[1..], t);
      assert providers == [providers[0]] + providers[1..];
    }
  }
}
