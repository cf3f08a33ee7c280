// What a settled run of the register Job leaves in Answerable ID (infra/ops/src/register.ts:109-154,
// infra/ops/src/registrar.ts:129-180), row by row, and what its tally counts.
module JobLeaves {
  import opened Options
  import opened Registrar
  import opened Register
  import opened RegisterActs

  // ---------- One row ----------

  predicate HasResource(rows: Rows, id: string, name: string, ttl: nat, scopes: Scopes) {
    && id in rows.resources && rows.resources[id].name == name && rows.resources[id].ttl == ttl
    && scopes <= rows.resources[id].scopes
  }

  predicate HasClient(rows: Rows, id: string, name: string, uris: Scopes, scopes: Scopes, machineScopes: Scopes) {
    && id in rows.clients && rows.clients[id].name == name && uris <= rows.clients[id].uris
    && scopes <= rows.clients[id].scopes && machineScopes <= rows.clients[id].machineScopes
  }

  predicate HasLink(rows: Rows, client: string, resource: string) {
    client in rows.clients && resource in rows.clients[client].links
  }

  predicate HasCapability(rows: Rows, client: string, resource: Option<string>, grant: string, scopes: Scopes) {
    (client, resource, grant) in rows.capabilities && scopes <= rows.capabilities[(client, resource, grant)]
  }

  predicate HasEntitlement(rows: Rows, client: Option<string>, group: Option<string>, resource: Option<string>,
      scopes: Scopes) {
    && Target(client, group, resource) in rows.entitlements
    && rows.entitlements[Target(client, group, resource)] == scopes
  }

  // The row is there, with what is declared of it: a name, a lifetime and an entitlement's scopes as they are, every
  // other list at least, an MCP's own resource's exactly.
  predicate Stands(rows: Rows, op: Op) {
    match op
    case EnsureResource(_, id, d, own) =>
      HasResource(rows, id, d.name, d.ttl, d.scopes) && (own ==> rows.resources[id].scopes == d.scopes)
    case EnsureClient(_, id, d) => HasClient(rows, id, d.name, d.uris, d.scopes, d.machineScopes)
    case EnsureLink(_, client, resource) => HasLink(rows, client, resource)
    case EnsureCapability(_, slot, scopes) => HasCapability(rows, slot.0, slot.1, slot.2, scopes)
    case EnsureEntitlement(_, holder, scopes) =>
      HasEntitlement(rows, holder.client, holder.group, holder.resource, scopes)
    case EnsureGroup(_, slug) => slug in rows.groups
    case EnsureSecret(client) => client in rows.clients
  }

  lemma HoldsIffStands(rows: Rows, op: Op)
    ensures Holds(rows, op) <==> Stands(rows, op)
  {
    match op
    case EnsureResource(_, id, d, own) =>
      if id in rows.resources && d.scopes <= rows.resources[id].scopes {
        assert rows.resources[id].scopes + d.scopes == rows.resources[id].scopes;
      }
    case EnsureClient(_, id, d) =>
      if HasClient(rows, id, d.name, d.uris, d.scopes, d.machineScopes) {
        var held := rows.clients[id];
        assert held.uris + d.uris == held.uris && held.scopes + d.scopes == held.scopes;
        assert held.machineScopes + d.machineScopes == held.machineScopes;
      }
    case _ =>
  }

  // A whole run of sound acts leaves every row they declare so, without a throw, if and only if nothing stood against
  // any of them.
  lemma LeavesIff(s: State, acts: seq<Act>)
    requires Sound(acts, s.store.Keys)
    ensures (&& !Registered(s, acts).id.threw
             && forall i :: 0 <= i < |acts| && acts[i].Ensure? ==> Stands(Registered(s, acts).id.rows, acts[i].op))
       <==> AllClear(s.id, acts)
  {
    hide Holds, Stands, AllClear, Registered, Sound;
    SettlesIff(s, acts);
    forall i | 0 <= i < |acts| && acts[i].Ensure?
      ensures Holds(Registered(s, acts).id.rows, acts[i].op) <==> Stands(Registered(s, acts).id.rows, acts[i].op)
    {
      HoldsIffStands(Registered(s, acts).id.rows, acts[i].op);
    }
  }

  // ---------- The Job's rows ----------

  ghost predicate AllStand(rows: Rows, acts: seq<Act>) {
    forall i :: 0 <= i < |acts| && acts[i].Ensure? ==> Stands(rows, acts[i].op)
  }

  lemma SettledStands(t: State, acts: seq<Act>)
    requires Settled(t, acts)
    ensures AllStand(t.id.rows, acts)
  {
    hide Holds, Stands;
    forall i | 0 <= i < |acts| && acts[i].Ensure?
      ensures Stands(t.id.rows, acts[i].op)
    {
      HoldsIffStands(t.id.rows, acts[i].op);
    }
  }

  lemma PartStands(rows: Rows, before: seq<Act>, acts: seq<Act>, after: seq<Act>)
    requires AllStand(rows, before + acts + after)
    ensures AllStand(rows, acts)
  {
    hide Stands;
    var all := before + acts + after;
    forall i | 0 <= i < |acts| && acts[i].Ensure?
      ensures Stands(rows, acts[i].op)
    {
      assert all[|before| + i] == acts[i];
    }
  }

  // A client that signs a person in with these scopes, sent back to the callback.
  predicate SignsIn(rows: Rows, cfg: Config, id: string, name: string, scopes: Scopes) {
    HasClient(rows, id, name, {cfg.callback}, {"openid", "offline_access"} + scopes, {})
  }

  // A client that calls the resource on its own: linked, and approved for the scopes.
  predicate Calls(rows: Rows, id: string, resource: string, scopes: Scopes) {
    HasLink(rows, id, resource) && HasCapability(rows, id, Some(resource), "client_credentials", scopes)
  }

  predicate ToolboxThere(rows: Rows, cfg: Config) {
    && HasResource(rows, cfg.toolbox + "/mcp", "Toolbox", 900, {"offline_access", "toolbox"})
    && HasResource(rows, cfg.toolbox + "/admin", "Toolbox admin", 300, {"toolbox:admin"})
    && HasClient(rows, "toolbox-hub", "Toolbox", {}, {}, {"platform:read", "platform:write"})
    && Calls(rows, "toolbox-hub", cfg.admin, {"platform:read", "platform:write"})
    && SignsIn(rows, cfg, "claude-code-toolbox", "Claude Code (Toolbox)", {"toolbox"})
  }

  predicate AdminThere(rows: Rows, cfg: Config) {
    var resource := cfg.adminMcp + "/mcp";
    && HasResource(rows, resource, "Admin MCP", 900,
         {"admin", "answerable-team", "answerable-admin", "answerable-owner", "offline_access"})
    && SignsIn(rows, cfg, "claude-code-admin", "Claude Code (admin MCP)", {"admin"})
    && HasLink(rows, "claude-code-admin", resource)
    && (forall grant :: grant in {"authorization_code", "refresh_token"} ==>
          && HasCapability(rows, "claude-code-admin", None, grant, {"openid", "offline_access"})
          && HasCapability(rows, "claude-code-admin", Some(resource), grant, {"admin"}))
    && HasEntitlement(rows, Some("claude-code-admin"), None, None, {"openid", "offline_access"})
    && HasEntitlement(rows, Some("claude-code-admin"), None, Some(resource), {"admin"})
  }

  predicate RoleThere(rows: Rows, cfg: Config, slug: string) {
    slug in rows.groups && HasEntitlement(rows, None, Some(slug), Some(cfg.adminMcp + "/mcp"), {slug})
  }

  predicate AdminMachineThere(rows: Rows, cfg: Config) {
    && HasClient(rows, "admin-mcp", "Admin MCP", {}, {},
         {"platform:read", "platform:users", "platform:write", "toolbox:admin"})
    && Calls(rows, "admin-mcp", cfg.admin, {"platform:read", "platform:users", "platform:write"})
    && Calls(rows, "admin-mcp", cfg.toolbox + "/admin", {"toolbox:admin"})
  }

  // An MCP served alone: its resource allows its manifest's scopes and refreshing, no more, and its host client is
  // linked to it.
  predicate StandaloneThere(rows: Rows, cfg: Config, mcp: Mcp) {
    var id, client := cfg.mcpOrigin + "/" + mcp.name + "/mcp", "claude-code-" + mcp.name;
    && HasResource(rows, id, mcp.name, 900, mcp.scopes + {"offline_access"})
    && rows.resources[id].scopes == mcp.scopes + {"offline_access"}
    && SignsIn(rows, cfg, client, "Claude Code (" + mcp.name + ")", mcp.scopes) && HasLink(rows, client, id)
  }

  lemma ToolboxStands(rows: Rows, cfg: Config)
    requires AllStand(rows, ToolboxActs(cfg))
    ensures ToolboxThere(rows, cfg)
  {
    var acts := ToolboxActs(cfg);
    assert Stands(rows, acts[0].op) && Stands(rows, acts[1].op) && Stands(rows, acts[2].op);
    assert Stands(rows, acts[5].op) && Stands(rows, acts[6].op) && Stands(rows, acts[7].op);
  }

  lemma AdminStands(rows: Rows, cfg: Config)
    requires AllStand(rows, AdminHostActs(cfg))
    ensures AdminThere(rows, cfg)
  {
    var acts := AdminHostActs(cfg);
    assert Stands(rows, acts[0].op) && Stands(rows, acts[1].op) && Stands(rows, acts[2].op);
    assert Stands(rows, acts[3].op) && Stands(rows, acts[4].op) && Stands(rows, acts[5].op);
    assert Stands(rows, acts[6].op) && Stands(rows, acts[7].op) && Stands(rows, acts[8].op);
  }

  lemma RoleStands(rows: Rows, cfg: Config, role: string, slug: string)
    requires AllStand(rows, RoleActs(cfg, role)) && slug == "answerable-" + role
    ensures RoleThere(rows, cfg, slug)
  {
    var acts := RoleActs(cfg, role);
    assert Stands(rows, acts[0].op) && Stands(rows, acts[1].op);
  }

  lemma RolesStand(rows: Rows, cfg: Config)
    requires AllStand(rows, RolesActs(cfg))
    ensures RoleThere(rows, cfg, "answerable-team") && RoleThere(rows, cfg, "answerable-admin")
            && RoleThere(rows, cfg, "answerable-owner")
  {
    hide RoleActs, RoleThere, AllStand;
    var team, admin, owner := RoleActs(cfg, "team"), RoleActs(cfg, "admin"), RoleActs(cfg, "owner");
    assert RolesActs(cfg) == [] + team + (admin + owner) && RolesActs(cfg) == team + admin + owner;
    assert RolesActs(cfg) == (team + admin) + owner + [];
    PartStands(rows, [], team, admin + owner);
    PartStands(rows, team, admin, owner);
    PartStands(rows, team + admin, owner, []);
    RoleStands(rows, cfg, "team", "answerable-team");
    RoleStands(rows, cfg, "admin", "answerable-admin");
    RoleStands(rows, cfg, "owner", "answerable-owner");
  }

  lemma AdminMachineStands(rows: Rows, cfg: Config)
    requires AllStand(rows, AdminMachineActs(cfg))
    ensures AdminMachineThere(rows, cfg)
  {
    var acts := AdminMachineActs(cfg);
    assert Stands(rows, acts[0].op) && Stands(rows, acts[3].op) && Stands(rows, acts[4].op);
    assert Stands(rows, acts[5].op) && Stands(rows, acts[6].op);
  }

  lemma {:induction false} StandaloneStands(rows: Rows, cfg: Config, mcps: seq<Mcp>, i: nat)
    requires AllStand(rows, AllStandaloneActs(cfg, mcps)) && i < |mcps|
    ensures StandaloneThere(rows, cfg, mcps[i])
  {
    var first, rest := StandaloneActs(cfg, mcps[0]), AllStandaloneActs(cfg, mcps[1..]);
    assert AllStandaloneActs(cfg, mcps) == [] + first + rest && first + rest == first + rest + [];
    if i == 0 {
      PartStands(rows, [], first, rest);
      OneStands(rows, cfg, mcps[0]);
    } else {
      PartStands(rows, first, rest, []);
      StandaloneStands(rows, cfg, mcps[1..], i - 1);
    }
  }

  lemma OneStands(rows: Rows, cfg: Config, mcp: Mcp)
    requires AllStand(rows, StandaloneActs(cfg, mcp))
    ensures StandaloneThere(rows, cfg, mcp)
  {
    var acts := StandaloneActs(cfg, mcp);
    assert Stands(rows, acts[0].op) && Stands(rows, acts[1].op) && Stands(rows, acts[2].op);
  }

  ghost predicate JobThere(rows: Rows, cfg: Config, mcps: seq<Mcp>) {
    && ToolboxThere(rows, cfg) && AdminThere(rows, cfg) && AdminMachineThere(rows, cfg)
    && RoleThere(rows, cfg, "answerable-team") && RoleThere(rows, cfg, "answerable-admin")
    && RoleThere(rows, cfg, "answerable-owner")
    && forall i :: 0 <= i < |mcps| ==> StandaloneThere(rows, cfg, mcps[i])
  }

  // A settled run leaves the Toolbox, the admin MCP with its roles, both machine clients with what they may call, and
  // each MCP served alone, as a person's sign-in and the machines' calls need them.
  lemma JobLeavesAll(s: State, cfg: Config, mcps: seq<Mcp>)
    requires Apart(cfg, mcps) && Unreserved(mcps) && AllClear(s.id, JobActs(cfg, mcps))
    ensures !Registered(s, JobActs(cfg, mcps)).id.threw
    ensures JobThere(Registered(s, JobActs(cfg, mcps)).id.rows, cfg, mcps)
  {
    var acts, rows := JobActs(cfg, mcps), Registered(s, JobActs(cfg, mcps)).id.rows;
    JobSettlesIff(s, cfg, mcps);
    hide Registered, AllClear, Apart, AllStand, StandaloneThere;
    SettledStands(Registered(s, acts), acts);
    var a, b, c := ToolboxActs(cfg), AdminHostActs(cfg), RolesActs(cfg);
    var d, e := AdminMachineActs(cfg), AllStandaloneActs(cfg, mcps);
    hide ToolboxActs, AdminHostActs, RolesActs, AdminMachineActs, AllStandaloneActs;
    assert acts == [] + a + (b + c + d + e);
    assert acts == a + b + (c + d + e);
    assert acts == (a + b) + c + (d + e);
    assert acts == (a + b + c) + d + e;
    assert acts == (a + b + c + d) + e + [];
    PartStands(rows, [], a, b + c + d + e);
    PartStands(rows, a, b, c + d + e);
    PartStands(rows, a + b, c, d + e);
    PartStands(rows, a + b + c, d, e);
    PartStands(rows, a + b + c + d, e, []);
    ToolboxStands(rows, cfg);
    AdminStands(rows, cfg);
    RolesStand(rows, cfg);
    AdminMachineStands(rows, cfg);
    forall i | 0 <= i < |mcps|
      ensures StandaloneThere(rows, cfg, mcps[i])
    {
      StandaloneStands(rows, cfg, mcps, i);
    }
  }

  // ---------- What the tally counts ----------

  // A row that was not there, or a secret rotated.
  predicate IsNew(a: State, b: State, act: Act) {
    || (act.Ensure? && !Present(a.id.rows, RowOf(act.op)) && Present(b.id.rows, RowOf(act.op)))
    || (act.Rotate? && a.minted < b.minted)
  }

  predicate IsSame(a: State, b: State, act: Act) {
    act.Ensure? && a.id.rows == b.id.rows && !b.id.threw
  }

  predicate IsOther(a: State, b: State, act: Act) {
    act.Ensure? && a.id.rows != b.id.rows && !IsNew(a, b, act)
  }

  function Told(a: State, b: State, act: Act): Tally {
    Tally(if IsNew(a, b, act) then 1 else 0, if IsOther(a, b, act) then 1 else 0, if IsSame(a, b, act) then 1 else 0)
  }

  function Sum(a: Tally, b: Tally): Tally {
    Tally(a.made + b.made, a.changed + b.changed, a.found + b.found)
  }

  function ToldIn(s: State, acts: seq<Act>): Tally {
    if acts == [] then Tally(0, 0, 0)
    else
      var before := acts[..|acts| - 1];
      Sum(ToldIn(s, before), Told(DoAll(s, before), DoAll(s, acts), acts[|acts| - 1]))
  }

  lemma DoTells(s: State, act: Act)
    ensures Do(s, act).tally == Sum(s.tally, Told(s, Do(s, act), act))
  {
    var t := Do(s, act);
    if act.Ensure? && !s.id.threw {
      var op, w := act.op, s.id;
      if OutcomeOf(w, op) == Made {
        MadeAppears(w, op);
      } else if OutcomeOf(w, op) == Changed {
        ChangedDiffers(w, op);
      }
      hide OutcomeOf, With, Present;
      assert t.id == Step(w, op) && t.tally == Counted(s.tally, OutcomeOf(w, op));
    }
  }

  lemma MadeAppears(w: World, op: Op)
    requires !w.threw && OutcomeOf(w, op) == Made
    ensures !Present(w.rows, RowOf(op)) && Present(Step(w, op).rows, RowOf(op)) && !Step(w, op).threw
  {
    hide ResourceAfter, ClientAfter;
    if op.EnsureLink? {
      assert ClientRow(op.clientId) in Names(op);
    }
  }

  lemma ChangedDiffers(w: World, op: Op)
    requires !w.threw && OutcomeOf(w, op) == Changed
    ensures Present(w.rows, RowOf(op)) && Step(w, op).rows != w.rows && !Step(w, op).threw
  {
    hide ResourceAfter, ClientAfter;
  }

  // Of any run, cut off or thrown: made are the rows that were not there before their declaration and are after it,
  // with the secrets rotated; changed, the declarations that found their row and changed one; found, those that
  // changed nothing.
  lemma {:induction false} TallyTells(s: State, acts: seq<Act>)
    ensures DoAll(Anew(s), acts).tally == ToldIn(Anew(s), acts)
  {
    hide Do, Told;
    if acts != [] {
      TallyTells(s, acts[..|acts| - 1]);
      DoTells(DoAll(Anew(s), acts[..|acts| - 1]), acts[|acts| - 1]);
    }
  }

  // ---------- How a client signs in ----------

  predicate Makes(op: Op, clientId: string, fixed: string) {
    op.EnsureClient? && op.clientId == clientId && op.client.fixed == fixed
  }

  // A client keeps the way it signs in: what it had, or that of its declaration that made it.
  lemma {:induction false} FixedFrom(w: World, ops: seq<Op>, clientId: string)
    requires clientId in Run(w, ops).rows.clients
    ensures if clientId in w.rows.clients then
              Run(w, ops).rows.clients[clientId].fixed == w.rows.clients[clientId].fixed
            else exists i :: 0 <= i < |ops| && Makes(ops[i], clientId, Run(w, ops).rows.clients[clientId].fixed)
  {
    if ops != [] {
      var n := |ops| - 1;
      var before := Run(w, ops[..n]);
      StepFixed(before, ops[n], clientId);
      if clientId in w.rows.clients {
        ClientStays(w, ops[..n], clientId);
      }
      if clientId in before.rows.clients {
        FixedFrom(w, ops[..n], clientId);
        if clientId !in w.rows.clients {
          var i :| 0 <= i < n && Makes(ops[..n][i], clientId, before.rows.clients[clientId].fixed);
          assert ops[..n][i] == ops[i];
        }
      } else {
        assert Makes(ops[n], clientId, Run(w, ops).rows.clients[clientId].fixed);
      }
    }
  }

  lemma StepFixed(w: World, op: Op, clientId: string)
    requires clientId in Step(w, op).rows.clients
    ensures if clientId in w.rows.clients then
              Step(w, op).rows.clients[clientId].fixed == w.rows.clients[clientId].fixed
            else Makes(op, clientId, Step(w, op).rows.clients[clientId].fixed)
  {
    hide OutcomeOf, ResourceAfter;
  }

  lemma {:induction false} ClientStays(w: World, ops: seq<Op>, clientId: string)
    requires clientId in w.rows.clients
    ensures clientId in Run(w, ops).rows.clients
  {
    if ops != [] {
      ClientStays(w, ops[..|ops| - 1], clientId);
      ClientKept(Run(w, ops[..|ops| - 1]), ops[|ops| - 1], clientId);
    }
  }

  // The two machine clients with a secret of their own, every other a public client that signs a person in.
  predicate SignsAs(clientId: string, fixed: string) {
    fixed == if clientId in {"toolbox-hub", "admin-mcp"} then "client_secret_basic client_credentials"
             else "none authorization_code refresh_token"
  }

  ghost predicate AllSignAs(acts: seq<Act>) {
    forall i :: 0 <= i < |acts| && acts[i].Ensure? && acts[i].op.EnsureClient? ==>
      SignsAs(acts[i].op.clientId, acts[i].op.client.fixed)
  }

  lemma {:induction false} StandaloneSignAs(cfg: Config, mcps: seq<Mcp>)
    ensures AllSignAs(AllStandaloneActs(cfg, mcps))
  {
    if mcps != [] {
      StandaloneSignAs(cfg, mcps[1..]);
      var host := HostOf(mcps[0]);
      assert host[0] == 'c' && "toolbox-hub"[0] == 't' && "admin-mcp"[0] == 'a';
    }
  }

  lemma JobSignAs(cfg: Config, mcps: seq<Mcp>)
    ensures AllSignAs(JobActs(cfg, mcps))
  {
    assert "claude-code-toolbox"[0] == 'c' && "claude-code-admin"[0] == 'c';
    assert "toolbox-hub"[0] == 't' && "admin-mcp"[0] == 'a';
    assert AllSignAs(ToolboxActs(cfg)) && AllSignAs(AdminHostActs(cfg)) && AllSignAs(RolesActs(cfg));
    assert AllSignAs(AdminMachineActs(cfg));
    StandaloneSignAs(cfg, mcps);
    hide ToolboxActs, AdminHostActs, RolesActs, AdminMachineActs, AllStandaloneActs;
  }

  // A client the Job made signs in as it declares, whatever the run came to.
  lemma JobClientsSignAs(s: State, cfg: Config, mcps: seq<Mcp>, clientId: string)
    requires Apart(cfg, mcps) && Unreserved(mcps) && clientId !in s.id.rows.clients
    requires clientId in Registered(s, JobActs(cfg, mcps)).id.rows.clients
    ensures SignsAs(clientId, Registered(s, JobActs(cfg, mcps)).id.rows.clients[clientId].fixed)
  {
    var acts, stored := JobActs(cfg, mcps), s.store.Keys;
    JobSound(cfg, mcps, stored);
    JobSignAs(cfg, mcps);
    hide JobActs, SignsAs, Registered;
    RunIs(s, acts);
    var ops, fixed := OpsOf(acts, stored), Registered(s, acts).id.rows.clients[clientId].fixed;
    FixedFrom(Again(s.id), ops, clientId);
    var i :| 0 <= i < |ops| && Makes(ops[i], clientId, fixed);
    OpsAreActs(acts, i, stored);
  }
}
