// What the register Job registers (infra/ops/src/register.ts:109-154, infra/ops/src/registrar.ts:129-180), for any list
// of MCPs the chart may declare, and what its runs come to.
module RegisterActs {
  import opened Options
  import opened Registrar
  import opened Register

  datatype Config = Config(admin: string, toolbox: string, adminMcp: string, mcpOrigin: string, callback: string)

  // An MCP the Toolbox serves alone, with its manifest's scopes.
  datatype Mcp = Mcp(name: string, scopes: Scopes)

  const SIGN_IN: Scopes := {"openid", "offline_access"}
  const PERSON := "none authorization_code refresh_token"

  // Every client's key.
  function ClientKey(clientId: string): string {
    clientId + "-v1"
  }

  function HostClient(name: string, scopes: Scopes, callback: string): Declared {
    Declared(name, PERSON, {callback}, SIGN_IN + scopes, {})
  }

  function AudienceActs(clientId: string, suffix: string, audience: string, granted: Scopes): seq<Act> {
    [Ensure(EnsureLink(clientId + "-link" + suffix + "-v1", clientId, audience)),
     Ensure(EnsureCapability(clientId + "-capability" + suffix + "-v1", MachineSlot(clientId, audience), granted))]
  }

  // `machine`: the client, its secret, then each audience's link and capability.
  function MachineActs(clientId: string, name: string, scopes: Scopes, audiences: seq<Act>): seq<Act> {
    [Ensure(EnsureClient(ClientKey(clientId), clientId, Declared(name, MACHINE, {}, {}, scopes))), Rotate(clientId),
     Put(clientId)] + audiences
  }

  const PLATFORM: Scopes := {"platform:read", "platform:write"}

  function ToolboxActs(cfg: Config): seq<Act> {
    [Ensure(EnsureResource("toolbox-resource-v1", cfg.toolbox + "/mcp",
        Resource("Toolbox", 900, {"offline_access", "toolbox"}), false)),
     Ensure(EnsureResource("toolbox-admin-resource-v1", cfg.toolbox + "/admin",
        Resource("Toolbox admin", 300, {"toolbox:admin"}), false))]
    + MachineActs("toolbox-hub", "Toolbox", PLATFORM, AudienceActs("toolbox-hub", "", cfg.admin, PLATFORM))
    + [Ensure(EnsureClient(ClientKey("claude-code-toolbox"), "claude-code-toolbox",
        HostClient("Claude Code (Toolbox)", {"toolbox"}, cfg.callback)))]
  }

  const ADMIN_SCOPES: Scopes := {"admin", "answerable-team", "answerable-admin", "answerable-owner", "offline_access"}

  function AdminMcp(cfg: Config): string {
    cfg.adminMcp + "/mcp"
  }

  function AdminHostActs(cfg: Config): seq<Act> {
    var host, resource := "claude-code-admin", AdminMcp(cfg);
    [Ensure(EnsureResource("admin-mcp-resource-v1", resource, Resource("Admin MCP", 900, ADMIN_SCOPES), false)),
     Ensure(EnsureClient(ClientKey(host), host, HostClient("Claude Code (admin MCP)", {"admin"}, cfg.callback))),
     Ensure(EnsureLink("claude-code-admin-link-v1", host, resource)),
     Ensure(EnsureCapability("admin-login-authorization_code-v1", (host, None, "authorization_code"), SIGN_IN)),
     Ensure(EnsureCapability("admin-resource-authorization_code-v1", (host, Some(resource), "authorization_code"),
         {"admin"})),
     Ensure(EnsureCapability("admin-login-refresh_token-v1", (host, None, "refresh_token"), SIGN_IN)),
     Ensure(EnsureCapability("admin-resource-refresh_token-v1", (host, Some(resource), "refresh_token"), {"admin"})),
     Ensure(EnsureEntitlement("admin-login-entitlement-v1", Target(Some(host), None, None), SIGN_IN)),
     Ensure(EnsureEntitlement("admin-resource-entitlement-v1", Target(Some(host), None, Some(resource)), {"admin"}))]
  }

  // A role's group, found by its slug, and the group's entitlement.
  function RoleActs(cfg: Config, role: string): seq<Act> {
    var slug := "answerable-" + role;
    [Ensure(EnsureGroup("admin-group-" + role + "-v1", slug)),
     Ensure(EnsureEntitlement("admin-role-" + role + "-v1", Target(None, Some(slug), Some(AdminMcp(cfg))), {slug}))]
  }

  function RolesActs(cfg: Config): seq<Act> {
    RoleActs(cfg, "team") + RoleActs(cfg, "admin") + RoleActs(cfg, "owner")
  }

  function AdminMachineActs(cfg: Config): seq<Act> {
    MachineActs("admin-mcp", "Admin MCP", {"platform:read", "platform:users", "platform:write", "toolbox:admin"},
      AudienceActs("admin-mcp", "-id", cfg.admin, {"platform:read", "platform:users", "platform:write"})
      + AudienceActs("admin-mcp", "-toolbox", cfg.toolbox + "/admin", {"toolbox:admin"}))
  }

  function Identifier(cfg: Config, mcp: Mcp): string {
    cfg.mcpOrigin + "/" + mcp.name + "/mcp"
  }

  function HostOf(mcp: Mcp): string {
    "claude-code-" + mcp.name
  }

  // `registerStandalone`
  function StandaloneActs(cfg: Config, mcp: Mcp): seq<Act> {
    [Ensure(EnsureResource("mcp-" + mcp.name + "-resource-v1", Identifier(cfg, mcp),
        Resource(mcp.name, 900, mcp.scopes + {"offline_access"}), true)),
     Ensure(EnsureClient(ClientKey(HostOf(mcp)), HostOf(mcp),
         HostClient("Claude Code (" + mcp.name + ")", mcp.scopes, cfg.callback))),
     Ensure(EnsureLink(HostOf(mcp) + "-link-v1", HostOf(mcp), Identifier(cfg, mcp)))]
  }

  function AllStandaloneActs(cfg: Config, mcps: seq<Mcp>): seq<Act> {
    if mcps == [] then [] else StandaloneActs(cfg, mcps[0]) + AllStandaloneActs(cfg, mcps[1..])
  }

  // A run as ops-register, once it is signed in.
  function JobActs(cfg: Config, mcps: seq<Mcp>): seq<Act> {
    ToolboxActs(cfg) + AdminHostActs(cfg) + RolesActs(cfg) + AdminMachineActs(cfg) + AllStandaloneActs(cfg, mcps)
  }

  // ---------- The Job's acts are in order ----------

  lemma {:induction false} OpsOfAppend(a: seq<Act>, b: seq<Act>, stored: set<string>)
    ensures OpsOf(a + b, stored) == OpsOf(a, stored) + OpsOf(b, stored)
  {
    if b == [] {
      assert a + b == a;
    } else {
      assert (a + b)[..|a + b| - 1] == a + b[..|b| - 1];
      OpsOfAppend(a, b[..|b| - 1], stored);
    }
  }

  lemma OrderedAppend(a: seq<Op>, b: seq<Op>)
    requires Ordered(a) && Ordered(b)
    ensures Ordered(a + b)
  {
    hide Names;
    forall i, row | 0 <= i < |a + b| && row in Names((a + b)[i])
      ensures DeclaredBefore(a + b, i, row)
    {
      if i < |a| {
        assert DeclaredBefore(a, i, row);
        var j :| 0 <= j < i && RowOf(a[j]) == row;
        assert (a + b)[j] == a[j];
      } else {
        assert DeclaredBefore(b, i - |a|, row);
        var j :| 0 <= j < i - |a| && RowOf(b[j]) == row;
        assert (a + b)[|a| + j] == b[j];
      }
    }
  }

  lemma SequencedAppend(a: seq<Act>, b: seq<Act>)
    requires Sequenced(a) && Sequenced(b)
    ensures Sequenced(a + b)
  {
    var all := a + b;
    forall i | 0 <= i < |all| && all[i].Put?
      ensures Rotate(all[i].clientId) in all[..i]
    {
      if i < |a| {
        assert all[..i] == a[..i];
      } else {
        assert all[..i] == a + b[..i - |a|] && all[i] == b[i - |a|];
      }
    }
  }

  // A segment of the Job: what its declarations name, and its puts, come after the rows and rotations they need.
  ghost predicate Segment(acts: seq<Act>) {
    Sequenced(acts) && forall stored :: Ordered(OpsOf(acts, stored))
  }

  lemma SegmentAppend(a: seq<Act>, b: seq<Act>)
    requires Segment(a) && Segment(b)
    ensures Segment(a + b)
  {
    SequencedAppend(a, b);
    forall stored
      ensures Ordered(OpsOf(a + b, stored))
    {
      OpsOfAppend(a, b, stored);
      OrderedAppend(OpsOf(a, stored), OpsOf(b, stored));
    }
  }

  lemma {:induction false} EnsuresOnly(acts: seq<Act>, stored: set<string>)
    requires forall i :: 0 <= i < |acts| ==> acts[i].Ensure?
    ensures var ops := OpsOf(acts, stored); |ops| == |acts| && forall i :: 0 <= i < |acts| ==> ops[i] == acts[i].op
  {
    if acts != [] {
      assert forall i :: 0 <= i < |acts| - 1 ==> acts[..|acts| - 1][i] == acts[i];
      EnsuresOnly(acts[..|acts| - 1], stored);
    }
  }

  // Declarations that name at most rows the first of them declares.
  predicate Leads(acts: seq<Act>) {
    && (forall i :: 0 <= i < |acts| ==> acts[i].Ensure?)
    && (acts != [] ==> Names(acts[0].op) == {})
    && forall i :: 0 < i < |acts| ==> Names(acts[i].op) <= {RowOf(acts[0].op)}
  }

  lemma LeadsSegment(acts: seq<Act>)
    requires Leads(acts)
    ensures Segment(acts)
  {
    hide Names;
    forall stored
      ensures Ordered(OpsOf(acts, stored))
    {
      EnsuresOnly(acts, stored);
      var ops := OpsOf(acts, stored);
      forall i, row | 0 <= i < |ops| && row in Names(ops[i])
        ensures DeclaredBefore(ops, i, row)
      {
        assert ops[i] == acts[i].op && ops[0] == acts[0].op;
        assert RowOf(ops[0]) == row;
      }
    }
  }

  lemma Single(act: Act)
    requires act.Ensure? && Names(act.op) == {}
    ensures Segment([act])
  {
    LeadsSegment([act]);
  }

  lemma MachineSegment(clientId: string, name: string, scopes: Scopes, audiences: seq<Act>)
    requires forall i :: 0 <= i < |audiences| ==>
        audiences[i].Ensure? && Names(audiences[i].op) <= {ClientRow(clientId)}
    ensures Segment(MachineActs(clientId, name, scopes, audiences))
  {
    var all := MachineActs(clientId, name, scopes, audiences);
    forall i | 0 <= i < |all| && all[i].Put?
      ensures Rotate(all[i].clientId) in all[..i]
    {
      assert i == 2 && all[..2][1] == Rotate(clientId);
    }
    forall stored
      ensures Ordered(OpsOf(all, stored))
    {
      MachineOrdered(clientId, name, scopes, audiences, stored);
    }
  }

  lemma MachineOps(clientId: string, name: string, scopes: Scopes, stored: set<string>)
    ensures var head := MachineActs(clientId, name, scopes, []);
            var client := EnsureClient(ClientKey(clientId), clientId, Declared(name, MACHINE, {}, {}, scopes));
            OpsOf(head, stored) == [client] + if clientId in stored then [] else [EnsureSecret(clientId)]
  {
    var head := MachineActs(clientId, name, scopes, []);
    assert head[..2][..1] == head[..1] && head[..1][..0] == [];
    assert OpsOf([], stored) == [];
    assert OpsOf(head[..1], stored) == [head[0].op];
    assert OpsOf(head[..2], stored) == OpsOf(head[..1], stored) + OpsOfAct(head[1], stored);
    assert OpsOf(head, stored) == OpsOf(head[..2], stored);
  }

  lemma MachineOrdered(
      clientId: string, name: string, scopes: Scopes, audiences: seq<Act>, stored: set<string>)
    requires forall i :: 0 <= i < |audiences| ==>
        audiences[i].Ensure? && Names(audiences[i].op) <= {ClientRow(clientId)}
    ensures Ordered(OpsOf(MachineActs(clientId, name, scopes, audiences), stored))
  {
    var head := MachineActs(clientId, name, scopes, []);
    MachineOps(clientId, name, scopes, stored);
    assert MachineActs(clientId, name, scopes, audiences) == head + audiences;
    OpsOfAppend(head, audiences, stored);
    EnsuresOnly(audiences, stored);
    var first, rest, ops := OpsOf(head, stored), OpsOf(audiences, stored), OpsOf(head + audiences, stored);
    forall i, row | 0 <= i < |ops| && row in Names(ops[i])
      ensures DeclaredBefore(ops, i, row)
    {
      assert RowOf(ops[0]) == ClientRow(clientId);
      if i >= |first| {
        assert ops[i] == rest[i - |first|] == audiences[i - |first|].op;
      }
    }
  }

  lemma {:induction false} StandaloneSegments(cfg: Config, mcps: seq<Mcp>)
    ensures Segment(AllStandaloneActs(cfg, mcps))
  {
    if mcps == [] {
      LeadsSegment([]);
    } else {
      var acts := StandaloneActs(cfg, mcps[0]);
      Single(acts[0]);
      LeadsSegment(acts[1..]);
      assert acts == [acts[0]] + acts[1..];
      SegmentAppend([acts[0]], acts[1..]);
      StandaloneSegments(cfg, mcps[1..]);
      SegmentAppend(acts, AllStandaloneActs(cfg, mcps[1..]));
    }
  }

  lemma ToolboxSegment(cfg: Config)
    ensures Segment(ToolboxActs(cfg))
  {
    var acts := ToolboxActs(cfg);
    var machine := MachineActs("toolbox-hub", "Toolbox", PLATFORM,
      AudienceActs("toolbox-hub", "", cfg.admin, PLATFORM));
    LeadsSegment(acts[..2]);
    MachineSegment("toolbox-hub", "Toolbox", PLATFORM, AudienceActs("toolbox-hub", "", cfg.admin, PLATFORM));
    assert |machine| == 5 && acts[2..7] == machine;
    Single(acts[7]);
    SegmentAppend(acts[..2], acts[2..7]);
    SegmentAppend(acts[..2] + acts[2..7], [acts[7]]);
    assert acts == acts[..2] + acts[2..7] + [acts[7]];
  }

  lemma AdminHostSegment(cfg: Config)
    ensures Segment(AdminHostActs(cfg))
  {
    var acts := AdminHostActs(cfg);
    Single(acts[0]);
    LeadsSegment(acts[1..]);
    assert acts == [acts[0]] + acts[1..];
    SegmentAppend([acts[0]], acts[1..]);
  }

  lemma RolesSegment(cfg: Config)
    ensures Segment(RolesActs(cfg))
  {
    var team, admin, owner := RoleActs(cfg, "team"), RoleActs(cfg, "admin"), RoleActs(cfg, "owner");
    LeadsSegment(team);
    LeadsSegment(admin);
    LeadsSegment(owner);
    SegmentAppend(team, admin);
    SegmentAppend(team + admin, owner);
  }

  lemma JobSegment(cfg: Config, mcps: seq<Mcp>)
    ensures Segment(JobActs(cfg, mcps))
  {
    ToolboxSegment(cfg);
    AdminHostSegment(cfg);
    RolesSegment(cfg);
    MachineSegment("admin-mcp", "Admin MCP", {"platform:read", "platform:users", "platform:write", "toolbox:admin"},
      AudienceActs("admin-mcp", "-id", cfg.admin, {"platform:read", "platform:users", "platform:write"})
      + AudienceActs("admin-mcp", "-toolbox", cfg.toolbox + "/admin", {"toolbox:admin"}));
    StandaloneSegments(cfg, mcps);
    hide Segment, ToolboxActs, AdminHostActs, RolesActs, AllStandaloneActs;
    FiveSegments(ToolboxActs(cfg), AdminHostActs(cfg), RolesActs(cfg), AdminMachineActs(cfg),
      AllStandaloneActs(cfg, mcps));
  }

  lemma FiveSegments(a: seq<Act>, b: seq<Act>, c: seq<Act>, d: seq<Act>, e: seq<Act>)
    requires Segment(a) && Segment(b) && Segment(c) && Segment(d) && Segment(e)
    ensures Segment(a + b + c + d + e)
  {
    hide Segment;
    SegmentAppend(a, b);
    SegmentAppend(a + b, c);
    SegmentAppend(a + b + c, d);
    SegmentAppend(a + b + c + d, e);
  }

  // ---------- Its declarations agree ----------

  // The rows the Job declares by name, for any list of MCPs.
  function FixedResource(cfg: Config, id: string): Option<(string, string, nat)> {
    if id == cfg.toolbox + "/mcp" then Some(("toolbox-resource-v1", "Toolbox", 900))
    else if id == cfg.toolbox + "/admin" then Some(("toolbox-admin-resource-v1", "Toolbox admin", 300))
    else if id == AdminMcp(cfg) then Some(("admin-mcp-resource-v1", "Admin MCP", 900))
    else None
  }

  function FixedClient(clientId: string): Option<string> {
    if clientId == "toolbox-hub" then Some("Toolbox")
    else if clientId == "claude-code-toolbox" then Some("Claude Code (Toolbox)")
    else if clientId == "claude-code-admin" then Some("Claude Code (admin MCP)")
    else if clientId == "admin-mcp" then Some("Admin MCP")
    else None
  }

  function FixedCapability(cfg: Config, slot: Slot): Option<(string, Scopes)> {
    if slot == MachineSlot("toolbox-hub", cfg.admin) then Some(("toolbox-hub-capability-v1", PLATFORM))
    else if slot == MachineSlot("admin-mcp", cfg.admin) then
      Some(("admin-mcp-capability-id-v1", {"platform:read", "platform:users", "platform:write"}))
    else if slot == MachineSlot("admin-mcp", cfg.toolbox + "/admin") then
      Some(("admin-mcp-capability-toolbox-v1", {"toolbox:admin"}))
    else if slot == ("claude-code-admin", None, "authorization_code") then
      Some(("admin-login-authorization_code-v1", SIGN_IN))
    else if slot == ("claude-code-admin", Some(AdminMcp(cfg)), "authorization_code") then
      Some(("admin-resource-authorization_code-v1", {"admin"}))
    else if slot == ("claude-code-admin", None, "refresh_token") then Some(("admin-login-refresh_token-v1", SIGN_IN))
    else if slot == ("claude-code-admin", Some(AdminMcp(cfg)), "refresh_token") then
      Some(("admin-resource-refresh_token-v1", {"admin"}))
    else None
  }

  function SlotFor(cfg: Config, key: string): Option<Slot> {
    if key == "toolbox-hub-capability-v1" then Some(MachineSlot("toolbox-hub", cfg.admin))
    else if key == "admin-mcp-capability-id-v1" then Some(MachineSlot("admin-mcp", cfg.admin))
    else if key == "admin-mcp-capability-toolbox-v1" then Some(MachineSlot("admin-mcp", cfg.toolbox + "/admin"))
    else if key == "admin-login-authorization_code-v1" then Some(("claude-code-admin", None, "authorization_code"))
    else if key == "admin-resource-authorization_code-v1" then
      Some(("claude-code-admin", Some(AdminMcp(cfg)), "authorization_code"))
    else if key == "admin-login-refresh_token-v1" then Some(("claude-code-admin", None, "refresh_token"))
    else if key == "admin-resource-refresh_token-v1" then
      Some(("claude-code-admin", Some(AdminMcp(cfg)), "refresh_token"))
    else None
  }

  const ROLE_PREFIX := "answerable-"

  predicate IsRole(slug: string) {
    slug in {"answerable-team", "answerable-admin", "answerable-owner"}
  }

  function RoleKey(kind: string, slug: string): string
    requires IsRole(slug)
  {
    "admin-" + kind + "-" + slug[11..] + "-v1"
  }

  predicate IsRoleEntitlement(cfg: Config, op: Op)
    requires op.EnsureEntitlement?
  {
    && op.holder.group.Some? && IsRole(op.holder.group.value) && op.key == RoleKey("role", op.holder.group.value)
    && op.holder == Target(None, op.holder.group, Some(AdminMcp(cfg))) && op.scopes == {op.holder.group.value}
  }

  predicate IsHostEntitlement(cfg: Config, op: Op)
    requires op.EnsureEntitlement?
  {
    || (op.key == "admin-login-entitlement-v1" && op.holder == Target(Some("claude-code-admin"), None, None)
        && op.scopes == SIGN_IN)
    || (op.key == "admin-resource-entitlement-v1"
        && op.holder == Target(Some("claude-code-admin"), None, Some(AdminMcp(cfg))) && op.scopes == {"admin"})
  }

  predicate IsOwn(cfg: Config, mcp: Mcp, op: Op)
    requires op.EnsureResource?
  {
    && op.own && op.id == Identifier(cfg, mcp) && op.key == "mcp-" + mcp.name + "-resource-v1"
    && op.declared == Resource(mcp.name, 900, mcp.scopes + {"offline_access"})
  }

  predicate IsHost(mcp: Mcp, op: Op)
    requires op.EnsureClient?
  {
    op.clientId == HostOf(mcp) && op.client.name == "Claude Code (" + mcp.name + ")"
  }

  predicate FromJob(cfg: Config, mcps: seq<Mcp>, op: Op) {
    match op
    case EnsureResource(key, id, d, own) =>
      (!own && FixedResource(cfg, id) == Some((key, d.name, d.ttl))) || exists i ::
        0 <= i < |mcps| && IsOwn(cfg, mcps[i], op)
    case EnsureClient(key, clientId, d) =>
      key == ClientKey(clientId) && (FixedClient(clientId) == Some(d.name) || exists i ::
        0 <= i < |mcps| && IsHost(mcps[i], op))
    case EnsureCapability(key, slot, scopes) =>
      FixedCapability(cfg, slot) == Some((key, scopes)) && SlotFor(cfg, key) == Some(slot)
    case EnsureEntitlement(_, _, _) => IsRoleEntitlement(cfg, op) || IsHostEntitlement(cfg, op)
    case EnsureGroup(key, slug) => IsRole(slug) && key == RoleKey("group", slug)
    case _ => true
  }

  // The list names each MCP once, none is served at a fixed resource's address, and the servers have their own.
  predicate Apart(cfg: Config, mcps: seq<Mcp>) {
    && (forall i, j :: 0 <= i < j < |mcps| ==> mcps[i].name != mcps[j].name)
    && (forall i :: 0 <= i < |mcps| ==> FixedResource(cfg, Identifier(cfg, mcps[i])) == None)
    && cfg.toolbox != cfg.adminMcp && cfg.toolbox + "/admin" != cfg.admin
  }

  // No MCP's host client is one of the Job's own: none is called admin or toolbox.
  predicate Unreserved(mcps: seq<Mcp>) {
    forall i :: 0 <= i < |mcps| ==> mcps[i].name != "admin" && mcps[i].name != "toolbox"
  }

  lemma HostApart(mcps: seq<Mcp>, i: nat)
    requires i < |mcps|
    ensures FixedClient(HostOf(mcps[i])) == None <==> mcps[i].name != "admin" && mcps[i].name != "toolbox"
  {
    var host := HostOf(mcps[i]);
    assert host[12..] == mcps[i].name;
    assert "claude-code-toolbox"[12..] == "toolbox" && "claude-code-admin"[12..] == "admin";
    assert host[0] == 'c' && host[..12] == "claude-code-";
    if mcps[i].name == "admin" {
      assert host == "claude-code-admin";
    }
    if mcps[i].name == "toolbox" {
      assert host == "claude-code-toolbox";
    }
  }

  lemma NamesFromIds(cfg: Config, a: Mcp, b: Mcp)
    ensures Identifier(cfg, a) == Identifier(cfg, b) ==> a.name == b.name
    ensures HostOf(a) == HostOf(b) ==> a.name == b.name
    ensures "mcp-" + a.name + "-resource-v1" == "mcp-" + b.name + "-resource-v1" ==> a.name == b.name
  {
    var x, y := Identifier(cfg, a), Identifier(cfg, b);
    assert x[|cfg.mcpOrigin| + 1..|x| - 4] == a.name && y[|cfg.mcpOrigin| + 1..|y| - 4] == b.name;
    assert HostOf(a)[12..] == a.name && HostOf(b)[12..] == b.name;
    var k, l := "mcp-" + a.name + "-resource-v1", "mcp-" + b.name + "-resource-v1";
    assert k[4..|k| - 12] == a.name && l[4..|l| - 12] == b.name;
  }

  lemma OwnKeyApart(cfg: Config, mcp: Mcp, id: string)
    requires FixedResource(cfg, id).Some?
    ensures FixedResource(cfg, id).value.0 != "mcp-" + mcp.name + "-resource-v1"
  {
    assert ("mcp-" + mcp.name + "-resource-v1")[0] == 'm';
    assert "toolbox-resource-v1"[0] == 't' && "toolbox-admin-resource-v1"[0] == 't';
    assert "admin-mcp-resource-v1"[0] == 'a';
  }

  lemma ResourcesAgree(cfg: Config, mcps: seq<Mcp>, a: Op, b: Op)
    requires Apart(cfg, mcps) && FromJob(cfg, mcps, a) && FromJob(cfg, mcps, b) && a.EnsureResource?
             && b.EnsureResource?
    ensures Agree(a, b)
  {
    if i :| 0 <= i < |mcps| && IsOwn(cfg, mcps[i], a) {
      assert FixedResource(cfg, a.id) == None;
      if j :| 0 <= j < |mcps| && IsOwn(cfg, mcps[j], b) {
        NamesFromIds(cfg, mcps[i], mcps[j]);
        assert a.id == b.id || a.key == b.key ==> i == j;
      } else {
        OwnKeyApart(cfg, mcps[i], b.id);
      }
    } else if j :| 0 <= j < |mcps| && IsOwn(cfg, mcps[j], b) {
      assert FixedResource(cfg, b.id) == None;
      OwnKeyApart(cfg, mcps[j], a.id);
    } else {
      assert |"toolbox-resource-v1"| == 19 && |"toolbox-admin-resource-v1"| == 25 && |"admin-mcp-resource-v1"| == 21;
    }
  }

  lemma ClientsAgree(cfg: Config, mcps: seq<Mcp>, a: Op, b: Op)
    requires Unreserved(mcps) && FromJob(cfg, mcps, a) && FromJob(cfg, mcps, b) && a.EnsureClient? && b.EnsureClient?
    ensures Agree(a, b)
  {
    assert a.key[..|a.key| - 3] == a.clientId && b.key[..|b.key| - 3] == b.clientId;
    if a.clientId == b.clientId {
      if i :| 0 <= i < |mcps| && IsHost(mcps[i], a) {
        HostApart(mcps, i);
        var j :| 0 <= j < |mcps| && IsHost(mcps[j], b);
        NamesFromIds(Config("", "", "", "", ""), mcps[i], mcps[j]);
      } else if j :| 0 <= j < |mcps| && IsHost(mcps[j], b) {
        HostApart(mcps, j);
      }
    }
  }

  lemma CapabilitiesAgree(cfg: Config, mcps: seq<Mcp>, a: Op, b: Op)
    requires FromJob(cfg, mcps, a) && FromJob(cfg, mcps, b) && a.EnsureCapability? && b.EnsureCapability?
    ensures Agree(a, b) && (a.slot == b.slot ==> a == b)
  {
    hide FixedCapability, SlotFor;
  }

  lemma RoleKeys(kind: string, a: string, b: string)
    requires IsRole(a) && IsRole(b) && RoleKey(kind, a) == RoleKey(kind, b)
    ensures a == b
  {
    var k, l := RoleKey(kind, a), RoleKey(kind, b);
    var n := |"admin-" + kind + "-"|;
    assert k[n..|k| - 3] == a[11..] && l[n..|l| - 3] == b[11..];
    assert a[..11] == ROLE_PREFIX && b[..11] == ROLE_PREFIX;
    assert a == a[..11] + a[11..] && b == b[..11] + b[11..];
  }

  lemma RoleKeyApart(cfg: Config, a: Op, b: Op)
    requires a.EnsureEntitlement? && b.EnsureEntitlement? && IsRoleEntitlement(cfg, a) && IsHostEntitlement(cfg, b)
    ensures a.key != b.key && a.holder != b.holder
  {
    assert a.key[..11] == "admin-role-";
    assert "admin-login-entitlement-v1"[6] == 'l' && "admin-resource-entitlement-v1"[7] == 'e';
    assert a.key[6] == 'r' && a.key[7] == 'o';
  }

  lemma EntitlementsAgree(cfg: Config, mcps: seq<Mcp>, a: Op, b: Op)
    requires FromJob(cfg, mcps, a) && FromJob(cfg, mcps, b) && a.EnsureEntitlement? && b.EnsureEntitlement?
    ensures Agree(a, b)
  {
    if IsRoleEntitlement(cfg, a) && IsRoleEntitlement(cfg, b) {
      if a.key == b.key {
        RoleKeys("role", a.holder.group.value, b.holder.group.value);
      }
    } else if IsRoleEntitlement(cfg, a) {
      RoleKeyApart(cfg, a, b);
    } else if IsRoleEntitlement(cfg, b) {
      RoleKeyApart(cfg, b, a);
    } else {
      assert |"admin-login-entitlement-v1"| == 26 && |"admin-resource-entitlement-v1"| == 29;
    }
  }

  lemma JobAgrees(cfg: Config, mcps: seq<Mcp>, a: Op, b: Op)
    requires Apart(cfg, mcps) && Unreserved(mcps) && FromJob(cfg, mcps, a) && FromJob(cfg, mcps, b)
    ensures Agree(a, b)
  {
    hide FromJob, Apart, Unreserved;
    match (a, b)
    case (EnsureResource(_, _, _, _), EnsureResource(_, _, _, _)) => ResourcesAgree(cfg, mcps, a, b);
    case (EnsureClient(_, _, _), EnsureClient(_, _, _)) => ClientsAgree(cfg, mcps, a, b);
    case (EnsureCapability(_, _, _), EnsureCapability(_, _, _)) => CapabilitiesAgree(cfg, mcps, a, b);
    case (EnsureEntitlement(_, _, _), EnsureEntitlement(_, _, _)) => EntitlementsAgree(cfg, mcps, a, b);
    case (EnsureGroup(_, _), EnsureGroup(_, _)) => GroupsAgree(cfg, mcps, a, b);
    case _ =>
  }

  lemma GroupsAgree(cfg: Config, mcps: seq<Mcp>, a: Op, b: Op)
    requires FromJob(cfg, mcps, a) && FromJob(cfg, mcps, b) && a.EnsureGroup? && b.EnsureGroup?
    ensures Agree(a, b)
  {
    if a.key == b.key {
      RoleKeys("group", a.slug, b.slug);
    }
  }

  ghost predicate AllFromJob(cfg: Config, mcps: seq<Mcp>, acts: seq<Act>) {
    forall i :: 0 <= i < |acts| && acts[i].Ensure? ==> FromJob(cfg, mcps, acts[i].op)
  }

  lemma {:induction false} StandaloneFromJob(cfg: Config, all: seq<Mcp>, mcps: seq<Mcp>)
    requires forall i :: 0 <= i < |mcps| ==> mcps[i] in all
    ensures AllFromJob(cfg, all, AllStandaloneActs(cfg, mcps))
  {
    if mcps != [] {
      StandaloneFromJob(cfg, all, mcps[1..]);
      var k :| 0 <= k < |all| && all[k] == mcps[0];
      var acts := StandaloneActs(cfg, mcps[0]);
      assert IsOwn(cfg, all[k], acts[0].op) && IsHost(all[k], acts[1].op);
    }
  }

  lemma ResourceIds(cfg: Config, mcps: seq<Mcp>)
    requires Apart(cfg, mcps)
    ensures cfg.toolbox + "/mcp" != cfg.toolbox + "/admin" && AdminMcp(cfg) != cfg.toolbox + "/admin"
    ensures AdminMcp(cfg) != cfg.toolbox + "/mcp"
  {
    var t, a := cfg.toolbox, cfg.adminMcp;
    assert (t + "/mcp")[|t + "/mcp"| - 1] == 'p' && (t + "/admin")[|t + "/admin"| - 1] == 'n'
           && (a + "/mcp")[|a + "/mcp"| - 1] == 'p';
    assert (a + "/mcp")[..|a + "/mcp"| - 4] == a && (t + "/mcp")[..|t + "/mcp"| - 4] == t;
  }

  lemma AudienceKeys()
    ensures "toolbox-hub" + "-capability" + "" + "-v1" == "toolbox-hub-capability-v1"
    ensures "admin-mcp" + "-capability" + "-id" + "-v1" == "admin-mcp-capability-id-v1"
    ensures "admin-mcp" + "-capability" + "-toolbox" + "-v1" == "admin-mcp-capability-toolbox-v1"
  {}

  lemma ToolboxFromJob(cfg: Config, mcps: seq<Mcp>)
    requires Apart(cfg, mcps)
    ensures AllFromJob(cfg, mcps, ToolboxActs(cfg))
  {
    ResourceIds(cfg, mcps);
    AudienceKeys();
    hide Apart;
  }

  // A grant's two capabilities, of the login and of the resource.
  predicate IsGrant(cfg: Config, mcps: seq<Mcp>, login: string, resource: string, grant: string) {
    var host := "claude-code-admin";
    && FromJob(cfg, mcps, EnsureCapability(login, (host, None, grant), SIGN_IN))
    && FromJob(cfg, mcps, EnsureCapability(resource, (host, Some(AdminMcp(cfg)), grant), {"admin"}))
  }

  lemma CodeFromJob(cfg: Config, mcps: seq<Mcp>)
    ensures IsGrant(cfg, mcps, "admin-login-authorization_code-v1", "admin-resource-authorization_code-v1",
        "authorization_code")
  {}

  lemma RefreshLoginFromJob(cfg: Config, mcps: seq<Mcp>)
    ensures FromJob(cfg, mcps,
        EnsureCapability("admin-login-refresh_token-v1", ("claude-code-admin", None, "refresh_token"), SIGN_IN))
  {}

  lemma RefreshFromJob(cfg: Config, mcps: seq<Mcp>)
    ensures IsGrant(cfg, mcps, "admin-login-refresh_token-v1", "admin-resource-refresh_token-v1", "refresh_token")
  {
    RefreshLoginFromJob(cfg, mcps);
    assert "admin-resource-refresh_token-v1"[6] == 'r' && "admin-mcp-capability-toolbox-v1"[6] == 'm';
  }

  lemma AdminHostOthers(cfg: Config, mcps: seq<Mcp>)
    requires Apart(cfg, mcps)
    ensures var acts := AdminHostActs(cfg);
            forall i :: i in {0, 1, 7, 8} ==> acts[i].Ensure? && FromJob(cfg, mcps, acts[i].op)
  {
    ResourceIds(cfg, mcps);
    hide Apart;
  }

  lemma AdminHostFromJob(cfg: Config, mcps: seq<Mcp>)
    requires Apart(cfg, mcps)
    ensures AllFromJob(cfg, mcps, AdminHostActs(cfg))
  {
    AdminHostOthers(cfg, mcps);
    CodeFromJob(cfg, mcps);
    RefreshFromJob(cfg, mcps);
    hide Apart, FromJob;
    var acts := AdminHostActs(cfg);
    assert |acts| == 9 && acts[2].op.EnsureLink?;
    LinkFromJob(cfg, mcps, acts[2].op);
  }

  lemma LinkFromJob(cfg: Config, mcps: seq<Mcp>, op: Op)
    requires op.EnsureLink?
    ensures FromJob(cfg, mcps, op)
  {}

  lemma RoleFromJob(cfg: Config, mcps: seq<Mcp>, role: string)
    requires IsRole("answerable-" + role)
    ensures AllFromJob(cfg, mcps, RoleActs(cfg, role))
  {
    assert ("answerable-" + role)[11..] == role;
  }

  lemma RolesFromJob(cfg: Config, mcps: seq<Mcp>)
    ensures AllFromJob(cfg, mcps, RolesActs(cfg))
  {
    assert "answerable-" + "team" == "answerable-team" && "answerable-" + "admin" == "answerable-admin"
        && "answerable-" + "owner" == "answerable-owner";
    RoleFromJob(cfg, mcps, "team");
    RoleFromJob(cfg, mcps, "admin");
    RoleFromJob(cfg, mcps, "owner");
    hide FromJob, RoleActs;
  }

  lemma AdminMachineFromJob(cfg: Config, mcps: seq<Mcp>)
    requires Apart(cfg, mcps)
    ensures AllFromJob(cfg, mcps, AdminMachineActs(cfg))
  {
    AudienceKeys();
    hide Apart;
    assert cfg.toolbox + "/admin" != cfg.admin by { OriginsApart(cfg, mcps); }
  }

  lemma OriginsApart(cfg: Config, mcps: seq<Mcp>)
    requires Apart(cfg, mcps)
    ensures cfg.toolbox + "/admin" != cfg.admin
  {}

  lemma {:induction false} OpsAreActs(acts: seq<Act>, i: nat, stored: set<string>)
    requires i < |OpsOf(acts, stored)|
    ensures var op := OpsOf(acts, stored)[i]; Ensure(op) in acts || (op.EnsureSecret? && Rotate(op.clientId) in acts)
  {
    var n := |acts| - 1;
    assert acts == acts[..n] + [acts[n]];
    if i < |OpsOf(acts[..n], stored)| {
      OpsAreActs(acts[..n], i, stored);
    }
  }

  lemma JobFromJob(cfg: Config, mcps: seq<Mcp>)
    requires Apart(cfg, mcps)
    ensures AllFromJob(cfg, mcps, JobActs(cfg, mcps))
  {
    ToolboxFromJob(cfg, mcps);
    AdminHostFromJob(cfg, mcps);
    RolesFromJob(cfg, mcps);
    AdminMachineFromJob(cfg, mcps);
    StandaloneFromJob(cfg, mcps, mcps);
    hide ToolboxActs, AdminHostActs, RolesActs, AdminMachineActs, AllStandaloneActs, FromJob;
  }

  lemma JobSound(cfg: Config, mcps: seq<Mcp>, stored: set<string>)
    requires Apart(cfg, mcps) && Unreserved(mcps)
    ensures Sound(JobActs(cfg, mcps), stored)
  {
    JobSegment(cfg, mcps);
    JobFromJob(cfg, mcps);
    hide JobActs, FromJob, Apart, Agree;
    var acts := JobActs(cfg, mcps);
    var ops := OpsOf(acts, stored);
    forall i, j | 0 <= i < j < |ops|
      ensures Agree(ops[i], ops[j])
    {
      OpFromJob(cfg, mcps, acts, i, stored);
      OpFromJob(cfg, mcps, acts, j, stored);
      JobAgrees(cfg, mcps, ops[i], ops[j]);
    }
  }

  lemma OpFromJob(cfg: Config, mcps: seq<Mcp>, acts: seq<Act>, i: nat, stored: set<string>)
    requires AllFromJob(cfg, mcps, acts) && i < |OpsOf(acts, stored)|
    ensures FromJob(cfg, mcps, OpsOf(acts, stored)[i])
  {
    OpsAreActs(acts, i, stored);
  }

  predicate Paired(acts: seq<Act>) {
    forall i :: 0 <= i < |acts| && acts[i].Rotate? ==> Put(acts[i].clientId) in acts
  }

  lemma PairedAppend(a: seq<Act>, b: seq<Act>)
    requires Paired(a) && Paired(b)
    ensures Paired(a + b)
  {}

  lemma {:induction false} StandalonePaired(cfg: Config, mcps: seq<Mcp>)
    ensures Paired(AllStandaloneActs(cfg, mcps))
  {
    if mcps != [] {
      StandalonePaired(cfg, mcps[1..]);
      PairedAppend(StandaloneActs(cfg, mcps[0]), AllStandaloneActs(cfg, mcps[1..]));
    }
  }

  lemma MachinesPaired(cfg: Config)
    ensures Paired(ToolboxActs(cfg)) && Paired(AdminMachineActs(cfg))
    ensures Put("toolbox-hub") in ToolboxActs(cfg) && Put("admin-mcp") in AdminMachineActs(cfg)
  {
    assert ToolboxActs(cfg)[4] == Put("toolbox-hub") && AdminMachineActs(cfg)[2] == Put("admin-mcp");
  }

  // Every rotation of the Job has its put, and the two services' clients are among them.
  lemma JobPuts(cfg: Config, mcps: seq<Mcp>)
    ensures Paired(JobActs(cfg, mcps))
    ensures Put("toolbox-hub") in JobActs(cfg, mcps) && Put("admin-mcp") in JobActs(cfg, mcps)
  {
    MachinesPaired(cfg);
    StandalonePaired(cfg, mcps);
    assert Paired(AdminHostActs(cfg)) && Paired(RolesActs(cfg));
    hide Paired, ToolboxActs, AdminHostActs, RolesActs, AdminMachineActs, AllStandaloneActs;
    var a, b, c, d, e := ToolboxActs(cfg), AdminHostActs(cfg), RolesActs(cfg), AdminMachineActs(cfg),
        AllStandaloneActs(cfg, mcps);
    PairedAppend(a, b);
    PairedAppend(a + b, c);
    PairedAppend(a + b + c, d);
    PairedAppend(a + b + c + d, e);
  }

  // ---------- The Job's promise ----------

  // Whichever writes earlier runs were cut off after, and wherever they threw, a whole run of the Job leaves ID as one
  // uninterrupted run does; and unless it throws, the two services' secrets are stored and, while ID has the clients,
  // current, and a further run makes and changes nothing.
  lemma JobConverges(s: State, cfg: Config, mcps: seq<Mcp>, cuts: seq<nat>)
    requires Apart(cfg, mcps) && Unreserved(mcps) && InSync(Anew(s))
    requires forall i :: 0 <= i < |cuts| ==> cuts[i] <= |JobActs(cfg, mcps)|
    ensures var acts := JobActs(cfg, mcps); var done := Registered(CutOff(s, acts, cuts), acts);
            var again := Registered(done, acts);
            && done.id == Registered(s, acts).id
            && (forall c :: c in done.store && c in done.id.rows.clients ==> Stored(done, c))
            && (!done.id.threw ==>
              && "toolbox-hub" in done.store && "admin-mcp" in done.store
              && again.tally.made == 0 && again.tally.changed == 0 && again.id == done.id && again.store == done.store)
  {
    var acts := JobActs(cfg, mcps);
    var cut := CutOff(s, acts, cuts);
    JobSound(cfg, mcps, s.store.Keys);
    JobSound(cfg, mcps, cut.store.Keys);
    JobPuts(cfg, mcps);
    hide JobActs, Apart, Sound;
    RegisterConverges(s, acts, cuts);
    if !Registered(cut, acts).id.threw {
      FurtherRun(cut, acts);
    }
  }

  // ---------- Where it does not hold ----------

  // The run did not throw, and every row it declares is there as declared.
  ghost predicate Settled(t: State, acts: seq<Act>) {
    !t.id.threw && forall i :: 0 <= i < |acts| && acts[i].Ensure? ==> Holds(t.id.rows, acts[i].op)
  }

  // Nothing stands against any row the acts declare.
  ghost predicate AllClear(w: World, acts: seq<Act>) {
    forall i :: 0 <= i < |acts| && acts[i].Ensure? ==> Clear(w, acts[i].op)
  }

  lemma {:induction false} ActsAreOps(acts: seq<Act>, i: nat, stored: set<string>) returns (k: nat)
    requires i < |acts| && acts[i].Ensure?
    ensures k < |OpsOf(acts, stored)| && OpsOf(acts, stored)[k] == acts[i].op
  {
    var n := |acts| - 1;
    if i < n {
      k := ActsAreOps(acts[..n], i, stored);
    } else {
      k := |OpsOf(acts[..n], stored)|;
    }
  }

  lemma ClearAgain(w: World, op: Op)
    ensures Clear(Again(w), op) <==> Clear(w, op)
  {}

  lemma ClearOps(w: World, acts: seq<Act>, stored: set<string>)
    requires AllClear(w, acts)
    ensures var ops := OpsOf(acts, stored); forall i :: 0 <= i < |ops| ==> Clear(Again(w), ops[i])
  {
    hide Clear;
    var ops := OpsOf(acts, stored);
    forall i | 0 <= i < |ops|
      ensures Clear(Again(w), ops[i])
    {
      OpsAreActs(acts, i, stored);
      if ops[i].EnsureSecret? {
        SecretClear(w, ops[i]);
      }
      ClearAgain(w, ops[i]);
    }
  }

  lemma SecretClear(w: World, op: Op)
    requires op.EnsureSecret?
    ensures Clear(w, op)
  {}

  // A whole run of sound acts settles if and only if nothing stood against any of their rows.
  lemma SettlesIff(s: State, acts: seq<Act>)
    requires Sound(acts, s.store.Keys)
    ensures Settled(Registered(s, acts), acts) <==> AllClear(s.id, acts)
  {
    hide Holds, Clear, Registered;
    var stored := s.store.Keys;
    var w, ops, t := Again(s.id), OpsOf(acts, stored), Registered(s, acts);
    RunIs(s, acts);
    if AllClear(s.id, acts) {
      ClearOps(s.id, acts, stored);
      RunHolds(w, ops);
      forall i | 0 <= i < |acts| && acts[i].Ensure?
        ensures Holds(t.id.rows, acts[i].op)
      {
        var k := ActsAreOps(acts, i, stored);
      }
    } else if !t.id.threw {
      var i :| 0 <= i < |acts| && acts[i].Ensure? && !Clear(s.id, acts[i].op);
      var k := ActsAreOps(acts, i, stored);
      ClearAgain(s.id, acts[i].op);
      BlockedOut(w, ops, k);
    }
  }

  lemma RunIs(s: State, acts: seq<Act>)
    requires Sequenced(acts)
    ensures Registered(s, acts).id == Run(Again(s.id), OpsOf(acts, s.store.Keys))
  {
    IdFollows(Anew(s), acts, s.store.Keys);
  }

  lemma {:induction false} StandaloneHas(cfg: Config, mcps: seq<Mcp>, i: nat)
    requires i < |mcps|
    ensures StandaloneActs(cfg, mcps[i])[1] in AllStandaloneActs(cfg, mcps)
  {
    if i > 0 {
      assert mcps[1..][i - 1] == mcps[i];
      StandaloneHas(cfg, mcps[1..], i - 1);
    }
  }

  // The Job's own host client whose id an MCP of this name would share.
  function Shared(cfg: Config, name: string): Act {
    if name == "admin" then AdminHostActs(cfg)[1] else ToolboxActs(cfg)[7]
  }

  lemma SharedClash(cfg: Config, mcp: Mcp)
    requires mcp.name == "admin" || mcp.name == "toolbox"
    ensures var a, b := Shared(cfg, mcp.name), StandaloneActs(cfg, mcp)[1];
            && a.Ensure? && b.Ensure? && a.op.EnsureClient? && b.op.EnsureClient?
            && a.op.clientId == b.op.clientId && a.op.client.name != b.op.client.name
  {
    var long := "Claude Code (" + mcp.name + ")";
    if mcp.name == "admin" {
      assert HostOf(mcp) == "claude-code-admin";
      assert |long| != |"Claude Code (admin MCP)"|;
    } else {
      assert HostOf(mcp) == "claude-code-toolbox";
      assert long[13] == 't' && "Claude Code (Toolbox)"[13] == 'T';
    }
  }

  lemma SharedDeclared(cfg: Config, mcps: seq<Mcp>, i: nat)
    requires i < |mcps|
    ensures Shared(cfg, mcps[i].name) in JobActs(cfg, mcps) && StandaloneActs(cfg, mcps[i])[1] in JobActs(cfg, mcps)
  {
    StandaloneHas(cfg, mcps, i);
    assert Shared(cfg, mcps[i].name) in ToolboxActs(cfg) || Shared(cfg, mcps[i].name) in AdminHostActs(cfg);
  }

  lemma HeldNames(rows: Rows, a: Op, b: Op)
    requires Holds(rows, a) && Holds(rows, b) && a.EnsureClient? && b.EnsureClient? && a.clientId == b.clientId
    ensures a.client.name == b.client.name
  {}

  // An MCP called admin or toolbox shares its host client with the Job's own, under another name: no rows hold what
  // both declare, so every later run changes them again.
  lemma ReservedNeverHeld(cfg: Config, mcps: seq<Mcp>, t: State, i: nat)
    requires i < |mcps| && (mcps[i].name == "admin" || mcps[i].name == "toolbox")
    ensures !Settled(t, JobActs(cfg, mcps))
  {
    SharedClash(cfg, mcps[i]);
    SharedDeclared(cfg, mcps, i);
    hide Holds, JobActs, Shared, StandaloneActs;
    var a, b := Shared(cfg, mcps[i].name), StandaloneActs(cfg, mcps[i])[1];
    if Settled(t, JobActs(cfg, mcps)) {
      HeldNames(t.id.rows, a.op, b.op);
    }
  }

  // So a whole run of the Job ends without a throw and with every row it declares there as declared if and only if no
  // MCP it serves alone has such a name and ID would make every declared row it lacks: no row removed since its key was
  // used, and no identifier of a row removed.
  lemma JobSettlesIff(s: State, cfg: Config, mcps: seq<Mcp>)
    requires Apart(cfg, mcps)
    ensures var acts := JobActs(cfg, mcps);
            Settled(Registered(s, acts), acts) <==> Unreserved(mcps) && AllClear(s.id, acts)
  {
    var acts := JobActs(cfg, mcps);
    if Unreserved(mcps) {
      JobSound(cfg, mcps, s.store.Keys);
      hide JobActs;
      SettlesIff(s, acts);
    } else {
      var i :| 0 <= i < |mcps| && (mcps[i].name == "admin" || mcps[i].name == "toolbox");
      ReservedNeverHeld(cfg, mcps, Registered(s, acts), i);
    }
  }

  lemma CapabilityOnce(cfg: Config, mcps: seq<Mcp>, acts: seq<Act>, k: nat, stored: set<string>)
    requires AllFromJob(cfg, mcps, acts) && k < |OpsOf(acts, stored)| && OpsOf(acts, stored)[k].EnsureCapability?
    ensures var ops := OpsOf(acts, stored);
            forall j :: 0 <= j < |ops| ==>
              SameKeys(ops[k], ops[j]) && (RowOf(ops[j]) == RowOf(ops[k]) ==> ops[j] == ops[k])
  {
    var ops := OpsOf(acts, stored);
    OpFromJob(cfg, mcps, acts, k, stored);
    forall j | 0 <= j < |ops|
      ensures SameKeys(ops[k], ops[j]) && (RowOf(ops[j]) == RowOf(ops[k]) ==> ops[j] == ops[k])
    {
      OpFromJob(cfg, mcps, acts, j, stored);
      if ops[j].EnsureCapability? {
        CapabilitiesAgree(cfg, mcps, ops[k], ops[j]);
      }
    }
  }

  lemma JobReceipt(s: State, cfg: Config, mcps: seq<Mcp>, i: nat)
    requires Apart(cfg, mcps) && Unreserved(mcps)
    requires var acts := JobActs(cfg, mcps);
             && i < |acts| && acts[i].Ensure? && acts[i].op.EnsureCapability? && !Registered(s, acts).id.threw
             && acts[i].op.slot !in s.id.rows.capabilities && KeyOf(acts[i].op) !in s.id.receipts
    ensures var acts := JobActs(cfg, mcps); var done := Registered(s, acts).id; var op := acts[i].op;
            && AllFound(done, OpsOf(acts, s.store.Keys))
            && KeyOf(op) in done.receipts && done.receipts[KeyOf(op)] == op
  {
    JobSound(cfg, mcps, s.store.Keys);
    JobFromJob(cfg, mcps);
    hide JobActs, Apart, FromJob, Unreserved;
    var acts, stored := JobActs(cfg, mcps), s.store.Keys;
    var w, ops, op := Again(s.id), OpsOf(acts, stored), acts[i].op;
    RunIs(s, acts);
    RunFinds(w, ops);
    var k := ActsAreOps(acts, i, stored);
    CapabilityOnce(cfg, mcps, acts, k, stored);
    ReceiptIs(w, ops, op);
  }

  // A capability the Job made and staff then removed: the next run makes nothing, changes nothing and throws nothing,
  // and the capability is not there.
  lemma JobRemovedFound(s: State, cfg: Config, mcps: seq<Mcp>, i: nat)
    requires Apart(cfg, mcps) && Unreserved(mcps)
    requires var acts := JobActs(cfg, mcps);
             && i < |acts| && acts[i].Ensure? && acts[i].op.EnsureCapability? && !Registered(s, acts).id.threw
             && acts[i].op.slot !in s.id.rows.capabilities && KeyOf(acts[i].op) !in s.id.receipts
    ensures var acts := JobActs(cfg, mcps); var done := Registered(s, acts);
            var removed := done.(id := Without(done.id, acts[i].op.slot)); var again := Registered(removed, acts);
            && !again.id.threw && again.tally.made == 0 && again.tally.changed == 0
            && again.id == removed.id && acts[i].op.slot !in again.id.rows.capabilities && !Settled(again, acts)
  {
    JobReceipt(s, cfg, mcps, i);
    JobSound(cfg, mcps, s.store.Keys);
    JobFromJob(cfg, mcps);
    JobPuts(cfg, mcps);
    hide JobActs, Apart, FromJob, Unreserved, OutcomeOf;
    var acts, stored := JobActs(cfg, mcps), s.store.Keys;
    var ops, done, op := OpsOf(acts, stored), Registered(s, acts), acts[i].op;
    var removed := done.(id := Without(done.id, op.slot));
    var k := ActsAreOps(acts, i, stored);
    CapabilityOnce(cfg, mcps, acts, k, stored);
    RemovedIsFound(done.id, ops, k);
    forall c | Rotate(c) in acts
      ensures c in removed.store
    {
      SecretsStored(Anew(s), acts, c);
    }
    Quiet(removed, acts, stored);
  }
}
