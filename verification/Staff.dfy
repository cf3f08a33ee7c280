// Who is staff (mcps/admin/src/staff.ts:28-128, roles.ts:7-17): what a preview of giving or taking a role says, against
// what Answerable ID computes once the change is committed (apps/id/src/db/queries/access.ts:72-169,
// effective.ts:11-58).
module Staff {
  import opened Options
  import opened Differences

  // ---------- Roles ----------

  datatype Role = Team | Admin | Owner

  function GrantString(role: Role): string {
    match role
    case Team => "answerable-team"
    case Admin => "answerable-admin"
    case Owner => "answerable-owner"
  }

  // The highest role the scopes confer: the others are strings like any other.
  function RoleOf(scopes: seq<string>): Option<Role> {
    if GrantString(Owner) in scopes then Some(Owner)
    else if GrantString(Admin) in scopes then Some(Admin)
    else if GrantString(Team) in scopes then Some(Team)
    else None
  }

  function Rank(role: Option<Role>): int {
    match role
    case None => -1
    case Some(Team) => 0
    case Some(Admin) => 1
    case Some(Owner) => 2
  }

  // ---------- ID's rows ----------

  datatype Window = Window(from: Option<int>, until: Option<int>)

  predicate InForce(w: Window, now: int) {
    (w.from.Some? ==> w.from.value <= now) && (w.until.Some? ==> now < w.until.value)
  }

  // An entitlement is one member's, a group's or the organisation's.
  datatype Principal = Everyone | OfGroup(group: string) | OfMember(member: string)
  datatype Entitlement = Entitlement(
    id: string, principal: Principal, client: Option<string>, resource: Option<string>, scopes: seq<string>,
        active: bool, window: Window)

  datatype Member = Member(user: string, effective: bool)

  // The platform organisation: its live rows, a group by whether it is active, an assignment by its group and member.
  datatype Directory = Directory(
    entitlements: seq<Entitlement>, groups: map<string, bool>, assignments: map<(string, string), Window>,
        members: map<string, Member>)

  // ID's constraints: an entitlement's id and its principal with its target are its own, and its group is there.
  ghost predicate Valid(d: Directory) {
    && (forall e :: e in d.entitlements && e.principal.OfGroup? ==> e.principal.group in d.groups)
    && forall e, f :: e in d.entitlements && f in d.entitlements && (e.id == f.id || SameTarget(e, f)) ==> e == f
  }

  predicate SameTarget(e: Entitlement, f: Entitlement) {
    e.principal == f.principal && e.client == f.client && e.resource == f.resource
  }

  predicate Belongs(d: Directory, now: int, group: string, member: string) {
    group in d.groups && d.groups[group] && (group, member) in d.assignments
    && InForce(d.assignments[(group, member)], now)
  }

  // ID counts the entitlement towards the member's access.
  predicate Matches(d: Directory, now: int, member: string, e: Entitlement) {
    && e.active && InForce(e.window, now)
    && match e.principal
       case Everyone => true
       case OfMember(other) => other == member
       case OfGroup(group) => Belongs(d, now, group, member)
  }

  // On the resource itself, for every client.
  predicate On(e: Entitlement, resource: string) {
    e.client.None? && e.resource == Some(resource)
  }

  predicate Source(d: Directory, now: int, member: string, resource: string, e: Entitlement) {
    member in d.members && d.members[member].effective && On(e, resource) && Matches(d, now, member, e)
  }

  // The sources of the target that is the resource alone, in the access view of a member.
  function SourcesIn(d: Directory, now: int, member: string, resource: string, es: seq<Entitlement>): seq<Entitlement> {
    if es == [] then []
    else
      (if Source(d, now, member, resource, es[0]) then [es[0]] else [])
      + SourcesIn(d, now, member, resource, es[1..])
  }

  function Sources(d: Directory, now: int, member: string, resource: string): seq<Entitlement> {
    SourcesIn(d, now, member, resource, d.entitlements)
  }

  function ScopesOf(es: seq<Entitlement>): seq<string> {
    if es == [] then [] else es[0].scopes + ScopesOf(es[1..])
  }

  // The scopes the access view gives the member on the resource: unique and sorted.
  function Held(d: Directory, now: int, member: string, resource: string): seq<string> {
    Sorted(ScopesOf(Sources(d, now, member, resource)))
  }

  function RoleAt(d: Directory, now: int, member: string, resource: string): Option<Role> {
    RoleOf(Held(d, now, member, resource))
  }

  // ---------- What is held ----------

  lemma {:induction false} SourcesAre(d: Directory, now: int, member: string, resource: string, es: seq<Entitlement>,
      e: Entitlement)
    ensures e in SourcesIn(d, now, member, resource, es) <==> e in es && Source(d, now, member, resource, e)
  {
    hide Source;
    if es != [] {
      SourcesAre(d, now, member, resource, es[1..], e);
      assert es == [es[0]] + es[1..];
    }
  }

  ghost predicate Gives(es: seq<Entitlement>, scope: string) {
    exists e :: e in es && scope in e.scopes
  }

  lemma {:induction false} ScopesAre(es: seq<Entitlement>, scope: string)
    ensures scope in ScopesOf(es) <==> Gives(es, scope)
  {
    if es != [] {
      ScopesAre(es[1..], scope);
      assert es == [es[0]] + es[1..];
      if scope in es[0].scopes {
        assert es[0] in es;
      }
    }
  }

  // A scope is held exactly through a source that has it.
  lemma HeldIs(d: Directory, now: int, member: string, resource: string, scope: string)
    ensures scope in Held(d, now, member, resource) <==> Gives(Sources(d, now, member, resource), scope)
  {
    var all := ScopesOf(Sources(d, now, member, resource));
    SortedAscends(all);
    assert scope in Members(all) <==> scope in all;
    assert scope in Members(Sorted(all)) <==> scope in Sorted(all);
    ScopesAre(Sources(d, now, member, resource), scope);
  }

  lemma HeldThrough(d: Directory, now: int, member: string, resource: string, scope: string)
    ensures scope in Held(d, now, member, resource)
       <==> exists e :: e in d.entitlements && Source(d, now, member, resource, e) && scope in e.scopes
  {
    HeldIs(d, now, member, resource, scope);
    forall e
      ensures e in Sources(d, now, member, resource) <==> e in d.entitlements && Source(d, now, member, resource, e)
    {
      SourcesAre(d, now, member, resource, d.entitlements, e);
    }
  }

  ghost predicate Confers(d: Directory, now: int, member: string, resource: string, scope: string) {
    exists e :: e in d.entitlements && Source(d, now, member, resource, e) && scope in e.scopes
  }

  // A member's role is the highest whose string some entitlement gives them; every other string gives none.
  lemma RoleIs(d: Directory, now: int, member: string, resource: string)
    ensures var role := RoleAt(d, now, member, resource);
            var owner := Confers(d, now, member, resource, "answerable-owner");
            var admin := Confers(d, now, member, resource, "answerable-admin");
            var team := Confers(d, now, member, resource, "answerable-team");
            && (role == Some(Owner) <==> owner)
            && (role == Some(Admin) <==> !owner && admin)
            && (role == Some(Team) <==> !owner && !admin && team)
            && (role == None <==> !owner && !admin && !team)
  {
    HeldThrough(d, now, member, resource, "answerable-owner");
    HeldThrough(d, now, member, resource, "answerable-admin");
    HeldThrough(d, now, member, resource, "answerable-team");
    hide Held, Source;
  }

  lemma SameRole(a: seq<string>, b: seq<string>)
    requires forall role :: GrantString(role) in a <==> GrantString(role) in b
    ensures RoleOf(a) == RoleOf(b)
  {
  }

  // ---------- `staff.revoke` ----------

  datatype Kind = OrganisationKind | GroupKind | MemberKind
  datatype Via = Via(entitlement: string, kind: Kind, group: Option<string>)

  function ViaOf(e: Entitlement): Via {
    match e.principal
    case Everyone => Via(e.id, OrganisationKind, None)
    case OfGroup(group) => Via(e.id, GroupKind, Some(group))
    case OfMember(_) => Via(e.id, MemberKind, None)
  }

  function ViasOf(es: seq<Entitlement>): seq<Via> {
    if es == [] then [] else [ViaOf(es[0])] + ViasOf(es[1..])
  }

  // The organisation's role entitlements: on the resource, active, for every client, whatever their window.
  function RoleEntitlements(es: seq<Entitlement>, resource: string): seq<Entitlement> {
    if es == [] then []
    else (if On(es[0], resource) && es[0].active then [es[0]] else []) + RoleEntitlements(es[1..], resource)
  }

  // `entitlements.get(id)?.scopes ?? []`
  function ScopesIn(rows: seq<Entitlement>, id: string): seq<string> {
    if rows == [] then [] else if rows[0].id == id then rows[0].scopes else ScopesIn(rows[1..], id)
  }

  function Conferring(rows: seq<Entitlement>, vias: seq<Via>, scope: string): seq<Via> {
    if vias == [] then []
    else (if scope in ScopesIn(rows, vias[0].entitlement) then [vias[0]] else []) + Conferring(rows, vias[1..], scope)
  }

  function GroupsOf(vias: seq<Via>): seq<string> {
    if vias == [] then []
    else (if vias[0].kind.GroupKind? && vias[0].group.Some? then [vias[0].group.value] else []) + GroupsOf(vias[1..])
  }

  function Remaining(rows: seq<Entitlement>, vias: seq<Via>, leaving: seq<string>): seq<string> {
    if vias == [] then []
    else
      var through := vias[0].kind.GroupKind? && vias[0].group.Some? && vias[0].group.value in leaving;
      (if through then [] else ScopesIn(rows, vias[0].entitlement)) + Remaining(rows, vias[1..], leaving)
  }

  // ID after the member left the groups, in turn.
  function Removed(d: Directory, groups: seq<string>, member: string): Directory {
    if groups == [] then d
    else
      var before := Removed(d, groups[..|groups| - 1], member);
      before.(assignments := before.assignments - {(groups[|groups| - 1], member)})
  }

  lemma {:induction false} RemovedIs(d: Directory, groups: seq<string>, member: string)
    ensures var after := Removed(d, groups, member);
            && after.entitlements == d.entitlements && after.groups == d.groups && after.members == d.members
            && forall key :: key in after.assignments <==> key in d.assignments && !(key.1 == member && key.0 in groups)
    ensures forall key ::
        key in Removed(d, groups, member).assignments ==>
          Removed(d, groups, member).assignments[key] == d.assignments[key]
  {
    if groups != [] {
      RemovedIs(d, groups[..|groups| - 1], member);
      assert groups == groups[..|groups| - 1] + [groups[|groups| - 1]];
    }
  }

  // What the member keeps.
  predicate Stays(e: Entitlement, groups: seq<string>) {
    e.principal.OfGroup? ==> e.principal.group !in groups
  }

  lemma SourceAfter(d: Directory, now: int, resource: string, member: string, groups: seq<string>, e: Entitlement)
    ensures Source(Removed(d, groups, member), now, member, resource, e) <==>
        Source(d, now, member, resource, e) && Stays(e, groups)
  {
    RemovedIs(d, groups, member);
  }

  lemma OtherAfter(d: Directory, now: int, resource: string, member: string, groups: seq<string>, other: string)
    requires other != member
    ensures RoleAt(Removed(d, groups, member), now, other, resource) == RoleAt(d, now, other, resource)
  {
    hide RoleOf;
    RemovedIs(d, groups, member);
    SameSources(d, Removed(d, groups, member), now, resource, other, d.entitlements);
  }

  lemma {:induction false} SameSources(d: Directory, after: Directory, now: int, resource: string, other: string,
      es: seq<Entitlement>)
    requires after.groups == d.groups && after.members == d.members
    requires forall g :: (g, other) in after.assignments <==> (g, other) in d.assignments
    requires forall g :: (g, other) in d.assignments ==> after.assignments[(g, other)] == d.assignments[(g, other)]
    ensures SourcesIn(after, now, other, resource, es) == SourcesIn(d, now, other, resource, es)
  {
    if es != [] {
      SameSources(d, after, now, resource, other, es[1..]);
    }
  }

  // ---------- The preview's lists ----------

  lemma {:induction false} RowsHave(es: seq<Entitlement>, resource: string, e: Entitlement)
    requires e in es && On(e, resource) && e.active && forall f, g :: f in es && g in es && f.id == g.id ==> f == g
    ensures ScopesIn(RoleEntitlements(es, resource), e.id) == e.scopes
  {
    var rest := es[1..];
    assert es == [es[0]] + rest;
    if es[0] != e {
      assert e in rest && es[0].id != e.id;
      RowsHave(rest, resource, e);
      var later := RoleEntitlements(rest, resource);
      assert ([es[0]] + later)[1..] == later && [] + later == later;
    }
  }

  // Each source is a row of the role entitlements.
  ghost predicate Known(rows: seq<Entitlement>, es: seq<Entitlement>) {
    forall e :: e in es ==> ScopesIn(rows, e.id) == e.scopes
  }

  lemma SourcesKnown(d: Directory, now: int, member: string, resource: string)
    requires Valid(d)
    ensures Known(RoleEntitlements(d.entitlements, resource), Sources(d, now, member, resource))
  {
    forall e | e in Sources(d, now, member, resource)
      ensures ScopesIn(RoleEntitlements(d.entitlements, resource), e.id) == e.scopes
    {
      SourcesAre(d, now, member, resource, d.entitlements, e);
      RowsHave(d.entitlements, resource, e);
    }
  }

  lemma {:induction false} RemainingIs(rows: seq<Entitlement>, es: seq<Entitlement>, leaving: seq<string>,
      scope: string)
    requires Known(rows, es)
    ensures scope in Remaining(rows, ViasOf(es), leaving) <==> exists e ::
        e in es && Stays(e, leaving) && scope in e.scopes
  {
    if es != [] {
      var rest := es[1..];
      assert es == [es[0]] + rest;
      assert Known(rows, rest);
      RemainingIs(rows, rest, leaving, scope);
      assert ViasOf(es)[1..] == ViasOf(rest);
      assert es[0] in es;
    }
  }

  lemma {:induction false} LeavingIs(rows: seq<Entitlement>, es: seq<Entitlement>, scope: string, group: string)
    requires Known(rows, es)
    ensures group in GroupsOf(Conferring(rows, ViasOf(es), scope)) <==> exists e ::
        e in es && e.principal == OfGroup(group) && scope in e.scopes
  {
    if es != [] {
      var rest := es[1..];
      assert es == [es[0]] + rest;
      assert Known(rows, rest);
      LeavingIs(rows, rest, scope, group);
      assert ViasOf(es)[1..] == ViasOf(rest) && ViasOf(es)[0] == ViaOf(es[0]);
      assert es[0] in es;
      var first := if scope in es[0].scopes then [ViaOf(es[0])] else [];
      var later := Conferring(rows, ViasOf(rest), scope);
      assert Conferring(rows, ViasOf(es), scope) == first + later;
      if first != [] {
        assert (first + later)[1..] == later;
      } else {
        assert first + later == later;
      }
    }
  }

  // ---------- The preview against what ID then computes ----------

  // The groups a revoke leaves: every group through which the member holds the role.
  function Leaving(d: Directory, now: int, member: string, resource: string, revoked: Role): seq<string> {
    Sorted(GroupsOf(Conferring(RoleEntitlements(d.entitlements, resource), ViasOf(Sources(d, now, member, resource)),
        GrantString(revoked))))
  }

  lemma LeavingAre(d: Directory, now: int, member: string, resource: string, revoked: Role, group: string)
    requires Valid(d)
    ensures group in Leaving(d, now, member, resource, revoked)
       <==> exists e ::
         e in d.entitlements && Source(d, now, member, resource, e) && e.principal == OfGroup(group)
         && GrantString(revoked) in e.scopes
  {
    var rows, es := RoleEntitlements(d.entitlements, resource), Sources(d, now, member, resource);
    SourcesKnown(d, now, member, resource);
    LeavingIs(rows, es, GrantString(revoked), group);
    var groups := GroupsOf(Conferring(rows, ViasOf(es), GrantString(revoked)));
    SortedAscends(groups);
    assert group in Members(groups) <==> group in groups;
    assert group in Members(Sorted(groups)) <==> group in Sorted(groups);
    forall e
      ensures e in es <==> e in d.entitlements && Source(d, now, member, resource, e)
    {
      SourcesAre(d, now, member, resource, d.entitlements, e);
    }
  }

  // What the preview counts as remaining is what ID gives the member once the removals are committed.
  lemma RemainingHeld(d: Directory, now: int, member: string, resource: string, leaving: seq<string>, scope: string)
    requires Valid(d)
    ensures scope in Remaining(RoleEntitlements(d.entitlements, resource), ViasOf(Sources(d, now, member, resource)),
        leaving)
       <==> scope in Held(Removed(d, leaving, member), now, member, resource)
  {
    hide Source, Remaining, RoleEntitlements, ViasOf, Held, Stays, Removed;
    var after := Removed(d, leaving, member);
    SourcesKnown(d, now, member, resource);
    RemainingIs(RoleEntitlements(d.entitlements, resource), Sources(d, now, member, resource), leaving, scope);
    HeldThrough(after, now, member, resource, scope);
    RemovedIs(d, leaving, member);
    forall e
      ensures e in d.entitlements && Source(after, now, member, resource, e) <==>
          e in Sources(d, now, member, resource) && Stays(e, leaving)
    {
      SourcesAre(d, now, member, resource, d.entitlements, e);
      SourceAfter(d, now, resource, member, leaving, e);
    }
  }

  lemma RemainingRole(d: Directory, now: int, member: string, resource: string, leaving: seq<string>)
    requires Valid(d)
    ensures RoleOf(Remaining(RoleEntitlements(d.entitlements, resource), ViasOf(Sources(d, now, member, resource)),
        leaving))
         == RoleAt(Removed(d, leaving, member), now, member, resource)
  {
    hide Remaining, Held, RoleOf;
    var remaining :=
      Remaining(RoleEntitlements(d.entitlements, resource), ViasOf(Sources(d, now, member, resource)), leaving);
    forall role
      ensures GrantString(role) in remaining <==>
          GrantString(role) in Held(Removed(d, leaving, member), now, member, resource)
    {
      RemainingHeld(d, now, member, resource, leaving, GrantString(role));
    }
    SameRole(remaining, Held(Removed(d, leaving, member), now, member, resource));
  }

  // Cut off before its last removal, a revoke has left the member the role: each group it leaves confers it.
  lemma CutRevokeKeepsRole(d: Directory, now: int, member: string, resource: string, revoked: Role, n: nat)
    requires Valid(d) && n < |Leaving(d, now, member, resource, revoked)|
    ensures GrantString(revoked) in Held(Removed(d, Leaving(d, now, member, resource, revoked)[..n], member), now,
        member, resource)
  {
    var leaving := Leaving(d, now, member, resource, revoked);
    hide Leaving, Source, Held, GrantString;
    LeavingAre(d, now, member, resource, revoked, leaving[n]);
    var e :| e in d.entitlements && Source(d, now, member, resource, e) && e.principal == OfGroup(leaving[n])
        && GrantString(revoked) in e.scopes;
    LeavingDistinct(d, now, member, resource, revoked, n);
    SourceAfter(d, now, resource, member, leaving[..n], e);
    RemovedIs(d, leaving[..n], member);
    HeldThrough(Removed(d, leaving[..n], member), now, member, resource, GrantString(revoked));
  }

  lemma {:induction false} AscendingApart(s: seq<string>, n: nat)
    requires Ascending(s) && n < |s|
    ensures s[n] !in s[..n]
  {
    if n > 0 {
      AscendingApart(s[1..], n - 1);
      assert s[n] == s[1..][n - 1] && s[..n] == [s[0]] + s[1..][..n - 1];
      FirstIsLeast(s[1..], s[n]);
      LessTotal(s[0], s[0]);
      if s[n] != s[1] {
        LessTransitive(s[0], s[1], s[n]);
      }
    }
  }

  lemma LeavingDistinct(d: Directory, now: int, member: string, resource: string, revoked: Role, n: nat)
    requires n < |Leaving(d, now, member, resource, revoked)|
    ensures Leaving(d, now, member, resource, revoked)[n] !in Leaving(d, now, member, resource, revoked)[..n]
  {
    SortedAscends(GroupsOf(Conferring(RoleEntitlements(d.entitlements, resource),
        ViasOf(Sources(d, now, member, resource)), GrantString(revoked))));
    AscendingApart(Leaving(d, now, member, resource, revoked), n);
  }

  // ---------- The operations ----------

  datatype Warning = NoOtherOwner | OwnRole | StillHolds | NoPrecondition | NotAtomic
  datatype Revocation = NoMember | DoesNotHold | NotThroughGroup(first: Via) | Revoke(from: Option<Role>,
      to: Option<Role>, groups: seq<string>, warnings: seq<Warning>)

  predicate IsOwner(d: Directory, now: int, member: string, resource: string) {
    RoleAt(d, now, member, resource) == Some(Owner)
  }

  predicate SomeOwner(d: Directory, now: int, resource: string) {
    exists other :: other in d.members && IsOwner(d, now, other, resource)
  }

  // In the list of everyone assigned the resource, another member with the owner role.
  predicate OtherOwner(d: Directory, now: int, member: string, resource: string) {
    exists other :: other in d.members && other != member && IsOwner(d, now, other, resource)
  }

  ghost predicate OnlyOtherwise(d: Directory, now: int, member: string, resource: string, scope: string) {
    forall e ::
      e in d.entitlements && Source(d, now, member, resource, e) && scope in e.scopes ==> !e.principal.OfGroup?
  }

  lemma NoneLeaving(d: Directory, now: int, member: string, resource: string, revoked: Role)
    requires Valid(d)
    ensures Leaving(d, now, member, resource, revoked) == [] <==>
        OnlyOtherwise(d, now, member, resource, GrantString(revoked))
  {
    hide Source, Leaving, GrantString;
    var leaving := Leaving(d, now, member, resource, revoked);
    if leaving != [] {
      LeavingAre(d, now, member, resource, revoked, leaving[0]);
    }
    forall e | e in d.entitlements && Source(d, now, member, resource, e) && GrantString(revoked) in e.scopes
        && e.principal.OfGroup?
      ensures leaving != []
    {
      LeavingAre(d, now, member, resource, revoked, e.principal.group);
    }
  }

  predicate FirstGiving(es: seq<Entitlement>, k: nat, scope: string)
    requires k < |es|
  {
    scope in es[k].scopes && forall j :: 0 <= j < k ==> scope !in es[j].scopes
  }

  // Some source confers a role that is held; the first that does is the first of the list.
  lemma {:induction false} SomeConfers(rows: seq<Entitlement>, es: seq<Entitlement>, scope: string) returns (k: nat)
    requires Known(rows, es) && Gives(es, scope)
    ensures k < |es| && FirstGiving(es, k, scope)
    ensures Conferring(rows, ViasOf(es), scope) != [] && ViaOf(es[k]) == Conferring(rows, ViasOf(es), scope)[0]
  {
    var rest := es[1..];
    assert es == [es[0]] + rest && es[0] in es;
    assert ViasOf(es)[0] == ViaOf(es[0]) && ViasOf(es)[1..] == ViasOf(rest);
    if scope !in es[0].scopes {
      var later := Conferring(rows, ViasOf(rest), scope);
      assert [] + later == later;
      var e :| e in es && scope in e.scopes;
      assert e in rest;
      var j := SomeConfers(rows, rest, scope);
      k := j + 1;
    } else {
      assert Conferring(rows, ViasOf(es), scope)[0] == ViaOf(es[0]);
      k := 0;
    }
  }

  // An owner is left out of the warning only when there is one after the removals.
  lemma OwnersAfter(d: Directory, now: int, resource: string, member: string, groups: seq<string>)
    ensures SomeOwner(Removed(d, groups, member), now, resource)
       <==> (IsOwner(Removed(d, groups, member), now, member, resource) || OtherOwner(d, now, member, resource))
  {
    hide RoleAt, Removed;
    forall other | other != member
      ensures IsOwner(Removed(d, groups, member), now, other, resource) == IsOwner(d, now, other, resource)
    {
      OtherAfter(d, now, resource, member, groups, other);
    }
    RemovedIs(d, groups, member);
    if IsOwner(Removed(d, groups, member), now, member, resource) {
      OwnersAreMembers(Removed(d, groups, member), now, member, resource);
    }
  }

  lemma OwnersAreMembers(d: Directory, now: int, member: string, resource: string)
    requires IsOwner(d, now, member, resource)
    ensures member in d.members
  {
    HeldByMembers(d, now, member, resource, GrantString(Owner));
  }

  lemma HeldByMembers(d: Directory, now: int, member: string, resource: string, scope: string)
    ensures scope in Held(d, now, member, resource) ==> member in d.members
  {
    HeldThrough(d, now, member, resource, scope);
  }

  lemma GroupFirst(vias: seq<Via>)
    requires vias != [] && vias[0].kind.GroupKind? && vias[0].group.Some?
    ensures Sorted(GroupsOf(vias)) != []
  {
    SortedAscends(GroupsOf(vias));
    assert GroupsOf(vias)[0] in Members(GroupsOf(vias));
  }

  // What the owner is told, in this order; that no precondition guards a removal, always.
  function WarningsOf(noOtherOwner: bool, ownRole: bool, stillHolds: bool, several: bool): seq<Warning> {
    (if noOtherOwner then [NoOtherOwner] else []) + (if ownRole then [OwnRole] else [])
    + (if stillHolds then [StillHolds] else []) + [NoPrecondition] + if several then [NotAtomic] else []
  }

  // `staff.revoke`'s preview. Each thing it says of what remains is true of ID's rows once the member has left the
  // groups.
  method PrepareRevoke(d: Directory, now: int, resource: string, caller: string, member: string,
      revoked: Role) returns (r: Revocation)
    requires Valid(d)
    ensures r.NoMember? <==> member !in d.members
    ensures r.DoesNotHold? <==> member in d.members && GrantString(revoked) !in Held(d, now, member, resource)
    ensures r.NotThroughGroup? <==>
        GrantString(revoked) in Held(d, now, member, resource)
        && OnlyOtherwise(d, now, member, resource, GrantString(revoked))
    ensures r.NotThroughGroup? ==>
        r.first.kind != GroupKind && var es := Sources(d, now, member, resource);
                                     exists k ::
                                       0 <= k < |es| && FirstGiving(es, k, GrantString(revoked))
                                       && ViaOf(es[k]) == r.first
    ensures r.Revoke? ==>
        && r.groups == Leaving(d, now, member, resource, revoked) && r.from == RoleAt(d, now, member, resource)
                          && var after := Removed(d, r.groups, member);
                             && r.to == RoleAt(after, now, member, resource)
                             && r.warnings == WarningsOf(
                               revoked.Owner? && !SomeOwner(after, now, resource), d.members[member].user == caller,
                               GrantString(revoked) in Held(after, now, member, resource), |r.groups| > 1)
  {
    hide Source, SourcesIn, Sources, Held, Removed, RoleOf, GrantString, ViasOf, RoleEntitlements, Conferring, GroupsOf,
        Sorted, Remaining, OnlyOtherwise, Valid, OtherOwner, SomeOwner;
    HeldByMembers(d, now, member, resource, GrantString(revoked));
    if member !in d.members {
      return NoMember;
    }
    var held := Held(d, now, member, resource);
    HeldIs(d, now, member, resource, GrantString(revoked));
    if GrantString(revoked) !in held {
      return DoesNotHold;
    }
    var vias := ViasOf(Sources(d, now, member, resource));
    var rows := RoleEntitlements(d.entitlements, resource);
    var conferring := Conferring(rows, vias, GrantString(revoked));
    var leaving := Sorted(GroupsOf(conferring));
    NoneLeaving(d, now, member, resource, revoked);
    if leaving == [] {
      SourcesKnown(d, now, member, resource);
      var k := SomeConfers(rows, Sources(d, now, member, resource), GrantString(revoked));
      if conferring[0].kind.GroupKind? {
        GroupFirst(conferring);
      }
      return NotThroughGroup(conferring[0]);
    }
    var remaining := Remaining(rows, vias, leaving);
    RemainingRole(d, now, member, resource, leaving);
    RemainingHeld(d, now, member, resource, leaving, GrantString(revoked));
    OwnersAfter(d, now, resource, member, leaving);
    var to := RoleOf(remaining);
    var warnings := [NoPrecondition];
    if GrantString(revoked) in remaining {
      warnings := [StillHolds] + warnings;
    }
    if d.members[member].user == caller {
      warnings := [OwnRole] + warnings;
    }
    if revoked.Owner? && to != Some(Owner) {
      if !OtherOwner(d, now, member, resource) {
        warnings := [NoOtherOwner] + warnings;
      }
    }
    if |leaving| > 1 {
      warnings := warnings + [NotAtomic];
    }
    return Revoke(RoleOf(held), to, leaving, warnings);
  }

  // ---------- `staff.grant` ----------

  datatype Grant = Unknown | NotEffective | AlreadyHolds | NoGroup | Join(entitlement: Entitlement, from: Option<Role>,
      to: Option<Role>)

  // A role entitlement of an active group, conferring the role.
  predicate Candidate(d: Directory, resource: string, granted: Role, e: Entitlement) {
    && e in d.entitlements && On(e, resource) && e.active && e.principal.OfGroup? && GrantString(granted) in e.scopes
    && e.principal.group in d.groups && d.groups[e.principal.group]
  }

  // The one that confers the least beyond the role, then the oldest group's.
  predicate Before(a: Entitlement, b: Entitlement)
    requires a.principal.OfGroup? && b.principal.OfGroup?
  {
    Rank(RoleOf(a.scopes)) < Rank(RoleOf(b.scopes))
    || (Rank(RoleOf(a.scopes)) == Rank(RoleOf(b.scopes)) && Less(a.principal.group, b.principal.group))
  }

  lemma BeforeTransitive(a: Entitlement, b: Entitlement, c: Entitlement)
    requires a.principal.OfGroup? && b.principal.OfGroup? && c.principal.OfGroup? && Before(a, b) && Before(b, c)
    ensures Before(a, c)
  {
    hide RoleOf, Rank;
    if Less(a.principal.group, b.principal.group) && Less(b.principal.group, c.principal.group) {
      LessTransitive(a.principal.group, b.principal.group, c.principal.group);
    }
  }

  lemma BeforeTotal(a: Entitlement, b: Entitlement)
    requires a.principal.OfGroup? && b.principal.OfGroup?
    ensures a.principal.group == b.principal.group || Before(a, b) || Before(b, a)
  {
    hide RoleOf, Rank;
    LessTotal(a.principal.group, b.principal.group);
  }

  ghost predicate Best(d: Directory, resource: string, granted: Role, es: seq<Entitlement>, best: Option<Entitlement>) {
    && (best.None? ==> forall e :: e in es ==> !Candidate(d, resource, granted, e))
    && (best.Some? ==> && best.value in es && Candidate(d, resource, granted, best.value)
                       && forall e ::
                         e in es && Candidate(d, resource, granted, e) ==> e == best.value || Before(best.value, e))
  }

  lemma BestStep(d: Directory, resource: string, granted: Role, es: seq<Entitlement>, best: Option<Entitlement>,
      e: Entitlement)
    requires Valid(d) && Best(d, resource, granted, es, best)
    ensures Best(d, resource, granted, es + [e],
      if Candidate(d, resource, granted, e) && (best.None? || Before(e, best.value)) then Some(e) else best)
  {
    hide Before;
    if Candidate(d, resource, granted, e) && best.Some? {
      BeforeTotal(e, best.value);
      if Before(e, best.value) {
        forall f | f in es && Candidate(d, resource, granted, f)
          ensures Before(e, f)
        {
          if f != best.value {
            BeforeTransitive(e, best.value, f);
          }
        }
      } else if e.principal == best.value.principal {
        assert SameTarget(e, best.value);
      }
    }
  }

  method PrepareGrant(d: Directory, now: int, resource: string, member: string, granted: Role) returns (r: Grant)
    requires Valid(d)
    ensures r.Unknown? <==> member !in d.members
    ensures r.NotEffective? <==> member in d.members && !d.members[member].effective
    ensures r.AlreadyHolds? <==>
        member in d.members && d.members[member].effective && GrantString(granted) in Held(d, now, member, resource)
    ensures r.NoGroup? ==> forall e :: e in d.entitlements ==> !Candidate(d, resource, granted, e)
    ensures r.Join? ==>
        && Best(d, resource, granted, d.entitlements, Some(r.entitlement)) && r.from == RoleAt(d, now, member, resource)
                        && r.to == RoleOf(Held(d, now, member, resource) + r.entitlement.scopes)
  {
    hide Held, Before, Valid, GrantString, RoleOf;
    if member !in d.members {
      return Unknown;
    } else if !d.members[member].effective {
      return NotEffective;
    }
    var held := Held(d, now, member, resource);
    if GrantString(granted) in held {
      return AlreadyHolds;
    }
    var best := None;
    for i := 0 to |d.entitlements|
      invariant Best(d, resource, granted, d.entitlements[..i], best)
    {
      var e := d.entitlements[i];
      BestStep(d, resource, granted, d.entitlements[..i], best, e);
      assert d.entitlements[..i + 1] == d.entitlements[..i] + [e];
      if Candidate(d, resource, granted, e) && (best.None? || Before(e, best.value)) {
        best := Some(e);
      }
    }
    assert d.entitlements[..|d.entitlements|] == d.entitlements;
    if best.None? {
      return NoGroup;
    }
    return Join(best.value, RoleOf(held), RoleOf(held + best.value.scopes));
  }

  // ID after the write, which it refuses when the assignment exists already.
  function Joined(d: Directory, group: string, member: string): Directory {
    d.(assignments := d.assignments[(group, member) := Window(None, None)])
  }

  lemma SourceJoined(d: Directory, now: int, resource: string, granted: Role, member: string, chosen: Entitlement,
      e: Entitlement)
    requires Valid(d) && member in d.members && d.members[member].effective && Candidate(d, resource, granted, chosen)
    requires (chosen.principal.group, member) !in d.assignments && e in d.entitlements
    ensures Source(Joined(d, chosen.principal.group, member), now, member, resource, e)
       <==> (Source(d, now, member, resource, e) || (e == chosen && InForce(chosen.window, now)))
  {
    if On(e, resource) && e.principal == chosen.principal {
      assert SameTarget(e, chosen);
    }
  }

  lemma HeldJoined(d: Directory, now: int, resource: string, granted: Role, member: string, chosen: Entitlement,
      scope: string)
    requires Valid(d) && member in d.members && d.members[member].effective && Candidate(d, resource, granted, chosen)
    requires (chosen.principal.group, member) !in d.assignments
    ensures scope in Held(Joined(d, chosen.principal.group, member), now, member, resource)
       <==> (scope in Held(d, now, member, resource) || (InForce(chosen.window, now) && scope in chosen.scopes))
  {
    hide Source, Held, InForce, Valid;
    var after := Joined(d, chosen.principal.group, member);
    HeldThrough(d, now, member, resource, scope);
    HeldThrough(after, now, member, resource, scope);
    forall e | e in d.entitlements
      ensures Source(after, now, member, resource, e) <==>
          (Source(d, now, member, resource, e) || (e == chosen && InForce(chosen.window, now)))
    {
      SourceJoined(d, now, resource, granted, member, chosen, e);
    }
    assert chosen in d.entitlements;
  }

  lemma RankOfBoth(a: seq<string>, b: seq<string>)
    ensures Rank(RoleOf(a + b)) == if Rank(RoleOf(a)) > Rank(RoleOf(b)) then Rank(RoleOf(a)) else Rank(RoleOf(b))
  {
    assert forall role :: GrantString(role) in a + b <==> GrantString(role) in a || GrantString(role) in b;
  }

  lemma RankTells(a: Option<Role>, b: Option<Role>)
    ensures Rank(a) == Rank(b) <==> a == b
  {
  }

  // The role a grant's preview promises is the one ID then gives exactly when the group's entitlement is in its window,
  // or confers no more than the member has: the preview does not read the window.
  lemma GrantPreviewIff(d: Directory, now: int, resource: string, granted: Role, member: string, chosen: Entitlement)
    requires Valid(d) && member in d.members && d.members[member].effective && Candidate(d, resource, granted, chosen)
    requires (chosen.principal.group, member) !in d.assignments
    ensures RoleAt(Joined(d, chosen.principal.group, member), now, member, resource)
        == RoleOf(Held(d, now, member, resource) + chosen.scopes)
       <==> (InForce(chosen.window, now) || Rank(RoleOf(chosen.scopes)) <= Rank(RoleAt(d, now, member, resource)))
  {
    hide Held, Joined, InForce, Valid, GrantString, RoleOf, Rank;
    var before, after := Held(d, now, member, resource),
        Held(Joined(d, chosen.principal.group, member), now, member, resource);
    forall role
      ensures GrantString(role) in after <==>
          GrantString(role) in (if InForce(chosen.window, now) then before + chosen.scopes else before)
    {
      HeldJoined(d, now, resource, granted, member, chosen, GrantString(role));
    }
    SameRole(after, if InForce(chosen.window, now) then before + chosen.scopes else before);
    RankOfBoth(before, chosen.scopes);
    RankTells(RoleOf(before), RoleOf(before + chosen.scopes));
  }

  // Such a directory: the role's one group confers it until now.
  lemma GrantPreviewMisses()
    ensures var chosen := Entitlement("e", OfGroup("g"), None, Some("r"), ["answerable-owner"], true,
                Window(None, Some(0)));
            var d := Directory([chosen], map["g" := true], map[], map["m" := Member("u", true)]);
            && Valid(d) && Candidate(d, "r", Owner, chosen)
            && RoleOf(Held(d, 0, "m", "r") + chosen.scopes) == Some(Owner)
            && RoleAt(Joined(d, "g", "m"), 0, "m", "r") == None
  {
    var chosen := Entitlement("e", OfGroup("g"), None, Some("r"), ["answerable-owner"], true, Window(None, Some(0)));
    var d := Directory([chosen], map["g" := true], map[], map["m" := Member("u", true)]);
    var after := Joined(d, "g", "m");
    assert after.entitlements[1..] == [] && !InForce(chosen.window, 0);
    assert !Source(after, 0, "m", "r", chosen);
    assert Sources(after, 0, "m", "r") == SourcesIn(after, 0, "m", "r", []);
    assert Sorted(ScopesOf([])) == [];
    assert "answerable-owner" in chosen.scopes;
  }

  // ---------- The revoke's commit ----------

  class Id {
    var directory: Directory

    // One removal for each group, in turn. ID answers `answers` of them; the one it does not answer, applied or not,
    // ends the commit.
    method CommitRevoke(groups: seq<string>, member: string, answers: nat, applied: bool) returns (done: seq<string>)
      modifies this
      ensures done == groups[..if answers < |groups| then answers else |groups|]
      ensures directory == Removed(old(directory), if applied && answers < |groups| then groups[..answers + 1]
              else done, member)
    {
      done := [];
      var i := 0;
      while i < |groups|
        invariant i <= |groups| && i <= answers && done == groups[..i]
        invariant directory == Removed(old(directory), done, member)
      {
        var left := directory.(assignments := directory.assignments - {(groups[i], member)});
        assert groups[..i + 1][..i] == groups[..i];
        if i == answers {
          if applied {
            directory := left;
          }
          return;
        }
        directory := left;
        done := done + [groups[i]];
        i := i + 1;
      }
    }
  }
}
