// How a run of the bootstrap Job ends (infra/ops/src/bootstrap.ts:87-125): when it is refused, what its roles may do,
// and the URLs it stores, read off the stores alone.
module BootstrapOutcomes {
  import opened Options
  import opened SecretUrl
  import opened Bootstrap
  import opened BootstrapJob

  type Account = Bootstrap.Login

  // ---------- When a run is refused ----------

  // What a run asks of a login: no attribute that only a superuser could clear, and no Secret but a URL of its own.
  predicate Fit(s: State, login: Account) {
    && (login.name in s.roles ==> !s.roles[login.name].elevated)
    && (login.ref in s.secrets ==> PasswordIn(s.secrets[login.ref], login.name).Password?)
  }

  lemma StandingFits(s: State, t: State, login: Account)
    requires StandingOf(s, login) == StandingOf(t, login)
    ensures Fit(s, login) <==> Fit(t, login)
  {
    hide PasswordIn;
  }

  predicate Makes(act: Act, name: string) {
    act.OwnDatabase? && act.db.name == name
  }

  predicate MadeBy(acts: seq<Act>, name: string) {
    exists i :: 0 <= i < |acts| && Makes(acts[i], name)
  }

  predicate NeedsMade(act: Act) {
    act.ClosePublic? || act.GrantConnect? || act.RevokeTemporary?
  }

  // An act on a database comes after the one that makes it, and a role is set before anything else of its login.
  ghost predicate Ordered(acts: seq<Act>, n: nat)
    requires n < |acts|
  {
    && (NeedsMade(acts[n]) ==> MadeBy(acts[..n], acts[n].db.name))
    && (acts[n].SetRole? ==> NoneTouch(acts[..n], acts[n].login))
  }

  lemma {:induction false} StillThere(cfg: Config, passwords: Passwords, s: State, acts: seq<Act>, name: string)
    requires MadeBy(acts, name) && !DoAll(cfg, passwords, s, acts).threw
    ensures name in DoAll(cfg, passwords, s, acts).databases
  {
    hide Do;
    var n := |acts| - 1;
    var before, last := DoAll(cfg, passwords, s, acts[..n]), acts[n];
    DatabaseKept(cfg, passwords, before, last, name);
    if !Makes(last, name) {
      var i :| 0 <= i < |acts| && Makes(acts[i], name);
      assert acts[..n][i] == acts[i];
      StillThere(cfg, passwords, s, acts[..n], name);
    }
  }

  lemma DatabaseKept(cfg: Config, passwords: Passwords, s: State, act: Act, name: string)
    ensures var t := Do(cfg, passwords, s, act);
            (s.threw ==> t.threw) && (!t.threw && (name in s.databases || Makes(act, name)) ==> name in t.databases)
  {
    hide PasswordIn, UrlOf, Server, RuntimeNames;
  }

  lemma ActThrowsIff(cfg: Config, passwords: Passwords, s: State, act: Act)
    requires !s.threw && (NeedsMade(act) ==> act.db.name in s.databases)
    ensures Do(cfg, passwords, s, act).threw <==> act.SetRole? && !Fit(s, act.login)
  {
    hide PasswordIn, UrlOf, Server, RuntimeNames;
  }

  lemma {:induction false} ThrowsIff(cfg: Config, passwords: Passwords, s: State, acts: seq<Act>, n: nat)
    requires n <= |acts| && !s.threw && forall k :: 0 <= k < n ==> Ordered(acts, k)
    ensures !DoAll(cfg, passwords, s, acts[..n]).threw <==>
            forall k :: 0 <= k < n && acts[k].SetRole? ==> Fit(s, acts[k].login)
  {
    hide Do, Fit;
    if n > 0 {
      ThrowsIff(cfg, passwords, s, acts, n - 1);
      assert acts[..n][..n - 1] == acts[..n - 1];
      var before, last := DoAll(cfg, passwords, s, acts[..n - 1]), acts[n - 1];
      assert Ordered(acts, n - 1);
      if before.threw {
        DatabaseKept(cfg, passwords, before, last, "");
      } else {
        if NeedsMade(last) {
          StillThere(cfg, passwords, s, acts[..n - 1], last.db.name);
        }
        ActThrowsIff(cfg, passwords, before, last);
        if last.SetRole? {
          UntouchedAll(cfg, passwords, s, acts[..n - 1], last.login);
          StandingFits(s, before, last.login);
        }
      }
    }
  }

  // ---------- Where a login's acts are ----------

  lemma {:induction false} ActsAt(dbs: seq<Database>, d: nat, x: nat) returns (k: nat)
    requires d < |dbs| && x < |LoginsOf(dbs[d])|
    ensures var login := LoginsOf(dbs[d])[x];
            && k + 1 < |AllActs(dbs)| && AllActs(dbs)[k] == SetRole(login, x > 0)
            && AllActs(dbs)[k + 1] == PutSecret(login, dbs[d].name)
  {
    var db := dbs[0];
    var first := DatabaseActs(db);
    if d > 0 {
      var j := ActsAt(dbs[1..], d - 1, x);
      k := |first| + j;
    } else {
      LoginActsAre([db.owner], false, db.name);
      LoginActsAre(db.runtime, true, db.name);
      k := 2 * x;
      if x > 0 {
        var acts := LoginActs(db.runtime, true, db.name);
        assert acts[2 * (x - 1)] == SetRole(db.runtime[x - 1], true);
        assert first[k] == acts[k - 2] && first[k + 1] == acts[k - 1];
      }
    }
  }

  lemma LoginAt(dbs: seq<Database>, d: nat, x: nat) returns (i: nat)
    requires d < |dbs| && x < |LoginsOf(dbs[d])| && AllApart(Logins(dbs))
    ensures var login := LoginsOf(dbs[d])[x];
            && OnlyAt(AllActs(dbs), i, login) && AllActs(dbs)[i] == SetRole(login, x > 0)
            && AllActs(dbs)[i + 1] == PutSecret(login, dbs[d].name)
  {
    hide AllActs, Logins, LoginsOf, AllApart;
    var k := ActsAt(dbs, d, x);
    SetRolesAreLogins(dbs, k);
    var j :| 0 <= j < |Logins(dbs)| && Logins(dbs)[j] == AllActs(dbs)[k].login;
    i := AllOnlyAt(dbs, j);
    assert Touches(AllActs(dbs)[k], Logins(dbs)[j]);
  }

  lemma {:induction false} DbActsAreOf(dbs: seq<Database>, k: nat)
    requires k < |AllActs(dbs)| && NeedsMade(AllActs(dbs)[k])
    ensures AllActs(dbs)[k].db in dbs
  {
    var db := dbs[0];
    var first := DatabaseActs(db);
    if k < |first| {
      LoginActsNoDb([db.owner], false, db.name);
      LoginActsNoDb(db.runtime, true, db.name);
      assert first[k] == AllActs(dbs)[k];
    } else {
      DbActsAreOf(dbs[1..], k - |first|);
    }
  }

  predicate NamesApart(dbs: seq<Database>) {
    forall x, y :: 0 <= x < y < |dbs| ==> dbs[x].name != dbs[y].name
  }

  lemma AllOrdered(dbs: seq<Database>, k: nat)
    requires Plain(dbs) && NamesApart(dbs) && k < |AllActs(dbs)|
    ensures Ordered(AllActs(dbs), k)
  {
    hide AllActs, Logins, LoginsOf, AllApart;
    var acts := AllActs(dbs);
    if acts[k].SetRole? {
      SetRolesAreLogins(dbs, k);
      var j :| 0 <= j < |Logins(dbs)| && Logins(dbs)[j] == acts[k].login;
      var i := AllOnlyAt(dbs, j);
      assert Touches(acts[k], Logins(dbs)[j]);
    } else if NeedsMade(acts[k]) {
      DbActsAreOf(dbs, k);
      var d :| 0 <= d < |dbs| && dbs[d] == acts[k].db;
      var i := DbAt(dbs, d);
      assert acts[i..i + 4][0] == acts[i] && Makes(acts[i], dbs[d].name);
      assert i < k && acts[..k][i] == acts[i];
    }
  }

  lemma AnewFits(s: State, login: Account)
    ensures Fit(Anew(s), login) <==> Fit(s, login)
  {
  }

  // A run is refused exactly when some login is unfit before it.
  lemma CompletesIff(cfg: Config, passwords: Passwords, s: State, dbs: seq<Database>)
    requires Plain(dbs) && NamesApart(dbs)
    ensures !Run(cfg, passwords, s, AllActs(dbs)).threw <==>
            forall j :: 0 <= j < |Logins(dbs)| ==> Fit(s, Logins(dbs)[j])
  {
    hide DoAll, AllActs, Fit, NamesApart, Logins, AllApart;
    var acts := AllActs(dbs);
    forall k | 0 <= k < |acts|
      ensures Ordered(acts, k)
      ensures acts[k].SetRole? ==>
          acts[k].login in Logins(dbs) && (Fit(Anew(s), acts[k].login) <==> Fit(s, acts[k].login))
    {
      AllOrdered(dbs, k);
      if acts[k].SetRole? {
        SetRolesAreLogins(dbs, k);
        AnewFits(s, acts[k].login);
      }
    }
    ThrowsIff(cfg, passwords, Anew(s), acts, |acts|);
    assert acts[..|acts|] == acts;
    forall j | 0 <= j < |Logins(dbs)|
      ensures exists i :: 0 <= i < |acts| && acts[i].SetRole? && acts[i].login == Logins(dbs)[j]
    {
      var i := AllOnlyAt(dbs, j);
    }
  }

  // ---------- Runs that stopped ----------

  // What a run has drawn and not stored is at most what it stores.
  predicate Pending(s: State, login: Account) {
    login.name in s.unsaved && login.ref in s.secrets ==> PasswordIn(s.secrets[login.ref], login.name).Password?
  }

  lemma ActFits(cfg: Config, passwords: Passwords, s: State, act: Act, login: Account)
    requires PlainName(login.name) && Reachable(cfg) && Pending(s, login)
    requires Touches(act, login) ==> act.login == login
    ensures var t := Do(cfg, passwords, s, act); Pending(t, login) && (Fit(t, login) <==> Fit(s, login))
  {
    var t := Do(cfg, passwords, s, act);
    if !Touches(act, login) {
      hide Do, PasswordIn, UrlOf, Server, RuntimeNames;
      UntouchedStands(cfg, passwords, s, act, login);
    } else if act.PutSecret? && login.name in s.unsaved {
      ServerHost(cfg, act.database);
      PasswordReadBack(login.name, s.unsaved[login.name], Server(cfg, act.database), login.name);
      hide PasswordIn, UrlOf, Server, RuntimeNames, Ascii, Reachable;
    } else {
      hide PasswordIn, UrlOf, Server, RuntimeNames, Ascii, Reachable;
    }
  }

  lemma {:induction false} RunFits(cfg: Config, passwords: Passwords, s: State, acts: seq<Act>, login: Account)
    requires PlainName(login.name) && Reachable(cfg)
    requires forall k :: 0 <= k < |acts| && Touches(acts[k], login) ==> acts[k].login == login
    ensures var t := Run(cfg, passwords, s, acts); Pending(t, login) && (Fit(t, login) <==> Fit(s, login))
  {
    hide Do, PlainName, Reachable, PasswordIn, Touches;
    if acts != [] {
      var n := |acts| - 1;
      assert forall k :: 0 <= k < n ==> acts[..n][k] == acts[k];
      RunFits(cfg, passwords, s, acts[..n], login);
      ActFits(cfg, passwords, Run(cfg, passwords, s, acts[..n]), acts[n], login);
    }
  }

  lemma {:induction false} StoppedFits(
      cfg: Config, passwords: Passwords, s: State, acts: seq<Act>, cuts: seq<nat>, i: nat, login: Account)
    requires OnlyAt(acts, i, login) && PlainName(login.name) && Reachable(cfg)
    requires forall k :: 0 <= k < |cuts| ==> cuts[k] <= |acts|
    ensures Fit(Stopped(cfg, passwords, s, acts, cuts), login) <==> Fit(s, login)
  {
    hide Run, Fit, PlainName, Reachable, Touches;
    if cuts != [] {
      var n := |cuts| - 1;
      StoppedFits(cfg, passwords, s, acts, cuts[..n], i, login);
      assert forall k :: 0 <= k < cuts[n] ==> acts[..cuts[n]][k] == acts[k];
      RunFits(cfg, passwords, Stopped(cfg, passwords, s, acts, cuts[..n]), acts[..cuts[n]], login);
    }
  }

  // However many runs were stopped, wherever, they leave nothing the next is refused for: it completes exactly when
  // every login was fit before the first of them.
  lemma RecoversIff(cfg: Config, passwords: Passwords, s: State, dbs: seq<Database>, cuts: seq<nat>)
    requires Plain(dbs) && NamesApart(dbs) && Reachable(cfg)
    requires forall k :: 0 <= k < |cuts| ==> cuts[k] <= |AllActs(dbs)|
    ensures !Run(cfg, passwords, Stopped(cfg, passwords, s, AllActs(dbs), cuts), AllActs(dbs)).threw <==>
            forall j :: 0 <= j < |Logins(dbs)| ==> Fit(s, Logins(dbs)[j])
  {
    hide Run, Stopped, AllActs, Fit, NamesApart, Logins, AllApart, PlainName, Reachable;
    var before := Stopped(cfg, passwords, s, AllActs(dbs), cuts);
    CompletesIff(cfg, passwords, before, dbs);
    forall j | 0 <= j < |Logins(dbs)|
      ensures Fit(before, Logins(dbs)[j]) <==> Fit(s, Logins(dbs)[j])
    {
      var i := AllOnlyAt(dbs, j);
      StoppedFits(cfg, passwords, s, AllActs(dbs), cuts, i, Logins(dbs)[j]);
    }
  }

  // ---------- What a completed run leaves of one login ----------

  predicate Powerless(role: Role) {
    !role.elevated && !role.createDb && !role.createRole && !role.inherit
  }

  // A runtime login may do nothing but what it is granted by name. An owner's attributes are as they were, those of one
  // the run made as PostgreSQL makes them.
  predicate Restrained(s: State, t: State, login: Account, restricted: bool) {
    && login.name in t.roles
    && var role := t.roles[login.name];
       if restricted then Powerless(role)
       else if login.name in s.roles then
         role.createDb == s.roles[login.name].createDb && role.createRole == s.roles[login.name].createRole
         && role.inherit == s.roles[login.name].inherit
       else !role.createDb && !role.createRole && role.inherit
  }

  // A Secret that was empty holds the URL of its login: the role's own password, the server and the login's database.
  predicate Addressed(cfg: Config, s: State, t: State, login: Account, database: string) {
    login.ref !in s.secrets ==>
      && login.ref in t.secrets && login.name in t.roles && Ascii(t.roles[login.name].password)
      && t.secrets[login.ref]
         == "postgres://" + login.name + ":" + Encode(t.roles[login.name].password) + "@" + cfg.address + ":" + cfg.port
            + "/" + database + "?sslmode=verify-full&sslrootcert=" + cfg.certificate
  }

  lemma UrlIs(cfg: Config, name: string, password: string, database: string)
    requires Ascii(password)
    ensures UrlOf(name, password, Server(cfg, database))
         == "postgres://" + name + ":" + Encode(password) + "@" + cfg.address + ":" + cfg.port
            + "/" + database + "?sslmode=verify-full&sslrootcert=" + cfg.certificate
  {
  }

  lemma SetRoleLeaves(cfg: Config, passwords: Passwords, s: State, login: Account, restricted: bool)
    requires login.name !in s.unsaved && !Do(cfg, passwords, s, SetRole(login, restricted)).threw
    ensures Restrained(s, Do(cfg, passwords, s, SetRole(login, restricted)), login, restricted)
  {
    hide PasswordIn, Ascii;
  }

  lemma PairLeaves(cfg: Config, passwords: Passwords, s: State, login: Account, restricted: bool, database: string)
    requires login.name !in s.unsaved
    ensures var t := Do(cfg, passwords, Do(cfg, passwords, s, SetRole(login, restricted)), PutSecret(login, database));
            !t.threw ==> Restrained(s, t, login, restricted) && Addressed(cfg, s, t, login, database)
  {
    var mid := Do(cfg, passwords, s, SetRole(login, restricted));
    if !mid.threw {
      SetRoleSets(cfg, passwords, s, login, restricted);
      SetRoleLeaves(cfg, passwords, s, login, restricted);
      UrlIs(cfg, login.name, passwords(s.drawn), database);
      hide PasswordIn, UrlOf, Server, Encode, Altered, Powerless;
    } else {
      hide Altered, Addressed, Restrained;
    }
  }

  // What is read of a login is read of its standing.
  lemma StandingReads(s: State, t: State, login: Account)
    requires StandingOf(s, login) == StandingOf(t, login)
    ensures (login.name in s.roles <==> login.name in t.roles)
            && (login.name in s.roles ==> s.roles[login.name] == t.roles[login.name])
    ensures (login.ref in s.secrets <==> login.ref in t.secrets)
            && (login.ref in s.secrets ==> s.secrets[login.ref] == t.secrets[login.ref])
  {
  }

  lemma StandingLeaves(
      cfg: Config, s: State, s': State, t: State, t': State, login: Account, restricted: bool, database: string)
    requires StandingOf(s, login) == StandingOf(s', login) && StandingOf(t, login) == StandingOf(t', login)
    requires Restrained(s, t, login, restricted) && Addressed(cfg, s, t, login, database)
    ensures Restrained(s', t', login, restricted) && Addressed(cfg, s', t', login, database)
  {
    StandingReads(s, s', login);
    StandingReads(t, t', login);
    hide StandingOf, Encode;
  }

  // From whatever was there: a completed run leaves each database's owner and runtime logins so.
  lemma CompletedRunRestrains(cfg: Config, passwords: Passwords, s: State, dbs: seq<Database>, d: nat, x: nat)
    requires Plain(dbs) && d < |dbs| && x < |LoginsOf(dbs[d])| && !Run(cfg, passwords, s, AllActs(dbs)).threw
    ensures var t, login := Run(cfg, passwords, s, AllActs(dbs)), LoginsOf(dbs[d])[x];
            Restrained(s, t, login, x > 0) && Addressed(cfg, s, t, login, dbs[d].name)
  {
    hide Do, AllActs, Logins, AllApart, Restrained, Addressed, StandingOf;
    var acts, login, start := AllActs(dbs), LoginsOf(dbs[d])[x], Anew(s);
    var i := LoginAt(dbs, d, x);
    Around(cfg, passwords, start, acts, i, login);
    var before := DoAll(cfg, passwords, start, acts[..i]);
    var after := Do(cfg, passwords, Do(cfg, passwords, before, acts[i]), acts[i + 1]);
    UntouchedAll(cfg, passwords, start, acts[..i], login);
    UntouchedAll(cfg, passwords, after, acts[i + 2..], login);
    Unsaved(start, before, login);
    PairLeaves(cfg, passwords, before, login, x > 0, dbs[d].name);
    StandingLeaves(cfg, before, start, after, Run(cfg, passwords, s, acts), login, x > 0, dbs[d].name);
    AnewLeaves(cfg, s, Run(cfg, passwords, s, acts), login, x > 0, dbs[d].name);
  }

  lemma AnewLeaves(cfg: Config, s: State, t: State, login: Account, restricted: bool, database: string)
    requires Restrained(Anew(s), t, login, restricted) && Addressed(cfg, Anew(s), t, login, database)
    ensures Restrained(s, t, login, restricted) && Addressed(cfg, s, t, login, database)
  {
    hide Encode;
  }

  lemma Unsaved(s: State, t: State, login: Account)
    requires StandingOf(s, login) == StandingOf(t, login) && login.name !in s.unsaved
    ensures login.name !in t.unsaved
  {
  }

  // ---------- The release ----------

  // For every list the chart may declare, after runs that stopped anywhere: the next completes exactly when every login
  // was fit at first, and then no runtime login has any attribute of its own.
  lemma ReleaseRuns(cfg: Config, passwords: Passwords, s: State, names: seq<string>, cuts: seq<nat>, d: nat, x: nat)
    requires Declared(names) && Reachable(cfg)
    requires forall k :: 0 <= k < |cuts| ==> cuts[k] <= |AllActs(DatabasesFor(names))|
    requires d < |DatabasesFor(names)| && x < |LoginsOf(DatabasesFor(names)[d])|
    ensures var dbs := DatabasesFor(names); var acts, login := AllActs(dbs), LoginsOf(dbs[d])[x];
            var before := Stopped(cfg, passwords, s, acts, cuts);
            var t := Run(cfg, passwords, before, acts);
            && (!t.threw <==> forall j :: 0 <= j < |Logins(dbs)| ==> Fit(s, Logins(dbs)[j]))
            && (!t.threw ==> Restrained(before, t, login, x > 0) && Addressed(cfg, before, t, login, dbs[d].name))
  {
    hide Run, Stopped, AllActs, Logins, LoginsOf, Fit, Restrained, Addressed, DatabasesFor, Reachable;
    var dbs := DatabasesFor(names);
    DatabasesPlain(names);
    DatabaseNamesApart(names);
    RecoversIff(cfg, passwords, s, dbs, cuts);
    if !Run(cfg, passwords, Stopped(cfg, passwords, s, AllActs(dbs), cuts), AllActs(dbs)).threw {
      CompletedRunRestrains(cfg, passwords, Stopped(cfg, passwords, s, AllActs(dbs), cuts), dbs, d, x);
    }
  }
}
