// The databases a release runs on (infra/ops/src/bootstrap.ts:8-41), and the bootstrap Job's loops over them
// (infra/ops/src/bootstrap.ts:87-125).
module BootstrapJob {
  import opened Options
  import opened SecretUrl
  import opened Bootstrap

  // ---------- `databasesFor` ----------

  function ServerDatabase(name: string, prefix: string): Database {
    Database("answerable_" + name,
      Bootstrap.Login("answerable_" + name + "_owner", (name + "-database-owner", prefix + "DATABASE_MIGRATION_URL")),
      [Bootstrap.Login("answerable_" + name + "_runtime", (name + "-database", prefix + "DATABASE_URL"))])
  }

  const SHARED := Database("answerable_mcps",
    Bootstrap.Login("answerable_mcps_migrator", ("mcps-database-owner", "MCPS_DATABASE_MIGRATION_URL")),
    [Bootstrap.Login("answerable_mcps_toolbox", ("toolbox-mcps-database", "TOOLBOX_MCPS_DATABASE_URL"))])

  function OwnDatabaseOf(name: string): Database {
    Database("answerable_mcp_" + name,
      Bootstrap.Login("answerable_mcp_" + name + "_owner",
          ("mcp-" + name + "-database-owner", "DATABASE_MIGRATION_URL")),
      [Bootstrap.Login("answerable_mcp_" + name + "_runtime", ("mcp-" + name + "-database", "DATABASE_URL"))])
  }

  function Fixed(): seq<Database> {
    [ServerDatabase("id", ""), ServerDatabase("toolbox", "TOOLBOX_"), ServerDatabase("admin", "ADMIN_"), SHARED]
  }

  // `names`: the MCPs of the chart's list with a database of their own.
  function DatabasesFor(names: seq<string>): seq<Database> {
    Fixed() + seq(|names|, i requires 0 <= i < |names| => OwnDatabaseOf(names[i]))
  }

  // What the chart's list is refused without (packages/mcp-postgres/src/names.ts:19-22, declared.ts:40): letters and
  // digits, and no name twice.
  predicate Declared(names: seq<string>) {
    && (forall i :: 0 <= i < |names| ==> PlainName(names[i]))
    && forall i, j :: 0 <= i < j < |names| ==> names[i] != names[j]
  }

  // ---------- Every login its own name and its own Secret ----------

  // Each database has one runtime login: what tells two logins apart is then said of pairs of databases.
  predicate Two(db: Database) {
    |db.runtime| == 1
  }

  predicate LoginsApart(a: Database, b: Database)
    requires Two(a) && Two(b)
  {
    Apart(a.owner, b.owner) && Apart(a.owner, b.runtime[0]) && Apart(a.runtime[0], b.owner)
    && Apart(a.runtime[0], b.runtime[0])
  }

  predicate InPairs(logins: seq<Bootstrap.Login>, i: nat, db: Database) {
    Two(db) && i + 1 < |logins| && logins[i] == db.owner && logins[i + 1] == db.runtime[0]
  }

  lemma {:induction false} LoginsInPairs(dbs: seq<Database>)
    requires forall d :: 0 <= d < |dbs| ==> Two(dbs[d])
    ensures |Logins(dbs)| == 2 * |dbs|
    ensures forall d :: 0 <= d < |dbs| ==> InPairs(Logins(dbs), 2 * d, dbs[d])
  {
    if dbs != [] {
      var rest := Logins(dbs[1..]);
      LoginsInPairs(dbs[1..]);
      forall d | 1 <= d < |dbs|
        ensures InPairs(Logins(dbs), 2 * d, dbs[d])
      {
        assert InPairs(rest, 2 * (d - 1), dbs[1..][d - 1]);
        assert Logins(dbs)[2 * d] == rest[2 * (d - 1)] && Logins(dbs)[2 * d + 1] == rest[2 * (d - 1) + 1];
      }
    }
  }

  lemma {:induction false} PairsApart(dbs: seq<Database>)
    requires forall d :: 0 <= d < |dbs| ==> Two(dbs[d]) && Apart(dbs[d].owner, dbs[d].runtime[0])
    requires forall d, e :: 0 <= d < e < |dbs| ==> LoginsApart(dbs[d], dbs[e])
    ensures AllApart(Logins(dbs))
  {
    LoginsInPairs(dbs);
    hide Logins, Apart;
    var all := Logins(dbs);
    forall i, j | 0 <= i < j < |all|
      ensures Apart(all[i], all[j])
    {
      var d, e := i / 2, j / 2;
      assert InPairs(all, 2 * d, dbs[d]) && InPairs(all, 2 * e, dbs[e]);
      if d < e {
        assert LoginsApart(dbs[d], dbs[e]);
      }
    }
  }

  // What the fixed logins have in none of an own MCP's: the fifteenth character is no underscore, the Secret's fourth
  // no hyphen.
  predicate FixedForm(l: Bootstrap.Login) {
    |l.name| >= 15 && l.name[14] != '_' && |l.ref.0| >= 4 && l.ref.0[3] != '-'
  }

  predicate OwnForm(l: Bootstrap.Login) {
    |l.name| >= 15 && l.name[14] == '_' && |l.ref.0| >= 4 && l.ref.0[3] == '-'
  }

  lemma ServerForm(name: string, prefix: string)
    requires name in ["id", "toolbox", "admin"]
    ensures FixedForm(ServerDatabase(name, prefix).owner) && FixedForm(ServerDatabase(name, prefix).runtime[0])
    ensures Apart(ServerDatabase(name, prefix).owner, ServerDatabase(name, prefix).runtime[0])
  {
    var o, r := "answerable_" + name + "_owner", "answerable_" + name + "_runtime";
    assert o[|o| - 1] == 'r' && r[|r| - 1] == 'e';
  }

  lemma ServerNamesApart(a: string, b: string)
    requires |a| != |b|
    ensures "answerable_" + a + "_owner" != "answerable_" + b + "_owner"
    ensures "answerable_" + a + "_runtime" != "answerable_" + b + "_runtime"
    ensures "answerable_" + a + "_owner" != "answerable_" + b + "_runtime"
  {
    var ao, ar := "answerable_" + a + "_owner", "answerable_" + a + "_runtime";
    var bo, br := "answerable_" + b + "_owner", "answerable_" + b + "_runtime";
    assert |ao| == |a| + 17 && |bo| == |b| + 17 && |ar| == |a| + 19 && |br| == |b| + 19;
    assert ao[|ao| - 1] == 'r' && br[|br| - 1] == 'e';
  }

  lemma ServerSecretsApart(a: string, b: string)
    requires |a| != |b| && |b| < |a| + 6
    ensures a + "-database-owner" != b + "-database-owner" && a + "-database" != b + "-database"
            && a + "-database-owner" != b + "-database"
  {
    assert |a + "-database-owner"| == |a| + 15 && |b + "-database-owner"| == |b| + 15;
    assert |a + "-database"| == |a| + 9 && |b + "-database"| == |b| + 9;
  }

  lemma ServersApart(a: string, p: string, b: string, q: string)
    requires |a| != |b| && |a| < |b| + 6 && |b| < |a| + 6
    ensures LoginsApart(ServerDatabase(a, p), ServerDatabase(b, q))
  {
    ServerNamesApart(a, b);
    ServerNamesApart(b, a);
    ServerSecretsApart(a, b);
    ServerSecretsApart(b, a);
  }

  lemma SharedApart(a: string, p: string)
    requires a in ["id", "toolbox", "admin"]
    ensures LoginsApart(ServerDatabase(a, p), SHARED)
  {
    var ao, ar := "answerable_" + a + "_owner", "answerable_" + a + "_runtime";
    assert ao[|ao| - 2] == 'e' && ao[|ao| - 1] == 'r' && ar[|ar| - 2] == 'm' && ar[|ar| - 1] == 'e';
    var m, t := "answerable_mcps_migrator", "answerable_mcps_toolbox";
    assert m[|m| - 2] == 'o' && t[|t| - 1] == 'x' && m[|m| - 1] == 'r';
  }

  lemma OwnForms(name: string)
    ensures OwnForm(OwnDatabaseOf(name).owner) && OwnForm(OwnDatabaseOf(name).runtime[0])
    ensures Apart(OwnDatabaseOf(name).owner, OwnDatabaseOf(name).runtime[0])
  {
    var o, r := "answerable_mcp_" + name + "_owner", "answerable_mcp_" + name + "_runtime";
    assert o[|o| - 1] == 'r' && r[|r| - 1] == 'e';
    assert |"mcp-" + name + "-database-owner"| != |"mcp-" + name + "-database"|;
  }

  // Two own MCPs' names are read back out of their logins' names and Secrets.
  lemma OwnNamesApart(a: string, b: string)
    requires a != b
    ensures "answerable_mcp_" + a + "_owner" != "answerable_mcp_" + b + "_owner"
    ensures "answerable_mcp_" + a + "_runtime" != "answerable_mcp_" + b + "_runtime"
    ensures "answerable_mcp_" + a + "_owner" != "answerable_mcp_" + b + "_runtime"
  {
    var ao, ar := "answerable_mcp_" + a + "_owner", "answerable_mcp_" + a + "_runtime";
    var bo, br := "answerable_mcp_" + b + "_owner", "answerable_mcp_" + b + "_runtime";
    assert ao[15..|ao| - 6] == a && bo[15..|bo| - 6] == b && ar[15..|ar| - 8] == a && br[15..|br| - 8] == b;
    assert ao[|ao| - 1] == 'r' && br[|br| - 1] == 'e';
  }

  lemma OwnSecretsApart(a: string, b: string)
    requires a != b
    ensures "mcp-" + a + "-database-owner" != "mcp-" + b + "-database-owner"
    ensures "mcp-" + a + "-database" != "mcp-" + b + "-database"
    ensures "mcp-" + a + "-database-owner" != "mcp-" + b + "-database"
  {
    var ao, ar := "mcp-" + a + "-database-owner", "mcp-" + a + "-database";
    var bo, br := "mcp-" + b + "-database-owner", "mcp-" + b + "-database";
    assert ao[4..|ao| - 15] == a && bo[4..|bo| - 15] == b && ar[4..|ar| - 9] == a && br[4..|br| - 9] == b;
    assert ao[|ao| - 1] == 'r' && br[|br| - 1] == 'e';
  }

  lemma OwnsApart(a: string, b: string)
    requires a != b
    ensures LoginsApart(OwnDatabaseOf(a), OwnDatabaseOf(b))
  {
    OwnNamesApart(a, b);
    OwnNamesApart(b, a);
    OwnSecretsApart(a, b);
    OwnSecretsApart(b, a);
  }

  lemma FixedApart(d: nat, e: nat)
    requires d < e < 4
    ensures LoginsApart(Fixed()[d], Fixed()[e])
  {
    hide LoginsApart, ServerDatabase;
    if e == 3 {
      SharedApart(if d == 0 then "id" else if d == 1 then "toolbox" else "admin",
        if d == 0 then "" else if d == 1 then "TOOLBOX_" else "ADMIN_");
    } else if d == 0 && e == 1 {
      ServersApart("id", "", "toolbox", "TOOLBOX_");
    } else if d == 0 {
      ServersApart("id", "", "admin", "ADMIN_");
    } else {
      ServersApart("toolbox", "TOOLBOX_", "admin", "ADMIN_");
    }
  }

  lemma FixedFormed(d: nat)
    requires d < 4
    ensures Two(Fixed()[d]) && FixedForm(Fixed()[d].owner) && FixedForm(Fixed()[d].runtime[0])
    ensures Apart(Fixed()[d].owner, Fixed()[d].runtime[0])
  {
    hide FixedForm;
    if d == 0 {
      ServerForm("id", "");
    } else if d == 1 {
      ServerForm("toolbox", "TOOLBOX_");
    } else if d == 2 {
      ServerForm("admin", "ADMIN_");
    } else {
      SharedForm();
    }
  }

  lemma SharedForm()
    ensures FixedForm(SHARED.owner) && FixedForm(SHARED.runtime[0]) && Apart(SHARED.owner, SHARED.runtime[0])
  {
    assert "answerable_mcps_migrator"[14] == 's' && "answerable_mcps_toolbox"[14] == 's';
    assert |"answerable_mcps_migrator"| != |"answerable_mcps_toolbox"|;
  }

  // No two logins of a release share a name or a Secret's key.
  lemma DatabasesApart(names: seq<string>)
    requires Declared(names)
    ensures AllApart(Logins(DatabasesFor(names)))
  {
    hide LoginsApart, FixedForm, OwnForm, Apart, AllApart, Logins;
    var dbs := DatabasesFor(names);
    forall d | 0 <= d < |dbs|
      ensures Two(dbs[d]) && Apart(dbs[d].owner, dbs[d].runtime[0])
    {
      if d < 4 {
        FixedFormed(d);
      } else {
        OwnForms(names[d - 4]);
      }
    }
    forall d, e | 0 <= d < e < |dbs|
      ensures LoginsApart(dbs[d], dbs[e])
    {
      if e < 4 {
        FixedApart(d, e);
      } else {
        OwnForms(names[e - 4]);
        if d < 4 {
          FixedFormed(d);
          FormsApart(dbs[d], dbs[e]);
        } else {
          OwnsApart(names[d - 4], names[e - 4]);
        }
      }
    }
    PairsApart(dbs);
  }

  lemma FormsApart(a: Database, b: Database)
    requires Two(a) && FixedForm(a.owner) && FixedForm(a.runtime[0])
    requires Two(b) && OwnForm(b.owner) && OwnForm(b.runtime[0])
    ensures LoginsApart(a, b)
  {
  }

  lemma PlainJoined(a: string, b: string)
    requires PlainName(a) && PlainName(b)
    ensures PlainName(a + b)
  {
  }

  lemma PlainAround(before: string, name: string, after: string)
    requires PlainName(before) && PlainName(name) && PlainName(after)
    ensures PlainName(before + name + after)
  {
    PlainJoined(before, name);
    PlainJoined(before + name, after);
  }

  lemma PlainServer(name: string, prefix: string)
    requires PlainName(name)
    ensures PlainName(ServerDatabase(name, prefix).owner.name)
            && PlainName(ServerDatabase(name, prefix).runtime[0].name)
  {
    assert PlainName("answerable_") && PlainName("_owner") && PlainName("_runtime");
    PlainAround("answerable_", name, "_owner");
    PlainAround("answerable_", name, "_runtime");
  }

  lemma PlainOwn(name: string)
    requires PlainName(name)
    ensures PlainName(OwnDatabaseOf(name).owner.name) && PlainName(OwnDatabaseOf(name).runtime[0].name)
  {
    assert PlainName("answerable_mcp_") && PlainName("_owner") && PlainName("_runtime");
    PlainAround("answerable_mcp_", name, "_owner");
    PlainAround("answerable_mcp_", name, "_runtime");
  }

  lemma PlainShared()
    ensures PlainName(SHARED.owner.name) && PlainName(SHARED.runtime[0].name)
  {
    assert PlainName("answerable_") && PlainName("mcps") && PlainName("_migrator") && PlainName("_toolbox");
    hide PlainName;
    PlainAround("answerable_", "mcps", "_migrator");
    PlainAround("answerable_", "mcps", "_toolbox");
    assert SHARED.owner.name == "answerable_" + "mcps" + "_migrator"
           && SHARED.runtime[0].name == "answerable_" + "mcps" + "_toolbox";
  }

  lemma PlainLogins(names: seq<string>, d: nat)
    requires Declared(names) && d < |DatabasesFor(names)|
    ensures Two(DatabasesFor(names)[d]) && PlainName(DatabasesFor(names)[d].owner.name)
            && PlainName(DatabasesFor(names)[d].runtime[0].name)
  {
    if d >= 4 {
      PlainOwn(names[d - 4]);
    } else if d == 3 {
      PlainShared();
    } else {
      assert PlainName("id") && PlainName("toolbox") && PlainName("admin");
      hide PlainName;
      PlainServer("id", "");
      PlainServer("toolbox", "TOOLBOX_");
      PlainServer("admin", "ADMIN_");
    }
  }

  lemma DatabaseNamesApart(names: seq<string>)
    requires Declared(names)
    ensures forall d, e ::
        0 <= d < e < |DatabasesFor(names)| ==> DatabasesFor(names)[d].name != DatabasesFor(names)[e].name
  {
    var dbs := DatabasesFor(names);
    forall d, e | 0 <= d < e < |dbs|
      ensures dbs[d].name != dbs[e].name
    {
      if d < 4 && e < 4 {
        assert |dbs[d].name| == [13, 18, 16, 15][d] && |dbs[e].name| == [13, 18, 16, 15][e];
      } else if d < 4 {
        assert dbs[e].name[14] == '_';
        assert d == 0 || dbs[d].name[14] != '_';
      } else {
        assert dbs[d].name[15..] == names[d - 4] && dbs[e].name[15..] == names[e - 4];
      }
    }
  }

  lemma DatabasesPlain(names: seq<string>)
    requires Declared(names)
    ensures Plain(DatabasesFor(names))
  {
    hide PlainName, AllApart, Logins, ServerDatabase, OwnDatabaseOf;
    var dbs := DatabasesFor(names);
    DatabasesApart(names);
    forall d | 0 <= d < |dbs|
      ensures Two(dbs[d])
    {
      PlainLogins(names, d);
    }
    LoginsInPairs(dbs);
    forall j | 0 <= j < |Logins(dbs)|
      ensures PlainName(Logins(dbs)[j].name)
    {
      PlainLogins(names, j / 2);
      assert InPairs(Logins(dbs), 2 * (j / 2), dbs[j / 2]);
    }
  }

  // What a completed run leaves of a release that was `s`: every login's role has the password of its Secret's URL, and
  // every database is its owner login's, closed to the public and open to its runtime logins.
  predicate InLine(s: State, t: State, dbs: seq<Database>) {
    && (forall j :: 0 <= j < |Logins(dbs)| ==> Agree(t, Logins(dbs)[j]))
    && forall d :: 0 <= d < |dbs| ==> Owned(s, t, dbs[d])
  }

  // Whoever else may connect had been let in by name: only its own logins may if and only if nobody else had.
  predicate Owned(s: State, t: State, db: Database) {
    var own := RuntimeNames(db.runtime);
    && db.name in t.databases && t.databases[db.name].owner == db.owner.name && !t.databases[db.name].public
    && t.databases[db.name].connect == ConnectIn(s, db.name) + own
    && (t.databases[db.name].connect == own <==> ConnectIn(s, db.name) <= own)
    && t.databases[db.name].temporary !! own
  }

  lemma DatabaseOwned(
      cfg: Config, passwords: Passwords, s: State, dbs: seq<Database>, cuts: seq<nat>, d: nat)
    requires d < |dbs| && (forall x, y :: 0 <= x < y < |dbs| ==> dbs[x].name != dbs[y].name)
    requires forall k :: 0 <= k < |cuts| ==> cuts[k] <= |AllActs(dbs)|
    requires !Run(cfg, passwords, Stopped(cfg, passwords, s, AllActs(dbs), cuts), AllActs(dbs)).threw
    ensures Owned(s, Run(cfg, passwords, Stopped(cfg, passwords, s, AllActs(dbs), cuts), AllActs(dbs)), dbs[d])
  {
    hide Run, Stopped, AllActs, RuntimeNames;
    AllLetInOwn(dbs, d);
    StoppedConnects(cfg, passwords, s, AllActs(dbs), cuts, dbs[d]);
    CompletedRunOwns(cfg, passwords, Stopped(cfg, passwords, s, AllActs(dbs), cuts), dbs, d);
  }

  // For every list the chart may declare: after any number of runs that stopped anywhere, from whatever was there, a
  // completed run leaves the release in line, and a run after that writes no Secret.
  lemma ReleaseInLine(cfg: Config, passwords: Passwords, s: State, names: seq<string>, cuts: seq<nat>)
    requires Declared(names) && Reachable(cfg)
    requires forall k :: 0 <= k < |cuts| ==> cuts[k] <= |AllActs(DatabasesFor(names))|
    requires var acts := AllActs(DatabasesFor(names));
             !Run(cfg, passwords, Stopped(cfg, passwords, s, acts, cuts), acts).threw
    ensures var dbs := DatabasesFor(names); var acts := AllActs(dbs);
            var t := Run(cfg, passwords, Stopped(cfg, passwords, s, acts, cuts), acts);
            && InLine(s, t, dbs) && Run(cfg, passwords, t, acts).writes == 0
               && Run(cfg, passwords, t, acts).secrets == t.secrets
  {
    hide Run, Stopped, AllActs, Logins, Agree, Plain, DatabasesFor, Reachable, Declared, Owned;
    var dbs := DatabasesFor(names);
    var t := Run(cfg, passwords, Stopped(cfg, passwords, s, AllActs(dbs), cuts), AllActs(dbs));
    DatabasesPlain(names);
    DatabaseNamesApart(names);
    forall j | 0 <= j < |Logins(dbs)|
      ensures Agree(t, Logins(dbs)[j])
    {
      CompletedRunAgrees(cfg, passwords, s, dbs, cuts, j);
    }
    forall d | 0 <= d < |dbs|
      ensures Owned(s, t, dbs[d])
    {
      DatabaseOwned(cfg, passwords, s, dbs, cuts, d);
    }
    FurtherRunWritesNone(cfg, passwords, t, dbs);
  }

  // ---------- The Job's loops ----------

  lemma {:induction false} ThrownStays(cfg: Config, passwords: Passwords, s: State, acts: seq<Act>)
    requires s.threw
    ensures DoAll(cfg, passwords, s, acts) == s
  {
    if acts != [] {
      ThrownStays(cfg, passwords, s, acts[..|acts| - 1]);
    }
  }

  lemma LoginPair(cfg: Config, passwords: Passwords, s: State, logins: seq<Bootstrap.Login>, restricted: bool,
      database: string)
    requires logins != []
    ensures DoAll(cfg, passwords, s, LoginActs(logins, restricted, database))
         == DoAll(cfg, passwords,
             Do(cfg, passwords, Do(cfg, passwords, s, SetRole(logins[0], restricted)), PutSecret(logins[0], database)),
              LoginActs(logins[1..], restricted, database))
  {
    hide Do;
    var pair := [SetRole(logins[0], restricted), PutSecret(logins[0], database)];
    DoAllAppend(cfg, passwords, s, pair, LoginActs(logins[1..], restricted, database));
    assert pair[..1] == [pair[0]] && [pair[0]][..0] == [];
    assert DoAll(cfg, passwords, s, [pair[0]]) == Do(cfg, passwords, s, pair[0]);
    assert DoAll(cfg, passwords, s, pair) == Do(cfg, passwords, Do(cfg, passwords, s, pair[0]), pair[1]);
  }

  // PostgreSQL and the Secret store, which outlive a run, and what one run remembers.
  class Job {
    var roles: map<string, Role>
    var secrets: map<Ref, string>
    var databases: map<string, Db>
    var drawn: nat
    var unsaved: map<string, Ascii7>
    var writes: nat

    // A role's password and, of a restricted one, its attributes; refused when it has one only a superuser could clear.
    method SetRole(login: Bootstrap.Login, secret: string, restricted: bool) returns (threw: bool)
      modifies this`roles
      ensures State(roles, secrets, databases, drawn, unsaved, writes, threw)
           == Altered(State(old(roles), secrets, databases, drawn, unsaved, writes, false), login, secret, restricted)
    {
      if login.name in roles {
        var role := roles[login.name];
        if role.elevated {
          return true;
        }
        roles := roles[login.name :=
          Role(secret, false, role.createDb && !restricted, role.createRole && !restricted, role.inherit
          && !restricted)];
      } else {
        roles := roles[login.name := Role(secret, false, false, false, !restricted)];
      }
      return false;
    }

    // One login: its password, read back or drawn, its role, and its Secret when it had none.
    method SetLogin(cfg: Config, passwords: Passwords, login: Bootstrap.Login, restricted: bool,
        database: string) returns (threw: bool)
      modifies this
      ensures State(roles, secrets, databases, drawn, unsaved, writes, threw)
           == Do(cfg, passwords,
               Do(cfg, passwords, old(State(roles, secrets, databases, drawn, unsaved, writes, false)),
                   Act.SetRole(login, restricted)), PutSecret(login, database))
    {
      hide PasswordIn, UrlOf, Server, RuntimeNames, Ascii, Altered;
      var stored := if login.ref in secrets then Some(secrets[login.ref]) else None;
      var secret := "";
      if stored.Some? {
        var read := PasswordIn(stored.value, login.name);
        if !read.Password? {
          return true;
        }
        secret := read.password;
        unsaved := unsaved - {login.name};
      } else {
        secret := passwords(drawn);
        unsaved := unsaved[login.name := passwords(drawn)];
        drawn := drawn + 1;
      }
      threw := SetRole(login, secret, restricted);
      if threw {
        return;
      }
      if stored.None? {
        secrets := secrets[login.ref := UrlOf(login.name, secret, Server(cfg, database))];
        writes := writes + 1;
      }
      return false;
    }

    method SetLogins(cfg: Config, passwords: Passwords, logins: seq<Bootstrap.Login>, restricted: bool,
        database: string) returns (threw: bool)
      modifies this
      ensures State(roles, secrets, databases, drawn, unsaved, writes, threw)
           == DoAll(cfg, passwords, old(State(roles, secrets, databases, drawn, unsaved, writes, false)),
               LoginActs(logins, restricted, database))
    {
      hide Do, LoginActs;
      ghost var start := State(roles, secrets, databases, drawn, unsaved, writes, false);
      threw := false;
      var i := 0;
      while i < |logins| && !threw
        invariant i <= |logins|
        invariant DoAll(cfg, passwords, start, LoginActs(logins, restricted, database))
               == DoAll(cfg, passwords, State(roles, secrets, databases, drawn, unsaved, writes, threw),
                   LoginActs(logins[i..], restricted, database))
      {
        LoginPair(cfg, passwords, State(roles, secrets, databases, drawn, unsaved, writes, threw), logins[i..],
            restricted, database);
        assert logins[i..][1..] == logins[i + 1..];
        threw := SetLogin(cfg, passwords, logins[i], restricted, database);
        i := i + 1;
      }
      if threw {
        ThrownStays(cfg, passwords, State(roles, secrets, databases, drawn, unsaved, writes, threw),
            LoginActs(logins[i..], restricted, database));
      } else {
        NoLogins(restricted, database);
      }
    }

    // The database: made, or given to its owner; then who may connect.
    method SetDatabase(cfg: Config, passwords: Passwords, db: Database)
      modifies this
      ensures State(roles, secrets, databases, drawn, unsaved, writes, false)
           == DoAll(cfg, passwords, old(State(roles, secrets, databases, drawn, unsaved, writes, false)), OwnerActs(db))
    {
      ghost var start := State(roles, secrets, databases, drawn, unsaved, writes, false);
      if db.name !in databases {
        databases := databases[db.name := Db(db.owner.name, true, {}, {})];
      } else if databases[db.name].owner != db.owner.name {
        databases := databases[db.name := databases[db.name].(owner := db.owner.name)];
      }
      databases := databases[db.name := databases[db.name].(public := false)];
      databases :=
        databases[db.name := databases[db.name].(connect := databases[db.name].connect + RuntimeNames(db.runtime))];
      databases :=
        databases[db.name := databases[db.name].(temporary := databases[db.name].temporary - RuntimeNames(db.runtime))];
      OwnerActsRun(cfg, passwords, start, db);
    }

    // `bootstrap`'s loop: `threw` when it stopped at a role or a Secret it refuses.
    method Bootstrap(cfg: Config, passwords: Passwords, dbs: seq<Database>) returns (threw: bool)
      modifies this
      ensures State(roles, secrets, databases, drawn, unsaved, writes, threw)
           == Run(cfg, passwords, old(State(roles, secrets, databases, drawn, unsaved, writes, false)), AllActs(dbs))
    {
      hide AllActs, DoAll;
      ghost var start := Anew(State(roles, secrets, databases, drawn, unsaved, writes, false));
      unsaved, writes, threw := map[], 0, false;
      var i := 0;
      while i < |dbs| && !threw
        invariant i <= |dbs|
        invariant DoAll(cfg, passwords, start, AllActs(dbs))
               == DoAll(cfg, passwords, State(roles, secrets, databases, drawn, unsaved, writes, threw),
                   AllActs(dbs[i..]))
      {
        ghost var s := State(roles, secrets, databases, drawn, unsaved, writes, false);
        assert dbs[i..][1..] == dbs[i + 1..];
        OneDatabase(cfg, passwords, s, dbs[i..]);
        threw := SetLogins(cfg, passwords, [dbs[i].owner], false, dbs[i].name);
        ghost var owned := State(roles, secrets, databases, drawn, unsaved, writes, threw);
        if threw {
          ThrownStays(cfg, passwords, owned, LoginActs(dbs[i].runtime, true, dbs[i].name));
          ThrownStays(cfg, passwords, owned, OwnerActs(dbs[i]));
        } else {
          threw := SetLogins(cfg, passwords, dbs[i].runtime, true, dbs[i].name);
          if threw {
            ThrownStays(cfg, passwords, State(roles, secrets, databases, drawn, unsaved, writes, threw),
                OwnerActs(dbs[i]));
          } else {
            SetDatabase(cfg, passwords, dbs[i]);
          }
        }
        i := i + 1;
      }
      if threw {
        ThrownStays(cfg, passwords, State(roles, secrets, databases, drawn, unsaved, writes, threw), AllActs(dbs[i..]));
      } else {
        NoDatabases(cfg, passwords, State(roles, secrets, databases, drawn, unsaved, writes, threw));
      }
    }
  }

  function OwnerActs(db: Database): seq<Act> {
    [OwnDatabase(db), ClosePublic(db), GrantConnect(db), RevokeTemporary(db)]
  }

  lemma OwnerActsRun(cfg: Config, passwords: Passwords, s: State, db: Database)
    ensures DoAll(cfg, passwords, s, OwnerActs(db))
         == Do(cfg, passwords,
             Do(cfg, passwords, Do(cfg, passwords, Do(cfg, passwords, s, OwnDatabase(db)), ClosePublic(db)),
                 GrantConnect(db)), RevokeTemporary(db))
  {
    hide Do;
    var acts := OwnerActs(db);
    assert acts[..3][..2] == [acts[0], acts[1]] && [acts[0], acts[1]][..1] == [acts[0]] && [acts[0]][..0] == [];
    assert DoAll(cfg, passwords, s, [acts[0]]) == Do(cfg, passwords, s, acts[0]);
    assert DoAll(cfg, passwords, s, [acts[0], acts[1]]) == Do(cfg, passwords, Do(cfg, passwords, s, acts[0]), acts[1]);
    assert DoAll(cfg, passwords, s, acts[..3])
        == Do(cfg, passwords, DoAll(cfg, passwords, s, [acts[0], acts[1]]), acts[2]);
  }

  lemma OneDatabase(cfg: Config, passwords: Passwords, s: State, dbs: seq<Database>)
    requires dbs != []
    ensures var owner := DoAll(cfg, passwords, s, LoginActs([dbs[0].owner], false, dbs[0].name));
            var runtime := DoAll(cfg, passwords, owner, LoginActs(dbs[0].runtime, true, dbs[0].name));
            DoAll(cfg, passwords, s, AllActs(dbs))
                == DoAll(cfg, passwords, DoAll(cfg, passwords, runtime, OwnerActs(dbs[0])), AllActs(dbs[1..]))
  {
    hide DoAll, LoginActs;
    var owner, runtime := LoginActs([dbs[0].owner], false, dbs[0].name), LoginActs(dbs[0].runtime, true, dbs[0].name);
    assert AllActs(dbs) == owner + runtime + OwnerActs(dbs[0]) + AllActs(dbs[1..]);
    DoAllAppend(cfg, passwords, s, owner + runtime + OwnerActs(dbs[0]), AllActs(dbs[1..]));
    DoAllAppend(cfg, passwords, s, owner + runtime, OwnerActs(dbs[0]));
    DoAllAppend(cfg, passwords, s, owner, runtime);
  }

  lemma NoDatabases(cfg: Config, passwords: Passwords, s: State)
    ensures DoAll(cfg, passwords, s, AllActs([])) == s
  {
  }

  lemma NoLogins(restricted: bool, database: string)
    ensures LoginActs([], restricted, database) == []
  {
  }
}
