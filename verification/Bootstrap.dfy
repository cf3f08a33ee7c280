// The bootstrap Job (infra/ops/src/bootstrap.ts:87-125): two stores, PostgreSQL's roles and the Secrets, brought into
// agreement write by write. A run may stop anywhere, by a refusal or a crash, and be started again.
module Bootstrap {
  import opened Options
  import opened SecretUrl

  type Ref = (string, string) // a Secret and a key of it

  datatype Login = Login(name: string, ref: Ref)
  datatype Database = Database(name: string, owner: Login, runtime: seq<Login>)

  // `elevated`: SUPERUSER, REPLICATION or BYPASSRLS, which bootstrap cannot take away and refuses.
  datatype Role = Role(password: string, elevated: bool, createDb: bool, createRole: bool, inherit: bool)
  datatype Db = Db(owner: string, public: bool, connect: set<string>, temporary: set<string>)

  // The passwords a run generates: base64url, so ASCII.
  type Ascii7 = s: string | Ascii(s) witness ""
  type Passwords = nat -> Ascii7

  datatype Config = Config(address: string, port: string, certificate: string)

  // Where the services connect: no character of the address ends a URL's authority.
  predicate Reachable(cfg: Config) {
    forall i :: 0 <= i < |cfg.address + ":" + cfg.port| ==> (cfg.address + ":" + cfg.port)[i] !in "/?#@"
  }

  function Server(cfg: Config, database: string): string {
    (cfg.address + ":" + cfg.port) + ("/" + database + "?sslmode=verify-full&sslrootcert=" + cfg.certificate)
  }

  lemma ServerHost(cfg: Config, database: string)
    requires Reachable(cfg)
    ensures '@' !in Server(cfg, database)[..Until(Server(cfg, database), "/?#")]
  {
    var host := cfg.address + ":" + cfg.port;
    var server := Server(cfg, database);
    assert server[|host|] == '/' && server[..|host|] == host;
    assert forall i :: 0 <= i < |host| ==> server[i] == host[i];
    UntilIs(server, "/?#", |host|);
  }

  // What outlives a run: roles, Secrets, databases, and the passwords already drawn. What a run remembers: the new
  // passwords not yet stored, how many Secrets it wrote, and whether it has thrown.
  datatype State = State(
    roles: map<string, Role>, secrets: map<Ref, string>, databases: map<string, Db>, drawn: nat,
    unsaved: map<string, Ascii7>, writes: nat, threw: bool)

  datatype Act =
    | SetRole(login: Login, restricted: bool)
    | PutSecret(login: Login, database: string)
    | OwnDatabase(db: Database)
    | ClosePublic(db: Database)
    | GrantConnect(db: Database)
    | RevokeTemporary(db: Database)

  function Altered(s: State, login: Login, password: string, restricted: bool): State {
    if login.name in s.roles then
      var role := s.roles[login.name];
      if role.elevated then s.(threw := true)
      else
        var same := role.(password := password);
        s.(roles :=
          s.roles[login.name := if restricted then same.(createDb := false, createRole := false, inherit := false)
          else same])
    else s.(roles := s.roles[login.name := Role(password, false, false, false, !restricted)])
  }

  function RuntimeNames(logins: seq<Login>): set<string> {
    set i | 0 <= i < |logins| :: logins[i].name
  }

  function Do(cfg: Config, passwords: Passwords, s: State, act: Act): State {
    if s.threw then s
    else match act
      case SetRole(login, restricted) =>
        if login.ref in s.secrets then
          match PasswordIn(s.secrets[login.ref], login.name)
          case Password(password) => Altered(s.(unsaved := s.unsaved - {login.name}), login, password, restricted)
          case _ => s.(threw := true)
        else
          Altered(s.(unsaved := s.unsaved[login.name := passwords(s.drawn)], drawn := s.drawn + 1), login,
              passwords(s.drawn), restricted)
      case PutSecret(login, database) =>
        if login.name in s.unsaved then
          s.(secrets := s.secrets[login.ref := UrlOf(login.name, s.unsaved[login.name], Server(cfg, database))],
              writes := s.writes + 1)
        else s
      case OwnDatabase(db) =>
        s.(databases := s.databases[db.name :=
          if db.name in s.databases then s.databases[db.name].(owner := db.owner.name)
          else Db(db.owner.name, true, {}, {})])
      case ClosePublic(db) =>
        if db.name !in s.databases then s.(threw := true)
        else s.(databases := s.databases[db.name := s.databases[db.name].(public := false)])
      case GrantConnect(db) =>
        if db.name !in s.databases then s.(threw := true)
        else
          s.(databases :=
            s.databases[db.name :=
              s.databases[db.name].(connect := s.databases[db.name].connect + RuntimeNames(db.runtime))])
      case RevokeTemporary(db) =>
        if db.name !in s.databases then s.(threw := true)
        else
          s.(databases :=
            s.databases[db.name :=
              s.databases[db.name].(temporary := s.databases[db.name].temporary - RuntimeNames(db.runtime))])
  }

  function DoAll(cfg: Config, passwords: Passwords, s: State, acts: seq<Act>): State {
    if acts == [] then s else Do(cfg, passwords, DoAll(cfg, passwords, s, acts[..|acts| - 1]), acts[|acts| - 1])
  }

  function Anew(s: State): State {
    s.(unsaved := map[], writes := 0, threw := false)
  }

  function Run(cfg: Config, passwords: Passwords, s: State, acts: seq<Act>): State {
    DoAll(cfg, passwords, Anew(s), acts)
  }

  // Runs stopped after any of their writes, or by their own refusals, one after another.
  function Stopped(cfg: Config, passwords: Passwords, s: State, acts: seq<Act>, cuts: seq<nat>): State
    requires forall i :: 0 <= i < |cuts| ==> cuts[i] <= |acts|
  {
    if cuts == [] then s
    else Run(cfg, passwords, Stopped(cfg, passwords, s, acts, cuts[..|cuts| - 1]), acts[..cuts[|cuts| - 1]])
  }

  // ---------- The acts of a list of databases ----------

  function LoginActs(logins: seq<Login>, restricted: bool, database: string): seq<Act> {
    if logins == [] then []
    else [SetRole(logins[0], restricted), PutSecret(logins[0], database)] + LoginActs(logins[1..], restricted, database)
  }

  function DatabaseActs(db: Database): seq<Act> {
    LoginActs([db.owner], false, db.name) + LoginActs(db.runtime, true, db.name)
    + [OwnDatabase(db), ClosePublic(db), GrantConnect(db), RevokeTemporary(db)]
  }

  function AllActs(dbs: seq<Database>): seq<Act> {
    if dbs == [] then [] else DatabaseActs(dbs[0]) + AllActs(dbs[1..])
  }

  predicate Touches(act: Act, login: Login) {
    (act.SetRole? || act.PutSecret?) && (act.login.name == login.name || act.login.ref == login.ref)
  }

  // A login's two acts, at `i`, are the only ones of its name or its Secret.
  predicate OnlyAt(acts: seq<Act>, i: nat, login: Login) {
    && i + 2 <= |acts|
    && acts[i].SetRole? && acts[i].login == login && acts[i + 1].PutSecret? && acts[i + 1].login == login
    && forall k :: 0 <= k < |acts| && k != i && k != i + 1 ==> !Touches(acts[k], login)
  }

  // ---------- Roles and Secrets agree ----------

  // The role's password is the one in its Secret's URL.
  predicate Agree(s: State, login: Login) {
    login.name in s.roles && login.ref in s.secrets
    && PasswordIn(s.secrets[login.ref], login.name) == Password(s.roles[login.name].password)
  }

  // All a run can do to one login: its role, its Secret, and its password drawn but not yet stored.
  datatype Standing = Standing(role: Option<Role>, secret: Option<string>, unsaved: Option<string>)

  function StandingOf(s: State, login: Login): Standing {
    Standing(
      if login.name in s.roles then Some(s.roles[login.name]) else None,
      if login.ref in s.secrets then Some(s.secrets[login.ref]) else None,
      if login.name in s.unsaved then Some(s.unsaved[login.name]) else None)
  }

  lemma AlteredStands(s: State, other: Login, password: string, restricted: bool, login: Login)
    requires other.name != login.name
    ensures StandingOf(Altered(s, other, password, restricted), login) == StandingOf(s, login)
  {
  }

  lemma SetRoleStands(cfg: Config, passwords: Passwords, s: State, other: Login, restricted: bool, login: Login)
    requires other.name != login.name
    ensures StandingOf(Do(cfg, passwords, s, SetRole(other, restricted)), login) == StandingOf(s, login)
  {
    hide PasswordIn, Altered;
    if s.threw {
    } else if other.ref !in s.secrets {
      AlteredStands(s.(unsaved := s.unsaved[other.name := passwords(s.drawn)], drawn := s.drawn + 1), other,
          passwords(s.drawn), restricted, login);
    } else if PasswordIn(s.secrets[other.ref], other.name).Password? {
      AlteredStands(s.(unsaved := s.unsaved - {other.name}), other,
          PasswordIn(s.secrets[other.ref], other.name).password, restricted, login);
    }
  }

  lemma UntouchedStands(cfg: Config, passwords: Passwords, s: State, act: Act, login: Login)
    requires !Touches(act, login)
    ensures StandingOf(Do(cfg, passwords, s, act), login) == StandingOf(s, login)
    ensures s.threw ==> Do(cfg, passwords, s, act).threw
  {
    if act.SetRole? {
      hide PasswordIn, UrlOf, Server, Altered, RuntimeNames, StandingOf;
      SetRoleStands(cfg, passwords, s, act.login, act.restricted, login);
    } else {
      hide PasswordIn, UrlOf, Server, Altered, RuntimeNames;
    }
  }

  lemma {:induction false} UntouchedAll(cfg: Config, passwords: Passwords, s: State, acts: seq<Act>, login: Login)
    requires forall k :: 0 <= k < |acts| ==> !Touches(acts[k], login)
    ensures StandingOf(DoAll(cfg, passwords, s, acts), login) == StandingOf(s, login)
    ensures s.threw ==> DoAll(cfg, passwords, s, acts).threw
  {
    hide Do, StandingOf;
    if acts != [] {
      var n := |acts| - 1;
      assert forall k :: 0 <= k < n ==> acts[..n][k] == acts[k];
      UntouchedAll(cfg, passwords, s, acts[..n], login);
      UntouchedStands(cfg, passwords, DoAll(cfg, passwords, s, acts[..n]), acts[n], login);
    }
  }

  // The two acts of one login, from any state of a run that has not touched it: its Secret's password is set, or a new
  // one is set and stored.
  lemma PairAgrees(cfg: Config, passwords: Passwords, s: State, login: Login, restricted: bool, database: string)
    requires PlainName(login.name) && Reachable(cfg) && login.name !in s.unsaved
    ensures var t := Do(cfg, passwords, Do(cfg, passwords, s, SetRole(login, restricted)), PutSecret(login, database));
            !t.threw ==> Agree(t, login) && !t.roles[login.name].elevated
  {
    ServerHost(cfg, database);
    PasswordReadBack(login.name, passwords(s.drawn), Server(cfg, database), login.name);
    hide PasswordIn, UrlOf, Server, Reachable, PlainName, Ascii;
    var mid := Do(cfg, passwords, s, SetRole(login, restricted));
    if !mid.threw {
      SetRoleSets(cfg, passwords, s, login, restricted);
    }
  }

  lemma SetRoleSets(cfg: Config, passwords: Passwords, s: State, login: Login, restricted: bool)
    requires login.name !in s.unsaved && !Do(cfg, passwords, s, SetRole(login, restricted)).threw
    ensures var t := Do(cfg, passwords, s, SetRole(login, restricted));
            && !s.threw && login.name in t.roles && !t.roles[login.name].elevated && t.secrets == s.secrets
            && (login.ref in s.secrets ==>
              t.unsaved == s.unsaved
              && PasswordIn(s.secrets[login.ref], login.name) == Password(t.roles[login.name].password))
            && (login.ref !in s.secrets ==>
              t.unsaved == s.unsaved[login.name := passwords(s.drawn)]
              && t.roles[login.name].password == passwords(s.drawn))
  {
    hide PasswordIn, Ascii, UrlOf, Server, RuntimeNames;
    if login.ref in s.secrets {
      assert s.unsaved - {login.name} == s.unsaved;
    }
  }

  lemma {:induction false} DoAllAppend(cfg: Config, passwords: Passwords, s: State, a: seq<Act>, b: seq<Act>)
    ensures DoAll(cfg, passwords, s, a + b) == DoAll(cfg, passwords, DoAll(cfg, passwords, s, a), b)
  {
    if b == [] {
      assert a + b == a;
    } else {
      assert (a + b)[..|a + b| - 1] == a + b[..|b| - 1];
      DoAllAppend(cfg, passwords, s, a, b[..|b| - 1]);
    }
  }

  // The acts around a login's own.
  lemma Around(cfg: Config, passwords: Passwords, s: State, acts: seq<Act>, i: nat, login: Login)
    requires OnlyAt(acts, i, login)
    ensures var before := DoAll(cfg, passwords, s, acts[..i]);
            var after := Do(cfg, passwords, Do(cfg, passwords, before, acts[i]), acts[i + 1]);
            DoAll(cfg, passwords, s, acts) == DoAll(cfg, passwords, after, acts[i + 2..])
  {
    var mid := [acts[i], acts[i + 1]];
    assert acts == acts[..i] + mid + acts[i + 2..];
    DoAllAppend(cfg, passwords, s, acts[..i], mid);
    DoAllAppend(cfg, passwords, s, acts[..i] + mid, acts[i + 2..]);
    var before := DoAll(cfg, passwords, s, acts[..i]);
    assert mid[..1] == [acts[i]] && [acts[i]][..0] == [];
    assert DoAll(cfg, passwords, before, []) == before;
    assert DoAll(cfg, passwords, before, [acts[i]]) == Do(cfg, passwords, before, acts[i]);
  }

  // A completed run, from whatever earlier runs left, makes a login's role and Secret agree.
  lemma RunAgrees(cfg: Config, passwords: Passwords, s: State, acts: seq<Act>, i: nat, login: Login)
    requires OnlyAt(acts, i, login) && PlainName(login.name) && Reachable(cfg)
    requires !Run(cfg, passwords, s, acts).threw
    ensures Agree(Run(cfg, passwords, s, acts), login) && !Run(cfg, passwords, s, acts).roles[login.name].elevated
  {
    var start := Anew(s);
    Around(cfg, passwords, start, acts, i, login);
    var before := DoAll(cfg, passwords, start, acts[..i]);
    var after := Do(cfg, passwords, Do(cfg, passwords, before, acts[i]), acts[i + 1]);
    UntouchedAll(cfg, passwords, start, acts[..i], login);
    PairAgrees(cfg, passwords, before, login, acts[i].restricted, acts[i + 1].database);
    UntouchedAll(cfg, passwords, after, acts[i + 2..], login);
  }

  // A stored Secret is never written again, by any run, completed or not.
  lemma StoredStays(cfg: Config, passwords: Passwords, s: State, act: Act, login: Login)
    requires login.ref in s.secrets && login.name !in s.unsaved
    requires Touches(act, login) ==> act.login == login
    ensures var t := Do(cfg, passwords, s, act);
            login.ref in t.secrets && t.secrets[login.ref] == s.secrets[login.ref] && login.name !in t.unsaved
  {
    hide PasswordIn, UrlOf, Server, Ascii;
    if !Touches(act, login) {
      UntouchedStands(cfg, passwords, s, act, login);
    }
  }

  lemma {:induction false} SecretKept(cfg: Config, passwords: Passwords, s: State, acts: seq<Act>, n: nat, i: nat,
      login: Login)
    requires OnlyAt(acts, i, login) && n <= |acts| && login.ref in s.secrets
    ensures var t := Run(cfg, passwords, s, acts[..n]);
            login.ref in t.secrets && t.secrets[login.ref] == s.secrets[login.ref] && login.name !in t.unsaved
  {
    hide Do;
    if n > 0 {
      SecretKept(cfg, passwords, s, acts, n - 1, i, login);
      assert acts[..n][..n - 1] == acts[..n - 1];
      StoredStays(cfg, passwords, Run(cfg, passwords, s, acts[..n - 1]), acts[n - 1], login);
    }
  }

  lemma {:induction false} SecretKeptThrough(cfg: Config, passwords: Passwords, s: State, acts: seq<Act>,
      cuts: seq<nat>, i: nat, login: Login)
    requires OnlyAt(acts, i, login) && login.ref in s.secrets && forall k :: 0 <= k < |cuts| ==> cuts[k] <= |acts|
    ensures var t := Stopped(cfg, passwords, s, acts, cuts);
            login.ref in t.secrets && t.secrets[login.ref] == s.secrets[login.ref]
  {
    if cuts != [] {
      var k := |cuts| - 1;
      SecretKeptThrough(cfg, passwords, s, acts, cuts[..k], i, login);
      SecretKept(cfg, passwords, Stopped(cfg, passwords, s, acts, cuts[..k]), acts, cuts[k], i, login);
    }
  }

  // After a completed run, a further completed run keeps the login's password.
  lemma PasswordKept(cfg: Config, passwords: Passwords, s: State, acts: seq<Act>, i: nat, login: Login)
    requires OnlyAt(acts, i, login) && PlainName(login.name) && Reachable(cfg) && Agree(s, login)
    requires !Run(cfg, passwords, s, acts).threw
    ensures var t := Run(cfg, passwords, s, acts);
            login.name in t.roles && t.roles[login.name].password == s.roles[login.name].password
  {
    RunAgrees(cfg, passwords, s, acts, i, login);
    SecretKept(cfg, passwords, s, acts, |acts|, i, login);
    assert acts[..|acts|] == acts;
  }

  // ---------- Databases ----------

  predicate DbOnlyAt(acts: seq<Act>, i: nat, db: Database) {
    && i + 4 <= |acts| && acts[i..i + 4] == [OwnDatabase(db), ClosePublic(db), GrantConnect(db), RevokeTemporary(db)]
    && forall k :: 0 <= k < |acts| && !(i <= k < i + 4) && DbOf(acts[k]).Some? ==> DbOf(acts[k]).value != db.name
  }

  function DbOf(act: Act): Option<string> {
    match act
    case OwnDatabase(db) => Some(db.name)
    case ClosePublic(db) => Some(db.name)
    case GrantConnect(db) => Some(db.name)
    case RevokeTemporary(db) => Some(db.name)
    case _ => None
  }

  predicate SameDb(s: State, t: State, name: string) {
    (name in t.databases <==> name in s.databases) && (name in s.databases ==> t.databases[name] == s.databases[name])
    && (s.threw ==> t.threw)
  }

  lemma DbStands(cfg: Config, passwords: Passwords, s: State, act: Act, name: string)
    requires DbOf(act) != Some(name)
    ensures SameDb(s, Do(cfg, passwords, s, act), name)
  {
    hide PasswordIn, UrlOf, Server, RuntimeNames;
  }

  lemma {:induction false} DbUntouched(cfg: Config, passwords: Passwords, s: State, acts: seq<Act>, name: string)
    requires forall k :: 0 <= k < |acts| ==> DbOf(acts[k]) != Some(name)
    ensures SameDb(s, DoAll(cfg, passwords, s, acts), name)
  {
    hide Do;
    if acts != [] {
      assert forall k :: 0 <= k < |acts| - 1 ==> acts[..|acts| - 1][k] == acts[k];
      DbUntouched(cfg, passwords, s, acts[..|acts| - 1], name);
      DbStands(cfg, passwords, DoAll(cfg, passwords, s, acts[..|acts| - 1]), acts[|acts| - 1], name);
    }
  }

  // After a completed run a database is its owner's, closed to the public, and open to exactly its runtime logins and
  // whoever had been let in by name before.
  lemma RunOwns(cfg: Config, passwords: Passwords, s: State, acts: seq<Act>, i: nat, db: Database)
    requires DbOnlyAt(acts, i, db) && !Run(cfg, passwords, s, acts).threw
    ensures var t := Run(cfg, passwords, s, acts);
            && db.name in t.databases && t.databases[db.name].owner == db.owner.name && !t.databases[db.name].public
            && t.databases[db.name].connect
                == (if db.name in s.databases then s.databases[db.name].connect else {}) + RuntimeNames(db.runtime)
            && t.databases[db.name].temporary !! RuntimeNames(db.runtime)
  {
    var start := Anew(s);
    var mid := acts[i..i + 4];
    assert acts == acts[..i] + mid + acts[i + 4..];
    DoAllAppend(cfg, passwords, start, acts[..i], mid);
    DoAllAppend(cfg, passwords, start, acts[..i] + mid, acts[i + 4..]);
    var before := DoAll(cfg, passwords, start, acts[..i]);
    DbUntouched(cfg, passwords, start, acts[..i], db.name);
    FourActs(cfg, passwords, before, db);
    var after := DoAll(cfg, passwords, before, mid);
    DbUntouched(cfg, passwords, after, acts[i + 4..], db.name);
  }

  lemma FourActs(cfg: Config, passwords: Passwords, s: State, db: Database)
    ensures var t := DoAll(cfg, passwords, s,
        [OwnDatabase(db), ClosePublic(db), GrantConnect(db), RevokeTemporary(db)]);
            && (s.threw ==> t.threw)
            && (!s.threw ==> !t.threw && t.databases == s.databases[db.name :=
                 Db(db.owner.name, false,
                     (if db.name in s.databases then s.databases[db.name].connect else {}) + RuntimeNames(db.runtime),
                    (if db.name in s.databases then s.databases[db.name].temporary
                    else {}) - RuntimeNames(db.runtime))])
  {
    var acts := [OwnDatabase(db), ClosePublic(db), GrantConnect(db), RevokeTemporary(db)];
    assert acts[..3] == [OwnDatabase(db), ClosePublic(db), GrantConnect(db)];
    assert acts[..3][..2] == [OwnDatabase(db), ClosePublic(db)];
    assert [OwnDatabase(db), ClosePublic(db)][..1] == [OwnDatabase(db)];
    assert [OwnDatabase(db)][..0] == [];
    assert DoAll(cfg, passwords, s, []) == s;
    assert DoAll(cfg, passwords, s, [OwnDatabase(db)]) == Do(cfg, passwords, s, OwnDatabase(db));
    assert DoAll(cfg, passwords, s, acts[..3][..2])
        == Do(cfg, passwords, Do(cfg, passwords, s, OwnDatabase(db)), ClosePublic(db));
  }

  // ---------- Whole lists of databases ----------

  predicate Apart(a: Login, b: Login) {
    a.name != b.name && a.ref != b.ref
  }

  predicate AllApart(logins: seq<Login>) {
    forall i, j :: 0 <= i < j < |logins| ==> Apart(logins[i], logins[j])
  }

  function LoginsOf(db: Database): seq<Login> {
    [db.owner] + db.runtime
  }

  function Logins(dbs: seq<Database>): seq<Login> {
    if dbs == [] then [] else LoginsOf(dbs[0]) + Logins(dbs[1..])
  }

  lemma {:induction false} LoginActsAre(logins: seq<Login>, restricted: bool, database: string)
    ensures var acts := LoginActs(logins, restricted, database);
            && |acts| == 2 * |logins|
            && (forall j ::
              0 <= j < |logins| ==>
                acts[2 * j] == SetRole(logins[j], restricted) && acts[2 * j + 1] == PutSecret(logins[j], database))
  {
    if logins != [] {
      LoginActsAre(logins[1..], restricted, database);
      var acts, rest := LoginActs(logins, restricted, database), LoginActs(logins[1..], restricted, database);
      forall j | 0 <= j < |logins|
        ensures acts[2 * j] == SetRole(logins[j], restricted) && acts[2 * j + 1] == PutSecret(logins[j], database)
      {
        if j > 0 {
          assert acts[2 * j] == rest[2 * (j - 1)] && acts[2 * j + 1] == rest[2 * (j - 1) + 1];
        }
      }
    }
  }

  ghost predicate NoneTouch(acts: seq<Act>, login: Login) {
    forall k :: 0 <= k < |acts| ==> !Touches(acts[k], login)
  }

  lemma {:induction false} LoginActsApart(logins: seq<Login>, restricted: bool, database: string, login: Login)
    requires forall j :: 0 <= j < |logins| ==> Apart(logins[j], login)
    ensures NoneTouch(LoginActs(logins, restricted, database), login)
  {
    if logins != [] {
      LoginActsApart(logins[1..], restricted, database, login);
    }
  }

  lemma DatabaseActsApart(db: Database, login: Login)
    requires forall j :: 0 <= j < |LoginsOf(db)| ==> Apart(LoginsOf(db)[j], login)
    ensures NoneTouch(DatabaseActs(db), login)
  {
    assert LoginsOf(db)[0] == db.owner;
    forall j | 0 <= j < |db.runtime|
      ensures Apart(db.runtime[j], login)
    {
      assert LoginsOf(db)[j + 1] == db.runtime[j];
    }
    LoginActsApart([db.owner], false, db.name, login);
    LoginActsApart(db.runtime, true, db.name, login);
  }

  lemma {:induction false} AllActsApart(dbs: seq<Database>, login: Login)
    requires forall j :: 0 <= j < |Logins(dbs)| ==> Apart(Logins(dbs)[j], login)
    ensures NoneTouch(AllActs(dbs), login)
  {
    if dbs != [] {
      var first, rest := LoginsOf(dbs[0]), Logins(dbs[1..]);
      assert forall j :: 0 <= j < |first| ==> Logins(dbs)[j] == first[j];
      assert forall j :: 0 <= j < |rest| ==> Logins(dbs)[|first| + j] == rest[j];
      DatabaseActsApart(dbs[0], login);
      AllActsApart(dbs[1..], login);
    }
  }

  lemma Embedded(a: seq<Act>, b: seq<Act>, c: seq<Act>, i: nat, login: Login)
    requires OnlyAt(b, i, login) && NoneTouch(a, login) && NoneTouch(c, login)
    ensures OnlyAt(a + b + c, |a| + i, login)
  {
    var all := a + b + c;
    forall k | 0 <= k < |all| && k != |a| + i && k != |a| + i + 1
      ensures !Touches(all[k], login)
    {
      if k < |a| {
        assert all[k] == a[k];
      } else if k < |a| + |b| {
        assert all[k] == b[k - |a|];
      } else {
        assert all[k] == c[k - |a| - |b|];
      }
    }
  }

  lemma LoginActsOnlyAt(logins: seq<Login>, restricted: bool, database: string, j: nat)
    requires j < |logins| && AllApart(logins)
    ensures OnlyAt(LoginActs(logins, restricted, database), 2 * j, logins[j])
  {
    LoginActsAre(logins, restricted, database);
    var acts := LoginActs(logins, restricted, database);
    forall k | 0 <= k < |acts| && k != 2 * j && k != 2 * j + 1
      ensures !Touches(acts[k], logins[j])
    {
      assert k == 2 * (k / 2) + k % 2;
      assert acts[2 * (k / 2)] == SetRole(logins[k / 2], restricted)
             && acts[2 * (k / 2) + 1] == PutSecret(logins[k / 2], database);
    }
  }

  lemma DatabaseOnlyAt(db: Database, j: nat) returns (i: nat)
    requires j < |LoginsOf(db)| && AllApart(LoginsOf(db))
    ensures OnlyAt(DatabaseActs(db), i, LoginsOf(db)[j])
  {
    var owner, runtime := LoginActs([db.owner], false, db.name), LoginActs(db.runtime, true, db.name);
    var rest := [OwnDatabase(db), ClosePublic(db), GrantConnect(db), RevokeTemporary(db)];
    var login := LoginsOf(db)[j];
    assert forall k :: 0 <= k < |db.runtime| ==> LoginsOf(db)[k + 1] == db.runtime[k];
    if j == 0 {
      LoginActsOnlyAt([db.owner], false, db.name, 0);
      forall k | 0 <= k < |db.runtime|
        ensures Apart(db.runtime[k], login)
      {
        assert Apart(LoginsOf(db)[0], LoginsOf(db)[k + 1]);
      }
      LoginActsApart(db.runtime, true, db.name, login);
      Embedded([], owner, runtime + rest, 0, login);
      assert [] + owner + (runtime + rest) == DatabaseActs(db);
      i := 0;
    } else {
      forall x, y | 0 <= x < y < |db.runtime|
        ensures Apart(db.runtime[x], db.runtime[y])
      {
        assert Apart(LoginsOf(db)[x + 1], LoginsOf(db)[y + 1]);
      }
      LoginActsOnlyAt(db.runtime, true, db.name, j - 1);
      assert Apart(LoginsOf(db)[0], LoginsOf(db)[j]);
      LoginActsApart([db.owner], false, db.name, login);
      Embedded(owner, runtime, rest, 2 * (j - 1), login);
      i := |owner| + 2 * (j - 1);
    }
  }

  lemma ApartIn(all: seq<Login>, from: nat, to: nat)
    requires from <= to <= |all| && AllApart(all)
    ensures AllApart(all[from..to])
  {
  }

  lemma FirstOnlyAt(dbs: seq<Database>, j: nat) returns (i: nat)
    requires dbs != [] && j < |LoginsOf(dbs[0])| && AllApart(LoginsOf(dbs[0]) + Logins(dbs[1..]))
    ensures OnlyAt(AllActs(dbs), i, LoginsOf(dbs[0])[j])
  {
    hide DatabaseActs, OnlyAt, NoneTouch, Logins, LoginsOf;
    var first, rest := LoginsOf(dbs[0]), Logins(dbs[1..]);
    var all := first + rest;
    ApartIn(all, 0, |first|);
    assert all[..|first|] == first;
    i := DatabaseOnlyAt(dbs[0], j);
    forall k | 0 <= k < |rest|
      ensures Apart(rest[k], first[j])
    {
      assert all[j] == first[j] && all[|first| + k] == rest[k];
    }
    AllActsApart(dbs[1..], first[j]);
    Embedded([], DatabaseActs(dbs[0]), AllActs(dbs[1..]), i, first[j]);
    NoActsTouch(first[j]);
    assert [] + DatabaseActs(dbs[0]) + AllActs(dbs[1..]) == AllActs(dbs);
  }

  lemma NoActsTouch(login: Login)
    ensures NoneTouch([], login)
  {
  }

  // Among databases whose logins have their own names and Secrets, each login is set and stored at one place.
  lemma {:induction false} AllOnlyAt(dbs: seq<Database>, j: nat) returns (i: nat)
    requires j < |Logins(dbs)| && AllApart(Logins(dbs))
    ensures OnlyAt(AllActs(dbs), i, Logins(dbs)[j])
  {
    hide DatabaseActs, OnlyAt, NoneTouch, LoginsOf;
    var first, rest, all := LoginsOf(dbs[0]), Logins(dbs[1..]), Logins(dbs);
    if j < |first| {
      i := FirstOnlyAt(dbs, j);
    } else {
      ApartIn(all, |first|, |all|);
      assert all[|first|..|all|] == rest && all[j] == rest[j - |first|];
      var k := AllOnlyAt(dbs[1..], j - |first|);
      forall x | 0 <= x < |first|
        ensures Apart(first[x], all[j])
      {
        assert all[x] == first[x];
      }
      DatabaseActsApart(dbs[0], all[j]);
      NoActsTouch(all[j]);
      Embedded(DatabaseActs(dbs[0]), AllActs(dbs[1..]), [], k, all[j]);
      i := |DatabaseActs(dbs[0])| + k;
      assert DatabaseActs(dbs[0]) + AllActs(dbs[1..]) + [] == AllActs(dbs);
    }
  }

  predicate Plain(dbs: seq<Database>) {
    AllApart(Logins(dbs)) && forall j :: 0 <= j < |Logins(dbs)| ==> PlainName(Logins(dbs)[j].name)
  }

  // After any number of runs that stopped anywhere, a completed run leaves every login's role with the password in its
  // Secret's URL, and no Secret stored before has changed.
  lemma CompletedRunAgrees(cfg: Config, passwords: Passwords, s: State, dbs: seq<Database>, cuts: seq<nat>, j: nat)
    requires Plain(dbs) && Reachable(cfg) && j < |Logins(dbs)| && forall k ::
        0 <= k < |cuts| ==> cuts[k] <= |AllActs(dbs)|
    requires !Run(cfg, passwords, Stopped(cfg, passwords, s, AllActs(dbs), cuts), AllActs(dbs)).threw
    ensures var t := Run(cfg, passwords, Stopped(cfg, passwords, s, AllActs(dbs), cuts), AllActs(dbs));
            var login := Logins(dbs)[j];
            Agree(t, login) && (login.ref in s.secrets ==> t.secrets[login.ref] == s.secrets[login.ref])
  {
    var acts, login := AllActs(dbs), Logins(dbs)[j];
    var i := AllOnlyAt(dbs, j);
    var before := Stopped(cfg, passwords, s, acts, cuts);
    RunAgrees(cfg, passwords, before, acts, i, login);
    if login.ref in s.secrets {
      SecretKeptThrough(cfg, passwords, s, acts, cuts, i, login);
      SecretKept(cfg, passwords, before, acts, |acts|, i, login);
      assert acts[..|acts|] == acts;
    }
  }

  lemma {:induction false} NothingToStore(cfg: Config, passwords: Passwords, s: State, acts: seq<Act>)
    requires forall k :: 0 <= k < |acts| && acts[k].SetRole? ==> acts[k].login.ref in s.secrets
    ensures var t := Run(cfg, passwords, s, acts); t.writes == 0 && t.unsaved == map[] && t.secrets == s.secrets
  {
    hide Do;
    if acts != [] {
      assert forall k :: 0 <= k < |acts| - 1 ==> acts[..|acts| - 1][k] == acts[k];
      NothingToStore(cfg, passwords, s, acts[..|acts| - 1]);
      StoresNothing(cfg, passwords, DoAll(cfg, passwords, Anew(s), acts[..|acts| - 1]), acts[|acts| - 1]);
    }
  }

  lemma StoresNothing(cfg: Config, passwords: Passwords, s: State, act: Act)
    requires s.unsaved == map[] && (act.SetRole? ==> act.login.ref in s.secrets)
    ensures var t := Do(cfg, passwords, s, act); t.unsaved == map[] && t.writes == s.writes && t.secrets == s.secrets
  {
    hide PasswordIn, UrlOf, Server, RuntimeNames;
  }

  lemma {:induction false} SetRolesAreLogins(dbs: seq<Database>, k: nat)
    requires k < |AllActs(dbs)| && AllActs(dbs)[k].SetRole?
    ensures AllActs(dbs)[k].login in Logins(dbs)
  {
    var first := DatabaseActs(dbs[0]);
    if k < |first| {
      var db := dbs[0];
      LoginActsAre([db.owner], false, db.name);
      LoginActsAre(db.runtime, true, db.name);
      if k >= 2 {
        var m := (k - 2) / 2;
        assert k - 2 == 2 * m + (k - 2) % 2;
        assert first[k] == LoginActs(db.runtime, true, db.name)[k - 2];
        assert first[k].login == db.runtime[m];
        assert LoginsOf(db)[m + 1] == db.runtime[m];
      } else {
        assert first[k].login == LoginsOf(db)[0];
      }
      assert first[k].login in LoginsOf(db);
    } else {
      SetRolesAreLogins(dbs[1..], k - |first|);
    }
  }

  // A further run, completed or not, writes no Secret.
  lemma FurtherRunWritesNone(cfg: Config, passwords: Passwords, s: State, dbs: seq<Database>)
    requires forall j :: 0 <= j < |Logins(dbs)| ==> Agree(s, Logins(dbs)[j])
    ensures Run(cfg, passwords, s, AllActs(dbs)).writes == 0
            && Run(cfg, passwords, s, AllActs(dbs)).secrets == s.secrets
  {
    var acts := AllActs(dbs);
    forall k | 0 <= k < |acts| && acts[k].SetRole?
      ensures acts[k].login.ref in s.secrets
    {
      SetRolesAreLogins(dbs, k);
      var j :| 0 <= j < |Logins(dbs)| && Logins(dbs)[j] == acts[k].login;
      assert Agree(s, Logins(dbs)[j]);
    }
    NothingToStore(cfg, passwords, s, acts);
  }

  // ---------- Each database's own four acts ----------

  lemma {:induction false} LoginActsNoDb(logins: seq<Login>, restricted: bool, database: string)
    ensures forall k ::
        0 <= k < |LoginActs(logins, restricted, database)| ==> DbOf(LoginActs(logins, restricted, database)[k]) == None
  {
    if logins != [] {
      LoginActsNoDb(logins[1..], restricted, database);
    }
  }

  predicate NoDb(acts: seq<Act>, name: string) {
    forall k :: 0 <= k < |acts| ==> DbOf(acts[k]) != Some(name)
  }

  lemma {:induction false} AllActsNoDb(dbs: seq<Database>, name: string)
    requires forall d :: 0 <= d < |dbs| ==> dbs[d].name != name
    ensures NoDb(AllActs(dbs), name)
  {
    if dbs != [] {
      LoginActsNoDb([dbs[0].owner], false, dbs[0].name);
      LoginActsNoDb(dbs[0].runtime, true, dbs[0].name);
      AllActsNoDb(dbs[1..], name);
    }
  }

  lemma DatabaseDbAt(db: Database)
    ensures |DatabaseActs(db)| >= 4 && DbOnlyAt(DatabaseActs(db), |DatabaseActs(db)| - 4, db)
    ensures forall k ::
        0 <= k < |DatabaseActs(db)| ==> DbOf(DatabaseActs(db)[k]) == None || DbOf(DatabaseActs(db)[k]) == Some(db.name)
  {
    var acts := DatabaseActs(db);
    LoginActsNoDb([db.owner], false, db.name);
    LoginActsNoDb(db.runtime, true, db.name);
    assert acts[|acts| - 4..|acts| - 4 + 4]
        == [OwnDatabase(db), ClosePublic(db), GrantConnect(db), RevokeTemporary(db)];
  }

  lemma DbEmbedded(a: seq<Act>, b: seq<Act>, i: nat, db: Database)
    requires (DbOnlyAt(a, i, db) && NoDb(b, db.name)) || (i >= |a| && DbOnlyAt(b, i - |a|, db) && NoDb(a, db.name))
    ensures DbOnlyAt(a + b, i, db)
  {
    var all := a + b;
    if i >= |a| && DbOnlyAt(b, i - |a|, db) && NoDb(a, db.name) {
      assert all[i..i + 4] == b[i - |a|..i - |a| + 4];
    } else {
      assert all[i..i + 4] == a[i..i + 4];
    }
    forall k | 0 <= k < |all| && !(i <= k < i + 4) && DbOf(all[k]).Some?
      ensures DbOf(all[k]).value != db.name
    {
      if k < |a| {
        assert all[k] == a[k];
      } else {
        assert all[k] == b[k - |a|];
      }
    }
  }

  lemma {:induction false} DbAt(dbs: seq<Database>, d: nat) returns (i: nat)
    requires d < |dbs| && forall x, y :: 0 <= x < y < |dbs| ==> dbs[x].name != dbs[y].name
    ensures DbOnlyAt(AllActs(dbs), i, dbs[d])
  {
    hide DatabaseActs, DbOnlyAt;
    var first, rest := DatabaseActs(dbs[0]), AllActs(dbs[1..]);
    DatabaseDbAt(dbs[0]);
    if d == 0 {
      AllActsNoDb(dbs[1..], dbs[0].name);
      i := |first| - 4;
    } else {
      var j := DbAt(dbs[1..], d - 1);
      i := |first| + j;
      assert NoDb(first, dbs[d].name);
    }
    DbEmbedded(first, rest, i, dbs[d]);
  }

  // After a completed run, from whatever was there, each database is its owner's, closed to the public, and open to its
  // runtime logins and only those besides whoever had been let in by name.
  lemma CompletedRunOwns(cfg: Config, passwords: Passwords, s: State, dbs: seq<Database>, d: nat)
    requires d < |dbs| && (forall x, y :: 0 <= x < y < |dbs| ==> dbs[x].name != dbs[y].name)
    requires !Run(cfg, passwords, s, AllActs(dbs)).threw
    ensures var t, db := Run(cfg, passwords, s, AllActs(dbs)), dbs[d];
            && db.name in t.databases && t.databases[db.name].owner == db.owner.name && !t.databases[db.name].public
            && t.databases[db.name].connect
                == (if db.name in s.databases then s.databases[db.name].connect else {}) + RuntimeNames(db.runtime)
            && t.databases[db.name].temporary !! RuntimeNames(db.runtime)
  {
    var i := DbAt(dbs, d);
    RunOwns(cfg, passwords, s, AllActs(dbs), i, dbs[d]);
  }

  // ---------- Who may connect, over runs that stopped ----------

  function ConnectIn(s: State, name: string): set<string> {
    if name in s.databases then s.databases[name].connect else {}
  }

  // Whoever an act of these lets into the database is one of its runtime logins.
  predicate LetsInOwn(acts: seq<Act>, db: Database) {
    forall k :: 0 <= k < |acts| && acts[k].GrantConnect? && acts[k].db.name == db.name ==> acts[k].db == db
  }

  predicate Between(low: set<string>, mid: set<string>, own: set<string>) {
    low <= mid <= low + own
  }

  lemma ActConnects(cfg: Config, passwords: Passwords, s: State, act: Act, db: Database)
    requires LetsInOwn([act], db)
    ensures Between(ConnectIn(s, db.name), ConnectIn(Do(cfg, passwords, s, act), db.name), RuntimeNames(db.runtime))
  {
    hide PasswordIn, UrlOf, Server, RuntimeNames;
    assert [act][0] == act;
  }

  lemma {:induction false} RunConnects(cfg: Config, passwords: Passwords, s: State, acts: seq<Act>, db: Database)
    requires LetsInOwn(acts, db)
    ensures Between(ConnectIn(s, db.name), ConnectIn(Run(cfg, passwords, s, acts), db.name), RuntimeNames(db.runtime))
  {
    hide Do;
    if acts != [] {
      var n := |acts| - 1;
      assert forall k :: 0 <= k < n ==> acts[..n][k] == acts[k];
      RunConnects(cfg, passwords, s, acts[..n], db);
      ActConnects(cfg, passwords, Run(cfg, passwords, s, acts[..n]), acts[n], db);
    }
  }

  // Runs that stopped anywhere have let in none but its runtime logins, and shut none out.
  lemma {:induction false} StoppedConnects(
      cfg: Config, passwords: Passwords, s: State, acts: seq<Act>, cuts: seq<nat>, db: Database)
    requires LetsInOwn(acts, db) && forall i :: 0 <= i < |cuts| ==> cuts[i] <= |acts|
    ensures Between(ConnectIn(s, db.name), ConnectIn(Stopped(cfg, passwords, s, acts, cuts), db.name),
        RuntimeNames(db.runtime))
  {
    hide Run;
    if cuts != [] {
      var k := |cuts| - 1;
      StoppedConnects(cfg, passwords, s, acts, cuts[..k], db);
      RunConnects(cfg, passwords, Stopped(cfg, passwords, s, acts, cuts[..k]), acts[..cuts[k]], db);
    }
  }

  lemma {:induction false} GrantsAreOf(dbs: seq<Database>, k: nat)
    requires k < |AllActs(dbs)| && AllActs(dbs)[k].GrantConnect?
    ensures AllActs(dbs)[k].db in dbs
  {
    var first := DatabaseActs(dbs[0]);
    if k < |first| {
      DatabaseDbAt(dbs[0]);
      LoginActsNoDb([dbs[0].owner], false, dbs[0].name);
      LoginActsNoDb(dbs[0].runtime, true, dbs[0].name);
      assert first[k] == AllActs(dbs)[k];
    } else {
      GrantsAreOf(dbs[1..], k - |first|);
    }
  }

  lemma AllLetInOwn(dbs: seq<Database>, d: nat)
    requires d < |dbs| && forall x, y :: 0 <= x < y < |dbs| ==> dbs[x].name != dbs[y].name
    ensures LetsInOwn(AllActs(dbs), dbs[d])
  {
    forall k | 0 <= k < |AllActs(dbs)| && AllActs(dbs)[k].GrantConnect? && AllActs(dbs)[k].db.name == dbs[d].name
      ensures AllActs(dbs)[k].db == dbs[d]
    {
      GrantsAreOf(dbs, k);
    }
  }
}
