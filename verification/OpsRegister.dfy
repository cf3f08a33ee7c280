// The register Job's own machine client, ops-register (infra/ops/src/register.ts:73-120): minted with the root secret
// by the run that finds no secret of it stored, and what every later run signs in as.
module OpsRegister {
  import opened Options
  import opened Registrar
  import opened Register
  import opened RegisterActs

  const OPS := "ops-register"

  function OpsClient(): Op {
    EnsureClient(ClientKey(OPS), OPS, Declared("Ops register", MACHINE, {}, {}, PLATFORM))
  }

  function OpsLink(cfg: Config): Op {
    EnsureLink("ops-register-link-v1", OPS, cfg.admin)
  }

  function OpsCapability(cfg: Config): Op {
    EnsureCapability("ops-register-capability-v1", MachineSlot(OPS, cfg.admin), PLATFORM)
  }

  // `machine`, of ops-register.
  function OpsRegisterActs(cfg: Config): seq<Act> {
    [Ensure(OpsClient()), Rotate(OPS), Put(OPS), Ensure(OpsLink(cfg)), Ensure(OpsCapability(cfg))]
  }

  lemma OpsRegisterIsMachine(cfg: Config)
    ensures OpsRegisterActs(cfg)
        == MachineActs(OPS, "Ops register", PLATFORM, AudienceActs(OPS, "", cfg.admin, PLATFORM))
  {
    assert OPS + "-link" + "" + "-v1" == "ops-register-link-v1";
    assert OPS + "-capability" + "" + "-v1" == "ops-register-capability-v1";
  }

  function SignsIn(cfg: Config): Act {
    SignIn(OPS, cfg.admin, PLATFORM)
  }

  // A run as root first where no secret is stored; then, and else, as ops-register.
  function Turn(s: State, cfg: Config, mcps: seq<Mcp>): seq<Act> {
    (if OPS !in s.store then OpsRegisterActs(cfg) else []) + [SignsIn(cfg)] + JobActs(cfg, mcps)
  }

  function Cut(acts: seq<Act>, n: nat): seq<Act> {
    if n <= |acts| then acts[..n] else acts
  }

  // Runs one after another, each cut off after so many acts, or whole, or ended by a throw.
  function Turns(s: State, cfg: Config, mcps: seq<Mcp>, cuts: seq<nat>): State {
    if cuts == [] then s
    else
      var t := Turns(s, cfg, mcps, cuts[..|cuts| - 1]);
      Registered(t, Cut(Turn(t, cfg, mcps), cuts[|cuts| - 1]))
  }

  // ID gives ops-register its token.
  predicate Able(s: State, cfg: Config) {
    Trusted(s, OPS, cfg.admin, PLATFORM)
  }

  // ---------- What a state lacks ----------

  predicate Linked(s: State, cfg: Config) {
    OPS in s.id.rows.clients && cfg.admin in s.id.rows.clients[OPS].links
  }

  predicate Granted(s: State, cfg: Config) {
    Holds(s.id.rows, OpsCapability(cfg))
  }

  // ops-register's client is there or ID will make it; so of its capability.
  predicate ClientClear(s: State) {
    Clear(s.id, OpsClient())
  }

  predicate CapabilityClear(s: State, cfg: Config) {
    Clear(s.id, OpsCapability(cfg))
  }

  // Its client, allowing what it needs.
  predicate Has(s: State) {
    OPS in s.id.rows.clients && PLATFORM <= s.id.rows.clients[OPS].machineScopes
  }

  // One state's link, capability and what ID will make are another's.
  predicate Alike(s: State, t: State, cfg: Config) {
    && (Linked(t, cfg) <==> Linked(s, cfg)) && (Granted(t, cfg) <==> Granted(s, cfg))
    && (ClientClear(t) <==> ClientClear(s)) && (CapabilityClear(t, cfg) <==> CapabilityClear(s, cfg))
  }

  // Its secret is stored and is ID's, and the client is as it should be.
  predicate IsMinted(s: State) {
    Stored(s, OPS) && Has(s) && (OPS in s.answered ==> s.answered[OPS] == s.secrets[OPS])
  }

  lemma AbleIs(s: State, cfg: Config)
    requires IsMinted(s)
    ensures Able(s, cfg) <==> Linked(s, cfg) && Granted(s, cfg)
  {}

  // ---------- Its five acts, one by one ----------

  lemma ClientRows(s: State, cfg: Config)
    requires !s.id.threw
    ensures var t := Step(s.id, OpsClient()); var link, slot := OpsLink(cfg), MachineSlot(OPS, cfg.admin);
            && t.rows.capabilities == s.id.rows.capabilities
            && (Present(t.rows, RowOf(link)) <==> Present(s.id.rows, RowOf(link)))
            && (Clear(s.id, OpsClient()) ==>
              !t.threw && OPS in t.rows.clients && PLATFORM <= t.rows.clients[OPS].machineScopes)
            && (!Clear(s.id, OpsClient()) ==> t.rows == s.id.rows && OPS !in s.id.rows.clients)
  {}

  lemma ClearKept(w: World, op: Op, cfg: Config)
    requires op == OpsClient() || op == OpsLink(cfg) || op == OpsCapability(cfg)
    ensures Clear(Step(w, op), OpsClient()) <==> Clear(w, OpsClient())
    ensures Clear(Step(w, op), OpsCapability(cfg)) <==> Clear(w, OpsCapability(cfg))
  {
    ClearStep(w, op, OpsClient());
    ClearStep(w, op, OpsCapability(cfg));
  }

  lemma ClientAct(s: State, cfg: Config)
    requires !s.id.threw && OPS !in s.store && OPS !in s.answered
    ensures var t := Do(s, Ensure(OpsClient()));
            && t.store == s.store && Alike(s, t, cfg)
            && (OPS in t.answered ==> OPS in t.secrets && t.answered[OPS] == t.secrets[OPS])
            && (ClientClear(s) ==> !t.id.threw && Has(t))
            && (!ClientClear(s) ==> t.id.threw || (OPS !in t.id.rows.clients && OPS !in t.answered))
  {
    ClientRows(s, cfg);
    ClearKept(s.id, OpsClient(), cfg);
    if OutcomeOf(s.id, OpsClient()) == Made {
      MadeClient(s.id, OpsClient());
      MadeIsClear(s.id);
    }
    hide Step, OutcomeOf, Clear;
  }

  lemma MadeIsClear(w: World)
    requires OutcomeOf(w, OpsClient()) == Made
    ensures Clear(w, OpsClient())
  {}

  lemma RotateAct(s: State, cfg: Config)
    requires !s.id.threw && OPS !in s.store
    requires OPS in s.answered ==> OPS in s.secrets && s.answered[OPS] == s.secrets[OPS]
    ensures var t := Do(s, Rotate(OPS));
            && t.store == s.store && Alike(s, t, cfg)
            && (Has(s) ==>
              !t.id.threw && Has(t) && OPS in t.answered && OPS in t.secrets && t.answered[OPS] == t.secrets[OPS])
            && (OPS !in s.id.rows.clients && OPS !in s.answered ==> t.id.threw)
  {}

  lemma PutAct(s: State, cfg: Config)
    requires !s.id.threw && Has(s) && OPS in s.answered && OPS in s.secrets && s.answered[OPS] == s.secrets[OPS]
    ensures var t := Do(s, Put(OPS)); !t.id.threw && IsMinted(t) && Alike(s, t, cfg)
  {}

  lemma LinkAct(s: State, cfg: Config)
    requires !s.id.threw && IsMinted(s)
    ensures var t := Do(s, Ensure(OpsLink(cfg)));
            && !t.id.threw && IsMinted(t) && Linked(t, cfg) && (Granted(t, cfg) <==> Granted(s, cfg))
            && (CapabilityClear(t, cfg) <==> CapabilityClear(s, cfg))
  {
    ClearKept(s.id, OpsLink(cfg), cfg);
    hide Clear;
  }

  lemma CapabilityAct(s: State, cfg: Config)
    requires !s.id.threw && IsMinted(s)
    ensures var t := Do(s, Ensure(OpsCapability(cfg)));
            && IsMinted(t) && (Linked(t, cfg) <==> Linked(s, cfg))
            && (Granted(t, cfg) <==> Granted(s, cfg) || CapabilityClear(s, cfg))
  {}

  // After `n` of its five acts: before its put nothing that matters has changed; from then on it is minted, with its
  // link from the fourth act and its capability from the fifth, if ID makes one.
  predicate AfterActs(s: State, t: State, cfg: Config, n: nat) {
    if n < 3 || !ClientClear(s) then OPS !in t.store && Alike(s, t, cfg) && (n >= 3 ==> t.id.threw)
    else
      && IsMinted(t) && (n < 5 ==> !t.id.threw)
      && (Linked(t, cfg) <==> Linked(s, cfg) || n >= 4)
      && (Granted(t, cfg) <==> Granted(s, cfg) || (n >= 5 && CapabilityClear(s, cfg)))
      && (n < 5 ==> (CapabilityClear(t, cfg) <==> CapabilityClear(s, cfg)))
  }

  lemma AnewAlike(s: State, cfg: Config)
    ensures Alike(s, Anew(s), cfg)
  {}

  lemma FirstThreeActs(s: State, cfg: Config)
    requires OPS !in s.store
    ensures var a := Anew(s); var one := Do(a, Ensure(OpsClient())); var two := Do(one, Rotate(OPS));
            var three := Do(two, Put(OPS));
            && AfterActs(s, a, cfg, 0) && AfterActs(s, one, cfg, 1) && AfterActs(s, two, cfg, 2)
            && AfterActs(s, three, cfg, 3)
  {
    AnewAlike(s, cfg);
    var a := Anew(s);
    ClientAct(a, cfg);
    var one := Do(a, Ensure(OpsClient()));
    hide Do, Linked, Granted, CapabilityClear, Has, ClientClear, IsMinted;
    if one.id.threw {
      ThrownStays(one, Rotate(OPS));
      ThrownStays(one, Put(OPS));
    } else {
      RotateAct(one, cfg);
      ClientOut(one);
      var two := Do(one, Rotate(OPS));
      if two.id.threw {
        ThrownStays(two, Put(OPS));
      } else {
        PutAct(two, cfg);
      }
    }
  }

  lemma ClientOut(s: State)
    ensures OPS !in s.id.rows.clients ==> !Has(s)
  {}

  lemma FiveActs(s: State, cfg: Config, n: nat)
    requires OPS !in s.store && n <= 5
    ensures |OpsRegisterActs(cfg)| == 5
    ensures AfterActs(s, DoAll(Anew(s), OpsRegisterActs(cfg)[..n]), cfg, n)
  {
    var acts, a := OpsRegisterActs(cfg), Anew(s);
    FirstThreeActs(s, cfg);
    FirstThree(a, acts);
    hide Do, Linked, Granted, CapabilityClear, Has, ClientClear, IsMinted;
    var three := DoAll(a, acts[..3]);
    assert DoAll(a, acts[..4]) == Do(three, acts[3]) by { Prefix(a, acts, 3); }
    var four := DoAll(a, acts[..4]);
    assert DoAll(a, acts[..5]) == Do(four, acts[4]) by { Prefix(a, acts, 4); }
    if ClientClear(s) {
      LinkAct(three, cfg);
      CapabilityAct(four, cfg);
    } else {
      ThrownStays(three, acts[3]);
      ThrownStays(four, acts[4]);
    }
  }

  lemma FirstThree(s: State, acts: seq<Act>)
    requires |acts| >= 3
    ensures DoAll(s, acts[..0]) == s && DoAll(s, acts[..1]) == Do(s, acts[0])
    ensures DoAll(s, acts[..2]) == Do(Do(s, acts[0]), acts[1])
    ensures DoAll(s, acts[..3]) == Do(Do(Do(s, acts[0]), acts[1]), acts[2])
  {
    assert acts[..0] == [];
    Prefix(s, acts, 0);
    Prefix(s, acts, 1);
    Prefix(s, acts, 2);
  }

  // ---------- What later acts keep ----------

  lemma ClientWith(rows: Rows, op: Op, c: string)
    requires c in rows.clients
    ensures var after := With(rows, op);
            && c in after.clients && rows.clients[c].machineScopes <= after.clients[c].machineScopes
            && rows.clients[c].links <= after.clients[c].links
  {
    hide ResourceAfter;
  }

  lemma CapabilityWith(rows: Rows, op: Op, slot: Slot)
    requires slot in rows.capabilities
    ensures slot in With(rows, op).capabilities && rows.capabilities[slot] <= With(rows, op).capabilities[slot]
  {
    hide ResourceAfter, ClientAfter;
  }

  lemma ActKeepsAble(s: State, act: Act, cfg: Config)
    requires IsMinted(s) && Able(s, cfg)
    ensures IsMinted(Do(s, act)) && Able(Do(s, act), cfg)
  {
    if act.Ensure? && !s.id.threw {
      StepIs(s.id, act.op);
      ClientWith(s.id.rows, act.op, OPS);
      CapabilityWith(s.id.rows, act.op, MachineSlot(OPS, cfg.admin));
      if act.op.EnsureClient? && OutcomeOf(s.id, act.op) == Made {
        MadeClient(s.id, act.op);
      }
      hide Step, OutcomeOf, With;
    } else {
      hide Step, OutcomeOf;
    }
  }

  lemma {:induction false} AbleKept(s: State, acts: seq<Act>, cfg: Config)
    requires IsMinted(s) && Able(s, cfg)
    ensures IsMinted(DoAll(s, acts)) && Able(DoAll(s, acts), cfg)
  {
    hide Do, Able, IsMinted;
    if acts != [] {
      var n := |acts| - 1;
      AbleKept(s, acts[..n], cfg);
      ActKeepsAble(DoAll(s, acts[..n]), acts[n], cfg);
    }
  }

  // A minted run goes on only if ID gives it its token; else nothing changes from there.
  lemma SignedIn(s: State, cfg: Config, rest: seq<Act>)
    requires IsMinted(s)
    ensures var t := DoAll(s, [SignsIn(cfg)] + rest);
            && IsMinted(t) && (Able(t, cfg) <==> Able(s, cfg))
            && (!Able(s, cfg) ==> t == s.(id := s.id.(threw := true)))
  {
    DoAllAppend(s, [SignsIn(cfg)], rest);
    assert [SignsIn(cfg)][..0] == [];
    var one := DoAll(s, [SignsIn(cfg)]);
    assert one == Do(s, SignsIn(cfg));
    if Able(s, cfg) {
      AbleKept(s, rest, cfg);
    } else {
      ThrownStaysAll(one, rest);
    }
  }

  // What a run from before ops-register's secret is stored leaves: its cut decides.
  predicate AfterTurn(s: State, t: State, cfg: Config, n: nat) {
    if n < 3 || !ClientClear(s) then OPS !in t.store && Alike(s, t, cfg)
    else
      && IsMinted(t) && (Able(t, cfg) <==> WillBeAble(s, cfg, n))
      && (n < 5 ==> (Granted(t, cfg) <==> Granted(s, cfg)) && (CapabilityClear(t, cfg) <==> CapabilityClear(s, cfg)))
  }

  // It was linked and granted before, or this run's acts got as far and ID made what it lacked.
  predicate WillBeAble(s: State, cfg: Config, n: nat) {
    (Linked(s, cfg) || n >= 4) && (Granted(s, cfg) || (n >= 5 && CapabilityClear(s, cfg)))
  }

  lemma FirstTurn(s: State, cfg: Config, mcps: seq<Mcp>, n: nat)
    requires OPS !in s.store
    ensures AfterTurn(s, Registered(s, Cut(Turn(s, cfg, mcps), n)), cfg, n)
  {
    var own, all, a := OpsRegisterActs(cfg), Turn(s, cfg, mcps), Anew(s);
    FiveActs(s, cfg, if n < 5 then n else 5);
    hide OpsRegisterActs, JobActs, Do, Linked, Granted, CapabilityClear, ClientClear, IsMinted, SignsIn, Able;
    if n <= 5 {
      assert Cut(all, n) == own[..n];
      var t := DoAll(a, own[..n]);
      if n >= 3 && ClientClear(s) {
        AbleIs(t, cfg);
      }
    } else {
      var rest := Cut(all, n)[6..];
      assert own[..5] == own;
      assert Cut(all, n) == own + ([SignsIn(cfg)] + rest);
      DoAllAppend(a, own, [SignsIn(cfg)] + rest);
      var t := DoAll(a, own);
      if ClientClear(s) {
        AbleIs(t, cfg);
        if t.id.threw {
          ThrownStaysAll(t, [SignsIn(cfg)] + rest);
        } else {
          SignedIn(t, cfg, rest);
        }
      } else {
        ThrownStaysAll(t, [SignsIn(cfg)] + rest);
      }
    }
  }

  // ---------- Which runs leave it able ----------

  // Every run before the k-th was cut off before it stored the secret; the k-th went as far.
  predicate Stores(cuts: seq<nat>, k: nat) {
    k < |cuts| && cuts[k] >= 3 && forall j :: 0 <= j < k ==> cuts[j] < 3
  }

  lemma {:induction false} NoneStores(s: State, cfg: Config, mcps: seq<Mcp>, cuts: seq<nat>)
    requires OPS !in s.store && (ClientClear(s) ==> forall j :: 0 <= j < |cuts| ==> cuts[j] < 3)
    ensures var t := Turns(s, cfg, mcps, cuts); OPS !in t.store && Alike(s, t, cfg)
  {
    hide Turn, Linked, Granted, CapabilityClear, ClientClear, IsMinted;
    if cuts != [] {
      var n := |cuts| - 1;
      NoneStores(s, cfg, mcps, cuts[..n]);
      FirstTurn(Turns(s, cfg, mcps, cuts[..n]), cfg, mcps, cuts[n]);
    }
  }

  lemma LaterTurn(s: State, cfg: Config, mcps: seq<Mcp>, n: nat)
    requires IsMinted(s)
    ensures var t := Registered(s, Cut(Turn(s, cfg, mcps), n));
            && IsMinted(t) && (Able(t, cfg) <==> Able(s, cfg))
            && (!Able(s, cfg) ==> Again(t.id) == Again(s.id) && t.store == s.store)
  {
    var all := Turn(s, cfg, mcps);
    assert all == [SignsIn(cfg)] + JobActs(cfg, mcps);
    AnewMinted(s, cfg);
    hide JobActs, IsMinted, Able, SignsIn;
    if n == 0 {
      assert Cut(all, n) == [];
    } else {
      assert Cut(all, n) == [SignsIn(cfg)] + Cut(all, n)[1..];
      SignedIn(Anew(s), cfg, Cut(all, n)[1..]);
    }
  }

  lemma AnewMinted(s: State, cfg: Config)
    requires IsMinted(s)
    ensures IsMinted(Anew(s)) && (Able(Anew(s), cfg) <==> Able(s, cfg)) && OPS in s.store
  {}

  // Once its secret is stored a run leaves ops-register able, or no run after it changes anything.
  lemma {:induction false} AfterStored(s: State, cfg: Config, mcps: seq<Mcp>, cuts: seq<nat>, k: nat)
    requires OPS !in s.store && ClientClear(s) && Stores(cuts, k)
    ensures var t := Turns(s, cfg, mcps, cuts); var at := Turns(s, cfg, mcps, cuts[..k + 1]);
            && IsMinted(t) && (Able(t, cfg) <==> WillBeAble(s, cfg, cuts[k]))
            && (!Able(t, cfg) ==> Again(t.id) == Again(at.id) && t.store == at.store)
            && AfterTurn(s, at, cfg, cuts[k])
    decreases |cuts|
  {
    hide Turn, Linked, Granted, CapabilityClear, ClientClear, IsMinted, Able;
    var n := |cuts| - 1;
    var before := Turns(s, cfg, mcps, cuts[..n]);
    if k == n {
      assert cuts[..k + 1] == cuts;
      NoneStores(s, cfg, mcps, cuts[..n]);
      FirstTurn(before, cfg, mcps, cuts[n]);
    } else {
      assert cuts[..n][..k + 1] == cuts[..k + 1];
      AfterStored(s, cfg, mcps, cuts[..n], k);
      LaterTurn(before, cfg, mcps, cuts[n]);
    }
  }

  // From any state without its secret, over any runs of the Job, each cut off anywhere: ops-register ends with its
  // secret stored and ID gives it a token if and only if ID has or makes its client, and the run that stored the secret
  // found or made its link and its capability: it was not cut off before the one it lacked, and no receipt stood for
  // the capability.
  lemma OpsRegisterAbleIff(s: State, cfg: Config, mcps: seq<Mcp>, cuts: seq<nat>)
    requires OPS !in s.store
    ensures (OPS in Turns(s, cfg, mcps, cuts).store && Able(Turns(s, cfg, mcps, cuts), cfg))
       <==> (ClientClear(s) && exists k: nat :: Stores(cuts, k) && WillBeAble(s, cfg, cuts[k]))
  {
    hide Turns, Able, ClientClear, IsMinted, WillBeAble, AfterTurn;
    if ClientClear(s) && exists j :: 0 <= j < |cuts| && cuts[j] >= 3 {
      var k := FirstStore(cuts);
      AfterStored(s, cfg, mcps, cuts, k);
      MintedStored(Turns(s, cfg, mcps, cuts));
    } else {
      NoneStores(s, cfg, mcps, cuts);
    }
  }

  lemma MintedStored(s: State)
    requires IsMinted(s)
    ensures OPS in s.store
  {}

  lemma {:induction false} FirstStore(cuts: seq<nat>) returns (k: nat)
    requires exists j :: 0 <= j < |cuts| && cuts[j] >= 3
    ensures Stores(cuts, k)
  {
    if j :| 0 <= j < |cuts| - 1 && cuts[j] >= 3 {
      assert cuts[..|cuts| - 1][j] == cuts[j];
      k := FirstStore(cuts[..|cuts| - 1]);
    } else {
      k := |cuts| - 1;
    }
  }

  function Emptied(s: State): State {
    s.(store := s.store - {OPS})
  }

  // A first run cut off in the window leaves every later run nothing to do, until an operator empties the stored
  // secret: then a whole run mints ops-register as it should have been, if and only if no receipt stands for its
  // capability.
  lemma OpsRegisterWindow(s: State, cfg: Config, mcps: seq<Mcp>, n: nat, later: seq<nat>, m: nat)
    requires OPS !in s.store && ClientClear(s) && !Granted(s, cfg) && 3 <= n < 5 && m >= 5
    ensures var cut := Turns(s, cfg, mcps, [n]); var t := Turns(s, cfg, mcps, [n] + later);
            && Again(t.id) == Again(cut.id) && t.store == cut.store && OPS in t.store && !Able(t, cfg)
            && (Able(Turns(Emptied(t), cfg, mcps, [m]), cfg) <==> CapabilityClear(s, cfg))
  {
    hide *;
    var cuts := [n] + later;
    assert cuts[..1] == [n];
    FirstStores(cuts);
    FirstStores([m]);
    AfterStored(s, cfg, mcps, cuts, 0);
    var cut, t := Turns(s, cfg, mcps, [n]), Turns(s, cfg, mcps, cuts);
    InWindow(s, cut, cfg, n);
    MintedStored(t);
    EmptiedIs(cut, t, cfg);
    OpsRegisterAbleIff(Emptied(t), cfg, mcps, [m]);
    WholeIs(Emptied(t), cfg, m);
    OnlyFirst(m);
    if Able(Turns(Emptied(t), cfg, mcps, [m]), cfg) {
      AbleStored(Turns(Emptied(t), cfg, mcps, [m]), cfg);
    }
  }

  lemma FirstStores(cuts: seq<nat>)
    requires cuts != [] && cuts[0] >= 3
    ensures Stores(cuts, 0)
  {}

  lemma OnlyFirst(m: nat)
    ensures forall k :: Stores([m], k) ==> k == 0
  {}

  lemma WholeIs(s: State, cfg: Config, m: nat)
    requires m >= 5
    ensures WillBeAble(s, cfg, m) <==> Granted(s, cfg) || CapabilityClear(s, cfg)
  {}

  lemma InWindow(s: State, t: State, cfg: Config, n: nat)
    requires AfterTurn(s, t, cfg, n) && ClientClear(s) && !Granted(s, cfg) && 3 <= n < 5
    ensures !WillBeAble(s, cfg, n) && IsMinted(t) && !Granted(t, cfg)
    ensures CapabilityClear(t, cfg) <==> CapabilityClear(s, cfg)
  {}

  lemma AbleStored(s: State, cfg: Config)
    requires Able(s, cfg)
    ensures OPS in s.store
  {}

  lemma EmptiedIs(cut: State, t: State, cfg: Config)
    requires Again(t.id) == Again(cut.id) && IsMinted(t)
    ensures OPS !in Emptied(t).store && ClientClear(Emptied(t))
    ensures (Granted(Emptied(t), cfg) <==> Granted(cut, cfg))
    ensures (CapabilityClear(Emptied(t), cfg) <==> CapabilityClear(cut, cfg))
  {}

  // ---------- Its capability removed ----------

  lemma {:induction false} ReceiptsKept(s: State, acts: seq<Act>, key: Key)
    requires key in s.id.receipts
    ensures key in DoAll(s, acts).id.receipts
  {
    if acts != [] {
      var n := |acts| - 1;
      ReceiptsKept(s, acts[..n], key);
      if acts[n].Ensure? {
        StepIs(DoAll(s, acts[..n]).id, acts[n].op);
      }
      hide Step, OutcomeOf;
    }
  }

  predicate Unmade(w: World, cfg: Config) {
    !Present(w.rows, RowOf(OpsCapability(cfg))) && !Used(w, OpsCapability(cfg))
  }

  lemma UnmadeKept(s: State, act: Act, cfg: Config)
    requires Unmade(s.id, cfg) && act in OpsRegisterActs(cfg)[..4]
    ensures Unmade(Do(s, act).id, cfg)
  {
    if act.Ensure? {
      OtherStep(s.id, act.op, OpsCapability(cfg));
    }
    hide Step, OutcomeOf;
  }

  lemma CapabilityMade(s: State, cfg: Config)
    requires !s.id.threw && IsMinted(s) && Unmade(s.id, cfg)
    ensures KeyOf(OpsCapability(cfg)) in Do(s, Ensure(OpsCapability(cfg))).id.receipts
  {}

  lemma UsedAfter(s: State, cfg: Config, mcps: seq<Mcp>, n: nat)
    requires OPS !in s.store && ClientClear(s) && Unmade(s.id, cfg) && n >= 5
    ensures KeyOf(OpsCapability(cfg)) in Registered(s, Cut(Turn(s, cfg, mcps), n)).id.receipts
  {
    var acts, a, all := OpsRegisterActs(cfg), Anew(s), Turn(s, cfg, mcps);
    FiveActs(s, cfg, 4);
    FourUnmade(s, cfg);
    assert acts[4] == Ensure(OpsCapability(cfg));
    var rest := Cut(all, n)[5..];
    assert Cut(all, n) == acts[..5] + rest;
    hide *;
    AfterFour(s, DoAll(a, acts[..4]), cfg);
    Prefix(a, acts, 4);
    CapabilityMade(DoAll(a, acts[..4]), cfg);
    DoAllAppend(a, acts[..5], rest);
    ReceiptsKept(DoAll(a, acts[..5]), rest, KeyOf(OpsCapability(cfg)));
    RegisteredIs(s, Cut(all, n));
  }

  lemma RegisteredIs(s: State, acts: seq<Act>)
    ensures Registered(s, acts) == DoAll(Anew(s), acts)
  {}

  lemma AfterFour(s: State, t: State, cfg: Config)
    requires AfterActs(s, t, cfg, 4) && ClientClear(s)
    ensures !t.id.threw && IsMinted(t)
  {}

  lemma FourUnmade(s: State, cfg: Config)
    requires Unmade(s.id, cfg)
    ensures Unmade(DoAll(Anew(s), OpsRegisterActs(cfg)[..4]).id, cfg)
  {
    var acts, a := OpsRegisterActs(cfg), Anew(s);
    assert Unmade(a.id, cfg);
    FirstThree(a, acts);
    Prefix(a, acts, 3);
    assert forall k :: 0 <= k < 4 ==> acts[k] in acts[..4];
    hide Do, Unmade;
    UnmadeKept(a, acts[0], cfg);
    UnmadeKept(Do(a, acts[0]), acts[1], cfg);
    UnmadeKept(Do(Do(a, acts[0]), acts[1]), acts[2], cfg);
    UnmadeKept(DoAll(a, acts[..3]), acts[3], cfg);
  }

  // So where ops-register was minted whole, its capability then removed and its stored secret emptied, no run of the
  // Job, cut off anywhere or whole, leaves it able again.
  lemma OpsRegisterRemoved(s: State, cfg: Config, mcps: seq<Mcp>, n: nat, cuts: seq<nat>)
    requires OPS !in s.store && ClientClear(s) && Unmade(s.id, cfg) && n >= 5
    ensures var minted := Turns(s, cfg, mcps, [n]);
            var removed := Emptied(minted.(id := Without(minted.id, MachineSlot(OPS, cfg.admin))));
            var t := Turns(removed, cfg, mcps, cuts);
            Able(minted, cfg) && !Able(t, cfg)
  {
    var minted := Turns(s, cfg, mcps, [n]);
    assert [n][..0] == [] && Turns(s, cfg, mcps, []) == s;
    assert minted == Registered(s, Cut(Turn(s, cfg, mcps), n));
    FirstTurn(s, cfg, mcps, n);
    UsedAfter(s, cfg, mcps, n);
    assert CapabilityClear(s, cfg);
    var removed := Emptied(minted.(id := Without(minted.id, MachineSlot(OPS, cfg.admin))));
    assert !Granted(removed, cfg) && !CapabilityClear(removed, cfg);
    hide Able, Granted, CapabilityClear, ClientClear, Linked, Registered, Turn;
    OpsRegisterAbleIff(removed, cfg, mcps, cuts);
    var t := Turns(removed, cfg, mcps, cuts);
    if Able(t, cfg) {
      AbleStored(t, cfg);
    }
  }
}
