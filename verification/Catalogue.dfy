// The Toolbox's capability catalogue (mcps/toolbox/src/catalogue.ts) and who may use what
// (mcps/toolbox/src/projection.ts:5-14): manifests ingested in one transaction, organisations' overrides written by
// hand, and the enable operation's catalogue rows, read while it plans and written once ID has answered every call
// before (mcps/toolbox/src/admin-enable.ts:86-90, 98-101).
module Catalogue {
  import opened Options

  type Org = string
  type Provider = string

  datatype Kind = Reads | Mutates
  datatype Risk = Low | Normal | High
  datatype PolicyClass = Agent | Controlled | Human

  // What a version fixes: its kind, risk, input and output.
  datatype Contract = Contract(kind: Kind, risk: Option<Risk>, input: string, output: string)
  datatype Words = Words(title: Option<string>, description: string)

  type Capability = (string, string) // identity and version
  datatype Row = Row(provider: Provider, contract: Contract, words: Words)
  datatype Tool = Tool(identity: string, version: string, contract: Contract, words: Words)
  datatype Manifest = Manifest(id: Provider, tools: seq<Tool>)

  datatype Overrides = Overrides(disabled: set<string>, policyClass: map<string, PolicyClass>)
  datatype Entry = Entry(enabled: bool, overrides: Overrides)

  datatype State = State(providers: set<Provider>, stored: map<Capability, Row>, catalogue: map<(Org, Provider), Entry>)

  // ---------- Identities ----------

  // `text.split(mark)[0]`
  function Before(text: string, mark: char): string {
    if text == "" || text[0] == mark then "" else [text[0]] + Before(text[1..], mark)
  }

  // `text.split("/")[1]`, of an identity.
  function NameOf(identity: string): string {
    var provider := Before(identity, '/');
    if |provider| < |identity| then Before(identity[|provider| + 1..], '/') else ""
  }

  function ProviderOf(identity: string): Provider {
    Before(identity, '/')
  }

  function DomainOf(identity: string): string {
    ProviderOf(identity) + "/" + Before(NameOf(identity), '.')
  }

  // ---------- Who may use a capability ----------

  predicate Offered(s: State, org: Org, identity: string) {
    var slot := (org, ProviderOf(identity));
    slot in s.catalogue && s.catalogue[slot].enabled && identity !in s.catalogue[slot].overrides.disabled
  }

  predicate Allowed(s: State, org: Org, grants: set<string>, identity: string) {
    Offered(s, org, identity) && (ProviderOf(identity) in grants || DomainOf(identity) in grants || identity in grants)
  }

  function RiskClass(risk: Risk): PolicyClass {
    match risk case Low => Agent case Normal => Controlled case High => Human
  }

  function PolicyClassOf(s: State, org: Org, identity: string, risk: Risk): PolicyClass {
    var slot := (org, ProviderOf(identity));
    if slot in s.catalogue && identity in s.catalogue[slot].overrides.policyClass
    then s.catalogue[slot].overrides.policyClass[identity]
    else RiskClass(risk)
  }

  // ---------- Ingest ----------

  // A manifest's identities are its provider's, each version once.
  predicate Proper(m: Manifest) {
    && (forall i :: 0 <= i < |m.tools| ==> ProviderOf(m.tools[i].identity) == m.id)
    && (forall i, j ::
      0 <= i < j < |m.tools| ==> (m.tools[i].identity, m.tools[i].version) != (m.tools[j].identity, m.tools[j].version))
  }

  predicate AllProper(ms: seq<Manifest>) {
    forall i :: 0 <= i < |ms| ==> Proper(ms[i])
  }

  // A stored version with another contract.
  predicate Changed(s: State, provider: Provider, t: Tool) {
    var c := (t.identity, t.version);
    c in s.stored && s.stored[c].provider == provider && s.stored[c].contract != t.contract
  }

  predicate Refused(s: State, m: Manifest) {
    exists i :: 0 <= i < |m.tools| && Changed(s, m.id, m.tools[i])
  }

  predicate Known(s: State, provider: Provider, identity: string) {
    exists c :: c in s.stored && c.0 == identity && s.stored[c].provider == provider
  }

  function Added(s: State, m: Manifest): set<string> {
    set i | 0 <= i < |m.tools| && !Known(s, m.id, m.tools[i].identity) :: m.tools[i].identity
  }

  // Insert, or on a stored version replace the words alone.
  function Upserted(stored: map<Capability, Row>, provider: Provider, tools: seq<Tool>): map<Capability, Row> {
    if tools == [] then stored
    else
      var t := tools[|tools| - 1];
      var before := Upserted(stored, provider, tools[..|tools| - 1]);
      var c := (t.identity, t.version);
      before[c := if c in before then before[c].(words := t.words) else Row(provider, t.contract, t.words)]
  }

  // What a provider gained stays off wherever it is enabled.
  function HeldBack(catalogue: map<(Org, Provider), Entry>, provider: Provider, added: set<string>): map<(Org,
      Provider), Entry> {
    map slot | slot in catalogue ::
      if slot.1 == provider && catalogue[slot].enabled
      then catalogue[slot].(overrides :=
        catalogue[slot].overrides.(disabled := catalogue[slot].overrides.disabled + added))
      else catalogue[slot]
  }

  function IngestedOne(s: State, m: Manifest): State {
    State(s.providers + {m.id}, Upserted(s.stored, m.id, m.tools), HeldBack(s.catalogue, m.id, Added(s, m)))
  }

  // The manifests in turn, each seeing the ones before; a refusal anywhere refuses them all.
  function Ingested(s: State, ms: seq<Manifest>): Option<State> {
    if ms == [] then Some(s)
    else
      match Ingested(s, ms[..|ms| - 1])
      case None => None
      case Some(t) => if Refused(t, ms[|ms| - 1]) then None else Some(IngestedOne(t, ms[|ms| - 1]))
  }

  // An ingest that is refused leaves every row as it was.
  function AfterIngest(s: State, ms: seq<Manifest>): State {
    match Ingested(s, ms) case None => s case Some(t) => t
  }

  // ---------- The catalogue's writes ----------

  // What an enable call that is under way will write: the provider on, with the overrides it read.
  datatype Planned = Planned(org: Org, provider: Provider, overrides: Overrides)

  datatype Toolbox = Toolbox(state: State, plans: map<nat, Planned>)

  datatype Event =
    | Ingest(manifests: seq<Manifest>)
    | Write(org: Org, provider: Provider, entry: Entry)
    | Plan(call: nat, org: Org, provider: Provider) // an enable call reads the catalogue
    | Finish(call: nat)                             // and, its calls to ID answered, writes what it planned

  // A provider that was never ingested has no row to refer to.
  function Written(s: State, org: Org, provider: Provider, entry: Entry): State {
    if provider in s.providers then s.(catalogue := s.catalogue[(org, provider) := entry]) else s
  }

  function OverridesOf(s: State, slot: (Org, Provider)): Overrides {
    if slot in s.catalogue then s.catalogue[slot].overrides else Overrides({}, map[])
  }

  function Step(w: Toolbox, e: Event): Toolbox {
    match e
    case Ingest(ms) => w.(state := AfterIngest(w.state, ms))
    case Write(org, provider, entry) => w.(state := Written(w.state, org, provider, entry))
    // A provider that is enabled already needs no write.
    case Plan(call, org, provider) =>
      var slot := (org, provider);
      if call in w.plans || (slot in w.state.catalogue && w.state.catalogue[slot].enabled) then w
      else w.(plans := w.plans[call := Planned(org, provider, OverridesOf(w.state, slot))])
    case Finish(call) =>
      if call !in w.plans then w
      else
        var p := w.plans[call];
        Toolbox(Written(w.state, p.org, p.provider, Entry(true, p.overrides)), w.plans - {call})
  }

  function Run(w: Toolbox, events: seq<Event>): Toolbox {
    if events == [] then w else Step(Run(w, events[..|events| - 1]), events[|events| - 1])
  }

  predicate ProperEvent(e: Event) {
    e.Ingest? ==> AllProper(e.manifests)
  }

  // ---------- What every state keeps ----------

  // A stored row is of its identity's provider, which has its own row.
  predicate Ok(s: State) {
    && (forall c :: c in s.stored ==> s.stored[c].provider == ProviderOf(c.0) && s.stored[c].provider in s.providers)
    && (forall slot :: slot in s.catalogue ==> slot.1 in s.providers)
  }

  predicate SameContract(a: Row, b: Row) {
    a.contract == b.contract && a.provider == b.provider
  }

  lemma {:induction false} UpsertedIs(stored: map<Capability, Row>, provider: Provider, tools: seq<Tool>)
    ensures forall c ::
        c in stored ==>
          c in Upserted(stored, provider, tools) && SameContract(stored[c], Upserted(stored, provider, tools)[c])
    ensures forall c ::
        c in Upserted(stored, provider, tools) && c !in stored ==>
          Upserted(stored, provider, tools)[c].provider == provider
    ensures forall c :: c in Upserted(stored, provider, tools) && c !in stored ==> exists i ::
        0 <= i < |tools| && c == (tools[i].identity, tools[i].version)
    ensures forall i :: 0 <= i < |tools| ==> (tools[i].identity, tools[i].version) in Upserted(stored, provider, tools)
  {
    if tools != [] {
      var n := |tools| - 1;
      UpsertedIs(stored, provider, tools[..n]);
      var before, after := Upserted(stored, provider, tools[..n]), Upserted(stored, provider, tools);
      forall c | c in after && c !in stored
        ensures exists i :: 0 <= i < |tools| && c == (tools[i].identity, tools[i].version)
      {
        if c in before {
          var i :| 0 <= i < n && c == (tools[..n][i].identity, tools[..n][i].version);
          assert tools[i] == tools[..n][i];
        } else {
          assert c == (tools[n].identity, tools[n].version);
        }
      }
      forall i | 0 <= i < |tools|
        ensures (tools[i].identity, tools[i].version) in after
      {
        if i < n {
          assert tools[..n][i] == tools[i];
        }
      }
    }
  }

  lemma OneOk(s: State, m: Manifest)
    requires Ok(s) && Proper(m)
    ensures Ok(IngestedOne(s, m))
  {
    UpsertedIs(s.stored, m.id, m.tools);
  }

  lemma {:induction false} IngestedOk(s: State, ms: seq<Manifest>)
    requires Ok(s) && AllProper(ms)
    ensures Ingested(s, ms).Some? ==> Ok(Ingested(s, ms).value)
  {
    if ms != [] {
      var n := |ms| - 1;
      IngestedOk(s, ms[..n]);
      if Ingested(s, ms).Some? {
        OneOk(Ingested(s, ms[..n]).value, ms[n]);
      }
    }
  }

  lemma {:induction false} RunOk(w: Toolbox, events: seq<Event>)
    requires Ok(w.state) && forall i :: 0 <= i < |events| ==> ProperEvent(events[i])
    ensures Ok(Run(w, events).state)
  {
    if events != [] {
      var n := |events| - 1;
      RunOk(w, events[..n]);
      assert ProperEvent(events[n]);
      if events[n].Ingest? {
        IngestedOk(Run(w, events[..n]).state, events[n].manifests);
      }
    }
  }

  // ---------- A version's contract never changes ----------

  predicate ContractsKept(s: State, t: State) {
    forall c :: c in s.stored ==> c in t.stored && SameContract(s.stored[c], t.stored[c])
  }

  lemma {:induction false} IngestKeepsContracts(s: State, ms: seq<Manifest>)
    ensures Ingested(s, ms).Some? ==> ContractsKept(s, Ingested(s, ms).value)
  {
    if ms != [] {
      var n := |ms| - 1;
      IngestKeepsContracts(s, ms[..n]);
      if Ingested(s, ms).Some? {
        UpsertedIs(Ingested(s, ms[..n]).value.stored, ms[n].id, ms[n].tools);
      }
    }
  }

  // Over any run of ingests, enables and catalogue writes, a stored identity and version keeps its kind, risk, input
  // and output for ever.
  lemma {:induction false} RunKeepsContracts(w: Toolbox, events: seq<Event>)
    ensures ContractsKept(w.state, Run(w, events).state)
  {
    if events != [] {
      var n := |events| - 1;
      RunKeepsContracts(w, events[..n]);
      if events[n].Ingest? {
        IngestKeepsContracts(Run(w, events[..n]).state, events[n].manifests);
      }
    }
  }

  // ---------- What is refused ----------

  // Two contracts for one identity and version: one stored, or brought by an earlier manifest of the same ingest.
  predicate Contradicts(s: State, ms: seq<Manifest>) {
    exists k, i :: 0 <= k < |ms| && 0 <= i < |ms[k].tools| && ToolContradicts(s, ms[..k], ms[k].tools[i])
  }

  predicate ToolContradicts(s: State, before: seq<Manifest>, t: Tool) {
    var c := (t.identity, t.version);
    (c in s.stored && s.stored[c].contract != t.contract) || Brings(before, t)
  }

  predicate Brings(ms: seq<Manifest>, t: Tool) {
    exists j, k :: 0 <= j < |ms| && 0 <= k < |ms[j].tools| && Rival(ms[j].tools[k], t)
  }

  predicate Rival(a: Tool, b: Tool) {
    a.identity == b.identity && a.version == b.version && a.contract != b.contract
  }

  predicate SameVersion(a: Tool, c: Capability, contract: Contract) {
    (a.identity, a.version) == c && a.contract == contract
  }

  lemma {:induction false} UpsertedContracts(stored: map<Capability, Row>, provider: Provider, tools: seq<Tool>,
      c: Capability)
    requires c in Upserted(stored, provider, tools)
    ensures c !in stored ==> exists i ::
        0 <= i < |tools| && SameVersion(tools[i], c, Upserted(stored, provider, tools)[c].contract)
  {
    if tools != [] && c !in stored {
      var n := |tools| - 1;
      var before := Upserted(stored, provider, tools[..n]);
      if c in before {
        UpsertedContracts(stored, provider, tools[..n], c);
        var i :| 0 <= i < n && SameVersion(tools[..n][i], c, before[c].contract);
        assert tools[i] == tools[..n][i];
      } else {
        assert SameVersion(tools[n], c, tools[n].contract);
      }
    }
  }

  // A version stored by an ingest was stored before, or is some manifest's.
  lemma {:induction false} StoredFrom(s: State, ms: seq<Manifest>, c: Capability)
    requires Ingested(s, ms).Some? && c in Ingested(s, ms).value.stored
    ensures c in s.stored || exists j, k ::
        0 <= j < |ms| && 0 <= k < |ms[j].tools|
        && SameVersion(ms[j].tools[k], c, Ingested(s, ms).value.stored[c].contract)
  {
    if ms != [] && c !in s.stored {
      var n := |ms| - 1;
      var t := Ingested(s, ms[..n]).value;
      UpsertedIs(t.stored, ms[n].id, ms[n].tools);
      if c in t.stored {
        StoredFrom(s, ms[..n], c);
        var j, k :| 0 <= j < n && 0 <= k < |ms[..n][j].tools|
            && SameVersion(ms[..n][j].tools[k], c, t.stored[c].contract);
        assert ms[j] == ms[..n][j];
      } else {
        UpsertedContracts(t.stored, ms[n].id, ms[n].tools, c);
        var k :| 0 <= k < |ms[n].tools| && SameVersion(ms[n].tools[k], c, Ingested(s, ms).value.stored[c].contract);
      }
    }
  }

  lemma {:induction false} ToolsStored(s: State, ms: seq<Manifest>, k: nat, i: nat)
    requires k < |ms| && i < |ms[k].tools| && Ingested(s, ms).Some?
    ensures (ms[k].tools[i].identity, ms[k].tools[i].version) in Ingested(s, ms).value.stored
  {
    var n := |ms| - 1;
    UpsertedIs(Ingested(s, ms[..n]).value.stored, ms[n].id, ms[n].tools);
    if k < n {
      ToolsStored(s, ms[..n], k, i);
    }
  }

  // An accepted ingest stores each tool's version under that tool's contract.
  lemma {:induction false} ContractsStored(s: State, ms: seq<Manifest>, k: nat, i: nat)
    requires Ok(s) && AllProper(ms) && k < |ms| && i < |ms[k].tools| && Ingested(s, ms).Some?
    ensures var t := ms[k].tools[i]; var c := (t.identity, t.version);
            c in Ingested(s, ms).value.stored && Ingested(s, ms).value.stored[c].contract == t.contract
  {
    var n := |ms| - 1;
    var before, t := Ingested(s, ms[..n]).value, ms[k].tools[i];
    var c := (t.identity, t.version);
    UpsertedIs(before.stored, ms[n].id, ms[n].tools);
    if k < n {
      ContractsStored(s, ms[..n], k, i);
    } else {
      IngestedOk(s, ms[..n]);
      LastStored(before, ms[n], i);
    }
  }

  lemma LastStored(s: State, m: Manifest, i: nat)
    requires Ok(s) && Proper(m) && i < |m.tools| && !Refused(s, m)
    ensures var c := (m.tools[i].identity, m.tools[i].version);
            c in IngestedOne(s, m).stored && IngestedOne(s, m).stored[c].contract == m.tools[i].contract
  {
    var c := (m.tools[i].identity, m.tools[i].version);
    UpsertedIs(s.stored, m.id, m.tools);
    assert !Changed(s, m.id, m.tools[i]);
    if c !in s.stored {
      UpsertedContracts(s.stored, m.id, m.tools, c);
    }
  }

  // An ingest of any manifests is refused if and only if one of them would change a version's contract, stored before
  // or brought by a manifest before it.
  lemma {:induction false} RefusedIff(s: State, ms: seq<Manifest>)
    requires Ok(s) && AllProper(ms)
    ensures Ingested(s, ms).None? <==> Contradicts(s, ms)
  {
    if ms != [] {
      var n := |ms| - 1;
      RefusedIff(s, ms[..n]);
      if Contradicts(s, ms[..n]) {
        FewerContradict(s, ms);
      } else {
        LastRefusedIff(s, ms);
      }
    }
  }

  lemma FewerContradict(s: State, ms: seq<Manifest>)
    requires ms != [] && Contradicts(s, ms[..|ms| - 1])
    ensures Contradicts(s, ms)
  {
    var n := |ms| - 1;
    var k, i :| 0 <= k < n && 0 <= i < |ms[..n][k].tools| && ToolContradicts(s, ms[..n][..k], ms[..n][k].tools[i]);
    assert ms[..n][..k] == ms[..k] && ms[..n][k] == ms[k];
  }

  lemma LastRefusedIff(s: State, ms: seq<Manifest>)
    requires Ok(s) && AllProper(ms) && ms != [] && Ingested(s, ms[..|ms| - 1]).Some? && !Contradicts(s, ms[..|ms| - 1])
    ensures Refused(Ingested(s, ms[..|ms| - 1]).value, ms[|ms| - 1]) <==> Contradicts(s, ms)
  {
    hide Changed, ToolContradicts, Ok, Proper, Ingested;
    var n := |ms| - 1;
    var t, m := Ingested(s, ms[..n]).value, ms[n];
    forall i | 0 <= i < |m.tools|
      ensures Changed(t, m.id, m.tools[i]) <==> ToolContradicts(s, ms[..n], m.tools[i])
    {
      ChangedIff(s, ms[..n], m, i);
    }
    forall k, i | 0 <= k < n && 0 <= i < |ms[k].tools|
      ensures !ToolContradicts(s, ms[..k], ms[k].tools[i])
    {
      assert ms[..n][..k] == ms[..k] && ms[..n][k] == ms[k];
    }
  }

  lemma ChangedIff(s: State, before: seq<Manifest>, m: Manifest, i: nat)
    requires Ok(s) && AllProper(before) && Proper(m) && i < |m.tools| && Ingested(s, before).Some?
    ensures Changed(Ingested(s, before).value, m.id, m.tools[i]) <==> ToolContradicts(s, before, m.tools[i])
  {
    var t, tool := Ingested(s, before).value, m.tools[i];
    var c := (tool.identity, tool.version);
    IngestedOk(s, before);
    IngestKeepsContracts(s, before);
    if Brings(before, tool) {
      var j, k :| 0 <= j < |before| && 0 <= k < |before[j].tools| && Rival(before[j].tools[k], tool);
      ContractsStored(s, before, j, k);
    }
    if Changed(t, m.id, tool) && c !in s.stored {
      StoredFrom(s, before, c);
      var j, k :| 0 <= j < |before| && 0 <= k < |before[j].tools|
          && SameVersion(before[j].tools[k], c, t.stored[c].contract);
      assert Rival(before[j].tools[k], tool);
    }
  }

  // ---------- Who may use what ----------

  predicate Stored(s: State, identity: string) {
    exists c :: c in s.stored && c.0 == identity
  }

  lemma StoredIsKnown(s: State, provider: Provider, identity: string)
    requires Ok(s) && ProviderOf(identity) == provider
    ensures Known(s, provider, identity) <==> Stored(s, identity)
  {
    if Stored(s, identity) {
      var c :| c in s.stored && c.0 == identity;
      assert s.stored[c].provider == provider;
    }
  }

  lemma {:induction false} IngestKeepsOffered(s: State, ms: seq<Manifest>, org: Org, identity: string)
    requires Ok(s) && Stored(s, identity) && AllProper(ms)
    ensures Ingested(s, ms).Some? ==> Offered(Ingested(s, ms).value, org, identity) == Offered(s, org, identity)
    ensures Ingested(s, ms).Some? ==> Stored(Ingested(s, ms).value, identity)
  {
    if ms != [] && Ingested(s, ms).Some? {
      var n := |ms| - 1;
      IngestKeepsOffered(s, ms[..n], org, identity);
      IngestedOk(s, ms[..n]);
      var t := Ingested(s, ms[..n]).value;
      if ProviderOf(identity) == ms[n].id {
        StoredIsKnown(t, ms[n].id, identity);
        assert identity !in Added(t, ms[n]);
      }
      var c :| c in t.stored && c.0 == identity;
      UpsertedIs(t.stored, ms[n].id, ms[n].tools);
      assert c in IngestedOne(t, ms[n]).stored;
    }
  }

  // An ingest, accepted or refused, never changes whether an organisation's caller may use a capability already stored,
  // nor the policy class of one.
  lemma IngestKeepsAllowed(s: State, ms: seq<Manifest>, org: Org, grants: set<string>, identity: string, risk: Risk)
    requires Ok(s) && Stored(s, identity) && AllProper(ms)
    ensures Allowed(AfterIngest(s, ms), org, grants, identity) == Allowed(s, org, grants, identity)
    ensures PolicyClassOf(AfterIngest(s, ms), org, identity, risk) == PolicyClassOf(s, org, identity, risk)
  {
    IngestKeepsOffered(s, ms, org, identity);
    IngestKeepsPolicy(s, ms, (org, ProviderOf(identity)));
  }

  lemma {:induction false} IngestKeepsPolicy(s: State, ms: seq<Manifest>, slot: (Org, Provider))
    ensures Ingested(s, ms).Some? ==> (slot in Ingested(s, ms).value.catalogue <==> slot in s.catalogue)
    ensures Ingested(s, ms).Some? && slot in s.catalogue ==>
        EntryGrows(s.catalogue[slot], Ingested(s, ms).value.catalogue[slot])
  {
    if ms != [] && Ingested(s, ms).Some? {
      IngestKeepsPolicy(s, ms[..|ms| - 1], slot);
    }
  }

  // An ingest adds to what is disabled and touches nothing else of an entry.
  predicate EntryGrows(a: Entry, b: Entry) {
    b.enabled == a.enabled && b.overrides.policyClass == a.overrides.policyClass
    && a.overrides.disabled <= b.overrides.disabled
  }

  // Where a provider is not enabled an ingest leaves its entry as it is.
  lemma {:induction false} DisabledEntryStays(s: State, ms: seq<Manifest>, slot: (Org, Provider))
    requires Ingested(s, ms).Some? && slot in s.catalogue && !s.catalogue[slot].enabled
    ensures slot in Ingested(s, ms).value.catalogue && Ingested(s, ms).value.catalogue[slot] == s.catalogue[slot]
  {
    if ms != [] {
      DisabledEntryStays(s, ms[..|ms| - 1], slot);
    }
  }

  // Whichever manifest of an ingest brings an identity, it is off from then on where its provider is enabled.
  lemma {:induction false} BroughtIsOff(s: State, ms: seq<Manifest>, org: Org, identity: string)
    requires Ok(s) && AllProper(ms) && Ingested(s, ms).Some? && !Stored(s, identity)
             && Stored(Ingested(s, ms).value, identity)
    requires var slot := (org, ProviderOf(identity)); slot in s.catalogue && s.catalogue[slot].enabled
    ensures HeldOff(Ingested(s, ms).value, org, identity)
  {
    if ms != [] {
      var n := |ms| - 1;
      var t, m, slot := Ingested(s, ms[..n]).value, ms[n], (org, ProviderOf(identity));
      IngestedOk(s, ms[..n]);
      IngestKeepsPolicy(s, ms[..n], slot);
      if Stored(t, identity) {
        BroughtIsOff(s, ms[..n], org, identity);
      } else {
        BroughtByLast(t, m, identity);
      }
    }
  }

  lemma BroughtByLast(t: State, m: Manifest, identity: string)
    requires Ok(t) && Proper(m) && !Stored(t, identity) && Stored(IngestedOne(t, m), identity)
    ensures identity in Added(t, m) && m.id == ProviderOf(identity)
  {
    UpsertedIs(t.stored, m.id, m.tools);
    var c :| c in IngestedOne(t, m).stored && c.0 == identity;
    assert c !in t.stored;
    var i :| 0 <= i < |m.tools| && c == (m.tools[i].identity, m.tools[i].version);
    StoredIsKnown(t, m.id, identity);
  }

  lemma IdentityStored(s: State, ms: seq<Manifest>, k: nat, i: nat)
    requires k < |ms| && i < |ms[k].tools| && Ingested(s, ms).Some?
    ensures Stored(Ingested(s, ms).value, ms[k].tools[i].identity)
  {
    ToolsStored(s, ms, k, i);
  }

  // After an ingest of any manifests, a capability any of them brought is off exactly where its provider was enabled,
  // or where the organisation had ruled it out already.
  lemma NewIsHeldBackIff(s: State, ms: seq<Manifest>, k: nat, i: nat, org: Org)
    requires Ok(s) && AllProper(ms) && k < |ms| && i < |ms[k].tools| && !Contradicts(s, ms)
    requires !Stored(s, ms[k].tools[i].identity) && (org, ms[k].id) in s.catalogue
    ensures var before := s.catalogue[(org, ms[k].id)];
            HeldOff(AfterIngest(s, ms), org, ms[k].tools[i].identity)
            <==> (before.enabled || ms[k].tools[i].identity in before.overrides.disabled)
  {
    RefusedIff(s, ms);
    var identity, slot := ms[k].tools[i].identity, (org, ms[k].id);
    assert ProviderOf(identity) == ms[k].id;
    IngestKeepsPolicy(s, ms, slot);
    if s.catalogue[slot].enabled {
      IdentityStored(s, ms, k, i);
      BroughtIsOff(s, ms, org, identity);
    } else {
      DisabledEntryStays(s, ms, slot);
    }
  }

  predicate HeldOff(s: State, org: Org, identity: string) {
    var slot := (org, ProviderOf(identity));
    slot in s.catalogue && identity in s.catalogue[slot].overrides.disabled
  }

  // A catalogue write that takes the identity off what is disabled.
  predicate Releases(e: Event, org: Org, identity: string) {
    e.Write? && e.org == org && e.provider == ProviderOf(identity) && identity !in e.entry.overrides.disabled
  }

  predicate Unreleased(events: seq<Event>, org: Org, identity: string) {
    forall i :: 0 <= i < |events| ==> !Releases(events[i], org, identity)
  }

  // An enable call under way for the organisation and the identity's provider read overrides that do not rule it out.
  predicate Forgets(p: Planned, org: Org, identity: string) {
    p.org == org && p.provider == ProviderOf(identity) && identity !in p.overrides.disabled
  }

  predicate NoneForgets(w: Toolbox, org: Org, identity: string) {
    forall call :: call in w.plans ==> !Forgets(w.plans[call], org, identity)
  }

  lemma IngestHolds(s: State, ms: seq<Manifest>, org: Org, identity: string)
    requires HeldOff(s, org, identity)
    ensures HeldOff(AfterIngest(s, ms), org, identity)
  {
    IngestKeepsPolicy(s, ms, (org, ProviderOf(identity)));
  }

  lemma StepHolds(w: Toolbox, e: Event, org: Org, identity: string)
    requires HeldOff(w.state, org, identity) && NoneForgets(w, org, identity) && !Releases(e, org, identity)
    ensures HeldOff(Step(w, e).state, org, identity) && NoneForgets(Step(w, e), org, identity)
  {
    if e.Ingest? {
      IngestHolds(w.state, e.manifests, org, identity);
    } else if e.Finish? && e.call in w.plans {
      assert !Forgets(w.plans[e.call], org, identity);
    }
  }

  lemma {:induction false} RunHolds(w: Toolbox, events: seq<Event>, org: Org, identity: string)
    requires HeldOff(w.state, org, identity) && NoneForgets(w, org, identity) && Unreleased(events, org, identity)
    ensures HeldOff(Run(w, events).state, org, identity) && NoneForgets(Run(w, events), org, identity)
  {
    if events != [] {
      var n := |events| - 1;
      assert !Releases(events[n], org, identity);
      assert Unreleased(events[..n], org, identity);
      RunHolds(w, events[..n], org, identity);
      StepHolds(Run(w, events[..n]), events[n], org, identity);
    }
  }

  // What a late write of an enable call leaves: the provider on, and the identity not ruled out.
  lemma LateWrite(w: Toolbox, call: nat, org: Org, identity: string)
    requires call in w.plans && Forgets(w.plans[call], org, identity) && ProviderOf(identity) in w.state.providers
    ensures var t := Run(w, [Finish(call)]);
            Unreleased([Finish(call)], org, identity) && Allowed(t.state, org, {ProviderOf(identity)}, identity)
  {
    assert [Finish(call)][..0] == [];
    assert Run(w, []) == w && Run(w, [Finish(call)]) == Step(w, Finish(call));
  }

  // Once off it stays off, over every run of ingests, writes and enables without a write that releases it, if and only
  // if no enable call under way for its organisation and provider read overrides from before.
  lemma HeldOffUntilReleasedIff(w: Toolbox, org: Org, identity: string)
    requires Ok(w.state) && HeldOff(w.state, org, identity)
    ensures NoneForgets(w, org, identity)
       <==> forall events :: Unreleased(events, org, identity) ==> HeldOff(Run(w, events).state, org, identity)
  {
    if NoneForgets(w, org, identity) {
      forall events | Unreleased(events, org, identity)
        ensures HeldOff(Run(w, events).state, org, identity)
      {
        RunHolds(w, events, org, identity);
      }
    } else {
      var call :| call in w.plans && Forgets(w.plans[call], org, identity);
      LateWrite(w, call, org, identity);
    }
  }

  // Nobody of the organisation may use the identity, whatever they are granted, over any run that does not release it.
  ghost predicate Unusable(w: Toolbox, org: Org, identity: string) {
    forall events, grants ::
      Unreleased(events, org, identity) ==> !Allowed(Run(w, events).state, org, grants, identity)
  }

  // So a capability that any manifest of an ingest brings to an organisation that has its provider enabled is unusable,
  // until a catalogue write leaves it out of what is disabled, if and only if no enable call of that organisation and
  // provider, planned before the ingest, is still to write overrides without it.
  lemma NewUnusableIff(w: Toolbox, ms: seq<Manifest>, k: nat, i: nat, org: Org)
    requires Ok(w.state) && AllProper(ms) && k < |ms| && i < |ms[k].tools| && !Contradicts(w.state, ms)
    requires !Stored(w.state, ms[k].tools[i].identity)
    requires (org, ms[k].id) in w.state.catalogue && w.state.catalogue[(org, ms[k].id)].enabled
    ensures Unusable(Step(w, Ingest(ms)), org, ms[k].tools[i].identity)
       <==> NoneForgets(w, org, ms[k].tools[i].identity)
  {
    var identity, t := ms[k].tools[i].identity, Step(w, Ingest(ms));
    assert ProviderOf(identity) == ms[k].id;
    NewIsHeldBackIff(w.state, ms, k, i, org);
    IngestedOk(w.state, ms);
    IngestKeepsPolicy(w.state, ms, (org, ms[k].id));
    hide AfterIngest, Contradicts, Stored, AllProper;
    UnusableIff(t, org, identity);
  }

  lemma UnusableIff(w: Toolbox, org: Org, identity: string)
    requires Ok(w.state) && HeldOff(w.state, org, identity)
    ensures Unusable(w, org, identity) <==> NoneForgets(w, org, identity)
  {
    if NoneForgets(w, org, identity) {
      forall events, grants | Unreleased(events, org, identity)
        ensures !Allowed(Run(w, events).state, org, grants, identity)
      {
        RunHolds(w, events, org, identity);
      }
    } else {
      var call :| call in w.plans && Forgets(w.plans[call], org, identity);
      LateWrite(w, call, org, identity);
    }
  }

  // Two enable calls for one organisation and provider, one of them finishing after an ingest: what the ingest brought
  // may be used, though nothing released it.
  lemma LateEnableReleases(s: State, m: Manifest, i: nat, org: Org)
    requires Ok(s) && Proper(m) && i < |m.tools| && !Contradicts(s, [m]) && !Stored(s, m.tools[i].identity)
    requires m.id in s.providers && (org, m.id) !in s.catalogue
    ensures var events := [Plan(0, org, m.id), Plan(1, org, m.id), Finish(0), Ingest([m])];
            var identity := m.tools[i].identity; var w := Toolbox(s, map[]);
            && HeldOff(Run(w, events).state, org, identity)
            && Unreleased(events + [Finish(1)], org, identity)
            && Allowed(Run(w, events + [Finish(1)]).state, org, {m.id}, identity)
  {
    var identity, w, empty := m.tools[i].identity, Toolbox(s, map[]), Overrides({}, map[]);
    var events := [Plan(0, org, m.id), Plan(1, org, m.id), Finish(0), Ingest([m])];
    assert ProviderOf(identity) == m.id;
    var one := s.(catalogue := s.catalogue[(org, m.id) := Entry(true, empty)]);
    var three := Toolbox(one, map[1 := Planned(org, m.id, empty)]);
    ThreeEvents(w, events);
    assert Run(w, events[..3]).state == three.state && Run(w, events[..3]).plans == three.plans;
    assert [m][0] == m && AllProper([m]);
    CatalogueApart(s, one, [m]);
    NewIsHeldBackIff(one, [m], 0, i, org);
    IngestedProviders(one, [m]);
    assert Run(w, events) == Step(three, Ingest([m]));
    var four := Run(w, events);
    hide Run, AfterIngest, Contradicts, Stored;
    LateWrite(four, 1, org, identity);
    RunAppend(w, events, [Finish(1)]);
  }

  lemma ThreeEvents(w: Toolbox, events: seq<Event>)
    requires |events| == 4
    ensures Run(w, events[..3]) == Step(Step(Step(w, events[0]), events[1]), events[2])
    ensures Run(w, events) == Step(Run(w, events[..3]), events[3])
  {
    assert events[..3][..2] == events[..2] && events[..2][..1] == events[..1] && events[..1][..0] == [];
    assert Run(w, []) == w && Run(w, events[..1]) == Step(w, events[0]);
    assert Run(w, events[..2]) == Step(Run(w, events[..1]), events[1]);
  }

  // What an ingest contradicts, and what is stored, is not in the catalogue.
  lemma CatalogueApart(s: State, t: State, ms: seq<Manifest>)
    requires t.stored == s.stored
    ensures Contradicts(t, ms) <==> Contradicts(s, ms)
    ensures forall identity :: Stored(t, identity) <==> Stored(s, identity)
  {
    forall before, tool
      ensures ToolContradicts(t, before, tool) <==> ToolContradicts(s, before, tool)
    {}
  }

  lemma {:induction false} IngestedProviders(s: State, ms: seq<Manifest>)
    ensures Ingested(s, ms).Some? ==> s.providers <= Ingested(s, ms).value.providers
  {
    if ms != [] {
      IngestedProviders(s, ms[..|ms| - 1]);
    }
  }

  lemma {:induction false} RunAppend(w: Toolbox, a: seq<Event>, b: seq<Event>)
    ensures Run(w, a + b) == Run(Run(w, a), b)
  {
    if b == [] {
      assert a + b == a;
    } else {
      assert (a + b)[..|a + b| - 1] == a + b[..|b| - 1];
      RunAppend(w, a, b[..|b| - 1]);
    }
  }

  // ---------- What an accepted ingest leaves ----------

  // Each tool of the manifests, the last that names its version.
  predicate NamedLast(ms: seq<Manifest>, k: nat, t: Tool)
    requires k < |ms|
  {
    t in ms[k].tools && forall j, i :: k < j < |ms| && 0 <= i < |ms[j].tools| ==>
      (ms[j].tools[i].identity, ms[j].tools[i].version) != (t.identity, t.version)
  }

  lemma {:induction false} UpsertedWords(stored: map<Capability, Row>, provider: Provider, tools: seq<Tool>,
      c: Capability)
    requires forall i, j :: 0 <= i < j < |tools| ==>
        (tools[i].identity, tools[i].version) != (tools[j].identity, tools[j].version)
    ensures forall i :: 0 <= i < |tools| && (tools[i].identity, tools[i].version) == c ==>
        c in Upserted(stored, provider, tools) && Upserted(stored, provider, tools)[c].words == tools[i].words
    ensures (forall i :: 0 <= i < |tools| ==> (tools[i].identity, tools[i].version) != c) ==>
        (c in Upserted(stored, provider, tools) <==> c in stored)
        && (c in stored ==> Upserted(stored, provider, tools)[c] == stored[c])
  {
    if tools != [] {
      UpsertedWords(stored, provider, tools[..|tools| - 1], c);
    }
  }

  lemma {:induction false} WordsStored(s: State, ms: seq<Manifest>, k: nat, t: Tool)
    requires AllProper(ms) && Ingested(s, ms).Some? && k < |ms| && NamedLast(ms, k, t)
    ensures var c, after := (t.identity, t.version), Ingested(s, ms).value;
            c in after.stored && after.stored[c].words == t.words
  {
    var n := |ms| - 1;
    var before := Ingested(s, ms[..n]).value;
    assert Ingested(s, ms).value == IngestedOne(before, ms[n]) && Proper(ms[n]);
    UpsertedWords(before.stored, ms[n].id, ms[n].tools, (t.identity, t.version));
    hide Ingested, Upserted, Proper;
    if k < n {
      assert AllProper(ms[..n]) && NamedLast(ms[..n], k, t);
      WordsStored(s, ms[..n], k, t);
    }
  }

  // Titles and descriptions are those of the last manifest that names the version; its contract is the one it has; and
  // a version no manifest names is stored as it was, or not at all.
  lemma IngestStores(s: State, ms: seq<Manifest>, k: nat, t: Tool)
    requires Ok(s) && AllProper(ms) && Ingested(s, ms).Some? && k < |ms| && NamedLast(ms, k, t)
    ensures var c, after := (t.identity, t.version), Ingested(s, ms).value;
            c in after.stored && after.stored[c] == Row(ms[k].id, t.contract, t.words)
  {
    WordsStored(s, ms, k, t);
    hide Ingested;
    var i :| 0 <= i < |ms[k].tools| && ms[k].tools[i] == t;
    ContractsStored(s, ms, k, i);
    IngestedOk(s, ms);
    assert ProviderOf(t.identity) == ms[k].id;
  }

  lemma {:induction false} IngestLeaves(s: State, ms: seq<Manifest>, c: Capability)
    requires AllProper(ms) && Ingested(s, ms).Some?
    requires forall k, i :: 0 <= k < |ms| && 0 <= i < |ms[k].tools| ==>
        (ms[k].tools[i].identity, ms[k].tools[i].version) != c
    ensures c in Ingested(s, ms).value.stored <==> c in s.stored
    ensures c in s.stored ==> Ingested(s, ms).value.stored[c] == s.stored[c]
  {
    if ms != [] {
      var n := |ms| - 1;
      assert forall k :: 0 <= k < n ==> ms[..n][k] == ms[k];
      IngestLeaves(s, ms[..n], c);
      UpsertedWords(Ingested(s, ms[..n]).value.stored, ms[n].id, ms[n].tools, c);
    }
  }

  // An organisation's entry gains exactly the identities its provider did not have and has now, where it is enabled.
  predicate Gains(s: State, t: State, slot: (Org, Provider), identity: string)
    requires slot in s.catalogue && slot in t.catalogue
  {
    identity in t.catalogue[slot].overrides.disabled <==>
      || identity in s.catalogue[slot].overrides.disabled
      || (s.catalogue[slot].enabled && ProviderOf(identity) == slot.1 && !Stored(s, identity) && Stored(t, identity))
  }

  lemma OneGains(s: State, m: Manifest, slot: (Org, Provider), identity: string)
    requires Ok(s) && Proper(m) && slot in s.catalogue
    ensures slot in IngestedOne(s, m).catalogue && Gains(s, IngestedOne(s, m), slot, identity)
    ensures Stored(s, identity) ==> Stored(IngestedOne(s, m), identity)
  {
    var t := IngestedOne(s, m);
    UpsertedIs(s.stored, m.id, m.tools);
    if Stored(s, identity) {
      var c :| c in s.stored && c.0 == identity;
      assert c in t.stored;
    }
    if ProviderOf(identity) == m.id {
      StoredIsKnown(s, m.id, identity);
    }
    if identity in Added(s, m) {
      var i :| 0 <= i < |m.tools| && m.tools[i].identity == identity;
      assert (identity, m.tools[i].version) in t.stored;
    } else if !Stored(s, identity) && Stored(t, identity) {
      BroughtByLast(s, m, identity);
    }
  }

  // And nothing else of an entry changes: not whether it is enabled, nor any class.
  lemma {:induction false} EntriesGain(s: State, ms: seq<Manifest>, slot: (Org, Provider), identity: string)
    requires Ok(s) && AllProper(ms) && Ingested(s, ms).Some? && slot in s.catalogue
    ensures var t := Ingested(s, ms).value;
            slot in t.catalogue && Gains(s, t, slot, identity) && EntryGrows(s.catalogue[slot], t.catalogue[slot])
    ensures Stored(s, identity) ==> Stored(Ingested(s, ms).value, identity)
  {
    IngestKeepsPolicy(s, ms, slot);
    if ms != [] {
      var n := |ms| - 1;
      hide IngestedOne, Stored, Proper, Ok, EntryGrows;
      EntriesGain(s, ms[..n], slot, identity);
      IngestedOk(s, ms[..n]);
      OneGains(Ingested(s, ms[..n]).value, ms[n], slot, identity);
      IngestKeepsPolicy(s, ms[..n], slot);
      assert EntryGrows(s.catalogue[slot], Ingested(s, ms[..n]).value.catalogue[slot]);
      SameEnabled(s.catalogue[slot], Ingested(s, ms[..n]).value.catalogue[slot]);
    }
  }

  lemma SameEnabled(a: Entry, b: Entry)
    requires EntryGrows(a, b)
    ensures a.enabled == b.enabled
  {
  }

  // The providers are those there were and those of the manifests.
  lemma {:induction false} ProvidersAre(s: State, ms: seq<Manifest>, id: Provider)
    requires Ingested(s, ms).Some?
    ensures id in Ingested(s, ms).value.providers <==> id in s.providers || exists k :: 0 <= k < |ms| && ms[k].id == id
  {
    if ms != [] {
      var n := |ms| - 1;
      ProvidersAre(s, ms[..n], id);
      if k :| 0 <= k < n && ms[k].id == id {
        assert ms[..n][k].id == id;
      }
    }
  }

  // ---------- Who is granted what ----------

  lemma {:induction false} BeforeMark(a: string, mark: char, rest: string)
    requires mark !in a && (rest == "" || rest[0] == mark)
    ensures Before(a + rest, mark) == a
  {
    if a == "" {
      assert a + rest == rest;
    } else {
      assert (a + rest)[0] == a[0] && (a + rest)[1..] == a[1..] + rest;
      BeforeMark(a[1..], mark, rest);
      assert [a[0]] + a[1..] == a;
    }
  }

  // The caller may use `<provider>/<domain>`, followed by nothing or by `.` and more, if and only if the organisation
  // has the provider enabled, has not ruled the identity out, and grants the caller the provider, the domain or the
  // very identity: no grant at all allows nothing, nor does any grant of another provider, domain or identity.
  lemma AllowedIff(s: State, org: Org, grants: set<string>, provider: string, domain: string, rest: string)
    requires '/' !in provider && '/' !in domain && '.' !in domain && '/' !in rest && (rest == "" || rest[0] == '.')
    ensures Allowed(s, org, grants, provider + "/" + domain + rest)
       <==> (&& (org, provider) in s.catalogue && s.catalogue[(org, provider)].enabled
             && provider + "/" + domain + rest !in s.catalogue[(org, provider)].overrides.disabled
             && (provider in grants || provider + "/" + domain in grants || provider + "/" + domain + rest in grants))
  {
    var identity, name := provider + "/" + domain + rest, domain + rest;
    assert identity == provider + ("/" + name);
    BeforeMark(provider, '/', "/" + name);
    assert identity[|provider| + 1..] == name && name + "" == name;
    assert forall i :: 0 <= i < |name| ==> name[i] == if i < |domain| then domain[i] else rest[i - |domain|];
    BeforeMark(name, '/', "");
    BeforeMark(domain, '.', rest);
    assert DomainOf(identity) == provider + "/" + domain;
  }

  lemma {:induction false} SplitAt(text: string, mark: char) returns (a: string, rest: string)
    ensures text == a + rest && mark !in a && (rest == "" || rest[0] == mark)
  {
    if text == "" || text[0] == mark {
      a, rest := "", text;
    } else {
      a, rest := SplitAt(text[1..], mark);
      a := [text[0]] + a;
    }
  }

  // Every identity with one `/` is of that form.
  lemma IdentityParts(provider: string, name: string) returns (domain: string, rest: string)
    requires '/' !in provider && '/' !in name
    ensures provider + "/" + name == provider + "/" + domain + rest
    ensures '/' !in domain && '.' !in domain && '/' !in rest && (rest == "" || rest[0] == '.')
  {
    domain, rest := SplitAt(name, '.');
    assert forall c :: c in domain ==> c in name;
    assert forall c :: c in rest ==> c in name;
  }

  predicate ClassOfRisk(given: PolicyClass, risk: Risk) {
    (given == Agent <==> risk == Low) && (given == Controlled <==> risk == Normal)
    && (given == Human <==> risk == High)
  }

  // A mutation's class: the organisation's own for the identity, else the risk's.
  lemma PolicyClassIs(s: State, org: Org, provider: string, name: string, risk: Risk,
      overrides: map<string, PolicyClass>)
    requires '/' !in provider
    requires (org, provider) in s.catalogue ==> overrides == s.catalogue[(org, provider)].overrides.policyClass
    requires (org, provider) !in s.catalogue ==> overrides == map[]
    ensures var identity := provider + "/" + name;
            if identity in overrides then PolicyClassOf(s, org, identity, risk) == overrides[identity]
            else ClassOfRisk(PolicyClassOf(s, org, identity, risk), risk)
  {
    assert provider + "/" + name == provider + ("/" + name);
    BeforeMark(provider, '/', "/" + name);
  }

  // ---------- The transaction, loop by loop ----------

  class Database {
    var providers: set<Provider>
    var stored: map<Capability, Row>
    var catalogue: map<(Org, Provider), Entry>

    constructor ()
      ensures providers == {} && stored == map[] && catalogue == map[]
    {
      providers, stored, catalogue := {}, map[], map[];
    }

    // `ingest`: every manifest, or none of them. What the loop wrote before a refusal is rolled back, as PostgreSQL
    // does.
    method IngestAll(manifests: seq<Manifest>) returns (refused: bool)
      modifies this
      ensures State(providers, stored, catalogue)
          == AfterIngest(State(old(providers), old(stored), old(catalogue)), manifests)
      ensures refused == Ingested(State(old(providers), old(stored), old(catalogue)), manifests).None?
      ensures refused ==> providers == old(providers) && stored == old(stored) && catalogue == old(catalogue)
    {
      var before := State(providers, stored, catalogue);
      for n := 0 to |manifests|
        invariant Ingested(before, manifests[..n]) == Some(State(providers, stored, catalogue))
      {
        assert manifests[..n + 1][..n] == manifests[..n];
        refused := IngestOne(manifests[n]);
        if refused {
          RefusedForGood(before, manifests, n + 1);
          providers, stored, catalogue := before.providers, before.stored, before.catalogue;
          return;
        }
      }
      assert manifests[..|manifests|] == manifests;
      refused := false;
    }

    method IngestOne(m: Manifest) returns (refused: bool)
      modifies this
      ensures refused == Refused(State(old(providers), old(stored), old(catalogue)), m)
      ensures !refused ==>
          State(providers, stored, catalogue) == IngestedOne(State(old(providers), old(stored), old(catalogue)), m)
    {
      ghost var s := State(providers, stored, catalogue);
      for i := 0 to |m.tools|
        invariant State(providers, stored, catalogue) == s
        invariant forall k :: 0 <= k < i ==> !Changed(s, m.id, m.tools[k])
      {
        var c := (m.tools[i].identity, m.tools[i].version);
        if c in stored && stored[c].provider == m.id && stored[c].contract != m.tools[i].contract {
          assert Changed(s, m.id, m.tools[i]);
          return true;
        }
      }
      var known := set c | c in stored && stored[c].provider == m.id :: c.0;
      var added := set i | 0 <= i < |m.tools| && m.tools[i].identity !in known :: m.tools[i].identity;
      AddedIs(s, m, known);
      providers := providers + {m.id};
      for i := 0 to |m.tools|
        invariant stored == Upserted(s.stored, m.id, m.tools[..i]) && providers == s.providers + {m.id}
                  && catalogue == s.catalogue
      {
        var t := m.tools[i];
        var c := (t.identity, t.version);
        assert m.tools[..i + 1][..i] == m.tools[..i];
        stored := stored[c := if c in stored then stored[c].(words := t.words) else Row(m.id, t.contract, t.words)];
      }
      assert m.tools[..|m.tools|] == m.tools;
      if added != {} {
        catalogue := HeldBack(catalogue, m.id, added);
      } else {
        HeldBackNothing(catalogue, m.id);
      }
      return false;
    }
  }

  lemma AddedIs(s: State, m: Manifest, known: set<string>)
    requires known == set c | c in s.stored && s.stored[c].provider == m.id :: c.0
    ensures (set i | 0 <= i < |m.tools| && m.tools[i].identity !in known :: m.tools[i].identity) == Added(s, m)
  {
    forall i | 0 <= i < |m.tools|
      ensures m.tools[i].identity in known <==> Known(s, m.id, m.tools[i].identity)
    {}
  }

  lemma HeldBackNothing(catalogue: map<(Org, Provider), Entry>, provider: Provider)
    ensures HeldBack(catalogue, provider, {}) == catalogue
  {
    forall slot | slot in catalogue
      ensures HeldBack(catalogue, provider, {})[slot] == catalogue[slot]
    {
      assert catalogue[slot].overrides.disabled + {} == catalogue[slot].overrides.disabled;
    }
  }

  // Once one manifest is refused, so is every longer ingest.
  lemma {:induction false} RefusedForGood(s: State, ms: seq<Manifest>, n: nat)
    requires n <= |ms| && Ingested(s, ms[..n]).None?
    ensures Ingested(s, ms).None?
    decreases |ms| - n
  {
    if n == |ms| {
      assert ms[..n] == ms;
    } else {
      assert ms[..n + 1][..n] == ms[..n];
      RefusedForGood(s, ms, n + 1);
    }
  }
}
