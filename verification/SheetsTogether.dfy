// Upserts of one worksheet under way at once (apps/web/lib/sheets.ts:143-190): each reads the rows, and later updates
// the row it found or adds one, with others between.
module SheetsTogether {
  import opened Options
  import opened Sheets

  // An upsert that has read the rows: the row it found, or none.
  datatype Reading = Reading(input: Input, at: string, found: Option<nat>)

  datatype World = World(header: seq<string>, rows: seq<Row>, open: map<nat, Reading>)

  datatype Event =
    | Look(call: nat, input: Input, at: string) // `getRows`, and the first row of the address
    | Finish(call: nat)                         // the row's cells saved, or a row added

  function Step(w: World, e: Event): World {
    match e
    case Look(call, input, at) =>
      var k := Find(w.rows, input.email);
      w.(open := w.open[call := Reading(input, at, if k < |w.rows| then Some(k) else None)])
    case Finish(call) =>
      if call !in w.open then w
      else
        var r := w.open[call];
        var rows :=
          match r.found
          case None => w.rows + [NewRow(w.header, r.input, r.at)]
          case Some(k) => if k < |w.rows| then w.rows[k := Updated(w.rows[k], Values(r.input, r.at))] else w.rows;
        w.(rows := rows, open := w.open - {call})
  }

  function Run(w: World, events: seq<Event>): World {
    if events == [] then w else Step(Run(w, events[..|events| - 1]), events[|events| - 1])
  }

  predicate OfAddress(row: Row, address: string) {
    Normal(Get(row, "email")) == address
  }

  predicate HasRow(w: World, address: string) {
    exists i :: 0 <= i < |w.rows| && OfAddress(w.rows[i], address)
  }

  // The upsert is of the address, found no row of it, and is still to add one.
  predicate Adds(w: World, call: nat, address: string) {
    call in w.open && w.open[call].found == None && Normal(w.open[call].input.email) == address
  }

  // The address has a row that an upsert which found none is still to double, or two such upserts are under way.
  predicate Racing(w: World, address: string) {
    || (exists c :: c in w.open && Adds(w, c, address) && HasRow(w, address))
    || (exists c, d :: c in w.open && d in w.open && c != d && Adds(w, c, address) && Adds(w, d, address))
  }

  predicate Finishes(events: seq<Event>) {
    forall i :: 0 <= i < |events| ==> events[i].Finish?
  }

  ghost predicate MayDouble(w: World, address: string) {
    exists events :: Finishes(events) && !AtMostOne(Run(w, events).rows, address)
  }

  // ---------- What one upsert's end leaves ----------

  lemma Added(w: World, call: nat)
    requires "email" in w.header && call in w.open && w.open[call].found == None
    ensures var t := Step(w, Finish(call));
            && |t.rows| == |w.rows| + 1 && t.rows[..|w.rows|] == w.rows
            && OfAddress(t.rows[|w.rows|], Normal(w.open[call].input.email)) && t.open == w.open - {call}
  {
    NewRowIs(w.header, w.open[call].input, w.open[call].at);
    hide Normal, NewRow;
  }

  lemma SavedKeeps(w: World, call: nat, i: nat)
    requires call in w.open && w.open[call].found.Some? && i < |w.rows|
    ensures var t := Step(w, Finish(call));
            |t.rows| == |w.rows| && Get(t.rows[i], "email") == Get(w.rows[i], "email") && t.open == w.open - {call}
  {
    TheirsAndOurs();
    var r := w.open[call];
    UpdatedCells(w.rows[i], Values(r.input, r.at), "email");
    hide Updated, UpdateColumns, NewRow;
  }

  predicate Quiet(w: World, address: string) {
    "email" in w.header && AtMostOne(w.rows, address) && !Racing(w, address)
  }

  lemma AddStaysQuiet(w: World, call: nat, address: string)
    requires Quiet(w, address) && call in w.open && w.open[call].found == None
    ensures Quiet(Step(w, Finish(call)), address)
  {
    Added(w, call);
    var t, n := Step(w, Finish(call)), |w.rows|;
    hide Normal, Get, NewRow, Step;
    assert forall i :: 0 <= i < n ==> t.rows[i] == t.rows[..n][i];
    forall c | c in t.open
      ensures Adds(t, c, address) ==> Adds(w, c, address) && c != call
    {}
    if Normal(w.open[call].input.email) == address {
      assert Adds(w, call, address) && !HasRow(w, address);
      forall i | 0 <= i < n
        ensures Normal(Get(t.rows[i], "email")) != address
      {
        assert !OfAddress(w.rows[i], address);
      }
    } else {
      assert HasRow(t, address) ==> HasRow(w, address);
    }
  }

  lemma SaveStaysQuiet(w: World, call: nat, address: string)
    requires Quiet(w, address) && call in w.open && w.open[call].found.Some?
    ensures Quiet(Step(w, Finish(call)), address)
  {
    var t := Step(w, Finish(call));
    if w.rows == [] {
      assert t.rows == [];
    }
    forall i | 0 <= i < |w.rows|
      ensures |t.rows| == |w.rows| && Get(t.rows[i], "email") == Get(w.rows[i], "email") && t.open == w.open - {call}
    {
      SavedKeeps(w, call, i);
    }
    hide Normal, Get, Step;
    assert |t.rows| == |w.rows| && t.header == w.header && t.open == w.open - {call};
    assert HasRow(t, address) ==> HasRow(w, address);
    forall c | c in t.open
      ensures Adds(t, c, address) ==> Adds(w, c, address)
    {}
  }

  lemma {:induction false} StaysQuiet(w: World, events: seq<Event>, address: string)
    requires Quiet(w, address) && Finishes(events)
    ensures Quiet(Run(w, events), address)
  {
    hide Quiet, Step;
    if events != [] {
      var n := |events| - 1;
      var before, call := Run(w, events[..n]), events[n].call;
      StaysQuiet(w, events[..n], address);
      if call in before.open {
        if before.open[call].found.None? {
          AddStaysQuiet(before, call, address);
        } else {
          SaveStaysQuiet(before, call, address);
        }
      } else {
        NotOpen(before, call);
      }
    }
  }

  lemma NotOpen(w: World, call: nat)
    requires call !in w.open
    ensures Step(w, Finish(call)) == w
  {}

  lemma AddsRow(w: World, call: nat, address: string)
    requires "email" in w.header && Adds(w, call, address)
    ensures var t := Step(w, Finish(call));
            HasRow(t, address) && (HasRow(w, address) ==> !AtMostOne(t.rows, address))
  {
    Added(w, call);
    var t, n := Step(w, Finish(call)), |w.rows|;
    hide Normal, Get, NewRow, Step;
    assert OfAddress(t.rows[n], address);
    if HasRow(w, address) {
      var i :| 0 <= i < n && OfAddress(w.rows[i], address);
      assert t.rows[i] == t.rows[..n][i];
      assert OfAddress(t.rows[i], address);
    }
  }

  lemma OtherStillAdds(w: World, c: nat, d: nat, address: string)
    requires c != d && Adds(w, d, address)
    ensures Adds(Step(w, Finish(c)), d, address) && Step(w, Finish(c)).header == w.header
  {}

  lemma RunOne(w: World, e: Event)
    ensures Run(w, [e]) == Step(w, e)
  {
    assert [e][..0] == [] && Run(w, []) == w;
  }

  lemma RunTwo(w: World, a: Event, b: Event)
    ensures Run(w, [a, b]) == Step(Step(w, a), b)
  {
    assert [a, b][..1] == [a];
    RunOne(w, a);
  }

  // Under way at once, upserts may give an address with at most one row another if and only if one that found none has
  // yet to add it while the address has its row, or two that found none are both to add one.
  lemma DoubledIff(w: World, address: string)
    requires "email" in w.header && AtMostOne(w.rows, address)
    ensures MayDouble(w, address) <==> Racing(w, address)
  {
    hide AtMostOne, HasRow, Adds, Step, Run;
    if c :| c in w.open && Adds(w, c, address) && HasRow(w, address) {
      RunOne(w, Finish(c));
      AddsRow(w, c, address);
      assert Finishes([Finish(c)]) && !AtMostOne(Run(w, [Finish(c)]).rows, address);
    } else if c, d :| c in w.open && d in w.open && c != d && Adds(w, c, address) && Adds(w, d, address) {
      RunTwo(w, Finish(c), Finish(d));
      OtherStillAdds(w, c, d, address);
      AddsRow(w, c, address);
      AddsRow(Step(w, Finish(c)), d, address);
      assert Finishes([Finish(c), Finish(d)]) && !AtMostOne(Run(w, [Finish(c), Finish(d)]).rows, address);
    } else {
      forall events | Finishes(events)
        ensures AtMostOne(Run(w, events).rows, address)
      {
        StaysQuiet(w, events, address);
      }
    }
  }

  // One more upsert of an address makes a race if and only if one that found none is under way and it finds none too.
  lemma LookRacesIff(w: World, call: nat, input: Input, at: string)
    requires !Racing(w, input.email) && call !in w.open && Normal(input.email) == input.email
    ensures Racing(Step(w, Look(call, input, at)), input.email)
       <==> exists c :: c in w.open && Adds(w, c, input.email)
  {
    var t, address := Step(w, Look(call, input, at)), input.email;
    assert Find(w.rows, address) < |w.rows| ==> OfAddress(w.rows[Find(w.rows, address)], address);
    assert HasRow(w, address) ==> Find(w.rows, address) < |w.rows|;
    hide Normal, Find, Get;
    assert HasRow(t, address) <==> HasRow(w, address);
    forall c | c != call
      ensures Adds(t, c, address) <==> Adds(w, c, address)
    {}
    assert Adds(t, call, address) <==> !HasRow(w, address);
    if c :| c in w.open && Adds(w, c, address) {
      assert c in t.open && call in t.open && c != call;
    }
  }
}
