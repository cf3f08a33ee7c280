// The waitlist's worksheet (apps/web/lib/sheets.ts:126-230) over the in-memory one
// (apps/web/lib/test-helpers.ts:14-121): one row for each address, and the reader's cells left as they are.
module Sheets {
  import opened Options
  import opened Columns

  // ---------- Addresses of people ----------

  predicate IsSpace(c: char) {
    c in "\t\n\r " || c == 11 as char || c == 12 as char || c == 160 as char
  }

  function TrimStart(s: string): string {
    if s != "" && IsSpace(s[0]) then TrimStart(s[1..]) else s
  }

  function TrimEnd(s: string): string {
    if s != "" && IsSpace(s[|s| - 1]) then TrimEnd(s[..|s| - 1]) else s
  }

  function LowerOf(c: char): char {
    if 'A' <= c <= 'Z' then (c as int + 32) as char else c
  }

  function Lower(s: string): string {
    seq(|s|, i requires 0 <= i < |s| => LowerOf(s[i]))
  }

  // `.trim().toLowerCase()`, of text whose letters are ASCII.
  function Normal(s: string): string {
    Lower(TrimEnd(TrimStart(s)))
  }

  // ---------- The sheet ----------

  type Row = map<string, string>
  datatype Sheet = Sheet(headers: Option<seq<string>>, rows: seq<Row>)

  function AllColumns(): seq<string> {
    ["email", "first_seen_at", "last_seen_at", "country_code", "country_name", "contacted", "business_name",
        "business_headcount"]
  }

  // All of them but the reader's own checkbox.
  function Written(): seq<string> {
    ["email", "first_seen_at", "last_seen_at", "country_code", "country_name", "business_name", "business_headcount"]
  }

  // What an update writes; a signup that does not ask for a business leaves its two cells.
  function UpdateColumns(): (columns: seq<string>)
    ensures |columns| == 5
  {
    ["last_seen_at", "country_code", "country_name", "business_name", "business_headcount"]
  }

  function Get(row: Row, column: string): string {
    if column in row then row[column] else ""
  }

  function Missing(header: seq<string>, columns: seq<string>): seq<string> {
    if columns == [] then [] else (if columns[0] in header then [] else [columns[0]]) + Missing(header, columns[1..])
  }

  datatype Input = Input(email: string, countryCode: string, countryName: string, businessName: Option<string>,
      businessHeadcount: Option<string>)

  function Values(input: Input, at: string): seq<string> {
    [at, input.countryCode, input.countryName]
    + if input.businessName.Some? && input.businessHeadcount.Some?
    then [input.businessName.value, input.businessHeadcount.value] else []
  }

  // The row with its first columns of `UpdateColumns` set.
  function Updated(row: Row, values: seq<string>): Row
    requires |values| <= 5
  {
    if values == [] then row
    else
      var n := |values| - 1;
      Updated(row, values[..n])[UpdateColumns()[n] := values[n]]
  }

  // `addRow`: a cell for every column, empty where nothing is given.
  function NewRow(header: seq<string>, input: Input, at: string): Row {
    var given := Updated(map["email" := input.email, "first_seen_at" := at], Values(input, at));
    map column | column in header :: Get(given, column)
  }

  // `rows.find`: the first row of the address, or none.
  function Find(rows: seq<Row>, email: string): (k: nat)
    ensures k <= |rows| && (k < |rows| ==> Normal(Get(rows[k], "email")) == email)
    ensures forall i :: 0 <= i < k ==> Normal(Get(rows[i], "email")) != email
  {
    if rows == [] || Normal(Get(rows[0], "email")) == email then 0 else 1 + Find(rows[1..], email)
  }

  // ---------- `upsert` ----------

  // The calls of Google's that may fail.
  datatype Call = LoadHeaderRow | SetHeaderRow | GetRows | AddRow | LoadCells | SaveUpdatedCells | SetDataValidation
  datatype Result = WasInserted(created: bool, added: seq<string>) | WasUpdated(created: bool,
      added: seq<string>) | Threw
  datatype After = After(sheet: Sheet, result: Result)

  function WriteRow(header: seq<string>, rows: seq<Row>, created: bool, added: seq<string>, input: Input, at: string,
      fails: set<Call>): After {
    var k := Find(rows, input.email);
    if GetRows in fails then After(Sheet(Some(header), rows), Threw)
    else if k < |rows| then
      if LoadCells in fails || SaveUpdatedCells in fails then After(Sheet(Some(header), rows), Threw)
      else After(Sheet(Some(header), rows[k := Updated(rows[k], Values(input, at))]), WasUpdated(created, added))
    else if AddRow in fails then After(Sheet(Some(header), rows), Threw)
    else After(Sheet(Some(header), rows + [NewRow(header, input, at)]),
           if "contacted" in header && SetDataValidation in fails then Threw else WasInserted(created, added))
  }

  function Upserted(s: Sheet, input: Input, at: string, fails: set<Call>): After {
    if LoadHeaderRow in fails then After(s, Threw)
    else match s.headers
      case None =>
        if SetHeaderRow in fails then After(s, Threw) else WriteRow(AllColumns(), s.rows, true, [], input, at, fails)
      case Some(header) =>
        var missing := Missing(header, Written());
        if "email" !in header || (missing != [] && SetHeaderRow in fails) then After(s, Threw)
        else WriteRow(header + missing, s.rows, false, missing, input, at, fails)
  }

  // ---------- The columns ----------

  lemma {:induction false} MissingAre(header: seq<string>, columns: seq<string>, column: string)
    ensures column in Missing(header, columns) <==> column in columns && column !in header
  {
    if columns != [] {
      MissingAre(header, columns[1..], column);
      assert columns == [columns[0]] + columns[1..];
    }
  }

  // The header an upsert writes under: every column before is where it was, and every written column is there.
  lemma HeaderReady(header: seq<string>, column: string)
    requires column in Written()
    ensures column in header + Missing(header, Written())
  {
    MissingAre(header, Written(), column);
  }

  lemma HeadersKeepPlace(s: Sheet, input: Input, at: string, fails: set<Call>)
    requires s.headers.Some?
    ensures var after := Upserted(s, input, at, fails).sheet.headers;
            && after.Some? && s.headers.value <= after.value
            && forall i ::
              |s.headers.value| <= i < |after.value| ==>
                after.value[i] in Written() && after.value[i] !in s.headers.value
  {
    hide Updated, NewRow, Find, Values;
    var header := s.headers.value;
    var missing := Missing(header, Written());
    forall i | 0 <= i < |missing|
      ensures missing[i] in Written() && missing[i] !in header
    {
      MissingAre(header, Written(), missing[i]);
    }
    assert forall i :: |header| <= i < |header + missing| ==> (header + missing)[i] == missing[i - |header|];
  }

  // ---------- The cells ----------

  lemma {:induction false} UpdatedCells(row: Row, values: seq<string>, column: string)
    requires |values| <= 5 && column !in UpdateColumns()[..|values|]
    ensures column in Updated(row, values) <==> column in row
    ensures column in row ==> Updated(row, values)[column] == row[column]
  {
    if values != [] {
      var n := |values| - 1;
      assert UpdateColumns()[..n + 1] == UpdateColumns()[..n] + [UpdateColumns()[n]];
      UpdatedCells(row, values[..n], column);
    }
  }

  lemma UpdateColumnsApart(i: nat, j: nat)
    requires i < j < 5
    ensures UpdateColumns()[i] != UpdateColumns()[j]
  {
    assert "last_seen_at"[0] == 'l' && "country_code"[0] == 'c' && "country_name"[8] == 'n' && "country_code"[8] == 'c';
    assert |"business_name"| == 13 && |"business_headcount"| == 18 && |"country_code"| == 12;
  }

  lemma {:induction false} UpdatedWrites(row: Row, values: seq<string>, i: nat)
    requires i < |values| <= 5
    ensures UpdateColumns()[i] in Updated(row, values) && Updated(row, values)[UpdateColumns()[i]] == values[i]
  {
    var n := |values| - 1;
    if i < n {
      UpdatedWrites(row, values[..n], i);
      UpdateColumnsApart(i, n);
    }
  }

  // Every row but the address's own, and every cell that is not an update's, is as it was: `first_seen_at`, `contacted`
  // and the reader's own columns among them.
  lemma CellsKept(s: Sheet, input: Input, at: string, fails: set<Call>, i: nat, column: string)
    requires i < |s.rows| && (column in UpdateColumns() ==> i != Find(s.rows, input.email))
    ensures var after := Upserted(s, input, at, fails).sheet.rows;
            i < |after| && (column in after[i] <==> column in s.rows[i])
            && (column in s.rows[i] ==> after[i][column] == s.rows[i][column])
  {
    hide NewRow, Normal, UpdateColumns;
    if column !in UpdateColumns() {
      UpdatedCells(s.rows[i], Values(input, at), column);
    }
  }

  lemma TheirsAndOurs()
    ensures "email" !in UpdateColumns() && "first_seen_at" !in UpdateColumns() && "contacted" !in UpdateColumns()
  {
    assert |"email"| == 5 && |"contacted"| == 9 && "first_seen_at"[0] == 'f' && "business_name"[0] == 'b';
  }

  // ---------- One row for each address ----------

  predicate AtMostOne(rows: seq<Row>, address: string) {
    forall i, j ::
      0 <= i < j < |rows| ==> Normal(Get(rows[i], "email")) != address || Normal(Get(rows[j], "email")) != address
  }

  lemma EmailKept(s: Sheet, input: Input, at: string, fails: set<Call>, i: nat)
    requires i < |s.rows|
    ensures var after := Upserted(s, input, at, fails).sheet.rows;
            i < |after| && Get(after[i], "email") == Get(s.rows[i], "email")
  {
    TheirsAndOurs();
    hide Upserted, UpdateColumns;
    CellsKept(s, input, at, fails, i, "email");
  }

  // An upsert adds a row or none, and the one it adds is its own address's, which had none.
  lemma RowsAdded(s: Sheet, input: Input, at: string, fails: set<Call>)
    ensures var after := Upserted(s, input, at, fails).sheet;
            && |s.rows| <= |after.rows| <= |s.rows| + 1
            && (|after.rows| > |s.rows| ==>
              Get(after.rows[|s.rows|], "email") == input.email && Find(s.rows, input.email) == |s.rows|)
  {
    hide Normal, Missing, UpdateColumns;
    if s.headers.Some? {
      var header := s.headers.value + Missing(s.headers.value, Written());
      if "email" in s.headers.value {
        NewRowIs(header, input, at);
      }
    } else {
      NewRowIs(AllColumns(), input, at);
    }
  }

  lemma NewRowIs(header: seq<string>, input: Input, at: string)
    requires "email" in header
    ensures Get(NewRow(header, input, at), "email") == input.email
    ensures "first_seen_at" in header ==> Get(NewRow(header, input, at), "first_seen_at") == at
  {
    TheirsAndOurs();
    hide UpdateColumns;
    var start := map["email" := input.email, "first_seen_at" := at];
    UpdatedCells(start, Values(input, at), "email");
    UpdatedCells(start, Values(input, at), "first_seen_at");
    assert "email" != "first_seen_at" by { assert |"email"| != |"first_seen_at"|; }
  }

  // For an address as the form hands it over, trimmed and in lower case, no upsert gives any address a second row.
  lemma StillAtMostOne(s: Sheet, input: Input, at: string, fails: set<Call>, address: string)
    requires Normal(input.email) == input.email && AtMostOne(s.rows, address)
    ensures AtMostOne(Upserted(s, input, at, fails).sheet.rows, address)
  {
    hide Upserted, Normal;
    var after := Upserted(s, input, at, fails).sheet.rows;
    RowsAdded(s, input, at, fails);
    forall i | 0 <= i < |s.rows|
      ensures Get(after[i], "email") == Get(s.rows[i], "email")
    {
      EmailKept(s, input, at, fails, i);
    }
  }

  datatype Signup = Signup(input: Input, at: string, fails: set<Call>)

  function Signups(s: Sheet, all: seq<Signup>): Sheet {
    if all == [] then s
    else
      var last := all[|all| - 1];
      Upserted(Signups(s, all[..|all| - 1]), last.input, last.at, last.fails).sheet
  }

  // Whatever fails, over any number of signups: an address with at most one row has at most one, the columns keep their
  // place, and no row, no `first_seen_at` and no cell of the reader's is lost or changed.
  lemma {:induction false} SignupsKeep(s: Sheet, all: seq<Signup>, address: string)
    requires AtMostOne(s.rows, address) && forall k ::
        0 <= k < |all| ==> Normal(all[k].input.email) == all[k].input.email
    ensures AtMostOne(Signups(s, all).rows, address)
    ensures s.headers.Some? ==> Signups(s, all).headers.Some? && s.headers.value <= Signups(s, all).headers.value
    ensures |s.rows| <= |Signups(s, all).rows|
    ensures forall i, column ::
        0 <= i < |s.rows| && column !in UpdateColumns() ==> SameCell(s.rows[i], Signups(s, all).rows[i], column)
  {
    hide Upserted, Normal, UpdateColumns;
    if all != [] {
      var before, last := Signups(s, all[..|all| - 1]), all[|all| - 1];
      SignupsKeep(s, all[..|all| - 1], address);
      StillAtMostOne(before, last.input, last.at, last.fails, address);
      RowsAdded(before, last.input, last.at, last.fails);
      if before.headers.Some? {
        HeadersKeepPlace(before, last.input, last.at, last.fails);
      }
      forall i, column | 0 <= i < |s.rows| && column !in UpdateColumns()
        ensures SameCell(s.rows[i], Signups(s, all).rows[i], column)
      {
        assert SameCell(s.rows[i], before.rows[i], column);
        CellsKept(before, last.input, last.at, last.fails, i, column);
      }
    }
  }

  predicate SameCell(a: Row, b: Row, column: string) {
    (column in a <==> column in b) && (column in a ==> a[column] == b[column])
  }

  // An address just given a row is found again, and updated, exactly when it was normalised: otherwise it is given
  // another.
  lemma FoundAgainIff(s: Sheet, input: Input, at: string, later: string)
    requires Upserted(s, input, at, {}).result.WasInserted?
    ensures var again := Upserted(Upserted(s, input, at, {}).sheet, input, later, {}).result;
            && (again.WasUpdated? <==> Normal(input.email) == input.email)
               && (again.WasInserted? <==> Normal(input.email) != input.email)
  {
    hide Normal, UpdateColumns, Updated, NewRow, Values;
    var first := Upserted(s, input, at, {});
    RowsAdded(s, input, at, {});
    HeaderThen(s, input, at);
    var k := Find(first.sheet.rows, input.email);
    forall i | 0 <= i < |s.rows|
      ensures Get(first.sheet.rows[i], "email") == Get(s.rows[i], "email")
    {
      EmailKept(s, input, at, {}, i);
    }
  }

  lemma HeaderThen(s: Sheet, input: Input, at: string)
    requires Upserted(s, input, at, {}).result.WasInserted?
    ensures var after := Upserted(s, input, at, {}).sheet;
            after.headers.Some? && "email" in after.headers.value && |after.rows| == |s.rows| + 1
  {
    hide Normal, UpdateColumns, Updated, NewRow, Values, Missing;
  }

  // ---------- What a signup leaves ----------

  ghost predicate Holds(row: Row, values: seq<string>) {
    |values| <= 5 && forall i :: 0 <= i < |values| ==> Get(row, UpdateColumns()[i]) == values[i]
  }

  lemma UpdatedHolds(row: Row, input: Input, at: string)
    ensures Holds(Updated(row, Values(input, at)), Values(input, at))
  {
    forall i | 0 <= i < |Values(input, at)|
      ensures Get(Updated(row, Values(input, at)), UpdateColumns()[i]) == Values(input, at)[i]
    {
      UpdatedWrites(row, Values(input, at), i);
    }
  }

  lemma NewRowHolds(header: seq<string>, input: Input, at: string)
    requires forall column :: column in Written() ==> column in header
    ensures Holds(NewRow(header, input, at), Values(input, at))
    ensures Get(NewRow(header, input, at), "email") == input.email
            && Get(NewRow(header, input, at), "first_seen_at") == at
  {
    NewRowIs(header, input, at);
    UpdatedHolds(map["email" := input.email, "first_seen_at" := at], input, at);
    forall i | 0 <= i < 5
      ensures UpdateColumns()[i] in header
    {
      assert UpdateColumns()[i] in Written();
    }
  }

  // After an upsert that succeeds, the address's row holds the signup: first seen now when it had none.
  lemma SignupHeld(s: Sheet, input: Input, at: string, fails: set<Call>)
    requires !Upserted(s, input, at, fails).result.Threw?
    ensures var after, k := Upserted(s, input, at, fails), Find(s.rows, input.email);
            && k < |after.sheet.rows| && Holds(after.sheet.rows[k], Values(input, at))
            && (after.result.WasInserted? <==> k == |s.rows|)
            && (after.result.WasInserted? ==>
              Get(after.sheet.rows[k], "email") == input.email && Get(after.sheet.rows[k], "first_seen_at") == at)
  {
    hide Normal, NewRow, Updated, Holds, UpdateColumns, Values;
    var k := Find(s.rows, input.email);
    var header := if s.headers.None? then AllColumns() else s.headers.value + Missing(s.headers.value, Written());
    if k < |s.rows| {
      UpdatedHolds(s.rows[k], input, at);
    } else {
      forall column | column in Written()
        ensures column in header
      {
        if s.headers.Some? {
          HeaderReady(s.headers.value, column);
        }
      }
      NewRowHolds(header, input, at);
    }
  }

  // Which upserts throw, what they leave, and which one adds a row, without the order the calls are made in.
  predicate HasRow(s: Sheet, email: string) {
    exists i :: 0 <= i < |s.rows| && Normal(Get(s.rows[i], "email")) == email
  }

  // The header the upsert meets lacks a column that it writes: one with no column at all is given them all.
  predicate LacksColumn(header: seq<string>) {
    exists column ::
      column in {"email", "first_seen_at", "last_seen_at", "country_code", "country_name", "business_name",
        "business_headcount"} && column !in header
  }

  predicate HeaderFails(s: Sheet, fails: set<Call>) {
    || LoadHeaderRow in fails
    || (s.headers.None? && SetHeaderRow in fails)
    || (s.headers.Some? && ("email" !in s.headers.value || (LacksColumn(s.headers.value) && SetHeaderRow in fails)))
  }

  predicate WriteFails(s: Sheet, email: string, fails: set<Call>) {
    || GetRows in fails
    || (HasRow(s, email) && (LoadCells in fails || SaveUpdatedCells in fails))
    || (!HasRow(s, email) && AddRow in fails)
  }

  // An upsert throws exactly when a call it makes fails, or the header it found names no email column; the row it added
  // is then there only if all that failed is its checkbox, and no row is otherwise touched. One that does not throw
  // adds a row exactly when the address had none.
  lemma ThrowsIff(s: Sheet, input: Input, at: string, fails: set<Call>)
    ensures var after := Upserted(s, input, at, fails);
            var boxed := s.headers.None? || "contacted" in s.headers.value;
            var fell := HeaderFails(s, fails) || WriteFails(s, input.email, fails);
            var unboxed := !fell && !HasRow(s, input.email) && boxed && SetDataValidation in fails;
            && (after.result.Threw? <==> fell || unboxed)
            && (fell ==> after.sheet.rows == s.rows) && (HeaderFails(s, fails) ==> after.sheet == s)
            && (after.result.WasUpdated? <==> !fell && HasRow(s, input.email))
            && (!fell && !HasRow(s, input.email) ==> |after.sheet.rows| == |s.rows| + 1)
            && (after.result.WasInserted? ==> after.result.created == s.headers.None?)
            && (after.result.WasUpdated? ==> after.result.created == s.headers.None?)
  {
    FoundIff(s, input.email);
    LacksIff(s);
    ContactedKept(s);
    hide Normal, Updated, NewRow, Values, Missing, LacksColumn, HasRow, AllColumns, Written;
  }

  lemma FoundIff(s: Sheet, email: string)
    ensures HasRow(s, email) <==> Find(s.rows, email) < |s.rows|
  {
    hide Normal;
  }

  lemma LacksIff(s: Sheet)
    ensures s.headers.Some? ==> (LacksColumn(s.headers.value) <==> Missing(s.headers.value, Written()) != [])
  {
    if s.headers.Some? {
      var header := s.headers.value;
      var missing := Missing(header, Written());
      if missing != [] {
        MissingAre(header, Written(), missing[0]);
        assert missing[0] in missing;
      }
      forall column | column in Written() && column !in header
        ensures missing != []
      {
        MissingAre(header, Written(), column);
      }
    }
  }

  lemma ContactedKept(s: Sheet)
    ensures "contacted" in AllColumns()
    ensures s.headers.Some? ==>
      ("contacted" in s.headers.value + Missing(s.headers.value, Written()) <==> "contacted" in s.headers.value)
  {
    assert AllColumns()[5] == "contacted";
    if s.headers.Some? {
      MissingAre(s.headers.value, Written(), "contacted");
      assert "contacted" !in Written() by {
        assert |"contacted"| == 9 && |"email"| == 5 && |"first_seen_at"| == 13 && |"last_seen_at"| == 12;
        assert |"country_code"| == 12 && |"country_name"| == 12 && |"business_name"| == 13;
        assert |"business_headcount"| == 18;
      }
    }
  }

  predicate Asks(input: Input) {
    input.businessName.Some? && input.businessHeadcount.Some?
  }

  // The cells a signup that asks for no business leaves.
  lemma BusinessKept(row: Row, values: seq<string>, column: string)
    requires |values| == 3 && column in ["business_name", "business_headcount"]
    ensures Get(Updated(row, values), column) == Get(row, column)
  {
    assert UpdateColumns()[3] == "business_name" && UpdateColumns()[4] == "business_headcount";
    var j := if column == "business_name" then 3 else 4;
    forall i | 0 <= i < 3
      ensures UpdateColumns()[i] != column
    {
      UpdateColumnsApart(i, j);
    }
    UpdatedCells(row, values, column);
  }

  lemma BusinessOf(s: Sheet, input: Input, at: string, fails: set<Call>, column: string)
    requires !Upserted(s, input, at, fails).result.Threw? && !Asks(input)
    requires column in ["business_name", "business_headcount"]
    ensures var after, k := Upserted(s, input, at, fails).sheet, Find(s.rows, input.email);
            && k < |after.rows|
            && Get(after.rows[k], column) == if k < |s.rows| then Get(s.rows[k], column) else ""
  {
    var k := Find(s.rows, input.email);
    assert |Values(input, at)| == 3;
    if k < |s.rows| {
      BusinessKept(s.rows[k], Values(input, at), column);
    } else {
      var start := map["email" := input.email, "first_seen_at" := at];
      BusinessKept(start, Values(input, at), column);
      assert |column| in {13, 18} && column[0] == 'b' && "email"[0] == 'e' && "first_seen_at"[0] == 'f';
    }
    hide Normal, Updated, Values, Missing, UpdateColumns, AllColumns, Written;
  }

  // What a signup that succeeds leaves in its address's row, cell by cell.
  lemma SignupCells(s: Sheet, input: Input, at: string, fails: set<Call>)
    requires !Upserted(s, input, at, fails).result.Threw?
    ensures var after, k := Upserted(s, input, at, fails).sheet, Find(s.rows, input.email);
            && k < |after.rows| && Recorded(after.rows[k], input, at)
            && (if k < |s.rows| then
                  (!Asks(input) ==> SameBusiness(s.rows[k], after.rows[k]))
                  && Get(after.rows[k], "first_seen_at") == Get(s.rows[k], "first_seen_at")
                else
                  (!Asks(input) ==> SameBusiness(map[], after.rows[k]))
                  && Get(after.rows[k], "first_seen_at") == at && Get(after.rows[k], "email") == input.email)
  {
    SignupHeld(s, input, at, fails);
    var k := Find(s.rows, input.email);
    HeldIsRecorded(Upserted(s, input, at, fails).sheet.rows[k], input, at);
    if !Asks(input) {
      BusinessOf(s, input, at, fails, "business_name");
      BusinessOf(s, input, at, fails, "business_headcount");
    }
    TheirsAndOurs();
    hide Upserted, UpdateColumns, Normal, Values, Recorded, Holds;
    if k < |s.rows| {
      CellsKept(s, input, at, fails, k, "first_seen_at");
    }
  }

  predicate Recorded(row: Row, input: Input, at: string) {
    && Get(row, "last_seen_at") == at
    && Get(row, "country_code") == input.countryCode && Get(row, "country_name") == input.countryName
    && (Asks(input) ==>
          Get(row, "business_name") == input.businessName.value
          && Get(row, "business_headcount") == input.businessHeadcount.value)
  }

  predicate SameBusiness(before: Row, after: Row) {
    Get(after, "business_name") == Get(before, "business_name")
    && Get(after, "business_headcount") == Get(before, "business_headcount")
  }

  lemma HeldIsRecorded(row: Row, input: Input, at: string)
    requires Holds(row, Values(input, at))
    ensures Recorded(row, input, at)
  {
    var values := Values(input, at);
    forall i | 0 <= i < |values|
      ensures Get(row, UpdateColumns()[i]) == values[i]
    {
    }
    assert Get(row, UpdateColumns()[0]) == at && Get(row, UpdateColumns()[1]) == input.countryCode
           && Get(row, UpdateColumns()[2]) == input.countryName;
    if Asks(input) {
      assert Get(row, UpdateColumns()[3]) == input.businessName.value
             && Get(row, UpdateColumns()[4]) == input.businessHeadcount.value;
    }
  }

  // ---------- The worksheet, and the client over it ----------

  // A cell set and not yet saved, by its address.
  datatype Unsaved = Unsaved(address: string, row: nat, key: string, value: string)

  function IndexOf(header: seq<string>, column: string): (i: int)
    ensures i == -1 || (0 <= i < |header| && header[i] == column)
    ensures column in header ==> i >= 0
  {
    if header == [] then -1
    else if header[0] == column then 0
    else
      var i := IndexOf(header[1..], column);
      if i == -1 then -1 else i + 1
  }

  // `pending.set`: an address set before keeps its place.
  function Put(pending: seq<Unsaved>, cell: Unsaved): seq<Unsaved> {
    if pending == [] then [cell]
    else if pending[0].address == cell.address then [cell] + pending[1..]
    else [pending[0]] + Put(pending[1..], cell)
  }

  function Saved(rows: seq<Row>, pending: seq<Unsaved>): (r: seq<Row>)
    requires forall i :: 0 <= i < |pending| ==> pending[i].row < |rows|
    ensures |r| == |rows|
  {
    if pending == [] then rows
    else
      var last := pending[|pending| - 1];
      var before := Saved(rows, pending[..|pending| - 1]);
      before[last.row := before[last.row][last.key := last.value]]
  }

  // The cells an update sets in the row `k`, each at the address of its column.
  function CellOf(header: seq<string>, k: nat, values: seq<string>, i: nat): Unsaved
    requires i < |values| <= 5 && forall column :: column in Written() ==> column in header
  {
    assert UpdateColumns()[i] in Written();
    Unsaved(Address(Place(IndexOf(header, UpdateColumns()[i]), k + 2)), k, UpdateColumns()[i], values[i])
  }

  function CellsOf(header: seq<string>, k: nat, values: seq<string>): (r: seq<Unsaved>)
    requires |values| <= 5 && forall column :: column in Written() ==> column in header
    ensures |r| == |values|
  {
    seq(|values|, i requires 0 <= i < |values| => CellOf(header, k, values, i))
  }

  lemma CellsApart(header: seq<string>, k: nat, values: seq<string>, i: nat, j: nat)
    requires i < j < |values| <= 5 && forall column :: column in Written() ==> column in header
    ensures CellOf(header, k, values, i).address != CellOf(header, k, values, j).address
  {
    UpdateColumnsApart(i, j);
    hide UpdateColumns, Address;
    AddressRead(Place(IndexOf(header, UpdateColumns()[i]), k + 2));
    AddressRead(Place(IndexOf(header, UpdateColumns()[j]), k + 2));
  }

  lemma {:induction false} PutNew(pending: seq<Unsaved>, cell: Unsaved)
    requires forall i :: 0 <= i < |pending| ==> pending[i].address != cell.address
    ensures Put(pending, cell) == pending + [cell]
  {
    if pending != [] {
      PutNew(pending[1..], cell);
    }
  }

  // Saving those cells updates the row.
  lemma {:induction false} SavedUpdates(rows: seq<Row>, header: seq<string>, k: nat, values: seq<string>)
    requires k < |rows| && |values| <= 5 && forall column :: column in Written() ==> column in header
    ensures forall i :: 0 <= i < |values| ==> CellsOf(header, k, values)[i].row < |rows|
    ensures Saved(rows, CellsOf(header, k, values)) == rows[k := Updated(rows[k], values)]
  {
    hide UpdateColumns, Written;
    if values != [] {
      var n := |values| - 1;
      SavedUpdates(rows, header, k, values[..n]);
      var cells := CellsOf(header, k, values);
      assert cells[..n] == CellsOf(header, k, values[..n]);
      assert cells[n] == CellOf(header, k, values, n);
    }
  }

  datatype Ensured = Ready(created: bool, added: seq<string>) | Failed

  class Worksheet {
    var headers: Option<seq<string>>
    var rows: seq<Row>
    var pending: seq<Unsaved>

    // `getCellByA1(address).stringValue = value`; false where there is no such cell.
    method SetCell(address: string, value: string) returns (there: bool)
      modifies this`pending
      ensures var place := PlaceOf(address);
              && (there <==>
                && headers.Some? && place.Some? && place.value.column < |headers.value|
                   && headers.value[place.value.column] != ""
                             && 2 <= place.value.row < |rows| + 2)
              && pending == if there
                 then Put(old(pending), Unsaved(address, place.value.row - 2, headers.value[place.value.column], value))
                      else old(pending)
    {
      var place := PlaceOf(address);
      if headers.None? || place.None? || place.value.column >= |headers.value|
          || headers.value[place.value.column] == "" || !(2 <= place.value.row < |rows| + 2) {
        return false;
      }
      pending := Put(pending, Unsaved(address, place.value.row - 2, headers.value[place.value.column], value));
      return true;
    }

    method SaveUpdatedCells()
      requires forall i :: 0 <= i < |pending| ==> pending[i].row < |rows|
      modifies this`rows, this`pending
      ensures pending == [] && rows == Saved(old(rows), old(pending))
    {
      for i := 0 to |pending|
        invariant pending == old(pending) && |rows| == |old(rows)|
        invariant rows == Saved(old(rows), pending[..i])
      {
        assert pending[..i + 1][..i] == pending[..i];
        rows := rows[pending[i].row := rows[pending[i].row][pending[i].key := pending[i].value]];
      }
      assert pending[..|pending|] == pending;
      pending := [];
    }

    // `ensureHeader`
    method EnsureHeader(fails: set<Call>) returns (r: Ensured)
      modifies this`headers
      ensures r.Failed? ==> headers == old(headers)
      ensures r.Failed? <==> LoadHeaderRow in fails
                             || (old(headers).None? && SetHeaderRow in fails)
                             || (old(headers).Some?
                                && ("email" !in old(headers).value
                                   || (Missing(old(headers).value, Written()) != [] && SetHeaderRow in fails)))
      ensures r.Ready? ==>
          headers.Some? && (old(headers).None? ==> headers.value == AllColumns() && r.created && r.added == [])
      ensures r.Ready? && old(headers).Some? ==>
          headers.value == old(headers).value + r.added && !r.created
          && r.added == Missing(old(headers).value, Written())
    {
      if LoadHeaderRow in fails {
        return Failed;
      }
      if headers.None? {
        if SetHeaderRow in fails {
          return Failed;
        }
        headers := Some(AllColumns());
        return Ready(true, []);
      }
      var missing := Missing(headers.value, Written());
      if "email" !in headers.value {
        return Failed;
      }
      if missing != [] {
        if SetHeaderRow in fails {
          return Failed;
        }
        headers := Some(headers.value + missing);
      }
      return Ready(false, missing);
    }

    method SetCells(k: nat, values: seq<string>, addresses: seq<string>)
      requires pending == [] && k < |rows| && |values| <= 5 && headers.Some?
               && (forall column :: column in Written() ==> column in headers.value)
      requires |addresses| == |values| && forall j ::
          0 <= j < |values| ==> addresses[j] == CellOf(headers.value, k, values, j).address
      modifies this`pending
      ensures pending == CellsOf(headers.value, k, values)
    {
      hide UpdateColumns, Written, Address, PlaceOf, Put, IndexOf;
      for i := 0 to |values|
        invariant pending == CellsOf(headers.value, k, values)[..i]
      {
        ColumnThere(headers.value, i);
        AddressRead(Place(IndexOf(headers.value, UpdateColumns()[i]), k + 2));
        forall j | 0 <= j < i
          ensures pending[j].address != CellOf(headers.value, k, values, i).address
        {
          CellsApart(headers.value, k, values, j, i);
        }
        PutNew(pending, CellOf(headers.value, k, values, i));
        var there := SetCell(addresses[i], values[i]);
        assert there;
      }
    }

    // The cells of an update, each by its address, then saved.
    method Update(k: nat, values: seq<string>, fails: set<Call>) returns (done: bool)
      requires pending == [] && k < |rows| && |values| <= 5 && headers.Some? && forall column ::
          column in Written() ==> column in headers.value
      modifies this`rows, this`pending
      ensures done <==> LoadCells !in fails && Call.SaveUpdatedCells !in fails
      ensures rows == if done then old(rows)[k := Updated(old(rows)[k], values)] else old(rows)
    {
      hide UpdateColumns, Written, Updated, CellsOf, Saved;
      var addresses: seq<string> := [];
      for i := 0 to |values|
        invariant pending == [] && rows == old(rows)
        invariant |addresses| == i && forall j ::
            0 <= j < i ==> addresses[j] == CellOf(headers.value, k, values, j).address
      {
        ColumnThere(headers.value, i);
        var letters := ColumnLetter(IndexOf(headers.value, UpdateColumns()[i]));
        addresses := addresses + [letters + Decimal(k + 2)];
      }
      if LoadCells in fails {
        return false;
      }
      SetCells(k, values, addresses);
      if Call.SaveUpdatedCells in fails {
        return false;
      }
      SavedUpdates(rows, headers.value, k, values);
      SaveUpdatedCells();
      return true;
    }

    // `upsert`, on a sheet just opened.
    method Upsert(input: Input, at: string, fails: set<Call>) returns (result: Result)
      requires pending == []
      modifies this
      ensures Upserted(old(Sheet(headers, rows)), input, at, fails) == After(Sheet(headers, rows), result)
    {
      hide Missing, Updated, NewRow, Normal, UpdateColumns, AllColumns, Written;
      var header := EnsureHeader(fails);
      if header.Failed? || GetRows in fails {
        return Threw;
      }
      var k := 0;
      while k < |rows| && Normal(Get(rows[k], "email")) != input.email
        invariant k <= |rows|
        invariant forall i :: 0 <= i < k ==> Normal(Get(rows[i], "email")) != input.email
      {
        k := k + 1;
      }
      assert k == Find(rows, input.email);
      if k < |rows| {
        AllWritten(old(headers), headers.value);
        var done := Update(k, Values(input, at), fails);
        return if done then WasUpdated(header.created, header.added) else Threw;
      }
      if AddRow in fails {
        return Threw;
      }
      rows := rows + [NewRow(headers.value, input, at)];
      if IndexOf(headers.value, "contacted") != -1 && SetDataValidation in fails {
        return Threw;
      }
      return WasInserted(header.created, header.added);
    }
  }

  lemma ColumnThere(header: seq<string>, i: nat)
    requires i < 5 && forall column :: column in Written() ==> column in header
    ensures UpdateColumns()[i] in header && UpdateColumns()[i] != ""
  {
    assert UpdateColumns()[i] in Written();
  }

  lemma AllWritten(before: Option<seq<string>>, header: seq<string>)
    requires header == if before.None? then AllColumns() else before.value + Missing(before.value, Written())
    ensures forall column :: column in Written() ==> column in header
  {
    forall column | column in Written()
      ensures column in header
    {
      if before.Some? {
        HeaderReady(before.value, column);
      }
    }
  }
}
