// What an update sends (infra/ops/src/registrar.ts:28-31): the wanted fields whose value differs from what ID holds,
// lists compared by their sorted, unique form.
module Differences {
  import opened Options

  // ---------- `[...new Set(values)].sort()` ----------

  // JavaScript's order of strings, by code unit.
  predicate Less(a: string, b: string) {
    b != "" && (a == "" || a[0] < b[0] || (a[0] == b[0] && Less(a[1..], b[1..])))
  }

  lemma {:induction false} LessTotal(a: string, b: string)
    ensures a == b || Less(a, b) || Less(b, a)
    ensures !(Less(a, b) && Less(b, a)) && !Less(a, a)
  {
    if a != "" {
      LessTotal(a[1..], if b != "" then b[1..] else a[1..]);
      LessTotal(a[1..], a[1..]);
      assert a == [a[0]] + a[1..];
      if b != "" {
        assert b == [b[0]] + b[1..];
      }
    }
  }

  lemma {:induction false} LessTransitive(a: string, b: string, c: string)
    requires Less(a, b) && Less(b, c)
    ensures Less(a, c)
  {
    if a != "" && a[0] == b[0] && b[0] == c[0] {
      LessTransitive(a[1..], b[1..], c[1..]);
    }
  }

  predicate Ascending(s: seq<string>) {
    |s| <= 1 || (Less(s[0], s[1]) && Ascending(s[1..]))
  }

  function Insert(x: string, s: seq<string>): seq<string> {
    if s == [] || Less(x, s[0]) then [x] + s
    else if x == s[0] then s
    else [s[0]] + Insert(x, s[1..])
  }

  function Sorted(values: seq<string>): seq<string> {
    if values == [] then [] else Insert(values[0], Sorted(values[1..]))
  }

  function Members(s: seq<string>): set<string> {
    set x | x in s
  }

  lemma {:induction false} InsertAscends(x: string, s: seq<string>)
    requires Ascending(s)
    ensures Ascending(Insert(x, s)) && Members(Insert(x, s)) == Members(s) + {x}
  {
    if s != [] && !Less(x, s[0]) && x != s[0] {
      LessTotal(x, s[0]);
      InsertAscends(x, s[1..]);
      var t := Insert(x, s[1..]);
      assert s == [s[0]] + s[1..];
      assert ([s[0]] + t)[1..] == t;
      assert Members([s[0]] + t) == {s[0]} + Members(t);
    } else if s != [] && x == s[0] {
      assert x in s;
    } else {
      assert ([x] + s)[1..] == s;
    }
  }

  lemma {:induction false} SortedAscends(values: seq<string>)
    ensures Ascending(Sorted(values)) && Members(Sorted(values)) == Members(values)
  {
    if values != [] {
      SortedAscends(values[1..]);
      InsertAscends(values[0], Sorted(values[1..]));
      assert values == [values[0]] + values[1..];
    }
  }

  lemma {:induction false} FirstIsLeast(s: seq<string>, x: string)
    requires Ascending(s) && s != [] && x in s
    ensures x == s[0] || Less(s[0], x)
  {
    if x != s[0] {
      assert s == [s[0]] + s[1..];
      FirstIsLeast(s[1..], x);
      if x != s[1] {
        LessTransitive(s[0], s[1], x);
      }
    }
  }

  // A set of strings has one ascending list.
  lemma {:induction false} AscendingUnique(a: seq<string>, b: seq<string>)
    requires Ascending(a) && Ascending(b) && Members(a) == Members(b)
    ensures a == b
  {
    assert a != [] ==> a[0] in Members(a);
    assert b != [] ==> b[0] in Members(b);
    if a != [] && b != [] {
      FirstIsLeast(a, b[0]);
      FirstIsLeast(b, a[0]);
      LessTotal(a[0], b[0]);
      TailMembers(a);
      TailMembers(b);
      AscendingUnique(a[1..], b[1..]);
    }
  }

  lemma TailMembers(s: seq<string>)
    requires Ascending(s) && s != []
    ensures Members(s[1..]) == Members(s) - {s[0]}
  {
    assert s == [s[0]] + s[1..];
    if s[0] in s[1..] {
      FirstIsLeast(s[1..], s[0]);
      LessTotal(s[0], s[1]);
    }
  }

  // Two lists have the same sorted form exactly when they have the same members.
  lemma SortedSameIff(a: seq<string>, b: seq<string>)
    ensures Sorted(a) == Sorted(b) <==> Members(a) == Members(b)
  {
    SortedAscends(a);
    SortedAscends(b);
    if Members(a) == Members(b) {
      AscendingUnique(Sorted(a), Sorted(b));
    }
  }

  // ---------- What differs ----------

  datatype Value = Null | Text(text: string) | Number(number: int) | List(items: seq<string>)

  type Fields = map<string, Value>

  predicate Same(a: Option<Value>, b: Value) {
    match (a, b)
    case (Some(List(x)), List(y)) => Sorted(x) == Sorted(y)
    case _ => a == Some(b)
  }

  function At(held: Fields, field: string): Option<Value> {
    if field in held then Some(held[field]) else None
  }

  // A wanted field of no value is not asked for.
  function Patch(held: Fields, wanted: map<string, Option<Value>>): Fields {
    map field | field in wanted && wanted[field].Some? && !Same(At(held, field), wanted[field].value) ::
      wanted[field].value
  }

  predicate SameAsSets(a: Option<Value>, b: Value) {
    match (a, b)
    case (Some(List(x)), List(y)) => Members(x) == Members(y)
    case _ => a == Some(b)
  }

  // The patch holds exactly the fields that differ as sets, with the wanted values; sending it leaves nothing to send,
  // and every other field as it was.
  lemma PatchIsExact(held: Fields, wanted: map<string, Option<Value>>, field: string)
    ensures var patch := Patch(held, wanted);
            && (field in patch <==>
              field in wanted && wanted[field].Some? && !SameAsSets(At(held, field), wanted[field].value))
            && (field in patch ==> patch[field] == wanted[field].value)
            && Patch(held + patch, wanted) == map[]
            && (field !in patch ==> At(held + patch, field) == At(held, field))
  {
    if field in wanted && wanted[field].Some? {
      match (At(held, field), wanted[field].value) {
        case (Some(List(x)), List(y)) => SortedSameIff(x, y);
        case _ =>
      }
    }
    var patch := Patch(held, wanted);
    forall f | f in wanted && wanted[f].Some?
      ensures Same(At(held + patch, f), wanted[f].value)
    {
      if f !in patch {
        assert At(held + patch, f) == At(held, f);
      }
    }
  }

  // The filter, field by field.
  method ComputePatch(held: Fields, wanted: map<string, Option<Value>>) returns (patch: Fields)
    ensures patch == Patch(held, wanted)
  {
    patch := map[];
    var todo := wanted.Keys;
    while todo != {}
      invariant todo <= wanted.Keys
      invariant patch == map f | f in Patch(held, wanted) && f !in todo :: Patch(held, wanted)[f]
      decreases todo
    {
      var field :| field in todo;
      todo := todo - {field};
      if wanted[field].Some? && !Same(At(held, field), wanted[field].value) {
        patch := patch[field := wanted[field].value];
      }
    }
    assert patch == Patch(held, wanted);
  }
}
