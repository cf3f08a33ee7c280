// A cell's address: column letters in bijective base 26 (apps/web/lib/sheets.ts:262-268), and the reader of addresses
// that the in-memory worksheet has (apps/web/lib/test-helpers.ts:86-93).
module Columns {
  import opened Options

  // ---------- Column letters ----------

  function Letter(d: nat): char
    requires d < 26
  {
    (65 + d) as char
  }

  // The letters of column `n`, counted from one.
  function Letters(n: nat): string {
    if n == 0 then "" else Letters((n - 1) / 26) + [Letter((n - 1) % 26)]
  }

  predicate IsCapital(c: char) {
    'A' <= c <= 'Z'
  }

  // `[...letters].reduce((n, c) => n * 26 + c.charCodeAt(0) - 64, 0)`
  function ColumnOf(letters: string): nat
    requires forall i :: 0 <= i < |letters| ==> IsCapital(letters[i])
  {
    if letters == "" then 0
    else
      assert IsCapital(letters[|letters| - 1]);
      ColumnOf(letters[..|letters| - 1]) * 26 + (letters[|letters| - 1] as int - 64)
  }

  lemma {:induction false} LettersAreCapitals(n: nat)
    ensures forall i :: 0 <= i < |Letters(n)| ==> IsCapital(Letters(n)[i])
    ensures n > 0 ==> Letters(n) != ""
  {
    if n > 0 {
      LettersAreCapitals((n - 1) / 26);
    }
  }

  // Reading a column's letters gives the column.
  lemma {:induction false} LettersRead(n: nat)
    ensures (forall i :: 0 <= i < |Letters(n)| ==> IsCapital(Letters(n)[i])) && ColumnOf(Letters(n)) == n
  {
    LettersAreCapitals(n);
    if n > 0 {
      LettersRead((n - 1) / 26);
      var letters := Letters(n);
      assert letters[..|letters| - 1] == Letters((n - 1) / 26);
      assert n - 1 == (n - 1) / 26 * 26 + (n - 1) % 26;
    }
  }

  // Every word of capitals is the letters of the one column it is read as.
  lemma {:induction false} CapitalsWritten(letters: string)
    requires forall i :: 0 <= i < |letters| ==> IsCapital(letters[i])
    ensures Letters(ColumnOf(letters)) == letters
  {
    if letters != "" {
      var front, last := letters[..|letters| - 1], letters[|letters| - 1];
      CapitalsWritten(front);
      assert IsCapital(last);
      var n := ColumnOf(letters);
      assert (n - 1) / 26 == ColumnOf(front) && (n - 1) % 26 == last as int - 65;
      assert letters == front + [last];
    }
  }

  // `columnLetter`
  method ColumnLetter(index: nat) returns (letters: string)
    ensures letters == Letters(index + 1)
  {
    letters := "";
    var n: nat := index + 1;
    while n > 0
      invariant Letters(n) + letters == Letters(index + 1)
    {
      assert Letters(n) + letters == Letters((n - 1) / 26) + ([Letter((n - 1) % 26)] + letters);
      letters := [Letter((n - 1) % 26)] + letters;
      n := (n - 1) / 26;
    }
    assert Letters(0) + letters == letters;
  }

  // ---------- Row digits ----------

  function Digit(d: nat): char
    requires d < 10
  {
    (48 + d) as char
  }

  predicate IsDigit(c: char) {
    '0' <= c <= '9'
  }

  function Decimal(n: nat): string {
    if n < 10 then [Digit(n)] else Decimal(n / 10) + [Digit(n % 10)]
  }

  function NumberOf(digits: string): nat
    requires forall i :: 0 <= i < |digits| ==> IsDigit(digits[i])
  {
    if digits == "" then 0
    else
      assert IsDigit(digits[|digits| - 1]);
      NumberOf(digits[..|digits| - 1]) * 10 + (digits[|digits| - 1] as int - 48)
  }

  lemma {:induction false} DecimalRead(n: nat)
    ensures Decimal(n) != "" && (forall i :: 0 <= i < |Decimal(n)| ==> IsDigit(Decimal(n)[i]))
            && NumberOf(Decimal(n)) == n
  {
    if n < 10 {
      assert Decimal(n)[..0] == "";
    } else {
      DecimalRead(n / 10);
      assert Decimal(n)[..|Decimal(n)| - 1] == Decimal(n / 10);
    }
  }

  // ---------- Addresses ----------

  // A cell, its column and its row counted from zero and one.
  datatype Place = Place(column: nat, row: nat)

  // How many of `s` begin it and are capitals.
  function Capitals(s: string): (n: nat)
    ensures n <= |s| && (forall i :: 0 <= i < n ==> IsCapital(s[i])) && (n < |s| ==> !IsCapital(s[n]))
  {
    if s == "" || !IsCapital(s[0]) then 0 else 1 + Capitals(s[1..])
  }

  // Letters, then digits, and nothing else.
  function PlaceOf(address: string): Option<Place> {
    var n := Capitals(address);
    var digits := address[n..];
    if n == 0 || digits == "" || exists i :: 0 <= i < |digits| && !IsDigit(digits[i]) then None
    else if ColumnOf(address[..n]) == 0 then None
    else Some(Place(ColumnOf(address[..n]) - 1, NumberOf(digits)))
  }

  function Address(place: Place): string {
    Letters(place.column + 1) + Decimal(place.row)
  }

  lemma {:induction false} CapitalsThenDigits(letters: string, digits: string)
    requires (forall i :: 0 <= i < |letters| ==> IsCapital(letters[i])) && digits != "" && IsDigit(digits[0])
    ensures Capitals(letters + digits) == |letters|
  {
    if letters == "" {
      assert letters + digits == digits;
    } else {
      CapitalsThenDigits(letters[1..], digits);
      assert (letters + digits)[1..] == letters[1..] + digits;
    }
  }

  // For every column and row, the address written is read back as that cell: no two cells share one.
  lemma AddressRead(place: Place)
    ensures PlaceOf(Address(place)) == Some(place)
  {
    var letters, digits := Letters(place.column + 1), Decimal(place.row);
    LettersRead(place.column + 1);
    LettersAreCapitals(place.column + 1);
    DecimalRead(place.row);
    CapitalsThenDigits(letters, digits);
    hide Letters, Decimal, Capitals;
    assert (letters + digits)[..|letters|] == letters && (letters + digits)[|letters|..] == digits;
  }
}
