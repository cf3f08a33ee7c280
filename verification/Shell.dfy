// Commands written as one line: `commandLine` (infra/pipeline/src/run.ts:65-67), `shellWord` and `finishing`
// (scripts/mcp/io.ts:86, 125-127), and a reader of such lines: the words a shell makes of one by POSIX.1-2017, Shell
// Command Language, sections 2.2.1 to 2.2.3 and 2.3.
module Shell {
  import opened Options

  // ---------- What a shell reads ----------

  datatype Mode = Bare | Single | Double

  predicate IsBlank(c: char) {
    c == ' ' || c == '\t'
  }

  // Unquoted, an operator, an expansion, a pattern or the end of the line; at a word's start, also a comment or a home.
  predicate IsSpecial(c: char, starting: bool) {
    c in "|&;<>()$`*?[\n" || (starting && c in "#~")
  }

  function With(word: Option<string>, more: string): Option<string> {
    Some(if word.Some? then word.value + more else more)
  }

  function Ended(word: Option<string>, words: seq<string>): seq<string> {
    if word.Some? then words + [word.value] else words
  }

  // The rest of a line, within a word or not: its words, or None when it is more than words or a quote is left open.
  function Scan(s: string, mode: Mode, word: Option<string>, words: seq<string>): Option<seq<string>>
    decreases |s|
  {
    if s == "" then if mode.Bare? then Some(Ended(word, words)) else None
    else
      var c, rest := s[0], s[1..];
      match mode
      case Single => if c == '\'' then Scan(rest, Bare, word, words) else Scan(rest, Single, With(word, [c]), words)
      case Double =>
        if c == '"' then Scan(rest, Bare, word, words)
        else if c == '$' || c == '`' then None
        else if c == '\\' && rest != "" && rest[0] in "$`\"\\"
             then Scan(rest[1..], Double, With(word, [rest[0]]), words)
        else if c == '\\' && rest != "" && rest[0] == '\n' then Scan(rest[1..], Double, word, words)
        else Scan(rest, Double, With(word, [c]), words)
      case Bare =>
        if IsBlank(c) then Scan(rest, Bare, None, Ended(word, words))
        else if c == '\'' then Scan(rest, Single, With(word, ""), words)
        else if c == '"' then Scan(rest, Double, With(word, ""), words)
        else if c == '\\' then
          if rest == "" then None
          else if rest[0] == '\n' then Scan(rest[1..], Bare, word, words)
          else Scan(rest[1..], Bare, With(word, [rest[0]]), words)
        else if IsSpecial(c, word.None?) then None
        else Scan(rest, Bare, With(word, [c]), words)
  }

  function Words(line: string): Option<seq<string>> {
    Scan(line, Bare, None, [])
  }

  // ---------- What is written ----------

  predicate IsWordChar(c: char) {
    'a' <= c <= 'z' || 'A' <= c <= 'Z' || '0' <= c <= '9' || c == '_'
  }

  // `replaceAll("'", "'\\''")`
  function Escaped(s: string): string {
    if s == "" then "" else (if s[0] == '\'' then "'\\''" else [s[0]]) + Escaped(s[1..])
  }

  function Quoted(s: string): string {
    "'" + (Escaped(s) + "'")
  }

  predicate IsPlain(s: string, marks: string) {
    s != "" && forall i :: 0 <= i < |s| ==> IsWordChar(s[i]) || s[i] in marks
  }

  function Part(part: string): string {
    if IsPlain(part, "@%+=:,./-") then part else Quoted(part)
  }

  function Joined(parts: seq<string>): string {
    if parts == [] then ""
    else if |parts| == 1 then Part(parts[0])
    else Part(parts[0]) + (" " + Joined(parts[1..]))
  }

  function CommandLine(argv: seq<string>): string {
    Joined(argv)
  }

  // `<[^>]*>`
  predicate IsAngled(s: string) {
    |s| >= 2 && s[0] == '<' && s[|s| - 1] == '>' && forall i :: 1 <= i < |s| - 1 ==> s[i] != '>'
  }

  predicate IsPlaceholder(s: string) {
    IsAngled(s) || (|s| >= 2 && s[0] == '"' && s[|s| - 1] == '"' && IsAngled(s[1..|s| - 1]))
  }

  function ShellWord(value: string): string {
    if IsPlain(value, ".,:/@=+-") || IsPlaceholder(value) then value else Quoted(value)
  }

  // ---------- Reading undoes writing ----------

  lemma {:induction false} ScanEscaped(s: string, tail: string, word: string, words: seq<string>)
    ensures Scan(Escaped(s) + ("'" + tail), Single, Some(word), words) == Scan(tail, Bare, Some(word + s), words)
    decreases |s|
  {
    if s == "" {
      assert Escaped(s) + ("'" + tail) == "'" + tail && ("'" + tail)[1..] == tail;
      assert word + s == word;
    } else {
      var more := Escaped(s[1..]) + ("'" + tail);
      assert word + s == (word + [s[0]]) + s[1..];
      if s[0] == '\'' {
        var line := "'\\''" + more;
        assert Escaped(s) + ("'" + tail) == line;
        QuoteInside(more, word, words);
      } else {
        assert Escaped(s) + ("'" + tail) == [s[0]] + more && ([s[0]] + more)[1..] == more;
      }
      ScanEscaped(s[1..], tail, word + [s[0]], words);
    }
  }

  // Out of the quotes, a quote by itself, and back in.
  lemma QuoteInside(more: string, word: string, words: seq<string>)
    ensures Scan("'\\''" + more, Single, Some(word), words) == Scan(more, Single, Some(word + "'"), words)
  {
    var a, b, c := "'\\''" + more, "\\''" + more, "'" + more;
    assert a[1..] == b && b[1..][1..] == c && c[1..] == more;
    assert Scan(a, Single, Some(word), words) == Scan(b, Bare, Some(word), words);
    assert b[1..][0] == '\'';
    assert Scan(b, Bare, Some(word), words) == Scan(c, Bare, Some(word + "'"), words);
    assert word + "'" + "" == word + "'";
  }

  lemma ScanQuoted(s: string, tail: string, words: seq<string>)
    ensures Scan(Quoted(s) + tail, Bare, None, words) == Scan(tail, Bare, Some(s), words)
  {
    var rest := Escaped(s) + ("'" + tail);
    assert Quoted(s) + tail == "'" + rest && ("'" + rest)[1..] == rest;
    ScanEscaped(s, tail, "", words);
    assert "" + s == s;
  }

  lemma ScanOne(c: char, rest: string, word: Option<string>, words: seq<string>)
    requires !IsBlank(c) && c != '\'' && c != '"' && c != '\\' && !IsSpecial(c, true)
    ensures Scan([c] + rest, Bare, word, words) == Scan(rest, Bare, With(word, [c]), words)
  {
    assert ([c] + rest)[1..] == rest;
  }

  lemma {:induction false} ScanPlain(s: string, marks: string, tail: string, word: Option<string>, words: seq<string>)
    requires IsPlain(s, marks) && forall i :: 0 <= i < |marks| ==> marks[i] in "@%+=:,./-"
    ensures Scan(s + tail, Bare, word, words) == Scan(tail, Bare, With(word, s), words)
    decreases |s|
  {
    hide Scan, IsSpecial, IsBlank, IsWordChar;
    PlainIsBare(s[0], marks);
    ScanOne(s[0], s[1..] + tail, word, words);
    assert s + tail == [s[0]] + (s[1..] + tail);
    var next := With(word, [s[0]]);
    if |s| == 1 {
      assert s[1..] + tail == tail && s == [s[0]];
    } else {
      ScanPlain(s[1..], marks, tail, next, words);
      assert next.value + s[1..] == With(word, s).value;
    }
  }

  lemma PlainIsBare(c: char, marks: string)
    requires (IsWordChar(c) || c in marks) && forall i :: 0 <= i < |marks| ==> marks[i] in "@%+=:,./-"
    ensures !IsBlank(c) && c != '\'' && c != '"' && c != '\\' && !IsSpecial(c, true)
  {
  }

  lemma ScanPart(part: string, tail: string, words: seq<string>)
    ensures Scan(Part(part) + tail, Bare, None, words) == Scan(tail, Bare, Some(part), words)
  {
    if IsPlain(part, "@%+=:,./-") {
      ScanPlain(part, "@%+=:,./-", tail, None, words);
      assert "" + part == part;
    } else {
      ScanQuoted(part, tail, words);
    }
  }

  lemma {:induction false} ScanJoined(parts: seq<string>, words: seq<string>)
    ensures Scan(Joined(parts), Bare, None, words) == Some(words + parts)
    decreases |parts|
  {
    if parts == [] {
      assert words + parts == words;
    } else if |parts| == 1 {
      ScanPart(parts[0], "", words);
      assert Part(parts[0]) + "" == Part(parts[0]) && parts == [parts[0]];
    } else {
      var rest := " " + Joined(parts[1..]);
      ScanPart(parts[0], rest, words);
      assert rest[1..] == Joined(parts[1..]);
      ScanJoined(parts[1..], words + [parts[0]]);
      assert words + [parts[0]] + parts[1..] == words + parts;
    }
  }

  // Every command, read back as a shell splits it, is the command: empty arguments, blanks and quotes included.
  lemma CommandLineRead(argv: seq<string>)
    ensures Words(CommandLine(argv)) == Some(argv)
  {
    ScanJoined(argv, []);
    assert [] + argv == argv;
  }

  // What the first word begins with.
  predicate Begins(word: Option<string>, words: seq<string>, c: char) {
    if words != [] then words[0] != "" && words[0][0] == c else word.Some? && word.value != "" && word.value[0] == c
  }

  lemma {:induction false} FirstStays(s: string, mode: Mode, word: Option<string>, words: seq<string>, c: char)
    requires Begins(word, words, c)
    ensures Scan(s, mode, word, words).Some? ==> Begins(None, Scan(s, mode, word, words).value, c)
    decreases |s|
  {
    if s != "" {
      var d, rest := s[0], s[1..];
      FirstStays(rest, Bare, word, words, c);
      FirstStays(rest, Bare, None, Ended(word, words), c);
      FirstStays(rest, Bare, With(word, [d]), words, c);
      FirstStays(rest, Single, With(word, [d]), words, c);
      FirstStays(rest, Single, With(word, ""), words, c);
      FirstStays(rest, Double, With(word, [d]), words, c);
      FirstStays(rest, Double, With(word, ""), words, c);
      if rest != "" {
        FirstStays(rest[1..], mode, word, words, c);
        FirstStays(rest[1..], mode, With(word, [rest[0]]), words, c);
      }
    }
  }

  lemma PlaceholderLost(value: string)
    requires IsPlaceholder(value)
    ensures Words(value) != Some([value])
  {
    if IsAngled(value) {
      assert IsSpecial('<', true);
    } else {
      var rest := value[1..];
      assert rest[0] == '<';
      assert Words(value) == Scan(rest, Double, Some(""), []);
      assert Scan(rest, Double, Some(""), []) == Scan(rest[1..], Double, With(Some(""), "<"), []) by {
        assert [rest[0]] == "<";
      }
      FirstStays(rest[1..], Double, With(Some(""), "<"), [], '<');
    }
  }

  // A value written as a shell word is read back as that one word exactly when it is no placeholder.
  lemma ShellWordReadIff(value: string)
    ensures Words(ShellWord(value)) == Some([value]) <==> !IsPlaceholder(value)
  {
    assert [] + [value] == [value];
    if IsPlain(value, ".,:/@=+-") {
      assert value[0] != '<' && value[0] != '"';
      ScanPlain(value, ".,:/@=+-", "", None, []);
      assert value + "" == value;
    } else if IsPlaceholder(value) {
      PlaceholderLost(value);
    } else {
      ScanQuoted(value, "", []);
      assert Quoted(value) + "" == Quoted(value);
    }
  }

  // ---------- The commands that finish a job ----------

  // `[...new Set(values)]`: each value once, where it comes first.
  function Unique(values: seq<string>): seq<string> {
    if values == [] then []
    else
      var n := |values| - 1;
      Unique(values[..n]) + if values[n] in values[..n] then [] else [values[n]]
  }

  function Reversed(values: seq<string>): seq<string> {
    if values == [] then [] else Reversed(values[1..]) + [values[0]]
  }

  // The commands a step's fix joins: those to run again from that step on.
  function Finishing(redo: seq<string>): seq<string> {
    Reversed(Unique(Reversed(redo)))
  }

  lemma {:induction false} ReversedMembers(values: seq<string>, x: string)
    ensures x in Reversed(values) <==> x in values
  {
    if values != [] {
      ReversedMembers(values[1..], x);
      assert values == [values[0]] + values[1..];
    }
  }

  lemma {:induction false} ReversedLast(values: seq<string>, x: string)
    ensures Reversed(values + [x]) == [x] + Reversed(values)
  {
    if values == [] {
      assert [] + [x] == [x] && [x][1..] == [];
      assert Reversed([x]) == Reversed([x][1..]) + [x];
    } else {
      ReversedLast(values[1..], x);
      assert (values + [x])[1..] == values[1..] + [x];
    }
  }

  lemma UniqueStep(values: seq<string>, x: string)
    ensures Unique(values + [x]) == Unique(values) + if x in values then [] else [x]
  {
    assert (values + [x])[..|values|] == values;
  }

  // A step's fix is the fix of the next step, after its own command unless that comes again later: so running it does
  // every later step's command, each once, where it is last needed.
  lemma FinishingIs(redo: seq<string>)
    requires redo != []
    ensures Finishing(redo) == (if redo[0] in redo[1..] then [] else [redo[0]]) + Finishing(redo[1..])
  {
    var later := Reversed(redo[1..]);
    assert Reversed(redo) == later + [redo[0]];
    UniqueStep(later, redo[0]);
    ReversedMembers(redo[1..], redo[0]);
    ReversedLast(Unique(later), redo[0]);
    hide Reversed, Unique;
    if redo[0] in redo[1..] {
      assert Unique(later) + [] == Unique(later) && [] + Finishing(redo[1..]) == Finishing(redo[1..]);
    }
  }

  // Where a value comes last, or -1.
  function LastOf(values: seq<string>, x: string): (i: int)
    ensures -1 <= i < |values| && (i >= 0 ==> values[i] == x) && forall j :: i < j < |values| ==> values[j] != x
  {
    if values == [] then -1
    else if values[|values| - 1] == x then |values| - 1
    else LastOf(values[..|values| - 1], x)
  }

  lemma LastInTail(values: seq<string>, x: string)
    requires values != [] && x in values[1..]
    ensures LastOf(values, x) == LastOf(values[1..], x) + 1
  {
    var i := LastOf(values[1..], x);
    assert values[1..][i] == values[i + 1] == x;
    assert forall j :: i + 1 < j < |values| ==> values[j] == values[1..][j - 1];
  }

  ghost predicate InLastOrder(redo: seq<string>, fix: seq<string>) {
    forall i, j :: 0 <= i < j < |fix| ==> LastOf(redo, fix[i]) < LastOf(redo, fix[j])
  }

  lemma LaterOrder(redo: seq<string>, fix: seq<string>)
    requires redo != [] && InLastOrder(redo[1..], fix) && forall i :: 0 <= i < |fix| ==> fix[i] in redo[1..]
    ensures InLastOrder(redo, fix) && forall i :: 0 <= i < |fix| ==> LastOf(redo, fix[i]) > 0
  {
    hide LastOf;
    forall i | 0 <= i < |fix|
      ensures LastOf(redo, fix[i]) == LastOf(redo[1..], fix[i]) + 1 && LastOf(redo[1..], fix[i]) >= 0
    {
      LastInTail(redo, fix[i]);
      var k :| 0 <= k < |redo[1..]| && redo[1..][k] == fix[i];
    }
  }

  lemma FirstInOrder(redo: seq<string>, fix: seq<string>)
    requires redo != [] && redo[0] !in redo[1..] && InLastOrder(redo, fix)
    requires forall i :: 0 <= i < |fix| ==> LastOf(redo, fix[i]) > 0
    ensures InLastOrder(redo, [redo[0]] + fix)
  {
    hide LastOf;
    forall k | 0 < k < |redo|
      ensures redo[k] != redo[0]
    {
      assert redo[k] == redo[1..][k - 1] && redo[1..][k - 1] in redo[1..];
    }
    assert LastOf(redo, redo[0]) == 0;
  }

  // Each command once, and in the order of their last places.
  lemma {:induction false} FinishingOrders(redo: seq<string>)
    ensures forall x :: x in Finishing(redo) <==> x in redo
    ensures InLastOrder(redo, Finishing(redo))
  {
    hide Finishing, LastOf, InLastOrder;
    NothingToFinish();
    if redo != [] {
      var rest, fix := redo[1..], Finishing(redo[1..]);
      FinishingIs(redo);
      FinishingOrders(rest);
      assert redo == [redo[0]] + rest;
      LaterOrder(redo, fix);
      if redo[0] !in rest {
        FirstInOrder(redo, fix);
      } else {
        assert [] + fix == fix;
      }
    }
  }

  lemma NothingToFinish()
    ensures Finishing([]) == [] && InLastOrder([], [])
  {
  }

  // ---------- What is quoted ----------

  predicate IsAlphanumeric(c: char) {
    'a' <= c <= 'z' || 'A' <= c <= 'Z' || '0' <= c <= '9'
  }

  lemma EscapedIsLonger(s: string)
    ensures |Escaped(s)| >= |s|
  {
  }

  lemma QuotedDiffers(s: string)
    ensures Quoted(s) != s && |Quoted(s)| >= 2 && Quoted(s)[0] == '\'' && Quoted(s)[|Quoted(s)| - 1] == '\''
  {
    EscapedIsLonger(s);
    assert |Quoted(s)| == |Escaped(s)| + 2;
  }

  // An argument is written as itself exactly when it has characters, all letters, digits, `_` or these nine; a shell
  // word when it is a placeholder too, or of the same but for `%`. Anything else is written in quotes.
  lemma WrittenAsIs(value: string)
    ensures CommandLine([value]) == value
       <==> value != "" && forall i :: 0 <= i < |value| ==>
         IsAlphanumeric(value[i]) || value[i] in ['_', '@', '%', '+', '=', ':', ',', '.', '/', '-']
    ensures ShellWord(value) == value
       <==> IsPlaceholder(value)
            || (value != "" && forall i :: 0 <= i < |value| ==>
                 IsAlphanumeric(value[i]) || value[i] in ['_', '@', '+', '=', ':', ',', '.', '/', '-'])
    ensures CommandLine([value]) == value || CommandLine([value])[0] == '\''
    ensures ShellWord(value) == value || ShellWord(value)[0] == '\''
  {
    QuotedDiffers(value);
    hide Quoted, IsPlaceholder;
  }

  lemma Regrouped(a: string, b: string, c: string, d: string, e: string)
    ensures a + (b + (c + d + e)) == a + (b + c) + d + e
  {
  }

  lemma JoinedIs(parts: seq<string>)
    requires |parts| > 1
    ensures Joined(parts) == Part(parts[0]) + (" " + Joined(parts[1..]))
  {
    hide Part;
  }

  // One command after another is the line of both, a blank between them.
  lemma {:induction false} LinesJoin(a: seq<string>, b: seq<string>)
    requires a != [] && b != []
    ensures CommandLine(a + b) == CommandLine(a) + " " + CommandLine(b)
  {
    JoinedIs(a + b);
    assert (a + b)[1..] == a[1..] + b;
    if |a| == 1 {
      OneLine(a, b);
    } else {
      JoinedIs(a);
      hide Part, Joined;
      LinesJoin(a[1..], b);
      Regrouped(Part(a[0]), " ", Joined(a[1..]), " ", Joined(b));
    }
  }

  lemma OneLine(a: seq<string>, b: seq<string>)
    requires |a| == 1 && b != []
    ensures CommandLine(a + b) == CommandLine(a) + " " + CommandLine(b)
  {
    JoinedIs(a + b);
    hide Part;
    assert (a + b)[1..] == b;
    assert Joined(a) == Part(a[0]);
    assert Part(a[0]) + (" " + Joined(b)) == Part(a[0]) + " " + Joined(b);
  }
}
