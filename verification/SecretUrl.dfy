// The URL a database login's Secret holds (infra/ops/src/bootstrap.ts:49, 105, 146-156): how it is written, and the
// password read back from it.
module SecretUrl {
  import opened Options

  // ---------- encodeURIComponent, of ASCII text ----------

  predicate Ascii(s: string) {
    forall i :: 0 <= i < |s| ==> s[i] < 128 as char
  }

  predicate Unreserved(c: char) {
    'A' <= c <= 'Z' || 'a' <= c <= 'z' || '0' <= c <= '9' || c in "-_.!~*'()"
  }

  function HexDigit(n: int): char
    requires 0 <= n < 16
  {
    "0123456789ABCDEF"[n]
  }

  function HexValue(c: char): int {
    if '0' <= c <= '9' then c as int - '0' as int
    else if 'A' <= c <= 'F' then c as int - 'A' as int + 10
    else if 'a' <= c <= 'f' then c as int - 'a' as int + 10
    else -1
  }

  function EncodeChar(c: char): string
    requires c < 128 as char
  {
    if Unreserved(c) then [c] else ['%', HexDigit(c as int / 16), HexDigit(c as int % 16)]
  }

  function Encode(s: string): string
    requires Ascii(s)
  {
    if s == "" then "" else EncodeChar(s[0]) + Encode(s[1..])
  }

  // decodeURIComponent, of escapes below 128: any other fails.
  function Decode(s: string): Option<string>
    decreases |s|
  {
    if s == "" then Some("")
    else if s[0] != '%' then
      match Decode(s[1..]) { case None => None case Some(rest) => Some([s[0]] + rest) }
    else if |s| < 3 || HexValue(s[1]) < 0 || HexValue(s[1]) >= 8 || HexValue(s[2]) < 0 then None
    else
      match Decode(s[3..]) { case None => None case Some(rest) =>
        Some([(HexValue(s[1]) * 16 + HexValue(s[2])) as char] + rest) }
  }

  lemma HexRoundTrip(n: int)
    requires 0 <= n < 16
    ensures HexValue(HexDigit(n)) == n
  {}

  lemma {:induction false} DecodeUndoesEncode(s: string)
    requires Ascii(s)
    ensures Decode(Encode(s)) == Some(s)
  {
    if s != "" {
      var c := s[0];
      DecodeUndoesEncode(s[1..]);
      assert s == [c] + s[1..];
      var all := Encode(s);
      if Unreserved(c) {
        assert all == [c] + Encode(s[1..]) && all[1..] == Encode(s[1..]);
      } else {
        HexRoundTrip(c as int / 16);
        HexRoundTrip(c as int % 16);
        assert all[3..] == Encode(s[1..]);
      }
    }
  }

  // A text is encoded as itself exactly when it is of letters, digits and the nine marks JavaScript leaves alone;
  // any other character takes three.
  lemma {:induction false} EncodedAsItselfIff(s: string)
    requires Ascii(s)
    ensures |Encode(s)| >= |s|
    ensures Encode(s) == s <==> forall i :: 0 <= i < |s| ==>
              'a' <= s[i] <= 'z' || 'A' <= s[i] <= 'Z' || '0' <= s[i] <= '9'
              || s[i] in ['-', '_', '.', '!', '~', '*', '\'', '(', ')']
    ensures Encode(s) == s <==> |Encode(s)| == |s|
  {
    if s != "" {
      EncodedAsItselfIff(s[1..]);
      assert s == [s[0]] + s[1..];
      if Unreserved(s[0]) {
        assert Encode(s) == [s[0]] + Encode(s[1..]) && Encode(s)[1..] == Encode(s[1..]);
      } else {
        assert |Encode(s)| >= |s| + 2;
      }
    }
  }

  // What encoding leaves of the characters that end a part of a URL: none.
  lemma {:induction false} EncodedIsPlain(s: string)
    requires Ascii(s)
    ensures forall i :: 0 <= i < |Encode(s)| ==> Encode(s)[i] !in "/?#@:"
  {
    if s != "" {
      EncodedIsPlain(s[1..]);
      var head := EncodeChar(s[0]);
      assert forall i :: 0 <= i < |head| ==> head[i] !in "/?#@:" by {
        if !Unreserved(s[0]) {
          DigitsArePlain(s[0] as int / 16);
          DigitsArePlain(s[0] as int % 16);
        }
      }
    }
  }

  lemma DigitsArePlain(n: int)
    requires 0 <= n < 16
    ensures HexDigit(n) !in "/?#@:"
  {}

  // ---------- The URL's user and password ----------

  // Where the first of `stops` stands, or the end.
  function Until(s: string, stops: string): (n: nat)
    ensures n <= |s| && (n < |s| ==> s[n] in stops) && forall i :: 0 <= i < n ==> s[i] !in stops
  {
    if s == "" || s[0] in stops then 0 else 1 + Until(s[1..], stops)
  }

  // Where the last `@` stands, or -1.
  function LastAt(s: string): (n: int)
    ensures -1 <= n < |s| && (n >= 0 ==> s[n] == '@') && forall i :: n < i < |s| ==> s[i] != '@'
  {
    if s == "" then -1 else if s[|s| - 1] == '@' then |s| - 1 else LastAt(s[..|s| - 1])
  }

  const SCHEME := "postgres://"

  datatype Login = Login(user: string, password: string)

  // The user and password before the authority's last `@`, still encoded.
  function Userinfo(url: string): Option<Login> {
    if |url| < |SCHEME| || url[..|SCHEME|] != SCHEME then None else Some(LoginIn(url[|SCHEME|..]))
  }

  function LoginIn(rest: string): Login {
    var authority := rest[..Until(rest, "/?#")];
    var at := LastAt(authority);
    if at < 0 then Login("", "")
    else
      var info := authority[..at];
      var colon := Until(info, ":");
      Login(info[..colon], if colon < |info| then info[colon + 1..] else "")
  }

  datatype Read = Password(password: string) | NotUrl | ForOther

  // `passwordIn`: refused when it is no URL, or another login's.
  function PasswordIn(stored: string, name: string): Read {
    match Userinfo(stored)
    case None => NotUrl
    case Some(login) =>
      match (Decode(login.user), Decode(login.password))
      case (Some(user), Some(password)) => if user == name then Password(password) else ForOther
      case _ => NotUrl
  }

  // What bootstrap writes, for an address with the database's port, name and certificate after it.
  function UrlOf(name: string, password: string, server: string): string
    requires Ascii(password)
  {
    SCHEME + (name + ":" + Encode(password) + "@" + server)
  }

  predicate PlainName(name: string) {
    forall i :: 0 <= i < |name| ==> name[i] !in "/?#@:%"
  }

  lemma {:induction false} DecodePlain(s: string)
    requires PlainName(s)
    ensures Decode(s) == Some(s)
  {
    if s != "" {
      DecodePlain(s[1..]);
      assert s == [s[0]] + s[1..];
    }
  }

  lemma UntilIs(s: string, stops: string, n: nat)
    requires n <= |s| && (n < |s| ==> s[n] in stops) && forall i :: 0 <= i < n ==> s[i] !in stops
    ensures Until(s, stops) == n
  {}

  lemma AuthorityOf(info: string, server: string)
    requires forall i :: 0 <= i < |info| ==> info[i] !in "/?#"
    requires '@' !in server[..Until(server, "/?#")]
    ensures var rest := info + "@" + server; var authority := rest[..Until(rest, "/?#")];
            LastAt(authority) == |info| && authority[..|info|] == info
  {
    var host := server[..Until(server, "/?#")];
    var rest, authority := info + "@" + server, info + "@" + host;
    assert rest[..|authority|] == authority;
    assert forall i :: 0 <= i < |authority| ==> authority[i] == rest[i];
    assert forall i :: 0 <= i < |host| ==> host[i] == server[i] && host[i] !in "/?#";
    UntilIs(rest, "/?#", |authority|);
    assert authority[|info|] == '@' && forall i :: |info| < i < |authority| ==> authority[i] == host[i - |info| - 1];
    LastAtIs(authority, |info|);
  }

  lemma LastAtIs(s: string, n: nat)
    requires n < |s| && s[n] == '@' && forall i :: n < i < |s| ==> s[i] != '@'
    ensures LastAt(s) == n
  {}

  lemma SplitInfo(name: string, encoded: string)
    requires PlainName(name)
    ensures var info := name + ":" + encoded; var colon := Until(info, ":");
            colon == |name| && info[..colon] == name && info[colon + 1..] == encoded
  {
    var info := name + ":" + encoded;
    assert info[|name|] == ':' && forall i :: 0 <= i < |name| ==> info[i] == name[i];
    UntilIs(info, ":", |name|);
  }

  lemma LoginRead(name: string, encoded: string, server: string)
    requires PlainName(name) && forall i :: 0 <= i < |encoded| ==> encoded[i] !in "/?#"
    requires '@' !in server[..Until(server, "/?#")]
    ensures LoginIn(name + ":" + encoded + "@" + server) == Login(name, encoded)
  {
    AuthorityOf(name + ":" + encoded, server);
    SplitInfo(name, encoded);
  }

  lemma HeadAndTail(a: string, b: string)
    ensures (a + b)[..|a|] == a && (a + b)[|a|..] == b
  {}

  // The password read back from the URL bootstrap wrote for a login is the one it wrote, whatever it is; and no other
  // login's name is accepted with it.
  lemma PasswordReadBack(name: string, password: string, server: string, asked: string)
    requires PlainName(name) && Ascii(password) && '@' !in server[..Until(server, "/?#")]
    ensures PasswordIn(UrlOf(name, password, server), asked) == if asked == name then Password(password) else ForOther
  {
    hide LoginIn, Until;
    EncodedIsPlain(password);
    LoginRead(name, Encode(password), server);
    HeadAndTail(SCHEME, name + ":" + Encode(password) + "@" + server);
    DecodePlain(name);
    DecodeUndoesEncode(password);
  }

  // ---------- A SQL literal ----------

  function Doubled(s: string): string {
    if s == "" then "" else (if s[0] == '\'' then "''" else [s[0]]) + Doubled(s[1..])
  }

  function Literal(s: string): string {
    "'" + Doubled(s) + "'"
  }

  // How PostgreSQL reads a quoted literal's inside: a doubled quote is one quote, a single one ends it.
  function ReadInside(s: string): Option<(string, string)> {
    if s == "" then None
    else if s[0] != '\'' then
      match ReadInside(s[1..]) { case None => None case Some((value, after)) => Some(([s[0]] + value, after)) }
    else if |s| >= 2 && s[1] == '\'' then
      match ReadInside(s[2..]) { case None => None case Some((value, after)) => Some(("'" + value, after)) }
    else Some(("", s[1..]))
  }

  function ReadLiteral(s: string): Option<(string, string)> {
    if s != "" && s[0] == '\'' then ReadInside(s[1..]) else None
  }

  // Whatever the value, the literal reads as it, and ends where it was meant to.
  lemma LiteralReads(s: string, after: string)
    requires after == "" || after[0] != '\''
    ensures ReadLiteral(Literal(s) + after) == Some((s, after))
  {
    var inside := Doubled(s) + "'" + after;
    assert Literal(s) + after == "'" + inside && ("'" + inside)[1..] == inside;
    InsideReads(s, after);
  }

  lemma {:induction false} InsideReads(s: string, after: string)
    requires after == "" || after[0] != '\''
    ensures ReadInside(Doubled(s) + "'" + after) == Some((s, after))
  {
    var all := Doubled(s) + "'" + after;
    if s == "" {
      assert all == "'" + after && all[1..] == after;
    } else {
      InsideReads(s[1..], after);
      assert s == [s[0]] + s[1..];
      var rest := Doubled(s[1..]) + "'" + after;
      if s[0] == '\'' {
        assert all == "''" + rest && all[2..] == rest;
      } else {
        assert all == [s[0]] + rest && all[1..] == rest;
      }
    }
  }
}
