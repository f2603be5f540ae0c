/**
 * The path handling of the two-phase delete. `deleteFile` cleans the path
 * (tabs removed, white space trimmed) and writes it into the confirmation
 * button as a single-quoted JavaScript string literal,
 * `onclick="app.confirmDelete('<literal body>')"`; clicking the button
 * parses that literal and hands the resulting string to `confirmDelete`,
 * which cleans it once more.
 */
module Literal {
  import opened Results
  import opened Text

  /** `path.replace(/\t/g, '').trim()` */
  function CleanPath(path: string): (r: string)
    ensures '\t' !in r
    ensures r != [] ==> !IsSpace(r[0]) && !IsSpace(Last(r))
  {
    var noTabs := ReplaceChar(path, '\t', "");
    ReplaceCharAbsent(path, '\t', "", '\t');
    TrimKeepsFree(noTabs, {'\t'});
    TrimEnds(noTabs);
    Trim(noTabs)
  }

  /** `confirmDelete` cleans again what `deleteFile` already cleaned; the second pass changes nothing. */
  lemma CleanPathIdempotent(path: string)
    ensures CleanPath(CleanPath(path)) == CleanPath(path)
  {
    var once := CleanPath(path);
    assert ReplaceChar(once, '\t', "") == once;
    TrimTrimmed(once);
  }

  /**
   * The literal body as the source writes it: every `'` preceded by a
   * backslash, and nothing else escaped.
   */
  function EscapeQuotes(path: string): string {
    ReplaceChar(path, '\'', "\\'")
  }

  /**
   * The literal body the button needs: backslashes doubled first, then
   * quotes escaped, so that every character of the path survives parsing.
   */
  function EscapeLiteral(path: string): string {
    ReplaceChar(ReplaceChar(path, '\\', "\\\\"), '\'', "\\'")
  }

  /**
   * What `\c` denotes inside a JavaScript string literal (section 12.9.4 of
   * ECMA-262): the control escapes `\n \t \r \b \f \v`, and otherwise the
   * character itself (this covers `\\`, `\'` and `\"`). None for the escapes
   * this model does not decode: `\0`-`\9`, `\x`, `\u` and line continuations.
   */
  function SingleEscape(c: char): Option<char> {
    if c == 'n' then Some('\n')
    else if c == 't' then Some('\t')
    else if c == 'r' then Some('\r')
    else if c == 'b' then Some(8 as char)
    else if c == 'f' then Some(12 as char)
    else if c == 'v' then Some(11 as char)
    else if '0' <= c <= '9' || c == 'x' || c == 'u' then None
    else if c == '\n' || c == '\r' || c == 0x2028 as char || c == 0x2029 as char then None
    else Some(c)
  }

  /**
   * The string value of a single-quoted literal with the given body. None
   * when the body is not a complete literal (an unescaped `'` ends it early,
   * a raw line break or a lone trailing backslash is a syntax error) or uses
   * an escape that SingleEscape does not decode.
   */
  function DecodeLiteral(body: string): Option<string>
    decreases |body|
  {
    if body == [] then Some([])
    else if body[0] == '\\' then
      if |body| < 2 then None
      else match SingleEscape(body[1])
        case None => None
        case Some(ch) =>
          match DecodeLiteral(body[2..])
          case None => None
          case Some(rest) => Some([ch] + rest)
    else if body[0] == '\'' || body[0] == '\n' || body[0] == '\r' then None
    else
      match DecodeLiteral(body[1..])
      case None => None
      case Some(rest) => Some([body[0]] + rest)
  }

  /** Text that needs no escaping decodes to itself, whatever follows it. */
  lemma {:induction false} DecodePlainPrefix(plain: string, rest: string)
    requires Free(plain, {'\\', '\'', '\n', '\r'})
    ensures DecodeLiteral(plain + rest) ==
      match DecodeLiteral(rest) case None => None case Some(r) => Some(plain + r)
    decreases |plain|
  {
    if plain == [] {
      assert plain + rest == rest;
      match DecodeLiteral(rest)
      case None =>
      case Some(r) => assert plain + r == r;
    } else {
      var body := plain + rest;
      assert body[0] == plain[0] && body[1..] == plain[1..] + rest;
      DecodePlainPrefix(plain[1..], rest);
      match DecodeLiteral(rest)
      case None =>
      case Some(r) =>
        assert [plain[0]] + (plain[1..] + r) == plain + r;
    }
  }

  /** An escape `\x` that denotes `x` itself decodes to `x`, whatever follows it. */
  lemma DecodeIdentityEscape(x: char, rest: string)
    requires SingleEscape(x) == Some(x)
    ensures DecodeLiteral(['\\', x] + rest) ==
      match DecodeLiteral(rest) case None => None case Some(r) => Some([x] + r)
  {
    var body := ['\\', x] + rest;
    assert body[0] == '\\' && body[1] == x && body[2..] == rest;
  }

  /** The source's escaping is enough as long as the path holds no backslash. */
  lemma EscapeQuotesWithoutBackslash(path: string)
    requires Free(path, {'\\', '\n', '\r'})
    ensures DecodeLiteral(EscapeQuotes(path)) == Some(path)
  {
    assert Free(path, {'\n', '\r'});
    EscapeRoundTrip(path);
    assert ReplaceChar(path, '\\', "\\\\") == path;
  }

  /**
   * A Windows path loses its backslash on the way through the source's
   * escaping: before a letter such as `U`, `\U` is an identity escape, so the
   * button asks to delete `a + x + b` instead of `a + \ + x + b`.
   */
  lemma EscapeQuotesDropsBackslash(a: string, x: char, b: string)
    requires Free(a, {'\\', '\'', '\n', '\r'}) && Free(b, {'\\', '\'', '\n', '\r'})
    requires SingleEscape(x) == Some(x) && x != '\''
    ensures DecodeLiteral(EscapeQuotes(a + ['\\', x] + b)) == Some(a + [x] + b)
    ensures a + [x] + b != a + ['\\', x] + b
  {
    var tail := ['\\', x] + b;
    var path := a + tail;
    assert path == a + ['\\', x] + b;
    assert EscapeQuotes(path) == path by {
      assert '\'' !in tail;
    }
    assert DecodeLiteral(b) == Some(b) by {
      DecodePlainPrefix(b, []);
      assert b + [] == b;
    }
    assert DecodeLiteral(tail) == Some([x] + b) by {
      DecodeIdentityEscape(x, b);
    }
    assert DecodeLiteral(path) == Some(a + ([x] + b)) by {
      DecodePlainPrefix(a, tail);
    }
    assert a + ([x] + b) == a + [x] + b;
    assert |a + [x] + b| != |path|;
  }

  /** The drive-letter path `C:\Users` reaches `confirmDelete` as `C:Users`. */
  lemma EscapeQuotesDropsDriveBackslash()
    ensures DecodeLiteral(EscapeQuotes("C:\\Users")) == Some("C:Users")
  {
    EscapeQuotesDropsBackslash("C:", 'U', "sers");
    assert "C:" + ['\\', 'U'] + "sers" == "C:\\Users";
    assert "C:" + ['U'] + "sers" == "C:Users";
  }

  /** The Windows folder `C:\Users` is already clean. */
  lemma CleanDriveFolder()
    ensures CleanPath("C:\\Users") == "C:\\Users"
  {
    var path := "C:\\Users";
    assert '\t' !in path;
    TrimTrimmed(path);
  }

  /** How EscapeLiteral writes one character. */
  function EscapedChar(c: char): string {
    if c == '\\' then "\\\\" else if c == '\'' then "\\'" else [c]
  }

  /** Escaping the first character and the rest separately. */
  lemma EscapeLiteralCons(c: char, t: string)
    ensures EscapeLiteral([c] + t) == EscapedChar(c) + EscapeLiteral(t)
  {
    var h1 := if c == '\\' then "\\\\" else [c];
    var r1 := ReplaceChar(t, '\\', "\\\\");
    assert ([c] + t)[1..] == t;
    assert ReplaceChar([c] + t, '\\', "\\\\") == h1 + r1;
    ReplaceCharConcat(h1, r1, '\'', "\\'");
    if c == '\'' {
      ReplaceCharLeading('\'', [], "\\'");
      assert [c] + [] == [c];
    }
  }

  /** One escaped character in front of a literal body decodes to that character in front of its value. */
  lemma DecodeEscapedChar(c: char, rest: string)
    requires c != '\n' && c != '\r'
    ensures DecodeLiteral(EscapedChar(c) + rest) ==
      match DecodeLiteral(rest) case None => None case Some(r) => Some([c] + r)
  {
    if c == '\\' || c == '\'' {
      DecodeIdentityEscape(c, rest);
    } else {
      var body := [c] + rest;
      assert body[0] == c && body[1..] == rest;
    }
  }

  /** With the corrected escaping, parsing the literal gives back the path exactly. */
  lemma {:induction false} EscapeRoundTrip(path: string)
    requires Free(path, {'\n', '\r'})
    ensures DecodeLiteral(EscapeLiteral(path)) == Some(path)
    decreases |path|
  {
    if path != [] {
      var c, t := path[0], path[1..];
      assert Free(t, {'\n', '\r'});
      EscapeRoundTrip(t);
      assert path == [c] + t;
      EscapeLiteralCons(c, t);
      DecodeEscapedChar(c, EscapeLiteral(t));
    }
  }
}
