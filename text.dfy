/**
 * The JavaScript string operations the file explorer relies on:
 * `split` on a character class, `join`, `pop`, `toLowerCase`, `trim`
 * and the global `replace` with a literal pattern.
 */
module Text {

  /** No character of `s` is in `cs`. */
  predicate Free(s: string, cs: set<char>) {
    forall i :: 0 <= i < |s| ==> s[i] !in cs
  }

  function Last<T>(s: seq<T>): T
    requires |s| > 0
  {
    s[|s| - 1]
  }

  // ---------------------------------------------------------------- split / join

  /**
   * `s.split(re)` where `re` matches exactly one character of `seps`:
   * the maximal separator-free pieces, including empty ones at the ends and
   * between adjacent separators, so that `"".split("/")` is `[""]` and
   * `"/".split("/")` is `["", ""]`.
   */
  function Split(s: string, seps: set<char>): (parts: seq<string>)
    ensures |parts| >= 1
    decreases |s|
  {
    if s == [] then [""]
    else
      var rest := Split(s[1..], seps);
      if s[0] in seps then [""] + rest
      else [[s[0]] + rest[0]] + rest[1..]
  }

  /** `parts.join(sep)`; the empty array joins to the empty string. */
  function Join(parts: seq<string>, sep: char): string {
    if parts == [] then ""
    else if |parts| == 1 then parts[0]
    else parts[0] + [sep] + Join(parts[1..], sep)
  }

  /** A string without separators splits into itself. */
  lemma {:induction false} SplitFree(s: string, seps: set<char>)
    requires Free(s, seps)
    ensures Split(s, seps) == [s]
    decreases |s|
  {
    if s != [] {
      SplitFree(s[1..], seps);
      assert [s[0]] + s[1..] == s;
    }
  }

  /** Split on a string with a known first character. */
  lemma SplitCons(x: char, t: string, seps: set<char>)
    ensures Split([x] + t, seps) ==
      if x in seps then [""] + Split(t, seps) else [[x] + Split(t, seps)[0]] + Split(t, seps)[1..]
  {
    assert ([x] + t)[0] == x && ([x] + t)[1..] == t;
  }

  /** A character put in front of two strings whose splits share a tail keeps them sharing it. */
  lemma SplitConsShared(x: char, r: string, t: string, q: seq<string>, seps: set<char>)
    requires Split(r, seps) == Split(t, seps) + q
    ensures Split([x] + r, seps) == Split([x] + t, seps) + q
  {
    SplitCons(x, r, seps);
    SplitCons(x, t, seps);
    var p := Split(t, seps);
    if x !in seps {
      assert (p + q)[0] == p[0] && (p + q)[1..] == p[1..] + q;
    }
  }

  /** Splitting at a separator splits the two sides independently. */
  lemma {:induction false} SplitAround(a: string, c: char, b: string, seps: set<char>)
    requires c in seps
    ensures Split(a + [c] + b, seps) == Split(a, seps) + Split(b, seps)
    decreases |a|
  {
    if a == [] {
      assert a + [c] + b == [c] + b;
      SplitCons(c, b, seps);
    } else {
      var x, t := a[0], a[1..];
      SplitAround(t, c, b, seps);
      assert a + [c] + b == [x] + (t + [c] + b) && a == [x] + t;
      SplitConsShared(x, t + [c] + b, t, Split(b, seps), seps);
    }
  }

  /** Joining with a separator restores a string split on that one separator. */
  lemma {:induction false} JoinSplit(s: string, c: char)
    ensures Join(Split(s, {c}), c) == s
    decreases |s|
  {
    if s != [] {
      JoinSplit(s[1..], c);
      var rest := Split(s[1..], {c});
      if s[0] == c {
        assert Split(s, {c}) == [""] + rest;
        assert ([""] + rest)[1..] == rest;
      } else {
        var parts := Split(s, {c});
        assert parts == [[s[0]] + rest[0]] + rest[1..];
        if |rest| > 1 {
          assert parts[1..] == rest[1..];
        }
        assert [s[0]] + s[1..] == s;
      }
    }
  }

  /** Joining one more piece appends the separator and that piece. */
  lemma {:induction false} JoinSnoc(parts: seq<string>, p: string, sep: char)
    requires parts != []
    ensures Join(parts + [p], sep) == Join(parts, sep) + [sep] + p
    decreases |parts|
  {
    if |parts| > 1 {
      JoinSnoc(parts[1..], p, sep);
      assert (parts + [p])[1..] == parts[1..] + [p];
    }
  }

  /** A string splits into a single piece only when that piece is the whole string. */
  lemma {:induction false} SplitSingle(s: string, seps: set<char>)
    requires |Split(s, seps)| == 1
    ensures Split(s, seps)[0] == s && Free(s, seps)
    decreases |s|
  {
    if s != [] {
      var rest := Split(s[1..], seps);
      assert s[0] !in seps && |rest| == 1;
      SplitSingle(s[1..], seps);
      assert [s[0]] + s[1..] == s;
    }
  }

  /** What follows the last separator in `s` (all of `s` when it has none). */
  function AfterLast(s: string, seps: set<char>): string
    decreases |s|
  {
    if s == [] then []
    else if Last(s) in seps then []
    else AfterLast(s[..|s| - 1], seps) + [Last(s)]
  }

  /**
   * One more character at the end: a separator starts a new, empty last
   * piece; any other character extends the last piece.
   */
  lemma {:induction false} SplitSnocLast(a: string, c: char, seps: set<char>)
    ensures c in seps ==> Last(Split(a + [c], seps)) == []
    ensures c !in seps ==> |Split(a + [c], seps)| == |Split(a, seps)|
    ensures c !in seps ==> Last(Split(a + [c], seps)) == Last(Split(a, seps)) + [c]
    decreases |a|
  {
    var s := a + [c];
    if c in seps {
      SplitAround(a, c, [], seps);
      assert a + [c] + [] == s;
    } else if a == [] {
      assert s == [c] && s[1..] == [];
    } else {
      assert s[0] == a[0] && s[1..] == a[1..] + [c];
      SplitSnocLast(a[1..], c, seps);
      var q := Split(s[1..], seps);
      var p := Split(a[1..], seps);
      if a[0] in seps {
        assert Split(s, seps) == [""] + q;
        assert Split(a, seps) == [""] + p;
      } else {
        assert Split(s, seps) == [[a[0]] + q[0]] + q[1..];
        assert Split(a, seps) == [[a[0]] + p[0]] + p[1..];
      }
    }
  }

  /** AfterLast is `s.split(re).pop()`: the last piece of the split. */
  lemma {:induction false} AfterLastIsLastPiece(s: string, seps: set<char>)
    ensures AfterLast(s, seps) == Last(Split(s, seps))
    decreases |s|
  {
    if s != [] {
      var a := s[..|s| - 1];
      assert s == a + [Last(s)];
      AfterLastIsLastPiece(a, seps);
      SplitSnocLast(a, Last(s), seps);
    }
  }

  /** What follows the last separator holds no separator and ends the string. */
  lemma {:induction false} AfterLastShape(s: string, seps: set<char>)
    ensures var r := AfterLast(s, seps);
      Free(r, seps) && |r| <= |s| && s[|s| - |r|..] == r
    decreases |s|
  {
    if s != [] && Last(s) !in seps {
      var a := s[..|s| - 1];
      AfterLastShape(a, seps);
      var r := AfterLast(a, seps);
      assert s[|s| - |r| - 1..] == a[|a| - |r|..] + [Last(s)];
    }
  }

  /** A string without separators is all after the last one. */
  lemma {:induction false} AfterLastFree(s: string, seps: set<char>)
    requires Free(s, seps)
    ensures AfterLast(s, seps) == s
    decreases |s|
  {
    if s != [] {
      AfterLastFree(s[..|s| - 1], seps);
      assert s[..|s| - 1] + [Last(s)] == s;
    }
  }

  /** After a separator and then separator-free text `b`, what follows the last separator is `b`. */
  lemma {:induction false} AfterLastAfterSeparator(a: string, c: char, b: string, seps: set<char>)
    requires c in seps && Free(b, seps)
    ensures AfterLast(a + [c] + b, seps) == b
    decreases |b|
  {
    var s := a + [c] + b;
    if b == [] {
      assert Last(s) == c;
    } else {
      var b' := b[..|b| - 1];
      assert s[..|s| - 1] == a + [c] + b' && Last(s) == Last(b);
      AfterLastAfterSeparator(a, c, b', seps);
      assert b' + [Last(b)] == b;
    }
  }

  // ---------------------------------------------------------------- case

  /**
   * `toLowerCase` restricted to ASCII letters. JavaScript also maps letters
   * outside ASCII, a few of them onto ASCII (KELVIN SIGN U+212A becomes `k`).
   */
  function LowerChar(c: char): (d: char)
    ensures !('A' <= d <= 'Z')
    ensures 'a' <= c <= 'z' ==> d == c
  {
    if 'A' <= c <= 'Z' then (c as int - 'A' as int + 'a' as int) as char else c
  }

  function ToLower(s: string): (r: string)
    ensures |r| == |s|
    ensures forall i :: 0 <= i < |s| ==> r[i] == LowerChar(s[i])
  {
    if s == [] then [] else [LowerChar(s[0])] + ToLower(s[1..])
  }

  lemma ToLowerIdempotent(s: string)
    ensures ToLower(ToLower(s)) == ToLower(s)
  {
  }

  // ---------------------------------------------------------------- replace

  /** `s.replace(/c/g, rep)`: every occurrence of the character `c` becomes `rep`. */
  function ReplaceChar(s: string, c: char, rep: string): (r: string)
    ensures c !in s ==> r == s
  {
    if s == [] then []
    else (if s[0] == c then rep else [s[0]]) + ReplaceChar(s[1..], c, rep)
  }

  lemma {:induction false} ReplaceCharConcat(x: string, y: string, c: char, rep: string)
    ensures ReplaceChar(x + y, c, rep) == ReplaceChar(x, c, rep) + ReplaceChar(y, c, rep)
    decreases |x|
  {
    if x == [] {
      assert x + y == y;
    } else {
      var head := if x[0] == c then rep else [x[0]];
      var p, q := ReplaceChar(x[1..], c, rep), ReplaceChar(y, c, rep);
      assert ReplaceChar(x[1..] + y, c, rep) == p + q by {
        ReplaceCharConcat(x[1..], y, c, rep);
      }
      assert (x + y)[0] == x[0] && (x + y)[1..] == x[1..] + y;
      assert ReplaceChar(x + y, c, rep) == head + (p + q);
      assert ReplaceChar(x, c, rep) == head + p;
      assert head + (p + q) == (head + p) + q;
    }
  }

  /** A character that is in neither the replacement nor (apart from `c` itself) the input is not in the output. */
  lemma {:induction false} ReplaceCharAbsent(s: string, c: char, rep: string, d: char)
    requires d !in rep && (d == c || d !in s)
    ensures d !in ReplaceChar(s, c, rep)
    decreases |s|
  {
    if s != [] {
      ReplaceCharAbsent(s[1..], c, rep, d);
    }
  }

  /** A single leading occurrence is the only one replaced. */
  lemma ReplaceCharLeading(c: char, t: string, rep: string)
    requires c !in t
    ensures ReplaceChar([c] + t, c, rep) == rep + t
  {
    assert ([c] + t)[1..] == t;
  }

  /**
   * `s.replace(/pat/g, rep)` for a literal pattern: a left-to-right scan that
   * replaces non-overlapping occurrences.
   */
  function ReplaceAll(s: string, pat: string, rep: string): string
    requires pat != []
    decreases |s|
  {
    if |s| < |pat| then s
    else if s[..|pat|] == pat then rep + ReplaceAll(s[|pat|..], pat, rep)
    else [s[0]] + ReplaceAll(s[1..], pat, rep)
  }

  /** Text that cannot begin an occurrence passes through a replacement unchanged. */
  lemma {:induction false} ReplaceAllSkip(x: string, rest: string, pat: string, rep: string)
    requires pat != [] && pat[0] !in x
    ensures ReplaceAll(x + rest, pat, rep) == x + ReplaceAll(rest, pat, rep)
    decreases |x|
  {
    var s := x + rest;
    if x == [] {
      assert s == rest;
    } else if |s| < |pat| {
      assert ReplaceAll(s, pat, rep) == s;
      assert ReplaceAll(rest, pat, rep) == rest;
    } else {
      assert s[0] == x[0];
      assert s[..|pat|][0] == x[0];
      assert s[..|pat|] != pat;
      assert s[1..] == x[1..] + rest;
      ReplaceAllSkip(x[1..], rest, pat, rep);
      calc {
        ReplaceAll(s, pat, rep);
        [x[0]] + ReplaceAll(x[1..] + rest, pat, rep);
        [x[0]] + (x[1..] + ReplaceAll(rest, pat, rep));
        ([x[0]] + x[1..]) + ReplaceAll(rest, pat, rep);
        { assert [x[0]] + x[1..] == x; }
        x + ReplaceAll(rest, pat, rep);
      }
    }
  }

  /** An occurrence at the front is replaced. */
  lemma ReplaceAllHit(pat: string, rest: string, rep: string)
    requires pat != []
    ensures ReplaceAll(pat + rest, pat, rep) == rep + ReplaceAll(rest, pat, rep)
  {
    assert (pat + rest)[..|pat|] == pat;
    assert (pat + rest)[|pat|..] == rest;
  }

  /**
   * A token that starts like the pattern but disagrees with it at `k` is
   * copied through, provided no further occurrence starts inside it.
   */
  lemma {:induction false} ReplaceAllMiss(t: string, rest: string, pat: string, rep: string, k: nat)
    requires pat != [] && t != [] && k < |t| && k < |pat| && t[k] != pat[k]
    requires pat[0] !in t[1..]
    ensures ReplaceAll(t + rest, pat, rep) == t + ReplaceAll(rest, pat, rep)
  {
    var s := t + rest;
    if |s| < |pat| {
      assert ReplaceAll(s, pat, rep) == s;
      assert ReplaceAll(rest, pat, rep) == rest;
    } else {
      assert s[..|pat|][k] == t[k];
      assert s[..|pat|] != pat;
      assert s[0] == t[0];
      assert s[1..] == t[1..] + rest;
      ReplaceAllSkip(t[1..], rest, pat, rep);
      calc {
        ReplaceAll(s, pat, rep);
        [t[0]] + ReplaceAll(t[1..] + rest, pat, rep);
        [t[0]] + (t[1..] + ReplaceAll(rest, pat, rep));
        ([t[0]] + t[1..]) + ReplaceAll(rest, pat, rep);
        { assert [t[0]] + t[1..] == t; }
        t + ReplaceAll(rest, pat, rep);
      }
    }
  }

  // ---------------------------------------------------------------- trim

  /**
   * The characters `String.prototype.trim` strips: the WhiteSpace and
   * LineTerminator productions of ECMAScript (section 12.2 and 12.3 of
   * ECMA-262), i.e. TAB, VT, FF, SP, NBSP, ZWNBSP, the Zs category, LF, CR,
   * LS and PS.
   */
  predicate IsSpace(c: char) {
    c == '\t' || c == '\n' || c == 11 as char || c == 12 as char || c == '\r' || c == ' '
    || c == 0xA0 as char || c == 0x1680 as char || (0x2000 as char <= c <= 0x200A as char)
    || c == 0x2028 as char || c == 0x2029 as char || c == 0x202F as char
    || c == 0x205F as char || c == 0x3000 as char || c == 0xFEFF as char
  }

  /** Drop leading white space. */
  function TrimStart(s: string): string {
    if s != [] && IsSpace(s[0]) then TrimStart(s[1..]) else s
  }

  /** What `TrimStart` drops is white space, and it stops at the first other character. */
  lemma {:induction false} TrimStartShape(s: string)
    ensures var r := TrimStart(s);
      && |r| <= |s| && r == s[|s| - |r|..]
      && (forall i :: 0 <= i < |s| - |r| ==> IsSpace(s[i]))
      && (r != [] ==> !IsSpace(r[0]))
  {
    if s != [] && IsSpace(s[0]) {
      var t := s[1..];
      TrimStartShape(t);
      var r := TrimStart(t);
      assert s[|s| - |r|..] == t[|t| - |r|..];
      forall i | 0 <= i < |s| - |r|
        ensures IsSpace(s[i])
      {
        if i > 0 {
          assert s[i] == t[i - 1];
        }
      }
    }
  }

  /** Drop trailing white space. */
  function TrimEnd(s: string): string {
    if s != [] && IsSpace(Last(s)) then TrimEnd(s[..|s| - 1]) else s
  }

  /** What `TrimEnd` drops is white space, and it stops at the last other character. */
  lemma {:induction false} TrimEndShape(s: string)
    ensures var r := TrimEnd(s);
      && |r| <= |s| && r == s[..|r|]
      && (forall i :: |r| <= i < |s| ==> IsSpace(s[i]))
      && (r != [] ==> !IsSpace(Last(r)))
  {
    if s != [] && IsSpace(Last(s)) {
      var t := s[..|s| - 1];
      TrimEndShape(t);
      var r := TrimEnd(t);
      assert s[..|r|] == t[..|r|];
      forall i | |r| <= i < |s|
        ensures IsSpace(s[i])
      {
        if i < |t| {
          assert s[i] == t[i];
        }
      }
    }
  }

  /** `s.trim()` */
  function Trim(s: string): string {
    TrimEnd(TrimStart(s))
  }

  /** Trimming keeps only characters of the input, so it keeps text free of any characters it was free of. */
  lemma TrimKeepsFree(s: string, cs: set<char>)
    requires Free(s, cs)
    ensures Free(Trim(s), cs)
  {
    var t := TrimStart(s);
    TrimStartShape(s);
    TrimEndShape(t);
    assert t == s[|s| - |t|..];
    assert Free(t, cs);
  }

  /** Trimmed text has no white space at either end. */
  lemma TrimEnds(s: string)
    ensures Trim(s) != [] ==> !IsSpace(Trim(s)[0]) && !IsSpace(Last(Trim(s)))
  {
    var t := TrimStart(s);
    var r := TrimEnd(t);
    TrimStartShape(s);
    TrimEndShape(t);
    if r != [] {
      assert r[0] == t[0];
    }
  }

  /** Trimming text that has no white space at either end changes nothing. */
  lemma TrimTrimmed(s: string)
    requires s != [] ==> !IsSpace(s[0]) && !IsSpace(Last(s))
    ensures Trim(s) == s
  {
    TrimStartShape(s);
    TrimEndShape(s);
  }
}
