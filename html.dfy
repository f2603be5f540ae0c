/**
 * The escaping `previewFile` applies to a text file before showing it inside
 * `<pre><code>`: three global replacements, `&` first, then `<`, then `>`.
 */
module Html {
  import opened Text

  /** The source's escape chain. */
  function Escape(s: string): string {
    ReplaceChar(ReplaceChar(ReplaceChar(s, '&', "&amp;"), '<', "&lt;"), '>', "&gt;")
  }

  /** The reverse chain: `&lt;` and `&gt;` first, `&amp;` last. */
  function Unescape(s: string): string {
    ReplaceAll(ReplaceAll(ReplaceAll(s, "&lt;", "<"), "&gt;", ">"), "&amp;", "&")
  }

  /** `s` with each `&`, `<` and `>` replaced by the given text, all other characters kept. */
  function Expand(s: string, amp: string, lt: string, gt: string): string {
    if s == [] then []
    else
      (if s[0] == '&' then amp else if s[0] == '<' then lt else if s[0] == '>' then gt else [s[0]])
      + Expand(s[1..], amp, lt, gt)
  }

  /** The first replacement writes `&amp;` for each `&` and keeps everything else. */
  lemma {:induction false} EscapeAmp(s: string)
    ensures ReplaceChar(s, '&', "&amp;") == Expand(s, "&amp;", "<", ">")
    decreases |s|
  {
    if s != [] {
      EscapeAmp(s[1..]);
    }
  }

  /** The second replacement cannot touch the `&amp;` already written: it holds no `<`. */
  lemma {:induction false} EscapeLt(s: string)
    ensures ReplaceChar(Expand(s, "&amp;", "<", ">"), '<', "&lt;") == Expand(s, "&amp;", "&lt;", ">")
    decreases |s|
  {
    if s != [] {
      var head := if s[0] == '&' then "&amp;" else [s[0]];
      EscapeLt(s[1..]);
      ReplaceCharConcat(head, Expand(s[1..], "&amp;", "<", ">"), '<', "&lt;");
    }
  }

  /** The third replacement cannot touch `&amp;` or `&lt;`: neither holds a `>`. */
  lemma {:induction false} EscapeGt(s: string)
    ensures ReplaceChar(Expand(s, "&amp;", "&lt;", ">"), '>', "&gt;") == Expand(s, "&amp;", "&lt;", "&gt;")
    decreases |s|
  {
    if s != [] {
      var head := if s[0] == '&' then "&amp;" else if s[0] == '<' then "&lt;" else [s[0]];
      EscapeGt(s[1..]);
      ReplaceCharConcat(head, Expand(s[1..], "&amp;", "&lt;", ">"), '>', "&gt;");
    }
  }

  /** Because `&` is replaced first, the chain escapes every character exactly once. */
  lemma EscapeIsExpand(s: string)
    ensures Escape(s) == Expand(s, "&amp;", "&lt;", "&gt;")
  {
    EscapeAmp(s);
    EscapeLt(s);
    EscapeGt(s);
  }

  /** The escaped text contains no raw angle bracket, so it cannot open or close a tag. */
  lemma EscapeHasNoAngles(s: string)
    ensures '<' !in Escape(s) && '>' !in Escape(s)
  {
    var r1 := ReplaceChar(s, '&', "&amp;");
    ReplaceCharAbsent(r1, '<', "&lt;", '<');
    var r2 := ReplaceChar(r1, '<', "&lt;");
    ReplaceCharAbsent(r2, '>', "&gt;", '<');
    ReplaceCharAbsent(r2, '>', "&gt;", '>');
  }

  lemma {:induction false} UnescapeLt(s: string)
    ensures ReplaceAll(Expand(s, "&amp;", "&lt;", "&gt;"), "&lt;", "<") == Expand(s, "&amp;", "<", "&gt;")
    decreases |s|
  {
    if s != [] {
      UnescapeLt(s[1..]);
      var rest := Expand(s[1..], "&amp;", "&lt;", "&gt;");
      if s[0] == '&' {
        ReplaceAllMiss("&amp;", rest, "&lt;", "<", 1);
      } else if s[0] == '<' {
        ReplaceAllHit("&lt;", rest, "<");
      } else if s[0] == '>' {
        ReplaceAllMiss("&gt;", rest, "&lt;", "<", 1);
      } else {
        ReplaceAllSkip([s[0]], rest, "&lt;", "<");
      }
    }
  }

  lemma {:induction false} UnescapeGt(s: string)
    ensures ReplaceAll(Expand(s, "&amp;", "<", "&gt;"), "&gt;", ">") == Expand(s, "&amp;", "<", ">")
    decreases |s|
  {
    if s != [] {
      UnescapeGt(s[1..]);
      var rest := Expand(s[1..], "&amp;", "<", "&gt;");
      if s[0] == '&' {
        ReplaceAllMiss("&amp;", rest, "&gt;", ">", 1);
      } else if s[0] == '>' {
        ReplaceAllHit("&gt;", rest, ">");
      } else {
        ReplaceAllSkip([s[0]], rest, "&gt;", ">");
      }
    }
  }

  lemma {:induction false} UnescapeAmp(s: string)
    ensures ReplaceAll(Expand(s, "&amp;", "<", ">"), "&amp;", "&") == s
    decreases |s|
  {
    if s != [] {
      UnescapeAmp(s[1..]);
      var rest := Expand(s[1..], "&amp;", "<", ">");
      if s[0] == '&' {
        ReplaceAllHit("&amp;", rest, "&");
      } else {
        ReplaceAllSkip([s[0]], rest, "&amp;", "&");
      }
      assert [s[0]] + s[1..] == s;
    }
  }

  /** Undoing `&lt;` and `&gt;` and then `&amp;` gives back the original content. */
  lemma UnescapeEscape(s: string)
    ensures Unescape(Escape(s)) == s
  {
    EscapeIsExpand(s);
    UnescapeLt(s);
    UnescapeGt(s);
    UnescapeAmp(s);
  }
}
