/**
 * The small string operations of the pipeline: trimming as Go's `strings`
 * package does it, stripping a Markdown code fence off a model reply,
 * cleaning the dog's reply, and escaping text for ffmpeg's drawtext filter.
 */
module TextOps {

  /** Go's unicode.IsSpace. */
  predicate IsSpace(c: char) {
    || c == ' '
    || ('\t' <= c <= '\r')
    || c == '\U{85}' || c == '\U{A0}' || c == '\U{1680}'
    || ('\U{2000}' <= c <= '\U{200A}')
    || c == '\U{2028}' || c == '\U{2029}' || c == '\U{202F}' || c == '\U{205F}' || c == '\U{3000}'
  }

  /** The cut set of the dog reply: the two CJK corner brackets and the ASCII double quote. */
  predicate IsDogQuote(c: char) {
    c == '「' || c == '」' || c == '"'
  }

  /** How many leading characters satisfy `drop`. */
  function DropPrefixLen(s: string, drop: char -> bool): (n: nat)
    ensures n <= |s|
    ensures forall k :: 0 <= k < n ==> drop(s[k])
    ensures n == |s| || !drop(s[n])
  {
    if |s| == 0 || !drop(s[0]) then 0 else 1 + DropPrefixLen(s[1..], drop)
  }

  /** How many trailing characters satisfy `drop`. */
  function DropSuffixLen(s: string, drop: char -> bool): (n: nat)
    ensures n <= |s|
    ensures forall k :: |s| - n <= k < |s| ==> drop(s[k])
    ensures n == |s| || !drop(s[|s| - n - 1])
  {
    if |s| == 0 || !drop(s[|s| - 1]) then 0 else 1 + DropSuffixLen(s[..|s| - 1], drop)
  }

  /**
   * Removes every leading and trailing character satisfying `drop`
   * (Go's strings.TrimFunc): the result never starts or ends with such a
   * character, and it is empty when every character is dropped.
   */
  function Trim(s: string, drop: char -> bool): (r: string)
    ensures |r| <= |s|
    ensures |r| > 0 ==> !drop(r[0]) && !drop(r[|r| - 1])
    ensures (forall k :: 0 <= k < |s| ==> drop(s[k])) ==> r == []
  {
    var i := DropPrefixLen(s, drop);
    if i == |s| then []
    else
      var j := |s| - DropSuffixLen(s, drop);
      assert i < j by {
        assert !drop(s[i]);
      }
      s[i..j]
  }

  function TrimSpace(s: string): string {
    Trim(s, IsSpace)
  }

  predicate StartsWith(s: string, p: string) {
    |p| <= |s| && s[..|p|] == p
  }

  predicate EndsWith(s: string, p: string) {
    |p| <= |s| && s[|s| - |p|..] == p
  }

  /** Go's strings.TrimPrefix: drops `p` once if `s` starts with it. */
  function TrimPrefix(s: string, p: string): (r: string)
    ensures StartsWith(s, p) ==> s == p + r
    ensures !StartsWith(s, p) ==> r == s
  {
    if StartsWith(s, p) then s[|p|..] else s
  }

  /** Go's strings.TrimSuffix: drops `p` once if `s` ends with it. */
  function TrimSuffix(s: string, p: string): (r: string)
    ensures EndsWith(s, p) ==> s == r + p
    ensures !EndsWith(s, p) ==> r == s
  {
    if EndsWith(s, p) then s[..|s| - |p|] else s
  }

  const Fence: string := "```"
  const JsonFence: string := "```json"

  /** The clean-up applied to a model reply before it is parsed as JSON. */
  function StripFence(reply: string): (r: string)
    ensures |r| > 0 ==> !IsSpace(r[0]) && !IsSpace(r[|r| - 1])
    ensures |r| <= |reply|
  {
    TrimSpace(TrimSuffix(TrimPrefix(TrimPrefix(reply, JsonFence), Fence), Fence))
  }

  predicate AllSpace(s: string) {
    forall k :: 0 <= k < |s| ==> IsSpace(s[k])
  }

  /** A string with no whitespace at either end, as the trimmer leaves it. */
  predicate Trimmed(s: string) {
    |s| == 0 || (!IsSpace(s[0]) && !IsSpace(s[|s| - 1]))
  }

  lemma {:induction false} PrefixLenSkips(pre: string, rest: string, drop: char -> bool)
    requires forall k :: 0 <= k < |pre| ==> drop(pre[k])
    requires |rest| > 0 && !drop(rest[0])
    ensures DropPrefixLen(pre + rest, drop) == |pre|
  {
    if |pre| > 0 {
      assert (pre + rest)[1..] == pre[1..] + rest;
      PrefixLenSkips(pre[1..], rest, drop);
    } else {
      assert pre + rest == rest;
    }
  }

  lemma {:induction false} SuffixLenSkips(rest: string, post: string, drop: char -> bool)
    requires forall k :: 0 <= k < |post| ==> drop(post[k])
    requires |rest| > 0 && !drop(rest[|rest| - 1])
    ensures DropSuffixLen(rest + post, drop) == |post|
  {
    if |post| > 0 {
      var post' := post[..|post| - 1];
      assert (rest + post)[..|rest + post| - 1] == rest + post';
      SuffixLenSkips(rest, post', drop);
    } else {
      assert rest + post == rest;
    }
  }

  /** Trimming removes exactly the droppable margins around a body that has none of its own. */
  lemma TrimSurrounded(pre: string, body: string, post: string, drop: char -> bool)
    requires forall k :: 0 <= k < |pre| ==> drop(pre[k])
    requires forall k :: 0 <= k < |post| ==> drop(post[k])
    requires |body| == 0 || (!drop(body[0]) && !drop(body[|body| - 1]))
    ensures Trim(pre + body + post, drop) == body
  {
    var s := pre + body + post;
    if |body| == 0 {
      assert forall k :: 0 <= k < |s| ==> drop(s[k]) by {
        assert s == pre + post;
      }
    } else {
      assert s == pre + (body + post);
      PrefixLenSkips(pre, body + post, drop);
      assert s == (pre + body) + post;
      SuffixLenSkips(pre + body, post, drop);
      assert s[|pre|..|s| - |post|] == body;
    }
  }

  /**
   * The two prefix trims remove an opening fence, plain or tagged json, and
   * nothing else: the text after it does not start with another backtick,
   * and after a plain fence it does not start with "json".
   */
  lemma FencePrefixStripped(open: string, rest: string)
    requires open == JsonFence || open == Fence || open == ""
    requires |rest| > 0 && rest[0] != '`'
    requires open == Fence ==> !StartsWith(rest, "json")
    ensures TrimPrefix(TrimPrefix(open + rest, JsonFence), Fence) == rest
  {
    var s := open + rest;
    if open == JsonFence {
      assert s[..|JsonFence|] == JsonFence;
      assert TrimPrefix(s, JsonFence) == rest;
      assert rest[0] != Fence[0];
    } else if open == Fence {
      assert s[..|Fence|] == Fence;
    } else {
      assert s == rest;
      assert s[0] != JsonFence[0];
    }
  }

  /** The suffix trim removes a closing fence, and leaves a text that does not end in a backtick alone. */
  lemma FenceSuffixStripped(mid: string, close: string)
    requires close == Fence || close == ""
    requires |mid| > 0 && (close == "" ==> mid[|mid| - 1] != '`')
    ensures TrimSuffix(mid + close, Fence) == mid
  {
    var s := mid + close;
    if close == Fence {
      assert s[|s| - 3..] == Fence;
    } else {
      assert s == mid;
      assert !EndsWith(s, Fence) by {
        assert Fence[2] == '`';
      }
    }
  }

  /**
   * A JSON body in a fenced or bare reply comes back unchanged: the opening
   * fence may be ```json, ``` or absent, the closing ``` may be absent, and
   * any whitespace around the body goes. A bare reply must not itself end in
   * a backtick, and after a plain fence the text must not start with "json",
   * since the source would strip those as fences.
   */
  lemma StripFenceRoundTrip(open: string, ws1: string, body: string, ws2: string, close: string)
    requires open == JsonFence || open == Fence || open == ""
    requires close == Fence || close == ""
    requires Trimmed(body) && AllSpace(ws1) && AllSpace(ws2)
    requires |body| > 0 && body[0] != '`'
    requires open == Fence ==> !StartsWith(ws1 + body + ws2 + close, "json")
    requires close == "" ==> |ws2| > 0 || body[|body| - 1] != '`'
    ensures StripFence(open + ws1 + body + ws2 + close) == body
  {
    var mid := ws1 + body + ws2;
    var rest := mid + close;
    assert open + ws1 + body + ws2 + close == open + rest;
    assert rest[0] != '`' by {
      if |ws1| > 0 {
        assert rest[0] == ws1[0] && IsSpace(ws1[0]);
      } else {
        assert rest[0] == body[0];
      }
    }
    assert open == Fence ==> !StartsWith(rest, "json") by {
      assert rest == ws1 + body + ws2 + close;
    }
    FencePrefixStripped(open, rest);
    assert close == "" ==> mid[|mid| - 1] != '`' by {
      if |ws2| > 0 {
        assert mid[|mid| - 1] == ws2[|ws2| - 1] && IsSpace(ws2[|ws2| - 1]);
      } else {
        assert mid[|mid| - 1] == body[|body| - 1];
      }
    }
    FenceSuffixStripped(mid, close);
    TrimSurrounded(ws1, body, ws2, IsSpace);
  }

  /** The dog's reply after Go's TrimSpace followed by Trim with the cut set 「」". */
  function CleanDogReply(reply: string): (r: string)
    ensures |r| > 0 ==> !IsDogQuote(r[0]) && !IsDogQuote(r[|r| - 1])
    ensures |r| <= |reply|
  {
    Trim(TrimSpace(reply), IsDogQuote)
  }

  predicate AllDogQuotes(s: string) {
    forall k :: 0 <= k < |s| ==> IsDogQuote(s[k])
  }

  /**
   * The cleaned reply is exactly what lies between the outer whitespace and
   * the quote runs: any whitespace, then any run of 「」" characters, then the
   * body, then quotes and whitespace again. A body edge not shielded by a
   * quote must not be whitespace, and no body edge may be a quote.
   */
  lemma CleanDogReplyExact(ws1: string, q1: string, body: string, q2: string, ws2: string)
    requires AllSpace(ws1) && AllSpace(ws2) && AllDogQuotes(q1) && AllDogQuotes(q2)
    requires |body| > 0 ==>
      && !IsDogQuote(body[0]) && !IsDogQuote(body[|body| - 1])
      && (|q1| > 0 || !IsSpace(body[0]))
      && (|q2| > 0 || !IsSpace(body[|body| - 1]))
    ensures CleanDogReply(ws1 + q1 + body + q2 + ws2) == body
  {
    var core := q1 + body + q2;
    assert ws1 + q1 + body + q2 + ws2 == ws1 + core + ws2;
    if |core| > 0 {
      assert !IsSpace(core[0]) by {
        if |q1| > 0 {
          assert core[0] == q1[0] && IsDogQuote(q1[0]);
        } else if |body| > 0 {
          assert core[0] == body[0];
        } else {
          assert core[0] == q2[0] && IsDogQuote(q2[0]);
        }
      }
      assert !IsSpace(core[|core| - 1]) by {
        if |q2| > 0 {
          assert core[|core| - 1] == q2[|q2| - 1] && IsDogQuote(q2[|q2| - 1]);
        } else if |body| > 0 {
          assert core[|core| - 1] == body[|body| - 1];
        } else {
          assert core[|core| - 1] == q1[|q1| - 1] && IsDogQuote(q1[|q1| - 1]);
        }
      }
    }
    TrimSurrounded(ws1, core, ws2, IsSpace);
    TrimSurrounded(q1, body, q2, IsDogQuote);
  }

  /** TrimSpace removes the whitespace around a quoted reply and stops at the quotes. */
  lemma TrimSpaceKeepsQuotes(q: string, ws1: string, ws2: string)
    requires AllSpace(ws1) && AllSpace(ws2)
    requires |q| >= 2 && q[0] == '「' && q[|q| - 1] == '」'
    ensures TrimSpace(ws1 + q + ws2) == q
  {
    assert !IsSpace(q[0]) && !IsSpace(q[|q| - 1]);
    TrimSurrounded(ws1, q, ws2, IsSpace);
  }

  /** A quoted reply with whitespace around the quotes loses both. */
  lemma CleanDogReplyUnquotes(body: string, ws1: string, ws2: string)
    requires AllSpace(ws1) && AllSpace(ws2)
    requires |body| > 0 && !IsDogQuote(body[0]) && !IsDogQuote(body[|body| - 1])
    ensures CleanDogReply(ws1 + "「" + body + "」" + ws2) == body
  {
    var open, close := "「", "」";
    var q := open + body + close;
    assert ws1 + open + body + close + ws2 == ws1 + q + ws2;
    TrimSpaceKeepsQuotes(q, ws1, ws2);
    TrimSurrounded(open, body, close, IsDogQuote);
  }

  // ---------------------------------------------------------------------
  // drawtext escaping
  // ---------------------------------------------------------------------

  /** Go's strings.ReplaceAll for a one-character pattern: one left-to-right pass. */
  function ReplaceAll(s: string, c: char, rep: string): (r: string)
    ensures c !in s ==> r == s
  {
    if |s| == 0 then []
    else (if s[0] == c then rep else [s[0]]) + ReplaceAll(s[1..], c, rep)
  }

  lemma {:induction false} ReplaceAllAppend(a: string, b: string, c: char, rep: string)
    ensures ReplaceAll(a + b, c, rep) == ReplaceAll(a, c, rep) + ReplaceAll(b, c, rep)
  {
    if |a| > 0 {
      assert (a + b)[1..] == a[1..] + b;
      ReplaceAllAppend(a[1..], b, c, rep);
    } else {
      assert a + b == b;
    }
  }

  /** The five replacements of escapeFFmpegText, applied in order. */
  function EscapeFFmpegText(t: string): string {
    var t1 := ReplaceAll(t, '\\', "\\\\");
    var t2 := ReplaceAll(t1, '\'', "\\'");
    var t3 := ReplaceAll(t2, ':', "\\:");
    var t4 := ReplaceAll(t3, '[', "\\[");
    ReplaceAll(t4, ']', "\\]")
  }

  predicate IsDrawtextSpecial(c: char) {
    c == '\\' || c == '\'' || c == ':' || c == '[' || c == ']'
  }

  /** Reference escaping: each special character gets one backslash in front, everything else is kept. */
  function EscapeEach(t: string): (r: string)
    ensures |r| >= |t|
  {
    if |t| == 0 then []
    else (if IsDrawtextSpecial(t[0]) then ['\\', t[0]] else [t[0]]) + EscapeEach(t[1..])
  }

  /** Reverses EscapeEach: a backslash makes the next character literal. */
  function Unescape(e: string): string
    decreases |e|
  {
    if |e| == 0 then []
    else if e[0] == '\\' && |e| >= 2 then [e[1]] + Unescape(e[2..])
    else [e[0]] + Unescape(e[1..])
  }

  lemma EscapeOneChar(c: char)
    ensures EscapeFFmpegText([c]) == (if IsDrawtextSpecial(c) then ['\\', c] else [c])
  {
    var bs := ReplaceAll([c], '\\', "\\\\");
    if c == '\\' {
      assert bs == "\\\\";
      assert "\\\\"[1..] == "\\";
    }
  }

  lemma {:induction false} EscapeAppend(a: string, b: string)
    ensures EscapeFFmpegText(a + b) == EscapeFFmpegText(a) + EscapeFFmpegText(b)
  {
    ReplaceAllAppend(a, b, '\\', "\\\\");
    var a1, b1 := ReplaceAll(a, '\\', "\\\\"), ReplaceAll(b, '\\', "\\\\");
    ReplaceAllAppend(a1, b1, '\'', "\\'");
    var a2, b2 := ReplaceAll(a1, '\'', "\\'"), ReplaceAll(b1, '\'', "\\'");
    ReplaceAllAppend(a2, b2, ':', "\\:");
    var a3, b3 := ReplaceAll(a2, ':', "\\:"), ReplaceAll(b2, ':', "\\:");
    ReplaceAllAppend(a3, b3, '[', "\\[");
    var a4, b4 := ReplaceAll(a3, '[', "\\["), ReplaceAll(b3, '[', "\\[");
    ReplaceAllAppend(a4, b4, ']', "\\]");
  }

  /**
   * The chain of replacements escapes each special character exactly once:
   * backslashes are doubled first, so the backslashes added by later
   * replacements are not escaped again.
   */
  lemma {:induction false} EscapeFFmpegTextIsEscapeEach(t: string)
    ensures EscapeFFmpegText(t) == EscapeEach(t)
  {
    if |t| > 0 {
      assert t == [t[0]] + t[1..];
      EscapeAppend([t[0]], t[1..]);
      EscapeOneChar(t[0]);
      EscapeFFmpegTextIsEscapeEach(t[1..]);
    }
  }

  /** Escaping loses nothing: unescaping gives the original text back. */
  lemma {:induction false} EscapeRoundTrip(t: string)
    ensures Unescape(EscapeFFmpegText(t)) == t
  {
    EscapeFFmpegTextIsEscapeEach(t);
    EscapeEachRoundTrip(t);
  }

  lemma {:induction false} EscapeEachRoundTrip(t: string)
    ensures Unescape(EscapeEach(t)) == t
  {
    if |t| > 0 {
      EscapeEachRoundTrip(t[1..]);
      var e := EscapeEach(t);
      if IsDrawtextSpecial(t[0]) {
        assert e == ['\\', t[0]] + EscapeEach(t[1..]);
        assert e[2..] == EscapeEach(t[1..]);
      } else {
        assert e == [t[0]] + EscapeEach(t[1..]);
        assert e[1..] == EscapeEach(t[1..]);
      }
    }
  }
}
