/** `stripMarkdownCodeFence`, shared verbatim by the DeepSeek and the OpenAI
    services. The source applies the anchored regular expression
    ^```(?:[\w]*)\n?([\s\S]*?)\n?```$  to the trimmed text and returns the
    trimmed capture group, or the trimmed text when it does not match. Here the
    match is spelled out position by position. */
module Fence {
  import opened Text

  const Backticks: string := "```"

  /** The regular expression matches exactly these strings: an opening and a
      closing run of three backticks that do not overlap. */
  predicate IsFenced(t: string) {
    |t| >= 6 && t[..3] == Backticks && t[|t| - 3..] == Backticks
  }

  /** End of the maximal `\w` run starting at `i` (the greedy `[\w]*`). */
  function WordRunEnd(t: string, i: nat): (j: nat)
    requires i <= |t|
    ensures i <= j <= |t|
    ensures forall k :: i <= k < j ==> IsWordChar(t[k])
    ensures j == |t| || !IsWordChar(t[j])
    decreases |t| - i
  {
    if i < |t| && IsWordChar(t[i]) then WordRunEnd(t, i + 1) else i
  }

  /** Where the capture group starts: after the language hint and after one
      optional line feed (the greedy `\n?`). */
  function CaptureStart(t: string): (p: nat)
    requires IsFenced(t)
    ensures 3 <= p <= |t| - 3
  {
    var h := WordRunEnd(t, 3);
    assert t[|t| - 3] == t[|t| - 3..][0] == '`';
    if t[h] == '\n' then h + 1 else h
  }

  /** Where the capture group ends: the lazy `[\s\S]*?` stops before a line
      feed that directly precedes the closing backticks, if that line feed is
      not already behind the capture start. */
  function CaptureEnd(t: string, p: nat): (e: nat)
    requires IsFenced(t) && p <= |t| - 3
    ensures p <= e <= |t| - 3
  {
    if |t| - 4 >= p && t[|t| - 4] == '\n' then |t| - 4 else |t| - 3
  }

  /** `stripMarkdownCodeFence(content)`. */
  function StripMarkdownCodeFence(content: string): (r: string)
    ensures IsTrimmed(r)
    ensures !IsFenced(Trim(content)) ==> r == Trim(content)
    ensures |r| <= |content|
  {
    var t := Trim(content);
    if IsFenced(t) then
      var p := CaptureStart(t);
      Trim(t[p..CaptureEnd(t, p)])
    else
      t
  }

  /** The closing part `\n?```$` matches the suffix of `t` from `e` on. */
  predicate ClosesAt(t: string, e: nat)
    requires e <= |t|
  {
    t[e..] == Backticks || t[e..] == "\n" + Backticks
  }

  /** One way of matching the whole regular expression against `t`: the hint
      is `t[3..h]`, the optional line feed is `t[h..p]`, the capture is
      `t[p..e]` and the closing part is `t[e..]`. */
  predicate MatchesAt(t: string, h: nat, p: nat, e: nat) {
    && 3 <= h <= p <= e <= |t|
    && t[..3] == Backticks
    && (forall k :: 3 <= k < h ==> IsWordChar(t[k]))
    && (p == h || (p == h + 1 && t[h] == '\n'))
    && ClosesAt(t, e)
  }

  /** `IsFenced` is exactly "the regular expression matches", and the match the
      model picks is the one the regex engine reports: the hint run is maximal,
      the optional line feed is taken when present, and the capture is the
      shortest one that lets the rest match. */
  lemma CaptureIsRegexMatch(t: string)
    ensures (exists h: nat, p: nat, e: nat :: MatchesAt(t, h, p, e)) <==> IsFenced(t)
    ensures IsFenced(t) ==>
      var h := WordRunEnd(t, 3);
      var p := CaptureStart(t);
      var e := CaptureEnd(t, p);
      && MatchesAt(t, h, p, e)
      && (h == |t| || !IsWordChar(t[h]))
      && (t[h] == '\n' ==> p == h + 1)
      && (forall e' :: p <= e' < e ==> !ClosesAt(t, e'))
  {
    if h: nat, p: nat, e: nat :| MatchesAt(t, h, p, e) {
      assert t[|t| - 3..] == Backticks by {
        if t[e..] == Backticks {
          assert t[|t| - 3..] == t[e..];
        } else {
          assert t[|t| - 3..] == t[e..][1..];
        }
      }
    }
    if IsFenced(t) {
      var h := WordRunEnd(t, 3);
      var p := CaptureStart(t);
      var e := CaptureEnd(t, p);
      if e == |t| - 4 {
        assert t[e..] == "\n" + Backticks;
      } else {
        assert t[e..] == Backticks;
      }
      assert MatchesAt(t, h, p, e);
    }
  }

  /** The text a model reply has when it wraps `body` in a fence with language
      hint `hint`, as in "```js\n...\n```". */
  function Wrap(hint: string, body: string): string {
    Backticks + hint + "\n" + body + "\n" + Backticks
  }

  /** The word run starting at `i` ends at the first non-word character. */
  lemma WordRunEndAt(t: string, i: nat, j: nat)
    requires i <= j < |t|
    requires forall k :: i <= k < j ==> IsWordChar(t[k])
    requires !IsWordChar(t[j])
    ensures WordRunEnd(t, i) == j
  {
  }

  /** Where the parts of a wrapped reply sit. */
  lemma WrapLayout(hint: string, body: string)
    ensures var t := Wrap(hint, body);
      && |t| == |hint| + |body| + 8
      && t[..3] == Backticks && t[|t| - 3..] == Backticks
      && (forall k :: 3 <= k < 3 + |hint| ==> t[k] == hint[k - 3])
      && t[3 + |hint|] == '\n' && t[|t| - 4] == '\n'
      && t[4 + |hint|..|t| - 4] == body
  {
    var t := Wrap(hint, body);
    assert t == Backticks + (hint + "\n" + body + "\n" + Backticks);
    assert t == (Backticks + hint + "\n" + body + "\n") + Backticks;
    assert t == Backticks + hint + ("\n" + body + "\n" + Backticks);
    assert t == (Backticks + hint) + "\n" + body + ("\n" + Backticks);
  }

  /** Stripping undoes wrapping: a trimmed body fenced with any word-character
      hint comes back unchanged. */
  lemma StripWrapRoundTrip(hint: string, body: string)
    requires forall k :: 0 <= k < |hint| ==> IsWordChar(hint[k])
    requires IsTrimmed(body)
    ensures StripMarkdownCodeFence(Wrap(hint, body)) == body
  {
    var t := Wrap(hint, body);
    WrapLayout(hint, body);
    var h := 3 + |hint|;
    assert t[0] == t[..3][0] && t[|t| - 1] == t[|t| - 3..][2];
    TrimOfTrimmed(t);
    assert IsFenced(t);
    WordRunEndAt(t, 3, h);
    assert CaptureStart(t) == h + 1;
    assert CaptureEnd(t, h + 1) == |t| - 4;
    TrimOfTrimmed(body);
  }

  /** The reply "```js\nconst x=1;\n```" is reduced to the bare code. */
  lemma StripExample()
    ensures StripMarkdownCodeFence("```js\nconst x=1;\n```") == "const x=1;"
  {
    assert Wrap("js", "const x=1;") == "```js\nconst x=1;\n```";
    StripWrapRoundTrip("js", "const x=1;");
  }

  /** Stripping is not idempotent: a fence nested in a fence loses only its
      outer layer, and a second strip removes the inner one. */
  lemma StripNotIdempotent()
    ensures StripMarkdownCodeFence("```\n```\nx\n```\n```") == "```\nx\n```"
    ensures StripMarkdownCodeFence("```\nx\n```") == "x"
  {
    var inner := "```\nx\n```";
    assert Wrap("", "x") == inner;
    assert Wrap("", inner) == "```\n```\nx\n```\n```";
    assert inner[0] == '`' && inner[|inner| - 1] == '`';
    StripWrapRoundTrip("", "x");
    StripWrapRoundTrip("", inner);
  }

  /** A hint with no line feed after it swallows the body: "```abc```" has the
      hint "abc" and an empty capture, so a non-blank reply can strip to "". */
  lemma HintSwallowsUnbrokenBody()
    ensures StripMarkdownCodeFence("```abc```") == ""
  {
    var t := "```abc```";
    assert t[0] == '`' && t[|t| - 1] == '`';
    TrimOfTrimmed(t);
    assert IsFenced(t);
    WordRunEndAt(t, 3, 6);
  }
}
