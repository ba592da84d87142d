/** The string primitives the core relies on: JavaScript's `trim`, `toLowerCase`
    and the regular-expression classes `\s` and `\w`, restricted to ASCII, and
    `length`, which counts UTF-16 code units. */
module Text {

  /** JavaScript white space (`\s`, and what `trim` removes), ASCII part:
      space, tab, line feed, vertical tab, form feed, carriage return. */
  predicate IsSpace(c: char) {
    c == ' ' || c == '\t' || c == '\n' || c == '\U{000B}' || c == '\U{000C}' || c == '\r'
  }

  /** The regular-expression word class `\w`: `[A-Za-z0-9_]`. */
  predicate IsWordChar(c: char) {
    ('A' <= c <= 'Z') || ('a' <= c <= 'z') || ('0' <= c <= '9') || c == '_'
  }

  /** A string with no white space at either end. */
  predicate IsTrimmed(s: string) {
    |s| == 0 || (!IsSpace(s[0]) && !IsSpace(s[|s| - 1]))
  }

  /** Every character of `s` is white space (vacuously true of ""). */
  predicate AllSpace(s: string) {
    forall i :: 0 <= i < |s| ==> IsSpace(s[i])
  }

  /** Index of the first character of `s` at or after `i` that is not white
      space (`|s|` when there is none). */
  function SkipSpace(s: string, i: nat): (a: nat)
    requires i <= |s|
    ensures i <= a <= |s|
    ensures forall k :: i <= k < a ==> IsSpace(s[k])
    ensures a == |s| || !IsSpace(s[a])
    decreases |s| - i
  {
    if i < |s| && IsSpace(s[i]) then SkipSpace(s, i + 1) else i
  }

  /** Index just past the last character of `s[a..b]` that is not white space
      (`a` when there is none). */
  function SkipSpaceBack(s: string, a: nat, b: nat): (e: nat)
    requires a <= b <= |s|
    ensures a <= e <= b
    ensures forall k :: e <= k < b ==> IsSpace(s[k])
    ensures e == a || !IsSpace(s[e - 1])
    decreases b - a
  {
    if a < b && IsSpace(s[b - 1]) then SkipSpaceBack(s, a, b - 1) else b
  }

  /** JavaScript `s.trim()`: white space removed from both ends. */
  function Trim(s: string): (r: string)
    ensures IsTrimmed(r)
    ensures |r| <= |s|
  {
    var a := SkipSpace(s, 0);
    s[a..SkipSpaceBack(s, a, |s|)]
  }

  /** A trimmed string is left alone by `trim`. */
  lemma TrimOfTrimmed(s: string)
    requires IsTrimmed(s)
    ensures Trim(s) == s
  {
  }

  /** Trimming removes exactly the white space padding around a trimmed,
      non-empty body. */
  lemma TrimPadded(before: string, body: string, after: string)
    requires IsTrimmed(body) && |body| > 0 && AllSpace(before) && AllSpace(after)
    ensures Trim(before + body + after) == body
  {
    var s := before + body + after;
    var a := SkipSpace(s, 0);
    assert s[|before|] == body[0];
    assert a == |before|;
    var e := SkipSpaceBack(s, a, |s|);
    assert s[|before| + |body| - 1] == body[|body| - 1];
    assert e == |before| + |body|;
    assert s[a..e] == body;
  }

  /** JavaScript `trim().length === 0` holds exactly of all-white-space strings. */
  predicate IsBlank(s: string) {
    |Trim(s)| == 0
  }

  lemma BlankIffAllSpace(s: string)
    ensures IsBlank(s) <==> AllSpace(s)
  {
    var a := SkipSpace(s, 0);
    if a < |s| {
      assert Trim(s)[0] == s[a];
    }
  }

  /** The UTF-16 code units JavaScript stores for one character: a surrogate
      pair above U+FFFF. */
  function CodeUnits(c: char): nat {
    if c as int < 0x1_0000 then 1 else 2
  }

  /** JavaScript `s.length`: the UTF-16 code units of `s`. */
  function Utf16Length(s: string): (n: nat)
    ensures |s| <= n <= 2 * |s|
  {
    if s == [] then 0 else CodeUnits(s[0]) + Utf16Length(s[1..])
  }

  /** Every character lies in the Basic Multilingual Plane. */
  predicate InBmp(s: string) {
    forall i :: 0 <= i < |s| ==> s[i] as int < 0x1_0000
  }

  /** On BMP text, `length` counts characters. */
  lemma {:induction false} Utf16LengthOfBmp(s: string)
    requires InBmp(s)
    ensures Utf16Length(s) == |s|
  {
    if s != [] {
      assert InBmp(s[1..]) by {
        forall i | 0 <= i < |s[1..]| ensures s[1..][i] as int < 0x1_0000 {
          assert s[1..][i] == s[i + 1];
        }
      }
      Utf16LengthOfBmp(s[1..]);
    }
  }

  /** A character above U+FFFF counts twice: a run of `n` of them has length `2n`. */
  lemma {:induction false} Utf16LengthOfAstralRun(c: char, n: nat)
    requires c as int >= 0x1_0000
    ensures Utf16Length(seq(n, _ => c)) == 2 * n
  {
    if n > 0 {
      var s := seq(n, _ => c);
      assert s[1..] == seq(n - 1, _ => c);
      Utf16LengthOfAstralRun(c, n - 1);
    }
  }

  /** Trimming keeps BMP text in the BMP. */
  lemma TrimKeepsBmp(s: string)
    requires InBmp(s)
    ensures InBmp(Trim(s))
  {
  }

  /** JavaScript `toLowerCase` on one ASCII character. */
  function LowerChar(c: char): char {
    if 'A' <= c <= 'Z' then (c as int + 32) as char else c
  }

  /** JavaScript `s.toLowerCase()`, ASCII letters only. */
  function ToLower(s: string): (r: string)
    ensures |r| == |s|
    ensures forall i :: 0 <= i < |s| ==> r[i] == LowerChar(s[i])
  {
    seq(|s|, i requires 0 <= i < |s| => LowerChar(s[i]))
  }

  /** The label the pipeline stores and interpolates: `s.trim().toLowerCase()`. */
  function Normalize(s: string): string {
    ToLower(Trim(s))
  }

  /** Lower-casing is idempotent and maps no character into or out of white space. */
  lemma ToLowerIdempotent(s: string)
    ensures ToLower(ToLower(s)) == ToLower(s)
  {
  }

  lemma ToLowerKeepsTrimmed(s: string)
    requires IsTrimmed(s)
    ensures IsTrimmed(ToLower(s))
  {
  }

  /** Normalizing a normalized label changes nothing, so a stored label
      re-normalizes to itself. */
  lemma NormalizeIdempotent(s: string)
    ensures Normalize(Normalize(s)) == Normalize(s)
  {
    var n := Normalize(s);
    ToLowerKeepsTrimmed(Trim(s));
    TrimOfTrimmed(n);
    ToLowerIdempotent(Trim(s));
  }
}
