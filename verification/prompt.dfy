/** `buildPrompt`, shared verbatim by the DeepSeek and the OpenAI services:
    five fixed requirement lines with the normalized language label at the end
    of requirement 4, joined with "\n". */
module Prompt {
  import opened Wrappers
  import opened Text
  import opened Errors

  /** The prompt up to the interpolated label (intro, "Requirements:", items 1-3,
      and the start of item 4). */
  const Head: string := Intro + LineFourStart

  /** Intro, "Requirements:" and items 1-3. */
  const Intro: string :=
    "You are a senior developer writing unit tests. Your response must contain ONLY executable test code: no explanations, no markdown headings, no commentary."
    + "\n" + "Requirements:"
    + "\n" + "1. Generate runnable unit tests that can be executed as-is (include necessary imports and setup)."
    + "\n" + "2. Cover normal cases, edge cases (empty input, boundaries, null/undefined where applicable), and at least one error or invalid-input case if relevant."
    + "\n" + "3. Use the standard test framework for the given language (e.g. Jest/Vitest for JavaScript/TypeScript, pytest for Python, JUnit for Java)."

  /** The start of item 4, up to the label. */
  const LineFourStart: string :=
    "\n" + "4. Assume the code under test is in the same project. Match the style and patterns of the language: "

  /** The prompt after the label: the end of item 4 and item 5. */
  const Tail: string :=
    ".\n" + LineFive

  /** Item 5. */
  const LineFive: string :=
    "5. Output only the test code. Do not wrap in markdown code blocks unless the user code was already in one."

  /** `buildPrompt(language)`. */
  function BuildPrompt(language: string): (r: string)
    ensures |r| == |Head| + |Normalize(language)| + |Tail|
    ensures r[..|Head|] == Head && r[|r| - |Tail|..] == Tail
  {
    Head + Normalize(language) + Tail
  }

  /** Reads the language label back out of a prompt: the text between `Head`
      and `Tail`, or `None` when `prompt` is not shaped like a built prompt. */
  function LabelOf(prompt: string): Option<string> {
    if |prompt| >= |Head| + |Tail| && prompt[..|Head|] == Head && prompt[|prompt| - |Tail|..] == Tail
    then Some(prompt[|Head|..|prompt| - |Tail|])
    else None
  }

  /** The label is recoverable from the prompt, and it is the trimmed,
      lower-cased language. */
  lemma LabelRoundTrip(language: string)
    ensures LabelOf(BuildPrompt(language)) == Some(Normalize(language))
  {
    var p := BuildPrompt(language);
    assert p[|Head|..|p| - |Tail|] == Normalize(language);
  }

  /** The prompt depends on the language only through `trim().toLowerCase()`:
      two languages give the same prompt exactly when they normalize alike. */
  lemma PromptDeterminedByNormalizedLabel(language1: string, language2: string)
    ensures BuildPrompt(language1) == BuildPrompt(language2)
            <==> Normalize(language1) == Normalize(language2)
  {
    if BuildPrompt(language1) == BuildPrompt(language2) {
      LabelRoundTrip(language1);
      LabelRoundTrip(language2);
    }
  }

  /** Requirement 4 ends with the normalized label followed by ".", on a line
      of its own. */
  lemma LabelEndsRequirementFour(language: string)
    ensures Embeds(BuildPrompt(language), LineFourStart + Normalize(language) + ".\n")
  {
    var lang := Normalize(language);
    Regroup(Intro, LineFourStart, lang, ".\n", LineFive);
    EmbedsMiddle(Intro, LineFourStart + lang + ".\n", LineFive);
  }

  lemma Regroup(a: string, b: string, c: string, d: string, e: string)
    ensures (a + b) + c + (d + e) == a + (b + c + d) + e
  {
  }

  /** "  JavaScript " and "javascript" have the same normalized label. */
  lemma NormalizeExample()
    ensures Normalize("  JavaScript ") == "javascript"
    ensures Normalize("javascript") == "javascript"
  {
    TrimPadded("  ", "JavaScript", " ");
    assert "  " + "JavaScript" + " " == "  JavaScript ";
    TrimOfTrimmed("javascript");
    assert forall i | 0 <= i < 10 :: ToLower("JavaScript")[i] == "javascript"[i];
  }

  /** Mixed case and surrounding white space do not change the prompt. */
  lemma CaseAndPaddingIrrelevant()
    ensures BuildPrompt("  JavaScript ") == BuildPrompt("javascript")
  {
    NormalizeExample();
    PromptDeterminedByNormalizedLabel("  JavaScript ", "javascript");
  }
}
