/** `validateInput`, shared verbatim by the DeepSeek and the OpenAI services
    (backend/src/ai/deepseek.service.ts and backend/src/ai/ai.service.ts). */
module Validation {
  import opened Wrappers
  import opened Text

  const MaxCodeLength: nat := 50000

  /** The five rejection reasons, in the order the checks run. */
  datatype ValidationError =
    | CodeMissing
    | CodeBlank
    | CodeTooLong
    | LanguageMissing
    | LanguageBlank
  {
    /** The text of the `BadRequestException` thrown for this reason. */
    function Message(): string {
      match this
      case CodeMissing => "Code is required and must be a non-empty string."
      case CodeBlank => "Code cannot be blank."
      case CodeTooLong => "Code must not exceed 50000 characters."
      case LanguageMissing => "Language is required and must be a non-empty string."
      case LanguageBlank => "Language cannot be blank."
    }

    predicate IsCodeError() {
      CodeMissing? || CodeBlank? || CodeTooLong?
    }
  }

  /** The code is acceptable: present, not blank, and at most 50000 UTF-16
      code units once trimmed. */
  predicate CodeAccepted(code: string) {
    code != [] && 0 < |Trim(code)| && Utf16Length(Trim(code)) <= MaxCodeLength
  }

  /** The language is acceptable: present and not blank. */
  predicate LanguageAccepted(language: string) {
    language != [] && !IsBlank(language)
  }

  /** `validateInput(code, language)`: `None` when it returns normally,
      otherwise the first failing check. */
  function ValidateInput(code: string, language: string): (r: Option<ValidationError>)
    ensures r == None <==> CodeAccepted(code) && LanguageAccepted(language)
    ensures r.Some? && r.value.IsCodeError() <==> !CodeAccepted(code)
    ensures r == Some(CodeMissing) <==> code == []
    ensures r == Some(CodeBlank) <==> code != [] && IsBlank(code)
    ensures r == Some(CodeTooLong) <==> code != [] && Utf16Length(Trim(code)) > MaxCodeLength
    ensures r == Some(LanguageMissing) <==> CodeAccepted(code) && language == []
    ensures r == Some(LanguageBlank) <==> CodeAccepted(code) && language != [] && IsBlank(language)
  {
    if code == [] then Some(CodeMissing)
    else if |Trim(code)| == 0 then Some(CodeBlank)
    else if Utf16Length(Trim(code)) > MaxCodeLength then Some(CodeTooLong)
    else if language == [] then Some(LanguageMissing)
    else if |Trim(language)| == 0 then Some(LanguageBlank)
    else None
  }

  /** Code errors win over language errors: a rejected code is reported the
      same way whatever the language. */
  lemma CodeCheckedFirst(code: string, language1: string, language2: string)
    requires !CodeAccepted(code)
    ensures ValidateInput(code, language1) == ValidateInput(code, language2)
  {
  }

  /** Absent and blank are different reasons: `""` is "required", all white
      space is "blank", for the code and for the language alike. */
  lemma EmptyAndBlankDiffer()
    ensures ValidateInput("", "python") == Some(CodeMissing)
    ensures ValidateInput(" \n\t", "python") == Some(CodeBlank)
    ensures ValidateInput("x=1", "") == Some(LanguageMissing)
    ensures ValidateInput("x=1", "  ") == Some(LanguageBlank)
  {
    assert Trim("x=1") == "x=1" by { TrimOfTrimmed("x=1"); }
    BlankIffAllSpace(" \n\t");
    BlankIffAllSpace("  ");
  }

  /** The bound is inclusive: 50000 code units after trimming are accepted,
      50001 are not, and white space around them does not count. */
  lemma LengthBoundInclusive(body: string, pad: string)
    requires IsTrimmed(body) && |body| > 0 && AllSpace(pad)
    ensures Utf16Length(body) == MaxCodeLength ==> ValidateInput(pad + body + pad, "go") == None
    ensures Utf16Length(body) == MaxCodeLength + 1 ==>
              ValidateInput(pad + body + pad, "go") == Some(CodeTooLong)
  {
    TrimPadded(pad, body, pad);
    assert Trim("go") == "go" by { TrimOfTrimmed("go"); }
  }

  /** The bound counts UTF-16 code units, not characters: 25001 characters
      above U+FFFF are too long. */
  lemma AstralCharactersCountTwice()
    ensures ValidateInput(seq(25001, _ => '\U{1F600}'), "go") == Some(CodeTooLong)
  {
    var code := seq(25001, _ => '\U{1F600}');
    TrimOfTrimmed(code);
    Utf16LengthOfAstralRun('\U{1F600}', 25001);
  }
}
