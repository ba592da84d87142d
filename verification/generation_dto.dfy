/** `CreateGenerationDto` (backend/src/generations/dto/create-generation.dto.ts):
    the body of a create request as the validation pipe admits it. `@IsString`
    is carried by the field types. */
module GenerationDto {
  import opened Wrappers
  import opened Text
  import opened Validation

  const MaxDtoCodeLength: nat := 50000
  const MaxLanguageLength: nat := 64

  datatype CreateGenerationDto = CreateGenerationDto(code: string, language: string)

  /** The variation selectors U+FE0E and U+FE0F, which `@MaxLength` does not
      count. */
  predicate IsPresentationSelector(c: char) {
    c == '\U{FE0E}' || c == '\U{FE0F}'
  }

  predicate NoSelectors(s: string) {
    forall i :: 0 <= i < |s| ==> !IsPresentationSelector(s[i])
  }

  /** The length `@MaxLength` measures (validator.js `isLength`): characters,
      a surrogate pair counting once, presentation selectors not at all.
      This is not JavaScript's `length`, which the service measures. */
  function ValidatorLength(s: string): (n: nat)
    ensures n <= |s|
  {
    if s == [] then 0
    else (if IsPresentationSelector(s[0]) then 0 else 1) + ValidatorLength(s[1..])
  }

  /** Without presentation selectors, `@MaxLength` counts characters. */
  lemma {:induction false} ValidatorLengthWithoutSelectors(s: string)
    requires NoSelectors(s)
    ensures ValidatorLength(s) == |s|
  {
    if s != [] {
      assert NoSelectors(s[1..]) by {
        forall i | 0 <= i < |s[1..]| ensures !IsPresentationSelector(s[1..][i]) {
          assert s[1..][i] == s[i + 1];
        }
      }
      ValidatorLengthWithoutSelectors(s[1..]);
    }
  }

  /** `@IsNotEmpty` and `@MaxLength` on both fields; blankness is not checked
      here. */
  predicate DtoAccepted(dto: CreateGenerationDto) {
    && dto.code != [] && ValidatorLength(dto.code) <= MaxDtoCodeLength
    && dto.language != [] && ValidatorLength(dto.language) <= MaxLanguageLength
  }

  /** An admitted body is never missing for `validateInput`. On BMP code
      without presentation selectors the two length measures agree, so it
      also meets the service's bound and can be rejected only for being
      blank. */
  lemma DtoImpliesServiceBound(dto: CreateGenerationDto)
    requires DtoAccepted(dto)
    ensures var v := ValidateInput(dto.code, dto.language);
            v == None || v == Some(CodeBlank) || v == Some(CodeTooLong) || v == Some(LanguageBlank)
    ensures InBmp(dto.code) && NoSelectors(dto.code) ==>
              ValidateInput(dto.code, dto.language) != Some(CodeTooLong)
    ensures InBmp(dto.code) && NoSelectors(dto.code) ==>
              (ValidateInput(dto.code, dto.language) == None <==>
               !IsBlank(dto.code) && !IsBlank(dto.language))
  {
    if InBmp(dto.code) && NoSelectors(dto.code) {
      TrimKeepsBmp(dto.code);
      Utf16LengthOfBmp(Trim(dto.code));
      ValidatorLengthWithoutSelectors(dto.code);
    }
  }

  /** The converse of `DtoImpliesServiceBound` fails even on ASCII: the DTO
      bounds the raw code, the service the trimmed code, so 50000 letters and
      a trailing space pass `validateInput` but not `@MaxLength(50000)`. */
  lemma ServiceAdmitsWhatDtoRejects()
    ensures !DtoAccepted(CreateGenerationDto(seq(50000, _ => 'a') + " ", "go"))
    ensures ValidateInput(seq(50000, _ => 'a') + " ", "go") == None
  {
    var body := seq(50000, _ => 'a');
    ValidatorLengthWithoutSelectors(body + " ");
    TrimPadded("", body, " ");
    assert "" + body + " " == body + " ";
    Utf16LengthOfBmp(body);
    assert Trim("go") == "go" by { TrimOfTrimmed("go"); }
  }

  /** Outside the BMP the DTO and the service disagree: 25001 emoji pass
      `@MaxLength(50000)` and are then rejected by `validateInput` as too long. */
  lemma DtoAdmitsWhatServiceRejects()
    ensures DtoAccepted(CreateGenerationDto(seq(25001, _ => '\U{1F600}'), "go"))
    ensures ValidateInput(seq(25001, _ => '\U{1F600}'), "go") == Some(CodeTooLong)
  {
    ValidatorLengthWithoutSelectors(seq(25001, _ => '\U{1F600}'));
    ValidatorLengthWithoutSelectors("go");
    AstralCharactersCountTwice();
  }

  /** A white-space body passes the DTO rules and is left for `validateInput`
      to reject. */
  lemma BlankCodePassesDto()
    ensures DtoAccepted(CreateGenerationDto("   ", "python"))
    ensures ValidateInput("   ", "python") == Some(CodeBlank)
  {
    BlankIffAllSpace("   ");
  }
}
