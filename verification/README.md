# Unit-test generator: request pipeline model

A Dafny model of the backend core of a service that takes a piece of source
code and a language name, asks a language-model provider (DeepSeek or OpenAI)
to write unit tests for it, and records each request with its outcome. The
model covers:

- the input checks both AI services run (`validateInput`);
- the system prompt they build (`buildPrompt`);
- the fence stripping applied to the model's reply (`stripMarkdownCodeFence`);
- the error flow of `generateUnitTests`, with the network call as a parameter;
- the DeepSeek start-up decision (`onModuleInit`);
- the generation record lifecycle (`create`, `findAllByUser`, `findOne`) and
  the DTO constraints on its input;
- the register/login decisions of the account service.

Modules, one per component:

| file | module | models |
|---|---|---|
| wrappers.dfy | `Wrappers` | `Option` / `Result` |
| text.dfy | `Text` | `trim`, `toLowerCase`, `\s`, `\w` on ASCII; `length` in UTF-16 code units |
| errors.dfy | `Errors` | the exception classes thrown and caught |
| validation.dfy | `Validation` | `validateInput` |
| prompt.dfy | `Prompt` | `buildPrompt` |
| fence.dfy | `Fence` | `stripMarkdownCodeFence` |
| provider.dfy | `Provider` | `AIService`, `DeepSeekService` / `AiService.generateUnitTests` |
| startup.dfy | `Startup` | `DeepSeekService.onModuleInit` |
| generation_dto.dfy | `GenerationDto` | `CreateGenerationDto` |
| generations.dfy | `Generations` | `GenerationsService` |
| auth.dfy | `Auth` | `AuthService.register` / `login` / `buildAuthResult` |

The DeepSeek and OpenAI services contain identical copies of `validateInput`
(backend/src/ai/deepseek.service.ts:105-128, backend/src/ai/ai.service.ts:70-89),
`buildPrompt` (deepseek.service.ts:130-141, ai.service.ts:94-105) and
`stripMarkdownCodeFence` (deepseek.service.ts:143-147, ai.service.ts:108-112).
Each is defined once here, so the two services agree on them by construction.
`Provider.GenerateUnitTests` takes the service as a `Provider` value:
`DeepSeek(settings)` or `OpenAi(apiKey, model)`. Traits are not used, so the
`AIService` abstraction is this datatype. `GenerationsService` imports the
OpenAI service while the AI module binds the abstraction to DeepSeek, so
`Generations.Create` takes the provider as a parameter and either fits.

The network round trip is the parameter `send: ChatRequest -> ProviderResult`.
It returns the first choice's content (`None` when absent) or the exception the
SDK throws. `send` is called exactly once, on `Provider.BuildRequest(...)`.

The regular expression `` ^```(?:[\w]*)\n?([\s\S]*?)\n?```$ `` is written out by
positions. The input matches when the trimmed text is at least six characters
long and starts and ends with three backticks. The hint is the maximal `\w`
run after the opening fence. One line feed after it is skipped if present. The
lazy capture ends before a line feed that directly precedes the closing fence,
if that line feed is not behind the capture start. `Fence.CaptureIsRegexMatch`
states that this is the match the regex engine reports.

### Behaviour worth knowing

- **Rejected input still leaves a failed row.** When
  `GenerationsService.create` is called directly, it inserts the pending row
  before the provider call, and the provider runs `validateInput`. Rejected input
  therefore leaves a `failed` row (`Generations.RejectedInputLeavesFailedRecord`).
  Through the controller, the DTO rules already refuse empty fields and fields
  over their `@MaxLength`. What reaches `create` and is still rejected is code or
  a language that is only white space (`GenerationDto.BlankCodePassesDto`), or
  code that is too long in UTF-16 code units but short enough for `@MaxLength`
  (`GenerationDto.DtoAdmitsWhatServiceRejects`).
- **Two different length measures.** `validateInput` bounds JavaScript's
  `length`, which counts UTF-16 code units, so a character above U+FFFF counts
  twice. `@MaxLength` (validator.js `isLength`) counts such a character once,
  and does not count the presentation selectors U+FE0E and U+FE0F. On BMP text
  without those selectors the two length measures agree, so the DTO's bound
  implies the service's bound (`GenerationDto.DtoImpliesServiceBound`). The
  converse fails, because the DTO bounds the raw code and the service the
  trimmed code (`GenerationDto.ServiceAdmitsWhatDtoRejects`). 25001 emoji
  pass the DTO and are rejected by the service
  (`Validation.AstralCharactersCountTwice`).
- **Stripping is not idempotent.** ```` ```\n```\nx\n```\n``` ```` strips to
  ```` ```\nx\n``` ````, which strips again to `x` (`Fence.StripNotIdempotent`).
- **A completed record can carry empty tests.** A reply of ```` ```abc``` ````
  passes the emptiness check and strips to `""`. The record then completes with
  empty tests (`Provider.NonBlankReplyCanStripToEmpty`).
- **The OpenAI service checks its key lazily, per call.** Without
  `OPENAI_API_KEY` it still starts. Every call with valid input then fails with
  the same 503, and invalid input still gets its 400
  (`Provider.ValidationBeforeClientCheck`). A white-space-only key counts as
  configured, because the code tests it for truthiness only.

## Model

| member | source | states |
|---|---|---|
| Validation.ValidateInput | backend/src/ai/deepseek.service.ts:105-128 | Accepts exactly when the code is non-empty, its trimmed form is not empty and at most 50000 UTF-16 code units long, and the language is non-empty and not blank. Each rejection reason holds exactly under its own condition, in check order. |
| Validation.CodeCheckedFirst | backend/src/ai/deepseek.service.ts:106-127 | A rejected code gives the same error whatever the language, so code errors come before language errors. |
| Validation.EmptyAndBlankDiffer | backend/src/ai/deepseek.service.ts:106-126 | `""` gives "required" and white space gives "blank", for the code and for the language. |
| Validation.LengthBoundInclusive | backend/src/ai/deepseek.service.ts:111-119 | A trimmed length of exactly 50000 code units is accepted and 50001 is rejected. Surrounding white space does not count toward the length. |
| Validation.AstralCharactersCountTwice | backend/src/ai/deepseek.service.ts:115-119 | 25001 characters above U+FFFF exceed the bound, because `length` counts each as two code units. |
| Text.BlankIffAllSpace | backend/src/ai/deepseek.service.ts:111-113 | `trim().length === 0` holds exactly of strings made only of white space. |
| Text.NormalizeIdempotent | backend/src/generations/generations.service.ts:23 | The stored label `trim().toLowerCase()` normalizes to itself. |
| Prompt.BuildPrompt | backend/src/ai/deepseek.service.ts:130-141 | The prompt is the fixed head, then the trimmed lower-cased language, then the fixed tail. |
| Prompt.LabelRoundTrip | backend/src/ai/deepseek.service.ts:131-138 | The label read back out of a built prompt is the normalized language. |
| Prompt.PromptDeterminedByNormalizedLabel | backend/src/ai/deepseek.service.ts:130-141 | Two languages give equal prompts if and only if they are equal after trim and lower-casing. |
| Prompt.LabelEndsRequirementFour | backend/src/ai/deepseek.service.ts:138 | Requirement 4 ends with the normalized label followed by "." and a line break. |
| Prompt.CaseAndPaddingIrrelevant | backend/src/ai/ai.service.ts:94-105 | "  JavaScript " and "javascript" yield the same prompt. |
| Fence.StripMarkdownCodeFence | backend/src/ai/deepseek.service.ts:143-147 | The result never has white space at either end. Input whose trimmed form is not fenced comes back trimmed and otherwise unchanged. |
| Fence.CaptureIsRegexMatch | backend/src/ai/deepseek.service.ts:145 | The regex matches if and only if the trimmed text is fenced. The chosen match has the maximal hint, takes the optional line feed, and uses the shortest capture that lets the closing fence match. |
| Fence.StripWrapRoundTrip | backend/src/ai/ai.service.ts:108-112 | A trimmed body wrapped as ```` ```hint\nbody\n``` ```` with a word-character hint strips back to exactly the body. |
| Fence.StripExample | backend/src/ai/deepseek.service.ts:145-146 | ```` ```js\nconst x=1;\n``` ```` strips to `const x=1;`. |
| Fence.StripNotIdempotent | backend/src/ai/deepseek.service.ts:143-147 | A fence nested in a fence loses one layer per strip, so stripping twice differs from stripping once. |
| Fence.HintSwallowsUnbrokenBody | backend/src/ai/deepseek.service.ts:145 | ```` ```abc``` ```` strips to `""` because the greedy hint takes `abc`. |
| Provider.BuildRequest | backend/src/ai/deepseek.service.ts:70-81 | The request holds two messages. The system message carries the prompt for the normalized language. The user message is the raw code. DeepSeek sends its configured model and token limit. OpenAI sends `OPENAI_MODEL` or `gpt-4o-mini`, with 4000 tokens. |
| Provider.Configured | backend/src/ai/deepseek.service.ts:63-68 | The client exists: for DeepSeek after a successful start-up, for OpenAI when `OPENAI_API_KEY` is truthy, which includes a white-space-only key. |
| Provider.HandleReply | backend/src/ai/deepseek.service.ts:83-101 | A thrown error is wrapped. Missing or blank content gives the empty-response 503. Any other content gives its fence-stripped form. |
| Provider.WrapProviderError | backend/src/ai/deepseek.service.ts:91-101 | BadRequest and ServiceUnavailable pass through. Any other error becomes ServiceUnavailable whose message contains the original message, or "Unknown error" for a non-Error. |
| Provider.GenerateUnitTests | backend/src/ai/deepseek.service.ts:61-103 | Order of checks: validation (400), then the client (503), then one call. A thrown error is wrapped. Missing or blank content gives 503. Otherwise the result is the stripped content. Every failure is 400 or 503, and every success is trimmed. |
| Provider.ValidationBeforeClientCheck | backend/src/ai/ai.service.ts:28-35 | With no client, the call always fails. It fails with 400 exactly when the input is invalid, and with 503 otherwise. |
| Provider.ServicesAgree | backend/src/ai/ai.service.ts:28-68 | Two configured services given the same reply return identical outcomes, except for the wording of the empty-response message. |
| Provider.NonBlankReplyCanStripToEmpty | backend/src/ai/deepseek.service.ts:83-90 | The non-blank reply ```` ```abc``` ```` passes the emptiness check and yields empty tests. |
| Startup.ChooseMaxTokens | backend/src/ai/deepseek.service.ts:49-53 | The token limit is the parsed value when it is positive, otherwise 4000, and it is always positive. |
| Startup.UnsupportedProviderMessage | backend/src/ai/deepseek.service.ts:30-34 | The unsupported-provider error quotes the lower-cased selector. |
| Startup.OnModuleInit | backend/src/ai/deepseek.service.ts:28-53 | Start-up succeeds if and only if the lower-cased `AI_PROVIDER` (default `deepseek`) is `deepseek` and the key is present and not blank. The provider check comes first. On success the key is trimmed, the model defaults to `deepseek-coder`, and the token rule applies. |
| Startup.StartupConfiguresClient | backend/src/ai/deepseek.service.ts:29-46 | A successful start-up yields a configured DeepSeek service, and the selector is case-insensitive. |
| Startup.StartupRefusals | backend/src/ai/deepseek.service.ts:30-41 | `openai` is refused for any key. A missing key is refused, and so is a blank key. |
| GenerationDto.DtoAccepted | backend/src/generations/dto/create-generation.dto.ts:4-12 | Both fields are non-empty. The code is at most 50000 long and the language at most 64, counted as validator.js `isLength` counts: a character above U+FFFF once, U+FE0E and U+FE0F not at all. |
| GenerationDto.DtoImpliesServiceBound | backend/src/generations/dto/create-generation.dto.ts:4-12 | A DTO-accepted body is never missing for `validateInput`. When the code is BMP text without presentation selectors, it also meets the service's length bound, so it is rejected only as blank. |
| GenerationDto.ServiceAdmitsWhatDtoRejects | backend/src/generations/dto/create-generation.dto.ts:6 | 50000 letters plus a trailing space fail `@MaxLength(50000)` yet pass `validateInput`, which bounds the trimmed code. |
| GenerationDto.DtoAdmitsWhatServiceRejects | backend/src/generations/dto/create-generation.dto.ts:6 | 25001 emoji pass `@MaxLength(50000)`, and `validateInput` then rejects them as too long. |
| GenerationDto.BlankCodePassesDto | backend/src/generations/dto/create-generation.dto.ts:5-6 | White-space code passes the DTO rules and is rejected later as blank. |
| Generations.PendingRecord | backend/src/generations/generations.service.ts:19-26 | The inserted row is pending and has no tests. It stores the owner, the raw code and the normalized language. |
| Generations.UpdateAppendedRow | backend/src/generations/generations.service.ts:34-55 | Updating a freshly appended row by its id leaves the older rows alone and changes only that row. |
| Generations.UpdateById | backend/src/generations/generations.service.ts:34-55 | Only the row with the given id changes. Completion sets the status and tests. Failure sets the status and keeps the tests. Both set `updatedAt`. |
| Generations.RethrowFromCreate | backend/src/generations/generations.service.ts:57-65 | BadRequest and ServiceUnavailable are re-thrown. Anything else becomes the generic 503 "Test generation failed". |
| Generations.Create | backend/src/generations/generations.service.ts:18-66 | Exactly one row is appended and older rows are unchanged. The row ends completed or failed, never pending, with tests exactly when completed. Success returns the row without its owner, with the provider's output. A failure re-throws the provider's error unchanged. |
| Generations.RejectedInputLeavesFailedRecord | backend/src/generations/generations.service.ts:19-55 | Input the validator rejects still leaves one new failed row, and the 400 reaches the caller. |
| Generations.CreatePreservesInvariants | backend/src/generations/generations.service.ts:18-66 | Unique ids are preserved. Every row stays finished, with tests exactly when it is completed. |
| Generations.ProviderSeesRawInput | backend/src/generations/generations.service.ts:29-32 | The provider receives the code as submitted. `create` depends on the provider only through its reply to that one request. |
| Generations.OwnedBy | backend/src/generations/generations.service.ts:71 | Every owned row appears as often as in the store, and no other row appears. |
| Generations.SortNewestFirst | backend/src/generations/generations.service.ts:72 | The output is a permutation of the input, ordered by `createdAt` descending. |
| Generations.FindAllByUser | backend/src/generations/generations.service.ts:69-83 | The result is the owner's rows without the owner field, newest first, as a permutation. |
| Generations.FindAllByUserIsExactlyOwned | backend/src/generations/generations.service.ts:69-83 | A view is listed if and only if it comes from a row owned by the user. |
| Generations.FindOne | backend/src/generations/generations.service.ts:85-102 | Returns a row only if both its id and its owner match. Otherwise it is a 404 "Generation not found". |
| Generations.FindOneHidesOwnership | backend/src/generations/generations.service.ts:98-100 | A foreign-owned id gives exactly the result of an id that does not exist. |
| Generations.CreatedRecordReadableByOwnerOnly | backend/src/generations/generations.service.ts:85-101 | After `create`, the owner reads the new row, which equals the returned value on success. Any other user gets a 404. |
| Auth.FindByEmail | backend/src/auth/auth.service.ts:36-38 | A found user has that email. Nothing is found if and only if no user has it. |
| Auth.BuildAuthResult | backend/src/auth/auth.service.ts:78-92 | The result carries the stored id, email and name and no hash. The token is signed over `sub = id` and `email`. |
| Auth.Register | backend/src/auth/auth.service.ts:35-53 | Conflict occurs if and only if the lower-cased email is taken, and then the store is unchanged. Otherwise exactly one user is added, with the lower-cased email, the hash of the password and the given name. |
| Auth.Login | backend/src/auth/auth.service.ts:55-69 | Success means a stored user with the lower-cased email whose hash verifies the password. In a table with unique emails, the converse also holds. Every failure is the same 401, and an unknown email fails. |
| Auth.EmailCaseInsensitive | backend/src/auth/auth.service.ts:36-58 | Emails equal after lower-casing log in alike, and they collide on registration. |
| Auth.LoginFailuresIndistinguishable | backend/src/auth/auth.service.ts:59-66 | An unknown email and a wrong password give identical results. |
| Auth.RegisterPreservesWellFormed | backend/src/auth/auth.service.ts:43-50 | Given a fresh id, registration keeps ids and emails unique. |
| Auth.RegisterKeepsEmailsLowerCase | backend/src/auth/auth.service.ts:46-48 | Registration stores only lower-cased emails, so a table in lower case stays so. |
| Auth.RegisterThenLogin | backend/src/auth/auth.service.ts:35-69 | Logging in after registering, under any casing of the email, returns the new account's result. |

## Left out

- The OpenAI/DeepSeek client objects and the network call. They are replaced by the `send` parameter.
- Temperature (`DEEPSEEK_TEMPERATURE` and the fixed 0.2). These are floating-point values and are not sent in `ChatRequest`.
- `parseInt` prefix semantics. The parsed value of `DEEPSEEK_MAX_TOKENS` arrives as `Option<int>`.
- Unicode white space and case mapping. `trim`, `\s` and `toLowerCase` are modelled on ASCII only.
- Lone surrogates. A JavaScript string can hold an unpaired surrogate and a Dafny `char` cannot, so only well-formed text is modelled.
- Non-string runtime values reaching `validateInput` through its `typeof` guards. The model's inputs are typed strings.
- Prisma persistence. The store is a sequence, and ids and timestamps are caller-supplied. The id passed to `create` must be fresh, standing in for the database's key generation. `Auth.Register` accepts any id; only `Auth.RegisterPreservesWellFormed` assumes a fresh one.
- Failures of the `update` calls themselves, including a crash that leaves a row `pending`.
- bcrypt and JWT. `hash`, `verify` and `sign` are function parameters.
- The salt rounds are not modelled.
- `AuthService.validateUserById`. It is a plain lookup used by the JWT strategy, outside the request pipeline.
- Nest module wiring, guards, the controller and the decorator.
- The whole frontend.
- Concurrency between requests. Each `create` is modelled as one atomic step.
