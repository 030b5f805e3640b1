# WordQuest Claude integration — a Dafny model of its decision logic

WordQuest's Claude integration is a Streamlit English-learning app. It sits over
PostgreSQL and three chat back ends: Claude through a browser, OpenAI and
Upstage Solar. This project models the pure decision procedures underneath
that plumbing and proves what they promise:

- **LLM wrappers.**
  - The health counter every wrapper inherits (`error_count`, `is_available`,
    `max_retries = 3`).
  - How the Solar, OpenAI and Claude wrappers turn a call's outcome into a
    reply string, and whether they record an error.
- **`AIService`.**
  - Availability flags.
  - The three-way provider choice between Solar, OpenAI and the canned replies.
  - Classification of HTTP outcomes into reply strings.
  - The keyword-priority canned reply.
  - The connection test and the status report.
- **`InputValidator`.**
  - The email regex, proved equal to a character-class check.
  - Password rules and strength.
  - Username rules.
  - The sanitiser.
- **`RateLimiter`.** A per-user sliding window.
- **`LearningService` arithmetic.**
  - Statistics and progress tiers.
  - The recent-activity merge, sort and cut.
  - The eight-day weekly map.
  - The 50-character activity descriptions.
- **Configuration.**
  - `LLMConfig` loading from the environment, with its availability and
    issue maps.
  - The database URL.
  - Required-setting validation.
- **`AuthService`.**
  - Sign-up validation and its gating order.
  - The duplicate check that fails closed.
  - Login filtering, and stripping the password hash from the result.
  - Password change.
  - Soft delete.

How the model is built:

- **Functional.** Every object is an immutable datatype, and an operation
  that changes state returns the new state.
- **Outside world as inputs.** Anything that reaches outside the process
  becomes an input describing what came back:
  - an HTTP outcome (`Outcomes.HttpOutcome`);
  - an OpenAI SDK outcome (`Outcomes.SdkOutcome`);
  - the browser interface's reply (`ClaudeLlm.WebReply`);
  - the rows a query returned (`Activities.Query`, `LearningStats.StatsRows`,
    `Weekly.DayCount`);
  - whether a lookup raised;
  - the current time in whole seconds.
- **Environment.** The environment is a `map<string, string>`.
- **Users table.** It is the sequence of its rows in storage order, so that
  "the first row the query returns" has a meaning.
- **bcrypt.** A hash records the first 72 bytes of the password's UTF-8
  encoding, which is all passlib's bcrypt reads. So `verify(p, hash(p))`
  holds, and another password verifies exactly when its first 72 bytes are
  the same.
- **State.** The health counter, the rate limiter and the users table are
  values: each operation takes the current state and returns the next.

Python behaviour modelled explicitly:

- Truthiness of strings and optional strings (`Environment.Truthy`).
- `re`'s `$` also matching before a final newline (`Validators.ValidateEmail`).
- `str.strip`'s whitespace set (`Text.IsSpace`).
- `html.escape` with `quote=True`.
- `timedelta.seconds` discarding whole days (`RateLimiter.AgeSeconds`).
- A stable descending `list.sort` (`Activities.SortIsStable`).

The source's character classes (`isupper`, `islower`, `isdigit`, `isalnum`,
`[a-zA-Z0-9]`) are modelled as ASCII classes. The regex classes are ASCII in
Python too.

`str.lower()` is modelled as ASCII lower-casing. That is exact for the
comparisons the source makes:

- the premium-plan flag is compared with `"true"`;
- canned replies look for `"hello"`, `"grammar"` and `"vocabulary"`.

No non-ASCII character lower-cases to any of the letters those words use.

## Model

| member | source | states |
|---|---|---|
| Health.Fresh | langchain_claude/base_llm.py:10-14 | A new wrapper has no errors and is available with three retries allowed, so it is healthy; the model name is kept. |
| Health.RecordError | langchain_claude/base_llm.py:30-35 | The error count goes up by exactly one. Reaching the retry limit makes the wrapper unavailable. Recording an error never makes it available again, and never touches the name or the limit. |
| Health.ResetErrors | langchain_claude/base_llm.py:37-40 | After a reset the count is zero and the wrapper is available, hence healthy whenever the limit is positive. |
| Health.RecordErrorsEffect | langchain_claude/base_llm.py:26-35 | After n errors the count has grown by n. The wrapper is healthy exactly when it was available and the old count plus n stays under the limit. |
| Health.FreshHealthyIffFewerThanThreeErrors | langchain_claude/base_llm.py:10-35 | From a fresh state the wrapper stays healthy exactly while fewer than three errors have been recorded, and from the third error on it is unavailable. |
| Health.UnavailableStaysUnavailable | langchain_claude/base_llm.py:30-35 | Once unavailable, any number of further errors leaves it unavailable and unhealthy. |
| Health.ResetRestoresHealth | langchain_claude/base_llm.py:37-40 | Resetting after any number of errors gives back exactly the fresh state. |
| SolarLlm.NewAgreesWithAvailableLlms | langchain_claude/solar_llm.py:33-48 | Built with no arguments, the wrapper starts exactly when `get_available_llms` lists Solar. It then starts healthy, holding the environment's key. |
| SolarLlm.New | langchain_claude/solar_llm.py:33-48 | Construction fails without an API key from either the argument or the config, and the key check comes before the package check. An explicit key or model wins over the config. |
| SolarLlm.Generate | langchain_claude/solar_llm.py:50-108 | A 200 answer with choices returns the first choice and leaves the wrapper unchanged. Every other outcome records exactly one error and returns its message: missing choices, bad JSON, a non-200 status with its body, or an exception. |
| SolarLlm.RunCountsFailures | langchain_claude/solar_llm.py:50-108 | Over any series of calls the error count grows by exactly the number of failed calls and never decreases. Availability is never regained, and the key and URL never change. |
| SolarLlm.ThreeFailuresDisable | langchain_claude/solar_llm.py:50-108 | From a fresh counter, any series of calls with three failures among them leaves the wrapper unhealthy. |
| OpenAiLlm.NewAgreesWithAvailableLlms | langchain_claude/openai_llm.py:30-50 | Built with no arguments, the wrapper starts exactly when `get_available_llms` lists OpenAI. It then starts healthy, holding the environment's key. |
| OpenAiLlm.New | langchain_claude/openai_llm.py:30-50 | Construction fails without a key from either the argument or the config, and otherwise fails when the SDK is missing. An explicit key or model wins over the config. |
| OpenAiLlm.Generate | langchain_claude/openai_llm.py:52-82 | A completion with choices returns the first one without recording an error. An empty completion or a raised exception records exactly one error and returns the fixed or prefixed message. |
| OpenAiLlm.GetModelInfo | langchain_claude/openai_llm.py:84-94 | The reported health is the base health check. The key is reported configured exactly when it is non-empty. |
| OpenAiLlm.GenerateNeverHeals | langchain_claude/openai_llm.py:52-82 | A call raises the error count by at most one and never lowers it. An unhealthy wrapper is never reported healthy after a call. |
| ClaudeLlm.New | langchain_claude/claude_llm.py:24-51 | Premium mode is on exactly when the lower-cased `CLAUDE_PREMIUM_USER` is `true`. The web interface exists exactly in premium mode when starting it did not raise. |
| ClaudeLlm.LlmType | langchain_claude/claude_llm.py:53-56 | The type is premium first, then API, then test mode. |
| ClaudeLlm.LlmTypeNamesGenerateBranch | langchain_claude/claude_llm.py:53-88 | The type names the branch a call takes. API and test types give their fixed reply and leave the wrapper unchanged. Only the premium type can record an error or depend on the interface's reply. |
| ClaudeLlm.NewTypedByEnvironment | langchain_claude/claude_llm.py:24-84 | A new wrapper is healthy. Its type is premium exactly when `CLAUDE_PREMIUM_USER` is `true` in any case, and API exactly when it is not and `ANTHROPIC_API_KEY` is non-empty. A premium wrapper whose interface failed to start answers every call with the not-initialised notice. |
| ClaudeLlm.Generate | langchain_claude/claude_llm.py:58-92 | Non-premium modes return fixed strings and record nothing. In premium mode, a reply is accepted exactly when it is non-empty and starts with neither failure prefix, and it is then returned prefixed. A rejected reply, an exception or a missing interface records exactly one error. |
| ClaudeLlm.ManualSendMessage | langchain_claude/web_interface.py:151-164 | Pasted text comes back stripped. Blank input yields the fixed "no input" message, so the result is never empty. |
| ClaudeLlm.NonPremiumNeverRecords | langchain_claude/claude_llm.py:85-88 | Outside premium mode, whatever the interface would say, a call leaves the wrapper unchanged. |
| ClaudeLlm.EmptyManualInputIsAccepted | langchain_claude/claude_llm.py:70-72 | The manual interface's "no input" message passes the acceptance test, so it is returned as Claude's answer and no error is recorded. |
| LlmConfig.Override | langchain_claude/config/llm_config.py:36-40 | A setting is replaced only by a non-empty environment value. |
| LlmConfig.LoadFromEnv | langchain_claude/config/llm_config.py:29-51 | A provider becomes enabled with its key exactly when its key variable is non-empty, and otherwise keeps its previous state. Models and URLs follow non-empty variables only. The Claude settings never change. |
| LlmConfig.FromEnv | langchain_claude/config/llm_config.py:25-51 | From the defaults, a provider is enabled exactly when its key variable is set, and its key is that value or absent. |
| LlmConfig.GetAvailableLlms | langchain_claude/config/llm_config.py:53-59 | The map has exactly the three provider keys. OpenAI and Solar are available when enabled with a non-empty key; Claude follows its flag. |
| LlmConfig.ValidateConfig | langchain_claude/config/llm_config.py:61-71 | A provider is reported, with its fixed message, exactly when it is enabled and its key is missing or empty. |
| LlmConfig.LoadedConfigIsValid | langchain_claude/config/llm_config.py:25-71 | A configuration loaded from the defaults never has issues. Each provider is available exactly when enabled. |
| AppConfig.GetDatabaseUrl | app/core/config.py:72-77 | The URL is `postgresql://`, then `user:password` or just `user` when the password is empty, then `@host:port/name`. |
| AppConfig.DatabaseUrlIgnoresDatabaseUrlSetting | app/core/config.py:72-77 | The URL is the same for any two settings that agree on host, port, name, user and password, whatever their `DATABASE_URL`. |
| AppConfig.DatabaseUrlCarriesPort | app/core/config.py:74-77 | The port's decimal text sits right before the `/` that precedes the database name, and a non-negative port reads back from it. |
| AppConfig.DatabaseUrlDistinguishesPorts | app/core/config.py:74-77 | Settings that differ only in the port give different URLs. |
| AppConfig.ValidateSettings | app/core/config.py:79-101 | Settings are valid exactly when `DATABASE_URL`, `JWT_SECRET_KEY` and `SECRET_KEY` are all non-empty. Each missing one is listed. Missing both API keys only warns. |
| AiService.New | app/services/ai_service.py:18-31 | Each provider is available exactly when its configured key is non-empty. |
| AiService.NewRoutesByKeys | app/services/ai_service.py:18-41 | A service built from settings picks Solar exactly when asked to and the Solar key is non-empty. It gives the canned reply exactly when it does not pick Solar and the OpenAI key is empty. It reports the fallback exactly when both keys are empty. |
| AiService.ApiKeyWarningMatchesFallback | app/core/config.py:79-101 | Validation warns about API keys exactly when the settings are otherwise valid and the service built from them reports the fallback. Then every request gets the canned reply, whatever the Solar preference. |
| AiService.SelectRoute | app/services/ai_service.py:33-41 | Solar is used exactly when it was asked for and is available. Otherwise OpenAI is used when available, and otherwise the canned reply. |
| AiService.ProviderReply | app/services/ai_service.py:46-154 | For each provider: a 200 answer with choices yields its first choice; missing choices yield the format error; a non-200 status yields "<Provider> API 오류: <status>"; timeouts, transport errors, unreadable JSON and other exceptions yield their own messages. |
| AiService.CannedReply | app/services/ai_service.py:156-168 | The canned reply is the greeting, grammar, vocabulary or "unavailable" message. |
| AiService.CannedReplyPriority | app/services/ai_service.py:161-168 | Greeting keywords win over grammar keywords, which win over vocabulary keywords. The generic message comes exactly when none occurs, matching `hello`, `grammar` and `vocabulary` case-insensitively. |
| AiService.GetResponse | app/services/ai_service.py:33-44 | The answer is the chosen provider's classified reply, or the canned reply when no provider is chosen. |
| AiService.FailureRepliesNameProvider | app/services/ai_service.py:46-154 | Any reply to a failed call starts with the provider's own name. |
| AiService.NoFallthrough | app/services/ai_service.py:33-41 | The answer depends only on the chosen provider's outcome. A failing provider's error message is returned, never another provider's answer or the canned reply. |
| AiService.SelectionCornerCases | app/services/ai_service.py:36-41 | A Solar-only service not asked for Solar gives the canned reply. An OpenAI-only service asked for Solar uses OpenAI. |
| AiService.TestConnection | app/services/ai_service.py:170-197 | A provider passes exactly when it is configured and its reply does not start with its status-error prefix. |
| AiService.ConnectionTestCriterion | app/services/ai_service.py:178-195 | A configured provider fails the test exactly on a non-200 status, or when a 200 answer itself starts with the error prefix. Timeouts and other errors count as success. |
| AiService.GetApiStatus | app/services/ai_service.py:199-213 | The report carries each provider's availability, model and URL. Fallback is reported exactly when neither key is present. |
| AiService.FallbackFlagMeansCannedForEveryPreference | app/services/ai_service.py:199-213 | The fallback flag holds exactly when both choices of `use_solar` end in the canned reply. |
| Validators.MatchesEmailShapeIsRegex | app/core/security.py:131-136 | A procedure built from the first `@` and the last `.` accepts exactly the strings the regex's pattern matches in full. |
| Validators.ValidateEmail | app/core/security.py:131-136 | An email is accepted exactly when it has the shape: local part, one `@`, a domain before a last dot followed by at least two letters. The shape may be followed by a single final newline, since `$` allows one. |
| Validators.StrengthOf | app/core/security.py:163-166 | Strength is strong with no failed rule, medium with one or two, and weak with three or more. |
| Validators.ValidatePassword | app/core/security.py:138-171 | Each rule is reported exactly when it fails: length under 8, no upper, lower, digit or special character. The password is valid exactly when none fails, there are at most five errors, and strength follows the error count. |
| Validators.PasswordVerdict | app/core/security.py:147-169 | A password is valid exactly when it has 8 or more characters and at least one upper-case, lower-case, digit and special character. |
| Validators.ValidateUsername | app/core/security.py:173-193 | Too short, too long and bad characters are each reported exactly when they apply. The name is valid exactly when none does. |
| Validators.RemoveSeparatorsKeepsAlnum | app/core/security.py:189 | With `_` and `-` removed, the name is non-empty and alphanumeric exactly when every character is a letter, digit or separator and at least one is a letter or digit. |
| Validators.WithoutSeparatorsAllAlnum | app/core/security.py:189 | Every character left after removing separators is alphanumeric exactly when the name consists of username characters. |
| Validators.WithoutSeparatorsNonEmpty | app/core/security.py:189 | Something is left after removing separators exactly when the name has a non-separator character. |
| Validators.UsernameVerdict | app/core/security.py:181-193 | A username is valid exactly when it has 3 to 20 characters, all letters, digits, `_` or `-`, and at least one letter or digit. |
| Validators.HtmlEscape | app/core/security.py:200 | Escaped text contains no `<`, `>`, `"` or `'`. |
| Validators.HtmlEscapeKeepsSafe | app/core/security.py:200 | Text without `&` and markup characters is left as it is by escaping. |
| Validators.SanitizeInput | app/core/security.py:195-204 | Sanitised text contains no `;`, `<`, `>`, `"` or `'`, and neither starts nor ends with whitespace. |
| Validators.SanitizeKeepsCleanText | app/core/security.py:195-204 | Already clean, trimmed text passes through unchanged. |
| Validators.SanitizeTruncatesEntities | app/core/security.py:196-204 | Sanitising works one character at a time, then strips the ends. Each `<`, `>`, `"`, `'` and `&` becomes its entity without the closing `;` (`<` becomes `&lt`). Each `;` disappears and every other character is kept. |
| RateLimiter.AgeSeconds | app/core/security.py:107-108 | The measured age is always under a day, and it equals the true age for requests less than a day old. |
| RateLimiter.Recent | app/core/security.py:104-108 | The counted requests are exactly the stored ones whose measured age is under the window. |
| RateLimiter.IsAllowed | app/core/security.py:101-115 | A request is admitted exactly when fewer than the maximum requests are counted. A refusal changes nothing. An admission stores the counted requests plus now, keeps every stored list within the maximum, and leaves other users and the limits alone. |
| RateLimiter.RemainingRequests | app/core/security.py:117-126 | The remaining budget is between zero and the maximum. It is zero exactly when the counted requests reach the maximum. |
| RateLimiter.DefaultAdmitsFirstRequest | app/core/security.py:96-99 | The default limiter admits anyone's first request and leaves 99 more in the window. |
| RateLimiter.RemainingAgreesWithIsAllowed | app/core/security.py:101-126 | A request is admitted exactly when some budget remains. |
| RateLimiter.AdmissionConsumesOne | app/core/security.py:107-126 | For a positive window, an admitted request lowers the remaining budget at that instant by exactly one. |
| RateLimiter.IsAllowedCorrected | app/core/security.py:107-108 | Measuring whole elapsed time, no request older than the window is counted, and a user whose requests are all older is admitted. |
| RateLimiter.DayOldRequestStillCounts | app/core/security.py:107-108 | A lone request a day and ten seconds old still blocks a one-per-hour user as written, while the corrected check admits it. |
| LearningStats.UserStats | app/services/learning_service.py:95-169 | Each count is its query's first row, or 0 when there are no rows. Study days are zero exactly without a first activity, and otherwise at least one and at least the elapsed days. Study time is 5 minutes per chat plus 3 per check. A failed lookup gives all zeros. |
| LearningStats.StudyTimeBetweenThreeAndFiveMinutesEach | app/services/learning_service.py:154-156 | Estimated study time lies between three and five minutes per chat or check. |
| LearningStats.ProgressFor | app/services/learning_service.py:438-465 | Progress tiers: beginner below 10, intermediate from 10 to 49, advanced from 50. The percentage lies in [0, 100]; it is 100 exactly from 50 activities and 0 exactly at 0 and 10. Milestone progress is the count within the tier, capped at 50. |
| LearningStats.LevelMonotone | app/services/learning_service.py:438-465 | More activities never lower the level. |
| LearningStats.PercentageIsShareOfTier | app/services/learning_service.py:445-458 | Below 50 activities the percentage is the milestone progress as a share of the tier's span of 10 or 40. |
| LearningStats.GetLearningProgress | app/services/learning_service.py:430-470 | Progress follows the statistics' activity count. A failed lookup gives beginner, 0 % and no milestone progress. |
| Activities.Describe | app/services/learning_service.py:35 | A description is the prefix, then the text cut to 50 characters, then `...`. |
| Activities.DescriptionKeepsFirstFifty | app/services/learning_service.py:60 | The quoted part of a description is the text's first fifty characters, or all of a shorter text. |
| Activities.SameDescriptionIffSameFirstFifty | app/services/learning_service.py:85 | Two texts get the same description exactly when their first fifty characters agree. |
| Activities.Merged | app/services/learning_service.py:202-256 | The fallback list is the chats, then the grammar checks, then the vocabulary checks. Each is turned into an activity of its kind with its prefixed description, time and source. |
| Activities.SortNewestFirst | app/services/learning_service.py:259 | The sorted list is newest first and is a permutation of its input. |
| Activities.SortIsStable | app/services/learning_service.py:259 | Activities with the same time keep their merged order. |
| Activities.Latest | app/services/learning_service.py:258-260 | The result is newest first, as long as the limit or the whole list, and drawn from the input. Nothing left out is newer than anything kept. |
| Activities.RecentActivities | app/services/learning_service.py:171-272 | Logged activities are returned row for row when there are any. Otherwise the newest merged activities are returned, cut to the limit. Any failing query that runs, including a negative limit, gives the single placeholder. |
| Weekly.RowsToMap | app/services/learning_service.py:295-298 | The day map has a key exactly for each day that occurs in the rows. |
| Weekly.LastRowWins | app/services/learning_service.py:296-298 | A day's count is that of the last row for the day. |
| Weekly.WeeklyActivities | app/services/learning_service.py:274-312 | The map has a key for each of the eight days of the span and for each queried day. Queried counts are kept and every other day of the span is 0. A failed query gives the empty map. |
| Auth.BcryptKey | app/core/security.py:18 | The part of a password bcrypt hashes is a prefix of its UTF-8 bytes. It is 72 bytes long, or the whole encoding when that is shorter. |
| Auth.VerifyMatchesHash | app/core/security.py:28-34 | A password verifies against its own hash. Among passwords of at most 72 UTF-8 bytes, no other password verifies against it. |
| Auth.TruncatedTailIgnored | app/core/security.py:28-34 | Whatever follows a password's first 72 bytes is ignored. A different, longer password verifies against the hash of its first 72 bytes. |
| Auth.ValidateSignupInput | app/services/auth_service.py:231-255 | Sign-up input passes exactly when username, email and password are each valid and the stripped full name has at least two characters. Passing input has a 3–20 character username and a strong password. |
| Auth.CheckDuplicate | app/services/auth_service.py:257-275 | A duplicate is reported exactly when a row, active or not, has the username or the email, or when the lookup fails. |
| Auth.Signup | app/services/auth_service.py:23-66 | Sign-up succeeds exactly when the input is valid, there is no duplicate, the lookup did not fail and the values fit their columns. It then appends one active row with a fresh id and the password's hash and answers one affected row; otherwise the table is unchanged. |
| Auth.ValidationPrecedesLookup | app/services/auth_service.py:27-33 | Input that fails validation is refused whatever the table holds and whether or not the duplicate lookup would fail. |
| Auth.SignupPreservesWellFormed | app/services/auth_service.py:23-66 | Sign-up keeps ids, usernames and emails unique. |
| Auth.Login | app/services/auth_service.py:68-108 | A malformed email is refused before any lookup. Login succeeds exactly when the first active row with the email verifies the password. The result is that row without its hash, and only then is its login time stamped. |
| Auth.LoginIffActiveAndVerified | app/services/auth_service.py:72-94 | In a well-formed table, login succeeds exactly for a valid email of an active user whose hash the password verifies. |
| Auth.SignupThenLogin | app/services/auth_service.py:23-104 | After a sign-up the new user logs in with the chosen password and sees their own row. |
| Auth.ChangePassword | app/services/auth_service.py:110-147 | The password changes exactly when the row with the id, active or not, verifies the current password and the new one is valid. Then the rows with that id get the new hash; otherwise the table is unchanged. |
| Auth.ChangedPasswordLogsIn | app/services/auth_service.py:110-143 | After a change, an active user with a well-formed email logs in with the new password. The old password logs in exactly when its first 72 UTF-8 bytes equal the new one's. |
| Auth.DeleteAccount | app/services/auth_service.py:149-169 | Deletion reports success exactly when a row has the id. It only clears the active flag of the rows with that id. |
| Auth.DeletedUserCannotLogin | app/services/auth_service.py:149-165 | After a deletion no password logs in with the deleted user's email. |
| Text.Strip | app/core/security.py:204 | Stripping removes exactly leading and trailing whitespace: the result is a slice with only whitespace cut off either side, and it neither starts nor ends with whitespace. |
| Text.RemoveChar | app/core/security.py:203 | Removing a character leaves none of it and keeps every other character with its multiplicity. |
| Text.DecimalRoundTrip | app/core/config.py:75 | A number written in decimal reads back as the same number. |
| Text.IntToDecimalInjective | app/services/ai_service.py:86 | Different status codes give different texts. |

## Left out

- Network, SDK and browser calls are not modelled: headers, payloads, `temperature`, `max_tokens` and timeout values. Only the outcome of each call is modelled.
- The Playwright and `input()` machinery of the web interface is not modelled; only its manual reply (`ClaudeLlm.ManualSendMessage`) is.
- Logging, printing and `time.time()` elapsed-time measurement are not modelled.
- Loading `Settings` from the environment and `.env` file (pydantic) is not modelled. `AppConfig.Settings` is an input record holding the values it would produce.
- The outer `except` of `get_response` (app/services/ai_service.py:42-44) is not modelled. It cannot be reached: both provider methods catch every exception, and the canned reply cannot raise.
- The outer `except` of `ClaudeCodeLLM.generate_response` (langchain_claude/claude_llm.py:89-92) is not modelled. Every call that can raise sits inside the inner `try`, whose handler catches every exception, so that path cannot be reached.
- The outer `except` of `get_learning_progress` (app/services/learning_service.py:472-482) is not modelled. `get_user_stats` catches its own errors, so that path cannot be reached.
- Database exceptions are modelled only where the source turns them into an answer the core relies on:
  - the duplicate lookup failing closed;
  - the statistics, recent-activity and weekly queries;
  - an insert too long for its column.
  - Other raised queries (login lookup, password update, delete) are not modelled. Their failed `_update_last_login` is not modelled either.
- A login query has no `ORDER BY`. "First row" is taken as storage order; with unique emails the choice does not matter.
- `_format_datetime` (the UTC+9 shift and `YYYY-MM-DD HH:MM` text) is not modelled. Activity times are the minute counts of those stamps, which sort in the same order.
- Progress percentages are `real` rather than binary floating point.
- In `get_weekly_activities`, `DATE()` is computed in the database's time zone and the key strings by `strftime`. Days are day numbers and the rows are taken as given.
- Microseconds in the rate limiter's timestamps are not modelled; times are whole seconds.
- bcrypt's random salt is not modelled. It changes the hash text but not which passwords verify. passlib's refusal of passwords containing a NUL character is not modelled either. JWT tokens, `create_access_token`, `verify_token` and the reset and verification tokens are not modelled.
- `reset_password`, `get_user_by_id`, `get_user_by_email`, `get_grammar_checks`, `get_vocabulary_checks`, `get_chat_history` and the `save_*` inserts are not modelled, except for the descriptions those inserts record.
- `test_connection` of the Solar and OpenAI wrappers, and `get_model_info` of the Solar and Claude wrappers, are not modelled.
- `main.py`, `run_app.py`, `test_environment.py`, `langchain_claude/core.py` and the package `__init__` files are not modelled.
- Auth.Signup: the new row's id is one more than the largest id in the table. A `SERIAL` sequence may skip values, for example after a rolled-back insert. The model fixes one allowed choice, and the lemmas about it rely only on the id being larger than every existing id.
- Validators.ValidatePassword: upper-case, lower-case and digit tests are ASCII. Python's `isupper`, `islower` and `isdigit` also accept non-ASCII letters and digits.
- Validators.ValidateUsername: the alphanumeric test is ASCII. Python's `isalnum` also accepts non-ASCII letters and digits.
- AiService.ProviderReply: for OpenAI, an unreadable 200 body is assumed to raise `requests.exceptions.JSONDecodeError`, as requests 2.27 and later do. It therefore produces the "request error" message. Older versions of requests would give the "unexpected error" message.

## Findings

| source | as written | input that shows it | evidently intended | confidence | as-written member | corrected member |
|---|---|---|---|---|---|---|
| app/core/security.py:107-108 | A request counts while `(now - req_time).seconds < window_seconds`. `.seconds` drops whole days, so a request counts again each day at the same time of day. | `RateLimiter(max_requests=1, window_seconds=3600)` with one request at second 0, asked again at second 86410: refused. | Count only requests younger than the window (`total_seconds()`), so that call is admitted. | high; not executed | RateLimiter.IsAllowed | RateLimiter.IsAllowedCorrected |
