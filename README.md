# scriptflow decision logic in Dafny

scriptflow is a Next.js tool for turning Chinese social-media scripts into English ones.
It lets a user import a script, edit it, translate it with Google Gemini, and voice it
with MiniMax text-to-speech. Scripts are stored in a Supabase `scripts` table and audio
in the `scripts-audio` storage bucket. This project models the decision logic inside that
glue and proves what it promises:

- `ai_actions.dfy` (`AiActions`): the Gemini server actions `generateText` and
  `generateTranslation`. Covers model-id defaulting, `retryWithBackoff` (a loop proved
  equal to a recursive specification), the priority-ordered mapping of the final error to
  a user message, the empty-answer rule and the translation prompt.
- `gemini_models.dfy` (`GeminiModels`): the model entry, `DEFAULT_MODEL`, lookup by id
  and the status filter over any list of entries.
- `gemini_catalogue.dfy` (`GeminiCatalogue`): the catalogue itself and the accessors
  `getModelById`, `getStableModels` and `getPreviewModels` over it.
- `env_file.dfy` (`EnvFile`): the `.env.local` line parser `loadEnv` shared by both
  JavaScript setup scripts. It is written as a specification function and as the
  imperative loop that fills the dictionary. Also holds the required-variables guard.
- `setup_admin.dfy` (`SetupAdmin`): `setup-supabase-admin.js`. Covers credentials, the
  table probe, bucket existence and creation, and the final summary.
- `setup_anon.dfy` (`SetupAnon`): `setup-supabase.js`. Covers credentials and the guard.
- `sql_statements.dfy` (`SqlStatements`): the `;` statement splitter used by the admin
  script and the TypeScript setup script.
- `setup_database.dfy` (`SetupDatabase`): the per-statement `exec_sql` loop of
  `setup-supabase.ts`. That script's `main` never calls `setupDatabase`, so the loop is
  dead code when the script runs.
- `n8n_insert.dfy` (`N8nInsert`): the n8n Code node that maps, validates and POSTs
  incoming items, with one result per item.
- `dashboard.dfy` (`Dashboard`): the dashboard's row-fetch fallback, the platform badge
  and the status badge.
- `audio.dfy` (`Audio`): `generateAudio`. Covers the storage path, the order of the
  speech, upload and update steps, and the single error it surfaces.
- `scripts.dfy` (`Scripts`): the shared `Script` row and its status enum.
- `text.dfy` (`Text`), `seqs.dfy` (`Seqs`), `wrappers.dfy` (`Wrappers`): JavaScript string
  operations (`trim`, `split`, `join`, `includes`, `startsWith`, `endsWith`, decimal
  rendering), the order-preserving subsequence relation with the proof that a filter's result is determined by what it keeps, and `Option`/`Result`.

Every remote call is a parameter holding its outcome. This covers Gemini,
MiniMax, Supabase queries and storage, `exec_sql`, and the n8n HTTP request. An outcome
is indexed by attempt, statement or item number where a loop makes several calls. Waits
are recorded as delays, and the clock reading is a parameter. File contents are
parameters; `None` stands for a read that throws.

The two `loadEnv` functions (`setup-supabase-admin.js:12-33` and
`setup-supabase.js:11-32`) are the same code. Both are modelled by the single method
`EnvFile.LoadEnv`, so both scripts parse every input the same way.

## Model

| member | source | states |
|---|---|---|
| AiActions.IsNetworkError | app/actions/ai.ts:28-31 | definition: the message mentions `fetch failed` or `network`, or the cause code is ECONNREFUSED or ETIMEDOUT; properties in RetryFrom, NonNetworkErrorNotRetried and ClassifyPriority |
| AiActions.Retry | app/actions/ai.ts:18-43 | definition: the run from iteration 0; properties in RetryFrom and the lemmas below |
| AiActions.Detail | app/actions/ai.ts:99 | definition: the message, else the error's string form, else "Unknown error occurred"; properties in GenericWithoutMarkers |
| AiActions.Classify | app/actions/ai.ts:81-97 | definition: the tests in source order; properties in ClassifyPriority and MessageNamesClass |
| AiActions.UserMessage | app/actions/ai.ts:81-100 | definition: one fixed message per class; properties in MessageNamesClass, ForbiddenIsAuthFailureWithoutRetry and GenericWithoutMarkers |
| AiActions.TranslationPrompt | app/actions/ai.ts:112 | definition; properties in TranslationPromptRoundTrip |
| AiActions.GetModelName | app/actions/ai.ts:13-16 | the supplied model id when it is present and non-empty, otherwise `DEFAULT_MODEL` (also for `""`); the name is never empty |
| AiActions.RetryFrom | app/actions/ai.ts:23-42 | from iteration i: no call and "Max retries exceeded" when i >= maxRetries; otherwise 1..maxRetries-i calls and one wait fewer than calls; the k-th wait is the k-th doubling of the delay; every call but the last threw a network error; the last call's value or error is the outcome, and that call returned, threw a non-network error, or was the last allowed one |
| AiActions.RetryWithBackoff | app/actions/ai.ts:18-43 | the loop's result, waits and call count are exactly those of the recursive specification `Retry` |
| AiActions.Backoff | app/actions/ai.ts:37-39 | definition: the delay doubled k times; properties in BackoffIsPower and TotalWait |
| AiActions.BackoffIsPower | app/actions/ai.ts:37-39 | the k-th wait is delay·2^k |
| AiActions.TotalWait | app/actions/ai.ts:37-39 | n waits add up to delay·2^n - delay |
| AiActions.NoAttemptsAllowed | app/actions/ai.ts:23-42 | with maxRetries <= 0 the function is never called and the run fails with "Max retries exceeded" |
| AiActions.FirstSuccessReturned | app/actions/ai.ts:24-25 | a first call that returns ends the run: its value, no wait, one call |
| AiActions.NonNetworkErrorNotRetried | app/actions/ai.ts:26-35 | after network failures, a non-network error at call j is rethrown unchanged after exactly j+1 calls |
| AiActions.NetworkErrorOnLastAttempt | app/actions/ai.ts:27-34 | when every call throws a network error, the last error is rethrown after maxRetries calls and maxRetries-1 waits |
| AiActions.TwoNetworkFailuresThenSuccess | app/actions/ai.ts:18-43 | with the defaults, two network failures then an answer give that answer after waits [1000, 2000] and three calls |
| AiActions.ClassifyPriority | app/actions/ai.ts:81-100 | network errors come first; a non-network message naming 404 is model-not-found even when it also names 403; an auth failure names neither 404 nor MODEL_NOT_FOUND; the generic message is "Failed to generate text: " + detail |
| AiActions.MessageNamesClass | app/actions/ai.ts:81-100 | the four user messages are distinguishable: the error class can be read back from the message for every model name and detail |
| AiActions.ForbiddenIsAuthFailureWithoutRetry | app/actions/ai.ts:94-96 | a first-call error naming 403 but not 404 or MODEL_NOT_FOUND, and not a network error, ends the run at once and is reported as the invalid-API-key message |
| AiActions.GenericWithoutMarkers | app/actions/ai.ts:98-100 | a message without any marker is a generic failure carrying the message after the operation's prefix |
| AiActions.EmptyAnswerError | app/actions/ai.ts:63-65 | definition: "No text generated from Gemini API response", or "No translation …" (ai.ts:124-126); properties in EmptyAnswerClass and EmptyAnswerIsGenericFailure |
| AiActions.FailurePrefix | app/actions/ai.ts:100 | definition: "Failed to generate text: ", or "Failed to generate translation: " (ai.ts:161); properties in GenericWithoutMarkers and EmptyAnswerIsGenericFailure |
| AiActions.EmptyAnswerClass | app/actions/ai.ts:61-64 | the empty-answer error is classified as generic for both actions |
| AiActions.EmptyAnswerIsGenericFailure | app/actions/ai.ts:61-65 | an empty answer is never returned; it becomes "Failed to generate …: No … generated from Gemini API response" |
| AiActions.Settle | app/actions/ai.ts:61-100 | a non-empty answer is returned unchanged; an empty answer becomes an error; a thrown error becomes the user message for that error; a success is always a non-empty text that is exactly the API's answer |
| AiActions.TranslationPromptRoundTrip | app/actions/ai.ts:112 | the prompt is the fixed instruction, a blank line, then the text, which can be read back from it |
| AiActions.Generate | app/actions/ai.ts:45-102 | the request uses the resolved model and the prompt; the result is the retry run with 3 attempts and 1000 ms, settled; a success is non-empty; at most two waits |
| AiActions.GenerateText | app/actions/ai.ts:45-102 | `generateText` sends the prompt unchanged and reports with the "Failed to generate text: " prefix; a success is non-empty; the waits are those of the 3-attempt, 1000 ms retry run |
| AiActions.GenerateTranslation | app/actions/ai.ts:104-163 | `generateTranslation` sends the translation prompt and reports with the "Failed to generate translation: " prefix; a success is non-empty; the waits are those of the 3-attempt, 1000 ms retry run |
| GeminiModels.Find | lib/gemini-models.ts:97-99 | `find` yields none exactly when no entry has the id, and otherwise the first entry with that id |
| GeminiModels.WithStatus | lib/gemini-models.ts:101-107 | `filter` keeps exactly the entries with the status, in catalogue order, every copy of each and nothing else |
| GeminiModels.WithStatusUnique | lib/gemini-models.ts:101-107 | the contract of WithStatus determines its result: any order-keeping selection of the entries holding exactly the matching copies equals it |
| GeminiCatalogue.GetModelById | lib/gemini-models.ts:97-99 | definition: `Find` on the catalogue; properties in GeminiModels.Find, GetModelByIdOfEntry and DefaultModelIsStable |
| GeminiCatalogue.GetStableModels | lib/gemini-models.ts:101-103 | exactly the stable catalogue entries, in catalogue order |
| GeminiCatalogue.GetPreviewModels | lib/gemini-models.ts:105-107 | exactly the preview catalogue entries, in catalogue order |
| GeminiCatalogue.CatalogueIdsDistinct | lib/gemini-models.ts:21-93 | the catalogue's ids are pairwise distinct |
| GeminiModels.FindOwnId | lib/gemini-models.ts:97-99 | with distinct ids, looking up an entry's own id finds that entry |
| GeminiCatalogue.GetModelByIdOfEntry | lib/gemini-models.ts:97-99 | `getModelById(m.id)` is m for every catalogue entry |
| GeminiCatalogue.DefaultModelIsStable | lib/gemini-models.ts:95 | `DEFAULT_MODEL` is in the catalogue, its entry is stable and it is among the stable models |
| GeminiCatalogue.StableAndPreviewDisjoint | lib/gemini-models.ts:101-107 | no model is both stable and preview; both lists are subsequences of the catalogue |
| EnvFile.ParseLine | setup-supabase-admin.js:23-28 | definition: one line's assignment, if any; properties in ParseLineMeaning and ParsedLineShape |
| EnvFile.ParseEnv | setup-supabase-admin.js:12-33 | definition: the assignments of the `\n`-separated lines applied in order; properties in EnvKeys, LastAssignmentWins, EnvEntriesTrimmed and LoadEnv |
| EnvFile.ParseLineMeaning | setup-supabase-admin.js:23-28 | blank, whitespace-only and `#` lines, lines without `=` and lines starting with `=` assign nothing; otherwise the key is the trimmed text before the first `=` and the value the trimmed rest, later `=` included |
| EnvFile.ParsedLineShape | setup-supabase-admin.js:25-27 | an assigned key is non-empty, trimmed and free of `=`; the value is trimmed |
| EnvFile.EnvKeys | setup-supabase-admin.js:22-30 | a key is defined exactly when some line assigns it |
| EnvFile.LastAssignmentWins | setup-supabase-admin.js:27 | the value of a key is the one on the last line that assigns it |
| EnvFile.EnvEntriesTrimmed | setup-supabase-admin.js:27 | every stored key is non-empty and trimmed, and every stored value is trimmed |
| EnvFile.LoadEnv | setup-supabase-admin.js:12-33 | the `forEach` loop that writes into `env` computes exactly the line-by-line specification `ParseEnv` |
| EnvFile.ValueFromLastLine | setup-supabase.js:21-29 | a file's value for a key is the one given by the last line assigning it |
| EnvFile.RequireVars | setup-supabase.js:38-41 | the script goes on exactly when both variables are present with non-empty values, and then uses those values |
| SetupAdmin.LoadConfig | setup-supabase-admin.js:35-48 | credentials exist exactly when the file gives the URL and the service-role key non-empty values, and they are those values |
| SetupAdmin.CreateTable | setup-supabase-admin.js:79-125 | the table step succeeds exactly when the SQL file was read and the probe query reported no error; a PGRST116 error is "table missing"; a read failure or thrown probe fails the step |
| SetupAdmin.AnyNamed | setup-supabase-admin.js:139 | `some` holds exactly when some listed name equals the one sought |
| SetupAdmin.BucketExists | setup-supabase-admin.js:139 | the bucket exists exactly when the list is non-null and holds `scripts-audio` |
| SetupAdmin.CreateStorageBucket | setup-supabase-admin.js:127-164 | a create request is made exactly when listing worked and found no `scripts-audio`, and it asks for a public bucket for audio/mpeg and audio/mp3 up to 10485760 bytes; the step succeeds exactly when listing worked and the bucket was found or created |
| SetupAdmin.Setup | setup-supabase-admin.js:166-181 | the table is reported created exactly when the SQL file was read and the probe answered; the bucket exactly when listing worked and it existed or was created; completion exactly when the SQL file was read, the table answered, listing worked and `scripts-audio` was listed or created |
| SetupAdmin.CompleteExactly | setup-supabase-admin.js:176-180 | completion is announced exactly when the SQL file was read, the table answered, the buckets were listed, and the audio bucket was listed or created |
| SetupAnon.LoadConfig | setup-supabase.js:34-41 | the script proceeds exactly when the file gives `NEXT_PUBLIC_SUPABASE_URL` and `NEXT_PUBLIC_SUPABASE_ANON_KEY` non-empty values, and uses those values |
| SetupAnon.ProceedsOnLastAssignments | setup-supabase.js:21-41 | when the last lines assigning the two variables give non-empty values, the guard passes with exactly those values |
| SqlStatements.TrimAll | setup-supabase-admin.js:90 | one chunk per input chunk, the k-th being the k-th chunk trimmed |
| SqlStatements.IsStatement | setup-supabase-admin.js:91 | definition: non-empty and not starting with `--`; properties in KeepStatements and StatementShape |
| SqlStatements.KeepStatements | setup-supabase-admin.js:91 | keeps exactly the non-empty chunks not starting with `--`, in their order, every copy of each and nothing else |
| SqlStatements.KeepStatementsUnique | setup-supabase-admin.js:91 | the contract of KeepStatements determines its result: any order-keeping selection of the chunks holding exactly the statements' copies equals it |
| SqlStatements.SplitStatements | setup-supabase.ts:34-37 | the statements are a subsequence of the trimmed `;`-chunks, so source order is kept |
| SqlStatements.StatementShape | setup-supabase-admin.js:88-91 | every statement is non-empty, trimmed, free of `;` and does not start with `--`; every trimmed chunk passing the filter is a statement |
| SqlStatements.CommentChunkDropped | setup-supabase-admin.js:91 | a chunk starting with `--` is dropped whole, even if a statement follows the comment line inside it |
| SetupDatabase.RunFrom | setup-supabase.ts:40-50 | the requests from statement k on start with executing statement k |
| SetupDatabase.ExecuteAll | setup-supabase.ts:40-50 | the loop makes exactly the requests of `RunFrom`; its length check never fails because no statement is empty |
| SetupDatabase.RunSetupDatabase | setup-supabase.ts:26-61 | with no SQL file nothing is requested and setup is not complete; otherwise the requests are those for the split statements, and setup completes exactly when nothing threw |
| SetupDatabase.EveryStatementOnce | setup-supabase.ts:40-50 | when neither `exec_sql` nor a probe after a reported error throws, every statement is executed exactly once, in order, whether or not earlier ones reported errors |
| SetupDatabase.ThrowStops | setup-supabase.ts:29-60 | the first step that throws, whether `exec_sql` or the probe after a reported error, ends the loop: exactly the statements up to that step's were sent, and setup does not complete |
| Scripts.StatusName | types/index.ts:11 | definition: the stored text of each status; properties in ParseStatus and ParseStatusName |
| Scripts.ParseStatus | types/index.ts:11 | a recognised status text reads back as the status whose stored text it is |
| Scripts.ParseStatusName | types/index.ts:11 | every status's stored text reads back as that status |
| N8nInsert.FirstTruthy | n8n-script-insert.js:24-30 | definition: the `||` chain over the item's fields; properties in FirstTruthyMeaning and TruthyFallback |
| N8nInsert.FirstTruthyMeaning | n8n-script-insert.js:24-30 | a fallback chain yields the first truthy candidate, or the final default when none is truthy |
| N8nInsert.TruthyFallback | n8n-script-insert.js:24 | a chain ending in a truthy default is always truthy |
| N8nInsert.TitleAlwaysTruthy | n8n-script-insert.js:24-36 | the mapped title is always truthy, so validation never fails on it |
| N8nInsert.SourceUrlFallback | n8n-script-insert.js:27 | `source_url` is the first truthy of `source_url`, `url`, `link`, and `null` when none is |
| N8nInsert.StatusOf | n8n-script-insert.js:31 | a status text that is one of new/editing/done is kept, anything else gives `new` |
| N8nInsert.TagPieces | n8n-script-insert.js:32 | a tag string gives one more piece than it has commas, each trimmed and comma-free |
| Text.SplitJoin | n8n-script-insert.js:32 | splitting the join of separator-free pieces gives the pieces back |
| Text.SplitUnique | n8n-script-insert.js:32 | the pieces of a split are the only separator-free pieces that join back into the string |
| N8nInsert.TagPiecesContents | n8n-script-insert.js:32 | the tags are the pieces between the commas, trimmed one by one: there are comma-free pieces that join back with `,` into the whole string, and tag i is piece i trimmed |
| N8nInsert.TagsOf | n8n-script-insert.js:32 | an array passes through unchanged, a non-empty string is split on `,` and trimmed, a falsy value gives `[]`, and any other truthy value throws |
| N8nInsert.MapItem | n8n-script-insert.js:23-33 | mapping an item throws exactly when its `tags` is truthy and neither an array nor a string |
| N8nInsert.ErrorMessage | n8n-script-insert.js:78-87 | with a response: body `message`, else `error_description`, else "HTTP error", and the body as details; without one: `error.message`, else "Unknown error", and null details; the message is always truthy |
| N8nInsert.ItemResultOf | n8n-script-insert.js:36-97 | an item fails validation exactly when title, raw_text or content_cn_draft is falsy, and the result records which are present; a valid item fails exactly when its request throws, and then reports the error message and details of ErrorMessage with the mapped record as `attemptedData`; an insert carries the response and its `id`, `title`, `status` and `created_at` |
| N8nInsert.HasRequiredFields | n8n-script-insert.js:36 | definition: title, raw_text and content_cn_draft all truthy; properties in ItemResultOf and TitleAlwaysTruthy |
| N8nInsert.HandleItem | n8n-script-insert.js:36-97 | the loop body pushes the result of ItemResultOf, and sends the request exactly when title, raw_text and content_cn_draft are all truthy |
| N8nInsert.Sent | n8n-script-insert.js:36-64 | only records passing validation are sent, and no more are sent than there are records |
| N8nInsert.SentSelection | n8n-script-insert.js:36-64 | the records sent are exactly the valid records: in input order, every copy of each and nothing else |
| N8nInsert.SentUnique | n8n-script-insert.js:36-64 | the facts of SentSelection determine what is sent: any order-keeping selection of the records holding exactly the valid copies equals it |
| N8nInsert.RunNode | n8n-script-insert.js:15-100 | when every item maps, there is exactly one result per item, in input order, and exactly the valid records are sent; otherwise the node fails at the first item whose mapping throws, having sent the valid records before it |
| Dashboard.GetScripts | app/page.tsx:9-36 | the fetched rows when the query returned data, and the empty list on an error, an exception or null data |
| Dashboard.GetPlatformBadge | app/page.tsx:38-48 | a null or empty source URL has no badge |
| Dashboard.PlatformBadgeChoice | app/page.tsx:38-48 | a badge is shown exactly for URLs mentioning xiaohongshu or douyin; the 小红书 badge exactly when the URL mentions xiaohongshu, even with douyin; the 抖音 badge exactly when it mentions douyin but not xiaohongshu |
| Dashboard.GetStatusBadge | app/page.tsx:50-67 | every status has a non-empty label and class |
| Dashboard.StatusBadgesDistinct | app/page.tsx:50-67 | different statuses have different labels and different classes |
| Audio.FileName | app/actions/audio.ts:49 | definition: script id, `_`, decimal timestamp, `.mp3`; properties in StoragePathShape and StoragePathInjective |
| Audio.StoragePath | app/actions/audio.ts:50 | definition: `public/` then the file name; properties in StoragePathShape and StoragePathInjective |
| Audio.StoragePathShape | app/actions/audio.ts:47-50 | the path starts with `public/`, ends with `.mp3`, and contains the script id and the decimal timestamp |
| Audio.StoragePathInjective | app/actions/audio.ts:47-50 | for one script, different timestamps give different paths |
| Audio.SetAudioUrl | app/actions/audio.ts:72-76 | only the rows whose id is the script id change, and only in `audio_url` |
| Audio.GenerateAudio | app/actions/audio.ts:22-88 | speech is always requested first. Upload happens only after a good speech response, with upsert=false and audio/mpeg. The row update follows only a successful upload. The public URL is returned exactly when all three steps succeed, and every failure gives "Failed to generate audio. Please try again.". The table changes only on success, and only `audio_url` of that script |

## Left out

- Reading files, `existsSync`, console output and `process.exit` are not modelled. File contents are parameters; a failed guard is `None`.
- `executeSQL` in `setup-supabase-admin.js:58-77` is never called, so it is not modelled.
- `createTable` splits the SQL file but never executes the statements. The model keeps only the file read and the probe that decide its result.
- Verification steps that only log are not modelled:
  - `setup` in `setup-supabase.js:45-95`;
  - `setupStorage`, `verifySetup` and `main` in `setup-supabase.ts:63-151`.
- `main` in `setup-supabase.ts:128-151` prints instructions and calls only `verifySetup`. `setupDatabase` and `setupStorage` are never called when the script runs. SetupDatabase models `setupDatabase` as the code defines it, for a caller that would invoke it.
- The required-variables guard of `setup-supabase.ts:13-22` reads `process.env` through the `dotenv` library, whose parser is not part of this model.
- EnvFile.LoadEnv: the source ignores a `__proto__` line, because the `__proto__` setter of a plain JavaScript object discards a string value. The model stores it as an ordinary key.
- AiActions.RetryWithBackoff: `setTimeout` is replaced by recording each delay. `maxRetries` and `delay` are integers, not JavaScript numbers.
- Thrown errors in the AI actions: a thrown value is reduced to its message, its cause code and its `toString()`. An empty string stands for an absent property.
- The Gemini client, the MiniMax request body and the Supabase clients are not modelled. This includes the module-level credential checks of `app/actions/audio.ts:5-20`.
- The debug `console.error` objects in the AI actions are not modelled.
- Audio.GenerateAudio: a `fetch` or `arrayBuffer` that throws is folded into `speechOk = false`, since it leads to the same failure. The audio bytes and the voice request's group id are not modelled. An update that reports an error is taken to have changed nothing.
- N8nInsert: several JavaScript details are outside the model:
  - numbers are integers, with no NaN or fractions;
  - `item.json`, a thrown error and a response are taken to be objects;
  - property reads on strings and arrays (for example `length`) give `undefined`;
  - a `null` response would make `response.id` throw inside the `try`, and that is not modelled.
- N8nInsert: the `$env` configuration, the request URL and the headers (`n8n-script-insert.js:11-12,54-64`) are not modelled.
- Dashboard: sorting by `created_at` is done by the database, and the model does not capture it.
- Dashboard: `formatDate`, the JSX, the settings page, the test pages, the editor and its autosave, and `lib/supabase/client.ts` are not part of this model.
- SetupDatabase: the outcome of each `exec_sql` call and probe is indexed by the statement's position, not by its text.
