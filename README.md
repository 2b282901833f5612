# Tailored job application: request handling, prompt and stream model

A Dafny model of the deterministic core of a web tool that tailors a job
application. The user uploads a résumé (LaTeX or Markdown), pastes a job
listing or gives its URL, and supplies a Gemini API key. The backend asks the
model for a fit analysis, a cover letter, résumé suggestions and a revised
résumé. It keeps the two generated documents in an in-memory cache for
download. The browser client reads the answer as a stream of `data: ` event
lines.

Modules, one per source file:

- `Common` (common.dfy): the Python and JavaScript string operations the
  source relies on.
  - Python: `str.strip` with Python's `isspace` set, `startswith` /
    `endswith`, `split("\n", 1)` and `rsplit(sep, 1)`.
  - JavaScript: `split("\n")` followed by `pop()`.
  - Tools for reasoning about concatenated text.
- `Schemas` (schemas.dfy, for schemas.py): the response records and the two résumé formats.
- `CvParser` (parser.dfy, for parser.py): format detection from the file name, and
  decoding of the upload.
- `Llm` (llm.dfy, for llm.py): the prompt text assembled for the model, and the clean-up
  of the model's reply, including its `IndexError` path.
- `AnalyzeRouter` (analyze.dfy, for analyze.py): the checks of POST `/api/analyze` and their
  order, the choice of job-listing source, the artifact file names, and the
  `_file_cache` dictionary.
  - `_file_cache` is the class `FileCache`. Its `Analyze` method writes the
    cache and its `Download` method reads it.
- `ApiClient` (client.dfy, for client.ts): `downloadUrl`, and the `analyze` stream reader.
  - The reader is the method `ApiClient.Analyze`. It works chunk by chunk
    over a line buffer.
  - It is proved equal to a specification over the whole stream text. So the
    outcome and the reported stages do not depend on where the chunk
    boundaries fall.

Services the code calls but does not define are parameters, as total
functions:

- the UTF-8 decoder (`errors="replace"`);
- the job-page fetcher, whose `Failure` carries the exception text;
- the four generation steps;
- `JSON.parse`, which yields a `Json` value.

The request time is a string parameter `ts`, already formatted as
`%Y%m%d_%H%M%S`.

## Model

| member | source | states |
|---|---|---|
| Common.Strip | backend/app/services/llm.py:80 | `str.strip()`: the result is the text found right after the leading whitespace; it is empty iff the text is all whitespace; otherwise it neither starts nor ends with whitespace; everything cut off is whitespace |
| Common.StripUnchanged | backend/app/services/llm.py:80 | a text that neither starts nor ends with whitespace is its own strip |
| Common.IndexOf | backend/app/services/llm.py:82 | the first position of a character, or none when it does not occur |
| Common.AfterFirst | backend/app/services/llm.py:82 | `split("\n", 1)[1]`: missing iff there is no newline; otherwise the text after the first newline |
| Common.LastIndexOf | backend/app/services/llm.py:82 | the last occurrence of a separator, or none; no occurrence starts later |
| Common.BeforeLast | backend/app/services/llm.py:82 | `rsplit(sep, 1)[0]`: a prefix of the text; the whole text iff the separator does not occur; otherwise it stops right at the last occurrence |
| Common.Split | frontend/src/api/client.ts:37 | JavaScript `split("\n")`: at least one piece, and no piece contains a newline |
| Common.SplitJoinLines | frontend/src/api/client.ts:37-38 | splitting newline-terminated lines followed by a tail gives back exactly those lines and then the tail |
| Common.JoinSplit | frontend/src/api/client.ts:37-38 | the complete lines plus the popped remainder rebuild the buffer exactly |
| Common.CompleteLinesAfter | frontend/src/api/client.ts:36-38 | lines already terminated stay the first complete lines whatever text is appended, and the remainder only depends on the appended text |
| Schemas.FormatName | backend/app/models/schemas.py:17 | a format travels as "latex" or "markdown" |
| CvParser.DetectCvFormat | backend/app/services/parser.py:4-7 | LaTeX iff the file name ends in ".tex", otherwise Markdown |
| CvParser.DetectCvFormatCaseSensitive | backend/app/services/parser.py:5 | "cv.tex" is LaTeX; "cv.TEX", "cv.tex.md", "cv" and "" are Markdown |
| CvParser.ParseCv | backend/app/services/parser.py:10-13 | the text is the decoding of the bytes; the format is LaTeX iff the name ends in ".tex" |
| CvParser.ParseCvIndependence | backend/app/services/parser.py:10-13 | the format does not depend on the content, and the text does not depend on the name |
| Llm.OrNone | backend/app/services/llm.py:33-39 | `value or "None provided."`: an empty value becomes "None provided.", and a non-empty value is kept |
| Llm.BuildPrompt | backend/app/services/llm.py:27-68 | the prompt opens with the fixed introduction and ends with the fixed "Return ONLY the JSON object" instruction |
| Llm.PromptPlacesInputs | backend/app/services/llm.py:29-39 | the résumé text follows its format heading, and the profile context, the job listing and the extra instructions each appear verbatim between their own heading and the next (an empty context as "None provided.") |
| Llm.PromptProfileSlot | backend/app/services/llm.py:32-33 | the profile context (or "None provided." when empty) appears verbatim between "## Additional Profile Context" and "## Job Listing"; two prompts that differ only in it are equal iff the inserted texts are equal |
| Llm.PromptExtraSlot | backend/app/services/llm.py:38-39 | the extra instructions (or "None provided.") appear verbatim under "## Extra Instructions", followed by the blank line before the key list; two prompts that differ only in them are equal iff the inserted texts are equal |
| Llm.PromptNamesFormat | backend/app/services/llm.py:27-68 | the prompt opens with the fixed introduction, the résumé heading naming the format follows it at once, and both revised-résumé instructions name the format |
| Llm.CleanReply | backend/app/services/llm.py:80-82 | an unfenced reply comes back stripped; a fenced reply fails (IndexError) iff it has no newline; the result is never longer than the stripped reply |
| Llm.FencedReply | backend/app/services/llm.py:81-82 | for a fenced reply: the result is a prefix of the text after the first newline; it is all of that text iff no fence follows; otherwise it ends right before the last fence |
| Llm.CleanReplyIsInfix | backend/app/services/llm.py:80-82 | whatever the clean-up returns occurs contiguously in the original reply |
| Llm.FencedAnswerRoundTrip | backend/app/services/llm.py:80-82 | an answer wrapped in a fence with any single-line info string comes back as the answer plus its final newline |
| AnalyzeRouter.UploadName | backend/app/routers/analyze.py:33 | `filename or "cv.md"`: a present, non-empty name is kept; a missing or empty one becomes "cv.md", so the upload is read as Markdown |
| AnalyzeRouter.ValidateApiKey | backend/app/routers/analyze.py:29-30 | the key is refused with 422 iff it is all whitespace; otherwise the stripped, non-empty key is used (line 45) |
| AnalyzeRouter.ResolveJobListing | backend/app/routers/analyze.py:35-42 | pasted text wins; with neither text nor URL the result is a 422; otherwise the fetched text, or a 422 that carries the fetch error |
| AnalyzeRouter.FetchFailed | backend/app/routers/analyze.py:41-42 | a fetch failure is a 422 whose detail is "Could not fetch job URL: " followed by the error text, which can be read back |
| AnalyzeRouter.CvExtension | backend/app/routers/analyze.py:54 | "tex" for LaTeX and "md" for Markdown: with the dot it is ".tex" exactly for LaTeX |
| AnalyzeRouter.CoverLetterFilename | backend/app/routers/analyze.py:53 | `cover_letter_{ts}.md`: the prefix, the ".md" suffix, and the timestamp readable back between them |
| AnalyzeRouter.RevisedCvFilename | backend/app/routers/analyze.py:55 | `cv_revised_{ts}.{ext}`: the prefix, the format's extension as suffix, and the timestamp readable back between them |
| AnalyzeRouter.FilenamesDistinct | backend/app/routers/analyze.py:53-59 | the cover-letter name and the revised-résumé name of one request never collide |
| AnalyzeRouter.FilenamesInjective | backend/app/routers/analyze.py:53-55 | a cover-letter name determines its timestamp; a revised-résumé name determines both its timestamp and its format |
| AnalyzeRouter.RevisedCvKeepsFormat | backend/app/routers/analyze.py:54-55 | the revised résumé ends in ".tex" iff it is LaTeX, and uploading it again is detected as the same format |
| AnalyzeRouter.Generate | backend/app/routers/analyze.py:47-69 | every step receives the same key; the fit analysis feeds the other three steps; the response holds the cover letter, the suggestions and the revised résumé those steps return (the revision built from those same suggestions), the two artifact names with the request timestamp, and the uploaded format |
| AnalyzeRouter.AnalyzeOutcome | backend/app/routers/analyze.py:29-69 | checks in source order: API key, then job source, then fetch failure, each failing with 422; success exactly when the stripped key is non-empty and there is pasted text or a URL whose fetch succeeds; success means generation from the decoded upload, its format, the pasted or fetched listing and the stripped key |
| AnalyzeRouter.StrippedKeyOnly | backend/app/routers/analyze.py:29-45 | keys that strip to the same text give the same outcome |
| AnalyzeRouter.PastedListingWins | backend/app/routers/analyze.py:35-40 | with pasted text, the fetcher has no influence on the outcome |
| AnalyzeRouter.Stored | backend/app/routers/analyze.py:58-59 | the cache after the two writes: both names are keys, the revised résumé is stored as plain text, so is the cover letter when the names differ, and every other entry is unchanged |
| AnalyzeRouter.StoredEntries | backend/app/routers/analyze.py:58-59 | after success the cache holds both artifacts as plain text under the returned names, and every other entry is untouched |
| AnalyzeRouter.ContentDisposition | backend/app/routers/analyze.py:80 | an attachment header whose quoted file name is the requested name, readable back |
| AnalyzeRouter.Served | backend/app/routers/analyze.py:72-81 | 404 "File not found or expired" iff the name is not cached; otherwise the stored content and media type |
| AnalyzeRouter.DownloadAfterAnalyze | backend/app/routers/analyze.py:58-81 | after a successful request both returned names download the generated text as plain text; other names answer as before |
| AnalyzeRouter.FileCache.constructor | backend/app/routers/analyze.py:17 | the cache starts empty |
| AnalyzeRouter.FileCache.Analyze | backend/app/routers/analyze.py:20-69 | answers `AnalyzeOutcome`; on failure the cache is unchanged; on success it holds exactly the two new entries in addition to the old ones |
| AnalyzeRouter.FileCache.Download | backend/app/routers/analyze.py:72-81 | 404 for an unknown name; otherwise the stored content and media type as an attachment named after the file; the cache is not changed |
| ApiClient.Base | frontend/src/api/client.ts:1 | `VITE_API_URL ?? "http://localhost:8000"`: only a missing setting falls back |
| ApiClient.DownloadUrl | frontend/src/api/client.ts:57-59 | the link starts with the base and the download route, and the file name can be read back after them |
| ApiClient.DownloadUrlInjective | frontend/src/api/client.ts:57-59 | different file names give different links |
| ApiClient.NotOkOutcome | frontend/src/api/client.ts:23-26 | a non-ok response never returns a result; it throws the server's `detail`, the status text when the body is not JSON, or "Unknown error" when a non-null JSON value has no `detail`; a JSON `null` body crashes on the property read |
| ApiClient.Classify | frontend/src/api/client.ts:40-50 | non-"data: " lines are skipped; for a "data: " line, an unparsable or null payload crashes, a primitive is skipped, "stage" reports its `message`, "result" returns the object without its `type`, "error" throws its `detail`, and any other type is skipped; conversely only "data: " lines with those types stop or report |
| ApiClient.Run | frontend/src/api/client.ts:40-51 | the reader stops exactly when some line is terminal; the stages it reports are the stage messages in order, cut at the stop, and all of them when it does not stop |
| ApiClient.StreamOutcome | frontend/src/api/client.ts:32-54 | on a whole stream text, the stages reported are the stage messages of its complete lines in order, possibly cut short; without a terminal line, all of them and "Stream ended without result" |
| ApiClient.Expected | frontend/src/api/client.ts:17-55 | a non-ok response reports no stage and never returns; an ok one reports the stream's stage messages in order, possibly cut short |
| ApiClient.StageMessagesAppend | frontend/src/api/client.ts:40-44 | the stage messages of two batches of lines are those of the first followed by those of the second |
| ApiClient.RunAppend | frontend/src/api/client.ts:32-52 | dispatching two batches means dispatching the first and, unless it stopped, continuing with the second |
| ApiClient.RunStopsAtFirstTerminal | frontend/src/api/client.ts:45-50 | the first terminal event decides the outcome; the stage messages before it have been reported; no later line is looked at |
| ApiClient.TailNeverParsed | frontend/src/api/client.ts:36-38 | text after the last newline is never parsed, so it does not change the outcome |
| ApiClient.StopIsFinal | frontend/src/api/client.ts:45-50 | once the lines read have stopped the reader, nothing later in the stream changes the outcome |
| ApiClient.StreamEnds | frontend/src/api/client.ts:52-54 | a stream that ends without a terminal event throws "Stream ended without result" after reporting every stage |
| ApiClient.DispatchLines | frontend/src/api/client.ts:40-51 | the inner loop reports stages in order and stops at the first terminal event, as the line-by-line reading does |
| ApiClient.Analyze | frontend/src/api/client.ts:17-55 | for every response and every chunking: the stages reported and the way `analyze` ends equal the reading of the whole stream text line by line |

## Left out

- The Gemini call itself (`_client`, `generate_content`, the system prompt, the model name and the token limit) is not modelled. It is a network call. The model covers only the prompt text sent and the clean-up of the reply text.
- `json.loads` on the cleaned reply is not modelled. The clean-up result is the model's endpoint.
- In the client, `JSON.parse` and `res.json()` are the parameter `parse` and the field `errorBody`. Only string-valued members of the parsed objects are tracked.
- A non-string `message`, `detail` or result member is not modelled, for the same reason.
- A JavaScript runtime exception (a parse error, or a property read on `null`) is the outcome `Crashed`, without its message.
- backend/app/services/fetcher.py is not part of this model. Fetching is the function `fetchJobListing`, and any exception it raises is its `Failure` text.
- `datetime.now().strftime(...)` is not modelled. The timestamp is the parameter `ts`.
- UTF-8 decoding with replacement and the browser's `TextDecoder` are not modelled. The server decodes through the total function `decode`, and each client chunk is its already decoded text.
- The four step functions that analyze.py imports (`analyze_fit`, `generate_cover_letter`, `generate_cv_suggestions`, `generate_revised_cv`) are not defined in llm.py. llm.py defines only `analyze_and_generate`. The steps are the uninterpreted fields of `Services`.
- The steps are taken not to raise. An exception from a step (a 500 in the source) is not modelled.
- Pydantic's validation of the suggestion dictionaries (`CvSuggestion(**s)`) is not modelled. The suggestion step returns `CvSuggestion` records directly.
- The client expects a stream of `data: ` events, while the endpoint in analyze.py answers with a single JSON body. Each side is modelled as its own source is written; the two are not connected.
- `res.body` being `null` (the `!` assertion) is not modelled, and neither is the asynchronous scheduling of `await`. Each chunk is one loop iteration.
- The `onStage` callback is the returned sequence of messages it receives, with `None` for an undefined message.
- The cache is never evicted and requests are handled one at a time. The cache is not shared between workers or restarts, and concurrency is not modelled.
- The React components (App.tsx, InputForm.tsx, ResultTabs.tsx), main.py and the CORS setup are not modelled. They are presentation and wiring.
- The remaining fields of the TypeScript `AnalyzeResponse` (`cv_summary`, `fit_analysis`, `reasoning`) are not checked by the client. The model returns the result object's members unchanged.
