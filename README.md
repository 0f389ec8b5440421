# Project analyzer, modelled in Dafny

`project_analyzer.py` walks a source tree. For every directory it collects
the direct-child files with a known source extension and bundles their
texts. It sends the bundle to a language model behind an HTTP API,
truncated with a limit of 8000: a longer bundle is cut to its first and last
4000 characters around a 15-character marker. It checks that the analysis that comes back
looks like a report: at least 100 characters once stripped, and holding
five fixed section headers. It then writes that report into the directory
and retries when the check fails.

This project models the decision logic of that script and proves what it
does. The modules follow the script's parts:

- `Config`: the constants.
- `Strings`: the Python string behaviour the script relies on: `in`, `strip()`, `lower()`, `join` and f-string decimals.
- `Truncation`: `truncate_content`.
- `Validation`: `verify_markdown`.
- `Paths`: `should_analyze_file` and `should_skip_directory`, with POSIX `splitext`, `basename` and `join`.
- `Client`: the retry policy of `analyze_with_claude`.
- `Directory`: `analyze_single_directory`.
- `Orchestrator`: the directory collection of `process_all_directories`.

The I/O is replaced by inputs:

- **The network:** each client call gets a script: the outcome of its first request, its second, and so on, counted over the whole call with its recursive retries. An outcome is one of:
  - a reply, with its status, its body, and what reading `choices[0].message.content` yields: a string, an array or object, a value without a length (null, a number or a boolean), or the message of a parse error;
  - an `aiohttp.ClientError`;
  - any other exception.
- **The file system:** a directory listing is a sequence of entries, each with a name, whether it is a regular file, and the text `get_file_content` returns.
- **The walk:** `os.walk` is the sequence of directories it visits.
- **Sleeps:** they are recorded as values, in order.

The recursive client becomes the specification function `Client.ClientFrom`. The method `Client.AnalyzeWithClaude` is a loop proved equal to it. The retry of a 429 (line 142) is made inside the `try`, so an exception of that retry is caught by the 429's own generic handler, which sleeps again and calls once more (lines 155-161). The model therefore keeps the 429 calls still waiting on their retry as an explicit stack (`Client.Waiting`). A call is bounded by 32 requests rather than `MAX_RETRIES + 1` (`Client.RequestBudget`), and the script in "## Findings" makes 7. `analyze_single_directory` and `process_all_directories` keep their loops as methods. Each method is proved equal to a specification function: `Directory.DirectorySpec`, `Directory.ValidateFrom` and `Orchestrator.KeptDirs`. The properties are lemmas about those functions.

A client call ends with an answer or with an exception (`Client.Outcome`). A directory's run ends as `Aborted` when an exception leaves it, and the whole run ends with an exception when any directory's run aborts (`Orchestrator.Aborts`).

The lemmas about the directory loop take the report validator as a parameter, so they hold for any validator. The pipeline itself fixes the validator to `VerifyMarkdown`.

Behaviour of the code that a reader might not expect:

- **A malformed 200 is retried.** A parse failure might be expected to be final, but the code re-raises it into the generic exception handler, so the client retries it like a transient error.
- **A content that is not a string can end the whole run.** Line 127 rebinds the parameter `content` to the value found in the body. When that value has no length, `len` raises at line 128 and the generic handler retries, with `content` now naming that value. The retried call then raises in `truncate_content` at line 57, which lies outside the `try`. The exception leaves `analyze_single_directory` and `gather`, so the run ends with it (`Client.UnsizedContentRaises`, `Directory.UnsizedContentAborts`, `Orchestrator.UnsizedContentAbortsRun`). On the last attempt the handler returns its give-up message instead (`Client.UnsizedAtLastAttempt`).
- **An array or object is returned as the analysis.** A non-empty one makes `verify_markdown` raise on `.strip()`, which aborts the directory the same way (`Directory.StructuredContentAborts`). An empty one fails `not content` and is retried like a rejected report (`Directory.EmptyStructuredRetried`).
- **Truncation is idempotent.** Truncating twice equals truncating once whenever the limit is at least 2 (`Truncation.TruncateIdempotent`). Only at the `content[-0:]` quirk, with a limit below 2, does every pass prepend another marker.
- **An error can be written as a report.** The client returns its error messages as ordinary strings. An error status whose body looks like a report therefore yields a message that passes validation, and that message is written as the directory's report (`Directory.ErrorBodyWrittenAsReport`).

## Model

| member | source | states |
|---|---|---|
| Strings.StripLeftFacts | project_analyzer.py:176 | `lstrip()` drops exactly the leading white space: the result is a suffix, everything dropped is white space, and the result does not start with white space |
| Strings.StripRightFacts | project_analyzer.py:176 | `rstrip()` drops exactly the trailing white space: the result is a prefix, everything dropped is white space, and the result does not end with white space |
| Strings.StripWindow | project_analyzer.py:176 | `strip()` is a window of the text that begins and ends on non-space characters, with only white space outside it |
| Strings.StripOfInfix | project_analyzer.py:176 | surrounding a text with more text never shortens its stripped length |
| Strings.ContainsIffOccurs | project_analyzer.py:185 | the substring test holds exactly when the needle occurs at some index |
| Strings.ContainsItself | project_analyzer.py:185 | a text contains itself |
| Strings.ContainsInInfix | project_analyzer.py:185 | a substring of `c` is a substring of `a + c + b` |
| Strings.ContainsAppend | project_analyzer.py:185 | a substring of `c` is a substring of `c + b` |
| Strings.ContainsPrepend | project_analyzer.py:185 | a substring of `c` is a substring of `a + c` |
| Strings.LowerSlice | project_analyzer.py:166 | lower-casing commutes with slicing |
| Strings.JoinContainsPart | project_analyzer.py:215 | every part occurs verbatim in the joined string |
| Strings.Decimal | project_analyzer.py:146 | the decimal form of a status code is non-empty and has no leading zero |
| Strings.DecimalRoundTrip | project_analyzer.py:146 | the decimal form is all digits and reads back as the number |
| Truncation.TruncateContent | project_analyzer.py:55-62 | for a limit of at least 2, a text longer than the limit becomes exactly `2 * (limit / 2)` characters plus the marker |
| Truncation.TruncateShortIsIdentity | project_analyzer.py:57-58 | a text within the limit is returned unchanged |
| Truncation.TruncateLongShape | project_analyzer.py:60-62 | a longer text becomes its first half-limit characters, the marker, then its last half-limit characters |
| Truncation.TruncateExceedsLimit | project_analyzer.py:55-62 | a truncated text is longer than the limit itself |
| Truncation.TruncateAtAnalyzerLimit | project_analyzer.py:55-62 | with the analyzer's limit of 8000 a longer text becomes exactly 8015 characters |
| Truncation.TruncateIdempotent | project_analyzer.py:55-62 | with a limit of at least 2, truncating twice equals truncating once |
| Truncation.TruncateQuirkKeepsEverything | project_analyzer.py:61-62 | with a limit below 2, `content[-0:]` keeps the whole text behind the marker |
| Truncation.TruncateQuirkNotIdempotent | project_analyzer.py:61-62 | with a limit below 2, a second truncation differs from the first |
| Validation.VerifyMarkdownIff | project_analyzer.py:174-185 | a report is accepted iff its stripped length is at least 100 and all five headers occur in the unstripped text |
| Validation.MissingSectionRejected | project_analyzer.py:180-185 | a report missing any one header is rejected |
| Validation.VerifyMarkdownMonotone | project_analyzer.py:174-185 | adding text before or after an accepted report keeps it accepted |
| Validation.HeadersAloneRejected | project_analyzer.py:176 | the five headers on their own are too short to be accepted |
| Validation.BlankRejected | project_analyzer.py:176 | text made only of white space is rejected, however long |
| Validation.SectionHasHeader | project_analyzer.py:185 | a `# header` section contains its header |
| Validation.ReportHasSection | project_analyzer.py:180-185 | each required header occurs in a five-section report |
| Validation.ReportHasAllSections | project_analyzer.py:180-185 | a five-section report holds every required header |
| Validation.ReportAccepted | project_analyzer.py:174-185 | a five-section report with at least 65 characters of text that ends on a non-space character is accepted |
| Validation.SampleReportAccepted | project_analyzer.py:174-185 | a concrete 130-character five-section report is accepted |
| Paths.RFind | project_analyzer.py:166-171 | `rfind` returns -1 or an index of the text |
| Paths.RFindFacts | project_analyzer.py:166-171 | `rfind` finds the character at its result and nowhere after it |
| Paths.RFindUnique | project_analyzer.py:166-171 | those two facts determine the result of `rfind` |
| Paths.RFindConcat | project_analyzer.py:166-171 | the last occurrence in `a + b` is in `b` when `b` has one, else it is the last one in `a` |
| Paths.SplitExtParts | project_analyzer.py:166 | `splitext` loses nothing, and the extension is empty or a dot followed by neither dots nor separators |
| Paths.RFindLower | project_analyzer.py:166 | lower-casing leaves every dot and separator where it was |
| Paths.SplitAtLower | project_analyzer.py:166 | once the last separator and dot are found, splitting off the extension commutes with lower-casing |
| Paths.AllDotsLower | project_analyzer.py:166 | lower-casing neither makes nor breaks a run of dots, so the hidden-file rule is case-blind |
| Paths.ExtensionOfLower | project_analyzer.py:166 | taking the extension commutes with lower-casing |
| Paths.ShouldAnalyzeIgnoresCase | project_analyzer.py:164-167 | two paths equal up to ASCII case get the same file verdict |
| Paths.LowerIdempotent | project_analyzer.py:166 | lower-casing twice equals lower-casing once |
| Paths.ExtensionAfterSeparator | project_analyzer.py:166 | a directory prefix ending in a separator does not change a name's extension |
| Paths.ShouldAnalyzeJoined | project_analyzer.py:198-200 | a listed name joined to its directory gets the same verdict as the name alone |
| Paths.ShouldSkipJoined | project_analyzer.py:169-172 | the skip test of a joined path looks at the last component only |
| Paths.ShouldAnalyzeAcceptsExamples | project_analyzer.py:164-167 | `src/main.py` and `README.MD` are analysed |
| Paths.ShouldAnalyzeRejectsHiddenFile | project_analyzer.py:164-167 | `src/.py` has no extension and is not analysed |
| Paths.ShouldAnalyzeRejectsNoExtension | project_analyzer.py:164-167 | `Makefile` has no extension and is not analysed |
| Paths.ShouldSkipExamples | project_analyzer.py:169-172 | `x/venv` is skipped; `x/venv/lib` and `x/venv/` are not |
| Paths.MainPyAnalyzed | project_analyzer.py:164-167 | `main.py` is analysed |
| Paths.LogoPngNotAnalyzed | project_analyzer.py:164-167 | `logo.png` is not analysed |
| Paths.ProjNotSkipped | project_analyzer.py:169-172 | a directory named `proj` is not skipped |
| Client.RequestBudget | project_analyzer.py:137-161 | the request bound of a call from retry count `r` doubles with every retry left, and is never below the `MAX_RETRIES + 1 - r` requests of a plain retry chain |
| Client.RequestBudgetAtStart | project_analyzer.py:20 | a whole client call may make 32 requests |
| Client.RunFrom | project_analyzer.py:113-162 | the rest of a call, with the waiting 429 calls, makes at least one request |
| Client.Unfold | project_analyzer.py:113-162 | one request either ends the call with its outcome and sleeps, or sleeps and hands on to the next request with the next retry count and waiting calls |
| Client.DecideShrinks | project_analyzer.py:137-161 | every retry leaves less room for further requests, so every call ends |
| Client.RunWithinRoom | project_analyzer.py:113-162 | the rest of a call makes between 1 and its room of requests, and fewer when it raises |
| Client.ClientFrom | project_analyzer.py:64-162 | a client call from retry count `r` makes between 1 and `2 ^ (MAX_RETRIES - r)` requests, and raises only with budget left and after fewer |
| Client.AnalyzeWithClaude | project_analyzer.py:64-162 | the loop returns the outcome, request count and delays of the recursive client, and a prompt built from the content truncated with a limit of 8000: the whole content when it fits, otherwise its first and last 4000 characters around a 15-character marker |
| Client.TransientIffRetried | project_analyzer.py:124-162 | an attempt is retried with its content unchanged iff it is a 429, a malformed 200 or an exception; the 429s are exactly the retries made inside the `try` |
| Client.RebindsIffRetryRaises | project_analyzer.py:124-161 | an attempt is retried with `content` rebound iff it is a 200 whose content has no length |
| Client.DoneIffSettled | project_analyzer.py:124-162 | an attempt ends the call iff it is neither transient nor a content without a length |
| Client.SettledEndsCall | project_analyzer.py:124-162 | a settling attempt, or any attempt without budget left, ends the whole call after one request, through every waiting call |
| Client.OtherStatusNotRetried | project_analyzer.py:145-146 | any other status ends the call after one request, without sleeping, with an error naming the status and the body |
| Client.SuccessReturnsContent | project_analyzer.py:124-129 | a well-formed 200 returns its content unchanged after one request |
| Client.StructuredReturned | project_analyzer.py:124-129 | a 200 whose content is an array or object returns that value as it is after one request |
| Client.MalformedIsRetried | project_analyzer.py:130-161 | a malformed 200 with budget left is retried from the handler: one request and one delay, then the next call below the same waiting calls |
| Client.RateLimitedWaits | project_analyzer.py:137-142 | a 429 with budget left sleeps its backoff and makes the next call inside its `try`, waiting on it |
| Client.TransientStep | project_analyzer.py:137-161 | a transient attempt with budget left is retried at the next count, below the 429 call when it was a 429 |
| Client.RebindRaises | project_analyzer.py:55-161 | a content without a length, with budget left, sleeps its backoff and the retry raises; the exception goes to the innermost waiting call |
| Client.RebindCaught | project_analyzer.py:142-161 | a waiting 429 call catches that exception, sleeps its own backoff and calls again at its own next count |
| Client.UnsizedContentRaises | project_analyzer.py:55-161 | with no call waiting, a 200 whose content has no length and budget left makes one request, sleeps its backoff, and ends with the exception of the retry |
| Client.UnsizedAtLastAttempt | project_analyzer.py:155-162 | on the last attempt the same returns the generic give-up message naming 5 retries and the error |
| Client.RateLimitGiveUp | project_analyzer.py:143-144 | the give-up message after a 429 names the budget and carries the response body |
| Client.RaisedEndsOnRebind | project_analyzer.py:55-161 | an exception that leaves a call comes from its last request, a 200 whose content has no length |
| Client.BackoffsStep | project_analyzer.py:139-158 | one more retry puts the backoff of its retry count in front of the schedule |
| Client.BackoffsAt | project_analyzer.py:139-158 | the `k`-th delay of the schedule from retry count `r` is `RETRY_DELAY * (r + k + 1)` |
| Client.BackoffSchedule | project_analyzer.py:20-21 | the full schedule is 5, 10, 15, 20 and 25 seconds |
| Client.DelaysAreBackoffs | project_analyzer.py:137-161 | every sleep of a call is `RETRY_DELAY * (q + 1)` for a retry count `q` below `MAX_RETRIES`, whatever the script |
| Client.DecideKeepsFrames | project_analyzer.py:137-161 | one request sleeps only backoffs of the current or waiting retry counts, and waits only on calls from those counts |
| Client.RebindCount | project_analyzer.py:124-128 | the number of contents without a length among `n` requests is at most `n` |
| Client.DelayCount | project_analyzer.py:137-161 | a call sleeps once between consecutive requests, once more for each content without a length before its last request, and once more when it raises |
| Client.DelaysAreLinear | project_analyzer.py:137-161 | without a content that has no length, a call from retry count `r` returns after at most `MAX_RETRIES + 1 - r` requests and its `k`-th delay is `RETRY_DELAY * (r + k + 1)` |
| Client.DelaysIncrease | project_analyzer.py:137-161 | without a content that has no length, consecutive delays strictly increase |
| Client.AllTransientExhausts | project_analyzer.py:137-162 | when every attempt is transient the client makes exactly `MAX_RETRIES + 1 - r` requests, sleeps the linear schedule and returns the last attempt's give-up message |
| Client.TransientRunFrom | project_analyzer.py:137-161 | transient requests one by one form a transient run |
| Client.RateLimitedThroughout | project_analyzer.py:137-144 | an all-429 script makes six requests, sleeps 5 to 25 seconds, and returns the last body in its message |
| Client.FirstSettled | project_analyzer.py:64-162 | the first attempt that is not transient, or the last one, lies within the retry budget |
| Client.ClientIsFirstSettled | project_analyzer.py:64-162 | the requests up to the first settled one use consecutive retry counts; unless it is a content without a length with budget left, that request decides the outcome, count and delays; that case raises when nothing waits and no 429 came before, and otherwise makes more requests |
| Client.SettledDecides | project_analyzer.py:64-162 | the first settled request decides the call when it is not a content without a length with budget left |
| Client.SettledAfterRetry | project_analyzer.py:137-161 | the same after a transient first request |
| Client.SettledAtOnce | project_analyzer.py:124-162 | a first request that is not transient, or made without budget, is the first settled one and decides the call |
| Client.UncaughtRebindRaises | project_analyzer.py:55-161 | a content without a length at the first settled request, with budget left, no 429 before it and nothing waiting, raises after that request and the schedule up to it |
| Client.CaughtRebindGoesOn | project_analyzer.py:137-161 | after a 429 the same exception is caught and the call makes more requests |
| Client.RaisesIffRebound | project_analyzer.py:124-162 | when no 429 comes before the first settled attempt, a call raises iff that attempt is a 200 whose content has no length, with budget left after it |
| Client.IntendedFrom | project_analyzer.py:64-162 | the client with every retry made outside the `try` makes between 1 and `MAX_RETRIES + 1 - r` requests |
| Client.IntendedStep | project_analyzer.py:137-161 | the intended client retries a transient attempt at the next count |
| Client.IntendedDelaysAreLinear | project_analyzer.py:137-161 | the intended client sleeps the linear schedule: once between consecutive requests, and once more when it raises |
| Client.ClientIsIntendedBeforeRateLimit | project_analyzer.py:137-161 | the client as written equals the intended one when no 429 comes before the first settled attempt |
| Client.CaughtRebindOverruns | project_analyzer.py:137-162 | a 429, a content without a length and five 429s make seven requests with delays 5, 10, 5, 10, 15, 20, 25 |
| Client.RateLimitedFromOne | project_analyzer.py:137-144 | five 429s from retry count 1 make five requests with delays 10 to 25 |
| Client.IntendedRebindRaises | project_analyzer.py:137-161 | the intended client raises on the same script after two requests |
| Client.PromptKeeps | project_analyzer.py:76-106 | whatever occurs in the truncated content occurs in the prompt |
| Client.ShortContentInPrompt | project_analyzer.py:74-106 | a content within 8000 characters reaches the prompt whole |
| Client.LongContentEndsInPrompt | project_analyzer.py:74-106 | a longer content reaches the prompt by its first and its last 4000 characters |
| Directory.Parts | project_analyzer.py:210-213 | there is one delimited block per collected file, in order |
| Directory.Runs | project_analyzer.py:219-240 | the loop has one client result for each of its `MAX_RETRIES` possible calls |
| Directory.RunsAreClientCalls | project_analyzer.py:219-240 | each client result is that of the client on its own attempt script, with 1 to 32 requests |
| Directory.CollectFiles | project_analyzer.py:197-202 | the collection loop keeps exactly the eligible entries, in listing order |
| Directory.BuildBundle | project_analyzer.py:210-215 | the bundle loop and join produce the newline-joined file blocks |
| Directory.AnalyzeSingleDirectory | project_analyzer.py:187-242 | the pipeline's outcome is its specification: skip test, collection, empty check, then the validate-retry loop, which an exception ends as `Aborted` |
| Directory.ValidateLoop | project_analyzer.py:219-242 | the validate-retry loop's outcome, call count, request count and sleeps are those of its specification |
| Directory.ValidateShape | project_analyzer.py:222-242 | from retry count `k` the loop makes between `k + 1` and `MAX_RETRIES` calls and sleeps `RETRY_DELAY * m` before call `m + 1`; requests add up call by call and the bundle is fixed |
| Directory.ValidateOutcome | project_analyzer.py:222-242 | the loop stops at its first call that is not rejected: a report is written iff that call's text passed validation, the loop aborts iff that call raised or returned a non-empty array or object, and it fails only when all `MAX_RETRIES` calls were rejected |
| Directory.CallOutcomes | project_analyzer.py:219-240 | the outcomes of the client calls from `k` on, in order |
| Directory.OutcomeIsFirstDecision | project_analyzer.py:174-242 | the first call that is not rejected decides the loop: the report written is its accepted text, the loop aborts iff that call aborts, and it fails iff every call is rejected |
| Directory.RequestsBound | project_analyzer.py:219-240 | `n` calls of at most `m` requests each make at most `n * m` requests |
| Directory.DirectoryBudgets | project_analyzer.py:187-242 | a directory gets at most 5 client calls, at most `5 * m` requests when no call makes more than `m`, and sleeps a prefix of 5, 10, 15, 20 |
| Directory.PipelineBudgets | project_analyzer.py:187-242 | with its own client and validator the pipeline gets at most 5 client calls and 160 requests per directory, and sleeps a prefix of 5, 10, 15, 20 |
| Directory.WrittenOnlyIfValid | project_analyzer.py:222-242 | a report is written only when it passed validation, and it is the text of the last call; a failed directory had all its calls rejected; an aborted one stopped at its first call that was not rejected |
| Directory.SkippedDirectoryDoesNothing | project_analyzer.py:189-191 | a skip-listed directory ends before any listing, call or write |
| Directory.NoFilesNoCall | project_analyzer.py:204-205 | a directory with no eligible file makes no call and writes nothing |
| Directory.EligibleNone | project_analyzer.py:197-205 | a listing with no eligible entry collects nothing |
| Directory.EligibleMembers | project_analyzer.py:197-202 | an entry is collected exactly when it is listed and eligible |
| Directory.EligibleAppend | project_analyzer.py:197-202 | collection keeps listing order: collecting two stretches is collecting each in turn |
| Directory.BundleHoldsEveryFile | project_analyzer.py:210-215 | every collected file's delimited block occurs in the bundle |
| Directory.EligibleByName | project_analyzer.py:197-200 | a listed name is collected exactly when it is a regular file whose own name passes the extension test |
| Directory.SingleFileFirstValid | project_analyzer.py:187-233 | one eligible file whose first analysis passes: that analysis is written after one call, with no sleep |
| Directory.MainPyEligible | project_analyzer.py:197-202 | `main.py` in `proj` is collected |
| Directory.OnlyImageNoCall | project_analyzer.py:197-205 | `proj` holding only `logo.png` makes no client call |
| Directory.ErrorReplyValidates | project_analyzer.py:145-146 | an error status whose body would pass validation yields an error message that passes validation too |
| Directory.ErrorBodyWrittenAsReport | project_analyzer.py:222-233 | a first reply of status 500 carrying a report-like body gets its error message written as the report, after one call |
| Directory.UnsizedContentAborts | project_analyzer.py:187-242 | a first reply with a content of no length aborts the directory after one call and one request, with nothing written and no loop sleep |
| Directory.StructuredContentAborts | project_analyzer.py:174-223 | a first reply whose content is a non-empty array or object aborts the directory in `verify_markdown` after one call |
| Directory.EmptyStructuredRetried | project_analyzer.py:174-240 | an empty array or object is rejected, so the loop sleeps 5 seconds and calls the client again |
| Orchestrator.Outcomes | project_analyzer.py:260-268 | there is one pipeline outcome per collected directory |
| Orchestrator.CollectDirectories | project_analyzer.py:249-253 | the collection loop keeps exactly the walked directories its filter keeps, in walk order |
| Orchestrator.ProcessAllDirectories | project_analyzer.py:244-268 | the directories processed are the collected ones, the results are the pipeline's outcome for each, and the run aborts iff some directory's run aborted |
| Orchestrator.KeptMembers | project_analyzer.py:249-253 | a walked directory is collected iff its path does not contain `node_modules` |
| Orchestrator.KeptAppend | project_analyzer.py:249-253 | collection keeps walk order |
| Orchestrator.KeptPosition | project_analyzer.py:249-253 | every kept walked directory has a position among the collected ones |
| Orchestrator.KeptSupplied | project_analyzer.py:249-253 | collected directories keep their client inputs |
| Orchestrator.OutcomeOfEach | project_analyzer.py:260-268 | the result for each collected directory is the pipeline's outcome for it alone |
| Orchestrator.AbortsSnoc | project_analyzer.py:260-268 | one more directory's result aborts the run iff the run so far or that result aborts |
| Orchestrator.AbortedDirectoryAbortsRun | project_analyzer.py:260-268 | one aborted directory makes the whole run end with an exception |
| Orchestrator.UnsizedContentAbortsRun | project_analyzer.py:244-268 | one collected directory whose first reply has a content of no length ends the whole run with an exception |
| Orchestrator.NodeModulesDropped | project_analyzer.py:251-252 | any path containing `node_modules`, even inside a longer name, is dropped |
| Orchestrator.VenvCollectedThenSkipped | project_analyzer.py:249-253 | `x/venv` passes the walk filter and is then skipped by the pipeline |

## Left out

- The HTTP request, its headers, the endpoint URL and the model name are left out (project_analyzer.py:66-71,108-123). Each attempt's outcome is an input, and the JSON parsing is the `Extraction` value of a 200 reply.
- The kind of exception is not modelled. A JSON decode error, a missing key and a wrong index or type on the lookup path are one `ParseFailure`, carrying its message text. All of them are raised before `content` is rebound, so they are retried with the content unchanged.
- The exception that ends a client call, a directory or the run carries no message in the model (`Client.Raised`, `Directory.Aborted`): only that it happens is modelled.
- The `print` calls, `tqdm` progress bars and `json.dumps` logging are left out, because they have no effect on results.
- asyncio is left out: the semaphore, `MAX_CONCURRENT_REQUESTS` and the scheduling of `gather`. Each directory's outcome depends only on its own inputs, so the model processes the directories in walk order and computes every outcome. When one aborts, `gather` ends the run with its exception, and `asyncio.run` cancels the directories still running. Which of them had already written a report depends on scheduling, which the model does not capture.
- `asyncio.sleep` is not performed. Every delay is recorded in order instead.
- `get_file_content` is not modelled as a file read. Each entry carries the text that function returns, including its error text when a read fails.
- `os.listdir`, `os.path.isfile` and `os.walk` are inputs, given as sequences.
- The report write is left out: the timestamped file name from `datetime.now()` and the file handle. The model records the written text instead.
- Environment loading and the API-key check (project_analyzer.py:11-16) are left out.
- `main` and the argument parser (project_analyzer.py:270-285) are left out.
- `directory_name`, the second argument of `analyze_with_claude`, is left out because the function never uses it. `dir_name` exists only to be passed there.
- `os.path.relpath(file_path, directory)` is modelled as the entry's own name, which is what it returns for a direct child.
- Strings.Lower: lower-cases ASCII letters only, where Python's `lower()` is full Unicode. For the extension test the verdict is the same, because no allowed extension contains a letter that a non-ASCII character lower-cases to. That equivalence is not proved.
- Strings: a Python `str` can hold a lone surrogate code point, but a Dafny `char` cannot. Texts holding one are not modelled.
- Truncation.TruncateContent: the limit is a natural number; a negative `max_length` is not modelled.
- Client.DelaysAreLinear, Client.DelaysIncrease: stated only for scripts without a content that has no length. Once an exception is caught by a waiting 429 call, that call sleeps its own smaller backoff, so the delays are not linear (`Client.CaughtRebindOverruns`).
- Client.RaisesIffRebound: stated only when no 429 comes before the first settled attempt. Otherwise a waiting 429 call may catch the exception, and the outcome depends on the requests after it (`Client.CaughtRebindGoesOn`).
- Client.ClientFrom: 32 requests is proved as an upper bound only. That some script reaches it is not proved.

## Findings

| source | as written | input that shows it | evidently intended | confidence | as-written member | corrected member |
|---|---|---|---|---|---|---|
| project_analyzer.py:137-161 | the 429 retry at line 142 runs inside the `try`, so an exception of the retry is caught by the same call's generic handler, which sleeps its own backoff again and retries at line 161 | a 429, then a 200 whose content is null, then five 429s: seven requests, delays 5, 10, 5, 10, 15, 20, 25 | at most `MAX_RETRIES + 1` requests per call, with the exception of the retry leaving the call | not executed | Client.CaughtRebindOverruns | Client.IntendedFrom |

`Client.IntendedFrom` makes every retry outside the `try`, and its contract bounds a call by `MAX_RETRIES + 1 - r` requests. `Client.IntendedDelaysAreLinear` proves its schedule linear, and on the script above it raises after two requests (`Client.IntendedRebindRaises`). The two agree whenever no 429 comes before the first settled attempt (`Client.ClientIsIntendedBeforeRateLimit`). The directory pipeline keeps the client as written, so its request budget is 160 and not 30.
