# nova-act-mcp, modelled in Dafny

An MCP server that lets an assistant drive a web browser through the Nova Act SDK. This
project models the server's bookkeeping and the logic it wraps around the SDK. The SDK
itself, the filesystem, the clock and uuid generation are parameters of the model.

Two generations of the server are modelled.

- **The single-file server** (`nova_mcp.py`):
  - its registry of sessions, and the per-session status view;
  - the success/failure tally of a workflow's step records;
  - `execute_browser_workflow`: a multi-step workflow, where each step is tried up to three
    times and a transient error reloads the page;
  - `get_browser_sessions`: lists the sessions, then removes completed ones older than ten
    minutes;
  - `browser_session`: the interactive start / execute / extract / end tool.
- **The package server** (`src/nova_mcp_server/tools/`):
  - the per-session executor table, and the four browser-control tools that guard their
    arguments and keep that table;
  - starting a session (`initialize_browser_session`), ending one (`end_session_action`) and
    inspecting one (`inspect_browser_action`);
  - inspection covers page reads, screenshots (inline, or saved to a file when large),
    listing log files newest first, and deduplicating the status message;
  - `fetch_file`, which returns a file as text, as base64 or as a base64 data URL.

Modules:

| module | file | models |
|---|---|---|
| `Common` | `common.dfy` | Option, Result, bytes, SDK handles, error codes, the guard the start and inspect tools share, Python truthiness of an optional string |
| `Text` | `text.dfy` | ASCII lower-casing, `in` on strings, `os.path.join`/`basename`/`splitext`, `str()` of integers |
| `Base64` | `base64.dfy` | `base64.b64encode` (section 4 of RFC 4648, with padding) and its inverse |
| `Utf8` | `utf8.dfy` | strict `bytes.decode("utf-8")` (Table 3-7 of the Unicode Standard) and UTF-8 encoding |
| `Registry` | `registry.dfy` | the package server's session registry and executors |
| `BrowserControl` | `browser_control.dfy` | `browser_control.py` |
| `Start` | `start.dfy` | `actions_start.py` |
| `End` | `end.dfy` | `actions_end.py` |
| `LogListing`, `Inspect` | `log_listing.dfy`, `inspect.dfy` | `actions_inspect.py` |
| `FileTransfer` | `file_transfer.dfy` | `file_transfer.py` |
| `NovaMcpRegistry`, `NovaMcpWorkflow`, `NovaMcpSession` | `nova_mcp_*.dfy` | `nova_mcp.py` |

State follows the source. Process-wide dictionaries that the tools update in place are
classes holding a `map` field, and the methods reassign that field:

- `active_sessions` of each generation;
- `session_executors`.

An executor is a class whose `Shutdown` changes it. The retry loop, the step loop, the
clean-up loop and the log-file gathering are methods with loops. Each is proved against a
specification function (`StepOutcome`, `Progressed`, `Survivors`, `Gathered`). The
properties are proved about those functions as lemmas.

## Model

| member | source | states |
|---|---|---|
| `Registry.Executor.Shutdown` | src/nova_mcp_server/tools/browser_control.py:81 | after `shutdown(wait=False)` the executor is shut down |
| `BrowserControl.ExecutorTable.constructor` | src/nova_mcp_server/tools/browser_control.py:48 | the executor table starts empty, which satisfies its invariant (every executor live, none shared) |
| `BrowserControl.ExecutorTable.GetSessionExecutor` | src/nova_mcp_server/tools/browser_control.py:52-67 | a known session gets its own executor back and the table is unchanged; an unknown one gets a fresh live executor recorded under its id; the invariant is kept |
| `BrowserControl.ExecutorTable.CleanupSessionExecutor` | src/nova_mcp_server/tools/browser_control.py:70-81 | exactly the session's entry is removed, the executor removed is shut down, and the invariant is kept |
| `BrowserControl.Tied` | src/nova_mcp_server/tools/browser_control.py:257-262 | definition: an executor a registry entry holds is in the table under that entry's id or not at all, as when `execute_instruction` stores the executor `get_session_executor` returned for the session |
| `BrowserControl.StartSessionAsWritten` | src/nova_mcp_server/tools/browser_control.py:128-161 | the guards refuse in order; once they pass, the call always fails with the arity error and never reports a start |
| `BrowserControl.StartSession` | src/nova_mcp_server/tools/browser_control.py:128-177 | the guards leave the registry and the table alone. Past them, the result of `initialize_browser_session` is reported unchanged. A launch error is reported as a failure with the launch's message. A start succeeds exactly when the launch and the log lookup succeed; the answer then carries the id, the SDK session id kept, the identity, the URL and the log directory, and the registry holds exactly the new ready entry under the id. A started session gets an executor; a failed one is not registered and loses its executor. No other session's executor changes. The invariant is kept, and so is the tie between registry and table: an executor an entry holds is the table's executor for that entry's id, or is no longer in the table |
| `BrowserControl.ExecuteInstruction` | src/nova_mcp_server/tools/browser_control.py:236-282 | missing arguments and an unknown session are refused with nothing changed. Otherwise, before delegating, the session's executor (created when it has none) and the clock are stored in its entry, and the delegated outcome (or its error) is reported. The table's invariant and its tie to the registry are kept |
| `BrowserControl.EndAnswer` | src/nova_mcp_server/tools/actions_end.py:25-147 | definition: what `end_session_action` returns for a registered session: refused without the SDK, a clean-up without an instance, the close fault with no close calls, or the identity with the close calls made |
| `BrowserControl.EndSession` | src/nova_mcp_server/tools/browser_control.py:313-357 | missing and unknown ids change nothing. Past the guards the session's executor is always removed and shut down. A scheduling error leaves the registry alone. Otherwise the end action's result and close calls are reported as `EndAnswer` gives them, and the session is removed exactly when the SDK is present. Every executor left in the table is live and unshared, and the table stays tied to the registry, so ending one session never shuts down another session's executor |
| `BrowserControl.EndScheduled` | src/nova_mcp_server/tools/browser_control.py:334-345 | the end action run on the executor, then the executor removed and shut down: its answer and close calls are `EndAnswer`'s, the session is removed exactly when the SDK is present, and the invariant and the tie are kept |
| `BrowserControl.InspectBrowserAsWritten` | src/nova_mcp_server/tools/browser_control.py:407-453 | the executor-not-found answer is never given; once the guards pass the session has an executor, and for an unknown session a new executor is left in the table while the answer is session-not-found. The table's invariant and its tie to the registry are kept |
| `BrowserControl.Observed` | src/nova_mcp_server/tools/actions_inspect.py:86-176 | definition: the log lookup made only when the entry has no log directory, the screenshot saved exactly when `Inspect.SavesShot` holds, and the default quality used when a screenshot is asked for |
| `BrowserControl.InspectBrowser` | src/nova_mcp_server/tools/browser_control.py:407-453 | a session is reported executor-missing exactly when the table has no executor for it. Otherwise the scheduling error is reported, or the inspection result. An unknown session is answered session-not-found, and a session without an instance instance-not-found, both with nothing done. The inspection succeeds exactly when the session and its instance exist. It then reports the page as `Inspect.Reports` describes, with the session's log directory or the lookup's answer, and did what `Observed` says |
| `BrowserControl.Dispatch` | src/nova_mcp_server/tools/browser_control.py:436-453 | a scheduling error is reported with its message. Otherwise the action's result is reported unchanged: session-not-found for an unknown session and instance-not-found for one without an instance, both with nothing done. It succeeds exactly for a registered session with an instance. A successful report is the one `Inspect.Reports` describes, and the action did what `Observed` says |
| `Start.ChosenId` | src/nova_mcp_server/tools/actions_start.py:68-72 | a non-empty requested id is used, otherwise the generated one |
| `Start.ConfigFor` | src/nova_mcp_server/tools/actions_start.py:79-98 | the instance gets the starting page, headless flag and API key, and the log directory `<tmp>/<id>_sdk_logs`: exactly one `/` is added after the temporary directory unless it already ends in one, and the log directory ends in `<id>_sdk_logs` whatever the id |
| `Start.KeptSessionId` | src/nova_mcp_server/tools/actions_start.py:154-176 | the SDK session id is kept exactly when the initial act returned a non-empty one |
| `Common.ToolGuard` | src/nova_mcp_server/tools/actions_start.py:51-67 | SDK, API key, then the required argument are checked in that order, each with its error code; a request passes exactly when all three are present. initialize_browser_session (with the URL), start_session (browser_control.py:130-136) and inspect_browser (browser_control.py:407-425, with the session id) share this order |
| `Start.InitializeBrowserSession` | src/nova_mcp_server/tools/actions_start.py:39-229 | refusals change nothing. A start succeeds exactly when the SDK launches and the log lookup does not raise; the session is then registered as ready with the instance, the discovered SDK id and the log directory. A failure removes any entry under the id and reports the id |
| `End.CloseCalls` | src/nova_mcp_server/tools/actions_end.py:83-98 | `__exit__` is always called first; `close()` follows exactly when `__exit__` raised and the instance has a close method |
| `End.EndGuard` | src/nova_mcp_server/tools/actions_end.py:37-57 | the id, the SDK and the session are checked in that order, each with its error code |
| `End.EndSessionAction` | src/nova_mcp_server/tools/actions_end.py:25-147 | refusals change nothing. Past the guards the session is always removed from the registry. Without an instance the answer is a registry clean-up. An unexpected error is reported with no close calls. Otherwise the close calls are made, the entry's executor is shut down and the identity reported |
| `LogListing.Pattern` | src/nova_mcp_server/tools/actions_inspect.py:199-200 | the wildcard pattern lies in the log directory and ends with `*<suffix>` |
| `LogListing.Gathered` | src/nova_mcp_server/tools/actions_inspect.py:198-200 | definition: the glob matches of the suffix patterns, concatenated in the order of the suffixes |
| `LogListing.GatheredMembers` | src/nova_mcp_server/tools/actions_inspect.py:198-200 | a file is gathered exactly when one of the suffix patterns matched it |
| `LogListing.CollectLogFiles` | src/nova_mcp_server/tools/actions_inspect.py:198-200 | the loop extends the list with each suffix's matches, in suffix order |
| `LogListing.InsertNewest` | src/nova_mcp_server/tools/actions_inspect.py:201 | inserting into a newest-first list keeps it newest first and adds exactly that file |
| `LogListing.SortNewestFirst` | src/nova_mcp_server/tools/actions_inspect.py:201 | the sort by modification time, descending, is a permutation of its input and is newest first |
| `LogListing.Kept` | src/nova_mcp_server/tools/actions_inspect.py:201-207 | definition: the first ten files of the newest-first sort, or all of them when there are fewer |
| `LogListing.View` | src/nova_mcp_server/tools/actions_inspect.py:203-206 | each reported file keeps its path, size and time and is named by its base name |
| `LogListing.Listing` | src/nova_mcp_server/tools/actions_inspect.py:202-208 | one view per kept file, in order |
| `LogListing.KeptAreNewest` | src/nova_mcp_server/tools/actions_inspect.py:201-208 | the listing keeps min(10, n) of the n files found, newest first, drawn from what was found, and no file left out is newer than a file kept |
| `Inspect.RenderInjective` | src/nova_mcp_server/tools/actions_inspect.py:221-226 | two messages have the same text exactly when they are the same message, so the deduplication by text compares messages |
| `Inspect.Render` | src/nova_mcp_server/tools/actions_inspect.py:125-191 | definition: the text of each status and error message, with the source's wording and the error or path appended |
| `Inspect.TitleString` | src/nova_mcp_server/tools/actions_inspect.py:133-138 | a string title is kept, None becomes "Unknown Title", and any other value is shown as its `str()` |
| `Inspect.InlineImage` | src/nova_mcp_server/tools/actions_inspect.py:155 | the inline screenshot is a JPEG data URL whose payload decodes back to the screenshot's bytes |
| `Inspect.Summary` | src/nova_mcp_server/tools/actions_inspect.py:210 | definition: the text item `Current URL: <url>` and `Page Title: <title>` on two lines |
| `Inspect.ScreenshotDir` | src/nova_mcp_server/tools/actions_inspect.py:159-164 | screenshots go in `<logs>/screenshots` when the session has a log directory (no `/` is added when it already ends in one), and the directory always ends in `screenshots` |
| `Inspect.ScreenshotDirFallback` | src/nova_mcp_server/tools/actions_inspect.py:159-164 | without a log directory, screenshots go in `<tmp>/nova_mcp_server_logs/<id>/screenshots` for a temporary directory and an id that are ordinary path components |
| `Inspect.ScreenshotName` | src/nova_mcp_server/tools/actions_inspect.py:170 | the file name starts with `screenshot_` and ends with `.jpg` |
| `Inspect.ScreenshotPath` | src/nova_mcp_server/tools/actions_inspect.py:164-171 | the file is the screenshots directory, one `/`, then the `screenshot_<seconds>_<tag>.jpg` name; it ends with `.jpg` |
| `Inspect.ScreenshotStatus` | src/nova_mcp_server/tools/actions_inspect.py:147-191 | definition: no status without a screenshot request or for an inline image; otherwise the capture error, the no-data notice, the save failure or the saved path, in that priority |
| `Inspect.ReadErrors` | src/nova_mcp_server/tools/actions_inspect.py:119-191 | definition: one system_error message per failed read (URL, title, then the screenshot when asked for), in the order the reads are made |
| `Inspect.WithStatus` | src/nova_mcp_server/tools/actions_inspect.py:221-226 | definition: the status is appended as system_info unless a message with the same text is already present |
| `Inspect.ReadErrorsDistinct` | src/nova_mcp_server/tools/actions_inspect.py:119-191 | each failed read (URL, title, screenshot capture) is reported once, as a system_error message, with no two messages alike |
| `Inspect.WithStatusReportsOnce` | src/nova_mcp_server/tools/actions_inspect.py:220-226 | after the status message is added the texts stay distinct, the status text is present, and earlier messages are kept in order |
| `Inspect.InspectGuard` | src/nova_mcp_server/tools/actions_inspect.py:50-111 | an inspection goes ahead exactly when the id is given, the SDK is present, the session exists and holds an instance |
| `Inspect.LogsDirOf` | src/nova_mcp_server/tools/actions_inspect.py:85-117 | definition: the session's own log directory when it is truthy, otherwise what the lookup on the instance and its SDK session id answers |
| `Inspect.ReadPage` | src/nova_mcp_server/tools/actions_inspect.py:119-145 | the URL and title are read, with "Unknown URL" / "Unknown Title" standing in for a failed read; a failure is recorded in the browser state and as a system_error message |
| `Inspect.CaptureScreenshot` | src/nova_mcp_server/tools/actions_inspect.py:147-193 | a screenshot is taken only when asked for, at the requested or default quality. It is inline exactly when non-empty and at most the limit; it is saved exactly when larger and saving does not fail; otherwise the status says why |
| `Inspect.ReportStatus` | src/nova_mcp_server/tools/actions_inspect.py:220-226 | the status message is appended as system_info unless one with its text is present |
| `Inspect.ListLogs` | src/nova_mcp_server/tools/actions_inspect.py:195-208 | log files are listed exactly when there is a log directory |
| `Inspect.SavesShot` | src/nova_mcp_server/tools/actions_inspect.py:157-176 | definition: a screenshot is written to disk exactly when one was asked for, it was captured, it is larger than the inline limit and saving does not fail |
| `Inspect.Reports` | src/nova_mcp_server/tools/actions_inspect.py:119-238 | definition: the report of an inspection: success for the session, the URL and title or their defaults, an inline image first when there is one and then the summary, the messages with the status deduplicated, the browser state with the log listing, and the saved path |
| `Inspect.ObservePage` | src/nova_mcp_server/tools/actions_inspect.py:119-238 | the report always succeeds for the session and holds the page reads, the content (an inline image first when there is one, then the summary), the deduplicated messages, the browser state, the log listing and the saved file's path |
| `Inspect.InspectBrowserAction` | src/nova_mcp_server/tools/actions_inspect.py:36-238 | the guards refuse in order with their codes and nothing is done. Otherwise the registry is only read, and the log directory is the session's own or, only when it has none, the lookup's answer. The report then holds everything `ObservePage` states for that directory: URL, title, content, messages, browser state, log listing and saved path; the saved file and the quality are reported too |
| `FileTransfer.ContentType` | src/nova_mcp_server/tools/file_transfer.py:77-90 | the image extensions map to image types and the text/JSON extensions to text types; every other extension maps to `application/octet-stream` |
| `FileTransfer.IsTextual` | src/nova_mcp_server/tools/file_transfer.py:136 | definition: a content type starting with `text/` or `application/json`, which the tool tries to return as text |
| `FileTransfer.Body` | src/nova_mcp_server/tools/file_transfer.py:96-185 | base64 exactly when asked for; a data URL exactly for images; text exactly for a text type that is valid UTF-8; binary base64 otherwise |
| `FileTransfer.FetchFile` | src/nova_mcp_server/tools/file_transfer.py:21-198 | a missing path, a missing file, a file over the limit and a read error each give their code and message. A fetch succeeds exactly when the file exists, fits and can be read, and then reports its path, base name, size, time and content type |
| `FileTransfer.BodyRoundTrip` | src/nova_mcp_server/tools/file_transfer.py:96-185 | decoding any body (base64 or UTF-8 text) gives back exactly the bytes it was made from |
| `FileTransfer.FetchRoundTrip` | src/nova_mcp_server/tools/file_transfer.py:92-185 | a successful fetch returns the file's contents: decoding its body gives back the bytes read |
| `Text.Lower` | src/nova_mcp_server/tools/file_transfer.py:75 | lower-casing keeps the length and maps each character by ASCII lower-casing |
| `Text.ContainsIffOccurs` | nova_mcp.py:450 | `sub in s` holds exactly when sub occurs at some index of s |
| `Text.Join` | src/nova_mcp_server/tools/actions_start.py:80 | an absolute component replaces the directory; otherwise the directory and the component are separated by exactly one `/`, which is added only when the directory is non-empty and does not end in `/` |
| `Text.JoinBasename` | src/nova_mcp_server/tools/file_transfer.py:74 | the base name of a directory joined with a plain file name (no `/`) is that file name |
| `Text.Basename` | src/nova_mcp_server/tools/file_transfer.py:74 | the base name is a suffix of the path with no `/` in it, and it is either the whole path or preceded by a `/`: everything after the last `/` |
| `Text.Extension` | src/nova_mcp_server/tools/file_transfer.py:75 | the extension is empty or a suffix of the name that starts with `.` and holds no other dot: it starts at the last dot |
| `Text.ExtensionPresent` | src/nova_mcp_server/tools/file_transfer.py:75 | a name has a non-empty extension exactly when one of its dots follows a character that is not a dot (so `.bashrc` and `..x` have none) |
| `Text.NatToString` | src/nova_mcp_server/tools/file_transfer.py:64 | the size is rendered as a non-empty string of decimal digits |
| `Text.NatToStringValue` | src/nova_mcp_server/tools/file_transfer.py:64 | the rendering reads back as the number, and starts with `0` only for 0 |
| `Base64.Value` | src/nova_mcp_server/tools/file_transfer.py:98 | every alphabet character stands for a 6-bit value whose character it is |
| `Base64.Encode` | src/nova_mcp_server/tools/file_transfer.py:98 | definition: `base64.b64encode` as in section 4 of RFC 4648: each 3-byte group becomes 4 alphabet characters, and a last group of 1 or 2 bytes is padded with `=` (also used at src/nova_mcp_server/tools/actions_inspect.py:155) |
| `Base64.EncodeLength` | src/nova_mcp_server/tools/file_transfer.py:98 | the encoding has four characters per started group of three bytes |
| `Base64.EncodeAlphabet` | src/nova_mcp_server/tools/file_transfer.py:98 | every character of an encoding is in the alphabet or is padding |
| `Base64.DecodeEncode` | src/nova_mcp_server/tools/file_transfer.py:98 | decoding an encoding gives back the bytes |
| `Utf8.DecodeFirstEncodeChar` | src/nova_mcp_server/tools/file_transfer.py:138 | the encoding of a character decodes, first, to that character and its length |
| `Utf8.EncodeCharDecodeFirst` | src/nova_mcp_server/tools/file_transfer.py:138 | a well-formed first sequence is exactly the encoding of the character it decodes to |
| `Utf8.Decode` | src/nova_mcp_server/tools/file_transfer.py:137-138 | definition: strict `bytes.decode("utf-8")`, None where Python raises `UnicodeDecodeError`; each character is read by its first well-formed sequence as in Table 3-7 of the Unicode Standard |
| `Utf8.DecodeEncode` | src/nova_mcp_server/tools/file_transfer.py:138 | decoding the encoding of any text gives back the text |
| `Utf8.EncodeDecode` | src/nova_mcp_server/tools/file_transfer.py:137-138 | whatever strict decoding accepts is the encoding of its result, so the decode is one-to-one |
| `NovaMcpRegistry.MarkedFailed` | nova_mcp.py:490-505 | a failed entry has status error and the message in its error and its progress record, with nothing else changed |
| `NovaMcpRegistry.CountSuccessFailures` | nova_mcp.py:163-167 | the two counts add up to the number of records; no successes exactly when no record succeeded, and no failures exactly when every record did |
| `NovaMcpRegistry.CountConcat` | nova_mcp.py:163-167 | the tally of a concatenation is the sum of the tallies |
| `NovaMcpRegistry.StatusRow` | nova_mcp.py:94-104 | a status row shows the entry's identity, status, URL, time, and the progress record's step counts and error |
| `NovaMcpRegistry.GetSessionStatus` | nova_mcp.py:90-106 | one status row per registered session, and no other |
| `NovaMcpRegistry.Expired` | nova_mcp.py:648 | definition: a session is removed by the listing exactly when it is complete and was last updated more than 600 seconds ago |
| `NovaMcpRegistry.Survivors` | nova_mcp.py:643-651 | a clean-up keeps exactly the sessions that are not complete-and-idle for over 600 seconds, unchanged |
| `NovaMcpRegistry.SurvivorsIdempotent` | nova_mcp.py:643-651 | cleaning up twice at the same time removes nothing more |
| `NovaMcpRegistry.SurvivorsShrinkOverTime` | nova_mcp.py:643-651 | a later clean-up keeps no session an earlier one removed |
| `NovaMcpRegistry.Active` | nova_mcp.py:655 | definition: a listed session is active exactly when its status is neither complete nor error |
| `NovaMcpRegistry.ActiveCount` | nova_mcp.py:655 | the active count never exceeds the number of rows |
| `NovaMcpRegistry.GetBrowserSessions` | nova_mcp.py:629-658 | the listing shows every session as it was before the clean-up, with its total and active counts; the registry then holds exactly the survivors |
| `NovaMcpWorkflow.ResponseContent` | nova_mcp.py:358-397 | the act's own response is recorded when it has one; otherwise a line naming the page, when both reads succeed |
| `NovaMcpWorkflow.FirstSuccess` | nova_mcp.py:331-463 | the first attempt within the retry budget that did not raise, with every earlier one raising; none when all raised |
| `NovaMcpWorkflow.IsTransient` | nova_mcp.py:451 | definition: an error message whose lower-cased text contains `timeout` or `navigation` |
| `NovaMcpWorkflow.StepOutcome` | nova_mcp.py:406-474 | each step is recorded as a success or a failure, numbered from 1, with its action |
| `NovaMcpWorkflow.StepOutcomeMeaning` | nova_mcp.py:331-474 | a step succeeds exactly when one of its three attempts does not raise. A success is recorded with the first such attempt, its response, and the steps taken, SDK session id and act id from that act's metadata (0 and None without metadata). A failed step records three attempts and the third attempt's error message |
| `NovaMcpWorkflow.AttemptsMade` | nova_mcp.py:331-463 | every step makes between one and three attempts |
| `NovaMcpWorkflow.StepError` | nova_mcp.py:435-443 | a step leaves an error exactly when more than one attempt was made or the step failed, and the error left is the message of the last attempt that raised |
| `NovaMcpWorkflow.Reloads` | nova_mcp.py:450-457 | the page is reloaded only after an attempt that raised a timeout or navigation error |
| `NovaMcpWorkflow.ReloadsExactly` | nova_mcp.py:450-457 | conversely, every attempt that raised a timeout or navigation error, the last one included, is followed by a reload, and the reloads come in the order of the attempts |
| `NovaMcpWorkflow.TryStep` | nova_mcp.py:326-481 | the retry loop records the step's outcome, its last error and its reloads as the specification functions give them |
| `NovaMcpWorkflow.AfterStep` | nova_mcp.py:314-481 | definition: one step's effect on the run: its record is appended, progress moves to it, any error (even one a retry recovered from) leaves status error and the progress error, and a successful act updates the URL and, when it changed, the SDK session id |
| `NovaMcpWorkflow.AfterStepShape` | nova_mcp.py:314-481 | one step appends its record, moves the progress to it and leaves identity, steps, instance, completion and error alone |
| `NovaMcpWorkflow.Records` | nova_mcp.py:412-479 | one record per step, in order |
| `NovaMcpWorkflow.Progressed` | nova_mcp.py:314-481 | definition: the run after its first n steps, each applied with `AfterStep` in order |
| `NovaMcpWorkflow.ProgressedStep` | nova_mcp.py:314-481 | step n appends its one record to those of the steps before it and moves the progress to n |
| `NovaMcpWorkflow.ProgressedRecords` | nova_mcp.py:314-481 | running the steps appends exactly one record per step, in order |
| `NovaMcpWorkflow.ProgressedFields` | nova_mcp.py:314-481 | running the steps moves the progress to the last step and leaves the identifying fields alone |
| `NovaMcpWorkflow.WorkflowSuccess` | nova_mcp.py:539-543 | a workflow reports success exactly when some attempt of some step did not raise |
| `NovaMcpWorkflow.Registered` | nova_mcp.py:228-240 | a workflow registers its session as initializing, incomplete, with no instance, no results and the step count |
| `NovaMcpWorkflow.Opened` | nova_mcp.py:294-311 | definition: once the browser is open the entry is browser_open and holds the instance, and its SDK session id is recorded when non-empty |
| `NovaMcpWorkflow.Finished` | nova_mcp.py:529-536 | every run ends with the session complete and without an instance |
| `NovaMcpWorkflow.Summary` | nova_mcp.py:539-546 | definition: `Executed <n> steps in workflow starting at <url>`, followed by the succeeded and failed counts when there are records |
| `NovaMcpWorkflow.Workflow` | nova_mcp.py:272-627 | definition: what a run answers and leaves in its entry: a profile error aborts and marks the entry failed and complete; a launch error fails with no records; otherwise every step runs, and an exit error fails with the records so far, or the run is done, successful when some step succeeded, with the summary. Every path except the abort ends with `Finished`. `RunWorkflow` and `ExecuteBrowserWorkflow` are proved to follow it |
| `NovaMcpWorkflow.RunSteps` | nova_mcp.py:314-481 | the step loop leaves the entry and the SDK session id as the specification gives them for all steps, and touches no other session |
| `NovaMcpWorkflow.RunOpened` | nova_mcp.py:292-555 | on an open browser: the steps, then on an exit error a failure with the records so far; otherwise success if any step succeeded, the summary, and the records |
| `NovaMcpWorkflow.CloseOut` | nova_mcp.py:483-555 | after the steps, the session is finished (marked failed first on an exit error) and the answer reports its records |
| `NovaMcpWorkflow.RunWorkflow` | nova_mcp.py:272-555 | the worker leaves its session and answer as the specification function gives them, and touches no other session |
| `NovaMcpWorkflow.WorkflowEnds` | nova_mcp.py:272-627 | every run leaves its session complete, with identity and steps kept, and without an instance unless it never reached the browser. A failed run leaves its error in the entry, and the worker's own failure leaves status error |
| `NovaMcpWorkflow.WorkflowRecordsEveryStep` | nova_mcp.py:228-555 | a workflow whose browser opens and closes answers with one record per step, in order; it leaves them in the entry with the progress on the last step and no error, and reports success exactly when some attempt succeeded |
| `NovaMcpWorkflow.ExecuteBrowserWorkflow` | nova_mcp.py:178-627 | refusals without the SDK or an API key change nothing; otherwise the session is registered under its id and ends as the workflow specification gives, and no other session is touched |
| `NovaMcpSession.StartEntry` | nova_mcp.py:866-890 | a started session is registered under the default profile, initializing, with one step to go and no instance |
| `NovaMcpSession.Started` | nova_mcp.py:856-953 | definition: the start relation: a missing URL changes nothing; otherwise the session is added, marked failed with a launch, page-read or exit error (the exit error taking precedence), or holds the instance as browser_open with the page reported |
| `NovaMcpSession.StartAction` | nova_mcp.py:856-953 | a missing URL is refused with nothing changed. Otherwise the session is added. On a launch error, a page-read error or an exit error it is marked failed and the error reported; an exit error takes the place of a page-read error, as with Python's `with`. Otherwise it holds the instance, is browser_open, and the page is reported |
| `NovaMcpSession.Content` | nova_mcp.py:985-1007 | the act's response is recorded when it has one |
| `NovaMcpSession.PageActed` | nova_mcp.py:956-1127 | definition: the execute and extract relation: refusals and a failing act change nothing; otherwise the entry's URL becomes the page's, one record is appended, and the answer carries the page and, for extract, the content |
| `NovaMcpSession.PageActionOn` | nova_mcp.py:956-1127 | missing arguments, an unknown session and a session without an instance are refused with nothing changed; a failing act changes nothing. Otherwise the entry's URL becomes the page's and one record is appended; no session is added or removed |
| `NovaMcpSession.Closes` | nova_mcp.py:1157-1159 | definition: close() is called exactly when the entry holds an instance whose `_closed` attribute is False |
| `NovaMcpSession.EndedAs` | nova_mcp.py:1138-1194 | definition: the end relation: refusals change nothing; a close error changes nothing and is reported; otherwise the session is marked ended and complete and stays registered |
| `NovaMcpSession.EndAction` | nova_mcp.py:1138-1194 | close is called exactly when the instance reports itself open. A close error changes nothing. Otherwise the session is marked ended and complete and stays registered |
| `NovaMcpSession.BrowserSession` | nova_mcp.py:822-1199 | without the SDK or an API key, or for an unknown action, nothing changes. Otherwise start, execute, extract and end each give the answer and the new registry their own action states (`Started`, `PageActed`, `EndedAs`): only a start with a URL adds a session, under the generated id, and no action removes one |

## Left out

- The Nova Act SDK, the browser, the filesystem, the clock and uuid generation are parameters
  (oracle functions and values); logging, tracebacks and the `timestamp` fields are not modelled.
- Concurrency is not modelled:
  - the locks;
  - the progress-reporter task of `execute_browser_workflow` and its writes to the entry;
  - thread pools and the anyio/asyncio dispatch;
  - sessions removed by another thread between two locked sections.

  Each tool call is one atomic step, and an executor only records whether it was shut down.
- The `current_action` progress text, `DEFAULT_TIMEOUT`, the headless flag of the single-file
  server, and the formatted size and time strings of `fetch_file` are not modelled.
- `get_session_status` returns a list in registry insertion order; the model returns a map keyed by
  session id, so the order of rows is not modelled. The registry itself is a map for the same reason.
- Act responses that are dicts or objects (which the source stores as-is, as `__dict__` or as `str()`)
  are modelled as an optional string.
- The retry loop retries every error, as the code does, although a comment there speaks of
  retrying only some of them. The page reload after a timeout or navigation error is recorded in
  `Reloads`, and errors raised by the reload are ignored.
- `browser_session`'s "start" returns from inside `with NovaAct(...)`. So the instance it
  registers has already been exited when the call returns. The model records the instance as the
  code does and takes an error raised on exit as a parameter.
- `browser_session`'s "start": an instance without a `session_id` attribute leaves a local name
  unbound. The resulting exception is one of the errors the error path handles; it is not
  modelled separately.
- `browser_session`'s "end" assumes the instance has a `close` method. Its `_closed` attribute
  is a parameter, and a missing one counts as closed.
- `initialize_browser_session` does not close a partially set-up instance when it fails
  afterwards. The model follows that code.
  Creating the SDK log directory, and the path `resolve()`, are part of the `launch` parameter.
- The cancellation branch of `start_session` (a client cancelling the thread) is not modelled.
- `execute_session_action` and `_normalize_logs_dir` are not part of this model. `ExecuteInstruction`
  takes the former's outcome, and the inspection and start take the latter's answer, as parameters.
- ExecuteInstruction: its registry postcondition describes the registry before delegating; any
  writes `execute_session_action` makes to the entry are not part of this model.
- Lower: ASCII lower-casing, where Python's `str.lower` lower-cases all of Unicode (and may change
  the length, as for `'İ'`). Both uses compare with ASCII targets (the extension table, and
  "timeout" and "navigation"), where the two agree.
- `fetch_file`'s default `max_size` of 10 MiB is not modelled; the limit is always a parameter.
- The `urls` key of an inspection's browser state is always `[current_url]` and is not kept
  separately. The screenshot quality bound, `MAX_INLINE_IMAGE_BYTES` and `INLINE_IMAGE_QUALITY`
  come from configuration that is not part of this model, so they are parameters.
- `Base64.Decode` and `Utf8.Encode` are reference inverses written for the round-trip lemmas.
  The source has no counterpart to them; a client would decode what `fetch_file` returns.
- SortNewestFirst: Python's `list.sort` is stable. `LogListing.SortNewestFirst` is proved a
  newest-first permutation, not the particular order among files with equal times.
- A log file that vanishes between the glob and the stat is reported with size and time 0. This
  is modelled through what the glob oracle returns.

## Findings

| source | as written | input that shows it | evidently intended | confidence | as-written member | corrected member |
|---|---|---|---|---|---|---|
| src/nova_mcp_server/tools/browser_control.py:146-161 | `start_session` hands `initialize_browser_session` five positional arguments; the fifth is the request context (line 153). The function takes at most four, so the call raises `TypeError` and every start past the guards fails with "Failed to initialize session" | any start with the SDK present, an API key and a URL | pass the four arguments the function declares, so that a start can succeed and its executor is set up | not executed; follows from the signature at actions_start.py:39-44 | `BrowserControl.StartSessionAsWritten` | `BrowserControl.StartSession` |
| src/nova_mcp_server/tools/browser_control.py:427-434 | `inspect_browser` looks the executor up with `get_session_executor`, which creates one when missing and never raises `KeyError`. So the executor-not-found answer is unreachable, and inspecting an unknown session leaves a new executor behind that nothing removes | inspect session id "x" that was never started | look the executor up without creating one, and answer executor-not-found when there is none | not executed; follows from browser_control.py:52-67 | `BrowserControl.InspectBrowserAsWritten` | `BrowserControl.InspectBrowser` |
