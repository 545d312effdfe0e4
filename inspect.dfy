/** Inspecting a browser session (inspect_browser_action / _inspect_browser): read the page's
    URL and title, optionally take a screenshot (inline when small enough, saved to a file
    otherwise), list the session's log files, and report what went wrong as "thinking"
    messages without failing the call. */
module Inspect {

  import opened Common
  import opened Registry
  import Text
  import Base64
  import opened LogListing

  /** What page.title() returned: a string, None, or another value and its str() rendering. */
  datatype TitleValue = TitleText(text: string) | TitleNone | TitleOther(rendered: string)

  /** The answers of the session's page: its URL, its title and a JPEG screenshot (an empty
      sequence when the capture returned no data); Err holds the message of what was raised. */
  datatype Page = Page(url: Result<string, string>, title: Result<TitleValue, string>, screenshot: Result<seq<byte>, string>)

  /** The surroundings of an inspection: the temporary directory, the whole seconds of the clock
      and the 8 hex digits of a fresh uuid (used in a saved screenshot's name), the error raised
      while saving a screenshot (if any), and the directory listing. */
  datatype Disk = Disk(tempDir: string, seconds: nat, tag: string, saveError: Option<string>, glob: Glob)

  /** The log-directory lookup for an instance given the SDK session id. */
  type LogsLookup = (Handle, Option<string>) -> Option<string>

  datatype ThoughtKind = SystemError | SystemInfo

  /** The messages an inspection reports; Render gives each one's text. */
  datatype Message =
    | UrlError(urlError: string)
    | TitleError(titleError: string)
    | CaptureError(captureError: string)
    | SavedTo(path: string)
    | SaveFailed(saveError: string)
    | NoData

  /** One "agent_thinking" message, whose content is Render(message) and whose source is always
      "inspect_browser". */
  datatype Thought = Thought(kind: ThoughtKind, message: Message)

  /** One item of the response content; an image carries the caption "Current viewport". */
  datatype ContentItem = TextItem(text: string) | ImageItem(data: string)

  /** browser_state: each key present is Some. "urls" is [currentUrl] whenever currentUrl is present;
      "log_files" is present exactly when "logs_directory" is. */
  datatype BrowserState = BrowserState(
    currentUrl: Option<string>, urlsError: Option<string>,
    pageTitle: Option<string>, titleError: Option<string>,
    logsDirectory: Option<string>, logFiles: seq<LogFileView>)

  /** A file written with the bytes of a screenshot. */
  datatype SavedFile = SavedFile(path: string, bytes: seq<byte>)

  /** The effects an inspection had: the JPEG quality a screenshot was taken with (None when no
      screenshot was taken), whether the log-directory lookup ran, and the file written. */
  datatype InspectIO = InspectIO(screenshotQuality: Option<int>, lookedUpLogs: bool, saved: Option<SavedFile>)

  datatype InspectResult =
    /** A guard of the entry point refused the request. */
    | Refused(code: ErrorCode)
    /** success False: the session or its instance is missing. */
    | NotInspected(sessionId: string, code: ErrorCode)
    /** success True, whatever the page reads gave. */
    | Inspected(sessionId: string, currentUrl: string, pageTitle: string, content: seq<ContentItem>,
                thinking: seq<Thought>, state: BrowserState, screenshotFilePath: Option<string>)

  const UnknownUrl: string := "Unknown URL"
  const UnknownTitle: string := "Unknown Title"
  const JpegDataPrefix: string := "data:image/jpeg;base64,"
  /** The text of a message. */
  function Render(m: Message): string {
    match m
    case UrlError(e) => "Exception getting browser URL via nova.page.url: " + e
    case TitleError(e) => "Exception getting page title via nova.page.title(): " + e
    case CaptureError(e) => "Error capturing screenshot via nova.page.screenshot(): " + e
    case SavedTo(p) => "Screenshot captured. Too large for inline, saved to: " + p
    case SaveFailed(e) => "Screenshot captured but failed to save to file: " + e
    case NoData => "Screenshot capture attempt returned no data."
  }

  /** The character at index 18 that tells the error messages apart. */
  lemma ErrorSignature(m: Message)
    requires m.UrlError? || m.TitleError? || m.CaptureError?
    ensures |Render(m)| > 19
    ensures Render(m)[18] == if m.UrlError? then 'b' else if m.TitleError? then 'p' else 'r'
  {
    var p := if m.UrlError? then "Exception getting browser URL via nova.page.url: "
             else if m.TitleError? then "Exception getting page title via nova.page.title(): "
             else "Error capturing screenshot via nova.page.screenshot(): ";
    assert p[18] == if m.UrlError? then 'b' else if m.TitleError? then 'p' else 'r';
  }

  /** The characters at indices 18 and 19 of a saved-screenshot message. */
  lemma SavedSignature(path: string)
    ensures |Render(SavedTo(path))| > 19
    ensures Render(SavedTo(path))[18] == 'd' && Render(SavedTo(path))[19] == '.'
  {
    var p := "Screenshot captured. Too large for inline, saved to: ";
    assert p[18] == 'd' && p[19] == '.';
  }

  /** The characters at indices 18 and 19 of a failed-save message. */
  lemma SaveFailedSignature(e: string)
    ensures |Render(SaveFailed(e))| > 19
    ensures Render(SaveFailed(e))[18] == 'd' && Render(SaveFailed(e))[19] == ' '
  {
    var p := "Screenshot captured but failed to save to file: ";
    assert p[18] == 'd' && p[19] == ' ';
  }

  /** Characters that tell the kinds of message apart. */
  lemma RenderSignature(m: Message)
    ensures |Render(m)| > 19
    ensures m.UrlError? ==> Render(m)[18] == 'b'
    ensures m.TitleError? ==> Render(m)[18] == 'p'
    ensures m.CaptureError? ==> Render(m)[18] == 'r'
    ensures m.SavedTo? ==> Render(m)[18] == 'd' && Render(m)[19] == '.'
    ensures m.SaveFailed? ==> Render(m)[18] == 'd' && Render(m)[19] == ' '
    ensures m.NoData? ==> Render(m)[18] == ' '
  {
    match m
    case SavedTo(p) => SavedSignature(p);
    case SaveFailed(e) => SaveFailedSignature(e);
    case NoData =>
    case _ => ErrorSignature(m);
  }

  /** Different messages have different texts, so comparing texts (as the deduplication of
      the status message does) is comparing messages. */
  lemma RenderInjective(m1: Message, m2: Message)
    ensures Render(m1) == Render(m2) <==> m1 == m2
  {
    RenderSignature(m1);
    RenderSignature(m2);
    if Render(m1) == Render(m2) && m1.UrlError? == m2.UrlError? && m1.TitleError? == m2.TitleError?
       && m1.CaptureError? == m2.CaptureError? && m1.SavedTo? == m2.SavedTo? && m1.SaveFailed? == m2.SaveFailed? {
      var r := Render(m1);
      match m1
      case UrlError(e) => assert r[|"Exception getting browser URL via nova.page.url: "|..] == e == m2.urlError;
      case TitleError(e) => assert r[|"Exception getting page title via nova.page.title(): "|..] == e == m2.titleError;
      case CaptureError(e) => assert r[|"Error capturing screenshot via nova.page.screenshot(): "|..] == e == m2.captureError;
      case SavedTo(p) => assert r[|"Screenshot captured. Too large for inline, saved to: "|..] == p == m2.path;
      case SaveFailed(e) => assert r[|"Screenshot captured but failed to save to file: "|..] == e == m2.saveError;
      case NoData =>
    }
  }

  /** The title reported for a value page.title() returned. */
  function TitleString(v: TitleValue): (t: string)
    ensures v.TitleText? ==> t == v.text
    ensures v.TitleNone? ==> t == UnknownTitle
    ensures v.TitleOther? ==> t == v.rendered
  {
    match v
    case TitleText(s) => s
    case TitleNone => UnknownTitle
    case TitleOther(s) => s
  }

  /** The text item every response carries. */
  function Summary(url: string, title: string): string {
    "Current URL: " + url + "\nPage Title: " + title
  }

  /** An inline screenshot: a data URL whose payload decodes back to the screenshot's bytes. */
  function InlineImage(b: seq<byte>): (d: string)
    ensures JpegDataPrefix <= d
    ensures Base64.Decode(d[|JpegDataPrefix|..]) == Some(b)
  {
    Base64.DecodeEncode(b);
    var d := JpegDataPrefix + Base64.Encode(b);
    assert d[|JpegDataPrefix|..] == Base64.Encode(b);
    d
  }

  /** Where a too-large screenshot is saved: the "screenshots" directory below the session's log
      directory, or below <tmp>/nova_mcp_server_logs/<session id> when there is none. */
  function ScreenshotDir(logsDir: Option<string>, tempDir: string, sid: string): (dir: string)
    ensures Truthy(logsDir) ==>
      dir == logsDir.value + (if logsDir.value[|logsDir.value| - 1] != '/' then "/" else "") + "screenshots"
    ensures |"screenshots"| <= |dir| && dir[|dir| - |"screenshots"|..] == "screenshots"
  {
    var base := if Truthy(logsDir) then logsDir.value else Text.Join(Text.Join(tempDir, "nova_mcp_server_logs"), sid);
    Text.Join(base, "screenshots")
  }

  /** Without a log directory of its own, a session's screenshots go to
      <tmp>/nova_mcp_server_logs/<session id>/screenshots (for a temporary directory and a
      session id that are ordinary path components). */
  lemma ScreenshotDirFallback(tempDir: string, sid: string)
    requires tempDir != [] && tempDir[|tempDir| - 1] != '/'
    requires sid != [] && sid[0] != '/' && sid[|sid| - 1] != '/'
    ensures ScreenshotDir(None, tempDir, sid) == tempDir + "/nova_mcp_server_logs/" + sid + "/screenshots"
  {
    var root := Text.Join(tempDir, "nova_mcp_server_logs");
    assert root == tempDir + "/nova_mcp_server_logs";
    var base := Text.Join(root, sid);
    assert base == root + "/" + sid;
    assert base[|base| - 1] == sid[|sid| - 1];
    assert Text.Join(base, "screenshots") == base + "/screenshots";
  }

  /** screenshot_<seconds>_<tag>.jpg */
  function ScreenshotName(seconds: nat, tag: string): (name: string)
    ensures "screenshot_" <= name
    ensures |name| >= 4 && name[|name| - 4..] == ".jpg"
  {
    "screenshot_" + Text.NatToString(seconds) + "_" + tag + ".jpg"
  }

  /** The full path a too-large screenshot is written to. */
  function ScreenshotPath(logsDir: Option<string>, disk: Disk, sid: string): (path: string)
    ensures path == ScreenshotDir(logsDir, disk.tempDir, sid) + "/" + ScreenshotName(disk.seconds, disk.tag)
    ensures |path| >= 4 && path[|path| - 4..] == ".jpg"
  {
    var name := ScreenshotName(disk.seconds, disk.tag);
    var path := Text.Join(ScreenshotDir(logsDir, disk.tempDir, sid), name);
    assert path[|path| - |name|..] == name;
    assert path[|path| - 4..] == name[|name| - 4..];
    path
  }

  /** The screenshot status message, if any: it says why no inline image is shown. */
  function ScreenshotStatus(includeScreenshot: bool, shot: Result<seq<byte>, string>, maxInline: nat,
                            path: string, saveError: Option<string>): Option<Message>
  {
    if !includeScreenshot then None
    else if shot.Err? then Some(CaptureError(shot.error))
    else if |shot.value| == 0 then Some(NoData)
    else if |shot.value| <= maxInline then None
    else if saveError.Some? then Some(SaveFailed(saveError.value))
    else Some(SavedTo(path))
  }

  /** The system_error messages of the failed page reads, in the order they are attempted. */
  function ReadErrors(page: Page, includeScreenshot: bool): seq<Thought> {
    (if page.url.Err? then [Thought(SystemError, UrlError(page.url.error))] else [])
    + (if page.title.Err? then [Thought(SystemError, TitleError(page.title.error))] else [])
    + (if includeScreenshot && page.screenshot.Err? then [Thought(SystemError, CaptureError(page.screenshot.error))] else [])
  }

  /** The capture error, when there is one, comes after the errors of the two reads. */
  lemma ReadErrorsCapture(page: Page, includeScreenshot: bool)
    ensures ReadErrors(page, includeScreenshot) == ReadErrors(page, false)
      + (if includeScreenshot && page.screenshot.Err? then [Thought(SystemError, CaptureError(page.screenshot.error))] else [])
  {
  }

  /** Adds the status message as system_info unless a message with the same text is already there. */
  function WithStatus(thoughts: seq<Thought>, status: Option<Message>): seq<Thought> {
    if status.Some? && !(exists t :: t in thoughts && Render(t.message) == Render(status.value))
    then thoughts + [Thought(SystemInfo, status.value)]
    else thoughts
  }

  /** No two thinking messages have the same text. */
  predicate DistinctContents(thoughts: seq<Thought>) {
    forall i, j :: 0 <= i < j < |thoughts| ==> Render(thoughts[i].message) != Render(thoughts[j].message)
  }

  /** Each failed read is reported once, by a system_error message of its own. */
  lemma ReadErrorsDistinct(page: Page, includeScreenshot: bool)
    ensures DistinctContents(ReadErrors(page, includeScreenshot))
    ensures forall t :: t in ReadErrors(page, includeScreenshot) ==> t.kind == SystemError
    ensures |ReadErrors(page, includeScreenshot)|
      == (if page.url.Err? then 1 else 0) + (if page.title.Err? then 1 else 0)
         + (if includeScreenshot && page.screenshot.Err? then 1 else 0)
  {
    var errs := ReadErrors(page, includeScreenshot);
    forall i, j | 0 <= i < j < |errs| ensures Render(errs[i].message) != Render(errs[j].message) {
      RenderInjective(errs[i].message, errs[j].message);
    }
  }

  /** Adding the status message keeps the texts distinct, and afterwards a message with the
      status text is present: the status is reported exactly once. */
  lemma WithStatusReportsOnce(thoughts: seq<Thought>, status: Option<Message>)
    requires DistinctContents(thoughts)
    ensures DistinctContents(WithStatus(thoughts, status))
    ensures status.Some? ==> exists t :: t in WithStatus(thoughts, status) && Render(t.message) == Render(status.value)
    ensures thoughts <= WithStatus(thoughts, status)
  {
    var r := WithStatus(thoughts, status);
    if r != thoughts {
      forall i, j | 0 <= i < j < |r| ensures Render(r[i].message) != Render(r[j].message) {
        if j == |thoughts| {
          assert r[i] in thoughts;
        }
      }
      assert r[|thoughts|] in r;
    }
  }

  /** The guards of the entry point and the session lookup, in order. */
  function InspectGuard(sid: string, sdkAvailable: bool, sessions: map<string, Entry>): (g: Option<ErrorCode>)
    ensures g == None <==> sid != "" && sdkAvailable && sid in sessions && sessions[sid].nova.Some?
  {
    if sid == "" then Some(MissingParameter)
    else if !sdkAvailable then Some(NovaActNotAvailable)
    else if sid !in sessions then Some(SessionNotFound)
    else if sessions[sid].nova.None? then Some(NovaInstanceNotFound)
    else None
  }

  /** The log directory an inspection uses: the session's own, or the lookup's answer. */
  function LogsDirOf(e: Entry, lookupLogs: LogsLookup): Option<string>
    requires e.nova.Some?
  {
    if Truthy(e.logsDir) then e.logsDir else lookupLogs(e.nova.value, e.novaSessionId)
  }

  /** The URL and title reads: each failure is recorded in the browser state and as a
      system_error message, and the defaults stand in for what could not be read. */
  method ReadPage(page: Page) returns (currentUrl: string, pageTitle: string, state: BrowserState, thinking: seq<Thought>)
    ensures currentUrl == (if page.url.Ok? then page.url.value else UnknownUrl)
    ensures pageTitle == (if page.title.Ok? then TitleString(page.title.value) else UnknownTitle)
    ensures thinking == ReadErrors(page, false)
    ensures state == BrowserState(
      if page.url.Ok? then Some(page.url.value) else None,
      if page.url.Err? then Some(page.url.error) else None,
      if page.title.Ok? then Some(pageTitle) else None,
      if page.title.Err? then Some(page.title.error) else None,
      None, [])
  {
    state := BrowserState(None, None, None, None, None, []);
    thinking := [];
    currentUrl := UnknownUrl;
    pageTitle := UnknownTitle;
    match page.url {
      case Ok(u) =>
        currentUrl := u;
        state := state.(currentUrl := Some(u));
      case Err(e) =>
        state := state.(urlsError := Some(e));
        thinking := thinking + [Thought(SystemError, UrlError(e))];
    }
    match page.title {
      case Ok(v) =>
        pageTitle := TitleString(v);
        state := state.(pageTitle := Some(pageTitle));
      case Err(e) =>
        state := state.(titleError := Some(e));
        thinking := thinking + [Thought(SystemError, TitleError(e))];
    }
  }

  /** The screenshot step: taken only when asked for, inline when it is non-empty and at most
      maxInline bytes, otherwise written to `path` unless saving fails. */
  method CaptureScreenshot(includeScreenshot: bool, quality: Option<int>, defaultQuality: int,
                           shot: Result<seq<byte>, string>, maxInline: nat, path: string, saveError: Option<string>)
    returns (shotQuality: Option<int>, status: Option<Message>, inlineImage: Option<string>, saved: Option<SavedFile>)
    ensures shotQuality == (if includeScreenshot then Some(quality.GetOr(defaultQuality)) else None)
    ensures status == ScreenshotStatus(includeScreenshot, shot, maxInline, path, saveError)
    ensures inlineImage.Some? <==> includeScreenshot && shot.Ok? && 0 < |shot.value| <= maxInline
    ensures inlineImage.Some? ==> inlineImage.value == InlineImage(shot.value)
    ensures saved.Some? <==> includeScreenshot && shot.Ok? && |shot.value| > maxInline && saveError.None?
    ensures saved.Some? ==> saved.value == SavedFile(path, shot.value)
  {
    shotQuality, status, inlineImage, saved := None, None, None, None;
    if includeScreenshot {
      shotQuality := Some(quality.GetOr(defaultQuality));
      match shot {
        case Err(e) =>
          status := Some(CaptureError(e));
        case Ok(bytes) =>
          if |bytes| == 0 {
            status := Some(NoData);
          } else if |bytes| <= maxInline {
            inlineImage := Some(InlineImage(bytes));
          } else if saveError.Some? {
            status := Some(SaveFailed(saveError.value));
          } else {
            saved := Some(SavedFile(path, bytes));
            status := Some(SavedTo(path));
          }
      }
    }
  }

  /** The status message is added as system_info unless a message with its content exists. */
  method ReportStatus(thoughts: seq<Thought>, status: Option<Message>) returns (r: seq<Thought>)
    ensures r == WithStatus(thoughts, status)
  {
    r := thoughts;
    if status.Some? && !(exists t :: t in thoughts && Render(t.message) == Render(status.value)) {
      r := r + [Thought(SystemInfo, status.value)];
    }
  }

  /** The log listing of an inspection: reported only when there is a log directory. */
  method ListLogs(logsDir: Option<string>, glob: Glob) returns (logsDirectory: Option<string>, logFiles: seq<LogFileView>)
    ensures logsDirectory == (if Truthy(logsDir) then logsDir else None)
    ensures logFiles == (if Truthy(logsDir) then Listing(Gathered(logsDir.value, glob, |Suffixes|)) else [])
  {
    logsDirectory, logFiles := None, [];
    if Truthy(logsDir) {
      var found := CollectLogFiles(logsDir.value, glob);
      logsDirectory, logFiles := logsDir, Listing(found);
    }
  }

  /** Whether a too-large screenshot is written to disk. */
  predicate SavesShot(includeScreenshot: bool, shot: Result<seq<byte>, string>, maxInline: nat, disk: Disk) {
    includeScreenshot && shot.Ok? && |shot.value| > maxInline && disk.saveError.None?
  }

  /** What an inspection of session `sid` reports, given its log directory and what the page
      and the disk answered: the URL and title (or their defaults), the inline image when the
      screenshot is small enough, the summary line, the error and status messages, the log
      listing and the path of a saved screenshot. */
  predicate Reports(
    r: InspectResult, sid: string, logsDir: Option<string>, includeScreenshot: bool, maxInline: nat,
    page: Page, disk: Disk)
  {
    var shot := page.screenshot;
    var inline := includeScreenshot && shot.Ok? && 0 < |shot.value| <= maxInline;
    var path := ScreenshotPath(logsDir, disk, sid);
    && r.Inspected? && r.sessionId == sid
    && r.currentUrl == (if page.url.Ok? then page.url.value else UnknownUrl)
    && r.pageTitle == (if page.title.Ok? then TitleString(page.title.value) else UnknownTitle)
    && r.content == (if inline then [ImageItem(InlineImage(shot.value))] else []) + [TextItem(Summary(r.currentUrl, r.pageTitle))]
    && r.thinking == WithStatus(ReadErrors(page, includeScreenshot), ScreenshotStatus(includeScreenshot, shot, maxInline, path, disk.saveError))
    && r.state.currentUrl == (if page.url.Ok? then Some(page.url.value) else None)
    && r.state.urlsError == (if page.url.Err? then Some(page.url.error) else None)
    && r.state.pageTitle == (if page.title.Ok? then Some(r.pageTitle) else None)
    && r.state.titleError == (if page.title.Err? then Some(page.title.error) else None)
    && r.state.logsDirectory == (if Truthy(logsDir) then logsDir else None)
    && r.state.logFiles == (if Truthy(logsDir) then Listing(Gathered(logsDir.value, disk.glob, |Suffixes|)) else [])
    && r.screenshotFilePath == (if SavesShot(includeScreenshot, shot, maxInline, disk) then Some(path) else None)
  }

  /** _inspect_browser once the session, its instance and its log directory are known: page
      reads, screenshot, log listing, and the assembled report. */
  method ObservePage(
    sid: string, logsDir: Option<string>, includeScreenshot: bool, quality: Option<int>,
    defaultQuality: int, maxInline: nat, page: Page, disk: Disk)
    returns (r: InspectResult, shotQuality: Option<int>, saved: Option<SavedFile>)
    ensures Reports(r, sid, logsDir, includeScreenshot, maxInline, page, disk)
    ensures shotQuality == (if includeScreenshot then Some(quality.GetOr(defaultQuality)) else None)
    ensures saved == (if SavesShot(includeScreenshot, page.screenshot, maxInline, disk)
                      then Some(SavedFile(ScreenshotPath(logsDir, disk, sid), page.screenshot.value)) else None)
  {
    var currentUrl, pageTitle, state, thinking := ReadPage(page);
    var status, inlineImage;
    shotQuality, status, inlineImage, saved :=
      CaptureScreenshot(includeScreenshot, quality, defaultQuality, page.screenshot, maxInline, ScreenshotPath(logsDir, disk, sid), disk.saveError);
    if includeScreenshot && page.screenshot.Err? {
      thinking := thinking + [Thought(SystemError, CaptureError(page.screenshot.error))];
    }
    ReadErrorsCapture(page, includeScreenshot);
    var filePath := if saved.Some? then Some(saved.value.path) else None;

    var logsDirectory, logFiles := ListLogs(logsDir, disk.glob);
    state := state.(logsDirectory := logsDirectory, logFiles := logFiles);

    var content := [TextItem(Summary(currentUrl, pageTitle))];
    if includeScreenshot && inlineImage.Some? {
      content := [ImageItem(inlineImage.value)] + content;
    }
    thinking := ReportStatus(thinking, status);
    assert filePath == (if SavesShot(includeScreenshot, page.screenshot, maxInline, disk) then Some(ScreenshotPath(logsDir, disk, sid)) else None);
    r := Inspected(sid, currentUrl, pageTitle, content, thinking, state, filePath);
  }

  /** inspect_browser_action followed by _inspect_browser. The registry is only read; an
      inspection that finds its session reports success whatever the page reads gave, and
      uses the session's log directory, or the lookup's answer when the session has none. */
  method InspectBrowserAction(
    reg: SessionRegistry, sid: string, includeScreenshot: bool, quality: Option<int>,
    sdkAvailable: bool, defaultQuality: int, maxInline: nat, page: Page, disk: Disk, lookupLogs: LogsLookup)
    returns (r: InspectResult, io: InspectIO)
    ensures sid == "" ==> r == Refused(MissingParameter)
    ensures sid != "" && !sdkAvailable ==> r == Refused(NovaActNotAvailable)
    ensures sid != "" && sdkAvailable && sid !in reg.sessions ==> r == NotInspected(sid, SessionNotFound)
    ensures sid != "" && sdkAvailable && sid in reg.sessions && reg.sessions[sid].nova.None? ==>
      r == NotInspected(sid, NovaInstanceNotFound)
    ensures InspectGuard(sid, sdkAvailable, reg.sessions).Some? ==> io == InspectIO(None, false, None)
    ensures InspectGuard(sid, sdkAvailable, reg.sessions).None? ==>
      var e := reg.sessions[sid];
      var logs := LogsDirOf(e, lookupLogs);
      && Reports(r, sid, logs, includeScreenshot, maxInline, page, disk)
      && io.lookedUpLogs == !Truthy(e.logsDir)
      && io.saved == (if SavesShot(includeScreenshot, page.screenshot, maxInline, disk)
                      then Some(SavedFile(ScreenshotPath(logs, disk, sid), page.screenshot.value)) else None)
      && io.screenshotQuality == (if includeScreenshot then Some(quality.GetOr(defaultQuality)) else None)
  {
    io := InspectIO(None, false, None);
    if sid == "" {
      return Refused(MissingParameter), io;
    }
    if !sdkAvailable {
      return Refused(NovaActNotAvailable), io;
    }
    if sid !in reg.sessions {
      return NotInspected(sid, SessionNotFound), io;
    }
    var entry := reg.sessions[sid];
    if entry.nova.None? {
      return NotInspected(sid, NovaInstanceNotFound), io;
    }
    var logsDir := entry.logsDir;
    var lookedUp := false;
    if !Truthy(logsDir) {
      logsDir := lookupLogs(entry.nova.value, entry.novaSessionId);
      lookedUp := true;
    }
    var shotQuality, saved;
    r, shotQuality, saved := ObservePage(sid, logsDir, includeScreenshot, quality, defaultQuality, maxInline, page, disk);
    io := InspectIO(shotQuality, lookedUp, saved);
  }
}
