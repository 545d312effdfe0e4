/** The interactive session tool of the single-file server (browser_session): start a browser,
    run an instruction or an extraction on it, or end it, with one registry entry per session. */
module NovaMcpSession {

  import opened Common
  import opened Registry
  import opened NovaMcpRegistry

  /** The profile a started session uses. */
  const DefaultProfile: string := "default"

  /** What an act or an extraction returned: its response, and the page's URL and title read
      afterwards. */
  datatype ActOutcome = ActOutcome(response: Option<string>, url: string, title: string)

  /** The SDK call that runs a text on an instance: the outcome, or the message of the error
      raised by the call or by reading the page afterwards. */
  type Actor = (Handle, string) -> Result<ActOutcome, string>

  datatype SessionAnswer =
    /** success False, with only a text. */
    | Refusal(text: string)
    /** success False, with the error and the session id in its details. */
    | ActionFailed(text: string, sessionId: string, error: string)
    /** The JSON answer of an action that went through. */
    | Answer(sessionId: string, status: string, currentUrl: Option<string>, pageTitle: Option<string>,
             actionTaken: string, extracted: Option<string>)

  /** The answer for a session id the registry does not hold. */
  function NoSession(sid: string): string {
    "Error: No active session found with session_id: " + sid
  }

  /** The answer for a session whose entry holds no instance. */
  function NoInstance(sid: string): string {
    "Error: No active browser instance found for session_id: " + sid
  }

  /** The entry a start registers. */
  function StartEntry(url: string, now: real): (e: LegacyEntry)
    ensures e.identity == DefaultProfile && e.status == Initializing && e.url == url
    ensures e.progress == Progress(0, 1, None) && e.steps == [] && e.results == []
    ensures e.nova.None? && !e.complete
  {
    LegacyEntry(DefaultProfile, Initializing, Progress(0, 1, None), url, [], [], now, None, false, None, None)
  }

  /** What the "start" action does to the registry and answers. `launch` is the instance the
      SDK opens (or the error creating the profile directory or opening raised), `page` the URL
      and title read before returning, and `exitError` the error leaving the instance's context
      raised; an error raised there replaces one the body raised, as Python's `with` does. */
  predicate Started(
    before: map<string, LegacyEntry>, after: map<string, LegacyEntry>, r: SessionAnswer,
    url: string, sid: string, now: real, launch: Result<Handle, string>,
    sessionIdAttr: Option<string>, page: Handle -> Result<(string, string), string>, exitError: Option<string>)
  {
    && (url == "" ==> r == Refusal("Error: URL is required for 'start' action.") && after == before)
    && (url != "" ==>
          && sid in after && after == before[sid := after[sid]]
          && after.Keys == before.Keys + {sid}
          && after[sid].identity == DefaultProfile && after[sid].url == url)
    && (url != "" && launch.Err? ==>
          r == ActionFailed("Error starting browser session: " + launch.error, sid, launch.error)
          && after[sid] == MarkedFailed(StartEntry(url, now), launch.error))
    && (url != "" && launch.Ok? ==>
          var live := StartEntry(url, now).(nova := Some(launch.value), status := BrowserOpen,
                                              novaSessionId := if Truthy(sessionIdAttr) then sessionIdAttr else None);
          var read := page(launch.value);
          && (read.Ok? && exitError.None? ==>
                r == Answer(sid, "browser_open", Some(read.value.0), Some(read.value.1), "Browser session started", None)
                && after[sid] == live)
          && (read.Err? && exitError.None? ==>
                r == ActionFailed("Error starting browser session: " + read.error, sid, read.error)
                && after[sid] == MarkedFailed(live, read.error))
          && (exitError.Some? ==>
                r == ActionFailed("Error starting browser session: " + exitError.value, sid, exitError.value)
                && after[sid] == MarkedFailed(live, exitError.value)))
  }

  /** The "start" action. */
  method StartAction(
    reg: LegacyRegistry, url: string, sid: string, now: real, launch: Result<Handle, string>,
    sessionIdAttr: Option<string>, page: Handle -> Result<(string, string), string>, exitError: Option<string>)
    returns (r: SessionAnswer)
    modifies reg
    ensures Started(old(reg.sessions), reg.sessions, r, url, sid, now, launch, sessionIdAttr, page, exitError)
  {
    if url == "" {
      return Refusal("Error: URL is required for 'start' action.");
    }
    reg.sessions := reg.sessions[sid := StartEntry(url, now)];
    var error: string;
    if launch.Err? {
      error := launch.error;
    } else {
      var nova := launch.value;
      var e := reg.sessions[sid].(nova := Some(nova), status := BrowserOpen);
      if Truthy(sessionIdAttr) {
        e := e.(novaSessionId := sessionIdAttr);
      }
      reg.sessions := reg.sessions[sid := e];
      var read := page(nova);
      if read.Ok? && exitError.None? {
        return Answer(sid, "browser_open", Some(read.value.0), Some(read.value.1), "Browser session started", None);
      }
      error := if exitError.Some? then exitError.value else read.error;
    }
    reg.sessions := reg.sessions[sid := MarkedFailed(reg.sessions[sid], error)];
    r := ActionFailed("Error starting browser session: " + error, sid, error);
  }

  /** The two actions that run a text on the page. */
  datatype PageAction = Execute | Extract

  /** The content recorded for an outcome: its response, else a line naming the page. */
  function Content(o: ActOutcome): (c: string)
    ensures o.response.Some? ==> c == o.response.value
  {
    if o.response.Some? then o.response.value else "Page title: " + o.title + ", URL: " + o.url
  }

  /** What the "execute" and "extract" actions do: run the text on the session's instance,
      move the entry's URL to the page's and append one record; an error leaves the registry
      alone. */
  predicate PageActed(
    before: map<string, LegacyEntry>, after: map<string, LegacyEntry>, r: SessionAnswer,
    kind: PageAction, sid: string, text: string, act: Actor)
  {
    && (sid == "" || text == "" ==>
          r == Refusal(if kind == Execute then "Error: session_id and instruction are required for 'execute' action."
                       else "Error: session_id and extraction_query are required for 'extract' action."))
    && (sid != "" && text != "" && sid !in before ==> r == Refusal(NoSession(sid)))
    && (sid != "" && text != "" && sid in before && before[sid].nova.None? ==> r == Refusal(NoInstance(sid)))
    && after.Keys == before.Keys
    && (!(sid != "" && text != "" && sid in before && before[sid].nova.Some?) ==> after == before)
    && (sid != "" && text != "" && sid in before && before[sid].nova.Some? ==>
          var e := before[sid];
          var outcome := act(e.nova.value, text);
          && (outcome.Err? ==>
                r == ActionFailed((if kind == Execute then "Error executing instruction: " else "Error extracting data: ") + outcome.error,
                                  sid, outcome.error)
                && after == before)
          && (outcome.Ok? ==>
                var content := Content(outcome.value);
                && r == Answer(sid, if kind == Execute then "action_executed" else "data_extracted",
                               Some(outcome.value.url), Some(outcome.value.title), text,
                               if kind == Execute then None else Some(content))
                && after == before[sid := e.(url := outcome.value.url, results := e.results + [ActionRecord(text, Some(content))])]))
  }

  /** The "execute" and "extract" actions. */
  method PageActionOn(reg: LegacyRegistry, kind: PageAction, sid: string, text: string, act: Actor)
    returns (r: SessionAnswer)
    modifies reg
    ensures PageActed(old(reg.sessions), reg.sessions, r, kind, sid, text, act)
  {
    if sid == "" || text == "" {
      return Refusal(if kind == Execute then "Error: session_id and instruction are required for 'execute' action."
                     else "Error: session_id and extraction_query are required for 'extract' action.");
    }
    if sid !in reg.sessions {
      return Refusal(NoSession(sid));
    }
    var e := reg.sessions[sid];
    if e.nova.None? {
      return Refusal(NoInstance(sid));
    }
    var outcome := act(e.nova.value, text);
    if outcome.Err? {
      var prefix := if kind == Execute then "Error executing instruction: " else "Error extracting data: ";
      return ActionFailed(prefix + outcome.error, sid, outcome.error);
    }
    var content := Content(outcome.value);
    reg.sessions := reg.sessions[sid := e.(url := outcome.value.url, results := e.results + [ActionRecord(text, Some(content))])];
    r := Answer(sid, if kind == Execute then "action_executed" else "data_extracted",
                Some(outcome.value.url), Some(outcome.value.title), text,
                if kind == Execute then None else Some(content));
  }

  /** Whether the "end" action calls close(): only on an instance whose "_closed" flag is
      False. `closedAttr` is that flag (None when the instance has none). */
  predicate Closes(sessions: map<string, LegacyEntry>, sid: string, closedAttr: Handle -> Option<bool>)
    requires sid in sessions
  {
    sessions[sid].nova.Some? && closedAttr(sessions[sid].nova.value) == Some(false)
  }

  /** What the "end" action does: close the instance when it reports itself open, then mark
      the session ended and complete. The entry stays in the registry. `closeError` is the
      error close() raised. */
  predicate EndedAs(
    before: map<string, LegacyEntry>, after: map<string, LegacyEntry>, r: SessionAnswer,
    sid: string, closedAttr: Handle -> Option<bool>, closeError: Option<string>)
  {
    && (sid == "" ==> r == Refusal("Error: session_id is required for 'end' action."))
    && (sid != "" && sid !in before ==> r == Refusal(NoSession(sid)))
    && after.Keys == before.Keys
    && (!(sid != "" && sid in before) ==> after == before)
    && (sid != "" && sid in before ==>
          var e := before[sid];
          && (Closes(before, sid, closedAttr) && closeError.Some? ==>
                r == ActionFailed("Error ending browser session: " + closeError.value, sid, closeError.value)
                && after == before)
          && (!(Closes(before, sid, closedAttr) && closeError.Some?) ==>
                r == Answer(sid, "ended", None, None, "Browser session ended", None)
                && after == before[sid := e.(status := Ended, complete := true)]))
  }

  /** The "end" action; `closeCalled` says whether close() was called. */
  method EndAction(reg: LegacyRegistry, sid: string, closedAttr: Handle -> Option<bool>, closeError: Option<string>)
    returns (r: SessionAnswer, closeCalled: bool)
    modifies reg
    ensures EndedAs(old(reg.sessions), reg.sessions, r, sid, closedAttr, closeError)
    ensures closeCalled <==> sid != "" && sid in old(reg.sessions) && Closes(old(reg.sessions), sid, closedAttr)
  {
    closeCalled := false;
    if sid == "" {
      return Refusal("Error: session_id is required for 'end' action."), false;
    }
    if sid !in reg.sessions {
      return Refusal(NoSession(sid)), false;
    }
    var e := reg.sessions[sid];
    if e.nova.Some? && closedAttr(e.nova.value) == Some(false) {
      closeCalled := true;
      if closeError.Some? {
        return ActionFailed("Error ending browser session: " + closeError.value, sid, closeError.value), true;
      }
    }
    reg.sessions := reg.sessions[sid := e.(status := Ended, complete := true)];
    r := Answer(sid, "ended", None, None, "Browser session ended", None);
  }

  /** The actions browser_session accepts. */
  predicate KnownAction(action: string) {
    action == "start" || action == "execute" || action == "extract" || action == "end"
  }

  /** browser_session: refuses without the SDK or an API key, then dispatches on the action.
      Only "start" adds a session; no action removes one. */
  method BrowserSession(
    reg: LegacyRegistry, action: string, sid: string, url: string, instruction: string, extractionQuery: string,
    sdkAvailable: bool, apiKey: string, generatedId: string, now: real, launch: Result<Handle, string>,
    sessionIdAttr: Option<string>, page: Handle -> Result<(string, string), string>, exitError: Option<string>,
    act: Actor, extract: Actor, closedAttr: Handle -> Option<bool>, closeError: Option<string>)
    returns (r: SessionAnswer)
    modifies reg
    ensures !sdkAvailable ==> r == Refusal(NotInstalledText) && reg.sessions == old(reg.sessions)
    ensures sdkAvailable && apiKey == "" ==> r == Refusal(NoApiKeyText) && reg.sessions == old(reg.sessions)
    ensures !KnownAction(action) && sdkAvailable && apiKey != "" ==>
      r == Refusal("Error: Unknown action '" + action + "'. Valid actions are 'start', 'execute', 'extract', 'end'.")
      && reg.sessions == old(reg.sessions)
    ensures sdkAvailable && apiKey != "" && action == "start" ==>
      Started(old(reg.sessions), reg.sessions, r, url, generatedId, now, launch, sessionIdAttr, page, exitError)
    ensures sdkAvailable && apiKey != "" && action == "execute" ==>
      PageActed(old(reg.sessions), reg.sessions, r, Execute, sid, instruction, act)
    ensures sdkAvailable && apiKey != "" && action == "extract" ==>
      PageActed(old(reg.sessions), reg.sessions, r, Extract, sid, extractionQuery, extract)
    ensures sdkAvailable && apiKey != "" && action == "end" ==>
      EndedAs(old(reg.sessions), reg.sessions, r, sid, closedAttr, closeError)
    ensures action != "start" ==> reg.sessions.Keys == old(reg.sessions).Keys
  {
    if !sdkAvailable {
      return Refusal(NotInstalledText);
    }
    if apiKey == "" {
      return Refusal(NoApiKeyText);
    }
    if action == "start" {
      r := StartAction(reg, url, generatedId, now, launch, sessionIdAttr, page, exitError);
    } else if action == "execute" {
      r := PageActionOn(reg, Execute, sid, instruction, act);
    } else if action == "extract" {
      r := PageActionOn(reg, Extract, sid, extractionQuery, extract);
    } else if action == "end" {
      var closeCalled;
      r, closeCalled := EndAction(reg, sid, closedAttr, closeError);
    } else {
      r := Refusal("Error: Unknown action '" + action + "'. Valid actions are 'start', 'execute', 'extract', 'end'.");
    }
  }
}
