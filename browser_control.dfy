/** The browser-control tools: the per-session executor table and the four tool entry points
    (start, execute, end, inspect) that guard their arguments, keep one executor per session
    and hand the work to the action modules. */
module BrowserControl {

  import opened Common
  import opened Registry
  import Start
  import End
  import Inspect

  /** The executors a table holds under one key, as a frame. */
  function ExecutorAt(executors: map<string, Executor>, sid: string): set<Executor> {
    if sid in executors then {executors[sid]} else {}
  }

  /** Registry and table agree: an executor a registry entry holds is either the one the table
      keeps under that entry's id, or is no longer in the table at all. */
  predicate Tied(sessions: map<string, Entry>, executors: map<string, Executor>) {
    forall s, t :: s in sessions && sessions[s].executor.Some? && t in executors && executors[t] == sessions[s].executor.value ==> s == t
  }

  /** Replacing or removing one session's entry, leaving it without an executor, and changing
      the table only under that session's id keeps registry and table tied, provided no other
      entry holds the executor the table now has under that id. */
  lemma TiedAfterReplace(
    before: map<string, Entry>, after: map<string, Entry>,
    tBefore: map<string, Executor>, tAfter: map<string, Executor>, sid: string)
    requires Tied(before, tBefore)
    requires forall s :: s in after && s != sid ==> s in before && after[s] == before[s]
    requires sid in after ==> after[sid].executor.None?
    requires tAfter - {sid} == tBefore - {sid}
    requires sid in tAfter ==>
      forall s :: s in after && s != sid && after[s].executor.Some? ==> after[s].executor.value != tAfter[sid]
    ensures Tied(after, tAfter)
  {
    forall s, t | s in after && after[s].executor.Some? && t in tAfter && tAfter[t] == after[s].executor.value
      ensures s == t
    {
      if t != sid {
        assert t in tAfter - {sid};
      }
    }
  }

  /** The process-wide table of per-session executors (session_executors). */
  class ExecutorTable {
    var executors: map<string, Executor>

    /** Every executor in the table is live, and no two sessions share one. */
    predicate Valid()
      reads this, executors.Values
    {
      && (forall s :: s in executors ==> !executors[s].isShutdown)
      && (forall s, t :: s in executors && t in executors && s != t ==> executors[s] != executors[t])
    }

    constructor ()
      ensures executors == map[] && Valid()
    {
      executors := map[];
    }

    /** get_session_executor: the session's executor, created (and recorded) when it has none. */
    method GetSessionExecutor(sid: string) returns (x: Executor)
      modifies this
      ensures sid in old(executors) ==> x == old(executors)[sid] && executors == old(executors)
      ensures sid !in old(executors) ==> fresh(x) && !x.isShutdown && executors == old(executors)[sid := x]
      ensures old(Valid()) ==> Valid()
    {
      if sid !in executors {
        var made := new Executor();
        executors := executors[sid := made];
      }
      x := executors[sid];
    }

    /** cleanup_session_executor: removes the session's executor, shutting it down. */
    method CleanupSessionExecutor(sid: string)
      modifies this, ExecutorAt(executors, sid)
      ensures executors == old(executors) - {sid}
      ensures sid in old(executors) ==> old(executors)[sid].isShutdown
      ensures old(Valid()) ==> Valid()
    {
      if sid in executors {
        var x := executors[sid];
        executors := executors - {sid};
        x.Shutdown();
      }
    }
  }

  /** The message start_session reports when handing its arguments to
      initialize_browser_session fails: five positional arguments for a function that takes
      at most four. */
  const ArityError: string :=
    "Failed to initialize session: initialize_browser_session() takes from 1 to 4 positional arguments but 5 were given"

  datatype StartToolResult =
    /** A guard of start_session refused the request. */
    | StartRefused(code: ErrorCode)
    /** The dispatch itself raised; the message is reported with status "error". */
    | StartFailed(error: string)
    /** What initialize_browser_session returned. */
    | StartReported(result: Start.StartResult)

  /** start_session as written: once its own guards pass, the dispatch passes the request
      context as a fifth positional argument, which raises before any session is created. */
  method StartSessionAsWritten(
    reg: SessionRegistry, table: ExecutorTable, url: string, sdkAvailable: bool, apiKey: string)
    returns (r: StartToolResult)
    ensures ToolGuard(sdkAvailable, apiKey, url).Some? ==>
      r == StartRefused(ToolGuard(sdkAvailable, apiKey, url).value)
    ensures ToolGuard(sdkAvailable, apiKey, url).None? ==> r == StartFailed(ArityError)
    ensures !r.StartReported?
  {
    var guard := ToolGuard(sdkAvailable, apiKey, url);
    if guard.Some? {
      return StartRefused(guard.value);
    }
    r := StartFailed(ArityError);
  }

  /** start_session with initialize_browser_session called on its four arguments: a started
      session gets an executor, a failed one loses any executor it had. */
  method StartSession(
    reg: SessionRegistry, table: ExecutorTable, url: string, identity: string, headless: bool,
    requestedId: string, sdkAvailable: bool, apiKey: string, generatedId: string, tempDir: string,
    now: real, launch: Start.Launcher, discover: Start.Discoverer, lookupLogs: Start.LogsLookup)
    returns (r: StartToolResult)
    modifies reg, table, ExecutorAt(table.executors, Start.ChosenId(requestedId, generatedId))
    ensures ToolGuard(sdkAvailable, apiKey, url).Some? ==>
      r == StartRefused(ToolGuard(sdkAvailable, apiKey, url).value)
      && reg.sessions == old(reg.sessions) && table.executors == old(table.executors)
    ensures ToolGuard(sdkAvailable, apiKey, url).None? ==>
      var sid := Start.ChosenId(requestedId, generatedId);
      var attempt := launch(Start.ConfigFor(url, headless, apiKey, tempDir, sid));
      && r.StartReported? && !r.result.Refused?
      && (attempt.Err? ==> r == StartReported(Start.Failed(sid, None, identity, attempt.error, url)))
      && (r.result.Started? <==> attempt.Ok? && lookupLogs(attempt.value, Start.KeptSessionId(discover(attempt.value))).Ok?)
      && (r.result.Started? ==>
            var nsid := Start.KeptSessionId(discover(attempt.value));
            var logs := lookupLogs(attempt.value, nsid).value;
            && r.result == Start.Started(sid, nsid, identity, url, logs, logs.Some?)
            && reg.sessions == old(reg.sessions)[sid := Entry(Some(attempt.value), identity, Ready, url, nsid, logs, now, None)])
      && (r.result.Started? ==>
            && r.result.sessionId == sid && sid in reg.sessions
            && table.executors - {sid} == old(table.executors) - {sid}
            && (sid != "" ==> sid in table.executors)
            && (sid == "" ==> table.executors == old(table.executors)))
      && (r.result.Failed? ==>
            && r.result.sessionId == sid && sid !in reg.sessions
            && table.executors == (if sid != "" then old(table.executors) - {sid} else old(table.executors)))
    ensures old(table.Valid()) ==> table.Valid()
    ensures old(Tied(reg.sessions, table.executors)) ==> Tied(reg.sessions, table.executors)
  {
    var guard := ToolGuard(sdkAvailable, apiKey, url);
    if guard.Some? {
      return StartRefused(guard.value);
    }
    var result, launched := Start.InitializeBrowserSession(
      reg, url, identity, headless, requestedId, sdkAvailable, apiKey, generatedId, tempDir, now,
      launch, discover, lookupLogs);
    var sid := Start.ChosenId(requestedId, generatedId);
    var entries, before := reg.sessions, table.executors;
    if result.Started? && result.sessionId != "" {
      var x := table.GetSessionExecutor(result.sessionId);
      assert sid !in before ==> forall s :: s in entries && s != sid && entries[s].executor.Some? ==> entries[s].executor.value != x;
    } else if result.Failed? && result.sessionId != "" {
      table.CleanupSessionExecutor(result.sessionId);
    }
    if old(Tied(reg.sessions, table.executors)) {
      TiedAfterReplace(old(reg.sessions), reg.sessions, old(table.executors), table.executors, sid);
    }
    r := StartReported(result);
  }

  datatype ExecuteToolResult<R> =
    /** A guard refused the request. */
    | ExecuteRefused(code: ErrorCode)
    /** What execute_session_action returned. */
    | ExecuteReported(response: R)
    /** execute_session_action raised; the message is reported with success False. */
    | ExecuteFailed(sessionId: string, error: string)

  /** execute_instruction. `outcome` is what execute_session_action returns or raises, which is
      not part of this model. Before delegating, the session's executor and the clock are
      stored in its entry. */
  method ExecuteInstruction<R>(
    reg: SessionRegistry, table: ExecutorTable, sid: string, task: string, now: real, outcome: Result<R, string>)
    returns (r: ExecuteToolResult<R>)
    modifies reg, table
    ensures sid == "" || task == "" ==>
      r == ExecuteRefused(MissingParameter) && reg.sessions == old(reg.sessions) && table.executors == old(table.executors)
    ensures sid != "" && task != "" && sid !in old(reg.sessions) ==>
      r == ExecuteRefused(SessionNotFound) && reg.sessions == old(reg.sessions) && table.executors == old(table.executors)
    ensures sid != "" && task != "" && sid in old(reg.sessions) ==>
      && sid in table.executors && table.executors - {sid} == old(table.executors) - {sid}
      && (sid in old(table.executors) ==> table.executors == old(table.executors))
      && reg.sessions == old(reg.sessions)[sid := old(reg.sessions)[sid].(executor := Some(table.executors[sid]), lastUpdated := now)]
      && r == (if outcome.Ok? then ExecuteReported(outcome.value)
               else ExecuteFailed(sid, "Error executing instruction: " + outcome.error))
    ensures old(table.Valid()) ==> table.Valid()
    ensures old(table.Valid() && Tied(reg.sessions, table.executors)) ==> Tied(reg.sessions, table.executors)
  {
    if sid == "" || task == "" {
      return ExecuteRefused(MissingParameter);
    }
    if sid !in reg.sessions {
      return ExecuteRefused(SessionNotFound);
    }
    var executor := table.GetSessionExecutor(sid);
    reg.sessions := reg.sessions[sid := reg.sessions[sid].(executor := Some(executor), lastUpdated := now)];
    if outcome.Ok? {
      r := ExecuteReported(outcome.value);
    } else {
      r := ExecuteFailed(sid, "Error executing instruction: " + outcome.error);
    }
  }

  datatype EndToolResult =
    /** No session id was given. */
    | EndRefused(code: ErrorCode)
    /** The session is not in the registry. */
    | EndNotFound(sessionId: string)
    /** What end_session_action returned. */
    | EndReported(result: End.EndResult)
    /** Scheduling end_session_action on the executor raised. */
    | EndFailed(sessionId: string, error: string)

  /** What end_session_action answers for a registered session once scheduled: refused
      without the SDK; a registry clean-up when the entry holds no instance; the close fault
      with no close calls; otherwise the close calls made and the session's identity. */
  predicate EndAnswer(
    result: End.EndResult, calls: seq<End.CloseCall>, e: Entry, sid: string, sdkAvailable: bool,
    closer: End.Closer, fault: Option<string>)
  {
    if !sdkAvailable then result == End.Refused(NovaActNotAvailable) && calls == []
    else if e.nova.None? then result == End.CleanedUp(sid) && calls == []
    else if fault.Some? then result == End.CloseFailed(sid, fault.value) && calls == []
    else result == End.Closed(sid, e.identity) && calls == End.CloseCalls(closer)
  }

  /** The work end_session schedules on the session's executor, followed by the executor's
      removal from the table. */
  method EndScheduled(
    reg: SessionRegistry, table: ExecutorTable, sid: string, sdkAvailable: bool, closer: End.Closer, fault: Option<string>)
    returns (result: End.EndResult, calls: seq<End.CloseCall>)
    requires sid != "" && sid in reg.sessions
    modifies reg, table, ExecutorOf(reg.sessions, sid), ExecutorAt(table.executors, sid)
    ensures table.executors == old(table.executors) - {sid}
    ensures sid in old(table.executors) ==> old(table.executors)[sid].isShutdown
    ensures EndAnswer(result, calls, old(reg.sessions)[sid], sid, sdkAvailable, closer, fault)
    ensures reg.sessions == if sdkAvailable then old(reg.sessions) - {sid} else old(reg.sessions)
    ensures old(table.Valid() && Tied(reg.sessions, table.executors)) ==> table.Valid() && Tied(reg.sessions, table.executors)
  {
    ghost var e := reg.sessions[sid];
    result, calls := End.EndSessionAction(reg, sid, sdkAvailable, closer, fault);
    assert EndAnswer(result, calls, e, sid, sdkAvailable, closer, fault);
    table.CleanupSessionExecutor(sid);
  }

  /** end_session. `dispatchError` is the error raised when scheduling the work on the
      session's executor, if any. Whatever happens past the guards, the session's executor is
      removed from the table. */
  method EndSession(
    reg: SessionRegistry, table: ExecutorTable, sid: string, sdkAvailable: bool, closer: End.Closer,
    fault: Option<string>, dispatchError: Option<string>)
    returns (r: EndToolResult, calls: seq<End.CloseCall>)
    modifies reg, table, ExecutorOf(reg.sessions, sid), ExecutorAt(table.executors, sid)
    ensures sid == "" ==>
      r == EndRefused(MissingParameter) && calls == [] && reg.sessions == old(reg.sessions) && table.executors == old(table.executors)
    ensures sid != "" && sid !in old(reg.sessions) ==>
      r == EndNotFound(sid) && calls == [] && reg.sessions == old(reg.sessions) && table.executors == old(table.executors)
    ensures sid != "" && sid in old(reg.sessions) ==>
      && table.executors == old(table.executors) - {sid}
      && (sid in old(table.executors) ==> old(table.executors)[sid].isShutdown)
      && (dispatchError.Some? ==>
            r == EndFailed(sid, "Error ending session: " + dispatchError.value) && calls == [] && reg.sessions == old(reg.sessions))
      && (dispatchError.None? ==>
            && r.EndReported?
            && (r.result.Refused? <==> !sdkAvailable)
            && EndAnswer(r.result, calls, old(reg.sessions)[sid], sid, sdkAvailable, closer, fault)
            && (sdkAvailable ==> reg.sessions == old(reg.sessions) - {sid})
            && (!sdkAvailable ==> reg.sessions == old(reg.sessions)))
    ensures old(table.Valid() && Tied(reg.sessions, table.executors)) ==> table.Valid() && Tied(reg.sessions, table.executors)
  {
    calls := [];
    if sid == "" {
      return EndRefused(MissingParameter), [];
    }
    if sid !in reg.sessions {
      return EndNotFound(sid), [];
    }
    var executor := table.GetSessionExecutor(sid);
    if dispatchError.Some? {
      table.CleanupSessionExecutor(sid);
      return EndFailed(sid, "Error ending session: " + dispatchError.value), [];
    }
    var result;
    result, calls := EndScheduled(reg, table, sid, sdkAvailable, closer, fault);
    r := EndReported(result);
  }

  datatype InspectToolResult =
    /** A guard of inspect_browser refused the request. */
    | InspectRefused(code: ErrorCode)
    /** The session has no executor (SESSION_EXECUTOR_NOT_FOUND). */
    | ExecutorMissing(sessionId: string)
    /** What inspect_browser_action returned, with what it did. */
    | InspectReported(result: Inspect.InspectResult, io: Inspect.InspectIO)
    /** Scheduling inspect_browser_action on the executor raised. */
    | InspectFailed(sessionId: string, error: string)

  /** inspect_browser as written: it fetches the executor with get-or-create, so the
      executor-not-found answer is never given, and an inspection of an unknown session leaves
      a new executor behind that no later call removes. */
  method InspectBrowserAsWritten(
    reg: SessionRegistry, table: ExecutorTable, sid: string, includeScreenshot: bool,
    sdkAvailable: bool, apiKey: string, defaultQuality: int, maxInline: nat,
    page: Inspect.Page, disk: Inspect.Disk, lookupLogs: Inspect.LogsLookup, dispatchError: Option<string>)
    returns (r: InspectToolResult)
    modifies table
    ensures !r.ExecutorMissing?
    ensures ToolGuard(sdkAvailable, apiKey, sid).Some? ==>
      r == InspectRefused(ToolGuard(sdkAvailable, apiKey, sid).value) && table.executors == old(table.executors)
    ensures ToolGuard(sdkAvailable, apiKey, sid).None? ==>
      sid in table.executors && table.executors - {sid} == old(table.executors) - {sid}
    ensures ToolGuard(sdkAvailable, apiKey, sid).None? && sid !in reg.sessions ==>
      && (sid !in old(table.executors) ==> table.executors == old(table.executors)[sid := table.executors[sid]])
      && (dispatchError.None? ==> r == InspectReported(Inspect.NotInspected(sid, SessionNotFound), Inspect.InspectIO(None, false, None)))
    ensures old(table.Valid()) ==> table.Valid()
    ensures old(Tied(reg.sessions, table.executors)) ==> Tied(reg.sessions, table.executors)
  {
    var guard := ToolGuard(sdkAvailable, apiKey, sid);
    if guard.Some? {
      return InspectRefused(guard.value);
    }
    var executor := table.GetSessionExecutor(sid);
    r := Dispatch(reg, sid, includeScreenshot, sdkAvailable, defaultQuality, maxInline, page, disk, lookupLogs, dispatchError);
  }

  /** inspect_browser with the executor looked up rather than created: a session without an
      executor is reported as such, and the table is never changed. */
  method InspectBrowser(
    reg: SessionRegistry, table: ExecutorTable, sid: string, includeScreenshot: bool,
    sdkAvailable: bool, apiKey: string, defaultQuality: int, maxInline: nat,
    page: Inspect.Page, disk: Inspect.Disk, lookupLogs: Inspect.LogsLookup, dispatchError: Option<string>)
    returns (r: InspectToolResult)
    ensures ToolGuard(sdkAvailable, apiKey, sid).Some? ==>
      r == InspectRefused(ToolGuard(sdkAvailable, apiKey, sid).value)
    ensures ToolGuard(sdkAvailable, apiKey, sid).None? ==>
      (r.ExecutorMissing? <==> sid !in table.executors)
      && (r.ExecutorMissing? ==> r.sessionId == sid)
    ensures ToolGuard(sdkAvailable, apiKey, sid).None? && sid in table.executors ==>
      (dispatchError.Some? ==> r == InspectFailed(sid, "An unexpected error occurred during inspection: " + dispatchError.value))
      && (dispatchError.None? ==> r.InspectReported? && (r.result.Inspected? <==> sid in reg.sessions && reg.sessions[sid].nova.Some?))
      && (dispatchError.None? && sid !in reg.sessions ==>
            r == InspectReported(Inspect.NotInspected(sid, SessionNotFound), Inspect.InspectIO(None, false, None)))
      && (dispatchError.None? && sid in reg.sessions && reg.sessions[sid].nova.None? ==>
            r == InspectReported(Inspect.NotInspected(sid, NovaInstanceNotFound), Inspect.InspectIO(None, false, None)))
    ensures ToolGuard(sdkAvailable, apiKey, sid).None? && sid in table.executors && dispatchError.None? && sid in reg.sessions
              && reg.sessions[sid].nova.Some? ==>
      && r.InspectReported?
      && Inspect.Reports(r.result, sid, Inspect.LogsDirOf(reg.sessions[sid], lookupLogs), includeScreenshot, maxInline, page, disk)
      && Observed(r.io, reg.sessions[sid], sid, includeScreenshot, defaultQuality, maxInline, page, disk, lookupLogs)
  {
    var guard := ToolGuard(sdkAvailable, apiKey, sid);
    if guard.Some? {
      return InspectRefused(guard.value);
    }
    if sid !in table.executors {
      return ExecutorMissing(sid);
    }
    r := Dispatch(reg, sid, includeScreenshot, sdkAvailable, defaultQuality, maxInline, page, disk, lookupLogs, dispatchError);
  }

  /** What inspect_browser_action did for a session it inspected: the log-directory lookup
      only when the entry has none, the screenshot saved exactly when `Inspect.SavesShot`
      holds, and the default quality used whenever a screenshot was asked for. */
  predicate Observed(
    io: Inspect.InspectIO, e: Entry, sid: string, includeScreenshot: bool, defaultQuality: int,
    maxInline: nat, page: Inspect.Page, disk: Inspect.Disk, lookupLogs: Inspect.LogsLookup)
    requires e.nova.Some?
  {
    var logs := Inspect.LogsDirOf(e, lookupLogs);
    && io.lookedUpLogs == !Truthy(e.logsDir)
    && io.saved == (if Inspect.SavesShot(includeScreenshot, page.screenshot, maxInline, disk)
                    then Some(Inspect.SavedFile(Inspect.ScreenshotPath(logs, disk, sid), page.screenshot.value)) else None)
    && io.screenshotQuality == (if includeScreenshot then Some(defaultQuality) else None)
  }

  /** Runs inspect_browser_action (with its default screenshot quality) on the session's
      executor, or reports the error raised while scheduling it. */
  method Dispatch(
    reg: SessionRegistry, sid: string, includeScreenshot: bool, sdkAvailable: bool, defaultQuality: int,
    maxInline: nat, page: Inspect.Page, disk: Inspect.Disk, lookupLogs: Inspect.LogsLookup, dispatchError: Option<string>)
    returns (r: InspectToolResult)
    ensures dispatchError.Some? ==> r == InspectFailed(sid, "An unexpected error occurred during inspection: " + dispatchError.value)
    ensures dispatchError.None? ==>
      && r.InspectReported?
      && (sid != "" && sid !in reg.sessions && sdkAvailable ==>
            r == InspectReported(Inspect.NotInspected(sid, SessionNotFound), Inspect.InspectIO(None, false, None)))
      && (sid != "" && sid in reg.sessions && reg.sessions[sid].nova.None? && sdkAvailable ==>
            r == InspectReported(Inspect.NotInspected(sid, NovaInstanceNotFound), Inspect.InspectIO(None, false, None)))
      && (r.result.Inspected? <==> sid != "" && sdkAvailable && sid in reg.sessions && reg.sessions[sid].nova.Some?)
      && (r.result.Inspected? ==>
            && Inspect.Reports(r.result, sid, Inspect.LogsDirOf(reg.sessions[sid], lookupLogs), includeScreenshot, maxInline, page, disk)
            && Observed(r.io, reg.sessions[sid], sid, includeScreenshot, defaultQuality, maxInline, page, disk, lookupLogs))
  {
    if dispatchError.Some? {
      return InspectFailed(sid, "An unexpected error occurred during inspection: " + dispatchError.value);
    }
    var result, io := Inspect.InspectBrowserAction(
      reg, sid, includeScreenshot, None, sdkAvailable, defaultQuality, maxInline, page, disk, lookupLogs);
    r := InspectReported(result, io);
  }
}
