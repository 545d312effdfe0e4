/** The multi-step workflow tool of the single-file server (execute_browser_workflow): register
    a session, open a browser, run each step with up to two retries, record one result per
    step, and mark the session complete when the browser is closed. */
module NovaMcpWorkflow {

  import opened Common
  import opened Registry
  import opened NovaMcpRegistry
  import Text

  /** Retries allowed after a step's first attempt fails. */
  const MaxRetryAttempts: nat := 2

  /** What one attempt at a step did: the act returned (with its response, its metadata, and
      the page's URL and title as read afterwards, None when reading raised), or something in
      the attempt raised with the given message. */
  datatype Attempt =
    | Acted(response: Option<string>, meta: Option<ActMeta>, pageUrl: Option<string>, pageTitle: Option<string>)
    | Raised(message: string)

  /** The browser's answer to attempt k (the retry count) of step i. */
  type Attempts = (nat, nat) -> Attempt

  /** An error after which the page is reloaded before the next attempt. */
  predicate IsTransient(message: string) {
    Text.Contains(Text.Lower(message), "timeout") || Text.Contains(Text.Lower(message), "navigation")
  }

  /** The response recorded for an act: its own response, else a line naming the page. */
  function ResponseContent(a: Attempt): (c: Option<string>)
    requires a.Acted?
    ensures a.response.Some? ==> c == a.response
    ensures c.None? <==> a.response.None? && (a.pageTitle.None? || a.pageUrl.None?)
  {
    if a.response.Some? then a.response
    else if a.pageTitle.Some? && a.pageUrl.Some? then Some("Page title: " + a.pageTitle.value + ", URL: " + a.pageUrl.value)
    else None
  }

  /** The first attempt from k on (within the retry budget) that did not raise. */
  function FirstSuccess(attempts: Attempts, i: nat, k: nat): (r: Option<nat>)
    ensures r.Some? ==> k <= r.value <= MaxRetryAttempts && attempts(i, r.value).Acted?
    ensures r.Some? ==> forall j :: k <= j < r.value ==> attempts(i, j).Raised?
    ensures r.None? ==> forall j :: k <= j <= MaxRetryAttempts ==> attempts(i, j).Raised?
    decreases MaxRetryAttempts + 1 - k
  {
    if k > MaxRetryAttempts then None
    else if attempts(i, k).Acted? then Some(k)
    else FirstSuccess(attempts, i, k + 1)
  }

  /** The result recorded for step i. */
  function StepOutcome(i: nat, step: string, attempts: Attempts): (rec: StepRecord)
    ensures rec.StepSucceeded? || rec.StepFailed?
    ensures rec.stepNumber == i + 1 && rec.action == step
  {
    match FirstSuccess(attempts, i, 0)
    case Some(k) =>
      var a := attempts(i, k);
      StepSucceeded(i + 1, step, ResponseContent(a), if a.meta.Some? then a.meta.value.stepsExecuted else 0,
                    if a.meta.Some? then a.meta.value.sessionId else None,
                    if a.meta.Some? then a.meta.value.actId else None, k)
    case None =>
      StepFailed(i + 1, step, attempts(i, MaxRetryAttempts).message, MaxRetryAttempts + 1)
  }

  /** A step succeeds exactly when one of its three attempts does not raise; it is recorded
      with the first such attempt, after which no attempt is made, and a step that fails
      records all three attempts. */
  lemma StepOutcomeMeaning(i: nat, step: string, attempts: Attempts)
    ensures var rec := StepOutcome(i, step, attempts);
      && (rec.StepSucceeded? <==> exists k :: 0 <= k <= MaxRetryAttempts && attempts(i, k).Acted?)
      && (rec.StepFailed? ==> rec.retryCount == MaxRetryAttempts + 1)
      && (rec.StepSucceeded? ==>
            && rec.retryCount <= MaxRetryAttempts && attempts(i, rec.retryCount).Acted?
            && (forall j :: 0 <= j < rec.retryCount ==> attempts(i, j).Raised?)
            && rec.response == ResponseContent(attempts(i, rec.retryCount))
            && var meta := attempts(i, rec.retryCount).meta;
               && rec.stepsTaken == (if meta.Some? then meta.value.stepsExecuted else 0)
               && rec.actSessionId == (if meta.Some? then meta.value.sessionId else None)
               && rec.actId == (if meta.Some? then meta.value.actId else None))
      && (rec.StepFailed? ==> rec.error == attempts(i, MaxRetryAttempts).message)
  {
  }

  /** How many attempts step i makes. */
  function AttemptsMade(attempts: Attempts, i: nat): (n: nat)
    ensures 1 <= n <= MaxRetryAttempts + 1
  {
    match FirstSuccess(attempts, i, 0)
    case Some(k) => k + 1
    case None => MaxRetryAttempts + 1
  }

  /** The message of the last attempt of step i that raised, if any did. */
  function StepError(attempts: Attempts, i: nat): (err: Option<string>)
    ensures err.Some? <==> AttemptsMade(attempts, i) > 1 || StepOutcome(i, "", attempts).StepFailed?
    ensures err.Some? ==>
      var last := if StepOutcome(i, "", attempts).StepFailed? then AttemptsMade(attempts, i) - 1 else AttemptsMade(attempts, i) - 2;
      0 <= last && attempts(i, last).Raised? && err.value == attempts(i, last).message
  {
    match FirstSuccess(attempts, i, 0)
    case Some(k) => if k == 0 then None else Some(attempts(i, k - 1).message)
    case None => Some(attempts(i, MaxRetryAttempts).message)
  }

  /** The attempts among the first n of step i after which the page is reloaded. */
  function Reloads(attempts: Attempts, i: nat, n: nat): (r: seq<nat>)
    ensures forall j :: 0 <= j < |r| ==> r[j] < n && attempts(i, r[j]).Raised? && IsTransient(attempts(i, r[j]).message)
  {
    if n == 0 then []
    else
      var a := attempts(i, n - 1);
      Reloads(attempts, i, n - 1) + (if a.Raised? && IsTransient(a.message) then [n - 1] else [])
  }

  /** The page is reloaded after exactly the attempts that raised a transient error, each
      once, in the order the attempts were made. */
  lemma {:induction false} ReloadsExactly(attempts: Attempts, i: nat, n: nat)
    ensures forall j :: 0 <= j < n && attempts(i, j).Raised? && IsTransient(attempts(i, j).message) ==> j in Reloads(attempts, i, n)
    ensures forall j, k :: 0 <= j < k < |Reloads(attempts, i, n)| ==> Reloads(attempts, i, n)[j] < Reloads(attempts, i, n)[k]
  {
    if n > 0 {
      ReloadsExactly(attempts, i, n - 1);
    }
  }

  /** The retry loop of one step: attempts run until one does not raise or three have raised;
      after a transient error the page is reloaded. */
  method TryStep(i: nat, step: string, attempts: Attempts) returns (rec: StepRecord, reloads: seq<nat>, lastError: Option<string>)
    ensures rec == StepOutcome(i, step, attempts)
    ensures lastError == StepError(attempts, i)
    ensures reloads == Reloads(attempts, i, AttemptsMade(attempts, i))
  {
    var retryCount: nat := 0;
    var stepSuccess := false;
    lastError := None;
    reloads := [];
    rec := StepFailed(i + 1, step, "", 0);
    while !stepSuccess && retryCount <= MaxRetryAttempts
      invariant retryCount <= MaxRetryAttempts + 1
      invariant !stepSuccess ==> FirstSuccess(attempts, i, 0) == FirstSuccess(attempts, i, retryCount)
      invariant stepSuccess ==> FirstSuccess(attempts, i, 0) == Some(retryCount) && rec == StepOutcome(i, step, attempts)
      invariant lastError == if retryCount == 0 then None else Some(attempts(i, retryCount - 1).message)
      invariant reloads == Reloads(attempts, i, retryCount)
      decreases MaxRetryAttempts + 1 - retryCount, if stepSuccess then 0 else 1
    {
      var a := attempts(i, retryCount);
      if a.Acted? {
        stepSuccess := true;
        rec := StepSucceeded(i + 1, step, ResponseContent(a), if a.meta.Some? then a.meta.value.stepsExecuted else 0,
                             if a.meta.Some? then a.meta.value.sessionId else None,
                             if a.meta.Some? then a.meta.value.actId else None, retryCount);
      } else {
        retryCount := retryCount + 1;
        lastError := Some(a.message);
        if IsTransient(a.message) {
          reloads := reloads + [retryCount - 1];
        }
        if retryCount > MaxRetryAttempts {
          break;
        }
      }
    }
    if !stepSuccess {
      rec := StepFailed(i + 1, step, lastError.value, retryCount);
    }
  }

  /** A workflow in progress: the registry entry and the SDK session id the run last saw. */
  datatype Run = Run(entry: LegacyEntry, novaSessionId: Option<string>)

  /** The effect of step i on the run: its record is appended, the progress moves to it, an
      error (even one a retry recovered from) leaves the status "error", and a successful act
      updates the URL and the SDK session id it reports. */
  function AfterStep(run: Run, i: nat, step: string, attempts: Attempts, time: real): Run {
    var rec := StepOutcome(i, step, attempts);
    var err := StepError(attempts, i);
    var e := run.entry;
    var e1 := e.(status := if err.Some? then Error else ExecutingStep, lastUpdated := time,
                 progress := e.progress.(currentStep := i + 1, error := if err.Some? then err else e.progress.error),
                 results := e.results + [rec]);
    if rec.StepSucceeded? then
      var a := attempts(i, rec.retryCount);
      var e2 := e1.(url := if a.pageUrl.Some? then a.pageUrl.value else e.url);
      if a.meta.Some? && a.meta.value.sessionId != run.novaSessionId then
        Run(e2.(novaSessionId := a.meta.value.sessionId), a.meta.value.sessionId)
      else Run(e2, run.novaSessionId)
    else Run(e1, run.novaSessionId)
  }

  /** One step appends its record, moves the progress to it and leaves the entry's
      identifying fields alone. */
  lemma AfterStepShape(run: Run, i: nat, step: string, attempts: Attempts, time: real)
    ensures var e := AfterStep(run, i, step, attempts, time).entry;
      && e.results == run.entry.results + [StepOutcome(i, step, attempts)]
      && e.progress.currentStep == i + 1 && e.progress.totalSteps == run.entry.progress.totalSteps
      && e.identity == run.entry.identity && e.steps == run.entry.steps && e.nova == run.entry.nova
      && e.complete == run.entry.complete && e.error == run.entry.error
  {
  }

  /** Two entries that agree on what a step never changes. */
  predicate SameIdentity(a: LegacyEntry, b: LegacyEntry) {
    && a.progress.totalSteps == b.progress.totalSteps
    && a.identity == b.identity && a.steps == b.steps && a.nova == b.nova
    && a.complete == b.complete && a.error == b.error
  }

  /** The run after its first n steps. */
  function Progressed(run: Run, steps: seq<string>, attempts: Attempts, times: nat -> real, n: nat): Run
    requires n <= |steps|
  {
    if n == 0 then run
    else AfterStep(Progressed(run, steps, attempts, times, n - 1), n - 1, steps[n - 1], attempts, times(n - 1))
  }

  /** The records of the first n steps, one per step, in order. */
  function Records(steps: seq<string>, attempts: Attempts, n: nat): (recs: seq<StepRecord>)
    requires n <= |steps|
    ensures |recs| == n
    ensures forall i :: 0 <= i < n ==> recs[i] == StepOutcome(i, steps[i], attempts)
  {
    seq(n, i requires 0 <= i < n => StepOutcome(i, steps[i], attempts))
  }

  /** The records of n steps are those of n - 1 steps and the last step's. */
  lemma RecordsSnoc(steps: seq<string>, attempts: Attempts, n: nat)
    requires 0 < n <= |steps|
    ensures Records(steps, attempts, n) == Records(steps, attempts, n - 1) + [StepOutcome(n - 1, steps[n - 1], attempts)]
  {
  }

  /** Step n appends its one record to those of the steps before it, moves the progress to
      it and leaves the identifying fields alone. */
  lemma ProgressedStep(run: Run, steps: seq<string>, attempts: Attempts, times: nat -> real, n: nat)
    requires 0 < n <= |steps|
    ensures var e := Progressed(run, steps, attempts, times, n).entry;
      var d := Progressed(run, steps, attempts, times, n - 1).entry;
      && e.results == d.results + [StepOutcome(n - 1, steps[n - 1], attempts)]
      && e.progress.currentStep == n && SameIdentity(d, e)
  {
    AfterStepShape(Progressed(run, steps, attempts, times, n - 1), n - 1, steps[n - 1], attempts, times(n - 1));
  }

  /** Appending to a concatenation appends to its second part. */
  lemma AppendRegroup(a: seq<StepRecord>, b: seq<StepRecord>, x: StepRecord, prev: seq<StepRecord>, next: seq<StepRecord>)
    requires prev == a + b && next == prev + [x]
    ensures next == a + (b + [x])
  {
  }

  /** Running steps appends exactly one record per step, in order. */
  lemma {:induction false} ProgressedRecords(run: Run, steps: seq<string>, attempts: Attempts, times: nat -> real, n: nat)
    requires n <= |steps|
    ensures Progressed(run, steps, attempts, times, n).entry.results == run.entry.results + Records(steps, attempts, n)
  {
    if n == 0 {
      assert Records(steps, attempts, 0) == [];
      assert run.entry.results + [] == run.entry.results;
    } else {
      var rec := StepOutcome(n - 1, steps[n - 1], attempts);
      ProgressedRecords(run, steps, attempts, times, n - 1);
      ProgressedStep(run, steps, attempts, times, n);
      RecordsSnoc(steps, attempts, n);
      AppendRegroup(run.entry.results, Records(steps, attempts, n - 1), rec,
                    Progressed(run, steps, attempts, times, n - 1).entry.results,
                    Progressed(run, steps, attempts, times, n).entry.results);
    }
  }

  /** Running steps moves the progress to the last step and leaves the entry's identifying
      fields alone. */
  lemma {:induction false} ProgressedFields(run: Run, steps: seq<string>, attempts: Attempts, times: nat -> real, n: nat)
    requires n <= |steps|
    ensures var e := Progressed(run, steps, attempts, times, n).entry;
      && e.progress.currentStep == (if n == 0 then run.entry.progress.currentStep else n)
      && SameIdentity(run.entry, e)
  {
    if n > 0 {
      ProgressedFields(run, steps, attempts, times, n - 1);
      ProgressedStep(run, steps, attempts, times, n);
    }
  }

  /** A workflow reports success exactly when some attempt of some step did not raise. */
  lemma WorkflowSuccess(steps: seq<string>, attempts: Attempts)
    ensures CountSuccessFailures(Records(steps, attempts, |steps|)).0 > 0 <==>
      exists i, k :: 0 <= i < |steps| && 0 <= k <= MaxRetryAttempts && attempts(i, k).Acted?
  {
    var recs := Records(steps, attempts, |steps|);
    if exists i, k :: 0 <= i < |steps| && 0 <= k <= MaxRetryAttempts && attempts(i, k).Acted? {
      var i, k :| 0 <= i < |steps| && 0 <= k <= MaxRetryAttempts && attempts(i, k).Acted?;
      StepOutcomeMeaning(i, steps[i], attempts);
      assert Succeeded(recs[i]);
    }
    if CountSuccessFailures(recs).0 > 0 {
      var i :| 0 <= i < |recs| && Succeeded(recs[i]);
      StepOutcomeMeaning(i, steps[i], attempts);
    }
  }

  /** The result of the workflow tool. */
  datatype WorkflowResult =
    /** The SDK or the API key is missing; nothing was registered. */
    | WorkflowRefused(text: string)
    /** The browser could not be opened or closed; the records made so far are reported. */
    | WorkflowFailed(text: string, sessionId: string, stepsCompleted: seq<StepRecord>)
    /** The worker raised before it could start (the profile directory could not be made). */
    | WorkflowAborted(text: string, sessionId: string)
    /** Every step ran; success is whether any step succeeded. */
    | WorkflowDone(success: bool, text: string, sessionId: string, novaSessionId: Option<string>,
                   steps: seq<StepRecord>, browserClosed: bool)

  /** The summary line of a finished workflow. */
  function Summary(url: string, stepCount: nat, records: seq<StepRecord>): string {
    "Executed " + Text.NatToString(stepCount) + " steps in workflow starting at " + url +
    (if records != [] then
       " (" + Text.NatToString(CountSuccessFailures(records).0) + " succeeded, " +
       Text.NatToString(CountSuccessFailures(records).1) + " failed)"
     else "")
  }

  /** The entry a workflow registers before it starts. */
  function Registered(identity: string, url: string, steps: seq<string>, now: real): (e: LegacyEntry)
    ensures e.status == Initializing && !e.complete && e.nova.None? && e.results == []
    ensures e.progress == Progress(0, |steps|, None)
  {
    LegacyEntry(identity, Initializing, Progress(0, |steps|, None), url, steps, [], now, None, false, None, None)
  }

  /** The run once the browser is open: the instance is recorded and its SDK session id, when
      it is non-empty. */
  function Opened(e: LegacyEntry, nova: Handle, sessionIdAttr: Option<string>): Run {
    Run(e.(status := BrowserOpen, nova := Some(nova), novaSessionId := if Truthy(sessionIdAttr) then sessionIdAttr else None),
        sessionIdAttr)
  }

  /** The final clean-up every run ends with: the instance is dropped and the session marked
      complete. */
  function Finished(e: LegacyEntry): (f: LegacyEntry)
    ensures f.status == Complete && f.complete && f.nova.None?
  {
    e.(nova := None, complete := true, status := Complete)
  }

  /** The steps loop of run_workflow, on an open browser. */
  method RunSteps(reg: LegacyRegistry, sid: string, steps: seq<string>, attempts: Attempts, times: nat -> real, novaSessionId: Option<string>)
    returns (nsid: Option<string>)
    requires sid in reg.sessions
    modifies reg
    ensures sid in reg.sessions
    ensures Run(reg.sessions[sid], nsid) ==
      Progressed(Run(old(reg.sessions)[sid], novaSessionId), steps, attempts, times, |steps|)
    ensures reg.sessions == old(reg.sessions)[sid := reg.sessions[sid]]
  {
    nsid := novaSessionId;
    for k := 0 to |steps|
      invariant sid in reg.sessions
      invariant reg.sessions == old(reg.sessions)[sid := reg.sessions[sid]]
      invariant Run(reg.sessions[sid], nsid) == Progressed(Run(old(reg.sessions)[sid], novaSessionId), steps, attempts, times, k)
    {
      var e := reg.sessions[sid];
      reg.sessions := reg.sessions[sid := e.(progress := e.progress.(currentStep := k + 1), status := ExecutingStep, lastUpdated := times(k))];
      var rec, reloads, lastError := TryStep(k, steps[k], attempts);
      e := reg.sessions[sid];
      if lastError.Some? {
        e := e.(status := Error, progress := e.progress.(error := lastError));
      }
      if rec.StepSucceeded? {
        var a := attempts(k, rec.retryCount);
        if a.pageUrl.Some? {
          e := e.(url := a.pageUrl.value);
        }
        e := e.(results := e.results + [rec]);
        if a.meta.Some? && a.meta.value.sessionId != nsid {
          nsid := a.meta.value.sessionId;
          e := e.(novaSessionId := nsid);
        }
      } else {
        e := e.(results := e.results + [rec]);
      }
      reg.sessions := reg.sessions[sid := e];
    }
  }

  /** The part of run_workflow after the browser opened: the steps, the closing of the
      browser, and the final clean-up. */
  method RunOpened(
    reg: LegacyRegistry, sid: string, url: string, steps: seq<string>, nova: Handle, sessionIdAttr: Option<string>,
    attempts: Attempts, times: nat -> real, exitError: Option<string>)
    returns (r: WorkflowResult)
    requires sid in reg.sessions
    modifies reg
    ensures sid in reg.sessions && reg.sessions == old(reg.sessions)[sid := reg.sessions[sid]]
    ensures var run := Progressed(Opened(old(reg.sessions)[sid], nova, sessionIdAttr), steps, attempts, times, |steps|);
      && (exitError.Some? ==>
            r == WorkflowFailed("Error executing workflow: " + exitError.value, sid, run.entry.results)
            && reg.sessions[sid] == Finished(MarkedFailed(run.entry, exitError.value)))
      && (exitError.None? ==>
            r == WorkflowDone(CountSuccessFailures(run.entry.results).0 > 0, Summary(url, |steps|, run.entry.results),
                              sid, run.novaSessionId, run.entry.results, true)
            && reg.sessions[sid] == Finished(run.entry))
  {
    var start := Opened(reg.sessions[sid], nova, sessionIdAttr);
    reg.sessions := reg.sessions[sid := start.entry];
    var nsid := RunSteps(reg, sid, steps, attempts, times, start.novaSessionId);
    r := CloseOut(reg, sid, url, |steps|, nsid, exitError);
  }

  /** The end of run_workflow once every step ran: the browser is closed (which may raise),
      the session is finished, and the answer reports the step records. */
  method CloseOut(reg: LegacyRegistry, sid: string, url: string, stepCount: nat, nsid: Option<string>, exitError: Option<string>)
    returns (r: WorkflowResult)
    requires sid in reg.sessions
    modifies reg
    ensures sid in reg.sessions && reg.sessions == old(reg.sessions)[sid := reg.sessions[sid]]
    ensures var e := old(reg.sessions)[sid];
      && (exitError.Some? ==>
            r == WorkflowFailed("Error executing workflow: " + exitError.value, sid, e.results)
            && reg.sessions[sid] == Finished(MarkedFailed(e, exitError.value)))
      && (exitError.None? ==>
            r == WorkflowDone(CountSuccessFailures(e.results).0 > 0, Summary(url, stepCount, e.results), sid, nsid, e.results, true)
            && reg.sessions[sid] == Finished(e))
  {
    var results := reg.sessions[sid].results;
    if exitError.Some? {
      reg.sessions := reg.sessions[sid := Finished(MarkedFailed(reg.sessions[sid], exitError.value))];
      return WorkflowFailed("Error executing workflow: " + exitError.value, sid, results);
    }
    reg.sessions := reg.sessions[sid := Finished(reg.sessions[sid])];
    r := WorkflowDone(CountSuccessFailures(results).0 > 0, Summary(url, stepCount, results), sid, nsid, results, true);
  }

  /** What run_workflow answers and leaves in the entry e of its session. The SDK is a
      parameter: whether the profile directory could be made, the instance the SDK opens (or
      the error it raised), the instance's session id, every attempt's outcome, the clock at
      each step, and the error raised when the browser is closed. */
  function Workflow(
    e: LegacyEntry, sid: string, url: string, steps: seq<string>,
    profileError: Option<string>, launch: Result<Handle, string>, sessionIdAttr: Option<string>,
    attempts: Attempts, times: nat -> real, exitError: Option<string>): (WorkflowResult, LegacyEntry)
  {
    if profileError.Some? then
      (WorkflowAborted("Error executing workflow starting at " + url + ": " + profileError.value, sid),
       MarkedFailed(e, profileError.value).(complete := true))
    else if launch.Err? then
      (WorkflowFailed("Error executing workflow: " + launch.error, sid, []),
       Finished(MarkedFailed(e.(status := StartingBrowser), launch.error)))
    else
      var run := Progressed(Opened(e.(status := StartingBrowser), launch.value, sessionIdAttr), steps, attempts, times, |steps|);
      if exitError.Some? then
        (WorkflowFailed("Error executing workflow: " + exitError.value, sid, run.entry.results),
         Finished(MarkedFailed(run.entry, exitError.value)))
      else
        (WorkflowDone(CountSuccessFailures(run.entry.results).0 > 0, Summary(url, |steps|, run.entry.results),
                      sid, run.novaSessionId, run.entry.results, true),
         Finished(run.entry))
  }

  /** run_workflow, the worker thread of a workflow whose session is registered. */
  method RunWorkflow(
    reg: LegacyRegistry, sid: string, url: string, steps: seq<string>,
    profileError: Option<string>, launch: Result<Handle, string>, sessionIdAttr: Option<string>,
    attempts: Attempts, times: nat -> real, exitError: Option<string>)
    returns (r: WorkflowResult)
    requires sid in reg.sessions
    modifies reg
    ensures sid in reg.sessions && reg.sessions == old(reg.sessions)[sid := reg.sessions[sid]]
    ensures (r, reg.sessions[sid]) ==
      Workflow(old(reg.sessions)[sid], sid, url, steps, profileError, launch, sessionIdAttr, attempts, times, exitError)
  {
    if profileError.Some? {
      var e := reg.sessions[sid];
      reg.sessions := reg.sessions[sid := MarkedFailed(e, profileError.value).(complete := true)];
      return WorkflowAborted("Error executing workflow starting at " + url + ": " + profileError.value, sid);
    }
    reg.sessions := reg.sessions[sid := reg.sessions[sid].(status := StartingBrowser)];
    if launch.Err? {
      reg.sessions := reg.sessions[sid := Finished(MarkedFailed(reg.sessions[sid], launch.error))];
      return WorkflowFailed("Error executing workflow: " + launch.error, sid, []);
    }
    r := RunOpened(reg, sid, url, steps, launch.value, sessionIdAttr, attempts, times, exitError);
  }

  /** Every run leaves its session complete, without an instance, with its identity and steps,
      and a run that fails leaves the error in the entry. */
  lemma WorkflowEnds(
    e: LegacyEntry, sid: string, url: string, steps: seq<string>,
    profileError: Option<string>, launch: Result<Handle, string>, sessionIdAttr: Option<string>,
    attempts: Attempts, times: nat -> real, exitError: Option<string>)
    ensures var (r, f) := Workflow(e, sid, url, steps, profileError, launch, sessionIdAttr, attempts, times, exitError);
      && f.complete && (e.nova.None? || profileError.None? ==> f.nova.None?)
      && f.identity == e.identity && f.steps == e.steps
      && r.sessionId == sid && !r.WorkflowRefused?
      && (r.WorkflowFailed? ==> f.error.Some? && f.status == Complete)
      && (r.WorkflowAborted? ==> f.error == profileError && f.status == Error)
  {
    if profileError.None? && launch.Ok? {
      var start := Opened(e.(status := StartingBrowser), launch.value, sessionIdAttr);
      ProgressedFields(start, steps, attempts, times, |steps|);
    }
  }

  /** A registered workflow whose browser opens and closes answers with one record per step,
      in order, and leaves them in its entry with the progress on the last step. */
  lemma WorkflowRecordsEveryStep(
    identity: string, sid: string, url: string, steps: seq<string>, now: real, nova: Handle, sessionIdAttr: Option<string>,
    attempts: Attempts, times: nat -> real)
    ensures var (r, f) := Workflow(Registered(identity, url, steps, now), sid, url, steps, None, Ok(nova), sessionIdAttr,
                                   attempts, times, None);
      && r.WorkflowDone? && r.browserClosed
      && r.steps == Records(steps, attempts, |steps|) && f.results == r.steps
      && r.success == (exists i, k :: 0 <= i < |steps| && 0 <= k <= MaxRetryAttempts && attempts(i, k).Acted?)
      && f.status == Complete && f.progress.currentStep == |steps| && f.progress.totalSteps == |steps|
      && f.error.None?
  {
    var e := Registered(identity, url, steps, now);
    var start := Opened(e.(status := StartingBrowser), nova, sessionIdAttr);
    var run := Progressed(start, steps, attempts, times, |steps|);
    var recs := Records(steps, attempts, |steps|);
    assert Workflow(e, sid, url, steps, None, Ok(nova), sessionIdAttr, attempts, times, None)
        == (WorkflowDone(CountSuccessFailures(run.entry.results).0 > 0, Summary(url, |steps|, run.entry.results),
                         sid, run.novaSessionId, run.entry.results, true),
            Finished(run.entry));
    ProgressedRecords(start, steps, attempts, times, |steps|);
    ProgressedFields(start, steps, attempts, times, |steps|);
    FromFreshEntry(start.entry, run.entry, recs);
    WorkflowSuccess(steps, attempts);
  }

  /** An entry that started with no results and only gained some keeps exactly those. */
  lemma FromFreshEntry(first: LegacyEntry, last: LegacyEntry, recs: seq<StepRecord>)
    requires first.results == [] && last.results == first.results + recs
    ensures last.results == recs
  {
    assert [] + recs == recs;
  }

  /** execute_browser_workflow: refuses without the SDK or an API key; otherwise registers the
      session under a fresh id and runs the workflow. The session stays registered, complete. */
  method ExecuteBrowserWorkflow(
    reg: LegacyRegistry, url: string, steps: seq<string>, identity: string, sdkAvailable: bool, apiKey: string,
    sid: string, now: real, profileError: Option<string>, launch: Result<Handle, string>,
    sessionIdAttr: Option<string>, attempts: Attempts, times: nat -> real, exitError: Option<string>)
    returns (r: WorkflowResult)
    modifies reg
    ensures !sdkAvailable ==> r == WorkflowRefused(NotInstalledText) && reg.sessions == old(reg.sessions)
    ensures sdkAvailable && apiKey == "" ==> r == WorkflowRefused(NoApiKeyText) && reg.sessions == old(reg.sessions)
    ensures sdkAvailable && apiKey != "" ==>
      && sid in reg.sessions && reg.sessions == old(reg.sessions)[sid := reg.sessions[sid]]
      && (r, reg.sessions[sid]) ==
           Workflow(Registered(identity, url, steps, now), sid, url, steps, profileError, launch, sessionIdAttr, attempts, times, exitError)
  {
    if !sdkAvailable {
      return WorkflowRefused(NotInstalledText);
    }
    if apiKey == "" {
      return WorkflowRefused(NoApiKeyText);
    }
    reg.sessions := reg.sessions[sid := Registered(identity, url, steps, now)];
    r := RunWorkflow(reg, sid, url, steps, profileError, launch, sessionIdAttr, attempts, times, exitError);
  }
}
