/** The single-file server's session registry: one entry per session, a status view of every
    entry, the success/failure tally of a workflow's step records, and the clean-up of old
    completed sessions that a session listing performs. */
module NovaMcpRegistry {

  import opened Common
  import opened Registry

  /** The answer of every tool when the SDK is not installed. */
  const NotInstalledText: string := "Error: Nova Act package is not installed. Please install with: pip install nova-act"

  /** The answer of every tool when no API key is configured. */
  const NoApiKeyText: string :=
    "Error: Nova Act API key not found. Please check your MCP config or set the NOVA_ACT_API_KEY environment variable."

  /** The progress record a workflow shares with its registry entry. */
  datatype Progress = Progress(currentStep: nat, totalSteps: nat, error: Option<string>)

  /** The metadata an act reports: how many steps it executed, and its session and act ids. */
  datatype ActMeta = ActMeta(stepsExecuted: nat, sessionId: Option<string>, actId: Option<string>)

  /** One entry of a session's "results" list. */
  datatype StepRecord =
    /** A workflow step that succeeded on attempt retryCount + 1. */
    | StepSucceeded(stepNumber: nat, action: string, response: Option<string>, stepsTaken: nat,
                    actSessionId: Option<string>, actId: Option<string>, retryCount: nat)
    /** A workflow step whose every attempt raised; error is the last message. */
    | StepFailed(stepNumber: nat, action: string, error: string, retryCount: nat)
    /** An instruction or extraction run through the session tool (it has no "success" key). */
    | ActionRecord(action: string, response: Option<string>)

  /** One registry entry; every key the server writes is present from creation on. */
  datatype LegacyEntry = LegacyEntry(
    identity: string,
    status: Status,
    progress: Progress,
    url: string,
    steps: seq<string>,
    results: seq<StepRecord>,
    lastUpdated: real,
    nova: Option<Handle>,
    complete: bool,
    novaSessionId: Option<string>,
    error: Option<string>)

  /** An entry marked as failed with the given message, in its status, its error and its
      progress record. */
  function MarkedFailed(e: LegacyEntry, message: string): (f: LegacyEntry)
    ensures f.status == Error && f.error == Some(message) && f.progress.error == Some(message)
    ensures f == e.(status := f.status, error := f.error, progress := f.progress)
    ensures f.progress.currentStep == e.progress.currentStep && f.progress.totalSteps == e.progress.totalSteps
  {
    e.(status := Error, error := Some(message), progress := e.progress.(error := Some(message)))
  }

  /** The process-wide registry (active_sessions). */
  class LegacyRegistry {
    var sessions: map<string, LegacyEntry>

    constructor ()
      ensures sessions == map[]
    {
      sessions := map[];
    }
  }

  /** A record counts as a success only when it carries success True. */
  predicate Succeeded(rec: StepRecord) {
    rec.StepSucceeded?
  }

  /** count_success_failures: how many records succeeded and how many did not. */
  function CountSuccessFailures(results: seq<StepRecord>): (counts: (nat, nat))
    ensures counts.0 + counts.1 == |results|
    ensures counts.0 == 0 <==> forall i :: 0 <= i < |results| ==> !Succeeded(results[i])
    ensures counts.1 == 0 <==> forall i :: 0 <= i < |results| ==> Succeeded(results[i])
  {
    if results == [] then (0, 0)
    else
      var rest := CountSuccessFailures(results[1..]);
      assert forall i :: 1 <= i < |results| ==> results[i] == results[1..][i - 1];
      if Succeeded(results[0]) then (rest.0 + 1, rest.1) else (rest.0, rest.1 + 1)
  }

  /** The tally of a concatenation is the sum of the tallies. */
  lemma {:induction false} CountConcat(a: seq<StepRecord>, b: seq<StepRecord>)
    ensures var (s, f) := CountSuccessFailures(a + b);
      s == CountSuccessFailures(a).0 + CountSuccessFailures(b).0 &&
      f == CountSuccessFailures(a).1 + CountSuccessFailures(b).1
  {
    if a == [] {
      assert a + b == b;
    } else {
      CountConcat(a[1..], b);
      assert (a + b)[1..] == a[1..] + b;
    }
  }

  /** One row of get_session_status. */
  datatype SessionStatus = SessionStatus(
    sessionId: string, identity: string, status: Status, currentStep: nat, totalSteps: nat,
    lastUpdated: real, url: string, error: Option<string>)

  /** The status row of one entry: the error shown is the progress record's. */
  function StatusRow(sid: string, e: LegacyEntry): (s: SessionStatus)
    ensures s.sessionId == sid && s.identity == e.identity && s.status == e.status && s.url == e.url
    ensures s.currentStep == e.progress.currentStep && s.totalSteps == e.progress.totalSteps
    ensures s.lastUpdated == e.lastUpdated && s.error == e.progress.error
  {
    SessionStatus(sid, e.identity, e.status, e.progress.currentStep, e.progress.totalSteps, e.lastUpdated, e.url, e.progress.error)
  }

  /** get_session_status: one row per session, keyed by session id. */
  function GetSessionStatus(sessions: map<string, LegacyEntry>): (rows: map<string, SessionStatus>)
    ensures rows.Keys == sessions.Keys
    ensures forall sid :: sid in rows ==> rows[sid] == StatusRow(sid, sessions[sid])
  {
    map sid | sid in sessions :: StatusRow(sid, sessions[sid])
  }

  /** How long a completed session is kept, in seconds. */
  const RetentionSeconds: real := 600.0

  /** A session the listing removes: complete, and not updated for more than ten minutes. */
  predicate Expired(e: LegacyEntry, now: real) {
    e.complete && now - e.lastUpdated > RetentionSeconds
  }

  /** The sessions a clean-up keeps. */
  function Survivors(sessions: map<string, LegacyEntry>, now: real): (kept: map<string, LegacyEntry>)
    ensures kept.Keys <= sessions.Keys
    ensures forall sid :: sid in kept ==> kept[sid] == sessions[sid] && !Expired(sessions[sid], now)
    ensures forall sid :: sid in sessions && !Expired(sessions[sid], now) ==> sid in kept
  {
    map sid | sid in sessions && !Expired(sessions[sid], now) :: sessions[sid]
  }

  /** Cleaning up twice at the same time removes nothing more. */
  lemma SurvivorsIdempotent(sessions: map<string, LegacyEntry>, now: real)
    ensures Survivors(Survivors(sessions, now), now) == Survivors(sessions, now)
  {
  }

  /** A later clean-up keeps no session an earlier one removed. */
  lemma SurvivorsShrinkOverTime(sessions: map<string, LegacyEntry>, earlier: real, later: real)
    requires earlier <= later
    ensures Survivors(sessions, later).Keys <= Survivors(sessions, earlier).Keys
  {
  }

  /** Whether a listed session counts as active: neither complete nor in error. */
  predicate Active(s: SessionStatus) {
    s.status != Complete && s.status != Error
  }

  /** The listing's answer: the rows taken before the clean-up, and their counts. */
  datatype SessionsReport = SessionsReport(sessions: map<string, SessionStatus>, activeCount: nat, totalCount: nat)

  /** The number of active rows. */
  function ActiveCount(rows: map<string, SessionStatus>): (n: nat)
    ensures n <= |rows|
  {
    var active := set sid | sid in rows && Active(rows[sid]);
    assert active <= rows.Keys;
    SetSizeMonotone(active, rows.Keys);
    |active|
  }

  lemma SetSizeMonotone<T>(a: set<T>, b: set<T>)
    requires a <= b
    ensures |a| <= |b|
  {
    assert b == a + (b - a);
  }

  /** get_browser_sessions: lists every session, then removes the expired ones. The listing
      still shows the sessions this call removes. */
  method GetBrowserSessions(reg: LegacyRegistry, now: real) returns (report: SessionsReport)
    modifies reg
    ensures report.sessions == GetSessionStatus(old(reg.sessions))
    ensures report.totalCount == |old(reg.sessions)|
    ensures report.activeCount == ActiveCount(report.sessions) && report.activeCount <= report.totalCount
    ensures reg.sessions == Survivors(old(reg.sessions), now)
  {
    var rows := GetSessionStatus(reg.sessions);
    assert |rows| == |rows.Keys| == |reg.sessions.Keys| == |reg.sessions|;
    ghost var before := reg.sessions;
    var pending := reg.sessions.Keys;
    while pending != {}
      invariant pending <= before.Keys
      invariant reg.sessions == map sid | sid in before && (sid in pending || !Expired(before[sid], now)) :: before[sid]
      decreases |pending|
    {
      var sid :| sid in pending;
      if Expired(reg.sessions[sid], now) {
        reg.sessions := reg.sessions - {sid};
      }
      pending := pending - {sid};
    }
    report := SessionsReport(rows, ActiveCount(rows), |rows|);
  }
}
