/** Starting a browser session (initialize_browser_session): guard the request, choose the
    session id, launch an automation instance with its own log directory, discover the SDK's
    session id and log directory, and record the session as "ready". */
module Start {

  import opened Common
  import opened Registry
  import Text

  /** The keyword arguments the automation instance is created with. */
  datatype LaunchConfig = LaunchConfig(startingPage: string, headless: bool, apiKey: string, logsDirectory: string)

  /** What the SDK does when asked to start: the created and started instance, or the message of
      the exception raised by creating the log directory, the constructor or start(). */
  type Launcher = LaunchConfig -> Result<Handle, string>

  /** The SDK session id read from the metadata of the initial observation act: Err when that act
      raised, Ok(None) when it returned no metadata session id, Ok(Some(s)) otherwise. */
  type Discoverer = Handle -> Result<Option<string>, string>

  /** The log-directory lookup for an instance given the SDK session id: the directory, None
      when nothing was found, or the message of an exception it raised. */
  type LogsLookup = (Handle, Option<string>) -> Result<Option<string>, string>

  datatype StartResult =
    /** A guard refused the request; the registry is untouched. */
    | Refused(code: ErrorCode)
    /** success True, status "ready". */
    | Started(sessionId: string, novaSessionId: Option<string>, identity: string, url: string,
              logsDir: Option<string>, logsDirFound: bool)
    /** success False, status "error", after the instance could not be set up. */
    | Failed(sessionId: string, novaSessionId: Option<string>, identity: string, error: string, url: string)

  /** The session id a start uses: the requested one when it is non-empty, else a fresh one. */
  function ChosenId(requested: string, generated: string): (sid: string)
    ensures requested != "" ==> sid == requested
    ensures requested == "" ==> sid == generated
  {
    if requested != "" then requested else generated
  }

  /** The configuration the instance is launched with: its logs go to a directory of its own,
      named after the session, below the temporary directory. */
  function ConfigFor(url: string, headless: bool, apiKey: string, tempDir: string, sid: string): (c: LaunchConfig)
    ensures c.startingPage == url && c.headless == headless && c.apiKey == apiKey
    ensures !(|sid| > 0 && sid[0] == '/') ==>
      c.logsDirectory == tempDir + (if tempDir != [] && tempDir[|tempDir| - 1] != '/' then "/" else "") + sid + "_sdk_logs"
    ensures var name := sid + "_sdk_logs";
      |name| <= |c.logsDirectory| && c.logsDirectory[|c.logsDirectory| - |name|..] == name
  {
    LaunchConfig(url, headless, apiKey, Text.Join(tempDir, sid + "_sdk_logs"))
  }

  /** The SDK session id kept from a discovery: only a non-empty id. */
  function KeptSessionId(d: Result<Option<string>, string>): (s: Option<string>)
    ensures s.Some? <==> d.Ok? && Truthy(d.value)
    ensures s.Some? ==> s.value != "" && d.value == s
  {
    if d.Ok? && Truthy(d.value) then d.value else None
  }

  /** initialize_browser_session. The SDK, the temporary directory, the generated id and the
      clock are parameters; `launched` reports the instance the SDK created (if it did). */
  method InitializeBrowserSession(
    reg: SessionRegistry, url: string, identity: string, headless: bool, requestedId: string,
    sdkAvailable: bool, apiKey: string, generatedId: string, tempDir: string, now: real,
    launch: Launcher, discover: Discoverer, lookupLogs: LogsLookup)
    returns (r: StartResult, launched: Option<Handle>)
    modifies reg
    ensures ToolGuard(sdkAvailable, apiKey, url).Some? ==>
      r == Refused(ToolGuard(sdkAvailable, apiKey, url).value) && launched == None && reg.sessions == old(reg.sessions)
    ensures ToolGuard(sdkAvailable, apiKey, url).None? ==>
      var sid := ChosenId(requestedId, generatedId);
      var attempt := launch(ConfigFor(url, headless, apiKey, tempDir, sid));
      && (attempt.Err? ==> launched == None && r == Failed(sid, None, identity, attempt.error, url))
      && (attempt.Ok? ==> launched == Some(attempt.value))
      && (r.Started? <==> attempt.Ok? && lookupLogs(attempt.value, KeptSessionId(discover(attempt.value))).Ok?)
      && (r.Started? ==>
            var nsid := KeptSessionId(discover(attempt.value));
            var logs := lookupLogs(attempt.value, nsid).value;
            && r == Started(sid, nsid, identity, url, logs, logs.Some?)
            && reg.sessions == old(reg.sessions)[sid := Entry(Some(attempt.value), identity, Ready, url, nsid, logs, now, None)])
      && (r.Failed? ==> r.sessionId == sid && reg.sessions == old(reg.sessions) - {sid})
      && !r.Refused?
  {
    launched := None;
    var guard := ToolGuard(sdkAvailable, apiKey, url);
    if guard.Some? {
      return Refused(guard.value), None;
    }
    var sid := ChosenId(requestedId, generatedId);
    var novaSessionId: Option<string> := None;
    var config := ConfigFor(url, headless, apiKey, tempDir, sid);
    var attempt := launch(config);
    if attempt.Err? {
      reg.sessions := reg.sessions - {sid};
      return Failed(sid, novaSessionId, identity, attempt.error, url), None;
    }
    var nova := attempt.value;
    launched := Some(nova);
    novaSessionId := KeptSessionId(discover(nova));
    var logs := lookupLogs(nova, novaSessionId);
    if logs.Err? {
      reg.sessions := reg.sessions - {sid};
      return Failed(sid, novaSessionId, identity, logs.error, url), launched;
    }
    reg.sessions := reg.sessions[sid := Entry(Some(nova), identity, Ready, url, novaSessionId, logs.value, now, None)];
    r := Started(sid, novaSessionId, identity, url, logs.value, logs.value.Some?);
  }
}
