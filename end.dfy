/** Ending a browser session (end_session_action): close the automation instance, stop the
    session's executor and remove the session from the registry. */
module End {

  import opened Common
  import opened Registry

  /** The closing calls made on an instance, in order. */
  datatype CloseCall = ExitCall | CloseCall

  /** How the instance answers the closing calls. */
  datatype Closer = Closer(exitRaises: bool, hasClose: bool)

  datatype EndResult =
    /** A guard refused the request; the registry is untouched. */
    | Refused(code: ErrorCode)
    /** The entry had no instance; it was removed from the registry. */
    | CleanedUp(sessionId: string)
    /** success True: the instance was closed and the session removed. */
    | Closed(sessionId: string, identity: string)
    /** success False: an unexpected error; the registry entry was still removed. */
    | CloseFailed(sessionId: string, error: string)

  /** The closing calls made: __exit__ first, and close() only when __exit__ raised and the
      instance has a close method. Errors from either are swallowed. */
  function CloseCalls(c: Closer): (calls: seq<CloseCall>)
    ensures 1 <= |calls| <= 2 && calls[0] == ExitCall
    ensures |calls| == 2 <==> c.exitRaises && c.hasClose
    ensures |calls| == 2 ==> calls[1] == CloseCall
  {
    if c.exitRaises && c.hasClose then [ExitCall, CloseCall] else [ExitCall]
  }

  /** The guard that refuses an end request, checked in order. */
  function EndGuard(sid: string, sdkAvailable: bool, sessions: map<string, Entry>): (g: Option<ErrorCode>)
    ensures g == None <==> sid != "" && sdkAvailable && sid in sessions
    ensures sid == "" ==> g == Some(MissingParameter)
    ensures sid != "" && !sdkAvailable ==> g == Some(NovaActNotAvailable)
    ensures sid != "" && sdkAvailable && sid !in sessions ==> g == Some(SessionNotFound)
  {
    if sid == "" then Some(MissingParameter)
    else if !sdkAvailable then Some(NovaActNotAvailable)
    else if sid !in sessions then Some(SessionNotFound)
    else None
  }

  /** end_session_action. `fault` is an unexpected error raised while closing (the message, if
      any); `calls` are the closing calls made on the instance. */
  method EndSessionAction(reg: SessionRegistry, sid: string, sdkAvailable: bool, closer: Closer, fault: Option<string>)
    returns (r: EndResult, calls: seq<CloseCall>)
    modifies reg, ExecutorOf(reg.sessions, sid)
    ensures var g := EndGuard(sid, sdkAvailable, old(reg.sessions));
      g.Some? ==> r == Refused(g.value) && calls == [] && reg.sessions == old(reg.sessions)
    ensures EndGuard(sid, sdkAvailable, old(reg.sessions)).None? ==>
      var e := old(reg.sessions)[sid];
      && reg.sessions == old(reg.sessions) - {sid}
      && (e.nova.None? ==> r == CleanedUp(sid) && calls == [])
      && (e.nova.Some? && fault.Some? ==> r == CloseFailed(sid, fault.value) && calls == [])
      && (e.nova.Some? && fault.None? ==>
            && r == Closed(sid, e.identity) && calls == CloseCalls(closer)
            && (e.executor.Some? ==> e.executor.value.isShutdown))
  {
    calls := [];
    var guard := EndGuard(sid, sdkAvailable, reg.sessions);
    if guard.Some? {
      return Refused(guard.value), [];
    }
    var entry := reg.sessions[sid];
    if entry.nova.None? {
      reg.sessions := reg.sessions - {sid};
      return CleanedUp(sid), [];
    }
    if fault.Some? {
      reg.sessions := reg.sessions - {sid};
      return CloseFailed(sid, fault.value), [];
    }
    var identity := entry.identity;
    calls := CloseCalls(closer);
    if entry.executor.Some? {
      entry.executor.value.Shutdown();
    }
    reg.sessions := reg.sessions - {sid};
    r := Closed(sid, identity);
  }
}
