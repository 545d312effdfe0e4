/** The session registry shared by the tool modules: one entry per session id, holding
    the automation instance, its status and where its logs live. */
module Registry {

  import opened Common

  /** Session statuses the tools write into registry entries. */
  datatype Status =
    | Initializing
    | StartingBrowser
    | BrowserOpen
    | Ready
    | Running
    | ExecutingStep
    | Error
    | Complete
    | Ended

  /** A single-worker task queue (ThreadPoolExecutor(max_workers=1)); only whether it has been
      shut down is observable here. */
  class Executor {
    var isShutdown: bool

    constructor ()
      ensures !isShutdown
    {
      isShutdown := false;
    }

    /** shutdown(wait=False): pending work is abandoned, nothing is awaited. */
    method Shutdown()
      modifies this
      ensures isShutdown
    {
      isShutdown := true;
    }
  }

  /** One registry entry. An absent "nova_instance", "nova_session_id", "logs_dir" or
      "executor" key reads as None. */
  datatype Entry = Entry(
    nova: Option<Handle>,
    identity: string,
    status: Status,
    url: string,
    novaSessionId: Option<string>,
    logsDir: Option<string>,
    lastUpdated: real,
    executor: Option<Executor>)

  /** The executor an entry holds, as a frame. */
  function ExecutorOf(sessions: map<string, Entry>, sid: string): set<Executor> {
    if sid in sessions && sessions[sid].executor.Some? then {sessions[sid].executor.value} else {}
  }

  /** The process-wide mapping from session id to entry (active_sessions). */
  class SessionRegistry {
    var sessions: map<string, Entry>

    constructor ()
      ensures sessions == map[]
    {
      sessions := map[];
    }
  }
}
