/** Shared value types: optional values, results, bytes and the server's error codes. */
module Common {

  datatype Option<+T> = None | Some(value: T) {
    function GetOr(default: T): T {
      match this
      case Some(v) => v
      case None => default
    }
  }

  datatype Result<+T, +E> = Ok(value: T) | Err(error: E)

  /** One octet of a file or a screenshot. */
  type byte = x: int | 0 <= x < 256

  /** The stable error codes the tools return to their callers. */
  datatype ErrorCode =
    | NovaActNotAvailable
    | MissingApiKey
    | MissingParameter
    | SessionNotFound
    | SessionExecutorNotFound
    | NovaInstanceNotFound
    | FileNotFound
    | FileTooLarge
    | ReadError

  /** The guard the start and inspect tools open with, checked in order: the SDK is installed,
      an API key is configured, and the request's required argument (the starting URL, or the
      session id) is non-empty. */
  function ToolGuard(sdkAvailable: bool, apiKey: string, required: string): (g: Option<ErrorCode>)
    ensures g == None <==> sdkAvailable && apiKey != "" && required != ""
    ensures !sdkAvailable ==> g == Some(NovaActNotAvailable)
    ensures sdkAvailable && apiKey == "" ==> g == Some(MissingApiKey)
    ensures sdkAvailable && apiKey != "" && required == "" ==> g == Some(MissingParameter)
  {
    if !sdkAvailable then Some(NovaActNotAvailable)
    else if apiKey == "" then Some(MissingApiKey)
    else if required == "" then Some(MissingParameter)
    else None
  }

  /** A handle on one automation (browser) instance owned by the external SDK. */
  datatype Handle = Handle(id: nat)

  /** Python truthiness of an optional string: None and "" are both false. */
  predicate Truthy(s: Option<string>) {
    s.Some? && s.value != ""
  }
}
