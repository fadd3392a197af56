/**
 * The browser-sandbox client (src/lib/sandbox-pool.ts). Each call reads the
 * API key, sends one request and decides on the parsed response. The
 * environment and the network are parameters: `env` is the value of
 * `FIRECRAWL_API_KEY`, and a reply is either the response body or the
 * message of the error the request or the body parsing rejected with.
 */
module SandboxPool {
  import opened Wrappers
  import opened JsStrings

  const MissingKey := "FIRECRAWL_API_KEY not set"
  const SessionRefused := "Failed to create browser session"
  const ExecutionFailed := "Execution failed"
  const NoOutput := "(no output)"

  /** `getApiKey`: the key, or a thrown error when it is unset or empty. */
  function GetApiKey(env: Option<string>): (r: Result<string, string>)
    ensures r.Ok? <==> env.Some? && env.value != ""
    ensures r.Ok? ==> r.value == env.value
    ensures r.Err? ==> r.error == MissingKey
  {
    if env.None? || env.value == "" then Err(MissingKey) else Ok(env.value)
  }

  /** The fields of a sandbox response body the client reads; an absent or `null` field is `None`. */
  datatype Reply = Reply(
    success: bool,
    id: Option<string>,
    error: Option<string>,
    liveViewUrl: Option<string>,
    stdout: Option<string>,
    result: Option<string>)

  /** Whether an optional string field is truthy: present and non-empty. */
  predicate Truthy(f: Option<string>) {
    f.Some? && f.value != ""
  }

  datatype BrowserSession = BrowserSession(id: string, liveViewUrl: string)

  /**
   * `createBrowserSession`: a session only for a successful response with a
   * non-empty id; the live view URL defaults to the empty string.
   */
  function CreateBrowserSession(env: Option<string>, reply: Result<Reply, string>): (r: Result<BrowserSession, string>)
    ensures r.Ok? <==> GetApiKey(env).Ok? && reply.Ok? && reply.value.success && Truthy(reply.value.id)
    ensures r.Ok? ==> r.value.id == reply.value.id.value && r.value.id != ""
    ensures r.Ok? && reply.value.liveViewUrl.Some? ==> r.value.liveViewUrl == reply.value.liveViewUrl.value
    ensures r.Ok? && reply.value.liveViewUrl.None? ==> r.value.liveViewUrl == ""
    ensures GetApiKey(env).Err? ==> r == Err(MissingKey)
    ensures GetApiKey(env).Ok? && reply.Err? ==> r == Err(reply.error)
    ensures GetApiKey(env).Ok? && reply.Ok? && r.Err? && reply.value.error.Some? ==> r.error == reply.value.error.value
    ensures GetApiKey(env).Ok? && reply.Ok? && r.Err? && reply.value.error.None? ==> r.error == SessionRefused
  {
    match GetApiKey(env)
    case Err(e) => Err(e)
    case Ok(_) =>
      match reply
      case Err(e) => Err(e)
      case Ok(data) =>
        if !data.success || !Truthy(data.id) then Err(data.error.GetOr(SessionRefused))
        else Ok(BrowserSession(data.id.value, data.liveViewUrl.GetOr("")))
  }

  /** `{ result?: string; error?: string }`. */
  datatype BashOutput = BashOutput(result: Option<string>, error: Option<string>)

  /** `data.stdout || data.result || ""`: the first truthy output field. */
  function RawOutput(data: Reply): (s: string)
    ensures Truthy(data.stdout) ==> s == data.stdout.value
    ensures !Truthy(data.stdout) && Truthy(data.result) ==> s == data.result.value
    ensures !Truthy(data.stdout) && !Truthy(data.result) ==> s == ""
  {
    if Truthy(data.stdout) then data.stdout.value
    else if Truthy(data.result) then data.result.value
    else ""
  }

  /**
   * The decision `executeBash` makes on a response: the reported error wins,
   * then a missing `success` flag; otherwise the trimmed output, or the
   * `"(no output)"` sentinel when nothing but whitespace was printed.
   */
  function Normalise(data: Reply): (o: BashOutput)
    ensures o.result.Some? != o.error.Some?
    ensures Truthy(data.error) ==> o == BashOutput(None, data.error)
    ensures !Truthy(data.error) && !data.success ==> o == BashOutput(None, Some(ExecutionFailed))
    ensures o.result.Some? <==> !Truthy(data.error) && data.success
    ensures o.result.Some? ==> o.result.value != ""
    ensures o.result.Some? ==> !IsSpace(o.result.value[0]) && !IsSpace(o.result.value[|o.result.value| - 1])
    ensures o.result.Some? ==>
      o.result.value == (if Trim(RawOutput(data)) == "" then NoOutput else Trim(RawOutput(data)))
  {
    if Truthy(data.error) then BashOutput(None, data.error)
    else if !data.success then BashOutput(None, Some(ExecutionFailed))
    else
      var output := Trim(RawOutput(data));
      if output == "" then BashOutput(Some(NoOutput), None)
      else
        TrimmedEnds(RawOutput(data));
        BashOutput(Some(output), None)
  }

  /** `executeBash`: the key, then the request, then `Normalise`. */
  function ExecuteBash(env: Option<string>, reply: Result<Reply, string>): (r: Result<BashOutput, string>)
    ensures GetApiKey(env).Err? ==> r == Err(MissingKey)
    ensures GetApiKey(env).Ok? && reply.Err? ==> r == Err(reply.error)
    ensures GetApiKey(env).Ok? && reply.Ok? ==> r == Ok(Normalise(reply.value))
  {
    match GetApiKey(env)
    case Err(e) => Err(e)
    case Ok(_) =>
      match reply
      case Err(e) => Err(e)
      case Ok(data) => Ok(Normalise(data))
  }

  /**
   * `closeBrowserSession`: a failed request is swallowed, but the key is read
   * while the request is being built, before the `catch` is attached, so a
   * missing key still rejects.
   */
  function CloseBrowserSession(env: Option<string>, reply: Result<(), string>): (r: Result<(), string>)
    ensures r.Err? <==> GetApiKey(env).Err?
    ensures r.Err? ==> r.error == MissingKey
  {
    match GetApiKey(env)
    case Err(e) => Err(e)
    case Ok(_) => Ok(())
  }

  /** Closing does not depend on how the request went. */
  lemma CloseIgnoresReply(env: Option<string>, a: Result<(), string>, b: Result<(), string>)
    ensures CloseBrowserSession(env, a) == CloseBrowserSession(env, b)
  {
  }

  /** A trimmed string that is not empty starts and ends with a non-whitespace character. */
  lemma TrimmedEnds(s: string)
    requires Trim(s) != ""
    ensures !IsSpace(Trim(s)[0]) && !IsSpace(Trim(s)[|Trim(s)| - 1])
  {
    var t := TrimStart(s);
    assert Trim(s) == TrimEnd(t);
    assert TrimEnd(t)[0] == t[0];
  }
}
