/**
 * The `boundary` command-line client (boundary/client/cli/mod.rs and its
 * earlier copy boundary/client/cli.rs): the argument lists it passes, the
 * classification of a finished command by exit status, and the collection
 * of a user's sessions across scopes. Running the command and decoding
 * JSON are external: the command's output and the decoders are parameters.
 */
module Cli {
  import opened Wrappers
  import opened Text
  import opened Models
  import opened TableFilter

  /** A finished command: exit code (None when killed by a signal) and its output as text. */
  datatype Output = Output(code: Option<int>, stdout: string, stderr: string)

  /** The JSON body `boundary` prints on stderr when the API refuses a request. */
  datatype ErrorResponse = ErrorResponse(statusCode: u16, message: string)

  /** `{"items": [...]}`, where the items may be absent. */
  datatype ListResponse<T> = ListResponse(items: Option<seq<T>>)

  /** A JSON decoder: the value, or the decoder's error message. */
  type Decoder<T> = string -> Result<T, string>

  /** The error an API refusal on stderr stands for, or the JSON error if stderr does not decode. */
  function ParseErrorResponse(stderr: string, decodeError: Decoder<ErrorResponse>): (r: Result<Error, string>)
    ensures r.Ok? <==> decodeError(stderr).Ok?
    ensures r.Ok? ==> r.value.ApiError? && r.value.status == decodeError(stderr).value.statusCode
                      && r.value.message == decodeError(stderr).value.message
  {
    match decodeError(stderr)
    case Ok(resp) => Ok(ApiError(resp.statusCode, resp.message))
    case Err(m) => Err(m)
  }

  /**
   * Exit status 0 decodes stdout as the reply; 1 decodes stderr as an API
   * error; any other status, or none, is a CLI error carrying stderr.
   */
  function GetResultFromOutput<T>(output: Output, decode: Decoder<T>, decodeError: Decoder<ErrorResponse>): (r: Result<T, Error>)
    ensures r.Ok? ==> output.code == Some(0) && decode(output.stdout) == Ok(r.value)
    ensures output.code == Some(0) && decode(output.stdout).Err? ==> r == Err(JsonError(decode(output.stdout).error))
    ensures output.code == Some(1) ==> r.Err? && (r.error.ApiError? || r.error.JsonError?)
    ensures output.code == Some(1) && decodeError(output.stderr).Ok? ==>
              r == Err(ApiError(decodeError(output.stderr).value.statusCode, decodeError(output.stderr).value.message))
    ensures output.code.None? || output.code.value !in {0, 1} ==> r == Err(CliError(output.code, output.stderr))
  {
    match output.code
    case None => Err(CliError(None, output.stderr))
    case Some(c) =>
      if c == 0 then
        match decode(output.stdout)
        case Ok(v) => Ok(v)
        case Err(m) => Err(JsonError(m))
      else if c == 1 then
        match ParseErrorResponse(output.stderr, decodeError)
        case Ok(e) => Err(e)
        case Err(m) => Err(JsonError(m))
      else Err(CliError(Some(c), output.stderr))
  }

  /**
   * The earlier client (boundary/client/cli.rs) classifies output the same
   * way: success only on status 0, and the stderr text survives in every
   * CLI error.
   */
  lemma OutputClassification<T>(output: Output, decode: Decoder<T>, decodeError: Decoder<ErrorResponse>)
    ensures var r := GetResultFromOutput(output, decode, decodeError);
      && (r.Ok? <==> output.code == Some(0) && decode(output.stdout).Ok?)
      && (r.Err? && r.error.CliError? ==> r.error.code == output.code && r.error.stderr == output.stderr)
      && (r.Err? && r.error.ApiError? ==> output.code == Some(1))
  {
  }

  /**
   * A list command: a failure to run is an I/O error; otherwise the
   * classified output, with absent items read as no items.
   */
  function ListCall<T>(run: Result<Output, string>, decode: Decoder<ListResponse<T>>, decodeError: Decoder<ErrorResponse>): (r: Result<seq<T>, Error>)
    ensures run.Err? ==> r == Err(Io(run.error))
    ensures r.Ok? ==> run.Ok? && run.value.code == Some(0)
    ensures run.Ok? && run.value.code == Some(0) && decode(run.value.stdout) == Ok(ListResponse(None)) ==> r == Ok([])
    ensures run.Ok? && run.value.code == Some(0) && decode(run.value.stdout).Ok? && decode(run.value.stdout).value.items.Some? ==>
              r == Ok(decode(run.value.stdout).value.items.value)
    ensures run.Ok? && run.value.code != Some(0) ==> r == Err(GetResultFromOutput(run.value, decode, decodeError).error)
  {
    match run
    case Err(m) => Err(Io(m))
    case Ok(o) =>
      match GetResultFromOutput(o, decode, decodeError)
      case Err(e) => Err(e)
      case Ok(resp) => Ok(if resp.items.Some? then resp.items.value else [])
  }

  // ---- argument lists ---------------------------------------------------

  /** `boundary scopes list`, optionally under a parent scope and recursive. */
  method ScopesArgs(parent: Option<string>, recursive: bool) returns (args: seq<string>)
    ensures |args| == 4 + (if parent.Some? then 2 else 0) + (if recursive then 1 else 0)
    ensures args[..4] == ["scopes", "list", "-format", "json"]
    ensures parent.Some? ==> args[4..6] == ["-scope-id", parent.value]
    ensures recursive ==> args[|args| - 1] == "-recursive"
  {
    args := ["scopes", "list", "-format", "json"];
    if parent.Some? {
      args := args + ["-scope-id"];
      args := args + [parent.value];
    }
    if recursive {
      args := args + ["-recursive"];
    }
  }

  /** The earlier client's `boundary scopes list`, which has no recursive flag. */
  method LegacyScopesArgs(parent: Option<string>) returns (args: seq<string>)
    ensures |args| == if parent.Some? then 6 else 4
    ensures args[..4] == ["scopes", "list", "-format", "json"]
    ensures parent.Some? ==> args[4..] == ["-scope-id", parent.value]
  {
    args := ["scopes", "list", "-format", "json"];
    if parent.Some? {
      args := args + ["-scope-id"];
      args := args + [parent.value];
    }
  }

  /** `boundary targets list`, optionally restricted to a scope. */
  method TargetsArgs(scope: Option<string>) returns (args: seq<string>)
    ensures |args| == if scope.Some? then 6 else 4
    ensures args[..4] == ["targets", "list", "-format", "json"]
    ensures scope.Some? ==> args[4..] == ["-scope-id", scope.value]
  {
    args := ["targets", "list", "-format", "json"];
    if scope.Some? {
      args := args + ["-scope-id"];
      args := args + [scope.value];
    }
  }

  /** `boundary sessions list` for one scope. */
  function SessionsArgs(scope: string): (args: seq<string>)
    ensures |args| == 6 && args[..2] == ["sessions", "list"] && args[4..] == ["-format", "json"]
    ensures args[2] == "-scope-id" && args[3] == scope
  {
    ["sessions", "list", "-scope-id", scope, "-format", "json"]
  }

  /** `boundary sessions cancel` for one session. */
  function CancelArgs(sessionId: string): (args: seq<string>)
    ensures |args| == 6 && args[..2] == ["sessions", "cancel"] && args[4..] == ["-format", "json"]
    ensures args[2] == "-id" && args[3] == sessionId
  {
    ["sessions", "cancel", "-id", sessionId, "-format", "json"]
  }

  /** `boundary connect` to a target on a local port, the port written in decimal. */
  function ConnectArgs(targetId: string, port: u16): (args: seq<string>)
    ensures |args| == 7 && args[..2] == ["connect", "-target-id"] && args[5..] == ["-format", "json"]
    ensures args[2] == targetId && args[3] == "-listen-port"
    ensures ParseU16(args[4]) == Some(port)
  {
    ParseRendersPort(port);
    ["connect", "-target-id", targetId, "-listen-port", NatToString(port), "-format", "json"]
  }

  /**
   * The outcome of `connect`: a local port that cannot be bound fails with
   * an I/O error before anything is spawned; then a failed spawn or read is
   * an I/O error, a missing first line a CLI error, and the first line is
   * decoded as the reply.
   */
  function ConnectReply(
    bind: Result<(), string>,
    spawn: Result<(), string>,
    firstLine: Result<Option<string>, string>,
    decode: Decoder<ConnectResponse>): (r: Result<ConnectResponse, Error>)
    ensures bind.Err? ==> r == Err(Io(bind.error))
    ensures bind.Ok? && spawn.Err? ==> r == Err(Io(spawn.error))
    ensures bind.Ok? && spawn.Ok? && firstLine.Err? ==> r == Err(Io(firstLine.error))
    ensures bind.Ok? && spawn.Ok? && firstLine == Ok(None) ==> r == Err(CliError(None, "No response from boundary"))
    ensures r.Ok? <==> bind.Ok? && spawn.Ok? && firstLine.Ok? && firstLine.value.Some?
                       && decode(firstLine.value.value).Ok?
    ensures r.Ok? ==> r.value == decode(firstLine.value.value).value
    ensures bind.Ok? && spawn.Ok? && firstLine.Ok? && firstLine.value.Some? && decode(firstLine.value.value).Err? ==>
              r == Err(JsonError(decode(firstLine.value.value).error))
  {
    if bind.Err? then Err(Io(bind.error))
    else LegacyConnectReply(spawn, firstLine, decode)
  }

  /** The earlier client's `connect`, which does not probe the port first. */
  function LegacyConnectReply(
    spawn: Result<(), string>,
    firstLine: Result<Option<string>, string>,
    decode: Decoder<ConnectResponse>): (r: Result<ConnectResponse, Error>)
    ensures spawn.Err? ==> r == Err(Io(spawn.error))
    ensures spawn.Ok? && firstLine.Err? ==> r == Err(Io(firstLine.error))
    ensures spawn.Ok? && firstLine == Ok(None) ==> r == Err(CliError(None, "No response from boundary"))
    ensures r.Ok? <==> spawn.Ok? && firstLine.Ok? && firstLine.value.Some? && decode(firstLine.value.value).Ok?
    ensures r.Ok? ==> r.value == decode(firstLine.value.value).value
    ensures spawn.Ok? && firstLine.Ok? && firstLine.value.Some? && decode(firstLine.value.value).Err? ==>
              r == Err(JsonError(decode(firstLine.value.value).error))
  {
    if spawn.Err? then Err(Io(spawn.error))
    else if firstLine.Err? then Err(Io(firstLine.error))
    else if firstLine.value.None? then Err(CliError(None, "No response from boundary"))
    else
      match decode(firstLine.value.value)
      case Ok(resp) => Ok(resp)
      case Err(m) => Err(JsonError(m))
  }

  // ---- a user's sessions ------------------------------------------------

  /**
   * The scope grants "list" on the named collection; it is the matcher
   * `GetUserSessions` filters the scopes with, the collection name taking
   * the place of the search text, and that method always names "sessions".
   */
  function ScopeGrantsList(s: Scope, collection: string): bool {
    Grants(s.collectionActions, collection, "list")
  }

  function SessionOfUser(s: Session, userId: string): bool {
    s.userId == userId
  }

  /**
   * The replies of the per-scope session lists, taken in scope order: the
   * first failure, or the concatenated sessions that belong to the user.
   */
  function UserSessions(results: seq<Result<seq<Session>, Error>>, userId: string): Result<seq<Session>, Error>
    decreases |results|
  {
    if results == [] then Ok([])
    else
      match UserSessions(results[..|results| - 1], userId)
      case Err(e) => Err(e)
      case Ok(s) =>
        match results[|results| - 1]
        case Err(e) => Err(e)
        case Ok(l) => Ok(s + Filtered(l, SessionOfUser, userId))
  }

  /** The collection fails exactly when some reply failed, and then with the first failure. */
  lemma {:induction false} UserSessionsFirstError(results: seq<Result<seq<Session>, Error>>, userId: string)
    ensures UserSessions(results, userId).Err? <==> exists i :: 0 <= i < |results| && results[i].Err?
    ensures UserSessions(results, userId).Err? ==>
      exists i :: 0 <= i < |results| && results[i].Err? && UserSessions(results, userId).error == results[i].error
                && forall j :: 0 <= j < i ==> results[j].Ok?
    decreases |results|
  {
    if results != [] {
      var init := results[..|results| - 1];
      UserSessionsFirstError(init, userId);
      assert forall i :: 0 <= i < |init| ==> init[i] == results[i];
    }
  }

  /** Every collected session belongs to the user. */
  lemma {:induction false} UserSessionsBelongToUser(results: seq<Result<seq<Session>, Error>>, userId: string)
    ensures UserSessions(results, userId).Ok? ==>
      forall s :: s in UserSessions(results, userId).value ==> s.userId == userId
    decreases |results|
  {
    if results != [] {
      UserSessionsBelongToUser(results[..|results| - 1], userId);
      var last := results[|results| - 1];
      if last.Ok? {
        forall s | s in Filtered(last.value, SessionOfUser, userId) ensures s.userId == userId {
          FilteredMembers(last.value, SessionOfUser, userId, s);
        }
      }
    }
  }

  /** Every session of the user in the replies is collected. */
  lemma {:induction false} UserSessionsCollectsAll(results: seq<Result<seq<Session>, Error>>, userId: string)
    ensures UserSessions(results, userId).Ok? ==>
      forall i, s :: 0 <= i < |results| && results[i].Ok? && s in results[i].value && s.userId == userId ==>
        s in UserSessions(results, userId).value
    decreases |results|
  {
    if results != [] && UserSessions(results, userId).Ok? {
      var init := results[..|results| - 1];
      UserSessionsCollectsAll(init, userId);
      var last := results[|results| - 1];
      var collected := UserSessions(results, userId).value;
      assert collected == UserSessions(init, userId).value + Filtered(last.value, SessionOfUser, userId);
      forall i, s | 0 <= i < |results| && results[i].Ok? && s in results[i].value && s.userId == userId
        ensures s in collected
      {
        if i < |init| {
          assert init[i] == results[i];
        } else {
          FilteredMembers(last.value, SessionOfUser, userId, s);
        }
      }
    }
  }

  /** The loop over the per-scope replies, returning at the first failure. */
  method CollectUserSessions(results: seq<Result<seq<Session>, Error>>, userId: string) returns (r: Result<seq<Session>, Error>)
    ensures r == UserSessions(results, userId)
  {
    var sessions: seq<Session> := [];
    var i := 0;
    while i < |results|
      invariant 0 <= i <= |results|
      invariant UserSessions(results[..i], userId) == Ok(sessions)
    {
      assert results[..i + 1][..i] == results[..i];
      match results[i]
      case Err(e) =>
        UserSessionsErrorSticks(results, i + 1, userId);
        return Err(e);
      case Ok(list) =>
        sessions := sessions + Filtered(list, SessionOfUser, userId);
      i := i + 1;
    }
    assert results[..i] == results;
    r := Ok(sessions);
  }

  /** A failure in a prefix of the replies is the failure of the whole collection. */
  lemma {:induction false} UserSessionsErrorSticks(results: seq<Result<seq<Session>, Error>>, n: nat, userId: string)
    requires n <= |results|
    requires UserSessions(results[..n], userId).Err?
    ensures UserSessions(results, userId) == UserSessions(results[..n], userId)
    decreases |results| - n
  {
    if n < |results| {
      assert results[..n + 1][..n] == results[..n];
      UserSessionsErrorSticks(results, n + 1, userId);
    } else {
      assert results[..n] == results;
    }
  }

  /**
   * `get_user_sessions`: the scopes listed recursively, narrowed to those
   * that grant listing their sessions; one session list per such scope,
   * collected in scope order.
   */
  method GetUserSessions(
    scopes: Result<seq<Scope>, Error>,
    sessionsOf: string -> Result<seq<Session>, Error>,
    userId: string) returns (r: Result<seq<Session>, Error>)
    ensures scopes.Err? ==> r == Err(scopes.error)
    ensures scopes.Ok? ==>
      var listed := Filtered(scopes.value, ScopeGrantsList, "sessions");
      r == UserSessions(seq(|listed|, i requires 0 <= i < |listed| => sessionsOf(listed[i].id)), userId)
  {
    if scopes.Err? {
      return Err(scopes.error);
    }
    var listed := Filtered(scopes.value, ScopeGrantsList, "sessions");
    var results := seq(|listed|, i requires 0 <= i < |listed| => sessionsOf(listed[i].id));
    r := CollectUserSessions(results, userId);
  }
}
