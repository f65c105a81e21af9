/**
 * The Boundary resources the application displays (boundary/models.rs,
 * boundary/client/response.rs) and the client's error type
 * (boundary/error.rs), with the permission checks the pages consult.
 */
module Models {
  import opened Wrappers
  import opened Text

  /** Collection name to the actions the user may perform on it. */
  type CollectionActions = map<string, seq<string>>

  datatype Scope = Scope(
    id: string,
    name: string,
    description: string,
    typeName: string,
    collectionActions: CollectionActions)

  datatype Target = Target(
    id: string,
    name: string,
    description: string,
    typeName: string,
    collectionActions: CollectionActions,
    authorizedActions: seq<string>,
    scopeId: string)

  /**
   * A session. `createdTime` is the creation instant in seconds; chrono's
   * rendering of that instant, which the filters search, is carried
   * beside it as `createdText`.
   */
  datatype Session = Session(
    id: string,
    targetId: string,
    sessionType: string,
    createdTime: int,
    createdText: string,
    status: string,
    authorizedActions: seq<string>,
    userId: string)

  datatype SessionWithTarget = SessionWithTarget(session: Session, target: Target)

  datatype Credential = Credential(username: string, password: string)

  datatype CredentialSource = CredentialSource(name: string)

  datatype CredentialEntry = CredentialEntry(credential: Credential, source: CredentialSource)

  /** The reply to `boundary connect`; `expiration` is an instant in seconds. */
  datatype ConnectResponse = ConnectResponse(
    credentials: seq<CredentialEntry>,
    sessionId: string,
    expiration: int)

  /** The client's errors. An I/O or JSON error carries the underlying message. */
  datatype Error =
    | Io(message: string)
    | CliError(code: Option<int>, stderr: string)
    | ApiError(status: u16, message: string)
    | JsonError(message: string)

  /** Does the map grant `action` on `collection`? A missing collection grants nothing. */
  predicate Grants(actions: CollectionActions, collection: string, action: string) {
    collection in actions && action in actions[collection]
  }

  /** The scope's "scopes" collection lists "list". */
  function CanListChildScopes(s: Scope): (r: bool)
    ensures "scopes" !in s.collectionActions ==> !r
    ensures r <==> "list" in CollectionOrEmpty(s.collectionActions, "scopes")
  {
    Grants(s.collectionActions, "scopes", "list")
  }

  /** The scope's "targets" collection lists "list". */
  function CanListTargets(s: Scope): (r: bool)
    ensures "targets" !in s.collectionActions ==> !r
    ensures r <==> "list" in CollectionOrEmpty(s.collectionActions, "targets")
  {
    Grants(s.collectionActions, "targets", "list")
  }

  /** The actions of a collection, the empty list when the collection is absent. */
  function CollectionOrEmpty(actions: CollectionActions, collection: string): seq<string> {
    if collection in actions then actions[collection] else []
  }

  /** The target's own actions include "authorize-session". */
  function CanConnect(t: Target): (r: bool)
    ensures r <==> exists i :: 0 <= i < |t.authorizedActions| && t.authorizedActions[i] == "authorize-session"
  {
    "authorize-session" in t.authorizedActions
  }

  /** The session's actions include "cancel:self". */
  function CanCancel(s: Session): (r: bool)
    ensures r <==> exists i :: 0 <= i < |s.authorizedActions| && s.authorizedActions[i] == "cancel:self"
  {
    "cancel:self" in s.authorizedActions
  }

  /** Targets are ordered by name alone (`PartialOrd for Target`). */
  function TargetLe(a: Target, b: Target): bool {
    StrLe(a.name, b.name)
  }

  /** The target order is total, and targets with equal names compare equal. */
  lemma TargetLeTotal(a: Target, b: Target)
    ensures TargetLe(a, b) || TargetLe(b, a)
    ensures a.name == b.name ==> TargetLe(a, b) && TargetLe(b, a)
  {
    StrLeTotal(a.name, b.name);
    StrLeReflexive(a.name);
  }

  /** The Display text of an error, as its `#[error]` attributes render it. */
  function Describe(e: Error): (r: string)
    ensures e.Io? ==> r == "An error occurred while executing the command: " + e.message
    ensures e.CliError? ==> r == "boundary cli returned an error code: " + DebugCode(e.code)
    ensures e.ApiError? ==> r == NatToString(e.status) + ": " + e.message
    ensures e.JsonError? ==> r == "An error occurred while parsing JSON: " + e.message
  {
    match e
    case Io(m) => "An error occurred while executing the command: " + m
    case CliError(code, _) => "boundary cli returned an error code: " + DebugCode(code)
    case ApiError(status, m) => NatToString(status) + ": " + m
    case JsonError(m) => "An error occurred while parsing JSON: " + m
  }

  /** `{:?}` of an `Option<i32>`. */
  function DebugCode(code: Option<int>): string {
    match code
    case None => "None"
    case Some(c) => "Some(" + IntToString(c) + ")"
  }

  /** The Debug text of an error (string escaping not reproduced). */
  function DebugText(e: Error): string {
    match e
    case Io(m) => "Io(" + m + ")"
    case CliError(code, s) => "CliError(" + DebugCode(code) + ", \"" + s + "\")"
    case ApiError(status, m) => "ApiError(" + NatToString(status) + ", \"" + m + "\")"
    case JsonError(m) => "JsonError(" + m + ")"
  }
}
