/**
 * The connection manager of the earlier generation (connection_manager.rs):
 * one map from session id to the cancellation token handed to the client
 * for that connection. `stop` cancels the session remotely first and then
 * cancels and forgets the token, if one is registered.
 *
 * A token is named by the number of tokens created before it; the tokens
 * cancelled so far are kept in the order they were cancelled.
 */
module LegacySessionManager {
  import opened Wrappers
  import opened Text
  import opened Models

  datatype ConnectionError =
    | ConnectionFailed(targetId: string, port: u16, error: Error)
    | ConnectionNotFound(id: string)
    | UpdateStateError
    | BoundaryError(error: Error)

  /** The Display text of a connection error, as its `#[error]` attributes render it. */
  function DescribeConnectionError(e: ConnectionError): (r: string)
    ensures e.BoundaryError? ==> r == "Boundary error: " + Describe(e.error)
    ensures e.ConnectionNotFound? ==> r == "Connection with id " + e.id + " not found"
    ensures e.UpdateStateError? ==> r == "Failed to update internal state"
    ensures e.ConnectionFailed? ==>
      r == "An error occurred while connecting to target " + e.targetId + " on port " + NatToString(e.port) + ": " + Describe(e.error)
  {
    match e
    case ConnectionFailed(t, p, err) =>
      "An error occurred while connecting to target " + t + " on port " + NatToString(p) + ": " + Describe(err)
    case ConnectionNotFound(id) => "Connection with id " + id + " not found"
    case UpdateStateError => "Failed to update internal state"
    case BoundaryError(err) => "Boundary error: " + Describe(err)
  }

  class ConnectionManager {
    var cancellationTokens: map<string, nat>
    var tokensCreated: nat
    var cancelled: seq<nat>

    /**
     * Registered tokens are distinct, were created here, and are not yet
     * cancelled; no token was cancelled twice.
     */
    ghost predicate Valid()
      reads this
    {
      && (forall id :: id in cancellationTokens ==>
            cancellationTokens[id] < tokensCreated && cancellationTokens[id] !in cancelled)
      && (forall a, b :: a in cancellationTokens && b in cancellationTokens && a != b ==>
            cancellationTokens[a] != cancellationTokens[b])
      && (forall i :: 0 <= i < |cancelled| ==> cancelled[i] < tokensCreated)
      && (forall i, j :: 0 <= i < j < |cancelled| ==> cancelled[i] != cancelled[j])
    }

    constructor ()
      ensures Valid()
      ensures cancellationTokens == map[] && tokensCreated == 0 && cancelled == []
    {
      cancellationTokens := map[];
      tokensCreated := 0;
      cancelled := [];
    }

    /**
     * `connect`: a new token is created and handed to the client together
     * with the target and port; `reply` is the client's answer. On success
     * the token is registered under the new session id.
     */
    method Connect(target: Target, port: u16, reply: Result<ConnectResponse, Error>)
      returns (r: Result<ConnectResponse, Error>, token: nat)
      requires Valid()
      modifies this
      ensures Valid()
      ensures r == reply && token == old(tokensCreated) && tokensCreated == token + 1
      ensures cancellationTokens == if reply.Ok? then old(cancellationTokens)[reply.value.sessionId := token]
                                    else old(cancellationTokens)
      ensures cancelled == old(cancelled)
    {
      token := tokensCreated;
      tokensCreated := tokensCreated + 1;
      if reply.Err? {
        return reply, token;
      }
      cancellationTokens := cancellationTokens[reply.value.sessionId := token];
      r := reply;
    }

    /**
     * `stop`: the remote cancel comes first and its failure is the result,
     * with nothing changed. Otherwise the token registered under the id, if
     * any, is cancelled and forgotten, and the stop succeeds either way.
     */
    method Stop(id: string, cancel: Result<(), Error>) returns (r: Result<(), ConnectionError>)
      requires Valid()
      modifies this
      ensures Valid()
      ensures tokensCreated == old(tokensCreated)
      ensures cancel.Err? ==> r == Err(BoundaryError(cancel.error))
                              && cancellationTokens == old(cancellationTokens) && cancelled == old(cancelled)
      ensures cancel.Ok? ==> r == Ok(())
                             && cancellationTokens == old(cancellationTokens) - {id}
                             && cancelled == old(cancelled) + (if id in old(cancellationTokens) then [old(cancellationTokens)[id]] else [])
    {
      if cancel.Err? {
        return Err(BoundaryError(cancel.error));
      }
      if id in cancellationTokens {
        var token := cancellationTokens[id];
        cancelled := cancelled + [token];
        cancellationTokens := cancellationTokens - {id};
      }
      r := Ok(());
    }

    /** How many times a token has been cancelled. */
    function CancelCount(token: nat): nat
      reads this
    {
      multiset(cancelled)[token]
    }
  }

  /**
   * A connection stopped twice: both stops succeed, the token handed to the
   * client is cancelled exactly once, and nothing stays registered.
   */
  method StopTwiceCancelsOnce(target: Target, port: u16, resp: ConnectResponse)
    returns (first: Result<(), ConnectionError>, second: Result<(), ConnectionError>, cancels: nat, registered: bool)
    ensures first == Ok(()) && second == Ok(())
    ensures cancels == 1
    ensures !registered
  {
    var m := new ConnectionManager();
    var r, token := m.Connect(target, port, Ok(resp));
    first := m.Stop(resp.sessionId, Ok(()));
    second := m.Stop(resp.sessionId, Ok(()));
    assert m.cancelled == [token];
    cancels := m.CancelCount(token);
    registered := resp.sessionId in m.cancellationTokens;
  }

  /** A failed remote cancel leaves the token registered and uncancelled. */
  method FailedCancelKeepsToken(target: Target, port: u16, resp: ConnectResponse, e: Error)
    returns (r: Result<(), ConnectionError>, cancels: nat, registered: bool)
    ensures r == Err(BoundaryError(e))
    ensures cancels == 0 && registered
  {
    var m := new ConnectionManager();
    var _, token := m.Connect(target, port, Ok(resp));
    r := m.Stop(resp.sessionId, Err(e));
    cancels := m.CancelCount(token);
    registered := resp.sessionId in m.cancellationTokens;
  }
}
