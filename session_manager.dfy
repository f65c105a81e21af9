/**
 * The connection manager of the current generation
 * (bountui/connection_manager.rs). `connect` registers a cancellation
 * token and the join handle of a supervision task under the session id;
 * the task ends when the token is cancelled, when the connection ends by
 * itself, or when the session expires, stops the connection handle in the
 * first and last case, and then removes both entries; `stop` takes the
 * handle out, cancels the session remotely, cancels the token and awaits
 * the task.
 *
 * The asynchronous task is modelled as an explicit record; the moment it
 * ends is an event (TaskEnds) the environment chooses, subject to the
 * clock for expiry. The one await inside `stop` where the task may end
 * concurrently (the remote cancel) is a parameter of Stop.
 */
module SessionManager {
  import opened Wrappers
  import opened Models

  /** Which branch of the task's `select!` won. */
  datatype Cause = Cancelled | HandleEnded | Expired

  /**
   * A supervision task: its session, the instant its expiry timer fires
   * (None when the expiry lies in the past and the timer waits forever),
   * how it ended, and how many times it called the handle's `stop()`.
   */
  datatype Task = Task(session: string, deadline: Option<int>, ended: Option<Cause>, handleStops: nat)

  datatype ConnectionError =
    | BoundaryError(error: Error)
    | StopFailedMissingToken
    | StopFailedMissingJoinHandle

  /**
   * The two maps keyed by session id, each naming a task by its index in
   * `tasks` (a token belongs to the task created with it).
   */
  datatype Registry = Registry(tokens: map<string, nat>, handles: map<string, nat>, tasks: seq<Task>)

  function EmptyRegistry(): Registry {
    Registry(map[], map[], [])
  }

  /** The expiry timer: the expiration instant, or never when `expiration - now` is negative. */
  function Deadline(expiration: int, now: int): (d: Option<int>)
    ensures d.Some? <==> now <= expiration
    ensures d.Some? ==> d.value == expiration
  {
    var expiresIn := expiration - now;
    if expiresIn >= 0 then Some(now + expiresIn) else None
  }

  predicate Running(reg: Registry, k: nat) {
    k < |reg.tasks| && reg.tasks[k].ended.None?
  }

  /**
   * The environment may end a running task by the end of its connection at
   * any time, and by expiry once the clock has reached its deadline.
   * Cancellation only happens inside Stop.
   */
  predicate CanEnd(reg: Registry, k: nat, cause: Cause, now: int) {
    && Running(reg, k)
    && match cause
       case Cancelled => false
       case HandleEnded => true
       case Expired => reg.tasks[k].deadline.Some? && reg.tasks[k].deadline.value <= now
  }

  /** The number of handle stops a task has made, given how it ended. */
  function StopsFor(ended: Option<Cause>): nat {
    if ended == Some(Cancelled) || ended == Some(Expired) then 1 else 0
  }

  /**
   * Every registered handle has its token beside it, for the same task;
   * every registered token belongs to a running task of that session; and
   * each task has stopped its handle once if it ended by cancellation or
   * expiry, and never otherwise.
   */
  ghost predicate Valid(reg: Registry) {
    && (forall id :: id in reg.handles ==> id in reg.tokens && reg.tokens[id] == reg.handles[id])
    && (forall id :: id in reg.tokens ==> Running(reg, reg.tokens[id]) && reg.tasks[reg.tokens[id]].session == id)
    && (forall k :: 0 <= k < |reg.tasks| ==> reg.tasks[k].handleStops == StopsFor(reg.tasks[k].ended))
  }

  /**
   * `connect`: a failed client call changes nothing and is the result;
   * otherwise a new running task is registered under the session id in
   * both maps, and the reply is the result.
   */
  function ConnectStep(reg: Registry, reply: Result<ConnectResponse, Error>, now: int): (r: (Registry, Result<ConnectResponse, Error>))
    ensures r.1 == reply
    ensures reply.Err? ==> r.0 == reg
    ensures reply.Ok? ==>
      var id := reply.value.sessionId;
      var k := |reg.tasks|;
      && r.0.tokens == reg.tokens[id := k] && r.0.handles == reg.handles[id := k]
      && |r.0.tasks| == k + 1 && r.0.tasks[..k] == reg.tasks
      && Running(r.0, k) && r.0.tasks[k].session == id && r.0.tasks[k].handleStops == 0
      && r.0.tasks[k].deadline == (if now <= reply.value.expiration then Some(reply.value.expiration) else None)
  {
    match reply
    case Err(_) => (reg, reply)
    case Ok(resp) =>
      var k := |reg.tasks|;
      var task := Task(resp.sessionId, Deadline(resp.expiration, now), None, 0);
      (Registry(reg.tokens[resp.sessionId := k], reg.handles[resp.sessionId := k], reg.tasks + [task]), reply)
  }

  /**
   * The task ends: it stops the handle unless the connection ended by
   * itself, and removes its session from both maps.
   */
  function Finish(reg: Registry, k: nat, cause: Cause): (r: Registry)
    requires Running(reg, k)
    ensures |r.tasks| == |reg.tasks| && r.tasks[k].ended == Some(cause)
    ensures r.tasks[k].handleStops == reg.tasks[k].handleStops + StopsFor(Some(cause))
    ensures forall j :: 0 <= j < |reg.tasks| && j != k ==> r.tasks[j] == reg.tasks[j]
    ensures r.tokens == reg.tokens - {reg.tasks[k].session}
    ensures r.handles == reg.handles - {reg.tasks[k].session}
  {
    var t := reg.tasks[k];
    var stopped := t.(ended := Some(cause), handleStops := t.handleStops + StopsFor(Some(cause)));
    Registry(reg.tokens - {t.session}, reg.handles - {t.session}, reg.tasks[k := stopped])
  }

  /**
   * `stop(id)`. `cancel` is the reply of the remote cancel; `interleaved`
   * says whether the task ended on its own while that reply was awaited.
   */
  function StopStep(reg: Registry, id: string, cancel: Result<(), Error>, interleaved: Option<Cause>, now: int): (r: (Registry, Result<(), ConnectionError>))
    requires Valid(reg)
    requires interleaved.Some? ==> id in reg.handles && CanEnd(reg, reg.handles[id], interleaved.value, now)
    ensures |r.0.tasks| == |reg.tasks|
    ensures id !in reg.handles ==> r == (reg, Err(StopFailedMissingJoinHandle))
    ensures id in reg.handles && cancel.Err? ==> r.1 == Err(BoundaryError(cancel.error))
    ensures id in reg.handles && cancel.Err? && interleaved.None? ==>
              r.0 == reg.(handles := reg.handles - {id})
    ensures r.1 == Err(StopFailedMissingToken) <==> id in reg.handles && cancel.Ok? && interleaved.Some?
    ensures r.1.Ok? <==> id in reg.handles && cancel.Ok? && interleaved.None?
    ensures r.1.Ok? ==>
              var k := reg.handles[id];
              && r.0.tasks[k].ended == Some(Cancelled) && r.0.tasks[k].handleStops == 1
              && r.0.tokens == reg.tokens - {id} && r.0.handles == reg.handles - {id}
    ensures id in reg.handles ==> id !in r.0.handles
  {
    if id !in reg.handles then (reg, Err(StopFailedMissingJoinHandle))
    else
      var k := reg.handles[id];
      var taken := reg.(handles := reg.handles - {id});
      var afterCancel := if interleaved.Some? then Finish(taken, k, interleaved.value) else taken;
      if cancel.Err? then (afterCancel, Err(BoundaryError(cancel.error)))
      else if id !in afterCancel.tokens then (afterCancel, Err(StopFailedMissingToken))
      else
        var untokened := afterCancel.(tokens := afterCancel.tokens - {id});
        assert Running(untokened, k);
        (Finish(untokened, k, Cancelled), Ok(()))
  }

  // ---- the invariant is kept by every step ------------------------------

  lemma ConnectKeepsValid(reg: Registry, reply: Result<ConnectResponse, Error>, now: int)
    requires Valid(reg)
    ensures Valid(ConnectStep(reg, reply, now).0)
  {
    if reply.Ok? {
      var r := ConnectStep(reg, reply, now).0;
      forall id | id in r.tokens ensures Running(r, r.tokens[id]) && r.tasks[r.tokens[id]].session == id {
        if id != reply.value.sessionId {
          assert r.tasks[reg.tokens[id]] == reg.tasks[reg.tokens[id]];
        }
      }
      forall k | 0 <= k < |r.tasks| ensures r.tasks[k].handleStops == StopsFor(r.tasks[k].ended) {
        if k < |reg.tasks| { assert r.tasks[k] == reg.tasks[k]; }
      }
    }
  }

  lemma FinishKeepsValid(reg: Registry, k: nat, cause: Cause)
    requires Valid(reg) && Running(reg, k)
    ensures Valid(Finish(reg, k, cause))
  {
    var r := Finish(reg, k, cause);
    forall id | id in r.tokens ensures Running(r, r.tokens[id]) && r.tasks[r.tokens[id]].session == id {
      assert reg.tokens[id] != k;
    }
  }

  lemma StopKeepsValid(reg: Registry, id: string, cancel: Result<(), Error>, interleaved: Option<Cause>, now: int)
    requires Valid(reg)
    requires interleaved.Some? ==> id in reg.handles && CanEnd(reg, reg.handles[id], interleaved.value, now)
    ensures Valid(StopStep(reg, id, cancel, interleaved, now).0)
  {
    if id in reg.handles {
      var k := reg.handles[id];
      var taken := reg.(handles := reg.handles - {id});
      assert Valid(taken);
      if interleaved.Some? {
        FinishKeepsValid(taken, k, interleaved.value);
      } else if cancel.Ok? {
        var untokened := taken.(tokens := taken.tokens - {id});
        assert Valid(untokened);
        FinishKeepsValid(untokened, k, Cancelled);
      }
    }
  }

  lemma TaskEndKeepsValid(reg: Registry, k: nat, cause: Cause, now: int)
    requires Valid(reg) && CanEnd(reg, k, cause, now)
    ensures Valid(Finish(reg, k, cause))
  {
    FinishKeepsValid(reg, k, cause);
  }

  // ---- consequences -----------------------------------------------------

  /** In every reachable state a task has stopped its handle at most once. */
  lemma HandleStoppedAtMostOnce(reg: Registry, k: nat)
    requires Valid(reg) && k < |reg.tasks|
    ensures reg.tasks[k].handleStops <= 1
    ensures reg.tasks[k].ended.None? ==> reg.tasks[k].handleStops == 0
  {
  }

  /** A successful stop leaves nothing to stop: a second stop of the same id changes nothing. */
  lemma {:induction false} StopTwice(reg: Registry, id: string, now: int)
    requires Valid(reg)
    requires StopStep(reg, id, Ok(()), None, now).1.Ok?
    ensures var once := StopStep(reg, id, Ok(()), None, now).0;
      Valid(once) && StopStep(once, id, Ok(()), None, now) == (once, Err(StopFailedMissingJoinHandle))
  {
    StopKeepsValid(reg, id, Ok(()), None, now);
  }

  /** Once stopped, the task cannot end again, so its handle is never stopped a second time. */
  lemma {:induction false} StoppedTaskCannotEnd(reg: Registry, id: string, cause: Cause, now: int, later: int)
    requires Valid(reg) && id in reg.handles
    requires StopStep(reg, id, Ok(()), None, now).1.Ok?
    ensures !CanEnd(StopStep(reg, id, Ok(()), None, now).0, reg.handles[id], cause, later)
  {
  }

  /**
   * A failed remote cancel takes the handle out but leaves the token
   * registered and the task running: a later stop of the same id finds no
   * handle.
   */
  lemma {:induction false} FailedCancelOrphansToken(reg: Registry, id: string, e: Error, now: int)
    requires Valid(reg) && id in reg.handles
    ensures var after := StopStep(reg, id, Err(e), None, now).0;
      && id in after.tokens && id !in after.handles && Running(after, reg.handles[id])
      && StopStep(after, id, Ok(()), None, now).1 == Err(StopFailedMissingJoinHandle)
  {
    StopKeepsValid(reg, id, Err(e), None, now);
  }

  /** An expiration already in the past arms no timer: the task never expires. */
  lemma {:induction false} PastExpirationNeverFires(reg: Registry, resp: ConnectResponse, now: int, later: int)
    requires resp.expiration < now
    ensures !CanEnd(ConnectStep(reg, Ok(resp), now).0, |reg.tasks|, Expired, later)
  {
  }

  // ---- the scenarios of the module's tests ------------------------------

  /**
   * A ten-second session: five seconds in, the timer has not fired and the
   * handle was not stopped; eleven seconds in, the timer may fire, which
   * stops the handle exactly once and unregisters the session.
   */
  lemma {:induction false} ExpiryScenario(now: int)
    ensures var reg := ConnectStep(EmptyRegistry(), Ok(ConnectResponse([], "session-id", now + 10)), now).0;
      && reg.tasks[0].handleStops == 0
      && !CanEnd(reg, 0, Expired, now + 5)
      && CanEnd(reg, 0, Expired, now + 11)
      && Finish(reg, 0, Expired).tasks[0].handleStops == 1
      && "session-id" !in Finish(reg, 0, Expired).tokens
      && "session-id" !in Finish(reg, 0, Expired).handles
  {
  }

  /** An eight-hour session stopped after five seconds: one handle stop, nothing left registered. */
  lemma {:induction false} ManualStopScenario(now: int)
    ensures var reg := ConnectStep(EmptyRegistry(), Ok(ConnectResponse([], "session-id", now + 8 * 3600)), now).0;
      Valid(reg) &&
      var stopped := StopStep(reg, "session-id", Ok(()), None, now + 5);
      && stopped.1 == Ok(())
      && stopped.0.tasks[0].handleStops == 1
      && stopped.0.tokens == map[] && stopped.0.handles == map[]
  {
    var reg := ConnectStep(EmptyRegistry(), Ok(ConnectResponse([], "session-id", now + 8 * 3600)), now).0;
    ConnectKeepsValid(EmptyRegistry(), Ok(ConnectResponse([], "session-id", now + 8 * 3600)), now);
    var stopped := StopStep(reg, "session-id", Ok(()), None, now + 5);
    assert stopped.0.tokens == map[] by {
      assert reg.tokens == map["session-id" := 0];
    }
  }

  // ---- the manager object -----------------------------------------------

  class ConnectionManager {
    var cancellationTokens: map<string, nat>
    var joinHandles: map<string, nat>
    var tasks: seq<Task>

    function Model(): Registry
      reads this
    {
      Registry(cancellationTokens, joinHandles, tasks)
    }

    constructor ()
      ensures Model() == EmptyRegistry() && Valid(Model())
    {
      cancellationTokens := map[];
      joinHandles := map[];
      tasks := [];
    }

    method Connect(reply: Result<ConnectResponse, Error>, now: int) returns (r: Result<ConnectResponse, Error>)
      requires Valid(Model())
      modifies this
      ensures Valid(Model())
      ensures (Model(), r) == ConnectStep(old(Model()), reply, now)
    {
      ConnectKeepsValid(Model(), reply, now);
      if reply.Err? {
        return reply;
      }
      var id := reply.value.sessionId;
      var k := |tasks|;
      cancellationTokens := cancellationTokens[id := k];
      var task := Task(id, Deadline(reply.value.expiration, now), None, 0);
      tasks := tasks + [task];
      joinHandles := joinHandles[id := k];
      r := reply;
    }

    /** The supervision task's cleanup after its select! has chosen a branch. */
    method FinishTask(k: nat, cause: Cause)
      requires Running(Model(), k)
      modifies this
      ensures Model() == Finish(old(Model()), k, cause)
    {
      var t := tasks[k];
      tasks := tasks[k := t.(ended := Some(cause), handleStops := t.handleStops + StopsFor(Some(cause)))];
      joinHandles := joinHandles - {t.session};
      cancellationTokens := cancellationTokens - {t.session};
    }

    /** The environment ends a task by its connection ending or its expiry. */
    method TaskEnds(k: nat, cause: Cause, now: int)
      requires Valid(Model()) && CanEnd(Model(), k, cause, now)
      modifies this
      ensures Valid(Model())
      ensures Model() == Finish(old(Model()), k, cause)
    {
      TaskEndKeepsValid(Model(), k, cause, now);
      FinishTask(k, cause);
    }

    method Stop(id: string, cancel: Result<(), Error>, interleaved: Option<Cause>, now: int) returns (r: Result<(), ConnectionError>)
      requires Valid(Model())
      requires interleaved.Some? ==> id in joinHandles && CanEnd(Model(), joinHandles[id], interleaved.value, now)
      modifies this
      ensures Valid(Model())
      ensures (Model(), r) == StopStep(old(Model()), id, cancel, interleaved, now)
    {
      StopKeepsValid(Model(), id, cancel, interleaved, now);
      if id !in joinHandles {
        return Err(StopFailedMissingJoinHandle);
      }
      var k := joinHandles[id];
      joinHandles := joinHandles - {id};
      if interleaved.Some? {
        FinishTask(k, interleaved.value);
      }
      if cancel.Err? {
        return Err(BoundaryError(cancel.error));
      }
      if id !in cancellationTokens {
        return Err(StopFailedMissingToken);
      }
      cancellationTokens := cancellationTokens - {id};
      FinishTask(k, Cancelled);
      r := Ok(());
    }
  }
}
