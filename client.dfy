/**
 * Joining sessions with their targets (the ApiClientExt helpers of
 * boundary/client/mod.rs). The client calls themselves are external; their
 * replies are parameters.
 */
module Client {
  import opened Wrappers
  import opened Models
  import opened TableFilter

  /** The first target with this id. */
  function FindTarget(targets: seq<Target>, id: string): (r: Option<Target>)
    ensures r.None? <==> forall i :: 0 <= i < |targets| ==> targets[i].id != id
    ensures r.Some? ==> exists i :: 0 <= i < |targets| && targets[i] == r.value && r.value.id == id
                          && forall j :: 0 <= j < i ==> targets[j].id != id
  {
    if targets == [] then None
    else if targets[0].id == id then Some(targets[0])
    else
      var r := FindTarget(targets[1..], id);
      assert r.Some? ==> exists i :: 1 <= i < |targets| && targets[i] == r.value && r.value.id == id
                          && forall j :: 0 <= j < i ==> targets[j].id != id by {
        if r.Some? {
          var i :| 0 <= i < |targets[1..]| && targets[1..][i] == r.value && r.value.id == id
                   && forall j :: 0 <= j < i ==> targets[1..][j].id != id;
          assert targets[i + 1] == r.value;
          assert forall j :: 0 <= j < i + 1 ==> targets[j].id != id by {
            forall j | 0 <= j < i + 1 ensures targets[j].id != id {
              if j > 0 { assert targets[j] == targets[1..][j - 1]; }
            }
          }
        }
      }
      assert r.None? ==> forall i :: 0 <= i < |targets| ==> targets[i].id != id by {
        if r.None? {
          forall i | 0 <= i < |targets| ensures targets[i].id != id {
            if i > 0 { assert targets[i] == targets[1..][i - 1]; }
          }
        }
      }
      r
  }

  /** The session's target is among the targets. */
  predicate HasTarget(targets: seq<Target>, s: Session) {
    FindTarget(targets, s.targetId).Some?
  }

  function SessionsOf(pairs: seq<SessionWithTarget>): (r: seq<Session>)
    ensures |r| == |pairs|
    ensures forall i :: 0 <= i < |pairs| ==> r[i] == pairs[i].session
  {
    seq(|pairs|, i requires 0 <= i < |pairs| => pairs[i].session)
  }

  /**
   * Each session paired with the first target whose id is its target id;
   * a session whose target is not listed is dropped.
   */
  function CombineSessionsWithTarget(sessions: seq<Session>, targets: seq<Target>): (r: seq<SessionWithTarget>)
    ensures forall s :: multiset(SessionsOf(r))[s] == if HasTarget(targets, s) then multiset(sessions)[s] else 0
    ensures IsSubsequence(SessionsOf(r), sessions)
    ensures forall i :: 0 <= i < |r| ==> FindTarget(targets, r[i].session.targetId) == Some(r[i].target)
    decreases |sessions|
  {
    if sessions == [] then []
    else
      var rest := CombineSessionsWithTarget(sessions[1..], targets);
      var found := FindTarget(targets, sessions[0].targetId);
      assert sessions == [sessions[0]] + sessions[1..];
      if found.Some? then
        var r := [SessionWithTarget(sessions[0], found.value)] + rest;
        assert SessionsOf(r) == [sessions[0]] + SessionsOf(rest);
        assert SessionsOf(r)[1..] == SessionsOf(rest);
        r
      else
        rest
  }

  /**
   * `get_sessions_with_target` and `get_user_sessions_with_target`: targets
   * are fetched first; either failure is the result, otherwise the join.
   */
  function GetSessionsWithTarget(
    targets: Result<seq<Target>, Error>,
    sessions: Result<seq<Session>, Error>): (r: Result<seq<SessionWithTarget>, Error>)
    ensures targets.Err? ==> r == Err(targets.error)
    ensures targets.Ok? && sessions.Err? ==> r == Err(sessions.error)
    ensures r.Ok? <==> targets.Ok? && sessions.Ok?
    ensures r.Ok? ==> r.value == CombineSessionsWithTarget(sessions.value, targets.value)
  {
    match targets
    case Err(e) => Err(e)
    case Ok(ts) =>
      match sessions
      case Err(e) => Err(e)
      case Ok(ss) => Ok(CombineSessionsWithTarget(ss, ts))
  }
}
