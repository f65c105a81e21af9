/**
 * The sessions page of the earlier generation (components/table/sessions.rs):
 * the user's sessions on one target, oldest first; Ctrl+D stops the
 * selected session when the user may cancel it and then reloads the list.
 */
module LegacySessions {
  import opened Wrappers
  import opened Events
  import opened Models
  import opened ItemRules
  import opened TableFilter
  import LegacyTable
  import Routing
  import Routes
  import AlertStack
  import LegacySessionManager

  /** `is_enabled` of the one command, Stop: the session grants "cancel:self". */
  function StopEnabled(s: Session): (r: bool)
    ensures r <==> "cancel:self" in s.authorizedActions
  {
    CanCancel(s)
  }

  /** `filter_sessions`: the sessions of this target that belong to this user, in order. */
  function FilterSessions(sessions: seq<Session>, targetId: string, userId: string): (r: seq<Session>)
    ensures IsSubsequence(r, sessions)
    ensures forall x :: x in r <==> x in sessions && x.targetId == targetId && x.userId == userId
    ensures forall x :: multiset(r)[x] == if x.targetId == targetId && x.userId == userId then multiset(sessions)[x] else 0
  {
    var mine := (s: Session, _: string) => s.targetId == targetId && s.userId == userId;
    forall x ensures x in Filtered(sessions, mine, "") <==> x in sessions && mine(x, "") {
      FilteredMembers(sessions, mine, "", x);
    }
    Filtered(sessions, mine, "")
  }

  /**
   * `load_sessions`: on success the user's sessions on the target, sorted
   * by creation time; on failure the table is kept and one alert says why.
   */
  function LoadOutcome(t: LegacyTable.TableState<Session>, reply: Result<seq<Session>, Error>, targetId: string, userId: string)
    : (r: (LegacyTable.TableState<Session>, seq<AlertStack.Alert>))
    ensures reply.Err? ==> r == (t, [AlertStack.NewAlert("Error", "Failed to load sessions: " + Describe(reply.error))])
    ensures reply.Ok? ==> r.1 == [] && r.0.visible == r.0.items && r.0.selected == Some(0) && r.0.filter == t.filter
    ensures reply.Ok? ==> Sorting.SortedBy(r.0.items, SessionTimeLe)
    ensures reply.Ok? ==> forall x :: x in r.0.items <==> x in reply.value && x.targetId == targetId && x.userId == userId
    ensures reply.Ok? ==> multiset(r.0.items) == multiset(FilterSessions(reply.value, targetId, userId))
  {
    match reply
    case Ok(sessions) =>
      TimeOrdersArePreorders();
      var kept := FilterSessions(sessions, targetId, userId);
      var r := LegacyTable.WithItems(t, kept, SessionTimeLe);
      assert forall x :: x in r.items <==> x in kept by {
        forall x ensures x in r.items <==> x in kept {
          assert x in r.items <==> x in multiset(r.items);
          assert x in kept <==> x in multiset(kept);
        }
      }
      (r, [])
    case Err(e) => (t, [AlertStack.NewAlert("Error", "Failed to load sessions: " + Describe(e))])
  }

  /** The session `stop_session` stops: the selected one, and only if the user may cancel it. */
  function StopTarget(t: LegacyTable.TableState<Session>): (r: Option<string>)
    ensures r.Some? <==> LegacyTable.SelectedItem(t).Some? && CanCancel(LegacyTable.SelectedItem(t).value)
    ensures r.Some? ==> r.value == LegacyTable.SelectedItem(t).value.id
  {
    match LegacyTable.SelectedItem(t)
    case None => None
    case Some(s) => if CanCancel(s) then Some(s.id) else None
  }

  /**
   * `handle_event`: the table first; then Ctrl+D, with Control the only
   * modifier, is consumed and asks to stop the selected session.
   */
  function Step(t: LegacyTable.TableState<Session>, e: Event): (r: (LegacyTable.TableState<Session>, Option<string>, bool))
    ensures r.1.Some? ==> r.2 && r.0 == t && IsOnlyCtrl(e, 'd') && r.1 == StopTarget(t)
    ensures IsOnlyCtrl(e, 'd') && !LegacyTable.AfterEvent(t, e, SessionMatches).1 ==> r == (t, StopTarget(t), true)
    ensures LegacyTable.AfterEvent(t, e, SessionMatches).1 ==> r == (LegacyTable.AfterEvent(t, e, SessionMatches).0, None, true)
    ensures !r.2 ==> r.0 == t && r.1 == None && !IsOnlyCtrl(e, 'd')
  {
    var (t', consumed) := LegacyTable.AfterEvent(t, e, SessionMatches);
    if consumed then (t', None, true)
    else if IsOnlyCtrl(e, 'd') then (t, StopTarget(t), true)
    else (t, None, false)
  }

  /** Ctrl+D with Shift as well is not the stop key: it is passed on. */
  lemma ShiftCtrlDIsNotStop(t: LegacyTable.TableState<Session>)
    requires !IsInput(t.filter)
    ensures Step(t, Key(Char('d'), {Control, Shift})) == (t, None, false)
  {
    assert Key(Char('d'), {Control, Shift}).modifiers != {Control} by {
      assert Shift in Key(Char('d'), {Control, Shift}).modifiers;
    }
  }

  class SessionsPage {
    const table: LegacyTable.TablePage<Session>
    const router: Routing.Router<Routes.Route>
    const manager: LegacySessionManager.ConnectionManager
    const alerts: AlertStack.Alerts
    const userId: string
    const targetId: string
    const scopeId: string

    /** `new` followed by `load_sessions`; `reply` is what `get_sessions(scope)` returned. */
    constructor (router: Routing.Router<Routes.Route>, manager: LegacySessionManager.ConnectionManager, alerts: AlertStack.Alerts,
                 userId: string, scopeId: string, targetId: string, reply: Result<seq<Session>, Error>)
      modifies alerts
      ensures this.router == router && this.manager == manager && this.alerts == alerts
      ensures this.userId == userId && this.scopeId == scopeId && this.targetId == targetId
      ensures fresh(table) && table.title == "Sessions"
      ensures var r := LoadOutcome(LegacyTable.NewTable([]), reply, targetId, userId);
        table.Model() == r.0 && alerts.alerts == old(alerts.alerts) + r.1
    {
      this.router := router;
      this.manager := manager;
      this.alerts := alerts;
      this.userId := userId;
      this.scopeId := scopeId;
      this.targetId := targetId;
      table := new LegacyTable.TablePage("Sessions", []);
      new;
      LoadSessions(reply);
    }

    method LoadSessions(reply: Result<seq<Session>, Error>)
      modifies table, alerts
      ensures var r := LoadOutcome(old(table.Model()), reply, targetId, userId);
        table.Model() == r.0 && alerts.alerts == old(alerts.alerts) + r.1
      ensures table.title == old(table.title)
    {
      match reply
      case Ok(sessions) =>
        SetSessions(FilterSessions(sessions, targetId, userId));
      case Err(e) =>
        alerts.Alert("Error", "Failed to load sessions: " + Describe(e));
    }

    method SetSessions(sessions: seq<Session>)
      modifies table
      ensures (TimeOrdersArePreorders(); table.Model() == LegacyTable.WithItems(old(table.Model()), sessions, SessionTimeLe))
      ensures table.title == old(table.title)
    {
      TimeOrdersArePreorders();
      table.UpdateItems(sessions, SessionTimeLe);
    }

    /**
     * `stop_session`; `cancel` is the client's answer to the remote cancel
     * and `reload` its answer to the reload that follows a successful stop.
     */
    method StopSession(cancel: Result<(), Error>, reload: Result<seq<Session>, Error>)
      requires manager.Valid()
      modifies table, manager, alerts
      ensures manager.Valid() && table.title == old(table.title)
      ensures var id := StopTarget(old(table.Model()));
        && (id.None? ==> table.Model() == old(table.Model()) && unchanged(manager) && alerts.alerts == old(alerts.alerts))
        && (id.Some? && cancel.Err? ==>
              && table.Model() == old(table.Model())
              && manager.cancellationTokens == old(manager.cancellationTokens)
              && alerts.alerts == old(alerts.alerts) +
                   [AlertStack.NewAlert("Error", LegacySessionManager.DescribeConnectionError(LegacySessionManager.BoundaryError(cancel.error)))])
        && (id.Some? && cancel.Ok? ==>
              && manager.cancellationTokens == old(manager.cancellationTokens) - {id.value}
              && var r := LoadOutcome(old(table.Model()), reload, targetId, userId);
                 table.Model() == r.0 && alerts.alerts == old(alerts.alerts) + r.1)
    {
      var selected := LegacyTable.SelectedItem(table.Model());
      if selected.Some? {
        var session := selected.value;
        if !CanCancel(session) {
          return;
        }
        var stopResult := manager.Stop(session.id, cancel);
        match stopResult
        case Ok(_) => LoadSessions(reload);
        case Err(e) => alerts.Alert("Error", LegacySessionManager.DescribeConnectionError(e));
      }
    }

    method HandleEvent(e: Event, cancel: Result<(), Error>, reload: Result<seq<Session>, Error>) returns (consumed: bool)
      requires manager.Valid()
      modifies table, manager, alerts
      ensures manager.Valid() && table.title == old(table.title)
      ensures var r := Step(old(table.Model()), e);
        && consumed == r.2
        && (r.1.None? ==> table.Model() == r.0 && unchanged(manager) && alerts.alerts == old(alerts.alerts))
        && (r.1.Some? && cancel.Err? ==>
              table.Model() == r.0 && manager.cancellationTokens == old(manager.cancellationTokens) && |alerts.alerts| == |old(alerts.alerts)| + 1)
        && (r.1.Some? && cancel.Ok? ==>
              && manager.cancellationTokens == old(manager.cancellationTokens) - {r.1.value}
              && var loaded := LoadOutcome(old(table.Model()), reload, targetId, userId);
                 table.Model() == loaded.0 && alerts.alerts == old(alerts.alerts) + loaded.1)
    {
      consumed := table.HandleEvent(e, SessionMatches);
      if consumed {
        return;
      }
      if e.Key? && e.code == Char('d') && e.modifiers == {Control} {
        StopSession(cancel, reload);
        return true;
      }
      return false;
    }
  }
}
