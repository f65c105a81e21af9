/**
 * The sessions page of the current generation
 * (bountui/components/table/sessions.rs) and its session loaders. The
 * page asks to stop the selected session on Ctrl+D; a background loop
 * fetches the sessions and sends them to the page as a message, or sends
 * an error alert instead.
 *
 * The page is written against a later table whose `handle_event` answers
 * whether it used the event; that table is not part of this model, so its
 * answer is a parameter of Step. The page's logic is stated over any item
 * that carries a session, because the application (bountui/mod.rs) builds
 * a sessions page over plain sessions.
 */
module BountuiSessions {
  import opened Wrappers
  import opened Events
  import opened Models
  import opened ItemRules
  import opened Messages
  import opened TableFilter
  import BountuiTable
  import TableUtil

  datatype PageState<T> = PageState(table: BountuiTable.TableState<T>, loading: bool)

  datatype SessionAction = Quit | Back | StopSessionAction

  /** The actions shown for the selected row: Quit and Back always, Stop only for a session the user may cancel. */
  function IsActionEnabled<T>(a: SessionAction, selected: Option<T>, sessionOf: T -> Session): (r: bool)
    ensures a != StopSessionAction ==> r
    ensures a == StopSessionAction ==> (r <==> selected.Some? && "cancel:self" in sessionOf(selected.value).authorizedActions)
  {
    match a
    case StopSessionAction => selected.Some? && CanCancel(sessionOf(selected.value))
    case _ => true
  }

  /** The page's title: "Sessions", with the parent's name when there is one. */
  function Title(parentName: Option<string>): (r: string)
    ensures parentName.None? ==> r == "Sessions"
    ensures parentName.Some? ==> r == "Sessions(" + parentName.value + ")"
  {
    TableUtil.FormatTitleWithParent("Sessions", parentName)
  }

  /** `new`: an empty table that is loading. */
  function NewPage<T>(): (s: PageState<T>)
    ensures s.table == BountuiTable.NewTable([]) && s.loading
  {
    PageState(BountuiTable.NewTable([]), true)
  }

  /** `stop_session`: a stop request for the selected session, or nothing without a selection. */
  function StopRequest<T>(t: BountuiTable.TableState<T>, sessionOf: T -> Session): (r: seq<Message>)
    ensures BountuiTable.SelectedItem(t).None? <==> r == []
    ensures BountuiTable.SelectedItem(t).Some? ==> r == [StopSession(sessionOf(BountuiTable.SelectedItem(t).value).id)]
  {
    match BountuiTable.SelectedItem(t)
    case None => []
    case Some(x) => [StopSession(sessionOf(x).id)]
  }

  /**
   * `handle_event`: the table's step; when the table did not use the
   * event, Ctrl+D (Control and nothing else) asks to stop the selected session.
   */
  function Step<T(==,!new)>(s: PageState<T>, e: Event, tableHandled: bool, matches: (T, string) -> bool, sessionOf: T -> Session)
    : (r: (PageState<T>, seq<Message>))
    ensures r.0 == s.(table := BountuiTable.AfterEvent(s.table, e, matches))
    ensures tableHandled || !IsOnlyCtrl(e, 'd') ==> r.1 == []
    ensures !tableHandled && IsOnlyCtrl(e, 'd') ==> r.1 == StopRequest(r.0.table, sessionOf)
    ensures |r.1| <= 1
  {
    var t := BountuiTable.AfterEvent(s.table, e, matches);
    if tableHandled then (s.(table := t), [])
    else if IsOnlyCtrl(e, 'd') then (s.(table := t), StopRequest(t, sessionOf))
    else (s.(table := t), [])
  }

  /** Ctrl+D with Shift held as well is not a stop. */
  lemma CtrlShiftDIsNotStop<T(!new)>(s: PageState<T>, tableHandled: bool, matches: (T, string) -> bool, sessionOf: T -> Session)
    ensures Step(s, Key(Char('d'), {Control, Shift}), tableHandled, matches, sessionOf).1 == []
  {
    assert {Control, Shift} != {Control} by { assert Shift in {Control, Shift}; }
  }

  /** `handle_message(SessionsLoaded)`: the sessions replace the items, and loading is over. */
  function Loaded<T>(s: PageState<T>, sessions: seq<T>): (r: PageState<T>)
    ensures r.table == BountuiTable.WithItems(s.table, sessions) && !r.loading
  {
    PageState(BountuiTable.WithItems(s.table, sessions), false)
  }

  // ---- the session loaders --------------------------------------------------

  /** `LoadTargetSessionsSessions::fetch_sessions`: the scope's sessions on this target, in order; errors pass through. */
  function FetchTargetSessions(reply: Result<seq<SessionWithTarget>, Error>, targetId: string)
    : (r: Result<seq<SessionWithTarget>, Error>)
    ensures reply.Err? ==> r == reply
    ensures reply.Ok? ==> r.Ok? && IsSubsequence(r.value, reply.value)
    ensures reply.Ok? ==> forall x :: x in r.value <==> x in reply.value && x.target.id == targetId
    ensures reply.Ok? ==> forall x :: multiset(r.value)[x] == if x.target.id == targetId then multiset(reply.value)[x] else 0
  {
    match reply
    case Err(e) => Err(e)
    case Ok(sessions) =>
      var onTarget := (x: SessionWithTarget, id: string) => x.target.id == id;
      forall x ensures x in Filtered(sessions, onTarget, targetId) <==> x in sessions && onTarget(x, targetId) {
        FilteredMembers(sessions, onTarget, targetId, x);
      }
      Ok(Filtered(sessions, onTarget, targetId))
  }

  /** `fetch_sessions_or_show_error`: the sessions, or nothing and one "Error loading sessions" alert. */
  function FetchOrShowError(reply: Result<seq<SessionWithTarget>, Error>): (r: (Option<seq<SessionWithTarget>>, seq<Message>))
    ensures reply.Ok? ==> r == (Some(reply.value), [])
    ensures reply.Err? ==> r == (None, [ShowError("Error loading sessions", Describe(reply.error))])
  {
    match reply
    case Ok(sessions) => (Some(sessions), [])
    case Err(e) => (None, [ShowError("Error loading sessions", Describe(e))])
  }

  /** `update_sessions`: exactly one message, the loaded sessions or the alert. */
  function UpdateSessions(reply: Result<seq<SessionWithTarget>, Error>): (r: seq<Message>)
    ensures |r| == 1
    ensures reply.Ok? <==> r[0].SessionsPage?
    ensures reply.Ok? ==> r == [SessionsPage(SessionsLoaded(reply.value))]
    ensures reply.Err? ==> r[0].ShowAlert? && r[0].title == "Error"
  {
    var (loaded, sent) := FetchOrShowError(reply);
    match loaded
    case Some(sessions) => sent + [SessionsPage(SessionsLoaded(sessions))]
    case None => sent
  }

  /** A successful load delivered to the page shows exactly the fetched sessions. */
  lemma UpdateThenDeliver(s: PageState<SessionWithTarget>, reply: Result<seq<SessionWithTarget>, Error>)
    requires reply.Ok?
    ensures var m := UpdateSessions(reply)[0];
      m.SessionsPage? && Loaded(s, m.sessionsMessage.sessions).table.items == reply.value
  {
  }

  class SessionsPage {
    const table: BountuiTable.TablePage<SessionWithTarget>
    var loading: bool
    /** The messages sent to the application, oldest first. */
    var outbox: seq<Message>

    function Model(): PageState<SessionWithTarget>
      reads this, table
    {
      PageState(table.Model(), loading)
    }

    /** `new`; the refresh loop it starts is not part of this model. */
    constructor (parentName: Option<string>)
      ensures fresh(table) && table.title == Title(parentName)
      ensures Model() == NewPage() && outbox == []
    {
      table := new BountuiTable.TablePage(TableUtil.FormatTitleWithParent("Sessions", parentName), []);
      loading := true;
      outbox := [];
    }

    method StopSelected()
      modifies this
      ensures loading == old(loading)
      ensures outbox == old(outbox) + StopRequest(table.Model(), (x: SessionWithTarget) => x.session)
    {
      var selected := BountuiTable.SelectedItem(table.Model());
      if selected.Some? {
        outbox := outbox + [StopSession(selected.value.session.id)];
      }
    }

    /** `handle_event`; `tableHandled` is what the table answered for the event. */
    method HandleEvent(e: Event, tableHandled: bool)
      modifies this, table
      ensures table.title == old(table.title)
      ensures var r := Step(old(Model()), e, tableHandled, SessionWithTargetMatches, (x: SessionWithTarget) => x.session);
        Model() == r.0 && outbox == old(outbox) + r.1
    {
      table.HandleEvent(e, SessionWithTargetMatches);
      if tableHandled {
        assert outbox == old(outbox) + [];
        return;
      }
      if e.Key? && e.code == Char('d') && e.modifiers == {Control} {
        StopSelected();
      } else {
        assert outbox == old(outbox) + [];
      }
    }

    method HandleMessage(m: SessionsPageMessage)
      modifies this, table
      ensures table.title == old(table.title)
      ensures Model() == Loaded(old(Model()), m.sessions) && outbox == old(outbox)
    {
      match m
      case SessionsLoaded(sessions) =>
        table.SetItems(sessions);
        loading := false;
    }
  }
}
