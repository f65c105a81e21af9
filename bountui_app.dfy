/**
 * The application of the current generation (bountui/mod.rs): the page on
 * screen, the pages behind it (a history that `navigate_to` pushes onto
 * and `go_back` pops), one alert slot, and the connection manager. Terminal
 * events go to the current page; the messages the pages send come back
 * through `handle_message`, which calls the client and the manager.
 *
 * Pages are values here: the application moves them between the screen and
 * the history, as the Rust code does with `mem::replace`. What the client
 * answers, and the clock, are parameters (Replies).
 */
module BountuiApp {
  import opened Wrappers
  import opened Events
  import opened Models
  import opened ItemRules
  import opened Messages
  import opened TableFilter
  import BountuiTable
  import BountuiScopes
  import BountuiTargets
  import BountuiSessions
  import TargetConnect
  import SessionManager

  datatype Page =
    | ScopesView(scopes: BountuiTable.TableState<Scope>)
    | TargetsView(targets: BountuiTargets.PageState)
    | SessionsView(scopeId: string, targetId: string, sessions: BountuiSessions.PageState<Session>)

  predicate PageValid(p: Page) {
    p.TargetsView? ==> BountuiTargets.DialogValid(p.targets)
  }

  datatype AppState = AppState(page: Page, history: seq<Page>, alert: Option<(string, string)>)

  predicate StateValid(s: AppState) {
    PageValid(s.page) && forall i :: 0 <= i < |s.history| ==> PageValid(s.history[i])
  }

  // ---- navigation -----------------------------------------------------------

  /** `navigate_to`: the current page goes onto the history and `p` is shown. */
  function AfterNavigate(s: AppState, p: Page): (r: AppState)
    ensures r.page == p && r.history == s.history + [s.page] && r.alert == s.alert
  {
    AppState(p, s.history + [s.page], s.alert)
  }

  /** `go_back`: the last page of the history is shown again; with none, nothing changes. */
  function AfterGoBack(s: AppState): (r: AppState)
    ensures s.history == [] ==> r == s
    ensures s.history != [] ==>
      r.page == s.history[|s.history| - 1] && r.history == s.history[..|s.history| - 1] && r.alert == s.alert
  {
    if s.history == [] then s
    else AppState(s.history[|s.history| - 1], s.history[..|s.history| - 1], s.alert)
  }

  /** Going back right after navigating shows the previous page with the previous history. */
  lemma NavigateThenGoBack(s: AppState, p: Page)
    ensures AfterGoBack(AfterNavigate(s, p)) == s
  {
    assert (s.history + [s.page])[..|s.history|] == s.history;
  }

  /** Navigation keeps every page valid. */
  lemma NavigationKeepsValid(s: AppState, p: Page)
    requires StateValid(s) && PageValid(p)
    ensures StateValid(AfterNavigate(s, p)) && StateValid(AfterGoBack(s))
  {
    var h := s.history + [s.page];
    assert forall i :: 0 <= i < |h| ==> h[i] == (if i < |s.history| then s.history[i] else s.page);
  }

  // ---- terminal events --------------------------------------------------------

  /** Does the event press Ok in the open connect dialog of a targets page with a selected target? */
  predicate StartsConnect(p: Page, e: Event)
    requires PageValid(p)
  {
    p.TargetsView? && BountuiTargets.ReachesConnect(p.targets, e)
  }

  predicate PortReadable(p: Page, e: Event)
    requires PageValid(p)
  {
    StartsConnect(p, e) ==> TargetConnect.DialogPort(p.targets.dialog.value).Some?
  }

  /** The current page's `handle_event`; `tableHandled` is the sessions table's answer. */
  function PageStep(p: Page, e: Event, tableHandled: bool): (r: (Page, seq<Message>))
    requires PageValid(p) && PortReadable(p, e)
    ensures PageValid(r.0)
    ensures p.ScopesView? ==> r == (ScopesView(BountuiScopes.Step(p.scopes, e).0), BountuiScopes.Step(p.scopes, e).1)
    ensures p.TargetsView? ==> r == (TargetsView(BountuiTargets.Step(p.targets, e).0), BountuiTargets.Step(p.targets, e).1)
    ensures p.SessionsView? ==>
      var (v, sent) := BountuiSessions.Step(p.sessions, e, tableHandled, SessionMatches, (x: Session) => x);
      r == (p.(sessions := v), sent)
  {
    match p
    case ScopesView(t) =>
      var (t', sent) := BountuiScopes.Step(t, e);
      (ScopesView(t'), sent)
    case TargetsView(s) =>
      var (s', sent) := BountuiTargets.Step(s, e);
      (TargetsView(s'), sent)
    case SessionsView(scopeId, targetId, v) =>
      var (v', sent) := BountuiSessions.Step(v, e, tableHandled, SessionMatches, (x: Session) => x);
      (SessionsView(scopeId, targetId, v'), sent)
  }

  /**
   * `handle_event`: Esc goes back and is not passed on; otherwise Enter
   * clears a shown alert and the page has the event in any case.
   */
  function EventStep(s: AppState, e: Event, tableHandled: bool): (r: (AppState, seq<Message>))
    requires StateValid(s) && PortReadable(s.page, e)
    ensures StateValid(r.0)
    ensures IsKey(e, Esc) ==> r == (AfterGoBack(s), [])
    ensures !IsKey(e, Esc) ==>
      && r.0.history == s.history
      && r.0.alert == (if IsEnter(e) then None else s.alert)
      && (r.0.page, r.1) == PageStep(s.page, e, tableHandled)
  {
    if IsKey(e, Esc) then
      NavigationKeepsValid(s, s.page);
      (AfterGoBack(s), [])
    else
      var alert := if s.alert.Some? && IsEnter(e) then None else s.alert;
      var (p, sent) := PageStep(s.page, e, tableHandled);
      (AppState(p, s.history, alert), sent)
  }

  /** Esc on a page with a search box open still goes back: the page never sees it. */
  lemma EscGoesBackEvenWhileSearching(s: AppState, tableHandled: bool)
    requires StateValid(s) && s.page.ScopesView? && s.page.scopes.filter.Input? && s.history != []
    ensures var (r, sent) := EventStep(s, Press(Esc), tableHandled);
      r.page == s.history[|s.history| - 1] && sent == []
  {
  }

  // ---- messages -----------------------------------------------------------------

  /** What the client, the manager's remote calls and the clock answer while a message is handled. */
  datatype Replies = Replies(
    scopes: Result<seq<Scope>, Error>,
    targets: Result<seq<Target>, Error>,
    sessions: Result<seq<Session>, Error>,
    connect: Result<ConnectResponse, Error>,
    cancel: Result<(), Error>,
    interleaved: Option<SessionManager.Cause>,
    now: int)

  /** `show_scope`: the scopes on a new page, or an alert with the error's debug text. */
  function ShowScope(s: AppState, reply: Result<seq<Scope>, Error>): (r: AppState)
    ensures reply.Ok? ==> r == AfterNavigate(s, ScopesView(BountuiTable.NewTable(reply.value)))
    ensures reply.Err? ==> r == s.(alert := Some(("Failed to load scopes", DebugText(reply.error))))
  {
    match reply
    case Ok(scopes) => AfterNavigate(s, ScopesView(BountuiTable.NewTable(scopes)))
    case Err(e) => s.(alert := Some(("Failed to load scopes", DebugText(e))))
  }

  /**
   * `show_targets` as written: the error message is handed to `send`
   * without awaiting it, and a future that is never polled sends nothing.
   */
  function ShowTargetsAsWritten(s: AppState, reply: Result<seq<Target>, Error>): (r: (AppState, seq<Message>))
    ensures reply.Ok? ==> r == (AfterNavigate(s, TargetsView(BountuiTargets.NewPage(reply.value))), [])
    ensures reply.Err? ==> r == (s, [])
  {
    match reply
    case Ok(targets) => (AfterNavigate(s, TargetsView(BountuiTargets.NewPage(targets))), [])
    case Err(_) => (s, [])
  }

  /** `show_targets` as intended: the targets on a new page, or one error alert. */
  function ShowTargets(s: AppState, reply: Result<seq<Target>, Error>): (r: (AppState, seq<Message>))
    ensures reply.Ok? ==> r == (AfterNavigate(s, TargetsView(BountuiTargets.NewPage(reply.value))), [])
    ensures reply.Err? ==> r == (s, [ShowError("Failed to load targets", Describe(reply.error))])
  {
    match reply
    case Ok(targets) => (AfterNavigate(s, TargetsView(BountuiTargets.NewPage(targets))), [])
    case Err(e) => (s, [ShowError("Failed to load targets", Describe(e))])
  }

  /** A failed targets load leaves no trace as written; as intended, it is reported once. */
  lemma TargetsFailureUnreported(s: AppState, e: Error)
    ensures ShowTargetsAsWritten(s, Err(e)) == (s, [])
    ensures ShowTargets(s, Err(e)).1 == [ShowError("Failed to load targets", Describe(e))]
    ensures ShowTargetsAsWritten(s, Err(e)) != ShowTargets(s, Err(e))
  {
  }

  /** `connect` as written: as in `show_targets`, the error message is never sent. */
  function ConnectMessagesAsWritten(reply: Result<ConnectResponse, Error>): (r: seq<Message>)
    ensures reply.Ok? ==> r == [Targets(ConnectedToTarget(reply.value))]
    ensures reply.Err? ==> r == []
  {
    match reply
    case Ok(resp) => [Targets(ConnectedToTarget(resp))]
    case Err(_) => []
  }

  /** `connect` as intended: the response for the targets page, or one "Connection Error" alert. */
  function ConnectMessages(reply: Result<ConnectResponse, Error>): (r: seq<Message>)
    ensures |r| == 1
    ensures reply.Ok? ==> r == [Targets(ConnectedToTarget(reply.value))]
    ensures reply.Err? ==> r == [ShowError("Connection Error", Describe(reply.error))]
  {
    match reply
    case Ok(resp) => [Targets(ConnectedToTarget(resp))]
    case Err(e) => [ShowError("Connection Error", Describe(e))]
  }

  /** A failed connection is silent as written; as intended, it is reported once. */
  lemma ConnectFailureUnreported(e: Error)
    ensures ConnectMessagesAsWritten(Err(e)) == []
    ensures ConnectMessages(Err(e)) == [ShowError("Connection Error", Describe(e))]
  {
  }

  /** The sessions of one target, in order. */
  function SessionsOfTarget(sessions: seq<Session>, targetId: string): (r: seq<Session>)
    ensures IsSubsequence(r, sessions)
    ensures forall x :: x in r <==> x in sessions && x.targetId == targetId
    ensures forall x :: multiset(r)[x] == if x.targetId == targetId then multiset(sessions)[x] else 0
  {
    var onTarget := (x: Session, id: string) => x.targetId == id;
    forall x ensures x in Filtered(sessions, onTarget, targetId) <==> x in sessions && onTarget(x, targetId) {
      FilteredMembers(sessions, onTarget, targetId, x);
    }
    Filtered(sessions, onTarget, targetId)
  }

  /** `ShowSessions`: a new page holding the scope's sessions on the target. */
  function ShowSessionsPage(s: AppState, scope: string, targetId: string, sessions: seq<Session>): (r: AppState)
    ensures r.history == s.history + [s.page] && r.alert == s.alert
    ensures r.page.SessionsView? && r.page.scopeId == scope && r.page.targetId == targetId
    ensures r.page.sessions == BountuiSessions.Loaded(BountuiSessions.NewPage(), SessionsOfTarget(sessions, targetId))
  {
    AfterNavigate(s, SessionsView(scope, targetId, BountuiSessions.Loaded(BountuiSessions.NewPage(), SessionsOfTarget(sessions, targetId))))
  }

  /**
   * `update_sessions` as written: on a sessions page, a successful reload
   * replaces its items with every session of the scope, whatever its
   * target; the error message it returns is dropped by its caller, so a
   * failure changes nothing.
   */
  function ReloadAsWritten(s: AppState, reply: Result<seq<Session>, Error>): (r: AppState)
    ensures r.history == s.history && r.alert == s.alert
    ensures s.page.SessionsView? && reply.Ok? ==> r.page == s.page.(sessions := BountuiSessions.Loaded(s.page.sessions, reply.value))
    ensures !(s.page.SessionsView? && reply.Ok?) ==> r == s
  {
    if s.page.SessionsView? && reply.Ok? then s.(page := s.page.(sessions := BountuiSessions.Loaded(s.page.sessions, reply.value)))
    else s
  }

  /**
   * `update_sessions` as intended: the reload keeps the page to its
   * target, as `ShowSessions` does when it builds the page.
   */
  function Reload(s: AppState, reply: Result<seq<Session>, Error>): (r: AppState)
    ensures r.history == s.history && r.alert == s.alert
    ensures s.page.SessionsView? && reply.Ok? ==>
      r.page == s.page.(sessions := BountuiSessions.Loaded(s.page.sessions, SessionsOfTarget(reply.value, s.page.targetId)))
    ensures !(s.page.SessionsView? && reply.Ok?) ==> r == s
  {
    if s.page.SessionsView? && reply.Ok? then
      s.(page := s.page.(sessions := BountuiSessions.Loaded(s.page.sessions, SessionsOfTarget(reply.value, s.page.targetId))))
    else s
  }

  /** After a reload as intended, the page shows exactly the reply's sessions on its target. */
  lemma ReloadKeepsTarget(s: AppState, reply: Result<seq<Session>, Error>)
    requires s.page.SessionsView? && reply.Ok?
    ensures var p := Reload(s, reply).page;
      p.SessionsView? && p.targetId == s.page.targetId &&
      forall x :: x in p.sessions.table.items <==> x in reply.value && x.targetId == s.page.targetId
  {
  }

  /** As written, a session of another target in the scope appears on the page after a reload. */
  lemma ReloadShowsOtherTargets(s: AppState, x: Session)
    requires s.page.SessionsView? && x.targetId != s.page.targetId
    ensures x in ReloadAsWritten(s, Ok([x])).page.sessions.table.items
    ensures x !in Reload(s, Ok([x])).page.sessions.table.items
  {
  }

  /** `Message::Targets`: delivered to a targets page, dropped on any other page. */
  function DeliverToTargets(s: AppState, m: TargetsPageMessage): (r: AppState)
    ensures s.page.TargetsView? ==> r == s.(page := TargetsView(BountuiTargets.WithResult(s.page.targets, m.response)))
    ensures !s.page.TargetsView? ==> r == s
  {
    match s.page
    case TargetsView(t) => s.(page := TargetsView(BountuiTargets.WithResult(t, m.response)))
    case _ => s
  }

  predicate StopReplyFits(reg: SessionManager.Registry, m: Message, replies: Replies) {
    m.StopSession? && replies.interleaved.Some? ==>
      m.sessionId in reg.handles && SessionManager.CanEnd(reg, reg.handles[m.sessionId], replies.interleaved.value, replies.now)
  }

  /**
   * `handle_message` for the messages the application declares, with the
   * manager's registry alongside; `ShowSessions` needs its sessions reply
   * to succeed, since the code unwraps it.
   */
  function MessageStep(s: AppState, reg: SessionManager.Registry, m: Message, replies: Replies)
    : (r: (AppState, SessionManager.Registry, seq<Message>))
    requires DeclaredByApp(m) && SessionManager.Valid(reg) && StateValid(s)
    requires m.ShowSessions? ==> replies.sessions.Ok?
    requires StopReplyFits(reg, m, replies)
    ensures SessionManager.Valid(r.1) && StateValid(r.0)
    ensures !m.Connect? && !m.StopSession? ==> r.1 == reg
    ensures !m.Connect? && !m.ShowTargets? ==> r.2 == []
    ensures m.ShowScopes? ==> r.0 == ShowScope(s, replies.scopes)
    ensures m.ShowTargets? ==> (r.0, r.2) == ShowTargets(s, replies.targets)
    ensures m.GoBack? ==> r.0 == AfterGoBack(s)
    ensures m.Connect? ==>
      (r.0 == s && r.1 == SessionManager.ConnectStep(reg, replies.connect, replies.now).0 && r.2 == ConnectMessages(replies.connect))
    ensures m.ShowSessions? ==> r.0 == ShowSessionsPage(s, m.scope, m.targetId, replies.sessions.value)
    ensures m.StopSession? ==>
      var (reg', stopped) := SessionManager.StopStep(reg, m.sessionId, replies.cancel, replies.interleaved, replies.now);
      r.1 == reg' && r.0 == (if stopped.Ok? then Reload(s, replies.sessions) else s)
    ensures m.ShowAlert? ==> r.0 == s.(alert := Some((m.title, m.message)))
    ensures m.CloseAlert? ==> r.0 == s.(alert := None)
    ensures m.Targets? ==> r.0 == DeliverToTargets(s, m.targetsMessage)
  {
    match m
    case ShowScopes(_) =>
      NavigationKeepsValid(s, ScopesView(BountuiTable.NewTable(if replies.scopes.Ok? then replies.scopes.value else [])));
      (ShowScope(s, replies.scopes), reg, [])
    case ShowTargets(_) =>
      NavigationKeepsValid(s, TargetsView(BountuiTargets.NewPage(if replies.targets.Ok? then replies.targets.value else [])));
      var (s', sent) := ShowTargets(s, replies.targets);
      (s', reg, sent)
    case GoBack =>
      NavigationKeepsValid(s, s.page);
      (AfterGoBack(s), reg, [])
    case Connect(_, _) =>
      SessionManager.ConnectKeepsValid(reg, replies.connect, replies.now);
      (s, SessionManager.ConnectStep(reg, replies.connect, replies.now).0, ConnectMessages(replies.connect))
    case ShowSessions(scope, targetId) =>
      var s' := ShowSessionsPage(s, scope, targetId, replies.sessions.value);
      NavigationKeepsValid(s, s'.page);
      (s', reg, [])
    case StopSession(id) =>
      SessionManager.StopKeepsValid(reg, id, replies.cancel, replies.interleaved, replies.now);
      var (reg', stopped) := SessionManager.StopStep(reg, id, replies.cancel, replies.interleaved, replies.now);
      (if stopped.Ok? then Reload(s, replies.sessions) else s, reg', [])
    case ShowAlert(title, message) => (s.(alert := Some((title, message))), reg, [])
    case CloseAlert => (s.(alert := None), reg, [])
    case Targets(tm) => (DeliverToTargets(s, tm), reg, [])
  }

  /**
   * `handle_message` as written: as `MessageStep`, but with the three
   * handlers as the code has them, so no targets or connection error is
   * reported and a reload after a stop shows every session of the scope.
   */
  function MessageStepAsWritten(s: AppState, reg: SessionManager.Registry, m: Message, replies: Replies)
    : (r: (AppState, SessionManager.Registry, seq<Message>))
    requires DeclaredByApp(m) && SessionManager.Valid(reg) && StateValid(s)
    requires m.ShowSessions? ==> replies.sessions.Ok?
    requires StopReplyFits(reg, m, replies)
    ensures SessionManager.Valid(r.1) && StateValid(r.0)
    ensures !m.Connect? && !m.StopSession? ==> r.1 == reg
    ensures !m.Connect? ==> r.2 == []
    ensures m.ShowTargets? ==> (r.0, r.2) == ShowTargetsAsWritten(s, replies.targets)
    ensures m.Connect? ==>
      (r.0 == s && r.1 == SessionManager.ConnectStep(reg, replies.connect, replies.now).0 && r.2 == ConnectMessagesAsWritten(replies.connect))
    ensures m.StopSession? ==>
      var (reg', stopped) := SessionManager.StopStep(reg, m.sessionId, replies.cancel, replies.interleaved, replies.now);
      r.1 == reg' && r.0 == (if stopped.Ok? then ReloadAsWritten(s, replies.sessions) else s)
    ensures !m.ShowTargets? && !m.Connect? && !m.StopSession? ==> r == MessageStep(s, reg, m, replies)
  {
    match m
    case ShowTargets(_) =>
      NavigationKeepsValid(s, TargetsView(BountuiTargets.NewPage(if replies.targets.Ok? then replies.targets.value else [])));
      var (s', sent) := ShowTargetsAsWritten(s, replies.targets);
      (s', reg, sent)
    case Connect(_, _) =>
      SessionManager.ConnectKeepsValid(reg, replies.connect, replies.now);
      (s, SessionManager.ConnectStep(reg, replies.connect, replies.now).0, ConnectMessagesAsWritten(replies.connect))
    case StopSession(id) =>
      SessionManager.StopKeepsValid(reg, id, replies.cancel, replies.interleaved, replies.now);
      var (reg', stopped) := SessionManager.StopStep(reg, id, replies.cancel, replies.interleaved, replies.now);
      (if stopped.Ok? then ReloadAsWritten(s, replies.sessions) else s, reg', [])
    case ShowScopes(_) => MessageStep(s, reg, m, replies)
    case GoBack => MessageStep(s, reg, m, replies)
    case ShowSessions(_, _) => MessageStep(s, reg, m, replies)
    case ShowAlert(_, _) => MessageStep(s, reg, m, replies)
    case CloseAlert => MessageStep(s, reg, m, replies)
    case Targets(_) => MessageStep(s, reg, m, replies)
  }

  /**
   * The code as written and as corrected take the same step whenever the
   * targets load and the connection succeed and a reload returns only
   * sessions of the page's target.
   */
  lemma AsWrittenAgreesWithoutFailures(s: AppState, reg: SessionManager.Registry, m: Message, replies: Replies)
    requires DeclaredByApp(m) && SessionManager.Valid(reg) && StateValid(s)
    requires m.ShowSessions? ==> replies.sessions.Ok?
    requires StopReplyFits(reg, m, replies)
    requires m.ShowTargets? ==> replies.targets.Ok?
    requires m.Connect? ==> replies.connect.Ok?
    requires m.StopSession? && s.page.SessionsView? && replies.sessions.Ok? ==>
      forall i :: 0 <= i < |replies.sessions.value| ==> replies.sessions.value[i].targetId == s.page.targetId
    ensures MessageStepAsWritten(s, reg, m, replies) == MessageStep(s, reg, m, replies)
  {
    if m.StopSession? && s.page.SessionsView? && replies.sessions.Ok? {
      var onTarget := (x: Session, id: string) => x.targetId == id;
      FilteredKeepsAll(replies.sessions.value, onTarget, s.page.targetId);
      assert SessionsOfTarget(replies.sessions.value, s.page.targetId) == replies.sessions.value;
    }
  }

  /** A failed targets load or connection is where the two first part. */
  lemma AsWrittenDropsErrors(s: AppState, reg: SessionManager.Registry, m: Message, replies: Replies)
    requires DeclaredByApp(m) && SessionManager.Valid(reg) && StateValid(s)
    requires (m.ShowTargets? && replies.targets.Err?) || (m.Connect? && replies.connect.Err?)
    ensures MessageStepAsWritten(s, reg, m, replies).2 == []
    ensures |MessageStep(s, reg, m, replies).2| == 1
  {
  }

  /** A failed stop shows nothing: the message built for it is dropped. */
  lemma FailedStopIsSilent(s: AppState, reg: SessionManager.Registry, id: string, replies: Replies)
    requires SessionManager.Valid(reg) && StateValid(s) && replies.interleaved.None? && replies.cancel.Err?
    requires id in reg.handles
    ensures var r := MessageStep(s, reg, StopSession(id), replies);
      r.0 == s && r.2 == [] && r.1.tokens == reg.tokens && r.1.handles == reg.handles - {id}
  {
  }

  // ---- the application object ------------------------------------------------------

  class App {
    var page: Page
    var history: seq<Page>
    var alert: Option<(string, string)>
    /** The messages sent on the application's channel, oldest first. */
    var outbox: seq<Message>
    const manager: SessionManager.ConnectionManager

    function Model(): AppState
      reads this
    {
      AppState(page, history, alert)
    }

    ghost predicate Valid()
      reads this, manager
    {
      StateValid(Model()) && SessionManager.Valid(manager.Model())
    }

    /** `new`; `scopes` is what `get_scopes(None)` returned, which the code unwraps. */
    constructor (scopes: seq<Scope>, manager: SessionManager.ConnectionManager)
      requires SessionManager.Valid(manager.Model())
      ensures this.manager == manager && Valid()
      ensures Model() == AppState(ScopesView(BountuiTable.NewTable(scopes)), [], None) && outbox == []
    {
      page := ScopesView(BountuiTable.NewTable(scopes));
      history := [];
      alert := None;
      outbox := [];
      this.manager := manager;
    }

    method NavigateTo(p: Page)
      modifies this
      ensures Model() == AfterNavigate(old(Model()), p) && outbox == old(outbox)
    {
      history := history + [page];
      page := p;
    }

    method GoBack()
      modifies this
      ensures Model() == AfterGoBack(old(Model())) && outbox == old(outbox)
    {
      if history != [] {
        page := history[|history| - 1];
        history := history[..|history| - 1];
      }
    }

    /** `handle_event`; `tableHandled` is the sessions table's answer for the event. */
    method HandleEvent(e: Event, tableHandled: bool)
      requires Valid() && PortReadable(page, e)
      modifies this
      ensures Valid()
      ensures var (s, sent) := EventStep(old(Model()), e, tableHandled);
        Model() == s && outbox == old(outbox) + sent
    {
      if e.Key? && e.code == Esc {
        NavigationKeepsValid(Model(), page);
        GoBack();
        assert outbox == old(outbox) + [];
        return;
      }
      if alert.Some? && IsEnter(e) {
        alert := None;
      }
      var answer := PageStep(page, e, tableHandled);
      page := answer.0;
      outbox := outbox + answer.1;
    }

    /** `update_sessions`, keeping the page to its target; the message it would return is dropped by its caller. */
    method UpdateSessions(reply: Result<seq<Session>, Error>)
      modifies this
      ensures Model() == Reload(old(Model()), reply) && outbox == old(outbox)
    {
      match page {
        case SessionsView(scopeId, targetId, v) =>
          if reply.Ok? {
            page := SessionsView(scopeId, targetId, BountuiSessions.Loaded(v, SessionsOfTarget(reply.value, targetId)));
          }
        case _ =>
      }
    }

    /** `handle_message`; `replies` answers the calls the message leads to. */
    method HandleMessage(m: Message, replies: Replies)
      requires Valid() && DeclaredByApp(m)
      requires m.ShowSessions? ==> replies.sessions.Ok?
      requires StopReplyFits(manager.Model(), m, replies)
      modifies this, manager
      ensures Valid()
      ensures var (s, reg, sent) := MessageStep(old(Model()), old(manager.Model()), m, replies);
        Model() == s && manager.Model() == reg && outbox == old(outbox) + sent
    {
      ghost var r := MessageStep(Model(), manager.Model(), m, replies);
      match m {
        case ShowScopes(_) =>
          match replies.scopes {
            case Ok(scopes) => NavigateTo(ScopesView(BountuiTable.NewTable(scopes)));
            case Err(e) => alert := Some(("Failed to load scopes", DebugText(e)));
          }
          assert outbox == old(outbox) + [];
        case ShowTargets(_) =>
          match replies.targets {
            case Ok(targets) =>
              NavigateTo(TargetsView(BountuiTargets.NewPage(targets)));
              assert outbox == old(outbox) + [];
            case Err(e) => outbox := outbox + [ShowError("Failed to load targets", Describe(e))];
          }
        case GoBack =>
          GoBack();
          assert outbox == old(outbox) + [];
        case Connect(_, _) =>
          var result := manager.Connect(replies.connect, replies.now);
          match result {
            case Ok(resp) => outbox := outbox + [Targets(ConnectedToTarget(resp))];
            case Err(e) => outbox := outbox + [ShowError("Connection Error", Describe(e))];
          }
        case ShowSessions(scope, targetId) =>
          var sessions := SessionsOfTarget(replies.sessions.value, targetId);
          NavigateTo(SessionsView(scope, targetId, BountuiSessions.Loaded(BountuiSessions.NewPage(), sessions)));
          assert outbox == old(outbox) + [];
        case StopSession(id) =>
          var stopped := manager.Stop(id, replies.cancel, replies.interleaved, replies.now);
          if stopped.Ok? {
            UpdateSessions(replies.sessions);
          }
          assert outbox == old(outbox) + [];
        case ShowAlert(title, message) =>
          alert := Some((title, message));
          assert outbox == old(outbox) + [];
        case CloseAlert =>
          alert := None;
          assert outbox == old(outbox) + [];
        case Targets(tm) =>
          match page {
            case TargetsView(t) => page := TargetsView(BountuiTargets.WithResult(t, tm.response));
            case _ =>
          }
          assert outbox == old(outbox) + [];
      }
      assert Model() == r.0;
    }
  }
}
