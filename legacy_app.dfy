/**
 * The application object of the earlier generation (bountui.rs): the page
 * shown, built afresh whenever the router reports a change, the shared
 * alert stack in front of it, and Ctrl+C to finish. Esc that no page
 * consumes goes back one page.
 *
 * The client's replies to the requests an event leads to are parameters.
 */
module LegacyApp {
  import opened Wrappers
  import opened Events
  import opened Models
  import opened Routes
  import Routing
  import AlertStack
  import LegacySessionManager
  import LegacyScopeTree
  import LegacyTargets
  import TargetConnect
  import LegacySessions

  /** The page on screen (`Pages`). */
  datatype PageView =
    | ScopesView(scopes: LegacyScopeTree.ScopesPage)
    | TargetsView(targets: LegacyTargets.TargetsPage)
    | SessionsView(sessions: LegacySessions.SessionsPage)

  /** What the client answers to each request an event can lead to. */
  datatype Replies = Replies(
    scopes: Result<seq<Scope>, Error>,
    targets: Result<seq<Target>, Error>,
    sessions: Result<seq<Session>, Error>,
    connect: Result<ConnectResponse, Error>,
    cancel: Result<(), Error>,
    reload: Result<seq<Session>, Error>)

  /** The route a page was built for. */
  function RouteOf(v: PageView): (r: Option<Route>)
    ensures v.ScopesView? ==> r == Some(Scopes(v.scopes.parentScopeId))
    ensures v.SessionsView? ==> r == Some(Sessions(v.sessions.scopeId, v.sessions.targetId))
    ensures v.TargetsView? ==> (r.Some? <==> v.targets.parentScopeId.Some?)
    ensures v.TargetsView? && r.Some? ==> r.value == Targets(v.targets.parentScopeId.value)
  {
    match v
    case ScopesView(p) => Some(Scopes(p.parentScopeId))
    case TargetsView(p) => if p.parentScopeId.Some? then Some(Targets(p.parentScopeId.value)) else None
    case SessionsView(p) => Some(Sessions(p.scopeId, p.targetId))
  }

  class App {
    var finished: bool
    var page: PageView
    const userId: string
    const router: Routing.Router<Route>
    const manager: LegacySessionManager.ConnectionManager
    const alerts: AlertStack.Alerts

    /** The objects the page on screen owns. */
    function PageObjects(): set<object>
      reads this
    {
      match page
      case ScopesView(p) => {p, p.table}
      case TargetsView(p) => {p, p.table}
      case SessionsView(p) => {p, p.table}
    }

    /** The page shares the app's router, manager and alerts. */
    predicate Shares(v: PageView) {
      match v
      case ScopesView(p) => p.router == router && p.alerts == alerts
      case TargetsView(p) => p.router == router && p.alerts == alerts && p.manager == manager
      case SessionsView(p) => p.router == router && p.alerts == alerts && p.manager == manager
    }

    /**
     * No change is pending, and the page on screen is the one for the
     * route on top of the router's history.
     */
    ghost predicate Valid()
      reads this, router, manager, PageObjects()
    {
      && manager.Valid()
      && Shares(page)
      && router.newPage == None
      && RouteOf(page) == Some(router.history.Last())
      && (page.TargetsView? ==> LegacyTargets.DialogValid(page.targets.Model()))
    }

    /** `new`: the root scopes page; `scopes` is what `get_scopes(None)` returned. */
    constructor (userId: string, router: Routing.Router<Route>, manager: LegacySessionManager.ConnectionManager,
                 alerts: AlertStack.Alerts, scopes: Result<seq<Scope>, Error>)
      requires router.history == Routing.History(Scopes(None), []) && router.newPage == None
      requires manager.Valid()
      modifies alerts
      ensures Valid() && !finished && page.ScopesView? && fresh(PageObjects())
      ensures this.userId == userId && this.router == router && this.manager == manager && this.alerts == alerts
    {
      this.userId := userId;
      this.router := router;
      this.manager := manager;
      this.alerts := alerts;
      finished := false;
      var p := new LegacyScopeTree.ScopesPage(None, scopes, router, alerts);
      page := ScopesView(p);
    }

    /** The page `handle_event` would hand the event to reads the dialog's port only when it parses. */
    predicate PortReadable(e: Event)
      reads this, alerts, PageObjects()
    {
      (page.TargetsView? && alerts.alerts == [] && !IsCtrlWith(e, 'c') &&
       LegacyTargets.DialogValid(page.targets.Model()) &&
       LegacyTargets.ReachesConnect(page.targets.Model(), e))
      ==> TargetConnect.DialogPort(page.targets.connectDialog.value).Some?
    }

    /**
     * `poll_router_change`: a pending route replaces the page with a new
     * page for it, loaded with the client's reply.
     */
    method PollRouterChange(replies: Replies)
      requires manager.Valid() && Shares(page)
      requires router.newPage.Some? ==> router.newPage.value == router.history.Last()
      requires router.newPage.None? ==> RouteOf(page) == Some(router.history.Last())
      requires router.newPage.None? && page.TargetsView? ==> LegacyTargets.DialogValid(page.targets.Model())
      modifies this, router, alerts
      ensures Valid() && router.history == old(router.history) && finished == old(finished)
      ensures old(router.newPage).None? ==> page == old(page) && unchanged(alerts)
      ensures old(router.newPage).Some? ==> fresh(PageObjects())
    {
      var change := router.PollChange();
      if change.Some? {
        match change.value
        case Scopes(parent) =>
          var p := new LegacyScopeTree.ScopesPage(parent, replies.scopes, router, alerts);
          page := ScopesView(p);
        case Targets(scope) =>
          var p := new LegacyTargets.TargetsPage(Some(scope), replies.targets, router, manager, alerts);
          page := TargetsView(p);
        case Sessions(scopeId, targetId) =>
          var p := new LegacySessions.SessionsPage(router, manager, alerts, userId, scopeId, targetId, replies.sessions);
          page := SessionsView(p);
      }
    }

    /**
     * The page's own `handle_event`. A page pushes at most one route, which
     * is then the pending change; an event it does not consume leaves the
     * router as it was.
     */
    method PageHandleEvent(e: Event, replies: Replies) returns (consumed: bool)
      requires Valid()
      requires page.TargetsView? && LegacyTargets.ReachesConnect(page.targets.Model(), e)
               ==> TargetConnect.DialogPort(page.targets.connectDialog.value).Some?
      modifies router, manager, alerts, PageObjects()
      ensures manager.Valid() && page == old(page) && Shares(page)
      ensures page.TargetsView? ==> LegacyTargets.DialogValid(page.targets.Model())
      ensures router.newPage.Some? ==>
        router.newPage.value == router.history.Last() && router.history.Len() == old(router.history).Len() + 1
      ensures router.newPage.None? ==> router.history == old(router.history)
      ensures !consumed ==> router.newPage == None
    {
      match page {
        case ScopesView(p) =>
          consumed := p.HandleEvent(e);
        case TargetsView(p) =>
          consumed := p.HandleEvent(e, replies.connect);
        case SessionsView(p) =>
          consumed := p.HandleEvent(e, replies.cancel, replies.reload);
      }
    }

    /**
     * `handle_event`: Ctrl+C finishes; a shown alert takes the event;
     * otherwise the page has it, Esc it does not consume goes back, and a
     * route change replaces the page.
     */
    method HandleEvent(e: Event, replies: Replies)
      requires Valid() && PortReadable(e)
      modifies this, router, manager, alerts, PageObjects()
      ensures Valid()
      ensures finished == (old(finished) || IsCtrlWith(e, 'c'))
      ensures IsCtrlWith(e, 'c') ==> page == old(page) && unchanged(router, manager, alerts) && unchanged(old(PageObjects()))
      ensures !IsCtrlWith(e, 'c') && old(alerts.alerts) != [] ==>
        && alerts.alerts == AlertStack.AfterEvent(old(alerts.alerts), e).0
        && page == old(page) && unchanged(router, manager) && unchanged(old(PageObjects()))
      ensures router.history == old(router.history) || router.history == old(router.history).Pop() ||
              router.history.Len() == old(router.history).Len() + 1
    {
      if e.Key? && e.code == Char('c') && Control in e.modifiers {
        finished := true;
        return;
      }
      var alertResult := alerts.HandleEvent(e);
      if WasHandled(alertResult) {
        return;
      }
      var consumed := PageHandleEvent(e, replies);
      if !consumed && e.Key? && e.code == Esc {
        router.Pop();
      }
      PollRouterChange(replies);
    }
  }
}
