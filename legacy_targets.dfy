/**
 * The targets page of the earlier generation (components/table/target/mod.rs):
 * the targets of a scope sorted by name, a connect dialog asking for the
 * local port, and the connect response shown until Enter closes it.
 * 'c' opens the dialog, 'C' opens the selected target's sessions.
 */
module LegacyTargets {
  import opened Wrappers
  import opened Events
  import opened Models
  import opened ItemRules
  import opened Routes
  import opened Text
  import TableFilter
  import LegacyTable
  import Routing
  import AlertStack
  import InputDialog
  import LegacySessionManager
  import opened TargetConnect

  /** What the page holds besides the objects it shares. */
  datatype PageState = PageState(
    table: LegacyTable.TableState<Target>,
    dialog: Option<ConnectDialog>,
    response: Option<ConnectResponse>)

  predicate DialogValid(s: PageState) {
    s.dialog.Some? ==> InputDialog.Valid(s.dialog.value)
  }

  /**
   * `connect`: with a dialog and a selected target, the dialog closes and
   * the target and the typed port go to the connection manager; without
   * either, nothing happens and the dialog stays open.
   */
  function ConnectRequest(s: PageState): (r: (PageState, Option<(Target, u16)>))
    requires s.dialog.Some? && LegacyTable.SelectedItem(s.table).Some? ==> DialogPort(s.dialog.value).Some?
    ensures s.dialog.None? || LegacyTable.SelectedItem(s.table).None? <==> r == (s, None)
    ensures r.1.Some? ==>
      (r.0 == s.(dialog := None) &&
       r.1.value == (LegacyTable.SelectedItem(s.table).value, DialogPort(s.dialog.value).value))
  {
    if s.dialog.None? then (s, None)
    else match LegacyTable.SelectedItem(s.table)
      case None => (s, None)
      case Some(t) => (s.(dialog := None), Some((t, DialogPort(s.dialog.value).value)))
  }

  /** The client's answer to `connect`: the response is shown, or one alert says why it failed. */
  function ConnectAnswer(response: Option<ConnectResponse>, reply: Result<ConnectResponse, Error>)
    : (r: (Option<ConnectResponse>, seq<AlertStack.Alert>))
    ensures reply.Ok? ==> r == (Some(reply.value), [])
    ensures reply.Err? ==> r.0 == response && r.1 == [AlertStack.NewAlert("Error", "Failed to connect:\n " + Describe(reply.error))]
  {
    match reply
    case Ok(resp) => (Some(resp), [])
    case Err(e) => (response, [AlertStack.NewAlert("Error", "Failed to connect:\n " + Describe(e))])
  }

  /** Enter while a connect response is shown closes it and does nothing else. */
  predicate ClosesResponse(s: PageState, e: Event) {
    s.response.Some? && IsEnter(e)
  }

  /** Does the event reach `connect`: the dialog answers Ok and a target is selected? */
  predicate ReachesConnect(s: PageState, e: Event)
    requires DialogValid(s)
  {
    !ClosesResponse(s, e) && s.dialog.Some? && InputDialog.Step(s.dialog.value, e).1 == Some(OkButton)
      && LegacyTable.SelectedItem(s.table).Some?
  }

  /** What `handle_event` decides; `connectTo` is what goes to the connection manager. */
  datatype Outcome = Outcome(state: PageState, route: Option<Route>, connectTo: Option<(Target, u16)>, consumed: bool)

  /**
   * `handle_event`: Enter closes a shown response; an open dialog takes
   * every event (Cancel closes it, Ok connects); then the table; then 'C'
   * with a selection opens its sessions and 'c' opens the dialog.
   */
  function Step(s: PageState, e: Event): (r: Outcome)
    requires DialogValid(s)
    requires ReachesConnect(s, e) ==> DialogPort(s.dialog.value).Some?
    ensures DialogValid(r.state)
    ensures ClosesResponse(s, e) ==> r == Outcome(s.(response := None), None, None, true)
    ensures !ClosesResponse(s, e) && s.dialog.Some? ==>
      (r.consumed && r.route == None && r.state.table == s.table && r.state.response == s.response)
    ensures r.connectTo.Some? <==> ReachesConnect(s, e)
    ensures r.connectTo.Some? ==>
      (r.state == s.(dialog := None) &&
       r.connectTo.value == (LegacyTable.SelectedItem(s.table).value, DialogPort(s.dialog.value).value))
    ensures r.route.Some? ==>
      (IsKey(e, Char('C')) && LegacyTable.SelectedItem(s.table).Some? &&
       r.route.value == Sessions(LegacyTable.SelectedItem(s.table).value.scopeId, LegacyTable.SelectedItem(s.table).value.id))
    ensures r.state.dialog.Some? && s.dialog.None? ==> IsKey(e, Char('c')) && r.state.dialog == Some(NewConnectDialog())
    ensures !r.consumed ==> r == Outcome(s, None, None, false)
  {
    if ClosesResponse(s, e) then Outcome(s.(response := None), None, None, true)
    else if s.dialog.Some? then
      var (d, pressed) := InputDialog.Step(s.dialog.value, e);
      InputDialog.OnlyEnterOnButtonAnswers(s.dialog.value, e);
      match pressed
      case None => Outcome(s.(dialog := Some(d)), None, None, true)
      case Some(b) =>
        match b
        case CancelButton => Outcome(s.(dialog := None), None, None, true)
        case OkButton =>
          var (s', target) := ConnectRequest(s);
          Outcome(s', None, target, true)
    else
      var (t, consumed) := LegacyTable.AfterEvent(s.table, e, TargetMatches);
      if consumed then Outcome(s.(table := t), None, None, true)
      else if IsKey(e, Char('C')) && LegacyTable.SelectedItem(s.table).Some? then
        var target := LegacyTable.SelectedItem(s.table).value;
        Outcome(s, Some(Sessions(target.scopeId, target.id)), None, true)
      else if IsKey(e, Char('c')) then Outcome(s.(dialog := Some(NewConnectDialog())), None, None, true)
      else Outcome(s, None, None, false)
  }

  /** Cancel closes the dialog without connecting; Ok without a selected target keeps it open. */
  lemma {:induction false} DialogAnswers(s: PageState)
    requires DialogValid(s) && s.dialog.Some? && s.response.None?
    requires s.dialog.value.focus.Button?
    ensures var focused := s.dialog.value.buttons[s.dialog.value.focus.index].id;
      focused == CancelButton ==> Step(s, Press(Enter)) == Outcome(s.(dialog := None), None, None, true)
    ensures var focused := s.dialog.value.buttons[s.dialog.value.focus.index].id;
      focused == OkButton && LegacyTable.SelectedItem(s.table).None? ==> Step(s, Press(Enter)) == Outcome(s, None, None, true)
  {
    InputDialog.OnlyEnterOnButtonAnswers(s.dialog.value, Press(Enter));
  }

  class TargetsPage {
    const parentScopeId: Option<string>
    const table: LegacyTable.TablePage<Target>
    var connectDialog: Option<ConnectDialog>
    var connectResponse: Option<ConnectResponse>
    const router: Routing.Router<Route>
    const manager: LegacySessionManager.ConnectionManager
    const alerts: AlertStack.Alerts

    function Model(): PageState
      reads this, table
    {
      PageState(table.Model(), connectDialog, connectResponse)
    }

    /** `new` followed by `load`; `reply` is what `get_targets(parent)` returned. */
    constructor (parentScopeId: Option<string>, reply: Result<seq<Target>, Error>, router: Routing.Router<Route>,
                 manager: LegacySessionManager.ConnectionManager, alerts: AlertStack.Alerts)
      modifies alerts
      ensures this.parentScopeId == parentScopeId && this.router == router && this.manager == manager && this.alerts == alerts
      ensures fresh(table) && table.title == "Targets" && connectDialog.None? && connectResponse.None?
      ensures (NameOrdersArePreorders(); table.Model() == LegacyTable.Loaded(LegacyTable.NewTable([]), reply, TargetLe))
      ensures alerts.alerts == old(alerts.alerts) + AlertStack.FailureAlerts(reply, "Failed to load targets")
    {
      this.parentScopeId := parentScopeId;
      this.router := router;
      this.manager := manager;
      this.alerts := alerts;
      table := new LegacyTable.TablePage("Targets", []);
      connectDialog := None;
      connectResponse := None;
      new;
      Load(reply);
    }

    method Load(reply: Result<seq<Target>, Error>)
      modifies table, alerts
      ensures (NameOrdersArePreorders(); table.Model() == LegacyTable.Loaded(old(table.Model()), reply, TargetLe))
      ensures table.title == old(table.title)
      ensures alerts.alerts == old(alerts.alerts) + AlertStack.FailureAlerts(reply, "Failed to load targets")
    {
      match reply
      case Ok(items) =>
        NameOrdersArePreorders();
        table.UpdateItems(items, TargetLe);
      case Err(_) =>
        alerts.Alert("Error", "Failed to load targets");
    }

    method ShowConnectDialog()
      modifies this
      ensures connectDialog == Some(NewConnectDialog()) && connectResponse == old(connectResponse)
    {
      connectDialog := Some(NewConnectDialog());
    }

    /**
     * `connect`; `reply` is the client's answer to the connection the
     * manager starts. Whatever the answer, the dialog has closed.
     */
    method Connect(reply: Result<ConnectResponse, Error>)
      requires manager.Valid()
      requires connectDialog.Some? && LegacyTable.SelectedItem(table.Model()).Some? ==> DialogPort(connectDialog.value).Some?
      modifies this, manager, alerts
      ensures manager.Valid()
      ensures var (s, target) := ConnectRequest(old(Model()));
        && (target.None? ==> Model() == s && unchanged(manager) && alerts.alerts == old(alerts.alerts))
        && (target.Some? ==>
              (&& Model() == s.(response := ConnectAnswer(old(connectResponse), reply).0)
               && alerts.alerts == old(alerts.alerts) + ConnectAnswer(old(connectResponse), reply).1
               && manager.tokensCreated == old(manager.tokensCreated) + 1
               && manager.cancellationTokens == (if reply.Ok? then old(manager.cancellationTokens)[reply.value.sessionId := old(manager.tokensCreated)]
                                                 else old(manager.cancellationTokens))))
    {
      if connectDialog.Some? {
        var selected := LegacyTable.SelectedItem(table.Model());
        if selected.Some? {
          var port := DialogPort(connectDialog.value).value;
          var r, _ := manager.Connect(selected.value, port, reply);
          connectDialog := None;
          match r
          case Ok(resp) => connectResponse := Some(resp);
          case Err(e) => alerts.Alert("Error", "Failed to connect:\n " + Describe(e));
        }
      }
    }

    /** `handle_event`; `reply` answers the connection, should the event start one. */
    method HandleEvent(e: Event, reply: Result<ConnectResponse, Error>) returns (consumed: bool)
      requires manager.Valid() && DialogValid(Model())
      requires ReachesConnect(Model(), e) ==> DialogPort(connectDialog.value).Some?
      modifies this, table, router, manager, alerts
      ensures manager.Valid() && table.title == old(table.title)
      ensures var o := Step(old(Model()), e);
        && consumed == o.consumed
        && (router.history, router.newPage) == Routing.AfterPush(old(router.history), old(router.newPage), o.route)
        && (o.connectTo.None? ==> Model() == o.state && unchanged(manager) && alerts.alerts == old(alerts.alerts))
        && (o.connectTo.Some? ==>
              (&& Model() == o.state.(response := ConnectAnswer(old(connectResponse), reply).0)
               && alerts.alerts == old(alerts.alerts) + ConnectAnswer(old(connectResponse), reply).1
               && manager.tokensCreated == old(manager.tokensCreated) + 1))
    {
      if connectResponse.Some? && e.Key? && e.code == Enter {
        connectResponse := None;
        return true;
      }
      if connectDialog.Some? {
        var answer := InputDialog.Step(connectDialog.value, e);
        var d, pressed := answer.0, answer.1;
        InputDialog.OnlyEnterOnButtonAnswers(connectDialog.value, e);
        connectDialog := Some(d);
        if pressed.Some? {
          match pressed.value
          case CancelButton => connectDialog := None;
          case OkButton => Connect(reply);
        }
        return true;
      }
      consumed := table.HandleEvent(e, TargetMatches);
      if consumed {
        return;
      }
      if e.Key? {
        match e.code
        case Char(c) =>
          if c == 'C' {
            var selected := LegacyTable.SelectedItem(table.Model());
            if selected.Some? {
              router.Push(Sessions(selected.value.scopeId, selected.value.id));
              return true;
            }
          } else if c == 'c' {
            ShowConnectDialog();
            return true;
          }
        case _ =>
      }
      return false;
    }
  }

  // ---- the page's connect scenarios -------------------------------------------

  function TestTarget(n: char): Target {
    Target([n], "Target " + [n], "Description " + [n], "Type " + [n], map[], ["authorize-session"], [n])
  }

  /** A dialog whose port field holds "8080", with Ok before Cancel. */
  function TestDialog(): ConnectDialog {
    InputDialog.NewDialog(
      [InputDialog.InputField(ListenPort, "Listen Port", "8080")],
      [InputDialog.DialogButton(OkButton, "Ok"), InputDialog.DialogButton(CancelButton, "Cancel")])
  }

  lemma TestDialogPort()
    ensures DialogPort(TestDialog()) == Some(8080)
  {
    var v := "8080";
    assert InputDialog.GetValue(TestDialog().fields, ListenPort) == Some(v);
    assert forall i :: 0 <= i < |v| ==> IsDigit(v[i]);
    assert DigitsValue("8") == 8 by { assert "8"[..0] == []; }
    assert DigitsValue("80") == 80 by { assert "80"[..1] == "8"; }
    assert DigitsValue("808") == 808 by { assert "808"[..2] == "80"; }
    assert DigitsValue(v) == 8080 by { assert v[..3] == "808"; }
  }

  /**
   * With two targets loaded and a dialog holding "8080", `connect` always
   * closes the dialog; a failed connection raises exactly one alert and
   * shows no response, a successful one shows the response and no alert.
   */
  method ConnectScenario(reply: Result<ConnectResponse, Error>)
    returns (alertCount: nat, dialogClosed: bool, responseShown: bool)
    ensures dialogClosed
    ensures reply.Err? ==> alertCount == 1 && !responseShown
    ensures reply.Ok? ==> alertCount == 0 && responseShown
  {
    var router := new Routing.Router(Targets(""));
    var manager := new LegacySessionManager.ConnectionManager();
    var alerts := new AlertStack.Alerts();
    var page := new TargetsPage(None, Ok([TestTarget('1'), TestTarget('2')]), router, manager, alerts);
    assert |page.table.Model().visible| == 2;
    TestDialogPort();
    page.connectDialog := Some(TestDialog());
    page.Connect(reply);
    alertCount := |alerts.alerts|;
    dialogClosed := page.connectDialog.None?;
    responseShown := page.connectResponse.Some?;
  }
}
