/**
 * The scopes page of the earlier generation with single-key commands
 * (components/table/scope/mod.rs): the scopes under a parent, sorted by
 * name; 's' opens the selected scope's child scopes and 't' its targets,
 * each only when the scope grants listing them.
 */
module LegacyScopes {
  import opened Wrappers
  import opened Events
  import opened Models
  import opened ItemRules
  import opened Routes
  import TableFilter
  import LegacyTable
  import Routing
  import AlertStack

  datatype Command = ListScopes | ListTargets

  /** `is_enabled`: the scope's own collection grants decide. */
  function IsEnabled(s: Scope, c: Command): (r: bool)
    ensures c == ListScopes ==> (r <==> Grants(s.collectionActions, "scopes", "list"))
    ensures c == ListTargets ==> (r <==> Grants(s.collectionActions, "targets", "list"))
  {
    match c
    case ListScopes => CanListChildScopes(s)
    case ListTargets => CanListTargets(s)
  }

  /**
   * `list_scopes` / `list_targets`: the page a command pushes for a scope,
   * none when the scope does not grant the command.
   */
  function CommandRoute(s: Scope, c: Command): (r: Option<Route>)
    ensures r.Some? <==> IsEnabled(s, c)
    ensures r.Some? && c == ListScopes ==> r.value == Scopes(Some(s.id))
    ensures r.Some? && c == ListTargets ==> r.value == Targets(s.id)
  {
    if !IsEnabled(s, c) then None
    else match c
      case ListScopes => Some(Scopes(Some(s.id)))
      case ListTargets => Some(Targets(s.id))
  }

  /** The key each command is bound to. */
  function KeyCommand(e: Event): (r: Option<Command>)
    ensures r == Some(ListScopes) <==> IsKey(e, Char('s'))
    ensures r == Some(ListTargets) <==> IsKey(e, Char('t'))
  {
    if IsKey(e, Char('s')) then Some(ListScopes)
    else if IsKey(e, Char('t')) then Some(ListTargets)
    else None
  }

  /** Does `handle_event` unwrap the selection? Only for a command key the table passed on. */
  predicate UnwrapsSelection(t: LegacyTable.TableState<Scope>, e: Event) {
    !LegacyTable.AfterEvent(t, e, ScopeMatches).1 && KeyCommand(e).Some?
  }

  /**
   * `handle_event`: the new table, the page pushed and whether the event was
   * consumed. The table has the event first; a command key it passes on is
   * consumed even when the selected scope does not grant the command.
   */
  function Step(t: LegacyTable.TableState<Scope>, e: Event): (r: (LegacyTable.TableState<Scope>, Option<Route>, bool))
    requires UnwrapsSelection(t, e) ==> LegacyTable.SelectedItem(t).Some?
    ensures r.1.Some? ==> r.2 && r.0 == t
    ensures r.1.Some? ==> LegacyTable.SelectedItem(t).Some? && var sel := LegacyTable.SelectedItem(t).value;
      (IsKey(e, Char('s')) && CanListChildScopes(sel) && r.1.value == Scopes(Some(sel.id))) ||
      (IsKey(e, Char('t')) && CanListTargets(sel) && r.1.value == Targets(sel.id))
    ensures UnwrapsSelection(t, e) ==> r.2 && (r.1.Some? <==> IsEnabled(LegacyTable.SelectedItem(t).value, KeyCommand(e).value))
    ensures LegacyTable.AfterEvent(t, e, ScopeMatches).1 ==> r == (LegacyTable.AfterEvent(t, e, ScopeMatches).0, None, true)
    ensures !r.2 ==> r.0 == t && r.1 == None
    ensures TableFilter.IsInput(t.filter) ==> r.1 == None && r.2
  {
    var (t', consumed) := LegacyTable.AfterEvent(t, e, ScopeMatches);
    if consumed then (t', None, true)
    else match KeyCommand(e)
      case None => (t, None, false)
      case Some(c) => (t, CommandRoute(LegacyTable.SelectedItem(t).value, c), true)
  }

  /** A scope that grants neither command: its keys are consumed and push nothing. */
  lemma {:induction false} UngrantedScopeGoesNowhere(t: LegacyTable.TableState<Scope>, e: Event)
    requires UnwrapsSelection(t, e)
    requires var sel := LegacyTable.SelectedItem(t);
      sel.Some? && !CanListChildScopes(sel.value) && !CanListTargets(sel.value)
    ensures Step(t, e) == (t, None, true)
  {
    var c := KeyCommand(e).value;
    assert !IsEnabled(LegacyTable.SelectedItem(t).value, c);
  }

  class ScopesPage {
    const parentScopeId: Option<string>
    const table: LegacyTable.TablePage<Scope>
    const router: Routing.Router<Route>
    const alerts: AlertStack.Alerts

    /** `new` followed by `load`; `reply` is what `get_scopes(parent)` returned. */
    constructor (parentScopeId: Option<string>, reply: Result<seq<Scope>, Error>,
                 router: Routing.Router<Route>, alerts: AlertStack.Alerts)
      modifies alerts
      ensures this.parentScopeId == parentScopeId && this.router == router && this.alerts == alerts
      ensures fresh(table) && table.title == "Scopes"
      ensures (NameOrdersArePreorders(); table.Model() == LegacyTable.Loaded(LegacyTable.NewTable([]), reply, ScopeNameLe))
      ensures alerts.alerts == old(alerts.alerts) + AlertStack.FailureAlerts(reply, "Failed to load scopes")
    {
      this.parentScopeId := parentScopeId;
      this.router := router;
      this.alerts := alerts;
      table := new LegacyTable.TablePage("Scopes", []);
      new;
      Load(reply);
    }

    method Load(reply: Result<seq<Scope>, Error>)
      modifies table, alerts
      ensures (NameOrdersArePreorders(); table.Model() == LegacyTable.Loaded(old(table.Model()), reply, ScopeNameLe)) && table.title == old(table.title)
      ensures alerts.alerts == old(alerts.alerts) + AlertStack.FailureAlerts(reply, "Failed to load scopes")
    {
      match reply
      case Ok(items) =>
        NameOrdersArePreorders();
        table.UpdateItems(items, ScopeNameLe);
      case Err(_) =>
        alerts.Alert("Error", "Failed to load scopes");
    }

    /** Pushes the child scopes page when the scope grants listing them. */
    method ListScopes(scope: Scope)
      modifies router
      ensures (router.history, router.newPage) == Routing.AfterPush(old(router.history), old(router.newPage), CommandRoute(scope, Command.ListScopes))
    {
      if !CanListChildScopes(scope) {
        return;
      }
      router.Push(Scopes(Some(scope.id)));
    }

    /** Pushes the targets page when the scope grants listing its targets. */
    method ListTargets(scope: Scope)
      modifies router
      ensures (router.history, router.newPage) == Routing.AfterPush(old(router.history), old(router.newPage), CommandRoute(scope, Command.ListTargets))
    {
      if !CanListTargets(scope) {
        return;
      }
      router.Push(Targets(scope.id));
    }

    method HandleEvent(e: Event) returns (consumed: bool)
      requires UnwrapsSelection(table.Model(), e) ==> LegacyTable.SelectedItem(table.Model()).Some?
      modifies table, router
      ensures var r := Step(old(table.Model()), e);
        table.Model() == r.0 && consumed == r.2 &&
        (router.history, router.newPage) == Routing.AfterPush(old(router.history), old(router.newPage), r.1)
      ensures table.title == old(table.title)
    {
      consumed := table.HandleEvent(e, ScopeMatches);
      if consumed {
        return;
      }
      if e.Key? {
        match e.code
        case Char(c) =>
          if c == 's' {
            ListScopes(LegacyTable.SelectedItem(table.Model()).value);
            return true;
          } else if c == 't' {
            ListTargets(LegacyTable.SelectedItem(table.Model()).value);
            return true;
          }
        case _ =>
      }
      return false;
    }
  }
}
