/**
 * The scopes page of the earlier generation driven by Enter
 * (components/table/scope.rs): Enter opens the selected scope's child
 * scopes when it may list them, otherwise its targets when it may list
 * those, otherwise nothing.
 */
module LegacyScopeTree {
  import opened Wrappers
  import opened Events
  import opened Models
  import opened ItemRules
  import opened Routes
  import opened Text
  import opened Sorting
  import TableFilter
  import LegacyTable
  import Routing
  import AlertStack
  import LegacyScopes

  /** `is_action_enabled` of the two actions shown for a scope. */
  function IsActionEnabled(s: Scope, c: LegacyScopes.Command): (r: bool)
    ensures r <==> LegacyScopes.IsEnabled(s, c)
  {
    match c
    case ListScopes => CanListChildScopes(s)
    case ListTargets => CanListTargets(s)
  }

  /** `show_children`: child scopes take precedence over targets. */
  function ChildrenRoute(selected: Option<Scope>): (r: Option<Route>)
    ensures selected.None? ==> r.None?
    ensures selected.Some? && CanListChildScopes(selected.value) ==> r == Some(Scopes(Some(selected.value.id)))
    ensures selected.Some? && !CanListChildScopes(selected.value) && CanListTargets(selected.value) ==>
      r == Some(Targets(selected.value.id))
    ensures r.None? <==> selected.None? || (!CanListChildScopes(selected.value) && !CanListTargets(selected.value))
  {
    match selected
    case None => None
    case Some(s) =>
      if CanListChildScopes(s) then LegacyScopes.CommandRoute(s, LegacyScopes.ListScopes)
      else LegacyScopes.CommandRoute(s, LegacyScopes.ListTargets)
  }

  /**
   * `handle_event`: the table has the event first; Enter it passes on is
   * consumed and opens the selected scope's children.
   */
  function Step(t: LegacyTable.TableState<Scope>, e: Event): (r: (LegacyTable.TableState<Scope>, Option<Route>, bool))
    ensures r.1.Some? ==> r.2 && r.0 == t && IsEnter(e) && !TableFilter.IsInput(t.filter)
    ensures !LegacyTable.AfterEvent(t, e, ScopeMatches).1 && IsEnter(e) ==>
      r == (t, ChildrenRoute(LegacyTable.SelectedItem(t)), true)
    ensures LegacyTable.AfterEvent(t, e, ScopeMatches).1 ==> r == (LegacyTable.AfterEvent(t, e, ScopeMatches).0, None, true)
    ensures !r.2 ==> r.0 == t && r.1 == None && !IsEnter(e)
  {
    var (t', consumed) := LegacyTable.AfterEvent(t, e, ScopeMatches);
    if consumed then (t', None, true)
    else if IsEnter(e) then (t, ChildrenRoute(LegacyTable.SelectedItem(t)), true)
    else (t, None, false)
  }

  class ScopesPage {
    const parentScopeId: Option<string>
    const table: LegacyTable.TablePage<Scope>
    const router: Routing.Router<Route>
    const alerts: AlertStack.Alerts

    /** `new` followed by `load`; `reply` is what `get_scopes(parent)` returned. */
    constructor (parentScopeId: Option<string>, reply: Result<seq<Scope>, Error>,
                 router: Routing.Router<Route>, alerts: AlertStack.Alerts)
      modifies alerts
      ensures this.parentScopeId == parentScopeId && this.router == router && this.alerts == alerts
      ensures fresh(table) && table.title == "Scopes"
      ensures (NameOrdersArePreorders(); table.Model() == LegacyTable.Loaded(LegacyTable.NewTable([]), reply, ScopeNameLe))
      ensures alerts.alerts == old(alerts.alerts) + AlertStack.FailureAlerts(reply, "Failed to load scopes")
    {
      this.parentScopeId := parentScopeId;
      this.router := router;
      this.alerts := alerts;
      table := new LegacyTable.TablePage("Scopes", []);
      new;
      Load(reply);
    }

    method Load(reply: Result<seq<Scope>, Error>)
      modifies table, alerts
      ensures (NameOrdersArePreorders(); table.Model() == LegacyTable.Loaded(old(table.Model()), reply, ScopeNameLe)) && table.title == old(table.title)
      ensures alerts.alerts == old(alerts.alerts) + AlertStack.FailureAlerts(reply, "Failed to load scopes")
    {
      match reply
      case Ok(items) =>
        NameOrdersArePreorders();
        table.UpdateItems(items, ScopeNameLe);
      case Err(_) =>
        alerts.Alert("Error", "Failed to load scopes");
    }

    method ShowChildren()
      modifies router
      ensures (router.history, router.newPage) ==
        Routing.AfterPush(old(router.history), old(router.newPage), ChildrenRoute(LegacyTable.SelectedItem(table.Model())))
    {
      var selected := LegacyTable.SelectedItem(table.Model());
      if selected.Some? {
        var scope := selected.value;
        if CanListChildScopes(scope) {
          router.Push(Scopes(Some(scope.id)));
        } else if CanListTargets(scope) {
          router.Push(Targets(scope.id));
        }
      }
    }

    method HandleEvent(e: Event) returns (consumed: bool)
      modifies table, router
      ensures var r := Step(old(table.Model()), e);
        table.Model() == r.0 && consumed == r.2 &&
        (router.history, router.newPage) == Routing.AfterPush(old(router.history), old(router.newPage), r.1)
      ensures table.title == old(table.title)
    {
      consumed := table.HandleEvent(e, ScopeMatches);
      if consumed {
        return;
      }
      if e.Key? && e.code == Enter {
        ShowChildren();
        return true;
      }
      return false;
    }
  }

  // ---- the page's two scenarios ---------------------------------------------

  /** The first scope may list child scopes, the second only targets. */
  function FirstScope(): Scope {
    Scope("scope-id-1", "scope-name-1", "scope-description-1", "scope-type-1", map["scopes" := ["list"]])
  }

  function SecondScope(): Scope {
    Scope("scope-id-2", "scope-name-2", "scope-description-2", "scope-type-2", map["targets" := ["list"]])
  }

  /** "scope-name-1" comes before "scope-name-2". */
  lemma NamesInOrder()
    ensures ScopeNameLe(FirstScope(), SecondScope())
  {
    var p := "scope-name-";
    StrLeFirstDifference(p, '1', '2', "", "");
    assert p + ['1'] + "" == FirstScope().name;
    assert p + ['2'] + "" == SecondScope().name;
  }

  /** The two scopes are already in name order, so loading keeps their order. */
  lemma ScopesLoadInOrder()
    ensures TotalPreorder(ScopeNameLe)
    ensures SortBy([FirstScope(), SecondScope()], ScopeNameLe) == [FirstScope(), SecondScope()]
  {
    NameOrdersArePreorders();
    NamesInOrder();
    var pair := [FirstScope(), SecondScope()];
    assert SortedBy(pair, ScopeNameLe);
    SortBySorted(pair, ScopeNameLe);
  }

  /** The page's table once the two scopes are loaded. */
  lemma LoadedShape()
    ensures TotalPreorder(ScopeNameLe)
    ensures var pair := [FirstScope(), SecondScope()];
      var reply: Result<seq<Scope>, Error> := Ok(pair);
      LegacyTable.Loaded(LegacyTable.NewTable<Scope>([]), reply, ScopeNameLe) == LegacyTable.TableState(pair, pair, Some(0), TableFilter.Disabled)
  {
    ScopesLoadInOrder();
  }

  /** Enter on the first row opens its child scopes; on the second, its targets. */
  lemma {:induction false} EnterOpensChildren(selected: nat)
    requires selected < 2
    ensures var pair := [FirstScope(), SecondScope()];
      var t := LegacyTable.TableState(pair, pair, Some(selected), TableFilter.Disabled);
      Step(t, Press(Enter)) == (t, Some(if selected == 0 then Scopes(Some("scope-id-1")) else Targets("scope-id-2")), true)
  {
    var pair := [FirstScope(), SecondScope()];
    var t := LegacyTable.TableState(pair, pair, Some(selected), TableFilter.Disabled);
    assert !LegacyTable.AfterEvent(t, Press(Enter), ScopeMatches).1;
    assert LegacyTable.SelectedItem(t) == Some(pair[selected]);
    if selected == 0 {
      assert CanListChildScopes(FirstScope()) by { assert "scopes" in FirstScope().collectionActions; }
    } else {
      assert !CanListChildScopes(SecondScope()) by { assert "scopes" !in SecondScope().collectionActions; }
      assert CanListTargets(SecondScope()) by { assert "targets" in SecondScope().collectionActions; }
    }
  }

  /** Enter on a freshly loaded page opens the first scope's child scopes. */
  method ShowChildScopesScenario() returns (route: Option<Route>)
    ensures route == Some(Scopes(Some("scope-id-1")))
  {
    var router := new Routing.Router(Scopes(None));
    var alerts := new AlertStack.Alerts();
    var page := new ScopesPage(None, Ok([FirstScope(), SecondScope()]), router, alerts);
    LoadedShape();
    EnterOpensChildren(0);
    var _ := page.HandleEvent(Press(Enter));
    route := router.PollChange();
  }

  /** With the second row selected, Enter opens that scope's targets. */
  method ShowTargetsScenario() returns (route: Option<Route>)
    ensures route == Some(Targets("scope-id-2"))
  {
    var router := new Routing.Router(Scopes(None));
    var alerts := new AlertStack.Alerts();
    var page := new ScopesPage(None, Ok([FirstScope(), SecondScope()]), router, alerts);
    LoadedShape();
    page.table.tableSelected := Some(1);
    EnterOpensChildren(1);
    var _ := page.HandleEvent(Press(Enter));
    route := router.PollChange();
  }
}
