/**
 * The scopes page of the current generation
 * (bountui/components/table/scope.rs): the table has every event first;
 * unless its search box was open before the event, Enter asks for the
 * selected scope's child scopes, or else for its targets.
 */
module BountuiScopes {
  import opened Wrappers
  import opened Events
  import opened Models
  import opened ItemRules
  import opened Messages
  import BountuiTable
  import TableFilter

  /** The two actions the page lists for a scope. */
  datatype ScopeAction = ListScopes | ListTargets

  /** `is_action_enabled`: listing child scopes or targets, as the scope grants. */
  function IsActionEnabled(s: Scope, a: ScopeAction): (r: bool)
    ensures a.ListScopes? ==> (r <==> CanListChildScopes(s))
    ensures a.ListTargets? ==> (r <==> CanListTargets(s))
  {
    match a
    case ListScopes => CanListChildScopes(s)
    case ListTargets => CanListTargets(s)
  }

  /** What Enter asks for: child scopes take precedence over targets; neither, nothing. */
  function ChildrenMessages(selected: Option<Scope>): (r: seq<Message>)
    ensures |r| <= 1
    ensures selected.None? ==> r == []
    ensures selected.Some? && CanListChildScopes(selected.value) ==> r == [ShowScopes(Some(selected.value.id))]
    ensures selected.Some? && !CanListChildScopes(selected.value) && CanListTargets(selected.value) ==>
      r == [ShowTargets(Some(selected.value.id))]
    ensures r == [] <==> selected.None? || (!CanListChildScopes(selected.value) && !CanListTargets(selected.value))
  {
    match selected
    case None => []
    case Some(s) =>
      if CanListChildScopes(s) then [ShowScopes(Some(s.id))]
      else if CanListTargets(s) then [ShowTargets(Some(s.id))]
      else []
  }

  /** Enter on a scope asks for something exactly when one of its actions is enabled. */
  lemma EnterMatchesEnabledActions(s: Scope)
    ensures ChildrenMessages(Some(s)) != [] <==> IsActionEnabled(s, ListScopes) || IsActionEnabled(s, ListTargets)
    ensures IsActionEnabled(s, ListScopes) ==> ChildrenMessages(Some(s)) == [ShowScopes(Some(s.id))]
  {
  }

  /**
   * `handle_event`: the table's step, then, when the search box was not
   * open, Enter sends what the selected scope allows.
   */
  function Step(t: BountuiTable.TableState<Scope>, e: Event): (r: (BountuiTable.TableState<Scope>, seq<Message>))
    ensures r.0 == BountuiTable.AfterEvent(t, e, ScopeMatches)
    ensures TableFilter.IsInput(t.filter) || !IsEnter(e) ==> r.1 == []
    ensures !TableFilter.IsInput(t.filter) && IsEnter(e) ==> r.0 == t && r.1 == ChildrenMessages(BountuiTable.SelectedItem(t))
  {
    var t' := BountuiTable.AfterEvent(t, e, ScopeMatches);
    if TableFilter.IsInput(t.filter) then (t', [])
    else if IsEnter(e) then (t', ChildrenMessages(BountuiTable.SelectedItem(t')))
    else (t', [])
  }

  /**
   * Enter in the open search box only closes it; the next Enter opens the
   * children of the scope then selected.
   */
  lemma SecondEnterNavigates(t: BountuiTable.TableState<Scope>)
    requires t.filter.Input?
    ensures var (t1, sent1) := Step(t, Press(Enter));
      && sent1 == [] && t1.filter == TableFilter.Value(t.filter.text)
      && Step(t1, Press(Enter)).1 == ChildrenMessages(BountuiTable.SelectedItem(t1))
  {
  }

  class ScopesPage {
    const table: BountuiTable.TablePage<Scope>
    /** The messages sent to the application, oldest first. */
    var outbox: seq<Message>

    constructor (scopes: seq<Scope>)
      ensures fresh(table) && table.title == "Scopes"
      ensures table.Model() == BountuiTable.NewTable(scopes) && outbox == []
    {
      table := new BountuiTable.TablePage("Scopes", scopes);
      outbox := [];
    }

    method HandleEvent(e: Event)
      modifies this, table
      ensures table.title == old(table.title)
      ensures (table.Model(), outbox) == (Step(old(table.Model()), e).0, old(outbox) + Step(old(table.Model()), e).1)
    {
      var filterWasActive := table.IsFilterInputActive();
      table.HandleEvent(e, ScopeMatches);
      if filterWasActive {
        assert outbox == old(outbox) + [];
        return;
      }
      if e.Key? && e.code == Enter {
        var selected := BountuiTable.SelectedItem(table.Model());
        if selected.Some? {
          if CanListChildScopes(selected.value) {
            outbox := outbox + [ShowScopes(Some(selected.value.id))];
          } else if CanListTargets(selected.value) {
            outbox := outbox + [ShowTargets(Some(selected.value.id))];
          }
        }
      }
      assert outbox == old(outbox) + Step(old(table.Model()), e).1;
    }
  }
}
