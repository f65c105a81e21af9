/**
 * The table page of the earlier generation (components/table/mod.rs): the
 * items sorted on every update, the visible rows, the ratatui selection
 * and the filter. Unlike the current table, the event handler reports
 * whether it consumed the event, and the selection "none" counts as the
 * first row (ext/table_state.rs).
 */
module LegacyTable {
  import opened Wrappers
  import opened Events
  import opened TableFilter
  import opened Sorting

  datatype TableState<T> = TableState(items: seq<T>, visible: seq<T>, selected: Option<nat>, filter: Filter)

  /** `selected_coerced`: no selection reads as the first row. */
  function SelectedCoerced(selected: Option<nat>): (i: nat)
    ensures selected.None? ==> i == 0
    ensures selected.Some? ==> i == selected.value
  {
    match selected
    case None => 0
    case Some(n) => n
  }

  /** The selection is absent, the first row, or a row that exists. */
  predicate SelectionFits<T>(s: TableState<T>) {
    s.selected.Some? ==> s.selected.value == 0 || s.selected.value < |s.visible|
  }

  ghost predicate Valid<T>(s: TableState<T>) {
    IsSubsequence(s.visible, s.items) && SelectionFits(s)
  }

  /** A new page: every item visible, nothing selected, no filter. */
  function NewTable<T>(items: seq<T>): (s: TableState<T>)
    ensures s.items == items && s.visible == items && s.selected.None? && s.filter == Disabled
  {
    TableState(items, items, None, Disabled)
  }

  /** `update_items`: the items sorted, all of them visible, the first row selected. */
  function WithItems<T(!new)>(s: TableState<T>, items: seq<T>, le: (T, T) -> bool): (r: TableState<T>)
    requires TotalPreorder(le)
    ensures SortedBy(r.items, le) && multiset(r.items) == multiset(items)
    ensures r.visible == r.items && r.selected == Some(0) && r.filter == s.filter
  {
    var sorted := SortBy(items, le);
    TableState(sorted, sorted, Some(0), s.filter)
  }

  /** A page's `load`: the fetched items on success; on failure the table is kept. */
  function Loaded<T(!new), E>(s: TableState<T>, reply: Result<seq<T>, E>, le: (T, T) -> bool): (r: TableState<T>)
    requires TotalPreorder(le)
    ensures reply.Err? ==> r == s
    ensures reply.Ok? ==> SortedBy(r.items, le) && multiset(r.items) == multiset(reply.value)
    ensures reply.Ok? ==> r.visible == r.items && r.selected == Some(0) && r.filter == s.filter
  {
    match reply
    case Ok(items) => WithItems(s, items, le)
    case Err(_) => s
  }

  /** `selected_item`: the visible row at the coerced selection, if there is one. */
  function SelectedItem<T>(s: TableState<T>): (r: Option<T>)
    ensures r.Some? <==> SelectedCoerced(s.selected) < |s.visible|
    ensures r.Some? ==> r.value == s.visible[SelectedCoerced(s.selected)]
    ensures s.selected.None? && s.visible != [] ==> r == Some(s.visible[0])
  {
    var i := SelectedCoerced(s.selected);
    if i < |s.visible| then Some(s.visible[i]) else None
  }

  /** `apply_filter`: the items matching the text, in order, and the first row selected. */
  function Narrowed<T(==,!new)>(s: TableState<T>, search: string, matches: (T, string) -> bool): (r: TableState<T>)
    ensures r.items == s.items && r.filter == s.filter && r.selected == Some(0)
    ensures forall x :: x in r.visible <==> x in s.items && matches(x, search)
    ensures forall x :: multiset(r.visible)[x] == if matches(x, search) then multiset(s.items)[x] else 0
    ensures IsSubsequence(r.visible, s.items)
  {
    var visible := Filtered(s.items, matches, search);
    forall x ensures x in visible <==> x in s.items && matches(x, search) {
      FilteredMembers(s.items, matches, search, x);
    }
    TableState(s.items, visible, Some(0), s.filter)
  }

  /** `reset_filter`. */
  function Reset<T>(s: TableState<T>): (r: TableState<T>)
    ensures r.filter == Disabled && r.items == s.items && r.visible == s.items && r.selected == Some(0)
  {
    TableState(s.items, s.items, Some(0), Disabled)
  }

  /**
   * `handle_search_input`: while the search box is open every event is
   * consumed: Enter closes it keeping the search, Esc drops the filter, any
   * other key edits the search and filters again; other events change nothing.
   */
  function SearchInput<T(==,!new)>(s: TableState<T>, e: Event, matches: (T, string) -> bool): (r: (TableState<T>, bool))
    ensures r.1 <==> IsInput(s.filter)
    ensures !IsInput(s.filter) || !e.Key? ==> r.0 == s
  {
    match s.filter
    case Input(text) =>
      if !e.Key? then (s, true)
      else if e.code == Enter then (s.(filter := Value(text)), true)
      else if e.code == Esc then (Reset(s), true)
      else
        var edited := EditText(text, e);
        (Narrowed(s.(filter := Input(edited)), edited, matches), true)
    case _ => (s, false)
  }

  /** `show_filter_input`: the box opens with the applied search, or empty. */
  function ShowInput<T>(s: TableState<T>): (r: TableState<T>)
    ensures s.filter.Value? ==> r == s.(filter := Input(s.filter.text))
    ensures !s.filter.Value? ==> r == s.(filter := Input(""))
  {
    match s.filter
    case Value(v) => s.(filter := Input(v))
    case _ => s.(filter := Input(""))
  }

  /** Up: one row up from the coerced selection, stopping at the first row. */
  function MovedUp<T>(s: TableState<T>): (r: TableState<T>)
    ensures r.items == s.items && r.visible == s.visible && r.filter == s.filter
    ensures SelectedCoerced(s.selected) > 0 ==> r.selected == Some(SelectedCoerced(s.selected) - 1)
    ensures SelectedCoerced(s.selected) == 0 ==> r.selected == s.selected
  {
    var i := SelectedCoerced(s.selected);
    if i > 0 then s.(selected := Some(i - 1)) else s
  }

  /** Down: one row down, unless the list is empty or the last row is selected. */
  function MovedDown<T>(s: TableState<T>): (r: TableState<T>)
    ensures r.items == s.items && r.visible == s.visible && r.filter == s.filter
    ensures SelectedCoerced(s.selected) + 1 < |s.visible| ==> r.selected == Some(SelectedCoerced(s.selected) + 1)
    ensures SelectedCoerced(s.selected) + 1 >= |s.visible| ==> r.selected == s.selected
  {
    var i := SelectedCoerced(s.selected);
    if |s.visible| > 0 && i < |s.visible| - 1 then s.(selected := Some(i + 1)) else s
  }

  /**
   * `handle_event`: the search box first; then Esc drops an active filter,
   * Up/Down move, '/' opens the search box. The flag says whether the
   * event was consumed.
   */
  function AfterEvent<T(==,!new)>(s: TableState<T>, e: Event, matches: (T, string) -> bool): (r: (TableState<T>, bool))
    ensures r.0.items == s.items
    ensures !r.1 ==> r.0 == s
  {
    var searched := SearchInput(s, e, matches);
    if searched.1 then searched
    else if !e.Key? then (s, false)
    else
      match e.code
      case Esc => if IsActive(s.filter) then (Reset(s), true) else (s, false)
      case Up => (MovedUp(s), true)
      case Down => (MovedDown(s), true)
      case Char(c) => if c == '/' then (ShowInput(s), true) else (s, false)
      case _ => (s, false)
  }

  // ---- properties of the event handling ----------------------------------

  lemma AfterEventKeepsValid<T(!new)>(s: TableState<T>, e: Event, matches: (T, string) -> bool)
    requires Valid(s)
    ensures Valid(AfterEvent(s, e, matches).0)
  {
    SubsequenceReflexive(s.items);
  }

  /**
   * While the search box is open every event is consumed, and no key moves
   * the selection: a key other than Enter and Esc refilters and selects
   * the first row, Enter keeps the selection.
   */
  lemma SearchInputConsumesAll<T(!new)>(s: TableState<T>, e: Event, matches: (T, string) -> bool)
    requires s.filter.Input?
    ensures var r := AfterEvent(s, e, matches);
      && r.1
      && (e.Key? && e.code != Enter && e.code != Esc ==>
            r.0.selected == Some(0)
            && r.0.visible == Filtered(s.items, matches, EditText(s.filter.text, e)))
      && (IsKey(e, Enter) ==> r.0 == s.(filter := Value(s.filter.text)))
      && (IsKey(e, Esc) ==> r.0 == TableState(s.items, s.items, Some(0), Disabled))
  {
  }

  /** Reopening the search box shows the search that was last confirmed. */
  lemma ReopenShowsConfirmedSearch<T(!new)>(s: TableState<T>, text: string, matches: (T, string) -> bool)
    requires s.filter == Input(text)
    ensures var closed := AfterEvent(s, Press(Enter), matches).0;
      AfterEvent(closed, Press(Char('/')), matches) == (s, true)
  {
  }

  /** Esc is consumed exactly when a filter was active, so otherwise the caller may go back. */
  lemma EscConsumedIffFilterActive<T(!new)>(s: TableState<T>, matches: (T, string) -> bool)
    ensures AfterEvent(s, Press(Esc), matches).1 <==> IsActive(s.filter)
    ensures !IsActive(s.filter) ==> AfterEvent(s, Press(Esc), matches).0 == s
  {
  }

  /** Up and Down are consumed and keep a selection that names a row on a row. */
  lemma MovesStayOnARow<T(!new)>(s: TableState<T>, matches: (T, string) -> bool)
    requires !s.filter.Input? && SelectedCoerced(s.selected) < |s.visible|
    ensures var up := AfterEvent(s, Press(Up), matches);
      up.1 && up.0.visible == s.visible && SelectedCoerced(up.0.selected) < |s.visible|
    ensures var down := AfterEvent(s, Press(Down), matches);
      down.1 && down.0.visible == s.visible && SelectedCoerced(down.0.selected) < |s.visible|
  {
  }

  /** Down on an empty list is consumed and changes nothing. */
  lemma DownOnEmptyList<T(!new)>(s: TableState<T>, matches: (T, string) -> bool)
    requires !s.filter.Input? && s.visible == []
    ensures AfterEvent(s, Press(Down), matches) == (s, true)
  {
  }

  // ---- the page object ----------------------------------------------------

  class TablePage<T(==,!new)> {
    var title: string
    var items: seq<T>
    var visibleItems: seq<T>
    var tableSelected: Option<nat>
    var filter: Filter

    function Model(): TableState<T>
      reads this
    {
      TableState(items, visibleItems, tableSelected, filter)
    }

    constructor (title: string, items: seq<T>)
      ensures this.title == title && Model() == NewTable(items) && Valid(Model())
    {
      this.title := title;
      this.items := items;
      visibleItems := items;
      tableSelected := None;
      filter := Disabled;
      new;
      SubsequenceReflexive(items);
    }

    method UpdateItems(newItems: seq<T>, le: (T, T) -> bool)
      requires TotalPreorder(le)
      modifies this
      ensures Model() == WithItems(old(Model()), newItems, le) && Valid(Model())
      ensures title == old(title)
    {
      items := SortBy(newItems, le);
      visibleItems := items;
      tableSelected := Some(0);
      SubsequenceReflexive(items);
    }

    method ApplyFilter(search: string, matches: (T, string) -> bool)
      modifies this
      ensures Model() == Narrowed(old(Model()), search, matches) && title == old(title)
    {
      visibleItems := Filtered(items, matches, search);
      tableSelected := Some(0);
    }

    method ResetFilter()
      modifies this
      ensures Model() == Reset(old(Model())) && title == old(title)
    {
      filter := Disabled;
      visibleItems := items;
      tableSelected := Some(0);
    }

    method HandleSearchInput(e: Event, matches: (T, string) -> bool) returns (consumed: bool)
      modifies this
      ensures (Model(), consumed) == SearchInput(old(Model()), e, matches) && title == old(title)
    {
      if filter.Input? {
        if e.Key? {
          match e.code
          case Enter => filter := Value(filter.text);
          case Esc => ResetFilter();
          case _ =>
            var value := EditText(filter.text, e);
            filter := Input(value);
            ApplyFilter(value, matches);
            tableSelected := Some(0);
        }
        return true;
      }
      return false;
    }

    method ShowFilterInput()
      modifies this
      ensures Model() == ShowInput(old(Model())) && title == old(title)
    {
      var filterString := if filter.Value? then filter.text else "";
      filter := Input(filterString);
    }

    method HandleEvent(e: Event, matches: (T, string) -> bool) returns (consumed: bool)
      modifies this
      ensures (Model(), consumed) == AfterEvent(old(Model()), e, matches) && title == old(title)
    {
      consumed := HandleSearchInput(e, matches);
      if consumed {
        return;
      }
      if e.Key? {
        match e.code
        case Esc =>
          if IsActive(filter) {
            ResetFilter();
            return true;
          }
        case Up =>
          var selectedIndex := SelectedCoerced(tableSelected);
          if selectedIndex > 0 {
            tableSelected := Some(selectedIndex - 1);
          }
          return true;
        case Down =>
          var selectedIndex := SelectedCoerced(tableSelected);
          if |visibleItems| > 0 && selectedIndex < |visibleItems| - 1 {
            tableSelected := Some(selectedIndex + 1);
          }
          return true;
        case Char(c) =>
          if c == '/' {
            ShowFilterInput();
            return true;
          }
        case _ =>
      }
      return false;
    }
  }
}
