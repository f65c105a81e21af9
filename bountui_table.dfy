/**
 * The table page of the current generation
 * (bountui/components/table/mod.rs): all items, the items the filter lets
 * through, the selected row and the filter. Each operation is a function
 * on the page's state; the TablePage class holds that state in fields and
 * applies the functions in place.
 */
module BountuiTable {
  import opened Wrappers
  import opened Events
  import opened TableFilter

  datatype TableState<T> = TableState(items: seq<T>, visible: seq<T>, selected: Option<nat>, filter: Filter)

  /** The selection is absent, the first row, or a row that exists. */
  predicate SelectionFits<T>(s: TableState<T>) {
    s.selected.Some? ==> s.selected.value == 0 || s.selected.value < |s.visible|
  }

  /** The visible rows are the items with some dropped, in order; the selection fits. */
  ghost predicate Valid<T>(s: TableState<T>) {
    IsSubsequence(s.visible, s.items) && SelectionFits(s)
  }

  function FirstRow<T>(rows: seq<T>): (r: Option<nat>)
    ensures r.Some? <==> rows != []
    ensures r.Some? ==> r.value == 0
  {
    if rows == [] then None else Some(0)
  }

  /** A new page: every item visible, the first one selected, no filter. */
  function NewTable<T>(items: seq<T>): (s: TableState<T>)
    ensures s.items == items && s.visible == items && s.filter == Disabled
    ensures s.selected == FirstRow(items)
  {
    TableState(items, items, FirstRow(items), Disabled)
  }

  /** `set_items`: as for a new page, but the filter stays as it was. */
  function WithItems<T>(s: TableState<T>, items: seq<T>): (r: TableState<T>)
    ensures r.items == items && r.visible == items && r.selected == FirstRow(items)
    ensures r.filter == s.filter
  {
    TableState(items, items, FirstRow(items), s.filter)
  }

  /** The selected row, when the selection names a visible row. */
  function SelectedItem<T>(s: TableState<T>): (r: Option<T>)
    ensures r.Some? <==> s.selected.Some? && s.selected.value < |s.visible|
    ensures r.Some? ==> r.value == s.visible[s.selected.value]
  {
    if s.selected.Some? && s.selected.value < |s.visible| then Some(s.visible[s.selected.value]) else None
  }

  /** The selected row is one of the visible rows and one of the items. */
  lemma {:induction false} SelectedItemIsAnItem<T>(s: TableState<T>)
    requires Valid(s) && SelectedItem(s).Some?
    ensures SelectedItem(s).value in s.visible && SelectedItem(s).value in s.items
  {
    SubsequenceMembers(s.visible, s.items, SelectedItem(s).value);
  }

  lemma {:induction false} SubsequenceMembers<T>(a: seq<T>, b: seq<T>, x: T)
    requires IsSubsequence(a, b) && x in a
    ensures x in b
    decreases |b|
  {
    if a[0] == b[0] && IsSubsequence(a[1..], b[1..]) {
      if x != a[0] { SubsequenceMembers(a[1..], b[1..], x); }
    } else {
      SubsequenceMembers(a, b[1..], x);
    }
  }

  /** `reset_filter`: no filter, every item visible, the first row selected. */
  function Reset<T>(s: TableState<T>): (r: TableState<T>)
    ensures r.filter == Disabled && r.items == s.items && r.visible == s.items && r.selected == Some(0)
  {
    TableState(s.items, s.items, Some(0), Disabled)
  }

  /**
   * `update_filter`: only while the search box is open. The event edits
   * the search text, the visible rows become the items matching it, and
   * the first row is selected.
   */
  function Updated<T(==,!new)>(s: TableState<T>, e: Event, matches: (T, string) -> bool): (r: TableState<T>)
    ensures !s.filter.Input? ==> r == s
    ensures s.filter.Input? ==>
      var text := EditText(s.filter.text, e);
      r == TableState(s.items, Filtered(s.items, matches, text), Some(0), Input(text))
  {
    match s.filter
    case Input(text) =>
      var edited := EditText(text, e);
      TableState(s.items, Filtered(s.items, matches, edited), Some(0), Input(edited))
    case _ => s
  }

  // ---- moving the selection ---------------------------------------------

  /** Rust's usize arithmetic in a release build: subtraction wraps around. */
  const UsizeModulus: int := 0x1_0000_0000_0000_0000

  function UsizeSub(a: nat, b: nat): nat
    requires a < UsizeModulus && b < UsizeModulus
  {
    (a - b) % UsizeModulus
  }

  /** `select_next` as written: `selected < len - 1` computed on usize. */
  function NextSelectionAsWritten(selected: Option<nat>, len: nat): Option<nat>
    requires len < UsizeModulus
  {
    if selected.Some? && selected.value < UsizeSub(len, 1) then Some(selected.value + 1) else selected
  }

  /**
   * With no visible rows and the first row selected (the state a filter
   * that matches nothing leaves), Down moves the selection past the end
   * of the empty list, and each further Down moves it further.
   */
  lemma SelectNextUnderflow()
    ensures NextSelectionAsWritten(Some(0), 0) == Some(1)
    ensures NextSelectionAsWritten(Some(1), 0) == Some(2)
  {
  }

  /** `select_next`, guarded against an empty list as the earlier table is. */
  function NextSelection(selected: Option<nat>, len: nat): (r: Option<nat>)
    ensures r.None? <==> selected.None?
    ensures selected.Some? && selected.value < len ==> r.value < len
    ensures selected.Some? && selected.value + 1 < len ==> r == Some(selected.value + 1)
    ensures selected.Some? && selected.value + 1 >= len ==> r == selected
  {
    if selected.Some? && len > 0 && selected.value < len - 1 then Some(selected.value + 1) else selected
  }

  /** The guard changes nothing as long as there is a visible row. */
  lemma NextSelectionAgreesOnNonEmpty(selected: Option<nat>, len: nat)
    requires 0 < len < UsizeModulus
    ensures NextSelection(selected, len) == NextSelectionAsWritten(selected, len)
  {
  }

  /** `select_previous`: one row up, stopping at the first row. */
  function PreviousSelection(selected: Option<nat>): (r: Option<nat>)
    ensures r.None? <==> selected.None?
    ensures selected.Some? && selected.value > 0 ==> r == Some(selected.value - 1)
    ensures selected == Some(0) ==> r == selected
  {
    if selected.Some? && selected.value > 0 then Some(selected.value - 1) else selected
  }

  function Next<T>(s: TableState<T>): (r: TableState<T>)
    ensures r.items == s.items && r.visible == s.visible && r.filter == s.filter
    ensures r.selected == NextSelection(s.selected, |s.visible|)
  {
    s.(selected := NextSelection(s.selected, |s.visible|))
  }

  function Previous<T>(s: TableState<T>): (r: TableState<T>)
    ensures r.items == s.items && r.visible == s.visible && r.filter == s.filter
    ensures r.selected == PreviousSelection(s.selected)
  {
    s.(selected := PreviousSelection(s.selected))
  }

  /** `show_filter`: an empty, open search box. */
  function Shown<T>(s: TableState<T>): (r: TableState<T>)
    ensures r == s.(filter := Input(""))
  {
    s.(filter := Input(""))
  }

  /** `hide_filter`: an open search box is closed, keeping its text as the applied search. */
  function Hidden<T>(s: TableState<T>): (r: TableState<T>)
    ensures s.filter.Input? ==> r == s.(filter := Value(s.filter.text))
    ensures !s.filter.Input? ==> r == s
  {
    if s.filter.Input? then s.(filter := Value(s.filter.text)) else s
  }

  /**
   * `handle_event`: while the search box is open, Enter closes it and any
   * other event edits the search; then Esc clears an active filter, Up and
   * Down move the selection, and '/' opens an empty search box.
   */
  function AfterEvent<T(==,!new)>(s: TableState<T>, e: Event, matches: (T, string) -> bool): (r: TableState<T>)
    ensures r.items == s.items
  {
    var searched := if IsInput(s.filter) then Updated(if IsEnter(e) then Hidden(s) else s, e, matches) else s;
    if !e.Key? then searched
    else
      match e.code
      case Esc => if IsActive(searched.filter) then Reset(searched) else searched
      case Up => Previous(searched)
      case Down => Next(searched)
      case Char(c) => if c == '/' then Shown(searched) else searched
      case _ => searched
  }

  // ---- properties of the event handling ----------------------------------

  /** Every event keeps the visible rows a subsequence of the items and the selection fitting. */
  lemma AfterEventKeepsValid<T(!new)>(s: TableState<T>, e: Event, matches: (T, string) -> bool)
    requires Valid(s)
    ensures Valid(AfterEvent(s, e, matches))
  {
    SubsequenceReflexive(s.items);
    var closed := if IsEnter(e) then Hidden(s) else s;
    assert Valid(closed);
    var searched := if IsInput(s.filter) then Updated(closed, e, matches) else s;
    assert Valid(searched);
    if e.Key? {
      match e.code
      case Esc => assert Valid(Reset(searched));
      case Up => assert Valid(Previous(searched));
      case Down => assert Valid(Next(searched));
      case Char(c) => assert Valid(Shown(searched));
      case _ =>
    }
  }

  /** Down never moves a selection that names a row past the last row. */
  lemma DownStaysOnARow<T(!new)>(s: TableState<T>, matches: (T, string) -> bool)
    requires !IsInput(s.filter) && s.selected.Some? && s.selected.value < |s.visible|
    ensures var r := AfterEvent(s, Press(Down), matches);
      r.visible == s.visible && r.selected.Some? && r.selected.value < |r.visible|
  {
  }

  /**
   * Up and Down move the selection one row as `Previous` and `Next` do;
   * in the search box they first go to the search, which they leave as it is.
   */
  lemma UpDownMove<T(!new)>(s: TableState<T>, m: (T, string) -> bool)
    ensures !IsInput(s.filter) ==> AfterEvent(s, Press(Up), m) == Previous(s)
    ensures !IsInput(s.filter) ==> AfterEvent(s, Press(Down), m) == Next(s)
    ensures IsInput(s.filter) ==> AfterEvent(s, Press(Up), m) == Previous(Updated(s, Press(Up), m))
    ensures IsInput(s.filter) ==> AfterEvent(s, Press(Down), m) == Next(Updated(s, Press(Down), m))
  {
  }

  /** '/' outside the search box opens an empty one and leaves the rows as they are. */
  lemma SlashOpensSearch<T(!new)>(s: TableState<T>, matches: (T, string) -> bool)
    requires !IsInput(s.filter)
    ensures AfterEvent(s, Press(Char('/')), matches) == s.(filter := Input(""))
  {
  }

  /** Typing in the search box narrows the rows to the items matching the text typed so far. */
  lemma TypingFilters<T(!new)>(s: TableState<T>, c: char, matches: (T, string) -> bool)
    requires s.filter.Input? && c != '/'
    ensures var r := AfterEvent(s, Press(Char(c)), matches);
      && r.filter == Input(s.filter.text + [c])
      && r.visible == Filtered(s.items, matches, s.filter.text + [c])
      && r.selected == Some(0)
  {
  }

  /** Enter in the search box closes it; the search it holds stays applied. */
  lemma EnterKeepsSearch<T(!new)>(s: TableState<T>, matches: (T, string) -> bool)
    requires s.filter.Input?
    ensures AfterEvent(s, Press(Enter), matches) == s.(filter := Value(s.filter.text))
  {
  }

  /** Esc with a filter, open or applied, shows every item again and selects the first row. */
  lemma EscClearsFilter<T(!new)>(s: TableState<T>, matches: (T, string) -> bool)
    requires IsActive(s.filter)
    ensures AfterEvent(s, Press(Esc), matches) == TableState(s.items, s.items, Some(0), Disabled)
  {
  }

  /** Esc with no filter changes nothing. */
  lemma EscWithoutFilter<T(!new)>(s: TableState<T>, matches: (T, string) -> bool)
    requires s.filter == Disabled
    ensures AfterEvent(s, Press(Esc), matches) == s
  {
  }

  /**
   * '/' typed into an open search box is added to the search text and
   * filters the rows, and then reopens the box empty: the rows stay
   * filtered by the text that included the '/'.
   */
  lemma SlashWhileSearching<T(!new)>(s: TableState<T>, matches: (T, string) -> bool)
    requires s.filter.Input?
    ensures var r := AfterEvent(s, Press(Char('/')), matches);
      r.filter == Input("") && r.visible == Filtered(s.items, matches, s.filter.text + "/")
  {
    var e := Press(Char('/'));
    assert EditText(s.filter.text, e) == s.filter.text + "/";
    var u := Updated(s, e, matches);
    assert AfterEvent(s, e, matches) == Shown(u);
  }

  // ---- the page object ----------------------------------------------------

  class TablePage<T(==,!new)> {
    var title: string
    var items: seq<T>
    var visibleItems: seq<T>
    var selected: Option<nat>
    var filter: Filter

    function Model(): TableState<T>
      reads this
    {
      TableState(items, visibleItems, selected, filter)
    }

    constructor (title: string, items: seq<T>)
      ensures this.title == title && Model() == NewTable(items) && Valid(Model())
    {
      this.title := title;
      this.items := items;
      visibleItems := items;
      selected := FirstRow(items);
      filter := Disabled;
      new;
      SubsequenceReflexive(items);
    }

    method SetItems(newItems: seq<T>)
      modifies this
      ensures Model() == WithItems(old(Model()), newItems) && Valid(Model())
      ensures title == old(title)
    {
      items := newItems;
      visibleItems := newItems;
      selected := FirstRow(newItems);
      SubsequenceReflexive(newItems);
    }

    method ResetFilter()
      modifies this
      ensures Model() == Reset(old(Model())) && title == old(title)
    {
      filter := Disabled;
      visibleItems := items;
      selected := Some(0);
    }

    method UpdateFilter(e: Event, matches: (T, string) -> bool)
      modifies this
      ensures Model() == Updated(old(Model()), e, matches) && title == old(title)
    {
      if filter.Input? {
        var value := EditText(filter.text, e);
        filter := Input(value);
        visibleItems := Filtered(items, matches, value);
        selected := Some(0);
      }
    }

    method SelectNext()
      modifies this
      ensures Model() == Next(old(Model())) && title == old(title)
    {
      if selected.Some? {
        if |visibleItems| > 0 && selected.value < |visibleItems| - 1 {
          selected := Some(selected.value + 1);
        }
      }
    }

    method SelectPrevious()
      modifies this
      ensures Model() == Previous(old(Model())) && title == old(title)
    {
      if selected.Some? {
        if selected.value > 0 {
          selected := Some(selected.value - 1);
        }
      }
    }

    method ShowFilter()
      modifies this
      ensures Model() == Shown(old(Model())) && title == old(title)
    {
      filter := Input("");
    }

    method HideFilter()
      modifies this
      ensures Model() == Hidden(old(Model())) && title == old(title)
    {
      if filter.Input? {
        filter := Value(filter.text);
      }
    }

    method HandleEvent(e: Event, matches: (T, string) -> bool)
      modifies this
      ensures Model() == AfterEvent(old(Model()), e, matches) && title == old(title)
    {
      if IsInput(filter) {
        if IsEnter(e) {
          HideFilter();
        }
        UpdateFilter(e, matches);
      }
      if e.Key? {
        match e.code
        case Esc =>
          if IsActive(filter) { ResetFilter(); }
        case Up => SelectPrevious();
        case Down => SelectNext();
        case Char(c) =>
          if c == '/' { ShowFilter(); }
        case _ =>
      }
    }

    function IsFilterInputActive(): (r: bool)
      reads this
      ensures r <==> filter.Input?
    {
      IsInput(filter)
    }
  }
}
