/**
 * The targets page of the current generation
 * (bountui/components/table/target.rs): the targets of a scope in a table,
 * a connect dialog asking for the local port, and the connection result
 * shown until Enter closes it. Unlike the earlier page, an event is not
 * stopped by the dialog: after the dialog it may close the result, 'c'
 * and 'C' are looked at, and the table sees every event.
 */
module BountuiTargets {
  import opened Wrappers
  import opened Events
  import opened Models
  import opened ItemRules
  import opened Messages
  import BountuiTable
  import InputDialog
  import opened TargetConnect

  datatype PageState = PageState(
    table: BountuiTable.TableState<Target>,
    dialog: Option<ConnectDialog>,
    result: Option<ConnectResponse>)

  predicate DialogValid(s: PageState) {
    s.dialog.Some? ==> InputDialog.Valid(s.dialog.value)
  }

  /** `new`: the targets in a table titled "Targets", no dialog, no result. */
  function NewPage(targets: seq<Target>): (s: PageState)
    ensures s.table == BountuiTable.NewTable(targets) && s.dialog.None? && s.result.None?
  {
    PageState(BountuiTable.NewTable(targets), None, None)
  }

  /** `connection_establised` / `handle_message`: the result is shown; nothing else changes. */
  function WithResult(s: PageState, response: ConnectResponse): (r: PageState)
    ensures r.result == Some(response) && r.table == s.table && r.dialog == s.dialog
  {
    s.(result := Some(response))
  }

  /**
   * `connect_to_target`: with a selected target, a Connect message carries
   * its id and the typed port and the dialog closes; without one, nothing
   * happens and the dialog stays open.
   */
  function ConnectRequest(s: PageState): (r: (PageState, seq<Message>))
    requires BountuiTable.SelectedItem(s.table).Some? ==> s.dialog.Some? && DialogPort(s.dialog.value).Some?
    ensures BountuiTable.SelectedItem(s.table).None? <==> r == (s, [])
    ensures BountuiTable.SelectedItem(s.table).Some? ==>
      r == (s.(dialog := None), [Message.Connect(BountuiTable.SelectedItem(s.table).value.id, DialogPort(s.dialog.value).value)])
  {
    match BountuiTable.SelectedItem(s.table)
    case None => (s, [])
    case Some(t) => (s.(dialog := None), [Message.Connect(t.id, DialogPort(s.dialog.value).value)])
  }

  /** Does the event press Ok in an open dialog while a target is selected? */
  predicate ReachesConnect(s: PageState, e: Event)
    requires DialogValid(s)
  {
    s.dialog.Some? && InputDialog.Step(s.dialog.value, e).1 == Some(OkButton)
      && BountuiTable.SelectedItem(s.table).Some?
  }

  /** The dialog's part of `handle_event`: Cancel closes it, Ok connects. */
  function DialogStep(s: PageState, e: Event): (r: (PageState, seq<Message>))
    requires DialogValid(s)
    requires ReachesConnect(s, e) ==> DialogPort(s.dialog.value).Some?
    ensures DialogValid(r.0) && r.0.table == s.table && r.0.result == s.result
    ensures s.dialog.None? ==> r == (s, [])
    ensures r.1 != [] <==> ReachesConnect(s, e)
    ensures ReachesConnect(s, e) ==>
      r == (s.(dialog := None), [Message.Connect(BountuiTable.SelectedItem(s.table).value.id, DialogPort(s.dialog.value).value)])
    ensures s.dialog.Some? && !ReachesConnect(s, e) ==>
      var (d, pressed) := InputDialog.Step(s.dialog.value, e);
      r.0.dialog == (if pressed == Some(CancelButton) then None else Some(d))
  {
    if s.dialog.None? then (s, [])
    else
      var (d, pressed) := InputDialog.Step(s.dialog.value, e);
      InputDialog.OnlyEnterOnButtonAnswers(s.dialog.value, e);
      var s' := s.(dialog := Some(d));
      match pressed
      case None => (s', [])
      case Some(b) =>
        match b
        case CancelButton => (s'.(dialog := None), [])
        case OkButton => ConnectRequest(s')
  }

  /** 'c' opens a fresh dialog; 'C' asks for the selected target's sessions. */
  function ShortcutStep(s: PageState, e: Event): (r: (PageState, seq<Message>))
    ensures r.0.table == s.table && r.0.result == s.result
    ensures IsKey(e, Char('c')) ==> r == (s.(dialog := Some(NewConnectDialog())), [])
    ensures !IsKey(e, Char('c')) ==> r.0 == s
    ensures r.1 != [] <==> IsKey(e, Char('C')) && BountuiTable.SelectedItem(s.table).Some?
    ensures r.1 != [] ==>
      var t := BountuiTable.SelectedItem(s.table).value;
      r.1 == [ShowSessions(t.scopeId, t.id)]
  {
    if IsKey(e, Char('c')) then (s.(dialog := Some(NewConnectDialog())), [])
    else if IsKey(e, Char('C')) then
      match BountuiTable.SelectedItem(s.table)
      case None => (s, [])
      case Some(t) => (s, [ShowSessions(t.scopeId, t.id)])
    else (s, [])
  }

  /**
   * `handle_event`: the open dialog, then Enter closing a shown result,
   * then the shortcuts, and last the table, which every event reaches.
   */
  function Step(s: PageState, e: Event): (r: (PageState, seq<Message>))
    requires DialogValid(s)
    requires ReachesConnect(s, e) ==> DialogPort(s.dialog.value).Some?
    ensures DialogValid(r.0)
    ensures r.0.table == BountuiTable.AfterEvent(s.table, e, TargetMatches)
    ensures r.0.result == if s.result.Some? && IsEnter(e) then None else s.result
    ensures IsKey(e, Char('c')) ==> r.0.dialog == Some(NewConnectDialog())
    ensures s.dialog.None? && !IsKey(e, Char('c')) ==> r.0.dialog.None?
    ensures ReachesConnect(s, e) ==>
      (r.0.dialog.None? &&
       r.1 == [Message.Connect(BountuiTable.SelectedItem(s.table).value.id, DialogPort(s.dialog.value).value)])
    ensures s.dialog.Some? && !ReachesConnect(s, e) && !IsKey(e, Char('c')) ==>
      var (d, pressed) := InputDialog.Step(s.dialog.value, e);
      r.0.dialog == (if pressed == Some(CancelButton) then None else Some(d))
    ensures IsKey(e, Char('C')) && BountuiTable.SelectedItem(s.table).Some? ==>
      var t := BountuiTable.SelectedItem(s.table).value;
      r.1 == [ShowSessions(t.scopeId, t.id)]
    ensures !ReachesConnect(s, e) && !(IsKey(e, Char('C')) && BountuiTable.SelectedItem(s.table).Some?) ==> r.1 == []
  {
    var (s1, sent1) := DialogStep(s, e);
    var s2 := if s1.result.Some? && IsEnter(e) then s1.(result := None) else s1;
    var (s3, sent3) := ShortcutStep(s2, e);
    InputDialog.OnlyEnterOnButtonAnswers(if s.dialog.Some? then s.dialog.value else NewConnectDialog(), e);
    (s3.(table := BountuiTable.AfterEvent(s3.table, e, TargetMatches)), sent1 + sent3)
  }

  /**
   * 'c' typed into the open dialog's port field is first added to the
   * port, and then the dialog is replaced by a fresh, empty one; the
   * table also sees the 'c' (as search text while its filter is open).
   */
  lemma TypingCResetsDialog(s: PageState)
    requires DialogValid(s) && s.dialog.Some? && s.dialog.value.focus.Field?
    ensures var r := Step(s, Press(Char('c')));
      && r.0.dialog == Some(NewConnectDialog()) && r.1 == []
      && r.0.table == BountuiTable.AfterEvent(s.table, Press(Char('c')), TargetMatches)
  {
    InputDialog.OnlyEnterOnButtonAnswers(s.dialog.value, Press(Char('c')));
  }

  /** Cancel closes the dialog, sends nothing, and Enter also closes a shown result. */
  lemma CancelClosesDialog(s: PageState)
    requires DialogValid(s) && s.dialog.Some? && s.dialog.value.focus.Button?
    requires s.dialog.value.buttons[s.dialog.value.focus.index].id == CancelButton
    ensures var r := Step(s, Press(Enter));
      r.0.dialog.None? && r.0.result.None? && r.1 == []
  {
    InputDialog.OnlyEnterOnButtonAnswers(s.dialog.value, Press(Enter));
  }

  class TargetsPage {
    const table: BountuiTable.TablePage<Target>
    var connectDialog: Option<ConnectDialog>
    var connectResult: Option<ConnectResponse>
    /** The messages sent to the application, oldest first. */
    var outbox: seq<Message>

    function Model(): PageState
      reads this, table
    {
      PageState(table.Model(), connectDialog, connectResult)
    }

    constructor (targets: seq<Target>)
      ensures fresh(table) && table.title == "Targets"
      ensures Model() == NewPage(targets) && outbox == []
    {
      table := new BountuiTable.TablePage("Targets", targets);
      connectDialog := None;
      connectResult := None;
      outbox := [];
    }

    method OpenConnectDialog()
      modifies this
      ensures connectDialog == Some(NewConnectDialog())
      ensures connectResult == old(connectResult) && outbox == old(outbox)
    {
      connectDialog := Some(NewConnectDialog());
    }

    method ConnectToTarget()
      requires BountuiTable.SelectedItem(table.Model()).Some? ==> connectDialog.Some? && DialogPort(connectDialog.value).Some?
      modifies this
      ensures (Model(), outbox) == (ConnectRequest(old(Model())).0, old(outbox) + ConnectRequest(old(Model())).1)
    {
      ghost var s := Model();
      var selected := BountuiTable.SelectedItem(table.Model());
      if selected.Some? {
        var port := DialogPort(connectDialog.value).value;
        outbox := outbox + [Message.Connect(selected.value.id, port)];
        connectDialog := None;
      } else {
        assert outbox == old(outbox) + [];
      }
    }

    method ShowSessions()
      modifies this
      ensures Model() == old(Model())
      ensures var selected := BountuiTable.SelectedItem(table.Model());
        outbox == old(outbox) + (if selected.Some? then [Messages.ShowSessions(selected.value.scopeId, selected.value.id)] else [])
    {
      var selected := BountuiTable.SelectedItem(table.Model());
      if selected.Some? {
        outbox := outbox + [Messages.ShowSessions(selected.value.scopeId, selected.value.id)];
      }
    }

    method HandleEvent(e: Event)
      requires DialogValid(Model())
      requires ReachesConnect(Model(), e) ==> DialogPort(connectDialog.value).Some?
      modifies this, table
      ensures table.title == old(table.title)
      ensures (Model(), outbox) == (Step(old(Model()), e).0, old(outbox) + Step(old(Model()), e).1)
    {
      ghost var s := Model();
      assert old(outbox) + [] == old(outbox);
      if connectDialog.Some? {
        var answer := InputDialog.Step(connectDialog.value, e);
        var d, pressed := answer.0, answer.1;
        InputDialog.OnlyEnterOnButtonAnswers(connectDialog.value, e);
        connectDialog := Some(d);
        if pressed.Some? {
          match pressed.value {
            case CancelButton => connectDialog := None;
            case OkButton => ConnectToTarget();
          }
        }
      }
      assert (Model(), outbox) == (DialogStep(s, e).0, old(outbox) + DialogStep(s, e).1);
      if connectResult.Some? && e.Key? && e.code == Enter {
        connectResult := None;
      }
      if e.Key? {
        match e.code {
          case Char(c) =>
            if c == 'c' {
              OpenConnectDialog();
            } else if c == 'C' {
              ShowSessions();
            }
          case _ =>
        }
      }
      table.HandleEvent(e, TargetMatches);
    }

    method HandleMessage(m: TargetsPageMessage)
      modifies this
      ensures Model() == WithResult(old(Model()), m.response) && outbox == old(outbox)
    {
      match m
      case ConnectedToTarget(response) => connectResult := Some(response);
    }
  }
}
