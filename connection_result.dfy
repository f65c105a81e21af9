/**
 * The dialog showing the credentials of an established connection
 * (bountui/components/connection_result_dialog.rs): a table of credentials
 * in which 'u' and 'p' copy the selected username or password to the
 * clipboard. The clipboard is outside the model: what the dialog writes to
 * it is recorded, and whether the write succeeded is a parameter.
 */
module ConnectionResult {
  import opened Wrappers
  import opened Events
  import opened Models
  import opened ItemRules
  import opened Messages
  import BountuiTable

  datatype DialogAction = Close | CopyUsername | CopyPassword

  /** Close is always offered; the copy actions need a selected credential. */
  function IsActionEnabled<T>(a: DialogAction, selected: Option<T>): (r: bool)
    ensures a == Close ==> r
    ensures a != Close ==> (r <==> selected.Some?)
  {
    match a
    case Close => true
    case _ => selected.Some?
  }

  datatype CopyField = Username | Password

  /** 'u' and 'p' with no modifier held. */
  function CopyKey(e: Event): (r: Option<CopyField>)
    ensures r.Some? ==> e.Key? && e.modifiers == {}
    ensures r == Some(Username) <==> e == Press(Char('u'))
    ensures r == Some(Password) <==> e == Press(Char('p'))
  {
    if e.Key? && e.modifiers == {} && e.code == Char('u') then Some(Username)
    else if e.Key? && e.modifiers == {} && e.code == Char('p') then Some(Password)
    else None
  }

  function FieldText(c: CredentialEntry, f: CopyField): string {
    match f
    case Username => c.credential.username
    case Password => c.credential.password
  }

  /** The alert a failed copy sends. */
  function CopyFailed(f: CopyField, error: string): (m: Message)
    ensures m.ShowAlert? && m.title == "Clipboard Error"
    ensures f == Username ==> m.message == "Failed to copy username: " + error
    ensures f == Password ==> m.message == "Failed to copy password: " + error
  {
    match f
    case Username => ShowAlert("Clipboard Error", "Failed to copy username: " + error)
    case Password => ShowAlert("Clipboard Error", "Failed to copy password: " + error)
  }

  /**
   * `copy_selected_*_to_clipboard`: with a selected credential, its field
   * is written to the clipboard, and a failed write sends one alert;
   * without a selection nothing happens.
   */
  function Copy(t: BountuiTable.TableState<CredentialEntry>, f: CopyField, clipboard: Result<(), string>)
    : (r: (Option<string>, seq<Message>))
    ensures BountuiTable.SelectedItem(t).None? ==> r == (None, [])
    ensures BountuiTable.SelectedItem(t).Some? ==> r.0 == Some(FieldText(BountuiTable.SelectedItem(t).value, f))
    ensures BountuiTable.SelectedItem(t).Some? ==>
      r.1 == if clipboard.Err? then [CopyFailed(f, clipboard.error)] else []
  {
    match BountuiTable.SelectedItem(t)
    case None => (None, [])
    case Some(c) =>
      match clipboard
      case Ok(_) => (Some(FieldText(c, f)), [])
      case Err(error) => (Some(FieldText(c, f)), [CopyFailed(f, error)])
  }

  /**
   * `handle_event`: 'u' or 'p' copies from the row selected before the
   * event, and then the table has the event as well. `r.1` is what was
   * written to the clipboard, `r.2` what was sent.
   */
  function Step(t: BountuiTable.TableState<CredentialEntry>, e: Event, clipboard: Result<(), string>)
    : (r: (BountuiTable.TableState<CredentialEntry>, Option<string>, seq<Message>))
    ensures r.0 == BountuiTable.AfterEvent(t, e, CredentialMatches)
    ensures r.1.Some? <==> CopyKey(e).Some? && BountuiTable.SelectedItem(t).Some?
    ensures r.1.Some? ==> r.1.value == FieldText(BountuiTable.SelectedItem(t).value, CopyKey(e).value)
    ensures r.2 != [] <==> r.1.Some? && clipboard.Err?
    ensures r.2 != [] ==> r.2 == [CopyFailed(CopyKey(e).value, clipboard.error)]
  {
    var (written, sent) := match CopyKey(e)
      case None => (None, [])
      case Some(f) => Copy(t, f, clipboard);
    (BountuiTable.AfterEvent(t, e, CredentialMatches), written, sent)
  }

  class ConnectionResultDialog {
    const table: BountuiTable.TablePage<CredentialEntry>
    /** The texts written to the clipboard, oldest first. */
    var clipboardWrites: seq<string>
    /** The messages sent to the application, oldest first. */
    var outbox: seq<Message>

    /** `new`: the response's credentials in a table titled "Credentials". */
    constructor (response: ConnectResponse)
      ensures fresh(table) && table.title == "Credentials"
      ensures table.Model() == BountuiTable.NewTable(response.credentials)
      ensures clipboardWrites == [] && outbox == []
    {
      table := new BountuiTable.TablePage("Credentials", response.credentials);
      clipboardWrites := [];
      outbox := [];
    }

    method CopySelected(f: CopyField, clipboard: Result<(), string>)
      modifies this
      ensures var (written, sent) := Copy(table.Model(), f, clipboard);
        && clipboardWrites == old(clipboardWrites) + (if written.Some? then [written.value] else [])
        && outbox == old(outbox) + sent
    {
      var selected := BountuiTable.SelectedItem(table.Model());
      if selected.Some? {
        clipboardWrites := clipboardWrites + [FieldText(selected.value, f)];
        if clipboard.Err? {
          outbox := outbox + [CopyFailed(f, clipboard.error)];
        } else {
          assert outbox == old(outbox) + [];
        }
      } else {
        assert outbox == old(outbox) + [] && clipboardWrites == old(clipboardWrites) + [];
      }
    }

    /** `handle_event`; `clipboard` is how a write to the clipboard, should the event make one, turns out. */
    method HandleEvent(e: Event, clipboard: Result<(), string>)
      modifies this, table
      ensures table.title == old(table.title)
      ensures var (t, written, sent) := Step(old(table.Model()), e, clipboard);
        && table.Model() == t
        && clipboardWrites == old(clipboardWrites) + (if written.Some? then [written.value] else [])
        && outbox == old(outbox) + sent
    {
      if e.Key? && e.modifiers == {} {
        match e.code {
          case Char(c) =>
            if c == 'u' {
              CopySelected(Username, clipboard);
            } else if c == 'p' {
              CopySelected(Password, clipboard);
            } else {
              assert outbox == old(outbox) + [] && clipboardWrites == old(clipboardWrites) + [];
            }
          case _ =>
            assert outbox == old(outbox) + [] && clipboardWrites == old(clipboardWrites) + [];
        }
      } else {
        assert outbox == old(outbox) + [] && clipboardWrites == old(clipboardWrites) + [];
      }
      table.HandleEvent(e, CredentialMatches);
    }
  }
}
