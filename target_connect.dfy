/**
 * What both generations' targets pages offer for a target (the
 * `is_enabled` / `is_action_enabled` of components/table/target/mod.rs and
 * bountui/components/table/target.rs): connecting, which asks for a local
 * port in a dialog, and showing the target's sessions.
 */
module TargetConnect {
  import opened Wrappers
  import opened Models
  import opened Text
  import InputDialog

  datatype Command = Connect | ShowConnections

  /** Connecting needs "authorize-session"; the sessions can always be shown. */
  function IsEnabled(t: Target, c: Command): (r: bool)
    ensures c == ShowConnections ==> r
    ensures c == Connect ==> (r <==> "authorize-session" in t.authorizedActions)
  {
    match c
    case Connect => CanConnect(t)
    case ShowConnections => true
  }

  datatype ConnectField = ListenPort
  datatype ConnectButton = CancelButton | OkButton

  type ConnectDialog = InputDialog.DialogState<ConnectField, ConnectButton>

  /** The dialog both pages open: an empty "Listen Port" field above Cancel and Ok, the field focused. */
  function NewConnectDialog(): (d: ConnectDialog)
    ensures InputDialog.Valid(d) && d.focus == InputDialog.Field(0)
    ensures InputDialog.GetValue(d.fields, ListenPort) == Some("")
    ensures |d.fields| == 1 && d.fields[0].id == ListenPort && d.fields[0].title == "Listen Port"
    ensures |d.buttons| == 2 && d.buttons[0].id == CancelButton && d.buttons[1].id == OkButton
  {
    InputDialog.NewDialog(
      [InputDialog.InputField(ListenPort, "Listen Port", "")],
      [InputDialog.DialogButton(CancelButton, "Cancel"), InputDialog.DialogButton(OkButton, "Ok")])
  }

  /** The port the pages read from the dialog, when the field is there and parses. */
  function DialogPort(d: ConnectDialog): (r: Option<u16>)
    ensures InputDialog.GetValue(d.fields, ListenPort).None? ==> r.None?
    ensures InputDialog.GetValue(d.fields, ListenPort).Some? ==> r == ParseU16(InputDialog.GetValue(d.fields, ListenPort).value)
  {
    match InputDialog.GetValue(d.fields, ListenPort)
    case None => None
    case Some(v) => ParseU16(v)
  }
}
