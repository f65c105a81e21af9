/**
 * The messages the current generation's components send to the
 * application (bountui/mod.rs and the page modules). Sending a message is
 * modelled as appending it to an outbox.
 */
module Messages {
  import opened Wrappers
  import opened Text
  import opened Models

  datatype TargetsPageMessage = ConnectedToTarget(response: ConnectResponse)

  datatype SessionsPageMessage = SessionsLoaded(sessions: seq<SessionWithTarget>)

  datatype Message =
    | ShowScopes(parent: Option<string>)
    | ShowTargets(parent: Option<string>)
    | ShowSessions(scope: string, targetId: string)
    | GoBack
    | Connect(targetId: string, port: u16)
    | StopSession(sessionId: string)
    | ShowAlert(title: string, message: string)
    | CloseAlert
    | Targets(targetsMessage: TargetsPageMessage)
    | SessionsPage(sessionsMessage: SessionsPageMessage)
    | NavigateToScopeTree
    | NavigateToMySessions

  /**
   * The variants bountui/mod.rs itself declares and dispatches; the last
   * three are sent by components written against a later version of the
   * enum.
   */
  predicate DeclaredByApp(m: Message) {
    !(m.SessionsPage? || m.NavigateToScopeTree? || m.NavigateToMySessions?)
  }

  /** `Message::show_error`: an "Error" alert whose text is the context, ": " and the error. */
  function ShowError(context: string, error: string): (m: Message)
    ensures m.ShowAlert? && m.title == "Error"
    ensures |m.message| == |context| + 2 + |error|
    ensures m.message[..|context|] == context
    ensures m.message[|context|..|context| + 2] == ": "
    ensures m.message[|context| + 2..] == error
  {
    ShowAlert("Error", context + ": " + error)
  }
}
