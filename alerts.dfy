/**
 * The earlier generation's alert stack (components/alerts.rs): alerts are
 * pushed at the end, Enter pops the newest, and the oldest is the one
 * drawn.
 */
module AlertStack {
  import opened Wrappers
  import opened Events

  datatype Alert = Alert(title: string, message: string)

  function NewAlert(title: string, message: string): Alert {
    Alert(title, message)
  }

  /** `handle_event` on the stack: with no alert nothing is handled; with one, every event is. */
  function AfterEvent(alerts: seq<Alert>, e: Event): (r: (seq<Alert>, UpdateResult<()>))
    ensures alerts == [] ==> r == (alerts, NotHandled)
    ensures alerts != [] ==> WasHandled(r.1)
    ensures alerts != [] && IsEnter(e) ==> r.0 == alerts[..|alerts| - 1]
    ensures !IsEnter(e) ==> r.0 == alerts
  {
    if alerts == [] then (alerts, NotHandled)
    else if IsEnter(e) then (alerts[..|alerts| - 1], Handled(()))
    else (alerts, Handled(()))
  }

  /** The alerts a page raises for a request: one for a failure, none otherwise. */
  function FailureAlerts<X, E>(reply: Result<X, E>, message: string): (r: seq<Alert>)
    ensures reply.Ok? <==> r == []
    ensures reply.Err? ==> r == [NewAlert("Error", message)]
  {
    if reply.Ok? then [] else [NewAlert("Error", message)]
  }

  /** The alert `render` draws: the first one pushed. */
  function Shown(alerts: seq<Alert>): (r: Option<Alert>)
    ensures r.None? <==> alerts == []
    ensures r.Some? ==> r.value == alerts[0]
  {
    if alerts == [] then None else Some(alerts[0])
  }

  /**
   * With two or more alerts, Enter removes one that is not drawn: the
   * alert on screen stays until it is the only one left.
   */
  lemma EnterKeepsShownAlert(alerts: seq<Alert>)
    requires |alerts| >= 2
    ensures Shown(AfterEvent(alerts, Press(Enter)).0) == Shown(alerts)
    ensures |AfterEvent(alerts, Press(Enter)).0| == |alerts| - 1
  {
  }

  /** Pushing an alert and pressing Enter leaves the stack as it was. */
  lemma PushThenEnter(alerts: seq<Alert>, a: Alert)
    ensures AfterEvent(alerts + [a], Press(Enter)) == (alerts, Handled(()))
  {
    assert (alerts + [a])[..|alerts|] == alerts;
  }

  class Alerts {
    var alerts: seq<Alert>

    constructor ()
      ensures alerts == []
    {
      alerts := [];
    }

    /** `alert`: one alert appended. */
    method Alert(title: string, message: string)
      modifies this
      ensures alerts == old(alerts) + [NewAlert(title, message)]
    {
      alerts := alerts + [NewAlert(title, message)];
    }

    method HandleEvent(e: Event) returns (r: UpdateResult<()>)
      modifies this
      ensures (alerts, r) == AfterEvent(old(alerts), e)
    {
      if alerts == [] {
        return NotHandled;
      }
      if e.Key? && e.code == Enter {
        alerts := alerts[..|alerts| - 1];
      }
      return Handled(());
    }
  }
}
