/** The activity as a sequential event loop: connection callbacks,
    notifications, screen redraws and button presses, applied one after
    another, with the byte vectors written to the device collected.

    The buttons' `enabled` guards are read when the screen is drawn, not
    when it is tapped. A state change schedules a redraw, and a tap that
    lands before it is judged by the screen as last drawn. So the app keeps
    two sessions: the live one the callbacks update, and the drawn one the
    buttons show. */
module Trace {
  import opened Wrappers
  import opened Commands
  import opened Control

  /** The live session, and the session the screen was last drawn from. */
  datatype App = App(live: Session, drawn: Session)

  /** The activity at launch: disconnected, `Initial`, drawn as such. */
  const Launch := App(Start, Start)

  datatype Event =
    | ConnChange(newState: int)
    | Notify(fromComplete: bool, value: seq<Int8>)
    | Redraw                                      // the screen recomposes
    | Press(button: Command, controlFound: bool)  // a tap on a button

  /** The app after one event and the vector written, if any. */
  datatype Outcome = Outcome(app: App, written: Option<seq<Int8>>)

  /** The app after a run of events and the vectors written in order. */
  datatype Log = Log(app: App, writes: seq<seq<Int8>>)

  /** A state the app can reach from `Initial`. */
  predicate Settled(st: DeviceState) {
    st == Initial || st == ArmUp || st == CleaningDone
  }

  /** Both the live and the drawn state are settled. */
  predicate AppSettled(a: App) {
    Settled(a.live.state) && Settled(a.drawn.state)
  }

  /** `b` is the vector of some recognised command. */
  predicate IsCommandVector(b: seq<Int8>) {
    exists k: nat | k < Width :: OneHotAt(b, k)
  }

  /** One event. A tap reaches `sendBluetoothCommand` only if the button
      was enabled on the drawn screen; that call then re-checks only the
      live connection flag. A notification whose handler fails leaves the
      app as it was. */
  function Step(a: App, e: Event): (o: Outcome)
    ensures e.Press? ==> o.app == a
    ensures e.Redraw? ==> o.app == App(a.live, a.live)
    ensures !e.Redraw? ==> o.app.drawn == a.drawn
    ensures e.Notify? ==> o.app.live.connected == a.live.connected
    ensures e.ConnChange? ==> o.app.live.state == a.live.state
    ensures o.written.Some? ==> e.Press? && a.live.connected && Enabled(a.drawn, e.button)
    ensures o.written.Some? ==> OneHotAt(o.written.value, e.button.Slot())
    ensures e.Press? && Enabled(a.drawn, e.button) && a.live.connected && e.controlFound ==>
              o.written.Some?
  {
    match e
    case ConnChange(n) => Outcome(a.(live := OnConnChange(a.live, n)), None)
    case Notify(fromComplete, value) =>
      (match OnNotify(a.live.state, fromComplete, value)
       case Success(st) => Outcome(a.(live := a.live.(state := st)), None)
       case Failure(_) => Outcome(a, None))
    case Redraw => Outcome(a.(drawn := a.live), None)
    case Press(c, controlFound) =>
      if Enabled(a.drawn, c) then
        Outcome(a, Send(a.live, c.Label(), controlFound))
      else
        Outcome(a, None)
  }

  /** Applies the events in order. */
  function Run(a: App, es: seq<Event>): (r: Log)
    decreases |es|
  {
    if |es| == 0 then Log(a, [])
    else
      var o := Step(a, es[0]);
      var rest := Run(o.app, es[1..]);
      Log(rest.app, (if o.written.Some? then [o.written.value] else []) + rest.writes)
  }

  /** Appending an event to a run applies one more step to its end. */
  lemma {:induction false} RunSnoc(a: App, es: seq<Event>, e: Event)
    ensures Run(a, es + [e]).app == Step(Run(a, es).app, e).app
    decreases |es|
  {
    if |es| == 0 {
      assert es + [e] == [e];
    } else {
      assert (es + [e])[0] == es[0];
      assert (es + [e])[1..] == es[1..] + [e];
      RunSnoc(Step(a, es[0]).app, es[1..], e);
    }
  }

  /** The connection flag a callback code sets, if any. */
  function LinkOf(e: Event): (r: Option<bool>) {
    if e.ConnChange? && e.newState == StateConnected then Some(true)
    else if e.ConnChange? && e.newState == StateDisconnected then Some(false)
    else None
  }

  /** The flag set by the latest connect or disconnect callback of a run,
      found by scanning backwards. */
  function LastLink(es: seq<Event>): (r: Option<bool>)
    decreases |es|
  {
    if |es| == 0 then None
    else if LinkOf(es[|es| - 1]).Some? then LinkOf(es[|es| - 1])
    else LastLink(es[..|es| - 1])
  }

  /** The report a notification carries, if it is on the complete
      characteristic and its first byte is a report code. */
  ghost function ReportOf(e: Event): (r: Option<Report>) {
    if e.Notify? && e.fromComplete && |e.value| > 0 && exists rep: Report :: rep.Code() == e.value[0] then
      Some(var rep: Report :| rep.Code() == e.value[0]; rep)
    else None
  }

  /** The latest report of a run, found by scanning backwards. */
  ghost function LastReport(es: seq<Event>): (r: Option<Report>)
    decreases |es|
  {
    if |es| == 0 then None
    else if ReportOf(es[|es| - 1]).Some? then ReportOf(es[|es| - 1])
    else LastReport(es[..|es| - 1])
  }

  /** The live connection flag after a run is the one the latest connect
      or disconnect callback set, or the starting flag if there was none. */
  lemma {:induction false} RunTracksLastLink(a: App, es: seq<Event>)
    ensures Run(a, es).app.live.connected ==
            (if LastLink(es).Some? then LastLink(es).value else a.live.connected)
    decreases |es|
  {
    if |es| > 0 {
      var init := es[..|es| - 1];
      var e := es[|es| - 1];
      assert es == init + [e];
      RunSnoc(a, init, e);
      RunTracksLastLink(a, init);
    }
  }

  /** The live device state after a run is the target of the latest report
      notification, or the starting state if there was none: presses,
      redraws, connection changes, other bytes and other characteristics
      do not move it. */
  lemma {:induction false} RunTracksLastReport(a: App, es: seq<Event>)
    ensures Run(a, es).app.live.state ==
            (if LastReport(es).Some? then LastReport(es).value.Target() else a.live.state)
    decreases |es|
  {
    if |es| > 0 {
      var init := es[..|es| - 1];
      var e := es[|es| - 1];
      assert es == init + [e];
      RunSnoc(a, init, e);
      RunTracksLastReport(a, init);
    }
  }

  /** No event moves a settled app to an unsettled one. */
  lemma StepSettled(a: App, e: Event)
    requires AppSettled(a)
    ensures AppSettled(Step(a, e).app)
  {
  }

  /** Reachability: from a settled app, every run of events ends in one,
      live and drawn; the three transient states are never entered. */
  lemma {:induction false} RunSettled(a: App, es: seq<Event>)
    requires AppSettled(a)
    ensures AppSettled(Run(a, es).app)
    decreases |es|
  {
    if |es| > 0 {
      StepSettled(a, es[0]);
      RunSettled(Step(a, es[0]).app, es[1..]);
    }
  }

  /** From launch, no run of events ever enters `ArmMovingUp`, `Cleaning`
      or `ArmMovingDown`, neither live nor on screen. */
  lemma TransientUnreachable(es: seq<Event>)
    ensures Run(Launch, es).app.live.state !in {ArmMovingUp, Cleaning, ArmMovingDown}
    ensures Run(Launch, es).app.drawn.state !in {ArmMovingUp, Cleaning, ArmMovingDown}
  {
    RunSettled(Launch, es);
  }

  /** The invariant is tight: each settled state is reached by some run
      from launch. */
  lemma SettledReachable(st: DeviceState)
    requires Settled(st)
    ensures exists es :: Run(Launch, es).app.live.state == st
  {
    var up := Notify(true, [SwingUpComplete.Code()]);
    var done := Notify(true, [CleaningEnd.Code()]);
    if st == Initial {
      assert Run(Launch, []).app.live.state == st;
    } else if st == ArmUp {
      assert Run(Launch, [up]).app.live.state == st;
    } else {
      assert Run(Launch, [done]).app.live.state == st;
    }
  }

  /** Right after a redraw, a tap writes exactly when its button's guard
      holds for the live session and the characteristic was found. */
  lemma RedrawThenPress(a: App, c: Command, controlFound: bool)
    ensures Step(Step(a, Redraw).app, Press(c, controlFound)).written.Some? <==>
            Enabled(a.live, c) && controlFound
  {
  }

  /** A tap between a state change and the redraw it schedules is judged
      by the stale screen: swing-up is still sent after the arm reported
      it is up, and is not sent once the screen has caught up. */
  lemma StaleScreenPress()
    ensures var a := App(Session(true, Initial), Session(true, Initial));
            var up := Notify(true, [SwingUpComplete.Code()]);
            && Run(a, [up, Press(SwingUp, true)]).writes == [Encode(SwingUp)]
            && Run(a, [up, Redraw, Press(SwingUp, true)]).writes == []
  {
    var a := App(Session(true, Initial), Session(true, Initial));
    var up := Notify(true, [SwingUpComplete.Code()]);
    var tap := Press(SwingUp, true);
    var b := Step(a, up).app;
    assert b == App(Session(true, ArmUp), Session(true, Initial));
    assert Run(b, [tap]).writes == [Encode(SwingUp)];
    assert [up, tap][1..] == [tap];
    var c := Step(b, Redraw).app;
    assert Run(c, [tap]).writes == [];
    assert [Redraw, tap][1..] == [tap];
    assert Run(b, [Redraw, tap]).writes == [];
    assert [up, Redraw, tap][1..] == [Redraw, tap];
  }

  /** Every vector a run writes is the one-hot vector of a recognised
      command: the all-zero vector of an unknown label is never sent. */
  lemma {:induction false} RunWritesCommands(a: App, es: seq<Event>)
    ensures forall i | 0 <= i < |Run(a, es).writes| :: IsCommandVector(Run(a, es).writes[i])
    decreases |es|
  {
    if |es| > 0 {
      var o := Step(a, es[0]);
      RunWritesCommands(o.app, es[1..]);
      if o.written.Some? {
        assert OneHotAt(o.written.value, es[0].button.Slot());
      }
    }
  }

  /** A run writes at most one vector per event. */
  lemma {:induction false} RunWritesAtMostOnePerEvent(a: App, es: seq<Event>)
    ensures |Run(a, es).writes| <= |es|
    decreases |es|
  {
    if |es| > 0 {
      RunWritesAtMostOnePerEvent(Step(a, es[0]).app, es[1..]);
    }
  }

  /** While the app stays disconnected a run writes nothing, whatever the
      screen shows. */
  lemma {:induction false} RunWritesOnlyWhenConnected(a: App, es: seq<Event>)
    requires !a.live.connected
    requires forall i | 0 <= i < |es| :: !es[i].ConnChange?
    ensures Run(a, es).writes == []
    ensures !Run(a, es).app.live.connected
    decreases |es|
  {
    if |es| > 0 {
      RunWritesOnlyWhenConnected(Step(a, es[0]).app, es[1..]);
    }
  }

  /** In a settled state, a connected user always has a button other than
      power off: the cycle never gets stuck. */
  lemma NoDeadEnd(s: Session)
    requires s.connected && Settled(s.state)
    ensures exists c: Command :: c != PowerOff && Enabled(s, c)
  {
    if s.state == Initial {
      assert Enabled(s, SwingUp);
    } else if s.state == ArmUp {
      assert Enabled(s, NormalMode);
    } else {
      assert Enabled(s, SwingDown);
    }
  }
}
