/** The client-side control state of `MainActivity`: the connection flag,
    the device state tracked from notifications, the enabled-ness of the
    five buttons and the write that a button press produces. */
module Control {
  import opened Wrappers
  import opened Commands

  /** The phases of a cleaning cycle as the app names them. */
  datatype DeviceState =
    | Initial        // arm down, only "swing arm up" offered
    | ArmMovingUp    // arm rising, every button off
    | ArmUp          // arm up, only the two cleaning modes offered
    | Cleaning       // cleaning, every button off
    | CleaningDone   // cleaning over, only "swing arm down" offered
    | ArmMovingDown  // arm lowering, every button off

  /** The two pieces of mutable state the activity keeps. */
  datatype Session = Session(connected: bool, state: DeviceState)

  /** The activity starts disconnected, in `Initial`. */
  const Start := Session(false, Initial)

  /** The `newState` codes of the platform's connection callback. */
  const StateDisconnected: int := 0
  const StateConnected: int := 2

  /** Reaction to a connection-state callback: connect and disconnect set
      the flag, every other code is ignored, the device state is kept. */
  function OnConnChange(s: Session, newState: int): (r: Session)
    ensures r.state == s.state
    ensures newState == StateConnected ==> r.connected
    ensures newState == StateDisconnected ==> !r.connected
    ensures newState != StateConnected && newState != StateDisconnected ==> r == s
  {
    if newState == StateConnected then s.(connected := true)
    else if newState == StateDisconnected then s.(connected := false)
    else s
  }

  /** The status reports the device sends on the "complete"
      characteristic, as the app's log messages name them. */
  datatype Report = SwingUpComplete | SwingDownComplete | CleaningEnd {
    /** The first byte that carries the report. */
    function Code(): (b: Int8) {
      match this
      case SwingUpComplete => 1
      case SwingDownComplete => 2
      case CleaningEnd => 3
    }

    /** The state the app moves to on the report. */
    function Target(): (st: DeviceState) {
      match this
      case SwingUpComplete => ArmUp
      case SwingDownComplete => Initial
      case CleaningEnd => CleaningDone
    }
  }

  /** The handler reads `value[0]` without a length check; on an empty
      payload that read fails before any state is assigned. */
  datatype Fault = EmptyPayload

  /** Reaction to a notification: on the complete characteristic the first
      byte, when it is a report code, selects the new state; any other
      byte, and any other characteristic, leaves the state alone. */
  function OnNotify(st: DeviceState, fromComplete: bool, value: seq<Int8>): (r: Result<DeviceState, Fault>)
    ensures r.Failure? <==> fromComplete && |value| == 0
    ensures !fromComplete ==> r == Success(st)
    ensures forall rep: Report | fromComplete && |value| > 0 && value[0] == rep.Code() ::
              r == Success(rep.Target())
    ensures fromComplete && |value| > 0 && (forall rep: Report :: value[0] != rep.Code()) ==>
              r == Success(st)
  {
    if !fromComplete then Success(st)
    else if |value| == 0 then Failure(EmptyPayload)
    else
      var received := value[0] as int;
      if received == 1 then assert value[0] == SwingUpComplete.Code(); Success(ArmUp)
      else if received == 2 then assert value[0] == SwingDownComplete.Code(); Success(Initial)
      else if received == 3 then assert value[0] == CleaningEnd.Code(); Success(CleaningDone)
      else Success(st)
  }

  /** The `enabled` guard of each button; no button issues `Unknown`.
      Nothing is enabled while disconnected, power off is enabled exactly
      while connected, and every other button only in a state the
      enumeration's comments offer it in. */
  function Enabled(s: Session, c: Command): (on: bool)
    ensures on ==> s.connected && c.IsKnown()
    ensures c == PowerOff ==> (on <==> s.connected)
    ensures on && c != PowerOff ==> c in Offered(s.state)
  {
    match c
    case SwingUp => s.connected && s.state == Initial
    case NormalMode => s.connected && s.state == ArmUp
    case QuickMode => s.connected && s.state == ArmUp
    case SwingDown => s.connected && s.state == CleaningDone
    case PowerOff => s.connected
    case Unknown => false
  }

  /** The commands each state offers according to the comments on the
      state enumeration; power off is not mentioned there. */
  function Offered(st: DeviceState): (cs: set<Command>) {
    match st
    case Initial => {SwingUp}
    case ArmUp => {NormalMode, QuickMode}
    case CleaningDone => {SwingDown}
    case ArmMovingUp => {}
    case Cleaning => {}
    case ArmMovingDown => {}
  }

  /** The bytes a call of `sendBluetoothCommand` writes, if any. Nothing is
      written while disconnected, nor when the control characteristic was
      not found; otherwise the label's vector is written. The session is
      not an output: sending never changes the connection or device state. */
  function Send(s: Session, name: string, controlFound: bool): (r: Option<seq<Int8>>)
    ensures r.Some? <==> s.connected && controlFound
    ensures r.Some? ==> |r.value| == Width
    ensures forall c: Command | c.IsKnown() && r.Some? ::
              name == c.Label() <==> OneHotAt(r.value, c.Slot())
    ensures r.Some? && Parse(name) == Unknown ==> AllZero(r.value)
  {
    if !s.connected then None
    else if !controlFound then None
    else Some(EncodeLabel(name))
  }

  /** The buttons agree with the enumeration's comments: while connected,
      exactly the commands the state offers plus power off are enabled;
      while disconnected, nothing is. */
  lemma EnabledMatchesOffered(s: Session, c: Command)
    ensures Enabled(s, c) <==> s.connected && (c == PowerOff || c in Offered(s.state))
  {
  }

  /** At most one of the groups {swing up}, {normal, quick} and
      {swing down} is enabled in any session. */
  lemma GuardsExclusive(s: Session)
    ensures !(Enabled(s, SwingUp) && (Enabled(s, NormalMode) || Enabled(s, QuickMode)))
    ensures !(Enabled(s, SwingUp) && Enabled(s, SwingDown))
    ensures !(Enabled(s, SwingDown) && (Enabled(s, NormalMode) || Enabled(s, QuickMode)))
  {
  }

  /** In the three transient states only power off is enabled. */
  lemma TransientOnlyPowerOff(s: Session, c: Command)
    requires s.state in {ArmMovingUp, Cleaning, ArmMovingDown}
    ensures Enabled(s, c) <==> s.connected && c == PowerOff
  {
  }
}
