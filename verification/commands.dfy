/** The five control commands of the shoe cleaner and their wire format.

    The app identifies a command by a string name (the argument of
    `sendBluetoothCommand`) and writes it to the control characteristic as a
    five-byte vector with a single 1 at the command's slot. A name the
    table does not know is written as five zero bytes. */
module Commands {
  import opened Wrappers

  /** A JVM `Byte`: signed, eight bits. */
  newtype Int8 = x: int | -128 <= x < 128

  /** Number of bytes in every command vector. */
  const Width: nat := 5

  datatype Command =
    | PowerOff
    | NormalMode
    | QuickMode
    | SwingUp
    | SwingDown
    | Unknown   // any name outside the table
  {
    predicate IsKnown() {
      !Unknown?
    }

    /** Position of the single 1 in the command's vector. */
    function Slot(): (k: nat)
      requires IsKnown()
      ensures k < Width
    {
      match this
      case PowerOff => 0
      case NormalMode => 1
      case QuickMode => 2
      case SwingUp => 3
      case SwingDown => 4
    }

    /** The string name the UI passes for this command. */
    function Label(): (name: string)
      requires IsKnown()
    {
      match this
      case PowerOff => "POWER_OFF"
      case NormalMode => "NORMAL_MODE"
      case QuickMode => "QUICK_MODE"
      case SwingUp => "SWING_UP"
      case SwingDown => "SWING_DOWN"
    }
  }

  /** The recognised command whose vector has its 1 at slot `k`. */
  function AtSlot(k: nat): (c: Command)
    requires k < Width
    ensures c.IsKnown() && c.Slot() == k
  {
    if k == 0 then PowerOff
    else if k == 1 then NormalMode
    else if k == 2 then QuickMode
    else if k == 3 then SwingUp
    else SwingDown
  }

  /** `b` is a command-sized vector whose only nonzero byte is a 1 at `k`. */
  predicate OneHotAt(b: seq<Int8>, k: nat) {
    && |b| == Width
    && k < Width
    && forall j | 0 <= j < |b| :: b[j] == if j == k then 1 else 0
  }

  /** `b` is a command-sized vector of zero bytes. */
  predicate AllZero(b: seq<Int8>) {
    |b| == Width && forall j | 0 <= j < |b| :: b[j] == 0
  }

  /** Maps a name to its command; every other string is `Unknown`. */
  function Parse(name: string): (c: Command)
    ensures c.IsKnown() ==> c.Label() == name
    ensures c == Unknown <==> name !in {"POWER_OFF", "NORMAL_MODE", "QUICK_MODE", "SWING_UP", "SWING_DOWN"}
  {
    if name == "POWER_OFF" then PowerOff
    else if name == "NORMAL_MODE" then NormalMode
    else if name == "QUICK_MODE" then QuickMode
    else if name == "SWING_UP" then SwingUp
    else if name == "SWING_DOWN" then SwingDown
    else Unknown
  }

  /** The bytes written for a command: the table of `sendBluetoothCommand`. */
  function Encode(c: Command): (b: seq<Int8>)
    ensures c.IsKnown() ==> OneHotAt(b, c.Slot())
    ensures c == Unknown ==> AllZero(b)
  {
    match c
    case PowerOff => [1, 0, 0, 0, 0]
    case NormalMode => [0, 1, 0, 0, 0]
    case QuickMode => [0, 0, 1, 0, 0]
    case SwingUp => [0, 0, 0, 1, 0]
    case SwingDown => [0, 0, 0, 0, 1]
    case Unknown => [0, 0, 0, 0, 0]
  }

  /** The bytes written for a name. */
  function EncodeLabel(name: string): (b: seq<Int8>)
    ensures |b| == Width
    ensures forall c: Command | c.IsKnown() :: name == c.Label() <==> OneHotAt(b, c.Slot())
    ensures name !in {"POWER_OFF", "NORMAL_MODE", "QUICK_MODE", "SWING_UP", "SWING_DOWN"} <==> AllZero(b)
  {
    var c := Parse(name);
    assert c.IsKnown() ==> !AllZero(Encode(c)) by {
      if c.IsKnown() {
        assert Encode(c)[c.Slot()] == 1;
      }
    }
    forall d: Command | d.IsKnown()
      ensures name == d.Label() <==> OneHotAt(Encode(c), d.Slot())
    {
      if OneHotAt(Encode(c), d.Slot()) {
        OneHotUnique(Encode(c), c, d);
      }
    }
    Encode(c)
  }

  /** The labels of distinct recognised commands are distinct, so parsing
      a command's name gives the command back. */
  lemma ParseLabel(c: Command)
    requires c.IsKnown()
    ensures Parse(c.Label()) == c
  {
  }

  /** Two recognised commands whose vectors agree are the same command;
      an `Unknown` vector is never one-hot. */
  lemma OneHotUnique(b: seq<Int8>, c: Command, d: Command)
    requires c == Unknown ==> AllZero(b)
    requires c.IsKnown() ==> OneHotAt(b, c.Slot())
    requires d.IsKnown() && OneHotAt(b, d.Slot())
    ensures c == d
  {
    assert b[d.Slot()] == 1;
  }

  /** Different commands, including `Unknown`, are written as different
      byte vectors. */
  lemma EncodeInjective(c: Command, d: Command)
    requires Encode(c) == Encode(d)
    ensures c == d
  {
  }

  /** Recovers the command from the bytes written for it, and rejects every
      vector that is no command's encoding. */
  method Decode(b: seq<Int8>) returns (r: Option<Command>)
    ensures forall c :: r == Some(c) <==> Encode(c) == b
  {
    if |b| != Width {
      return None;
    }
    var hot: Option<nat> := None;
    var i := 0;
    while i < |b|
      invariant 0 <= i <= |b|
      invariant hot.Some? ==> hot.value < i && b[hot.value] == 1
      invariant forall j | 0 <= j < i :: b[j] == 0 || hot == Some(j)
    {
      if b[i] != 0 {
        if b[i] != 1 || hot.Some? {
          return None;
        }
        hot := Some(i);
      }
      i := i + 1;
    }
    if hot.None? {
      r := Some(Unknown);
      assert AllZero(b);
    } else {
      r := Some(AtSlot(hot.value));
      assert OneHotAt(b, hot.value);
    }
    forall c | Encode(c) == b
      ensures r == Some(c)
    {
      EncodeInjective(c, r.value);
    }
  }
}
