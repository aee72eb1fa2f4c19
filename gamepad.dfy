/** The gamepad manager: stick, trigger and button state fed by raw joystick
    events, "just pressed" flags that a read clears, the POV hat decoded into
    D-pad directions, and a deadzone on the sticks. */
module Gamepad {
  import opened Common
  import opened Text

  const Deadzone: real := 0.15

  datatype Button = A | B | X | Y | LeftBumper | RightBumper | Back | Start
                  | DpadUp | DpadDown | DpadLeft | DpadRight

  /** The buttons with a just-pressed flag of their own; the bumpers have none. */
  predicate Tracked(b: Button)
  {
    b != LeftBumper && b != RightBumper
  }

  predicate IsDpad(b: Button)
  {
    b == DpadUp || b == DpadDown || b == DpadLeft || b == DpadRight
  }

  /** The manager's fields; a button is in pressed when its ...Pressed field is
      true, and in justPressed when its ...JustPressed field is. */
  datatype PadState = PadState(
    leftStickX: real, leftStickY: real, rightStickX: real, rightStickY: real,
    leftTrigger: real, rightTrigger: real,
    pressed: set<Button>, justPressed: set<Button>,
    rightTriggerJustPressed: bool, rightTriggerWasPressed: bool,
    controllerConnected: bool)

  function InitialPad(): (s: PadState)
    ensures s.pressed == {} && s.justPressed == {} && !s.rightTriggerJustPressed && !s.rightTriggerWasPressed
    ensures !s.controllerConnected
  {
    PadState(0.0, 0.0, 0.0, 0.0, 0.0, 0.0, {}, {}, false, false, false)
  }

  function Abs(v: real): real { if v < 0.0 then -v else v }

  function Sign(v: real): real { if v > 0.0 then 1.0 else if v < 0.0 then -1.0 else 0.0 }

  /** applyDeadzone: zero inside the deadzone, the rest rescaled to start at zero. */
  function ApplyDeadzone(v: real): real
  {
    if Abs(v) < Deadzone then 0.0 else Sign(v) * (Abs(v) - Deadzone) / (1.0 - Deadzone)
  }

  /** The deadzone is odd, zero exactly on the closed deadzone, maps [-1, 1]
      into [-1, 1] with the ends fixed, and never grows a value in that range. */
  lemma DeadzoneProperties(v: real)
    ensures ApplyDeadzone(-v) == -ApplyDeadzone(v)
    ensures ApplyDeadzone(v) == 0.0 <==> Abs(v) <= Deadzone
    ensures -1.0 <= v <= 1.0 ==> -1.0 <= ApplyDeadzone(v) <= 1.0 && Abs(ApplyDeadzone(v)) <= Abs(v)
    ensures ApplyDeadzone(1.0) == 1.0 && ApplyDeadzone(-1.0) == -1.0
  {
  }

  /** Outside the deadzone the sign is kept and the value grows with the input. */
  lemma DeadzoneMonotone(u: real, v: real)
    requires u <= v
    ensures ApplyDeadzone(u) <= ApplyDeadzone(v)
    ensures v > Deadzone ==> ApplyDeadzone(v) > 0.0
  {
  }

  /** The button an event names: the first test in the chain that holds, on the
      lower-cased name or the numeric id; None for ids 8, 9 and unknown names. */
  function ButtonFor(name: string, id: int): Option<Button>
  {
    var n := ToLower(name);
    if Contains(n, "a") || id == 0 then Some(A)
    else if Contains(n, "b") || id == 1 then Some(B)
    else if Contains(n, "x") || id == 2 then Some(X)
    else if Contains(n, "y") || id == 3 then Some(Y)
    else if (Contains(n, "left") && Contains(n, "bumper")) || id == 4 then Some(LeftBumper)
    else if (Contains(n, "right") && Contains(n, "bumper")) || id == 5 then Some(RightBumper)
    else if Contains(n, "back") || Contains(n, "select") || id == 6 then Some(Back)
    else if Contains(n, "start") || id == 7 then Some(Start)
    else if Contains(n, "up") || id == 10 then Some(DpadUp)
    else if Contains(n, "down") || id == 11 then Some(DpadDown)
    else if Contains(n, "left") || id == 12 then Some(DpadLeft)
    else if Contains(n, "right") || id == 13 then Some(DpadRight)
    else None
  }

  function SetTo(s: set<Button>, b: Button, member: bool): (r: set<Button>)
    ensures b in r <==> member
    ensures forall c :: c != b ==> (c in r <==> c in s)
  {
    if member then s + {b} else s - {b}
  }

  /** The state change for button b going down or up. */
  function ButtonChanged(s: PadState, b: Button, down: bool): PadState
  {
    var pressed := SetTo(s.pressed, b, down);
    if b == LeftBumper then s.(pressed := pressed)
    else if b == RightBumper then
      s.(pressed := pressed,
         rightTriggerJustPressed := s.rightTriggerJustPressed || (down && !s.rightTriggerWasPressed),
         rightTriggerWasPressed := down)
    else
      s.(pressed := pressed,
         justPressed := if down && b !in s.pressed then s.justPressed + {b} else s.justPressed)
  }

  /** onJoyButtonEvent. */
  function OnButton(s: PadState, name: string, id: int, down: bool): PadState
  {
    match ButtonFor(name, id)
    case None => s
    case Some(b) => ButtonChanged(s, b, down)
  }

  /** A button event changes the state of the one button it names and of no
      other; sticks, triggers and the connection flag stay as they were. */
  lemma ButtonEventTouchesOne(s: PadState, name: string, id: int, down: bool, c: Button)
    requires ButtonFor(name, id) != Some(c)
    ensures var r := OnButton(s, name, id, down);
      && (c in r.pressed <==> c in s.pressed)
      && (c in r.justPressed <==> c in s.justPressed)
      && r.(pressed := s.pressed, justPressed := s.justPressed,
            rightTriggerJustPressed := s.rightTriggerJustPressed,
            rightTriggerWasPressed := s.rightTriggerWasPressed) == s
  {
  }

  /** The named button's pressed state becomes the event's, and a tracked
      button's flag is raised exactly on a press while it was released; no
      button event lowers a flag. */
  lemma ButtonEventRisingEdge(s: PadState, name: string, id: int, down: bool, b: Button)
    requires ButtonFor(name, id) == Some(b)
    ensures var r := OnButton(s, name, id, down);
      && (b in r.pressed <==> down)
      && s.justPressed <= r.justPressed
      && (Tracked(b) ==> (b in r.justPressed <==> b in s.justPressed || (down && b !in s.pressed)))
      && (!Tracked(b) ==> r.justPressed == s.justPressed)
  {
  }

  /** The first-match chain misreads common names: "back" and "start" contain
      an "a", a bumper's name contains a "b", and so does every "button N". */
  lemma NamesShadowedByEarlierTests()
    ensures ButtonFor("Back", 6) == Some(A)
    ensures ButtonFor("Start", 7) == Some(A)
    ensures ButtonFor("Left Bumper", 4) == Some(B)
    ensures ButtonFor("Button 10", 10) == Some(B)
    ensures ButtonFor("Select", 6) == Some(Back)
  {
    assert OccursAt(ToLower("Back"), "a", 1);
    assert OccursAt(ToLower("Start"), "a", 2);
    var bumper := ToLower("Left Bumper");
    assert bumper == "left bumper";
    AbsentChar(bumper, 'a');
    assert OccursAt(bumper, "b", 5);
    var numbered := ToLower("Button 10");
    assert numbered == "button 10";
    AbsentChar(numbered, 'a');
    assert OccursAt(numbered, "b", 0);
    var sel := ToLower("Select");
    assert sel == "select";
    AbsentChar(sel, 'a');
    AbsentChar(sel, 'b');
    AbsentChar(sel, 'x');
    AbsentChar(sel, 'y');
    assert OccursAt(sel, "select", 0);
  }

  /** Where an axis event goes. */
  datatype AxisTarget = LeftX | LeftY | RightX | RightY | LeftTriggerAxis | RightTriggerAxis | Pov | Unmapped

  /** The first-match chain of onJoyAxisEvent; a name with a "z" goes to the
      right stick, Y for "rz" and X otherwise. */
  function AxisFor(name: string, id: int): AxisTarget
  {
    var n := ToLower(name);
    if (Contains(n, "x") && Contains(n, "left")) || id == 0 then LeftX
    else if (Contains(n, "y") && Contains(n, "left")) || id == 1 then LeftY
    else if (Contains(n, "x") && Contains(n, "right")) || id == 2 then RightX
    else if (Contains(n, "y") && Contains(n, "right")) || id == 3 then RightY
    else if (Contains(n, "trigger") && Contains(n, "left")) || id == 4 then LeftTriggerAxis
    else if (Contains(n, "trigger") && Contains(n, "right")) || id == 5 then RightTriggerAxis
    else if Contains(n, "z") || Contains(n, "rz") then (if Contains(n, "rz") then RightY else RightX)
    else if Contains(n, "pov") then Pov
    else Unmapped
  }

  /** A trigger's -1..1 axis as 0..1. */
  function TriggerValue(v: real): (t: real)
    ensures -1.0 <= v <= 1.0 ==> 0.0 <= t <= 1.0
    ensures t > 0.5 <==> v > 0.0
  {
    (v + 1.0) / 2.0
  }

  /** handlePovAxis: the direction a hat value selects, if any. */
  function PovDirection(v: real): Option<Button>
  {
    if 0.125 <= v <= 0.375 then Some(DpadUp)
    else if 0.375 <= v <= 0.625 then Some(DpadRight)
    else if 0.625 <= v <= 0.875 then Some(DpadDown)
    else if v >= 0.875 || (v > 0.0 && v <= 0.125) then Some(DpadLeft)
    else None
  }

  /** The bands as the chain leaves them: each boundary goes to the earlier test. */
  lemma PovBands(v: real)
    ensures PovDirection(v) == Some(DpadUp) <==> 0.125 <= v <= 0.375
    ensures PovDirection(v) == Some(DpadRight) <==> 0.375 < v <= 0.625
    ensures PovDirection(v) == Some(DpadDown) <==> 0.625 < v <= 0.875
    ensures PovDirection(v) == Some(DpadLeft) <==> v > 0.875 || 0.0 < v < 0.125
    ensures PovDirection(v) == None <==> v <= 0.0
  {
  }

  function PovChanged(s: PadState, v: real): PadState
  {
    var released := set c | c in s.pressed && !IsDpad(c);
    match PovDirection(v)
    case None => s.(pressed := released)
    case Some(d) =>
      s.(pressed := released + {d},
         justPressed := if d !in s.pressed then s.justPressed + {d} else s.justPressed)
  }

  /** After a hat event at most one direction is held, the one the value
      selects; its flag is raised if it was not held before; the other buttons
      are untouched. */
  lemma PovHoldsAtMostOne(s: PadState, v: real)
    ensures var r := PovChanged(s, v);
      && (forall d, e :: d in r.pressed && e in r.pressed && IsDpad(d) && IsDpad(e) ==> d == e)
      && (forall d :: IsDpad(d) ==> (d in r.pressed <==> PovDirection(v) == Some(d)))
      && (forall c :: !IsDpad(c) ==> (c in r.pressed <==> c in s.pressed) && (c in r.justPressed <==> c in s.justPressed))
      && (forall d :: IsDpad(d) ==> (d in r.justPressed <==> d in s.justPressed || (PovDirection(v) == Some(d) && d !in s.pressed)))
  {
  }

  /** onJoyAxisEvent. */
  function OnAxis(s: PadState, name: string, id: int, v: real): PadState
  {
    match AxisFor(name, id)
    case LeftX => s.(leftStickX := v)
    case LeftY => s.(leftStickY := -v)
    case RightX => s.(rightStickX := v)
    case RightY => s.(rightStickY := -v)
    case LeftTriggerAxis => s.(leftTrigger := TriggerValue(v))
    case RightTriggerAxis =>
      var now := TriggerValue(v) > 0.5;
      s.(rightTrigger := TriggerValue(v),
         rightTriggerJustPressed := s.rightTriggerJustPressed || (now && !s.rightTriggerWasPressed),
         rightTriggerWasPressed := now)
    case Pov => PovChanged(s, v)
    case Unmapped => s
  }

  /** The right trigger's flag rises only when the trigger crosses one half
      while neither it nor the right bumper was last seen pressed; Y axes are
      stored negated. */
  lemma AxisEventSemantics(s: PadState, name: string, id: int, v: real)
    ensures var r := OnAxis(s, name, id, v);
      && (AxisFor(name, id) == LeftY ==> r.leftStickY == -v)
      && (AxisFor(name, id) == RightY ==> r.rightStickY == -v)
      && (AxisFor(name, id) == RightTriggerAxis ==>
            && r.rightTrigger == (v + 1.0) / 2.0
            && (r.rightTriggerWasPressed <==> v > 0.0)
            && (r.rightTriggerJustPressed <==> s.rightTriggerJustPressed || (v > 0.0 && !s.rightTriggerWasPressed)))
      && (AxisFor(name, id) != RightTriggerAxis ==> r.rightTriggerJustPressed == s.rightTriggerJustPressed)
      && s.justPressed <= r.justPressed
  {
  }

  /** A just-pressed read: the flag, and the state with the flag lowered. */
  function Consumed(s: PadState, b: Button): (bool, PadState)
  {
    (b in s.justPressed, s.(justPressed := s.justPressed - {b}))
  }

  /** Reading a flag again with no event in between gives false, and a read
      changes no other flag. */
  lemma SecondReadIsFalse(s: PadState, b: Button)
    ensures !Consumed(Consumed(s, b).1, b).0
    ensures forall c :: c != b ==> (c in Consumed(s, b).1.justPressed <==> c in s.justPressed)
    ensures Consumed(s, b).1.pressed == s.pressed
  {
  }

  /** A flag raised by a press survives further events until it is read. */
  lemma FlagPersistsUntilRead(s: PadState, name: string, id: int, down: bool, axis: string, axisId: int, v: real, b: Button)
    requires b in s.justPressed
    ensures b in OnButton(s, name, id, down).justPressed && b in OnAxis(s, axis, axisId, v).justPressed
  {
    if ButtonFor(name, id).Some? {
      ButtonEventRisingEdge(s, name, id, down, ButtonFor(name, id).value);
    }
    AxisEventSemantics(s, axis, axisId, v);
  }

  class GamepadManager
  {
    var leftStickX: real
    var leftStickY: real
    var rightStickX: real
    var rightStickY: real
    var leftTrigger: real
    var rightTrigger: real
    var pressed: set<Button>
    var justPressed: set<Button>
    var rightTriggerJustPressed: bool
    var rightTriggerWasPressed: bool
    var controllerConnected: bool

    function State(): PadState
      reads this
    {
      PadState(leftStickX, leftStickY, rightStickX, rightStickY, leftTrigger, rightTrigger,
               pressed, justPressed, rightTriggerJustPressed, rightTriggerWasPressed, controllerConnected)
    }

    constructor ()
      ensures State() == InitialPad()
    {
      leftStickX, leftStickY, rightStickX, rightStickY := 0.0, 0.0, 0.0, 0.0;
      leftTrigger, rightTrigger := 0.0, 0.0;
      pressed, justPressed := {}, {};
      rightTriggerJustPressed, rightTriggerWasPressed := false, false;
      controllerConnected := false;
    }

    /** initialize: the number of joysticks the input manager reports is a parameter. */
    method Initialize(joystickCount: nat)
      modifies this
      ensures State() == old(State()).(controllerConnected := old(controllerConnected) || joystickCount > 0)
    {
      if joystickCount > 0 {
        controllerConnected := true;
      }
    }

    method OnJoyButtonEvent(name: string, id: int, down: bool)
      modifies this
      ensures State() == OnButton(old(State()), name, id, down)
    {
      var button := ButtonFor(name, id);
      if button.Some? {
        var b := button.value;
        if Tracked(b) && down && b !in pressed {
          justPressed := justPressed + {b};
        }
        pressed := SetTo(pressed, b, down);
        if b == RightBumper {
          if down && !rightTriggerWasPressed {
            rightTriggerJustPressed := true;
          }
          rightTriggerWasPressed := down;
        }
      }
    }

    method HandlePovAxis(v: real)
      modifies this
      ensures State() == PovChanged(old(State()), v)
    {
      var wasHeld := pressed;
      pressed := set c | c in pressed && !IsDpad(c);
      var direction := PovDirection(v);
      if direction.Some? {
        pressed := pressed + {direction.value};
        if direction.value !in wasHeld {
          justPressed := justPressed + {direction.value};
        }
      }
    }

    method OnJoyAxisEvent(name: string, id: int, v: real)
      modifies this
      ensures State() == OnAxis(old(State()), name, id, v)
    {
      match AxisFor(name, id)
      case LeftX => leftStickX := v;
      case LeftY => leftStickY := -v;
      case RightX => rightStickX := v;
      case RightY => rightStickY := -v;
      case LeftTriggerAxis => leftTrigger := (v + 1.0) / 2.0;
      case RightTriggerAxis =>
        var newTrigger := (v + 1.0) / 2.0;
        var nowPressed := newTrigger > 0.5;
        if nowPressed && !rightTriggerWasPressed {
          rightTriggerJustPressed := true;
        }
        rightTriggerWasPressed := nowPressed;
        rightTrigger := newTrigger;
      case Pov => HandlePovAxis(v);
      case Unmapped =>
    }

    /** The is...JustPressed getters of the tracked buttons: read, then clear. */
    method IsJustPressed(b: Button) returns (r: bool)
      requires Tracked(b)
      modifies this
      ensures (r, State()) == Consumed(old(State()), b)
    {
      r := b in justPressed;
      justPressed := justPressed - {b};
    }

    method IsRightTriggerJustPressed() returns (r: bool)
      modifies this
      ensures r == old(rightTriggerJustPressed)
      ensures State() == old(State()).(rightTriggerJustPressed := false)
    {
      r := rightTriggerJustPressed;
      rightTriggerJustPressed := false;
    }

    function IsAButtonPressed(): (r: bool)
      reads this
      ensures r <==> A in State().pressed
    {
      A in pressed
    }

    function IsRightTriggerPressed(): (r: bool)
      reads this
      ensures r <==> State().rightTrigger > 0.5
    {
      rightTrigger > 0.5
    }

    function GetLeftStick(): (r: (real, real))
      reads this
      ensures r == (ApplyDeadzone(State().leftStickX), ApplyDeadzone(State().leftStickY))
    {
      (ApplyDeadzone(leftStickX), ApplyDeadzone(leftStickY))
    }

    function GetRightStick(): (r: (real, real))
      reads this
      ensures r == (ApplyDeadzone(State().rightStickX), ApplyDeadzone(State().rightStickY))
    {
      (ApplyDeadzone(rightStickX), ApplyDeadzone(rightStickY))
    }

    function IsControllerConnected(): (r: bool)
      reads this
      ensures r == State().controllerConnected
    {
      controllerConnected
    }
  }
}
