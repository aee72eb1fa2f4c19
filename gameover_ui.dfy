/** The game-over screen: the wave reached, two options (try again, exit to
    the overworld), and a confirm that fires the listener's callback for the
    selected option and closes the screen. */
module GameOverScreen {
  import opened Common
  import opened Text
  import opened Screens
  import Gamepad

  const OptionCount: int := 2

  datatype Callback = TryAgain | ExitToOverworld

  /** The fields of the screen the logic depends on; callbacks logs the listener calls. */
  datatype GameOverView = GameOverView(
    scene: Scene, selected: int, waveReached: int, waveText: string,
    listening: bool, callbacks: seq<Callback>)

  const WavePrefix: string := "You reached Wave "

  /** show: the wave recorded and displayed, the cursor back on "Try Again". */
  function Shown(v: GameOverView, wave: int): (r: GameOverView)
    ensures r.selected == 0 && r.waveReached == wave && r.scene.visible
    ensures r.waveText == WavePrefix + IntToString(wave)
  {
    v.(scene := Opened(v.scene), selected := 0, waveReached := wave, waveText := WavePrefix + IntToString(wave))
  }

  function Hidden(v: GameOverView): GameOverView
  {
    v.(scene := Closed(v.scene))
  }

  /** moveSelection, with Java's remainder. */
  function MovedCursor(selected: int, direction: int): int
  {
    JavaRem(selected + direction + OptionCount, OptionCount)
  }

  /** With two options a unit step in either direction toggles the cursor. */
  lemma CursorToggles(selected: int, direction: int)
    requires 0 <= selected < OptionCount && (direction == 1 || direction == -1)
    ensures MovedCursor(selected, direction) == 1 - selected
  {
  }

  function CallbackFor(selected: int): Callback
  {
    if selected == 0 then TryAgain else ExitToOverworld
  }

  /** confirmSelection. */
  function Confirmed(v: GameOverView): GameOverView
  {
    Hidden(v.(callbacks := if v.listening then v.callbacks + [CallbackFor(v.selected)] else v.callbacks))
  }

  /** A confirm makes exactly one callback when a listener is set, the one
      for the selected option, none otherwise, and closes the screen. */
  lemma ConfirmFiresOne(v: GameOverView)
    ensures var r := Confirmed(v);
      && !r.scene.visible && r.selected == v.selected
      && (v.listening ==> r.callbacks == v.callbacks + [if v.selected == 0 then TryAgain else ExitToOverworld])
      && (!v.listening ==> r.callbacks == v.callbacks)
  {
  }

  /** onAction. */
  function Acted(v: GameOverView, name: string, isPressed: bool): GameOverView
  {
    if !isPressed then v
    else if name == "GameOver_Select1" then Confirmed(v.(selected := 0))
    else if name == "GameOver_Select2" then Confirmed(v.(selected := 1))
    else if name == "GameOver_Up" then v.(selected := MovedCursor(v.selected, -1))
    else if name == "GameOver_Down" then v.(selected := MovedCursor(v.selected, 1))
    else if name == "GameOver_Confirm" then Confirmed(v)
    else v
  }

  /** Key 1 tries again and key 2 exits, whatever the cursor was on. */
  lemma KeysPickOptions(v: GameOverView)
    requires v.listening
    ensures Acted(v, "GameOver_Select1", true).callbacks == v.callbacks + [TryAgain]
    ensures Acted(v, "GameOver_Select2", true).callbacks == v.callbacks + [ExitToOverworld]
  {
  }

  /** update with a gamepad: D-pad up, D-pad down, A, then B, each read once;
      B forces the exit option and confirms. */
  function PadUpdated(v: GameOverView, up: bool, down: bool, a: bool, b: bool): GameOverView
  {
    var v1 := if up then v.(selected := MovedCursor(v.selected, -1)) else v;
    var v2 := if down then v1.(selected := MovedCursor(v1.selected, 1)) else v1;
    var v3 := if a then Confirmed(v2) else v2;
    if b then Confirmed(v3.(selected := 1)) else v3
  }

  /** B alone exits to the overworld. */
  lemma BExits(v: GameOverView)
    requires v.listening
    ensures PadUpdated(v, false, false, false, true).callbacks == v.callbacks + [ExitToOverworld]
    ensures !PadUpdated(v, false, false, false, true).scene.visible
  {
  }

  /** B is read even after A has confirmed and closed the screen, so A and B
      in the same frame make two callbacks. */
  lemma AAndBTogetherCallTwice(v: GameOverView)
    requires v.listening
    ensures PadUpdated(v, false, false, true, true).callbacks ==
      v.callbacks + [CallbackFor(v.selected), ExitToOverworld]
  {
  }

  predicate ViewValid(v: GameOverView)
  {
    0 <= v.selected < OptionCount && Alternates(v.scene)
  }

  /** Every step keeps the cursor on one of the two options and the scene log alternating. */
  lemma StepsKeepValid(v: GameOverView, wave: int, name: string, isPressed: bool,
                       up: bool, down: bool, a: bool, b: bool)
    requires ViewValid(v)
    ensures ViewValid(Shown(v, wave)) && ViewValid(Hidden(v)) && ViewValid(Confirmed(v))
    ensures ViewValid(Acted(v, name, isPressed)) && ViewValid(PadUpdated(v, up, down, a, b))
  {
    OpenClose(v.scene);
    var v1 := if up then v.(selected := MovedCursor(v.selected, -1)) else v;
    var v2 := if down then v1.(selected := MovedCursor(v1.selected, 1)) else v1;
    OpenClose(v2.scene);
    var v3 := if a then Confirmed(v2) else v2;
    OpenClose(v3.scene);
  }

  class GameOverUI
  {
    var scene: Scene
    var selectedOption: int
    var waveReached: int
    var waveText: string
    var listening: bool
    var callbacks: seq<Callback>
    var gamepad: Gamepad.GamepadManager?

    function View(): GameOverView
      reads this
    {
      GameOverView(scene, selectedOption, waveReached, waveText, listening, callbacks)
    }

    predicate Valid()
      reads this
    {
      ViewValid(View())
    }

    constructor ()
      ensures Valid() && View() == GameOverView(Unshown, 0, 0, WavePrefix + "1", false, []) && gamepad == null
    {
      scene := Unshown;
      selectedOption := 0;
      waveReached := 0;
      waveText := WavePrefix + "1";
      listening := false;
      callbacks := [];
      gamepad := null;
    }

    method SetListener()
      modifies this
      ensures View() == old(View()).(listening := true) && gamepad == old(gamepad)
    {
      listening := true;
    }

    method SetGamepadManager(pad: Gamepad.GamepadManager)
      modifies this
      ensures View() == old(View()) && gamepad == pad
    {
      gamepad := pad;
    }

    method Show(wave: int)
      requires Valid()
      modifies this
      ensures Valid() && View() == Shown(old(View()), wave) && gamepad == old(gamepad)
    {
      waveReached := wave;
      selectedOption := 0;
      waveText := WavePrefix + IntToString(wave);
      OpenClose(scene);
      scene := Opened(scene);
    }

    method Hide()
      requires Valid()
      modifies this
      ensures Valid() && View() == Hidden(old(View())) && gamepad == old(gamepad)
    {
      OpenClose(scene);
      scene := Closed(scene);
    }

    function IsVisible(): (b: bool)
      reads this
      ensures b == View().scene.visible
    {
      scene.visible
    }

    method MoveSelection(direction: int)
      requires Valid() && (direction == 1 || direction == -1)
      modifies this
      ensures Valid() && View() == old(View()).(selected := MovedCursor(old(selectedOption), direction))
      ensures gamepad == old(gamepad)
    {
      CursorToggles(selectedOption, direction);
      selectedOption := (selectedOption + direction + OptionCount) % OptionCount;
    }

    method ConfirmSelection()
      requires Valid()
      modifies this
      ensures Valid() && View() == Confirmed(old(View())) && gamepad == old(gamepad)
    {
      if listening {
        if selectedOption == 0 {
          callbacks := callbacks + [TryAgain];
        } else {
          callbacks := callbacks + [ExitToOverworld];
        }
      }
      Hide();
    }

    method OnAction(name: string, isPressed: bool)
      requires Valid()
      modifies this
      ensures Valid() && View() == Acted(old(View()), name, isPressed) && gamepad == old(gamepad)
    {
      if !isPressed {
        return;
      }
      if name == "GameOver_Select1" {
        selectedOption := 0;
        ConfirmSelection();
      } else if name == "GameOver_Select2" {
        selectedOption := 1;
        ConfirmSelection();
      } else if name == "GameOver_Up" {
        MoveSelection(-1);
      } else if name == "GameOver_Down" {
        MoveSelection(1);
      } else if name == "GameOver_Confirm" {
        ConfirmSelection();
      }
    }

    /** One `if (gamepadManager.is...JustPressed()) moveSelection(direction);` of update. */
    method PollMove(pad: Gamepad.GamepadManager, button: Gamepad.Button, direction: int) returns (pressed: bool)
      requires Valid() && Gamepad.Tracked(button) && (direction == 1 || direction == -1)
      modifies this, pad
      ensures Valid() && gamepad == old(gamepad)
      ensures pressed == (button in old(pad.justPressed))
      ensures pad.State() == old(pad.State()).(justPressed := old(pad.justPressed) - {button})
      ensures View() == if pressed then old(View()).(selected := MovedCursor(old(selectedOption), direction)) else old(View())
    {
      pressed := pad.IsJustPressed(button);
      if pressed {
        MoveSelection(direction);
      }
    }

    /** One `if (gamepadManager.is...JustPressed()) confirmSelection();` of
        update; for B the exit option is selected first. */
    method PollConfirm(pad: Gamepad.GamepadManager, button: Gamepad.Button, forceExit: bool) returns (pressed: bool)
      requires Valid() && Gamepad.Tracked(button)
      modifies this, pad
      ensures Valid() && gamepad == old(gamepad)
      ensures pressed == (button in old(pad.justPressed))
      ensures pad.State() == old(pad.State()).(justPressed := old(pad.justPressed) - {button})
      ensures View() == if pressed then Confirmed(if forceExit then old(View()).(selected := 1) else old(View())) else old(View())
    {
      pressed := pad.IsJustPressed(button);
      if pressed {
        if forceExit {
          selectedOption := 1;
        }
        ConfirmSelection();
      }
    }

    /** update: nothing while hidden or without a gamepad; otherwise four flags
        are read (and so cleared) in order and acted upon. */
    method Update()
      requires Valid()
      modifies this, gamepad
      ensures Valid() && gamepad == old(gamepad)
      ensures !old(scene.visible) || gamepad == null ==> View() == old(View())
      ensures old(scene.visible) && gamepad != null ==>
        var flags := old(gamepad.justPressed);
        && View() == PadUpdated(old(View()), Gamepad.DpadUp in flags, Gamepad.DpadDown in flags,
                                Gamepad.A in flags, Gamepad.B in flags)
        && gamepad.State() == old(gamepad.State()).(justPressed := flags - {Gamepad.DpadUp, Gamepad.DpadDown, Gamepad.A, Gamepad.B})
    {
      if !scene.visible || gamepad == null {
        return;
      }
      var pad := gamepad;
      ghost var g := pad.State();
      var up := PollMove(pad, Gamepad.DpadUp, -1);
      var down := PollMove(pad, Gamepad.DpadDown, 1);
      var a := PollConfirm(pad, Gamepad.A, false);
      var b := PollConfirm(pad, Gamepad.B, true);
      assert pad.justPressed == g.justPressed - {Gamepad.DpadUp, Gamepad.DpadDown, Gamepad.A, Gamepad.B};
    }
  }
}
