/** The level-up screen: four stat options with a cursor, previews of each
    stat's effect, and a confirm that levels the player up, tells the
    listener and closes the screen. */
module LevelUpScreen {
  import opened Common
  import opened Text
  import opened Screens
  import Players
  import Gamepad

  const OptionCount: int := 4

  /** The four previews, each the current value and the value after one more point. */
  datatype Previews = Previews(damagePercent: (real, real), speed: (real, real),
                               health: (real, real), fireRate: (real, real))

  /** updateStatTexts, without the text formatting. */
  function PreviewsOf(p: Players.PlayerState): Previews
  {
    Previews(
      (Players.DamageMultiplierFor(p.strength) * 100.0, (1.0 + p.strength as real * 0.15) * 100.0),
      (Players.MoveSpeedFor(p.agility), 7.0 + p.agility as real * 0.5),
      (p.maxHealth, 100.0 + p.vitality as real * 20.0),
      (1.0 / Players.FireCooldownFor(p.dexterity), 1.0 / (0.15 * Max(0.30, 1.0 - p.dexterity as real * 0.10))))
  }

  /** Each preview's "after" value is what levelUp with that stat produces,
      and its "before" value is the current one. */
  lemma PreviewsMatchLevelUp(p: Players.PlayerState)
    ensures var v := PreviewsOf(p);
      && v.damagePercent.1 == Players.DamageMultiplierFor(Players.LeveledUp(p, Players.Strength).strength) * 100.0
      && v.speed.1 == Players.MoveSpeedFor(Players.LeveledUp(p, Players.Agility).agility)
      && v.health.1 == Players.LeveledUp(p, Players.Vitality).maxHealth
      && v.fireRate.1 == 1.0 / Players.FireCooldownFor(Players.LeveledUp(p, Players.Dexterity).dexterity)
      && v.damagePercent.0 == Players.DamageMultiplierFor(p.strength) * 100.0
      && v.health.0 == p.maxHealth
  {
  }

  /** The fields of the screen the logic depends on. */
  datatype LevelUpView = LevelUpView(
    scene: Scene, selected: int, levelText: string, previews: Option<Previews>,
    listening: bool, notified: seq<int>)

  const LevelPrefix: string := "You are now Level "

  /** show: the cursor back on strength, the level the player will reach, the previews. */
  function Shown(v: LevelUpView, p: Players.PlayerState): (r: LevelUpView)
    ensures r.selected == 0 && r.scene.visible
    ensures r.levelText == LevelPrefix + IntToString(p.level + 1)
    ensures r.previews == Some(PreviewsOf(p))
  {
    v.(scene := Opened(v.scene), selected := 0,
       levelText := LevelPrefix + IntToString(p.level + 1), previews := Some(PreviewsOf(p)))
  }

  function Hidden(v: LevelUpView): LevelUpView
  {
    v.(scene := Closed(v.scene))
  }

  /** moveSelection: Java's remainder, which (sel + dir + 4) keeps non-negative for a unit step. */
  function MovedCursor(selected: int, direction: int): int
  {
    JavaRem(selected + direction + OptionCount, OptionCount)
  }

  /** A unit step wraps around the four options, and up undoes down. */
  lemma CursorWraps(selected: int, direction: int)
    requires 0 <= selected < OptionCount && (direction == 1 || direction == -1)
    ensures 0 <= MovedCursor(selected, direction) < OptionCount
    ensures MovedCursor(selected, direction) == (selected + direction) % OptionCount
    ensures MovedCursor(MovedCursor(selected, direction), -direction) == selected
  {
  }

  /** confirmSelection: the stat number handed to the player and the listener. */
  function Confirmed(v: LevelUpView): (r: LevelUpView)
    ensures !r.scene.visible && r.selected == v.selected
    ensures r.notified == if v.listening then v.notified + [v.selected + 1] else v.notified
  {
    Hidden(v.(notified := if v.listening then v.notified + [v.selected + 1] else v.notified))
  }

  /** A step's result: the screen, and the stat passed to levelUp, if any. */
  datatype Outcome = Outcome(view: LevelUpView, leveled: Option<int>)

  function ConfirmOutcome(v: LevelUpView): Outcome
  {
    Outcome(Confirmed(v), Some(v.selected + 1))
  }

  /** onAction. */
  function Acted(v: LevelUpView, name: string, isPressed: bool): Outcome
  {
    if !isPressed then Outcome(v, None)
    else if name == "LevelUp_Select1" then ConfirmOutcome(v.(selected := 0))
    else if name == "LevelUp_Select2" then ConfirmOutcome(v.(selected := 1))
    else if name == "LevelUp_Select3" then ConfirmOutcome(v.(selected := 2))
    else if name == "LevelUp_Select4" then ConfirmOutcome(v.(selected := 3))
    else if name == "LevelUp_Up" then Outcome(v.(selected := MovedCursor(v.selected, -1)), None)
    else if name == "LevelUp_Down" then Outcome(v.(selected := MovedCursor(v.selected, 1)), None)
    else if name == "LevelUp_Confirm" then ConfirmOutcome(v)
    else Outcome(v, None)
  }

  /** Key k picks stat k: the player levels that stat, the listener hears k,
      and the screen closes. */
  lemma KeySelectsStat(v: LevelUpView, k: int)
    requires 1 <= k <= 4
    ensures var o := Acted(v, LevelUpName(k), true);
      && o.leveled == Some(k) && !o.view.scene.visible
      && o.view.notified == (if v.listening then v.notified + [k] else v.notified)
  {
  }

  function LevelUpName(k: int): string
    requires 1 <= k <= 4
  {
    if k == 1 then "LevelUp_Select1" else if k == 2 then "LevelUp_Select2"
    else if k == 3 then "LevelUp_Select3" else "LevelUp_Select4"
  }

  /** A release, or a name the screen did not map, changes nothing. */
  lemma ReleaseIgnored(v: LevelUpView, name: string)
    ensures Acted(v, name, false) == Outcome(v, None)
  {
  }

  /** update with a gamepad: D-pad up, then D-pad down, then A, each read once. */
  function PadUpdated(v: LevelUpView, up: bool, down: bool, confirm: bool): Outcome
  {
    var moved := if up then MovedCursor(v.selected, -1) else v.selected;
    var moved' := if down then MovedCursor(moved, 1) else moved;
    if confirm then ConfirmOutcome(v.(selected := moved')) else Outcome(v.(selected := moved'), None)
  }

  /** Up and down in the same frame cancel out. */
  lemma UpDownCancel(v: LevelUpView)
    requires 0 <= v.selected < OptionCount
    ensures PadUpdated(v, true, true, false) == Outcome(v, None)
  {
    CursorWraps(v.selected, -1);
    assert v.(selected := v.selected) == v;
  }

  /** The screen invariant: the cursor on one of the four options and the scene log alternating. */
  predicate ViewValid(v: LevelUpView)
  {
    0 <= v.selected < OptionCount && Alternates(v.scene)
  }

  /** Every step keeps the invariant, and only a confirm levels the player, with a stat in 1..4. */
  lemma StepsKeepValid(v: LevelUpView, p: Players.PlayerState, name: string, isPressed: bool,
                       up: bool, down: bool, confirm: bool)
    requires ViewValid(v)
    ensures ViewValid(Shown(v, p)) && ViewValid(Hidden(v))
    ensures ViewValid(Acted(v, name, isPressed).view) && ViewValid(PadUpdated(v, up, down, confirm).view)
    ensures var o := Acted(v, name, isPressed); o.leveled.Some? ==> 1 <= o.leveled.value <= 4 && !o.view.scene.visible
    ensures var o := PadUpdated(v, up, down, confirm); o.leveled.Some? <==> confirm
  {
    OpenClose(v.scene);
    ActionKeepsValid(v, name, isPressed);
    PadKeepsValid(v, up, down, confirm);
  }

  /** onAction keeps the invariant, and levels the player only with a stat in 1..4, closing the screen. */
  lemma ActionKeepsValid(v: LevelUpView, name: string, isPressed: bool)
    requires ViewValid(v)
    ensures ViewValid(Acted(v, name, isPressed).view)
    ensures var o := Acted(v, name, isPressed); o.leveled.Some? ==> 1 <= o.leveled.value <= 4 && !o.view.scene.visible
  {
    OpenClose(v.scene);
    CursorWraps(v.selected, -1);
    CursorWraps(v.selected, 1);
  }

  /** A gamepad update keeps the invariant and levels the player exactly when A was pressed. */
  lemma PadKeepsValid(v: LevelUpView, up: bool, down: bool, confirm: bool)
    requires ViewValid(v)
    ensures ViewValid(PadUpdated(v, up, down, confirm).view)
    ensures PadUpdated(v, up, down, confirm).leveled.Some? <==> confirm
  {
    OpenClose(v.scene);
    CursorWraps(v.selected, -1);
    var moved := if up then MovedCursor(v.selected, -1) else v.selected;
    CursorWraps(moved, 1);
  }

  /** The player after an outcome: levelled up with the stat, if there is one. */
  function PlayerAfter(p: Players.PlayerState, leveled: Option<int>): Players.PlayerState
  {
    if leveled.Some? then Players.LeveledUp(p, leveled.value) else p
  }

  class LevelUpUI
  {
    var scene: Scene
    var selectedOption: int
    var levelText: string
    var previews: Option<Previews>
    var player: Players.Player?
    /** Whether a listener was set, and the stats it has been told of. */
    var listening: bool
    var notified: seq<int>
    var gamepad: Gamepad.GamepadManager?

    function View(): LevelUpView
      reads this
    {
      LevelUpView(scene, selectedOption, levelText, previews, listening, notified)
    }

    predicate Valid()
      reads this
    {
      ViewValid(View())
    }

    constructor ()
      ensures Valid() && View() == LevelUpView(Unshown, 0, LevelPrefix + "2", None, false, [])
      ensures player == null && gamepad == null
    {
      scene := Unshown;
      selectedOption := 0;
      levelText := LevelPrefix + "2";
      previews := None;
      player := null;
      listening := false;
      notified := [];
      gamepad := null;
    }

    method SetListener()
      modifies this
      ensures View() == old(View()).(listening := true)
      ensures player == old(player) && gamepad == old(gamepad)
    {
      listening := true;
    }

    method SetGamepadManager(pad: Gamepad.GamepadManager)
      modifies this
      ensures View() == old(View()) && gamepad == pad && player == old(player)
    {
      gamepad := pad;
    }

    method Show(p: Players.Player)
      requires Valid()
      modifies this
      ensures Valid() && View() == Shown(old(View()), p.State())
      ensures player == p && gamepad == old(gamepad)
    {
      player := p;
      selectedOption := 0;
      levelText := LevelPrefix + IntToString(p.level + 1);
      previews := Some(PreviewsOf(p.State()));
      OpenClose(scene);
      scene := Opened(scene);
    }

    method Hide()
      requires Valid()
      modifies this
      ensures Valid() && View() == Hidden(old(View()))
      ensures player == old(player) && gamepad == old(gamepad)
    {
      OpenClose(scene);
      scene := Closed(scene);
    }

    function IsVisible(): (b: bool)
      reads this
      ensures b == View().scene.visible
    {
      scene.visible
    }

    method MoveSelection(direction: int)
      requires Valid() && (direction == 1 || direction == -1)
      modifies this
      ensures Valid() && View() == old(View()).(selected := MovedCursor(old(selectedOption), direction))
      ensures player == old(player) && gamepad == old(gamepad)
    {
      CursorWraps(selectedOption, direction);
      selectedOption := (selectedOption + direction + OptionCount) % OptionCount;
    }

    method ConfirmSelection()
      requires Valid()
      modifies this, player
      ensures Valid() && View() == Confirmed(old(View()))
      ensures player == old(player) && gamepad == old(gamepad)
      ensures player != null ==> player.State() == Players.LeveledUp(old(player.State()), old(selectedOption) + 1)
    {
      if player != null {
        player.LevelUp(selectedOption + 1);
      }
      if listening {
        notified := notified + [selectedOption + 1];
      }
      Hide();
    }

    method OnAction(name: string, isPressed: bool)
      requires Valid()
      modifies this, player
      ensures Valid() && player == old(player) && gamepad == old(gamepad)
      ensures View() == Acted(old(View()), name, isPressed).view
      ensures player != null ==>
        player.State() == PlayerAfter(old(player.State()), Acted(old(View()), name, isPressed).leveled)
    {
      ActionKeepsValid(View(), name, isPressed);
      if !isPressed {
        return;
      }
      if name == "LevelUp_Select1" {
        selectedOption := 0;
        ConfirmSelection();
      } else if name == "LevelUp_Select2" {
        selectedOption := 1;
        ConfirmSelection();
      } else if name == "LevelUp_Select3" {
        selectedOption := 2;
        ConfirmSelection();
      } else if name == "LevelUp_Select4" {
        selectedOption := 3;
        ConfirmSelection();
      } else if name == "LevelUp_Up" {
        MoveSelection(-1);
      } else if name == "LevelUp_Down" {
        MoveSelection(1);
      } else if name == "LevelUp_Confirm" {
        ConfirmSelection();
      }
    }

    /** update: nothing while hidden or without a gamepad; otherwise the three
        flags are read (and so cleared) in order and acted upon. */
    method Update()
      requires Valid()
      modifies this, player, gamepad
      ensures Valid() && player == old(player) && gamepad == old(gamepad)
      ensures !old(scene.visible) || gamepad == null ==>
        View() == old(View()) && (player != null ==> player.State() == old(player.State()))
      ensures old(scene.visible) && gamepad != null ==>
        var flags := old(gamepad.justPressed);
        var o := PadUpdated(old(View()), Gamepad.DpadUp in flags, Gamepad.DpadDown in flags, Gamepad.A in flags);
        && View() == o.view
        && gamepad.State() == old(gamepad.State()).(justPressed := flags - {Gamepad.DpadUp, Gamepad.DpadDown, Gamepad.A})
        && (player != null ==> player.State() == PlayerAfter(old(player.State()), o.leveled))
    {
      if !scene.visible || gamepad == null {
        return;
      }
      var pad := gamepad;
      ghost var v0 := View();
      ghost var flags := pad.justPressed;
      PadKeepsValid(v0, Gamepad.DpadUp in flags, Gamepad.DpadDown in flags, Gamepad.A in flags);
      var up := pad.IsJustPressed(Gamepad.DpadUp);
      if up {
        MoveSelection(-1);
      }
      var down := pad.IsJustPressed(Gamepad.DpadDown);
      if down {
        MoveSelection(1);
      }
      var confirm := pad.IsJustPressed(Gamepad.A);
      assert flags - {Gamepad.DpadUp} - {Gamepad.DpadDown} - {Gamepad.A} ==
        flags - {Gamepad.DpadUp, Gamepad.DpadDown, Gamepad.A};
      if confirm {
        ConfirmSelection();
      }
    }
  }
}
