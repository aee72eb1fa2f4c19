/** The dialog box: an NPC's name and text (given whole or streamed in
    chunks), up to three numbered choice slots with a cursor, and a line for
    typing a custom reply. */
module DialogScreen {
  import opened Common
  import opened Text
  import opened Screens

  /** The number of choice slots the box creates. */
  const SlotCount: int := 3

  const ChoicePrompt: string := "Keys 1-3 or DPad+A to select | T or Y to type | ESC or B to close"
  const CustomInputPrompt: string := "Type your response and press ENTER (or ESC to cancel)"

  /** What slot i shows: the choice numbered from 1, or nothing. */
  function SlotText(choices: seq<string>, i: nat): string
  {
    if i < |choices| then IntToString(i + 1) + ". " + choices[i] else ""
  }

  /** A slot is empty exactly when there is no choice for it, and the choice
      reads back from after its "n. " label. */
  lemma SlotShowsChoice(choices: seq<string>, i: nat)
    requires i < SlotCount
    ensures SlotText(choices, i) == "" <==> i >= |choices|
    ensures i < |choices| ==> |SlotText(choices, i)| >= 3 && SlotText(choices, i)[3..] == choices[i]
    ensures i < |choices| ==> SlotText(choices, i)[0] == DigitChar(i + 1)
  {
    if i < |choices| {
      assert IntToString(i + 1) == [DigitChar(i + 1)];
    }
  }

  /** The three slot texts. */
  function SlotsOf(choices: seq<string>): (r: seq<string>)
    ensures |r| == SlotCount
  {
    [SlotText(choices, 0), SlotText(choices, 1), SlotText(choices, 2)]
  }

  /** Choices after the third are never displayed: the slots depend on the first three only. */
  lemma OnlyThreeShown(choices: seq<string>, extra: seq<string>)
    requires |choices| >= SlotCount
    ensures SlotsOf(choices + extra) == SlotsOf(choices)
  {
  }

  /** The fields of the dialog box the logic depends on. */
  datatype DialogView = DialogView(
    scene: Scene, npcName: string, dialogText: string, buffer: string,
    choices: seq<string>, selected: int, typing: bool, customLine: string, prompt: string)

  /** show and startStreamingDialog: the name, the text (empty when streaming),
      the choice list replaced, the cursor on the first choice. */
  function Shown(v: DialogView, name: string, text: string, choices: seq<string>): (r: DialogView)
    ensures r.scene.visible && r.buffer == r.dialogText == text && r.choices == choices && r.selected == 0
  {
    v.(scene := Opened(v.scene), npcName := name, dialogText := text, buffer := text,
       choices := choices, selected := 0)
  }

  /** appendStreamedText: the chunk joins the buffer and the display shows the whole buffer. */
  function Appended(v: DialogView, chunk: string): DialogView
  {
    v.(buffer := v.buffer + chunk, dialogText := v.buffer + chunk)
  }

  function AppendedAll(v: DialogView, chunks: seq<string>): DialogView
    decreases |chunks|
  {
    if |chunks| == 0 then v else Appended(AppendedAll(v, chunks[..|chunks| - 1]), chunks[|chunks| - 1])
  }

  function Concat(chunks: seq<string>): string
    decreases |chunks|
  {
    if |chunks| == 0 then "" else Concat(chunks[..|chunks| - 1]) + chunks[|chunks| - 1]
  }

  /** After appending chunks the buffer is the old buffer followed by their
      concatenation, which is also what the box displays. */
  lemma {:induction false} AppendsConcatenate(v: DialogView, chunks: seq<string>)
    ensures AppendedAll(v, chunks).buffer == v.buffer + Concat(chunks)
    ensures |chunks| > 0 ==> AppendedAll(v, chunks).dialogText == AppendedAll(v, chunks).buffer
    ensures AppendedAll(v, chunks) == v.(buffer := AppendedAll(v, chunks).buffer,
                                         dialogText := AppendedAll(v, chunks).dialogText)
    decreases |chunks|
  {
    if |chunks| > 0 {
      AppendsConcatenate(v, chunks[..|chunks| - 1]);
    }
  }

  /** A streamed reply: the buffer and the display are exactly the concatenated chunks. */
  lemma StreamedReply(v: DialogView, name: string, choices: seq<string>, chunks: seq<string>)
    requires |chunks| > 0
    ensures AppendedAll(Shown(v, name, "", choices), chunks).buffer == Concat(chunks)
    ensures AppendedAll(Shown(v, name, "", choices), chunks).dialogText == Concat(chunks)
  {
    AppendsConcatenate(Shown(v, name, "", choices), chunks);
  }

  function Hidden(v: DialogView): DialogView
  {
    v.(scene := Closed(v.scene))
  }

  /** selectChoice and highlightChoice: only an index naming a choice moves the cursor. */
  function Selected(v: DialogView, index: int): DialogView
  {
    if 0 <= index < |v.choices| then v.(selected := index) else v
  }

  /** getSelectedChoice: the choice under the cursor, or null (None). */
  function SelectedChoice(v: DialogView): Option<string>
  {
    if 0 <= v.selected < |v.choices| then Some(v.choices[v.selected]) else None
  }

  /** setCustomInputVisible: the typing flag, and a fresh "> " line when typing starts. */
  function CustomInputShown(v: DialogView, visible: bool): DialogView
  {
    v.(typing := visible, customLine := if visible then "> " else v.customLine)
  }

  /** updateCustomInputText. */
  function CustomLine(text: string): string
  {
    "> " + text + "_"
  }

  /** The typed text reads back from between the "> " and the "_" cursor. */
  lemma CustomLineRoundTrip(text: string)
    ensures |CustomLine(text)| == |text| + 3 && CustomLine(text)[2..|text| + 2] == text
    ensures StartsWith(CustomLine(text), "> ") && CustomLine(text)[|text| + 2] == '_'
  {
    assert CustomLine(text)[..2] == "> ";
  }

  /** The cursor names a choice whenever there is one. */
  predicate ViewValid(v: DialogView)
  {
    && Alternates(v.scene)
    && 0 <= v.selected && (v.selected < |v.choices| || v.selected == 0)
  }

  /** Every operation keeps the invariant; selecting a listed choice makes it
      the selected one, other indices change nothing; and there is a selected
      choice exactly when the list is not empty. */
  lemma SelectionProperties(v: DialogView, index: int, name: string, text: string, choices: seq<string>, chunk: string)
    requires ViewValid(v)
    ensures ViewValid(Selected(v, index)) && ViewValid(Shown(v, name, text, choices)) && ViewValid(Hidden(v))
    ensures ViewValid(Appended(v, chunk)) && ViewValid(CustomInputShown(v, true)) && ViewValid(CustomInputShown(v, false))
    ensures 0 <= index < |v.choices| ==> SelectedChoice(Selected(v, index)) == Some(v.choices[index])
    ensures !(0 <= index < |v.choices|) ==> Selected(v, index) == v
    ensures SelectedChoice(v).None? <==> |v.choices| == 0
    ensures SelectedChoice(Shown(v, name, text, choices)) == if |choices| > 0 then Some(choices[0]) else None
  {
    OpenClose(v.scene);
  }

  /** Fills the three slots, as the loop in show does. */
  method FillSlots(slots: array<string>, choices: seq<string>)
    requires slots.Length == SlotCount
    modifies slots
    ensures slots[..] == SlotsOf(choices)
  {
    for i := 0 to SlotCount
      invariant forall k :: 0 <= k < i ==> slots[k] == SlotText(choices, k)
    {
      if i < |choices| {
        slots[i] := IntToString(i + 1) + ". " + choices[i];
      } else {
        slots[i] := "";
      }
    }
  }

  class DialogUI
  {
    var scene: Scene
    var npcName: string
    var dialogText: string
    /** The StringBuilder holding the dialog text. */
    var buffer: string
    var choices: seq<string>
    var selectedChoice: int
    var typing: bool
    var customLine: string
    var prompt: string
    /** The three choice texts. */
    var slots: array<string>

    function View(): DialogView
      reads this
    {
      DialogView(scene, npcName, dialogText, buffer, choices, selectedChoice, typing, customLine, prompt)
    }

    predicate Valid()
      reads this, slots
    {
      ViewValid(View()) && slots.Length == SlotCount && slots[..] == SlotsOf(choices)
    }

    constructor ()
      ensures Valid() && fresh(slots)
      ensures View() == DialogView(Unshown, "", "", "", [], 0, false, "> ", ChoicePrompt)
    {
      scene := Unshown;
      npcName := "";
      dialogText := "";
      buffer := "";
      choices := [];
      selectedChoice := 0;
      typing := false;
      customLine := "> ";
      prompt := ChoicePrompt;
      slots := new string[SlotCount](_ => "");
    }

    method Show(name: string, text: string, newChoices: seq<string>)
      requires Valid()
      modifies this, slots
      ensures Valid() && slots == old(slots)
      ensures View() == Shown(old(View()), name, text, newChoices)
    {
      npcName := name;
      buffer := text;
      dialogText := text;
      choices := newChoices;
      selectedChoice := 0;
      FillSlots(slots, newChoices);
      OpenClose(scene);
      scene := Opened(scene);
    }

    method StartStreamingDialog(name: string, newChoices: seq<string>)
      requires Valid()
      modifies this, slots
      ensures Valid() && slots == old(slots)
      ensures View() == Shown(old(View()), name, "", newChoices)
    {
      npcName := name;
      buffer := "";
      dialogText := "";
      choices := newChoices;
      selectedChoice := 0;
      FillSlots(slots, newChoices);
      OpenClose(scene);
      scene := Opened(scene);
    }

    method AppendStreamedText(chunk: string)
      requires Valid()
      modifies this
      ensures Valid() && slots == old(slots) && View() == Appended(old(View()), chunk)
    {
      buffer := buffer + chunk;
      dialogText := buffer;
    }

    method SetCustomInputVisible(visible: bool)
      requires Valid()
      modifies this
      ensures Valid() && slots == old(slots) && View() == CustomInputShown(old(View()), visible)
    {
      typing := visible;
      if visible {
        customLine := "> ";
      }
    }

    method UpdateCustomInputText(text: string)
      requires Valid()
      modifies this
      ensures Valid() && slots == old(slots) && View() == old(View()).(customLine := CustomLine(text))
    {
      customLine := "> " + text + "_";
    }

    method Hide()
      requires Valid()
      modifies this
      ensures Valid() && slots == old(slots) && View() == Hidden(old(View()))
    {
      OpenClose(scene);
      scene := Closed(scene);
    }

    function IsVisible(): (b: bool)
      reads this
      ensures b == View().scene.visible
    {
      scene.visible
    }

    function IsTypingCustomInput(): (b: bool)
      reads this
      ensures b == View().typing
    {
      typing
    }

    method SelectChoice(index: int)
      requires Valid()
      modifies this
      ensures Valid() && slots == old(slots) && View() == Selected(old(View()), index)
    {
      if index >= 0 && index < |choices| {
        selectedChoice := index;
      }
    }

    /** The gamepad variant of selectChoice; the two differ only in their callers. */
    method HighlightChoice(index: int)
      requires Valid()
      modifies this
      ensures Valid() && slots == old(slots) && View() == Selected(old(View()), index)
    {
      if index >= 0 && index < |choices| {
        selectedChoice := index;
      }
    }

    function GetSelectedChoice(): (r: Option<string>)
      reads this
      ensures r == SelectedChoice(View())
      ensures r.Some? ==> r.value in View().choices
    {
      if selectedChoice >= 0 && selectedChoice < |choices| then Some(choices[selectedChoice]) else None
    }

    function GetSelectedChoiceIndex(): (r: int)
      reads this
      ensures r == View().selected
    {
      selectedChoice
    }

    function GetChoiceCount(): (r: int)
      reads this
      ensures r == |View().choices|
    {
      |choices|
    }

    method ShowCustomInputPrompt()
      modifies this
      ensures View() == old(View()).(prompt := CustomInputPrompt) && slots == old(slots)
    {
      prompt := CustomInputPrompt;
    }

    method ShowChoicePrompt()
      modifies this
      ensures View() == old(View()).(prompt := ChoicePrompt) && slots == old(slots)
    {
      prompt := ChoicePrompt;
    }

    function GetCurrentDialogText(): (r: string)
      reads this
      ensures r == View().buffer
    {
      buffer
    }
  }
}
