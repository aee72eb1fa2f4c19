/** NPC conversations: a prompt assembled from the NPC's name, personality and
    the last lines exchanged with it, a language-model call that may fail,
    and a per-NPC history of at most twenty lines. */
module Conversation {
  import opened Common
  import opened Text

  const MaxHistoryLength: nat := 10
  /** The history keeps MaxHistoryLength exchanges of two lines each. */
  const MaxHistoryLines: nat := MaxHistoryLength * 2

  const PlayerTag: string := "Player: "

  /** buildSystemPrompt. */
  function SystemPrompt(name: string, personality: string): (r: string)
    ensures StartsWith(r, "You are " + name + ", an NPC")
  {
    var opening := "You are " + name + ", an NPC";
    PrefixOfConcat(opening, SystemPromptRest(personality));
    opening + SystemPromptRest(personality)
  }

  function SystemPromptRest(personality: string): string
  {
    " in a fantasy RPG game. "
      + "Your personality is: " + personality + ". "
      + "You live in a procedurally generated world with dungeons, quests, and adventures. "
      + "Respond in character, keeping your responses concise (2-3 sentences). "
      + "You can offer quests, share information about the world, or just chat with the player. "
      + "Stay in character and be helpful to the adventurer."
  }

  const FallbackGreeting: string := "Greetings, traveler! I am "

  /** getFallbackDialogue: a fixed apology that names the NPC. */
  function FallbackDialogue(name: string): (r: string)
    ensures StartsWith(r, FallbackGreeting + name + ".")
  {
    var opening := FallbackGreeting + name + ".";
    PrefixOfConcat(opening, FallbackRest);
    opening + FallbackRest
  }

  const FallbackRest: string :=
    " The AI dialogue system is currently unavailable. "
      + "Please configure your AI provider (OPENAI or OLLAMA) to enable dynamic conversations."

  /** The history lines, each followed by a newline. */
  function JoinLines(lines: seq<string>): string
    decreases |lines|
  {
    if |lines| == 0 then "" else JoinLines(lines[..|lines| - 1]) + lines[|lines| - 1] + "\n"
  }

  /** Joining distributes over concatenation of line lists. */
  lemma {:induction false} JoinLinesAppend(a: seq<string>, b: seq<string>)
    ensures JoinLines(a + b) == JoinLines(a) + JoinLines(b)
    decreases |b|
  {
    if |b| > 0 {
      var b' := b[..|b| - 1];
      assert (a + b)[..|a + b| - 1] == a + b';
      JoinLinesAppend(a, b');
    } else {
      assert a + b == a;
    }
  }

  /** Every line of the history appears, newline-terminated, at the offset after the earlier lines. */
  lemma LineInJoin(lines: seq<string>, i: nat)
    requires i < |lines|
    ensures OccursAt(JoinLines(lines), lines[i] + "\n", |JoinLines(lines[..i])|)
  {
    assert lines == lines[..i] + [lines[i]] + lines[i + 1..];
    JoinLinesAppend(lines[..i] + [lines[i]], lines[i + 1..]);
    JoinLinesAppend(lines[..i], [lines[i]]);
    assert JoinLines([lines[i]]) == lines[i] + "\n" by {
      assert [lines[i]][..0] == [];
    }
  }

  const ContextHeader: string := "Previous conversation:\n"
  const ContextFooter: string := "Respond as the NPC:"

  /** The prompt context: the earlier lines under a header, if there are any,
      then the new player line and the closing instruction. */
  function ContextFor(history: seq<string>, message: string): string
  {
    (if |history| == 0 then "" else ContextHeader + JoinLines(history) + "\n")
      + PlayerTag + message + "\n" + ContextFooter
  }

  /** With no history the context is just the player line and the instruction;
      otherwise it opens with the header, and it always ends with the new line. */
  lemma ContextShape(history: seq<string>, message: string)
    ensures |history| == 0 ==> ContextFor(history, message) == PlayerTag + message + "\n" + ContextFooter
    ensures |history| > 0 ==> StartsWith(ContextFor(history, message), ContextHeader + JoinLines(history) + "\n")
    ensures var c := ContextFor(history, message);
            var tail := PlayerTag + message + "\n" + ContextFooter;
            |tail| <= |c| && c[|c| - |tail|..] == tail
  {
    var c := ContextFor(history, message);
    var head := if |history| == 0 then "" else ContextHeader + JoinLines(history) + "\n";
    assert c == head + (PlayerTag + message + "\n" + ContextFooter);
  }

  /** buildConversationContext, with its StringBuilder loop. */
  method BuildConversationContext(history: seq<string>, message: string) returns (context: string)
    ensures context == ContextFor(history, message)
  {
    context := "";
    if |history| > 0 {
      context := ContextHeader;
      for i := 0 to |history|
        invariant context == ContextHeader + JoinLines(history[..i])
      {
        assert history[..i + 1][..i] == history[..i];
        context := context + history[i] + "\n";
      }
      assert history[..|history|] == history;
      context := context + "\n";
    }
    context := context + PlayerTag + message + "\n";
    context := context + ContextFooter;
  }

  /** The full prompt sent to the model. */
  function FullPrompt(name: string, personality: string, history: seq<string>, message: string): string
  {
    SystemPrompt(name, personality) + "\n\n" + ContextFor(history, message)
  }

  /** The trim after an exchange: the oldest lines go until twenty remain. */
  function Trimmed(lines: seq<string>): (r: seq<string>)
    ensures |r| == if |lines| > MaxHistoryLines then MaxHistoryLines else |lines|
    ensures r == lines[|lines| - |r|..]
  {
    if |lines| > MaxHistoryLines then lines[|lines| - MaxHistoryLines..] else lines
  }

  /** The lines kept for an NPC; putIfAbsent gives an unknown NPC an empty list. */
  function LinesOf(histories: map<string, seq<string>>, name: string): seq<string>
  {
    if name in histories then histories[name] else []
  }

  /** The histories after a call with a working model: the NPC's entry exists
      either way, and a reply adds the two lines of the exchange and trims. */
  function Conversed(histories: map<string, seq<string>>, name: string, message: string,
                     response: Option<string>): map<string, seq<string>>
  {
    var lines := LinesOf(histories, name);
    match response
    case None => histories[name := lines]
    case Some(reply) => histories[name := Trimmed(lines + [PlayerTag + message, name + ": " + reply])]
  }

  /** What one NPC's history looks like: an even number of at most twenty
      lines, alternating player lines and lines in the NPC's name. */
  predicate WellFormedLines(name: string, lines: seq<string>)
  {
    && |lines| % 2 == 0 && |lines| <= MaxHistoryLines
    && AllFit(name, lines)
  }

  /** Line i of an NPC's history: a player line at even positions, the NPC's at odd ones. */
  predicate LineFits(name: string, i: nat, line: string)
  {
    if i % 2 == 0 then StartsWith(line, PlayerTag) else StartsWith(line, name + ": ")
  }

  predicate WellFormed(histories: map<string, seq<string>>)
  {
    forall name :: name in histories ==> WellFormedLines(name, histories[name])
  }

  /** A successful reply ends the NPC's history with exactly the two new lines,
      after the most recent earlier lines in order; a failed call keeps the old
      lines; no other NPC's history changes. */
  lemma ConversedUpdates(histories: map<string, seq<string>>, name: string, message: string,
                         response: Option<string>)
    ensures var after := Conversed(histories, name, message, response);
      && after.Keys == histories.Keys + {name}
      && (forall other :: other in histories && other != name ==> after[other] == histories[other])
      && (response.None? ==> after[name] == LinesOf(histories, name))
      && (response.Some? ==>
            var old_lines := LinesOf(histories, name);
            var lines := after[name];
            && |lines| == (if |old_lines| + 2 > MaxHistoryLines then MaxHistoryLines else |old_lines| + 2)
            && lines[|lines| - 2] == PlayerTag + message
            && lines[|lines| - 1] == name + ": " + response.value
            && lines[..|lines| - 2] == old_lines[|old_lines| - (|lines| - 2)..])
  {
    if response.Some? {
      var old_lines := LinesOf(histories, name);
      var all := old_lines + [PlayerTag + message, name + ": " + response.value];
      var lines := Trimmed(all);
      assert lines == all[|all| - |lines|..];
      assert lines[..|lines| - 2] == old_lines[|old_lines| - (|lines| - 2)..];
    }
  }

  /** The two appended lines have the history's shape. */
  lemma ExchangeShape(name: string, message: string, reply: string)
    ensures StartsWith(PlayerTag + message, PlayerTag)
    ensures StartsWith(name + ": " + reply, name + ": ")
  {
    assert (PlayerTag + message)[..|PlayerTag|] == PlayerTag;
    assert (name + ": " + reply)[..|name + ": "|] == name + ": ";
  }

  predicate AllFit(name: string, lines: seq<string>)
  {
    forall i :: 0 <= i < |lines| ==> LineFits(name, i, lines[i])
  }

  lemma ExchangeFits(name: string, lines: seq<string>, message: string, reply: string)
    requires |lines| % 2 == 0 && AllFit(name, lines)
    ensures AllFit(name, lines + [PlayerTag + message, name + ": " + reply])
  {
    ExchangeShape(name, message, reply);
    var all := lines + [PlayerTag + message, name + ": " + reply];
    assert LineFits(name, |lines|, all[|lines|]);
    assert LineFits(name, |lines| + 1, all[|lines| + 1]);
  }

  /** Dropping an even number of leading lines keeps the alternation. */
  lemma EvenDropFits(name: string, lines: seq<string>, drop: nat)
    requires drop <= |lines| && drop % 2 == 0 && AllFit(name, lines)
    ensures AllFit(name, lines[drop..])
  {
    forall i | 0 <= i < |lines| - drop
      ensures LineFits(name, i, lines[drop..][i])
    {
      assert (drop + i) % 2 == i % 2;
      assert LineFits(name, drop + i, lines[drop + i]);
    }
  }

  /** Trimming drops an even number of lines, so the alternation survives. */
  lemma ExchangeKeepsWellFormed(name: string, lines: seq<string>, message: string, reply: string)
    requires WellFormedLines(name, lines)
    ensures WellFormedLines(name, Trimmed(lines + [PlayerTag + message, name + ": " + reply]))
  {
    var all := lines + [PlayerTag + message, name + ": " + reply];
    ExchangeFits(name, lines, message, reply);
    var kept := Trimmed(all);
    EvenDropFits(name, all, |all| - |kept|);
  }

  lemma {:induction false} ConversedKeepsWellFormed(histories: map<string, seq<string>>, name: string,
                                                    message: string, response: Option<string>)
    requires WellFormed(histories)
    ensures WellFormed(Conversed(histories, name, message, response))
  {
    var lines := LinesOf(histories, name);
    assert WellFormedLines(name, lines);
    if response.Some? {
      ExchangeKeepsWellFormed(name, lines, message, response.value);
    }
  }

  /** What clearHistory / clearAllHistory do on a map that exists. */
  lemma ClearingKeepsWellFormed(histories: map<string, seq<string>>, name: string)
    requires WellFormed(histories)
    ensures WellFormed(histories - {name}) && WellFormed(map[])
  {
  }

  /** The outcome of a clear call: it returns, or throws a NullPointerException. */
  datatype Cleared = Returned(histories: Option<map<string, seq<string>>>) | NullPointerThrown

  /** clearHistory as written: it dereferences the map, which is null when the
      model factory threw in the constructor. */
  function ClearHistoryAsWritten(histories: Option<map<string, seq<string>>>, name: string): (r: Cleared)
    ensures r.NullPointerThrown? <==> histories.None?
    ensures histories.Some? ==> r == Returned(Some(histories.value - {name}))
  {
    if histories.None? then NullPointerThrown else Returned(Some(histories.value - {name}))
  }

  /** clearAllHistory as written, with the same dereference. */
  function ClearAllHistoryAsWritten(histories: Option<map<string, seq<string>>>): (r: Cleared)
    ensures r.NullPointerThrown? <==> histories.None?
    ensures histories.Some? ==> r == Returned(Some(map[]))
  {
    if histories.None? then NullPointerThrown else Returned(Some(map[]))
  }

  /** The history a manager starts with: an empty map, or none when the model could not be created. */
  function InitialHistories(modelCreated: bool): Option<map<string, seq<string>>>
  {
    if modelCreated then Some(map[]) else None
  }

  /** A manager whose model failed to load throws on either clear call,
      although clearing an NPC nobody spoke to is meant to change nothing. */
  lemma ClearAfterFailedStartThrows(name: string)
    ensures ClearHistoryAsWritten(InitialHistories(false), name) == NullPointerThrown
    ensures ClearAllHistoryAsWritten(InitialHistories(false)) == NullPointerThrown
  {
  }

  /** The intended clear: remove the NPC's entry if there is a map, else nothing to do. */
  function ClearedHistory(histories: Option<map<string, seq<string>>>, name: string): (r: Option<map<string, seq<string>>>)
    ensures r.Some? <==> histories.Some?
    ensures histories.Some? ==> r.value.Keys == histories.value.Keys - {name}
    ensures histories.Some? ==> forall other :: other in r.value ==> r.value[other] == histories.value[other]
  {
    if histories.None? then None else Some(histories.value - {name})
  }

  function ClearedAll(histories: Option<map<string, seq<string>>>): (r: Option<map<string, seq<string>>>)
    ensures r.Some? <==> histories.Some?
    ensures histories.Some? ==> r.value == map[]
  {
    if histories.None? then None else Some(map[])
  }

  /** The intended clears never throw, and agree with the written ones wherever those return. */
  lemma ClearedAgreesWhereWrittenReturns(histories: Option<map<string, seq<string>>>, name: string)
    ensures ClearHistoryAsWritten(histories, name).Returned? ==>
      ClearHistoryAsWritten(histories, name).histories == ClearedHistory(histories, name)
    ensures ClearAllHistoryAsWritten(histories).Returned? ==>
      ClearAllHistoryAsWritten(histories).histories == ClearedAll(histories)
  {
  }

  class ConversationManager
  {
    /** Whether the chat model was created; the model itself is the generate parameter. */
    var modelAvailable: bool
    /** None when the map was never created. */
    var histories: Option<map<string, seq<string>>>

    predicate Valid()
      reads this
    {
      && (modelAvailable ==> histories.Some?)
      && (histories.Some? ==> WellFormed(histories.value))
    }

    /** The factory's outcome is a parameter: when it throws, neither field is set. */
    constructor (modelCreated: bool)
      ensures Valid()
      ensures modelAvailable == modelCreated && histories == InitialHistories(modelCreated)
    {
      modelAvailable := modelCreated;
      histories := InitialHistories(modelCreated);
    }

    /** startConversation: generate is the model, None standing for a thrown exception. */
    method StartConversation(name: string, personality: string, message: string,
                             generate: string -> Option<string>) returns (reply: string)
      requires Valid()
      modifies this
      ensures Valid() && modelAvailable == old(modelAvailable)
      ensures !modelAvailable ==> reply == FallbackDialogue(name) && histories == old(histories)
      ensures modelAvailable ==>
        var response := generate(FullPrompt(name, personality, LinesOf(old(histories).value, name), message));
        && histories == Some(Conversed(old(histories).value, name, message, response))
        && reply == (if response.Some? then response.value else FallbackDialogue(name))
    {
      if !modelAvailable {
        return FallbackDialogue(name);
      }
      // putIfAbsent: the list the history map holds for this NPC from now on
      var lines := LinesOf(histories.value, name);
      var context := BuildConversationContext(lines, message);
      var prompt := SystemPrompt(name, personality) + "\n\n" + context;
      var response := generate(prompt);
      reply := RecordExchange(name, message, response);
    }

    /** The try block of startConversation once the model has answered (or
        thrown, None): the exchange joins the NPC's history, trimmed to the
        newest lines, and the reply is the answer or the fallback. */
    method RecordExchange(name: string, message: string, response: Option<string>) returns (reply: string)
      requires Valid() && histories.Some?
      modifies this
      ensures Valid() && modelAvailable == old(modelAvailable)
      ensures histories == Some(Conversed(old(histories).value, name, message, response))
      ensures reply == if response.Some? then response.value else FallbackDialogue(name)
    {
      var lines := LinesOf(histories.value, name);
      if response.None? {
        reply := FallbackDialogue(name);
      } else {
        lines := lines + [PlayerTag + message, name + ": " + response.value];
        if |lines| > MaxHistoryLines {
          lines := lines[|lines| - MaxHistoryLines..];
        }
        reply := response.value;
      }
      ConversedKeepsWellFormed(histories.value, name, message, response);
      histories := Some(histories.value[name := lines]);
    }

    /** The corrected clear: with no model there is nothing to clear. The code as
        written is `ClearHistoryAsWritten`. */
    method ClearHistory(name: string)
      requires Valid()
      modifies this
      ensures Valid() && modelAvailable == old(modelAvailable)
      ensures histories == ClearedHistory(old(histories), name)
    {
      histories := ClearedHistory(histories, name);
    }

    /** The corrected clear of every history; the code as written is `ClearAllHistoryAsWritten`. */
    method ClearAllHistory()
      requires Valid()
      modifies this
      ensures Valid() && modelAvailable == old(modelAvailable)
      ensures histories == ClearedAll(old(histories))
    {
      histories := ClearedAll(histories);
    }

    function IsAIAvailable(): (b: bool)
      reads this
      ensures b <==> modelAvailable
    {
      modelAvailable
    }
  }
}
