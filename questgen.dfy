/** The quest generator: a quest type drawn from five, then a builder per
    type that fills a new quest from fixed word lists and further draws.
    Every `random.nextInt(bound)` result is a parameter below its bound. */
module QuestGen {
  import opened Common
  import opened Text
  import opened Quests

  const QuestTypes: seq<string> := ["FETCH", "KILL", "ESCORT", "EXPLORE", "TALK"]
  const QuestItems: seq<string> := ["Ancient Sword", "Magic Crystal", "Healing Herb", "Lost Letter", "Golden Key"]
  const QuestEnemies: seq<string> := ["Goblin Chief", "Dark Wizard", "Giant Spider", "Skeleton Warrior", "Troll King"]
  const QuestLocations: seq<string> := ["Ancient Ruins", "Dark Forest", "Abandoned Mine", "Cursed Temple", "Mountain Peak"]
  const TalkNpcs: seq<string> := ["Wise Sage", "Village Chief", "Mysterious Hermit", "Royal Guard"]

  datatype Builder = FetchBuilder | KillBuilder | EscortBuilder | ExploreBuilder | TalkBuilder

  /** The switch on the drawn type name; an unknown name falls back to fetch. */
  function BuilderFor(kind: string): Builder
  {
    if kind == "FETCH" then FetchBuilder
    else if kind == "KILL" then KillBuilder
    else if kind == "ESCORT" then EscortBuilder
    else if kind == "EXPLORE" then ExploreBuilder
    else if kind == "TALK" then TalkBuilder
    else FetchBuilder
  }

  /** The bounds of the draws each builder makes, in call order. */
  function DrawBounds(b: Builder): seq<nat>
  {
    match b
    case FetchBuilder => [|QuestItems|, |QuestLocations|, 50]
    case KillBuilder => [|QuestEnemies|, 5, 75]
    case EscortBuilder => [|QuestLocations|, 60]
    case ExploreBuilder => [|QuestLocations|, 50]
    case TalkBuilder => [|TalkNpcs|, 40]
  }

  predicate ValidDraws(b: Builder, draws: seq<nat>)
  {
    |draws| == |DrawBounds(b)| && forall i :: 0 <= i < |draws| ==> draws[i] < DrawBounds(b)[i]
  }

  function Filled(id: string, title: string, description: string, kind: string, objective: string, reward: int): QuestState
  {
    NewQuest(id).(title := Some(title), description := Some(description), kind := Some(kind),
                  objective := Some(objective), reward := reward)
  }

  function FetchQuest(id: string, itemDraw: nat, locationDraw: nat, rewardDraw: nat): (q: QuestState)
    requires itemDraw < |QuestItems| && locationDraw < |QuestLocations| && rewardDraw < 50
    ensures q.title == Some("Retrieve the " + QuestItems[itemDraw])
    ensures q.description == Some("Find and bring back the " + QuestItems[itemDraw] + " from the " + QuestLocations[locationDraw] + ".")
    ensures q.objective == Some(QuestItems[itemDraw]) && 50 <= q.reward <= 99
  {
    var item := QuestItems[itemDraw];
    var location := QuestLocations[locationDraw];
    Filled(id, "Retrieve the " + item, "Find and bring back the " + item + " from the " + location + ".",
           "FETCH", item, rewardDraw + 50)
  }

  function KillQuest(id: string, enemyDraw: nat, countDraw: nat, rewardDraw: nat): (q: QuestState)
    requires enemyDraw < |QuestEnemies| && countDraw < 5 && rewardDraw < 75
    ensures q.title == Some("Defeat the " + QuestEnemies[enemyDraw])
    ensures q.objective == Some(QuestEnemies[enemyDraw]) && 1 <= q.count <= 5 && 75 <= q.reward <= 149
  {
    var enemy := QuestEnemies[enemyDraw];
    var count := countDraw + 1;
    Filled(id, "Defeat the " + enemy,
           "Hunt down and defeat " + IntToString(count) + " " + enemy + "(s) that have been terrorizing the area.",
           "KILL", enemy, rewardDraw + 75).(count := count)
  }

  function EscortQuest(id: string, locationDraw: nat, rewardDraw: nat): (q: QuestState)
    requires locationDraw < |QuestLocations| && rewardDraw < 60
    ensures q.title == Some("Escort to " + QuestLocations[locationDraw])
    ensures q.objective == Some(QuestLocations[locationDraw]) && 40 <= q.reward <= 99
  {
    var location := QuestLocations[locationDraw];
    Filled(id, "Escort to " + location, "Safely escort a merchant to the " + location + ".",
           "ESCORT", location, rewardDraw + 40)
  }

  function ExploreQuest(id: string, locationDraw: nat, rewardDraw: nat): (q: QuestState)
    requires locationDraw < |QuestLocations| && rewardDraw < 50
    ensures q.title == Some("Explore the " + QuestLocations[locationDraw])
    ensures q.objective == Some(QuestLocations[locationDraw]) && 30 <= q.reward <= 79
  {
    var location := QuestLocations[locationDraw];
    Filled(id, "Explore the " + location, "Venture into the " + location + " and discover its secrets.",
           "EXPLORE", location, rewardDraw + 30)
  }

  function TalkQuest(id: string, npcDraw: nat, rewardDraw: nat): (q: QuestState)
    requires npcDraw < |TalkNpcs| && rewardDraw < 40
    ensures q.title == Some("Speak with " + TalkNpcs[npcDraw])
    ensures q.objective == Some(TalkNpcs[npcDraw]) && 20 <= q.reward <= 59
  {
    var npc := TalkNpcs[npcDraw];
    Filled(id, "Speak with " + npc, "Find and talk to " + npc + " to gather important information.",
           "TALK", npc, rewardDraw + 20)
  }

  /** generateQuest: the first draw picks the type, the rest go to its builder. */
  function GenerateQuest(id: string, typeDraw: nat, draws: seq<nat>): QuestState
    requires typeDraw < |QuestTypes| && ValidDraws(BuilderFor(QuestTypes[typeDraw]), draws)
  {
    match BuilderFor(QuestTypes[typeDraw])
    case FetchBuilder => FetchQuest(id, draws[0], draws[1], draws[2])
    case KillBuilder => KillQuest(id, draws[0], draws[1], draws[2])
    case EscortBuilder => EscortQuest(id, draws[0], draws[1])
    case ExploreBuilder => ExploreQuest(id, draws[0], draws[1])
    case TalkBuilder => TalkQuest(id, draws[0], draws[1])
  }

  /** The word list a builder draws its objective from. */
  function ObjectivePool(b: Builder): seq<string>
  {
    match b
    case FetchBuilder => QuestItems
    case KillBuilder => QuestEnemies
    case EscortBuilder => QuestLocations
    case ExploreBuilder => QuestLocations
    case TalkBuilder => TalkNpcs
  }

  function TitlePrefix(b: Builder): string
  {
    match b
    case FetchBuilder => "Retrieve the "
    case KillBuilder => "Defeat the "
    case EscortBuilder => "Escort to "
    case ExploreBuilder => "Explore the "
    case TalkBuilder => "Speak with "
  }

  /** The inclusive reward range of each builder: nextInt(n) + base reaches base + n - 1. */
  function RewardRange(b: Builder): (int, int)
  {
    match b
    case FetchBuilder => (50, 99)
    case KillBuilder => (75, 149)
    case EscortBuilder => (40, 99)
    case ExploreBuilder => (30, 79)
    case TalkBuilder => (20, 59)
  }

  /** The drawn type name is never unknown, so the fallback never runs. */
  lemma TypeNamesItsBuilder(typeDraw: nat)
    requires typeDraw < |QuestTypes|
    ensures BuilderFor(QuestTypes[typeDraw]) ==
      [FetchBuilder, KillBuilder, EscortBuilder, ExploreBuilder, TalkBuilder][typeDraw]
  {
  }

  /** What every generated quest satisfies: its type field names the type that
      was drawn; the objective comes from the builder's fixed list and ends the
      title; the reward lies in the builder's range; only a kill quest has a
      count other than one, and then it is 1..5; and it is a new quest. */
  lemma GeneratedQuest(id: string, typeDraw: nat, draws: seq<nat>)
    requires typeDraw < |QuestTypes| && ValidDraws(BuilderFor(QuestTypes[typeDraw]), draws)
    ensures var q := GenerateQuest(id, typeDraw, draws);
      var b := BuilderFor(QuestTypes[typeDraw]);
      && q.kind == Some(QuestTypes[typeDraw])
      && q.objective.Some? && q.objective.value in ObjectivePool(b)
      && q.title == Some(TitlePrefix(b) + q.objective.value)
      && RewardRange(b).0 <= q.reward <= RewardRange(b).1
      && (b == KillBuilder ==> 1 <= q.count <= 5)
      && (b != KillBuilder ==> q.count == 1)
      && q.id == id && q.progress == 0 && !q.completed && !q.active
  {
    TypeNamesItsBuilder(typeDraw);
    var q := GenerateQuest(id, typeDraw, draws);
    match BuilderFor(QuestTypes[typeDraw])
    case FetchBuilder => assert q == FetchQuest(id, draws[0], draws[1], draws[2]);
    case KillBuilder => assert q == KillQuest(id, draws[0], draws[1], draws[2]);
    case EscortBuilder => assert q == EscortQuest(id, draws[0], draws[1]);
    case ExploreBuilder => assert q == ExploreQuest(id, draws[0], draws[1]);
    case TalkBuilder => assert q == TalkQuest(id, draws[0], draws[1]);
  }

  /** Every reward in a builder's range is reachable by some draw. */
  lemma EveryRewardReachable(typeDraw: nat, reward: int)
    requires typeDraw < |QuestTypes|
    requires RewardRange(BuilderFor(QuestTypes[typeDraw])).0 <= reward <= RewardRange(BuilderFor(QuestTypes[typeDraw])).1
    ensures exists draws :: (ValidDraws(BuilderFor(QuestTypes[typeDraw]), draws) &&
                             GenerateQuest("", typeDraw, draws).reward == reward)
  {
    TypeNamesItsBuilder(typeDraw);
    var b := BuilderFor(QuestTypes[typeDraw]);
    var d: nat := reward - RewardRange(b).0;
    var draws := if |DrawBounds(b)| == 3 then [0, 0, d] else [0, d];
    assert ValidDraws(b, draws);
    assert GenerateQuest("", typeDraw, draws).reward == reward;
  }
}
