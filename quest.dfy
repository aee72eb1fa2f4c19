/** A quest: text fields filled in by the generator, a progress counter
    against a target count, a completion flag, a reward in gold. */
module Quests {
  import opened Common
  import opened Text

  /** The fields of a Quest; a String field that was never set is None (Java null). */
  datatype QuestState = QuestState(
    id: string, title: Option<string>, description: Option<string>, kind: Option<string>,
    objective: Option<string>, count: int, progress: int, reward: int,
    completed: bool, active: bool)

  /** The constructor: a fresh id (the random UUID is a parameter), no
      progress, a target of one, not completed, not active, no text yet. */
  function NewQuest(id: string): (q: QuestState)
    ensures q.id == id && q.progress == 0 && q.count == 1 && q.reward == 0
    ensures !q.completed && !q.active
    ensures q.title == q.description == q.kind == q.objective == None
  {
    QuestState(id, None, None, None, None, 1, 0, 0, false, false)
  }

  /** incrementProgress: one more step, and completed once the count is reached. */
  function Incremented(q: QuestState): (r: QuestState)
    ensures r.progress == q.progress + 1
    ensures r.completed <==> q.completed || q.progress + 1 >= q.count
    ensures r == q.(progress := r.progress, completed := r.completed)
  {
    var stepped := q.(progress := q.progress + 1);
    if stepped.progress >= stepped.count then stepped.(completed := true) else stepped
  }

  function IncrementedTimes(q: QuestState, k: nat): QuestState
    decreases k
  {
    if k == 0 then q else Incremented(IncrementedTimes(q, k - 1))
  }

  /** After k increments the progress is k higher, and the quest is complete
      exactly when it already was or k > 0 and the progress reached the count;
      nothing else changes. */
  lemma {:induction false} IncrementsComplete(q: QuestState, k: nat)
    ensures IncrementedTimes(q, k).progress == q.progress + k
    ensures IncrementedTimes(q, k).completed <==> q.completed || (k > 0 && q.progress + k >= q.count)
    ensures IncrementedTimes(q, k) == q.(progress := q.progress + k, completed := IncrementedTimes(q, k).completed)
    decreases k
  {
    if k > 0 {
      IncrementsComplete(q, k - 1);
    }
  }

  /** With the default count of one, a single increment completes a new quest. */
  lemma OneStepCompletesNewQuest(id: string)
    ensures Incremented(NewQuest(id)).completed && Incremented(NewQuest(id)).progress == 1
  {
  }

  /** A kill quest for k enemies is still open after k - 1 increments and done after k. */
  lemma CountIsReachedExactly(q: QuestState, k: nat)
    requires q.progress == 0 && !q.completed && k == q.count && k >= 1
    ensures !IncrementedTimes(q, k - 1).completed && IncrementedTimes(q, k).completed
  {
    IncrementsComplete(q, k - 1);
    IncrementsComplete(q, k);
  }

  /** How `%s` renders a String: "null" for null. */
  function Render(s: Option<string>): string
  {
    if s.None? then "null" else s.value
  }

  const RewardSuffix: string := " gold)"

  /** toString: "[type] title - description (Reward: N gold)". */
  function Describe(q: QuestState): (r: string)
    ensures |r| >= |RewardSuffix| && r[|r| - |RewardSuffix|..] == RewardSuffix
    ensures |r| > |Render(q.kind)| + 1 && r[..|Render(q.kind)| + 1] == "[" + Render(q.kind)
  {
    "[" + Render(q.kind) + "] " + Render(q.title) + " - " + Render(q.description)
      + " (Reward: " + IntToString(q.reward) + RewardSuffix
  }

  /** Reads the reward back from the end of a toString text, if it has that shape. */
  function RewardIn(text: string): Option<int>
  {
    if |text| < |RewardSuffix| + 1 || text[|text| - |RewardSuffix|..] != RewardSuffix then None
    else
      var end := |text| - |RewardSuffix|;
      var number := text[RunStart(text, end)..end];
      if IsIntText(number) then Some(ParseInt(number)) else None
  }

  /** The reward always reads back from the rendered text, whatever the other fields hold. */
  lemma DescribeKeepsReward(q: QuestState)
    ensures RewardIn(Describe(q)) == Some(q.reward)
  {
    var p := "[" + Render(q.kind) + "] " + Render(q.title) + " - " + Render(q.description) + " (Reward: ";
    var n := IntToString(q.reward);
    IntToStringRoundTrip(q.reward);
    var text := Describe(q);
    assert text == p + n + RewardSuffix;
    RunStartFinds(p, n, RewardSuffix, |p| + |n|);
    assert text[|p|..|p| + |n|] == n;
  }

  class Quest
  {
    var id: string
    var title: Option<string>
    var description: Option<string>
    var kind: Option<string>
    var objective: Option<string>
    var count: int
    var progress: int
    var reward: int
    var completed: bool
    var active: bool

    function State(): QuestState
      reads this
    {
      QuestState(id, title, description, kind, objective, count, progress, reward, completed, active)
    }

    constructor (id: string)
      ensures State() == NewQuest(id)
    {
      this.id := id;
      title := None;
      description := None;
      kind := None;
      objective := None;
      count := 1;
      progress := 0;
      reward := 0;
      completed := false;
      active := false;
    }

    method IncrementProgress()
      modifies this
      ensures State() == Incremented(old(State()))
    {
      progress := progress + 1;
      if progress >= count {
        completed := true;
      }
    }

    function GetId(): (r: string)
      reads this
      ensures r == State().id
    {
      id
    }

    function GetTitle(): (r: Option<string>)
      reads this
      ensures r == State().title
    {
      title
    }

    method SetTitle(t: string)
      modifies this
      ensures State() == old(State()).(title := Some(t))
    {
      title := Some(t);
    }

    function GetDescription(): (r: Option<string>)
      reads this
      ensures r == State().description
    {
      description
    }

    method SetDescription(d: string)
      modifies this
      ensures State() == old(State()).(description := Some(d))
    {
      description := Some(d);
    }

    function GetKind(): (r: Option<string>)
      reads this
      ensures r == State().kind
    {
      kind
    }

    method SetKind(k: string)
      modifies this
      ensures State() == old(State()).(kind := Some(k))
    {
      kind := Some(k);
    }

    function GetObjective(): (r: Option<string>)
      reads this
      ensures r == State().objective
    {
      objective
    }

    method SetObjective(o: string)
      modifies this
      ensures State() == old(State()).(objective := Some(o))
    {
      objective := Some(o);
    }

    function GetCount(): (r: int)
      reads this
      ensures r == State().count
    {
      count
    }

    method SetCount(c: int)
      modifies this
      ensures State() == old(State()).(count := c)
    {
      count := c;
    }

    function GetProgress(): (r: int)
      reads this
      ensures r == State().progress
    {
      progress
    }

    function GetReward(): (r: int)
      reads this
      ensures r == State().reward
    {
      reward
    }

    method SetReward(r: int)
      modifies this
      ensures State() == old(State()).(reward := r)
    {
      reward := r;
    }

    function IsCompleted(): (r: bool)
      reads this
      ensures r == State().completed
    {
      completed
    }

    method SetCompleted(c: bool)
      modifies this
      ensures State() == old(State()).(completed := c)
    {
      completed := c;
    }

    function IsActive(): (r: bool)
      reads this
      ensures r == State().active
    {
      active
    }

    method SetActive(a: bool)
      modifies this
      ensures State() == old(State()).(active := a)
    {
      active := a;
    }

    function ToString(): (r: string)
      reads this
      ensures r == Describe(State())
      ensures RewardIn(r) == Some(State().reward)
    {
      DescribeKeepsReward(State());
      Describe(State())
    }
  }
}
