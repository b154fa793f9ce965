/** Parallel subtasks: goroutines behind a counting semaphore that write to slots of their own, and the text that is made
    of their results. */
module Coordinator {
  import opened Bytes
  import Messages

  // ---------- The schedule ----------

  /** What a goroutine has done: nothing, taken a place in the semaphore, written its slot, given the place back, and
      reported to the wait group. */
  datatype Phase = Queued | Running | Written | Released | Reported

  datatype State<R> = State(phases: seq<Phase>, slots: seq<Option<R>>, writes: seq<nat>, semaphore: nat, waitGroup: nat)

  const DEFAULT_PARALLELISM := 10

  function Capacity(maxParallelism: int, tasks: nat): nat {
    var concurrency := if maxParallelism <= 0 then DEFAULT_PARALLELISM else maxParallelism;
    if concurrency > tasks then tasks else concurrency
  }

  function Start<R>(tasks: nat): State<R> {
    State(seq(tasks, _ => Queued), seq(tasks, _ => None), seq(tasks, _ => 0), 0, tasks)
  }

  /** Goroutine `i` can take its next step. Only the first one may have to wait. */
  predicate Enabled<R>(s: State<R>, capacity: nat, i: nat) {
    i < |s.phases| && i < |s.slots| && i < |s.writes| &&
    match s.phases[i]
    case Queued => s.semaphore < capacity
    case Running => true
    case Written => s.semaphore > 0
    case Released => s.waitGroup > 0
    case Reported => false
  }

  function Next<R>(s: State<R>, capacity: nat, run: nat -> R, i: nat): State<R>
    requires Enabled(s, capacity, i)
  {
    match s.phases[i]
    case Queued => s.(phases := s.phases[i := Running], semaphore := s.semaphore + 1)
    case Running => s.(phases := s.phases[i := Written], slots := s.slots[i := Some(run(i))], writes := s.writes[i := s.writes[i] + 1])
    case Written => s.(phases := s.phases[i := Released], semaphore := s.semaphore - 1)
    case Released => s.(phases := s.phases[i := Reported], waitGroup := s.waitGroup - 1)
    case Reported => s
  }

  function Sum(phases: seq<Phase>, weight: Phase -> nat): nat {
    if phases == [] then 0 else Sum(phases[..|phases| - 1], weight) + weight(phases[|phases| - 1])
  }

  /** Places in the semaphore, entries in the wait group, and steps to come. */
  function Holds(p: Phase): nat {
    if p.Running? || p.Written? then 1 else 0
  }

  function Counts(p: Phase): nat {
    if p.Reported? then 0 else 1
  }

  function StepsLeft(p: Phase): nat {
    match p
    case Queued => 4
    case Running => 3
    case Written => 2
    case Released => 1
    case Reported => 0
  }

  predicate HasWritten(p: Phase) {
    p.Written? || p.Released? || p.Reported?
  }

  predicate SlotOk<R(==)>(s: State<R>, run: nat -> R, i: nat)
    requires i < |s.phases| == |s.slots| == |s.writes|
  {
    s.slots[i] == (if HasWritten(s.phases[i]) then Some(run(i)) else None) && s.writes[i] == (if HasWritten(s.phases[i]) then 1 else 0)
  }

  ghost predicate Inv<R>(s: State<R>, capacity: nat, run: nat -> R, tasks: nat) {
    && |s.phases| == |s.slots| == |s.writes| == tasks
    && s.semaphore == Sum(s.phases, Holds) <= capacity
    && s.waitGroup == Sum(s.phases, Counts)
    && forall i :: 0 <= i < tasks ==> SlotOk(s, run, i)
  }

  lemma {:induction false} SumUpdate(phases: seq<Phase>, i: nat, p: Phase, weight: Phase -> nat)
    requires i < |phases|
    ensures Sum(phases[i := p], weight) + weight(phases[i]) == Sum(phases, weight) + weight(p)
  {
    var n := |phases| - 1;
    if i == n {
      assert phases[i := p][..n] == phases[..n];
    } else {
      SumUpdate(phases[..n], i, p, weight);
      assert phases[i := p][..n] == phases[..n][i := p];
    }
  }

  lemma {:induction false} SumUniform(phases: seq<Phase>, p: Phase, weight: Phase -> nat)
    requires forall i :: 0 <= i < |phases| ==> phases[i] == p
    ensures Sum(phases, weight) == |phases| * weight(p)
  {
    if phases == [] {
    } else {
      SumUniform(phases[..|phases| - 1], p, weight);
    }
  }

  lemma {:induction false} SumAtLeast(phases: seq<Phase>, i: nat, weight: Phase -> nat)
    requires i < |phases|
    ensures Sum(phases, weight) >= weight(phases[i])
  {
    SumUpdate(phases, i, Reported, weight);
    if i < |phases| - 1 {
      SumAtLeast(phases[..|phases| - 1], i, weight);
    }
  }

  lemma {:induction false} SumZero(phases: seq<Phase>, weight: Phase -> nat)
    requires Sum(phases, weight) == 0
    ensures forall i :: 0 <= i < |phases| ==> weight(phases[i]) == 0
  {
    forall i | 0 <= i < |phases|
      ensures weight(phases[i]) == 0
    {
      SumAtLeast(phases, i, weight);
    }
  }

  lemma {:induction false} StartInv<R>(tasks: nat, maxParallelism: int, run: nat -> R)
    ensures Inv(Start(tasks), Capacity(maxParallelism, tasks), run, tasks)
    ensures Sum(Start<R>(tasks).phases, StepsLeft) == 4 * tasks
  {
    var s := Start<R>(tasks);
    SumUniform(s.phases, Queued, Holds);
    SumUniform(s.phases, Queued, Counts);
    SumUniform(s.phases, Queued, StepsLeft);
  }

  lemma {:induction false} StepInv<R>(s: State<R>, capacity: nat, run: nat -> R, tasks: nat, i: nat)
    requires Inv(s, capacity, run, tasks) && Enabled(s, capacity, i)
    ensures Inv(Next(s, capacity, run, i), capacity, run, tasks)
    ensures Sum(Next(s, capacity, run, i).phases, StepsLeft) + 1 == Sum(s.phases, StepsLeft)
  {
    var t := Next(s, capacity, run, i);
    var p := t.phases[i];
    assert t.phases == s.phases[i := p];
    SumUpdate(s.phases, i, p, Holds);
    SumUpdate(s.phases, i, p, Counts);
    SumUpdate(s.phases, i, p, StepsLeft);
    forall j | 0 <= j < tasks
      ensures SlotOk(t, run, j)
    {
      assert SlotOk(s, run, j);
    }
  }

  /** As long as a goroutine has not reported, some goroutine can take a step: there is no deadlock. */
  lemma {:induction false} Progress<R>(s: State<R>, maxParallelism: int, run: nat -> R, tasks: nat)
    requires Inv(s, Capacity(maxParallelism, tasks), run, tasks) && s.waitGroup > 0
    ensures exists i: nat :: Enabled(s, Capacity(maxParallelism, tasks), i)
  {
    var capacity := Capacity(maxParallelism, tasks);
    if i: nat :| i < tasks && !s.phases[i].Queued? && !s.phases[i].Reported? {
      SumAtLeast(s.phases, i, Holds);
      assert Enabled(s, capacity, i);
    } else {
      HoldsNothing(s.phases);
      if forall i :: 0 <= i < tasks ==> s.phases[i].Reported? {
        SumUniform(s.phases, Reported, Counts);
      }
      var i: nat :| i < tasks && s.phases[i].Queued?;
      assert Enabled(s, capacity, i);
    }
  }

  lemma {:induction false} HoldsNothing(phases: seq<Phase>)
    requires forall i :: 0 <= i < |phases| ==> phases[i].Queued? || phases[i].Reported?
    ensures Sum(phases, Holds) == 0
  {
    if phases == [] {
    } else {
      HoldsNothing(phases[..|phases| - 1]);
    }
  }

  /** The state after a schedule: who takes the first step, who the second, and so on. */
  function After<R>(s: State<R>, capacity: nat, run: nat -> R, schedule: seq<nat>): Option<State<R>>
    decreases schedule
  {
    if schedule == [] then Some(s)
    else if Enabled(s, capacity, schedule[0]) then After(Next(s, capacity, run, schedule[0]), capacity, run, schedule[1..])
    else None
  }

  lemma {:induction false} AfterInv<R>(s: State<R>, capacity: nat, run: nat -> R, tasks: nat, schedule: seq<nat>)
    requires Inv(s, capacity, run, tasks) && After(s, capacity, run, schedule).Some?
    ensures var t := After(s, capacity, run, schedule).value;
            Inv(t, capacity, run, tasks) && Sum(t.phases, StepsLeft) + |schedule| == Sum(s.phases, StepsLeft)
    decreases schedule
  {
    if schedule == [] {
    } else {
      StepInv(s, capacity, run, tasks, schedule[0]);
      AfterInv(Next(s, capacity, run, schedule[0]), capacity, run, tasks, schedule[1..]);
    }
  }

  /** Main result: under every schedule at most as many children run as the semaphore has places, no slot is written twice,
      and the schedule can always go on until all goroutines have reported, which takes four steps for each. Then the slots
      hold what running the tasks one after the other would give. */
  lemma {:induction false} ParallelIsSequential<R>(tasks: nat, maxParallelism: int, run: nat -> R, schedule: seq<nat>)
    requires After(Start(tasks), Capacity(maxParallelism, tasks), run, schedule).Some?
    ensures var capacity := Capacity(maxParallelism, tasks);
            var t := After(Start(tasks), capacity, run, schedule).value;
            && Sum(t.phases, Holds) <= capacity
            && (forall i :: 0 <= i < |t.writes| ==> t.writes[i] <= 1)
            && |schedule| <= 4 * tasks
            && (|schedule| < 4 * tasks ==> exists i: nat :: Enabled(t, capacity, i))
            && (t.waitGroup == 0 <==> |schedule| == 4 * tasks)
            && (t.waitGroup == 0 ==> t.slots == seq(tasks, i requires 0 <= i < tasks => Some(run(i))))
  {
    var capacity := Capacity(maxParallelism, tasks);
    var t := After(Start(tasks), capacity, run, schedule).value;
    StartInv(tasks, maxParallelism, run);
    AfterInv(Start(tasks), capacity, run, tasks, schedule);
    forall i | 0 <= i < tasks
      ensures t.writes[i] <= 1
    {
      assert SlotOk(t, run, i);
    }
    if |schedule| == 4 * tasks {
      SumZero(t.phases, StepsLeft);
      forall i | 0 <= i < tasks
        ensures t.phases[i] == Reported
      {
        assert StepsLeft(t.phases[i]) == 0;
      }
      SumUniform(t.phases, Reported, Counts);
    }
    if t.waitGroup == 0 {
      SumZero(t.phases, Counts);
      forall i | 0 <= i < tasks
        ensures t.phases[i] == Reported && t.slots[i] == Some(run(i))
      {
        assert SlotOk(t, run, i) && Counts(t.phases[i]) == 0;
      }
      SumUniform(t.phases, Reported, StepsLeft);
    } else {
      Progress(t, maxParallelism, run, tasks);
    }
  }

  // ---------- The collected text ----------

  datatype TaskResult = Answered(id: string, response: string, turns: nat, tokens: nat) | Failed(id: string, error: string)

  function TaskBudget(maxChars: int, tasks: nat): nat {
    if maxChars > 0 && tasks > 0 then maxChars / tasks else 0
  }

  /** How much of a response is kept. */
  function Kept(r: TaskResult, budget: nat): string {
    if r.Failed? then ""
    else if budget > 0 && |r.response| > budget then r.response[..budget]
    else r.response
  }

  function CutMark(length: nat): string {
    "\n[... truncated, original: " + Messages.Decimal(length) + " chars ...]"
  }

  function TaskHeader(id: string, turns: nat, tokens: nat): string {
    "\n--- Task " + id + " (" + Messages.Decimal(turns) + " turns, " + Messages.Decimal(tokens) + " tokens) ---\n"
  }

  function TaskText(r: TaskResult, budget: nat): string {
    match r
    case Failed(id, error) => "\n--- Task " + id + ": FAILED ---\n" + error + "\n"
    case Answered(id, response, turns, tokens) =>
      var mark := if Kept(r, budget) != response then CutMark(|response|) else "";
      TaskHeader(id, turns, tokens) + Kept(r, budget) + mark + "\n"
  }

  function AllTexts(results: seq<TaskResult>, budget: nat): string {
    if results == [] then "" else AllTexts(results[..|results| - 1], budget) + TaskText(results[|results| - 1], budget)
  }

  function Header(tasks: nat): string {
    "[Coordinated results: " + Messages.Decimal(tasks) + " tasks]\n"
  }

  method AggregateResults(results: seq<TaskResult>, maxChars: int) returns (text: string)
    ensures text == Header(|results|) + AllTexts(results, TaskBudget(maxChars, |results|))
  {
    text := Header(|results|);
    var perTaskBudget := TaskBudget(maxChars, |results|);
    text := AppendTexts(text, results, perTaskBudget);
  }

  method AppendTexts(start: string, results: seq<TaskResult>, budget: nat) returns (text: string)
    ensures text == start + AllTexts(results, budget)
  {
    text := start;
    for i := 0 to |results|
      invariant text == start + AllTexts(results[..i], budget)
    {
      AllTextsStep(results, i, budget);
      Associative(start, AllTexts(results[..i], budget), TaskText(results[i], budget));
      var part := DescribeTask(results[i], budget);
      text := text + part;
    }
    assert results[..|results|] == results;
  }

  lemma {:induction false} AllTextsStep(results: seq<TaskResult>, i: nat, budget: nat)
    requires i < |results|
    ensures AllTexts(results[..i + 1], budget) == AllTexts(results[..i], budget) + TaskText(results[i], budget)
  {
    assert results[..i + 1][..i] == results[..i];
  }

  method DescribeTask(r: TaskResult, budget: nat) returns (text: string)
    ensures text == TaskText(r, budget)
  {
    if r.Failed? {
      return "\n--- Task " + r.id + ": FAILED ---\n" + r.error + "\n";
    }
    var content := r.response;
    var mark := "";
    if budget > 0 && |content| > budget {
      mark := CutMark(|content|);
      content := content[..budget];
    }
    text := TaskHeader(r.id, r.turns, r.tokens) + content + mark + "\n";
  }

  function KeptChars(results: seq<TaskResult>, budget: nat): nat {
    if results == [] then 0 else KeptChars(results[..|results| - 1], budget) + |Kept(results[|results| - 1], budget)|
  }

  lemma {:induction false} KeptWithin(results: seq<TaskResult>, budget: nat)
    requires budget > 0
    ensures KeptChars(results, budget) <= |results| * budget
  {
    if results == [] {
    } else {
      var n := |results| - 1;
      KeptWithin(results[..n], budget);
      Distribute(n, budget);
    }
  }

  /** A budget of at least one character a task is kept in total. With fewer characters than tasks the budget of each task
      comes out as 0, which means no limit: then everything is kept. */
  lemma {:induction false} BudgetKept(results: seq<TaskResult>, maxChars: int)
    requires results != [] && maxChars > 0
    ensures maxChars >= |results| ==> KeptChars(results, TaskBudget(maxChars, |results|)) <= maxChars
    ensures maxChars < |results| ==> forall r :: r in results && r.Answered? ==> Kept(r, TaskBudget(maxChars, |results|)) == r.response
  {
    Quotient(maxChars, |results|);
    if maxChars >= |results| {
      KeptWithin(results, maxChars / |results|);
    }
  }

  lemma {:induction false} Distribute(n: nat, b: nat)
    ensures (n + 1) * b == n * b + b
  {}

  lemma {:induction false} Quotient(a: nat, n: nat)
    requires n > 0
    ensures n * (a / n) <= a && (a / n == 0 <==> a < n)
  {
    assert a == n * (a / n) + a % n;
  }

  /** The semaphore has as many places as configured, 10 if that is not positive, and never more than there are tasks. */
  lemma {:induction false} CapacityMeaning(maxParallelism: int, tasks: nat)
    ensures var c := Capacity(maxParallelism, tasks);
            var wanted := if maxParallelism > 0 then maxParallelism else 10;
            c <= wanted && c <= tasks && (c == wanted || c == tasks)
  {}

  /** As much of a response is kept as the budget of its task allows, from the beginning; 0 is no limit. */
  lemma {:induction false} KeptMeaning(r: TaskResult, budget: nat)
    requires r.Answered?
    ensures var text := Kept(r, budget);
            && text <= r.response
            && (budget == 0 || |r.response| <= budget ==> text == r.response)
            && (0 < budget < |r.response| ==> |text| == budget)
  {}

  /** The part of one task: its name, turns and tokens, what is kept of its response, and a mark if that is not all. */
  lemma {:induction false} TaskTextMeaning(r: TaskResult, budget: nat)
    ensures r.Failed? ==> TaskText(r, budget) == "\n--- Task " + r.id + ": FAILED ---\n" + r.error + "\n"
    ensures r.Answered? && Kept(r, budget) == r.response ==>
              TaskText(r, budget) == ("\n--- Task " + r.id + " (" + Messages.Decimal(r.turns) + " turns, " + Messages.Decimal(r.tokens)
                                      + " tokens) ---\n") + r.response + "\n"
    ensures r.Answered? && Kept(r, budget) != r.response ==>
              TaskText(r, budget) == ("\n--- Task " + r.id + " (" + Messages.Decimal(r.turns) + " turns, " + Messages.Decimal(r.tokens)
                                      + " tokens) ---\n") + Kept(r, budget)
                                     + ("\n[... truncated, original: " + Messages.Decimal(|r.response|) + " chars ...]") + "\n"
  {
    if r.Answered? {
      assert TaskHeader(r.id, r.turns, r.tokens) + r.response + "" == TaskHeader(r.id, r.turns, r.tokens) + r.response;
    }
  }

  /** The parts stand one after the other, in the order of the tasks, behind a line with their number. */
  lemma {:induction false} TextsInOrder(a: seq<TaskResult>, b: seq<TaskResult>, budget: nat)
    ensures AllTexts(a + b, budget) == AllTexts(a, budget) + AllTexts(b, budget)
    ensures forall r :: AllTexts([r], budget) == TaskText(r, budget)
    ensures Header(|a|) == "[Coordinated results: " + Messages.Decimal(|a|) + " tasks]\n"
  {
    forall r
      ensures AllTexts([r], budget) == TaskText(r, budget)
    {
      assert [r][..0] == [];
    }
    TextsConcat(a, b, budget);
  }

  lemma {:induction false} TextsConcat(a: seq<TaskResult>, b: seq<TaskResult>, budget: nat)
    ensures AllTexts(a + b, budget) == AllTexts(a, budget) + AllTexts(b, budget)
  {
    if b == [] {
      assert a + b == a;
    } else {
      var n := |b| - 1;
      assert (a + b)[..|a + b| - 1] == a + b[..n];
      TextsConcat(a, b[..n], budget);
      Associative(AllTexts(a, budget), AllTexts(b[..n], budget), TaskText(b[n], budget));
    }
  }

  /** Each task gets an equal share of the characters; without a limit there is none. */
  lemma {:induction false} ShareMeaning(maxChars: int, tasks: nat)
    ensures var share := TaskBudget(maxChars, tasks);
            && (maxChars <= 0 || tasks == 0 ==> share == 0)
            && (maxChars > 0 && tasks > 0 ==> tasks * share <= maxChars < tasks * (share + 1))
  {
    if maxChars > 0 && tasks > 0 {
      assert maxChars == tasks * (maxChars / tasks) + maxChars % tasks;
    }
  }
}
