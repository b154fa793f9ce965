/** Engines that start child engines: the run loop, delegation and coordination call each other. Which step a turn takes is
    up to an arbitrary world, addressed by the path from the outermost engine to the one that asks. */
module Delegation {

  datatype Config = Config(maxTurns: nat, hasTools: bool, delegateEnabled: bool, coordinatorEnabled: bool)

  /** What the router chooses. */
  datatype Choice =
    | Answer
    | UseTool
    | RepeatSkill
    | DelegateTask(argumentsOk: bool, worktree: bool, worktreeFails: bool)
    | CoordinateTasks(argumentsOk: bool, tasks: nat)

  datatype Decision = Decision(choice: Choice, stops: bool)

  type World = (seq<nat>, nat) -> Decision

  /** Completer calls, how deep engines were nested, and how many worktrees were made. */
  datatype Cost = Cost(calls: nat, depth: nat, worktrees: nat)

  const FREE := Cost(0, 0, 0)

  function Join(a: Cost, b: Cost): Cost {
    Cost(a.calls + b.calls, Max(a.depth, b.depth), a.worktrees + b.worktrees)
  }

  function Max(a: nat, b: nat): nat {
    if a < b then b else a
  }

  lemma {:induction false} JoinMore(a: Cost, b: Cost, c: Cost)
    ensures Join(a, Join(b, c)) == Join(Join(a, b), c)
  {}

  lemma {:induction false} JoinFree(a: Cost)
    ensures Join(a, FREE) == a == Join(FREE, a)
  {}

  predicate MayDelegate(cfg: Config) {
    cfg.delegateEnabled || cfg.coordinatorEnabled
  }

  function Level(cfg: Config): nat {
    if MayDelegate(cfg) then 1 else 0
  }

  /** A child has the settings of its parent but can start no children itself. */
  function Fork(cfg: Config): (child: Config)
    ensures Level(child) == 0 && child.maxTurns == cfg.maxTurns && child.hasTools == cfg.hasTools
  {
    cfg.(delegateEnabled := false, coordinatorEnabled := false)
  }

  // ---------- What a run costs ----------

  /** The cost of `left` turns from turn `turn` on, up to the first one that stops the run. */
  function Sum(steps: nat -> Cost, stops: nat -> bool, turn: nat, left: nat): Cost
    decreases left
  {
    if left == 0 then FREE
    else if stops(turn) then steps(turn)
    else Join(steps(turn), Sum(steps, stops, turn + 1, left - 1))
  }

  function Steps(cfg: Config, world: World, path: seq<nat>): nat -> Cost
    decreases Level(cfg), 3
  {
    (turn: nat) => StepCost(cfg, world, path, turn)
  }

  function Stops(world: World, path: seq<nat>): nat -> bool {
    (turn: nat) => world(path, turn).stops
  }

  function RunCost(cfg: Config, world: World, path: seq<nat>): Cost
    decreases Level(cfg), 4
  {
    Sum(Steps(cfg, world, path), Stops(world, path), 0, cfg.maxTurns)
  }

  function StepCost(cfg: Config, world: World, path: seq<nat>, turn: nat): Cost
    decreases Level(cfg), 2
  {
    var choice := world(path, turn).choice;
    if !cfg.hasTools then Cost(1, 0, 0)
    else if choice.DelegateTask? && cfg.delegateEnabled then Join(Cost(1, 0, 0), DelegateCost(cfg, choice, world, path + [turn]))
    else if choice.CoordinateTasks? && cfg.coordinatorEnabled then
      Join(Cost(1, 0, 0), if choice.argumentsOk then TasksCost(cfg, world, path + [turn], choice.tasks) else FREE)
    else if choice.Answer? || choice.RepeatSkill? then Cost(2, 0, 0)
    else Cost(1, 0, 0)
  }

  function DelegateCost(cfg: Config, choice: Choice, world: World, path: seq<nat>): Cost
    requires MayDelegate(cfg) && choice.DelegateTask?
    decreases Level(cfg), 1
  {
    if !choice.argumentsOk then FREE
    else if choice.worktree && !choice.worktreeFails then Join(Cost(0, 0, 1), ChildCost(cfg, world, path))
    else ChildCost(cfg, world, path)
  }

  function ChildCost(cfg: Config, world: World, path: seq<nat>): Cost
    requires MayDelegate(cfg)
    decreases Level(cfg), 0
  {
    var run := RunCost(Fork(cfg), world, path);
    run.(depth := run.depth + 1)
  }

  /** The children for the first `n` tasks. */
  function TasksCost(cfg: Config, world: World, path: seq<nat>, n: nat): Cost
    requires MayDelegate(cfg)
    decreases Level(cfg), 1, n
  {
    if n == 0 then FREE else Join(TasksCost(cfg, world, path, n - 1), ChildCost(cfg, world, path + [n - 1]))
  }

  // ---------- How much that can be ----------

  /** No turn starts more than `most` children. */
  ghost predicate ChildrenWithin(world: World, most: nat) {
    && most >= 1
    && forall path, turn :: world(path, turn).choice.CoordinateTasks? ==> world(path, turn).choice.tasks <= most
  }

  /** Completer calls of one turn at most: the router's and the chat's, or the router's and two for each turn of each child. */
  function TurnBound(cfg: Config, most: nat): nat {
    if MayDelegate(cfg) && cfg.maxTurns > 0 then 1 + ChildrenBound(cfg, most) else 2
  }

  function ChildrenBound(cfg: Config, most: nat): nat {
    Times(most, Times(cfg.maxTurns, 2))
  }

  lemma {:induction false} BoundCovers(cfg: Config, most: nat)
    requires most >= 1
    ensures TurnBound(cfg, most) >= 2 && (MayDelegate(cfg) ==> TurnBound(cfg, most) >= 1 + ChildrenBound(cfg, most))
  {
    if cfg.maxTurns == 0 {
      TimesNothing(most);
    } else {
      Monotone(1, cfg.maxTurns, 2);
      Monotone(1, most, Times(cfg.maxTurns, 2));
    }
  }

  /** `n` times `x`. */
  function Times(n: nat, x: nat): nat {
    if n == 0 then 0 else Times(n - 1, x) + x
  }

  lemma {:induction false} TimesIs(n: nat, x: nat)
    ensures Times(n, x) == n * x
  {
    if n == 0 {
    } else {
      TimesIs(n - 1, x);
      assert n * x == (n - 1) * x + x;
    }
  }

  lemma {:induction false} TimesNothing(n: nat)
    ensures Times(n, 0) == 0
  {
    if n == 0 {
    } else {
      TimesNothing(n - 1);
    }
  }

  lemma {:induction false} Monotone(m: nat, n: nat, x: nat)
    requires m <= n
    ensures Times(m, x) <= Times(n, x)
  {
    if m == n {
    } else {
      Monotone(m, n - 1, x);
    }
  }

  /** No turn costs more than `x` completer calls, one worktree and the given depth. */
  ghost predicate StepsWithin(steps: nat -> Cost, x: nat, depth: nat, worktrees: nat) {
    forall turn: nat :: steps(turn).calls <= x && steps(turn).depth <= depth && steps(turn).worktrees <= worktrees
  }

  lemma {:induction false} SumWithin(steps: nat -> Cost, stops: nat -> bool, turn: nat, left: nat, x: nat, depth: nat, worktrees: nat)
    requires StepsWithin(steps, x, depth, worktrees)
    ensures var c := Sum(steps, stops, turn, left);
            c.calls <= Times(left, x) && c.depth <= depth && c.worktrees <= Times(left, worktrees)
    decreases left
  {
    if left == 0 {
    } else {
      SumWithin(steps, stops, turn + 1, left - 1, x, depth, worktrees);
    }
  }

  /** A run that can start no children makes at most two completer calls a turn. */
  lemma {:induction false} ForkBounded(cfg: Config, world: World, path: seq<nat>)
    requires MayDelegate(cfg)
    ensures var c := ChildCost(cfg, world, path); c.depth == 1 && c.worktrees == 0 && c.calls <= Times(cfg.maxTurns, 2)
  {
    var steps := Steps(Fork(cfg), world, path);
    forall turn: nat
      ensures steps(turn).calls <= 2 && steps(turn).depth <= 0 && steps(turn).worktrees <= 0
    {
      assert steps(turn) == StepCost(Fork(cfg), world, path, turn);
    }
    SumWithin(steps, Stops(world, path), 0, cfg.maxTurns, 2, 0, 0);
    TimesNothing(cfg.maxTurns);
  }

  lemma {:induction false} TasksBounded(cfg: Config, world: World, path: seq<nat>, n: nat)
    requires MayDelegate(cfg)
    ensures var c := TasksCost(cfg, world, path, n); c.depth <= 1 && c.worktrees == 0 && c.calls <= Times(n, Times(cfg.maxTurns, 2))
  {
    if n == 0 {
    } else {
      TasksBounded(cfg, world, path, n - 1);
      ForkBounded(cfg, world, path + [n - 1]);
    }
  }

  lemma {:induction false} StepBounded(cfg: Config, world: World, path: seq<nat>, turn: nat, most: nat)
    requires ChildrenWithin(world, most)
    ensures var c := StepCost(cfg, world, path, turn); c.depth <= Level(cfg) && c.worktrees <= Level(cfg) && c.calls <= TurnBound(cfg, most)
  {
    var choice := world(path, turn).choice;
    BoundCovers(cfg, most);
    if choice.DelegateTask? && cfg.delegateEnabled {
      DelegateBounded(cfg, choice, world, path + [turn], most);
    } else if choice.CoordinateTasks? && cfg.coordinatorEnabled {
      CoordinateBounded(cfg, choice, world, path + [turn], most);
    }
  }

  lemma {:induction false} DelegateBounded(cfg: Config, choice: Choice, world: World, path: seq<nat>, most: nat)
    requires most >= 1 && MayDelegate(cfg) && choice.DelegateTask?
    ensures var c := DelegateCost(cfg, choice, world, path);
            c.depth <= 1 && c.worktrees <= 1 && c.calls <= ChildrenBound(cfg, most)
  {
    ForkBounded(cfg, world, path);
    Monotone(1, most, Times(cfg.maxTurns, 2));
  }

  lemma {:induction false} CoordinateBounded(cfg: Config, choice: Choice, world: World, path: seq<nat>, most: nat)
    requires MayDelegate(cfg) && choice.CoordinateTasks? && choice.tasks <= most
    ensures var c := TasksCost(cfg, world, path, choice.tasks);
            c.depth <= 1 && c.worktrees == 0 && c.calls <= ChildrenBound(cfg, most)
  {
    TasksBounded(cfg, world, path, choice.tasks);
    Monotone(choice.tasks, most, Times(cfg.maxTurns, 2));
  }

  /** Main result: every run nests engines at most one deep, and makes at most maxTurns * (1 + most * 2 * maxTurns) completer
      calls and one worktree a turn. */
  lemma {:induction false} RunBounded(cfg: Config, world: World, path: seq<nat>, most: nat)
    requires ChildrenWithin(world, most)
    ensures var c := RunCost(cfg, world, path);
            c.depth <= Level(cfg) && c.worktrees <= cfg.maxTurns && c.calls <= Times(cfg.maxTurns, TurnBound(cfg, most))
  {
    var steps := Steps(cfg, world, path);
    forall turn: nat
      ensures steps(turn).calls <= TurnBound(cfg, most) && steps(turn).depth <= Level(cfg) && steps(turn).worktrees <= Level(cfg)
    {
      StepBounded(cfg, world, path, turn, most);
      assert steps(turn) == StepCost(cfg, world, path, turn);
    }
    SumWithin(steps, Stops(world, path), 0, cfg.maxTurns, TurnBound(cfg, most), Level(cfg), Level(cfg));
    TimesIs(cfg.maxTurns, Level(cfg));
  }

  /** The bound in closed form. */
  lemma {:induction false} BoundIs(cfg: Config, most: nat)
    requires MayDelegate(cfg)
    ensures Times(cfg.maxTurns, TurnBound(cfg, most)) == cfg.maxTurns * (1 + most * (cfg.maxTurns * 2))
  {
    TimesIs(cfg.maxTurns, TurnBound(cfg, most));
    TimesIs(most, Times(cfg.maxTurns, 2));
    TimesIs(cfg.maxTurns, 2);
  }

  // ---------- What the steps cost exactly ----------

  /** An answer costs two completer calls, and so does a skill that is not called again; any other tool costs one; without
      tools there is only the chat. */
  lemma {:induction false} PlainCost(cfg: Config, world: World, path: seq<nat>, turn: nat)
    requires var c := world(path, turn).choice; c.Answer? || c.UseTool? || c.RepeatSkill?
    ensures StepCost(cfg, world, path, turn) ==
              Cost(if cfg.hasTools && !world(path, turn).choice.UseTool? then 2 else 1, 0, 0)
  {}

  /** A delegation costs the router's call and the child's run, one level deeper, and a worktree when it asks for one and gets
      it. With wrong arguments there is no child. Switched off, it is an unknown tool. */
  lemma {:induction false} DelegationCost(cfg: Config, world: World, path: seq<nat>, turn: nat)
    requires cfg.hasTools && world(path, turn).choice.DelegateTask?
    ensures var choice := world(path, turn).choice;
            var run := RunCost(Fork(cfg), world, path + [turn]);
            StepCost(cfg, world, path, turn) ==
              if cfg.delegateEnabled && choice.argumentsOk then
                Cost(1 + run.calls, 1 + run.depth, run.worktrees + if choice.worktree && !choice.worktreeFails then 1 else 0)
              else Cost(1, 0, 0)
  {
    var choice := world(path, turn).choice;
    if cfg.delegateEnabled {
      ChildRun(cfg, choice, world, path + [turn]);
    }
  }

  lemma {:induction false} ChildRun(cfg: Config, choice: Choice, world: World, path: seq<nat>)
    requires MayDelegate(cfg) && choice.DelegateTask?
    ensures var run := RunCost(Fork(cfg), world, path);
            DelegateCost(cfg, choice, world, path) ==
              if choice.argumentsOk then
                Cost(run.calls, 1 + run.depth, run.worktrees + if choice.worktree && !choice.worktreeFails then 1 else 0)
              else FREE
  {
    assert ChildCost(cfg, world, path).calls == RunCost(Fork(cfg), world, path).calls;
  }

  // ---------- The bound is reached ----------

  /** Every turn of the outermost engine starts `most` children, and every child answers in every turn. */
  function Busy(most: nat): World {
    (path: seq<nat>, turn: nat) => Decision(if path == [] then CoordinateTasks(true, most) else Answer, false)
  }

  lemma {:induction false} SumSame(steps: nat -> Cost, stops: nat -> bool, turn: nat, left: nat, x: nat, depth: nat)
    requires forall t: nat :: steps(t) == Cost(x, depth, 0) && !stops(t)
    ensures Sum(steps, stops, turn, left) == if left == 0 then FREE else Cost(Times(left, x), depth, 0)
    decreases left
  {
    if left == 0 {
    } else {
      SumSame(steps, stops, turn + 1, left - 1, x, depth);
    }
  }

  lemma {:induction false} BusyChild(cfg: Config, most: nat, path: seq<nat>)
    requires MayDelegate(cfg) && cfg.hasTools && path != []
    ensures ChildCost(cfg, Busy(most), path) == Cost(Times(cfg.maxTurns, 2), 1, 0)
  {
    var steps, stops := Steps(Fork(cfg), Busy(most), path), Stops(Busy(most), path);
    forall t: nat
      ensures steps(t) == Cost(2, 0, 0) && !stops(t)
    {
      assert steps(t) == StepCost(Fork(cfg), Busy(most), path, t);
    }
    SumSame(steps, stops, 0, cfg.maxTurns, 2, 0);
  }

  lemma {:induction false} BusyTasks(cfg: Config, most: nat, path: seq<nat>, n: nat)
    requires MayDelegate(cfg) && cfg.hasTools
    ensures TasksCost(cfg, Busy(most), path, n) == if n == 0 then FREE else Cost(Times(n, Times(cfg.maxTurns, 2)), 1, 0)
  {
    if n == 0 {
    } else {
      BusyTasks(cfg, most, path, n - 1);
      BusyChild(cfg, most, path + [n - 1]);
    }
  }

  /** No smaller bound would do: there is a run that makes exactly as many completer calls. */
  lemma {:induction false} BoundReached(cfg: Config, most: nat)
    requires cfg.hasTools && cfg.coordinatorEnabled && cfg.maxTurns >= 1 && most >= 1
    ensures ChildrenWithin(Busy(most), most)
    ensures RunCost(cfg, Busy(most), []) == Cost(Times(cfg.maxTurns, TurnBound(cfg, most)), 1, 0)
  {
    var steps, stops := Steps(cfg, Busy(most), []), Stops(Busy(most), []);
    forall t: nat
      ensures steps(t) == Cost(TurnBound(cfg, most), 1, 0) && !stops(t)
    {
      assert steps(t) == StepCost(cfg, Busy(most), [], t);
      BusyTasks(cfg, most, [t], most);
      assert [] + [t] == [t];
    }
    SumSame(steps, stops, 0, cfg.maxTurns, TurnBound(cfg, most), 1);
  }

  // ---------- The engine's methods ----------

  method Run(cfg: Config, world: World, path: seq<nat>) returns (cost: Cost)
    ensures cost == RunCost(cfg, world, path)
    decreases Level(cfg), 5
  {
    cost := FREE;
    ghost var steps, stops := Steps(cfg, world, path), Stops(world, path);
    JoinFree(Sum(steps, stops, 0, cfg.maxTurns));
    for turn := 0 to cfg.maxTurns
      invariant Join(cost, Sum(steps, stops, turn, cfg.maxTurns - turn)) == Sum(steps, stops, 0, cfg.maxTurns)
    {
      var step := StepWithTurn(cfg, world, path, turn);
      JoinMore(cost, step, Sum(steps, stops, turn + 1, cfg.maxTurns - turn - 1));
      cost := Join(cost, step);
      if world(path, turn).stops {
        return;
      }
    }
    JoinFree(cost);
  }

  method StepWithTurn(cfg: Config, world: World, path: seq<nat>, turn: nat) returns (cost: Cost)
    ensures cost == StepCost(cfg, world, path, turn)
    decreases Level(cfg), 4
  {
    if !cfg.hasTools {
      return Cost(1, 0, 0);
    }
    cost := ToolStep(cfg, world, path, turn);
  }

  method ToolStep(cfg: Config, world: World, path: seq<nat>, turn: nat) returns (cost: Cost)
    requires cfg.hasTools
    ensures cost == StepCost(cfg, world, path, turn)
    decreases Level(cfg), 3
  {
    var choice := world(path, turn).choice;
    if choice.Answer? {
      return Cost(2, 0, 0);
    }
    if choice.DelegateTask? && cfg.delegateEnabled {
      var child := DelegateStep(cfg, choice, world, path + [turn]);
      return Join(Cost(1, 0, 0), child);
    }
    if choice.CoordinateTasks? && cfg.coordinatorEnabled {
      var children := CoordinateStep(cfg, choice, world, path + [turn]);
      return Join(Cost(1, 0, 0), children);
    }
    if choice.RepeatSkill? {
      return Cost(2, 0, 0);
    }
    cost := Cost(1, 0, 0);
  }

  method DelegateStep(cfg: Config, choice: Choice, world: World, path: seq<nat>) returns (cost: Cost)
    requires MayDelegate(cfg) && choice.DelegateTask?
    ensures cost == DelegateCost(cfg, choice, world, path)
    decreases Level(cfg), 2
  {
    if !choice.argumentsOk {
      return FREE;
    }
    if choice.worktree {
      cost := WorktreeStep(cfg, choice, world, path);
      return;
    }
    cost := RunDelegateChild(cfg, world, path);
  }

  /** Without a worktree the child runs all the same. */
  method WorktreeStep(cfg: Config, choice: Choice, world: World, path: seq<nat>) returns (cost: Cost)
    requires MayDelegate(cfg) && choice.DelegateTask? && choice.argumentsOk && choice.worktree
    ensures cost == DelegateCost(cfg, choice, world, path)
    decreases Level(cfg), 1
  {
    cost := RunDelegateChild(cfg, world, path);
    if !choice.worktreeFails {
      cost := Join(Cost(0, 0, 1), cost);
    }
  }

  method RunDelegateChild(cfg: Config, world: World, path: seq<nat>) returns (cost: Cost)
    requires MayDelegate(cfg)
    ensures cost == ChildCost(cfg, world, path)
    decreases Level(cfg), 0
  {
    var run := Run(Fork(cfg), world, path);
    cost := run.(depth := run.depth + 1);
  }

  method CoordinateStep(cfg: Config, choice: Choice, world: World, path: seq<nat>) returns (cost: Cost)
    requires MayDelegate(cfg) && choice.CoordinateTasks?
    ensures cost == if choice.argumentsOk then TasksCost(cfg, world, path, choice.tasks) else FREE
    decreases Level(cfg), 2
  {
    cost := FREE;
    if !choice.argumentsOk || choice.tasks == 0 {
      return;
    }
    for i := 0 to choice.tasks
      invariant cost == TasksCost(cfg, world, path, i)
    {
      var run := Run(Fork(cfg), world, path + [i]);
      cost := Join(cost, run.(depth := run.depth + 1));
    }
  }
}
