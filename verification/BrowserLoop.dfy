/** The agent loop of the browser SDK: turns in which a router picks tools, with rules that demand different tools and
    stop repetition. What the router, the tools, the guards and the verifiers do is an arbitrary world. */
module BrowserLoop {
  import opened Bytes

  /** A successful call: the tool and the text of its arguments. */
  datatype Call = Call(tool: string, arguments: string)

  function Signature(c: Call): string {
    c.tool + ":" + c.arguments
  }

  datatype Pick = RouterFailed | Picked(call: Call)

  datatype ToolOutcome = Denied | Blocked | Tripped | Failed | Succeeded(verified: bool)

  /** What one turn meets. A chat step may be stopped by a guard, which throws. */
  datatype Turn = Turn(aborted: bool, pick: Pick, outcome: ToolOutcome, chatThrows: bool)

  datatype Reason = Completed | RouterParseRetry | MinToolsNotMet | ToolNotFound | PermissionDenied | GuardBlocked | ToolError
                  | VerifyFailed | ToolUse | FailureLimit | TurnLimit | Threw

  datatype StepResult = StepResult(terminal: bool, reason: Reason)

  datatype Config = Config(tools: set<string>, minToolKinds: int, maxTurns: int, maxConsecutiveFailures: int)

  /** A run ends in a turn, or an abort or a guard throws in the turn with this index. */
  datatype Outcome = Ended(reason: Reason, turns: int) | Thrown(turn: nat)

  predicate IsFailure(r: Reason) {
    r.ToolError? || r.ToolNotFound? || r.VerifyFailed? || r.PermissionDenied? || r.GuardBlocked?
  }

  // ---------- Sequences of successful calls ----------

  function Tools(calls: seq<Call>): set<string> {
    set c | c in calls :: c.tool
  }

  function Signatures(calls: seq<Call>): set<string> {
    set c | c in calls :: Signature(c)
  }

  /** How many calls at the end are of the same tool. */
  function Streak(calls: seq<Call>): nat {
    var n := |calls|;
    if n == 0 then 0
    else if n == 1 || calls[n - 2].tool != calls[n - 1].tool then 1
    else 1 + Streak(calls[..n - 1])
  }

  /** A call whose signature has been used before is made only once enough different tools have succeeded. */
  predicate RepeatsLate(calls: seq<Call>, minKinds: int) {
    forall i, j :: 0 <= i < j < |calls| && Signature(calls[i]) == Signature(calls[j]) ==> |Tools(calls[..j])| >= minKinds
  }

  predicate FourInARow(calls: seq<Call>, j: nat) {
    3 <= j < |calls| && calls[j].tool == calls[j - 1].tool == calls[j - 2].tool == calls[j - 3].tool
  }

  /** A fourth call in a row of the same tool is made only while too few different tools have succeeded. */
  ghost predicate FourthEarly(calls: seq<Call>, minKinds: int) {
    forall j: nat :: FourInARow(calls, j) ==> |Tools(calls[..j])| < minKinds
  }

  lemma {:induction false} AppendSets(calls: seq<Call>, c: Call)
    ensures Tools(calls + [c]) == Tools(calls) + {c.tool}
    ensures Signatures(calls + [c]) == Signatures(calls) + {Signature(c)}
    ensures Streak(calls + [c]) == if calls != [] && calls[|calls| - 1].tool == c.tool then Streak(calls) + 1 else 1
  {
    assert forall d :: d in calls + [c] <==> d in calls || d == c;
    assert (calls + [c])[..|calls|] == calls;
  }

  lemma {:induction false} AppendRepeat(calls: seq<Call>, c: Call, minKinds: int)
    requires RepeatsLate(calls, minKinds)
    requires Signature(c) !in Signatures(calls) || |Tools(calls)| >= minKinds
    ensures RepeatsLate(calls + [c], minKinds)
  {
    var all := calls + [c];
    forall i, j | 0 <= i < j < |all| && Signature(all[i]) == Signature(all[j])
      ensures |Tools(all[..j])| >= minKinds
    {
      assert all[..j] == calls[..j];
      if j == |calls| {
        assert calls[..j] == calls && all[i] in calls;
        assert Signature(all[i]) in Signatures(calls);
      }
    }
  }

  lemma {:induction false} StreakMeaning(calls: seq<Call>)
    requires |calls| >= 3 && calls[|calls| - 1].tool == calls[|calls| - 2].tool == calls[|calls| - 3].tool
    ensures Streak(calls) >= 3
  {
    var n := |calls|;
    var a, b := calls[..n - 1], calls[..n - 2];
    assert a[..n - 2] == b;
    assert Streak(b) >= 1;
    assert Streak(a) == 1 + Streak(b);
  }

  lemma {:induction false} AppendFour(calls: seq<Call>, c: Call, minKinds: int)
    requires FourthEarly(calls, minKinds)
    requires Streak(calls) < 3 || |Tools(calls)| < minKinds
    ensures FourthEarly(calls + [c], minKinds)
  {
    var all := calls + [c];
    forall j: nat | FourInARow(all, j)
      ensures |Tools(all[..j])| < minKinds
    {
      assert all[..j] == calls[..j];
      if j == |calls| {
        StreakMeaning(calls);
        assert calls[..j] == calls;
      } else {
        assert FourInARow(calls, j);
      }
    }
  }

  /** With at most one required tool, no tool ever succeeds four times in a row. */
  lemma {:induction false} NoFourInARow(calls: seq<Call>, minKinds: int, j: nat)
    requires FourthEarly(calls, minKinds) && minKinds <= 1
    ensures !FourInARow(calls, j)
  {
    if 0 < j < |calls| {
      assert calls[..j][0] in calls[..j];
      assert calls[..j][0].tool in Tools(calls[..j]);
    }
  }

  // ---------- Steps and runs, by what has succeeded so far ----------

  /** Enough different tools have succeeded. */
  predicate Enough(cfg: Config, calls: seq<Call>) {
    |Tools(calls)| >= cfg.minToolKinds
  }

  /** The step answers in prose: there is nothing to call, or enough has been gathered and the router repeats itself, fails or
      asks for no tool. */
  predicate Answers(cfg: Config, calls: seq<Call>, t: Turn) {
    || cfg.tools == {}
    || (Enough(cfg, calls) && (Streak(calls) >= 3 || t.pick.RouterFailed? || t.pick.call.tool in {"none", ""}))
  }

  /** The step tries the call picked: it is no repetition while tools are still missing, nor a fourth in a row after. */
  predicate Tries(cfg: Config, calls: seq<Call>, t: Turn) {
    && cfg.tools != {} && t.pick.Picked? && t.pick.call.tool !in {"none", ""}
    && (if Enough(cfg, calls) then Streak(calls) < 3 else Signature(t.pick.call) !in Signatures(calls))
  }

  /** The call that succeeds in the step, if one does. */
  function Added(cfg: Config, calls: seq<Call>, t: Turn): seq<Call> {
    if Tries(cfg, calls, t) && t.pick.call.tool in cfg.tools && t.outcome.Succeeded? then [t.pick.call] else []
  }

  function CallReason(cfg: Config, call: Call, outcome: ToolOutcome): Reason {
    if call.tool !in cfg.tools then ToolNotFound
    else
      match outcome
      case Denied => PermissionDenied
      case Blocked => GuardBlocked
      case Tripped => Threw
      case Failed => ToolError
      case Succeeded(verified) => if verified then ToolUse else VerifyFailed
  }

  function StepReason(cfg: Config, calls: seq<Call>, t: Turn): Reason {
    if Answers(cfg, calls, t) then if t.chatThrows then Threw else Completed
    else if Tries(cfg, calls, t) then CallReason(cfg, t.pick.call, t.outcome)
    else if t.pick.RouterFailed? then RouterParseRetry
    else MinToolsNotMet
  }

  type Trace = nat -> Turn

  /** All calls that have succeeded before turn `n`, from `start` on. */
  function Successes(cfg: Config, start: seq<Call>, trace: Trace, n: nat): seq<Call>
    decreases n
  {
    if n == 0 then start
    else
      var calls := Successes(cfg, start, trace, n - 1);
      calls + Added(cfg, calls, trace(n - 1))
  }

  /** What the loop sees of a turn. */
  datatype Seen = Seen(aborted: bool, reason: Reason)

  type Course = nat -> Seen

  function CourseOf(cfg: Config, start: seq<Call>, trace: Trace): Course {
    (n: nat) => Seen(trace(n).aborted, StepReason(cfg, Successes(cfg, start, trace, n), trace(n)))
  }

  predicate IsSeen(cfg: Config, start: seq<Call>, trace: Trace, course: Course, n: nat) {
    course(n) == CourseOf(cfg, start, trace)(n)
  }

  ghost predicate Follows(cfg: Config, start: seq<Call>, trace: Trace, course: Course) {
    forall n: nat :: IsSeen(cfg, start, trace, course, n)
  }

  /** How many turns right before turn `n` failed. */
  function Failures(course: Course, n: nat): nat
    decreases n
  {
    if n == 0 || !IsFailure(course(n - 1).reason) then 0 else Failures(course, n - 1) + 1
  }

  /** How the run ends in turn `n`, if it gets there and ends there. */
  function StopAt(cfg: Config, course: Course, n: nat): Option<Outcome> {
    var seen := course(n);
    if seen.aborted || seen.reason.Threw? then Some(Thrown(n))
    else if seen.reason.Completed? then Some(Ended(Completed, n + 1))
    else if IsFailure(seen.reason) && Failures(course, n) + 1 >= cfg.maxConsecutiveFailures then Some(Ended(FailureLimit, n + 1))
    else None
  }

  predicate Reaches(cfg: Config, course: Course, n: nat) {
    forall i: nat :: i < n ==> StopAt(cfg, course, i).None?
  }

  /** The outcome is that of the first turn that stops the run, or the turn limit. */
  ghost predicate IsOutcome(cfg: Config, course: Course, r: Outcome) {
    || (exists n: nat :: n < cfg.maxTurns && Reaches(cfg, course, n) && StopAt(cfg, course, n) == Some(r))
    || ((forall n: nat :: n < cfg.maxTurns ==> StopAt(cfg, course, n).None?) && r == Ended(TurnLimit, cfg.maxTurns))
  }

  /** How many turns have been gone through. */
  function TurnsDone(r: Outcome): nat {
    match r
    case Ended(_, turns) => if turns > 0 then turns else 0
    case Thrown(turn) => turn
  }

  // ---------- The rules ----------

  /** Main result: with tools registered, in every run a call is repeated only once enough different tools have succeeded, and
      no tool succeeds four times in a row after that. */
  lemma {:induction false} RulesKept(cfg: Config, start: seq<Call>, trace: Trace, n: nat)
    requires cfg.tools != {} && RepeatsLate(start, cfg.minToolKinds) && FourthEarly(start, cfg.minToolKinds)
    ensures var calls := Successes(cfg, start, trace, n);
            RepeatsLate(calls, cfg.minToolKinds) && FourthEarly(calls, cfg.minToolKinds)
  {
    if n == 0 {
    } else {
      RulesKept(cfg, start, trace, n - 1);
      var calls := Successes(cfg, start, trace, n - 1);
      if Added(cfg, calls, trace(n - 1)) != [] {
        AppendRepeat(calls, trace(n - 1).pick.call, cfg.minToolKinds);
        AppendFour(calls, trace(n - 1).pick.call, cfg.minToolKinds);
      } else {
        assert calls + [] == calls;
      }
    }
  }

  /** Main result: with tools registered, a run that completes has seen the required number of different tools succeed. */
  lemma {:induction false} CompletedEnough(cfg: Config, start: seq<Call>, trace: Trace, n: nat)
    requires cfg.tools != {} && StopAt(cfg, CourseOf(cfg, start, trace), n) == Some(Ended(Completed, n + 1))
    ensures Enough(cfg, Successes(cfg, start, trace, n + 1))
  {
    CompletedStep(cfg, Successes(cfg, start, trace, n), trace(n));
  }

  lemma {:induction false} CompletedStep(cfg: Config, calls: seq<Call>, t: Turn)
    requires cfg.tools != {} && StepReason(cfg, calls, t).Completed?
    ensures Enough(cfg, calls) && calls + Added(cfg, calls, t) == calls
  {}

  lemma {:induction false} Stops(cfg: Config, course: Course, n: nat, r: Outcome)
    requires n < cfg.maxTurns && Reaches(cfg, course, n) && StopAt(cfg, course, n) == Some(r)
    ensures IsOutcome(cfg, course, r)
  {}

  lemma {:induction false} RunsOut(cfg: Config, course: Course, n: nat)
    requires n >= cfg.maxTurns && Reaches(cfg, course, n)
    ensures IsOutcome(cfg, course, Ended(TurnLimit, cfg.maxTurns))
  {}

  lemma {:induction false} GoesOn(cfg: Config, course: Course, n: nat)
    requires Reaches(cfg, course, n) && StopAt(cfg, course, n).None?
    ensures Reaches(cfg, course, n + 1)
  {}

  lemma {:induction false} FailuresMeaning(course: Course, n: nat, k: nat)
    ensures Failures(course, n) >= k <==> k <= n && forall i: nat :: n - k <= i < n ==> IsFailure(course(i).reason)
  {
    if n > 0 && k > 0 {
      FailuresMeaning(course, n - 1, k - 1);
    }
  }

  /** Main result: a run that gets to turn `n` stops there for failures exactly when that turn is the last of the permitted
      number of failures in a row. A limit below 1 counts as 1. */
  lemma {:induction false} FailuresExact(cfg: Config, course: Course, n: nat)
    ensures var limit := if cfg.maxConsecutiveFailures < 1 then 1 else cfg.maxConsecutiveFailures;
            StopAt(cfg, course, n) == Some(Ended(FailureLimit, n + 1)) <==>
              && !course(n).aborted && limit <= n + 1
              && forall i: nat :: n + 1 - limit <= i <= n ==> IsFailure(course(i).reason)
  {
    var limit: int := if cfg.maxConsecutiveFailures < 1 then 1 else cfg.maxConsecutiveFailures;
    FailuresMeaning(course, n, limit - 1);
  }

  // ---------- What a turn comes to ----------

  lemma {:induction false} ToolsMeaning(calls: seq<Call>, tool: string)
    ensures tool in Tools(calls) <==> exists c :: c in calls && c.tool == tool
  {}

  /** Two calls of a tool count as the same exactly when their arguments are the same. */
  lemma {:induction false} SignatureMeaning(c: Call, d: Call)
    requires c.tool == d.tool
    ensures Signature(c) == Signature(d) <==> c.arguments == d.arguments
  {
    var n := |c.tool + ":"|;
    assert Signature(c)[n..] == c.arguments && Signature(d)[n..] == d.arguments;
  }

  lemma {:induction false} StreakExact(calls: seq<Call>)
    ensures Streak(calls) >= 3 <==>
              |calls| >= 3 && calls[|calls| - 1].tool == calls[|calls| - 2].tool == calls[|calls| - 3].tool
  {
    var n := |calls|;
    if n >= 3 {
      var a, b := calls[..n - 1], calls[..n - 2];
      assert a[..n - 2] == b && Streak(b) >= 1;
    }
  }

  /** The last three successful calls were of the same tool. */
  predicate IsStuck(calls: seq<Call>) {
    |calls| >= 3 && calls[|calls| - 1].tool == calls[|calls| - 2].tool == calls[|calls| - 3].tool
  }

  /** The call has been made before, as far as the text of tool and arguments tells. */
  predicate IsRepeated(calls: seq<Call>, c: Call) {
    exists d | d in calls :: d.tool + ":" + d.arguments == c.tool + ":" + c.arguments
  }

  /** When a turn ends in an answer: without tools always; else once enough different tools have succeeded, if one of them has
      three in a row, or the router fails or asks for none. */
  lemma {:induction false} AnswersExact(cfg: Config, calls: seq<Call>, t: Turn)
    ensures var r := StepReason(cfg, calls, t);
            var answers :=
              || cfg.tools == {}
              || (|Tools(calls)| >= cfg.minToolKinds
                  && (IsStuck(calls) || t.pick.RouterFailed? || t.pick.call.tool == "none" || t.pick.call.tool == ""));
            && (r.Completed? <==> answers && !t.chatThrows)
            && (answers && t.chatThrows ==> r.Threw?)
            && (answers ==> Added(cfg, calls, t) == [])
  {
    StreakExact(calls);
  }

  /** What becomes of a call that is neither replaced by an answer nor turned down: it is tried, and it counts if it succeeds,
      whatever the verifiers say. */
  lemma {:induction false} TriesExact(cfg: Config, calls: seq<Call>, t: Turn)
    requires cfg.tools != {} && t.pick.Picked? && t.pick.call.tool != "none" && t.pick.call.tool != ""
    requires if |Tools(calls)| >= cfg.minToolKinds then !IsStuck(calls) else !IsRepeated(calls, t.pick.call)
    ensures var r := StepReason(cfg, calls, t);
            var known := t.pick.call.tool in cfg.tools;
            && (r.ToolNotFound? <==> !known)
            && (known ==>
                  && (r.PermissionDenied? <==> t.outcome.Denied?) && (r.GuardBlocked? <==> t.outcome.Blocked?)
                  && (r.Threw? <==> t.outcome.Tripped?) && (r.ToolError? <==> t.outcome.Failed?)
                  && (r.ToolUse? <==> t.outcome == Succeeded(true)) && (r.VerifyFailed? <==> t.outcome == Succeeded(false)))
            && Added(cfg, calls, t) == if known && t.outcome.Succeeded? then [t.pick.call] else []
  {
    StreakExact(calls);
    assert Signature(t.pick.call) in Signatures(calls) <==> IsRepeated(calls, t.pick.call);
  }

  /** While tools are missing, a failed router is asked again, and a call made before or no call at all is turned down. */
  lemma {:induction false} TurnedDown(cfg: Config, calls: seq<Call>, t: Turn)
    requires cfg.tools != {} && |Tools(calls)| < cfg.minToolKinds
    ensures var r := StepReason(cfg, calls, t);
            && (r.RouterParseRetry? <==> t.pick.RouterFailed?)
            && (r.MinToolsNotMet? <==>
                  t.pick.Picked? && (t.pick.call.tool == "none" || t.pick.call.tool == "" || IsRepeated(calls, t.pick.call)))
  {
    if t.pick.Picked? {
      assert Signature(t.pick.call) in Signatures(calls) <==> IsRepeated(calls, t.pick.call);
    }
  }

  /** With a limit of one the run stops for failures exactly on these reasons; an abort or a guard throws; an answer ends it. */
  lemma {:induction false} StopReasons(cfg: Config, course: Course, n: nat)
    requires cfg.maxConsecutiveFailures <= 1 && !course(n).aborted
    ensures var reason := course(n).reason;
            var bad := reason in {ToolError, ToolNotFound, VerifyFailed, PermissionDenied, GuardBlocked};
            StopAt(cfg, course, n) ==
              if bad then Some(Ended(FailureLimit, n + 1))
              else if reason.Threw? then Some(Thrown(n))
              else if reason.Completed? then Some(Ended(Completed, n + 1))
              else None
  {}

  // ---------- The loop ----------

  class AgentLoop {
    const cfg: Config
    var executedToolKinds: set<string>
    var executedCallSignatures: set<string>
    var lastToolName: Option<string>
    var lastToolStreak: nat
    /** All successful calls, in order. */
    ghost var successes: seq<Call>

    ghost predicate Valid()
      reads this
    {
      && executedToolKinds == Tools(successes)
      && executedCallSignatures == Signatures(successes)
      && lastToolName == (if successes == [] then None else Some(successes[|successes| - 1].tool))
      && lastToolStreak == Streak(successes)
    }

    constructor (cfg: Config)
      ensures Valid() && successes == [] && this.cfg == cfg
    {
      this.cfg := cfg;
      executedToolKinds, executedCallSignatures, lastToolName, lastToolStreak, successes := {}, {}, None, 0, [];
    }

    method ChatStep(t: Turn) returns (r: StepResult)
      ensures r == StepResult(true, if t.chatThrows then Threw else Completed)
    {
      r := StepResult(true, if t.chatThrows then Threw else Completed);
    }

    /** What a step makes of the successes, and why it ends. */
    method Step(t: Turn) returns (r: StepResult)
      requires Valid()
      modifies this
      ensures Valid() && successes == old(successes) + Added(cfg, old(successes), t)
      ensures r.reason == StepReason(cfg, old(successes), t)
      ensures r.terminal <==> r.reason.Completed? || r.reason.Threw?
    {
      assert successes + [] == successes;
      if |cfg.tools| == 0 {
        assert cfg.tools == {};
        r := ChatStep(t);
        return;
      }
      assert cfg.tools != {};
      if lastToolStreak >= 3 && |executedToolKinds| >= cfg.minToolKinds {
        r := ChatStep(t);
        return;
      }
      var diversityActive := cfg.minToolKinds > 0 && |executedToolKinds| < cfg.minToolKinds;
      if t.pick.RouterFailed? {
        if cfg.minToolKinds > 0 && |executedToolKinds| < cfg.minToolKinds {
          return StepResult(false, RouterParseRetry);
        }
        r := ChatStep(t);
        return;
      }
      var call := t.pick.call;
      if diversityActive && call.tool != "none" && call.tool != "" && Signature(call) in executedCallSignatures {
        return StepResult(false, MinToolsNotMet);
      }
      if call.tool == "none" || call.tool == "" {
        if cfg.minToolKinds > 0 && |executedToolKinds| < cfg.minToolKinds {
          return StepResult(false, MinToolsNotMet);
        }
        r := ChatStep(t);
        return;
      }
      r := ExecuteTool(t, call);
    }

    /** The bookkeeping of one successful call. */
    method RecordSuccess(call: Call)
      requires Valid()
      modifies this
      ensures Valid() && successes == old(successes) + [call]
    {
      AppendSets(successes, call);
      executedToolKinds := executedToolKinds + {call.tool};
      executedCallSignatures := executedCallSignatures + {Signature(call)};
      if lastToolName == Some(call.tool) {
        lastToolStreak := lastToolStreak + 1;
      } else {
        lastToolName := Some(call.tool);
        lastToolStreak := 1;
      }
      successes := successes + [call];
    }

    method ExecuteTool(t: Turn, call: Call) returns (r: StepResult)
      requires Valid()
      modifies this
      ensures Valid() && r.reason == CallReason(cfg, call, t.outcome)
      ensures successes == old(successes) + (if call.tool in cfg.tools && t.outcome.Succeeded? then [call] else [])
      ensures r.terminal <==> r.reason.Threw?
    {
      if call.tool !in cfg.tools {
        return StepResult(false, ToolNotFound);
      }
      match t.outcome {
        case Denied => return StepResult(false, PermissionDenied);
        case Tripped => return StepResult(true, Threw);
        case Blocked => return StepResult(false, GuardBlocked);
        case Failed => return StepResult(false, ToolError);
        case Succeeded(verified) =>
          RecordSuccess(call);
          return StepResult(false, if verified then ToolUse else VerifyFailed);
      }
    }

    /** The run ends as its trace says, with the successes that its trace says. */
    method Run(trace: Trace) returns (r: Outcome)
      requires Valid()
      modifies this
      ensures Valid() && IsOutcome(cfg, CourseOf(cfg, old(successes), trace), r)
      ensures successes == Successes(cfg, old(successes), trace, TurnsDone(r))
    {
      ghost var course := CourseOf(cfg, successes, trace);
      assert forall n: nat :: IsSeen(cfg, successes, trace, course, n);
      r := RunTurns(trace, course);
    }

    /** The loop has come to turn `n`. */
    ghost predicate HasCome(start: seq<Call>, trace: Trace, course: Course, n: nat, failures: nat)
      reads this
    {
      Valid() && successes == Successes(cfg, start, trace, n) && failures == Failures(course, n) && Reaches(cfg, course, n)
    }

    method RunTurns(trace: Trace, ghost course: Course) returns (r: Outcome)
      requires Valid() && Follows(cfg, successes, trace, course)
      modifies this
      ensures Valid() && IsOutcome(cfg, course, r)
      ensures successes == Successes(cfg, old(successes), trace, TurnsDone(r))
    {
      ghost var start := successes;
      var consecutiveFailures := 0;
      var turn := 0;
      while turn < cfg.maxTurns
        invariant 0 <= turn && (turn <= cfg.maxTurns || turn == 0)
        invariant HasCome(start, trace, course, turn, consecutiveFailures)
      {
        var stop;
        stop, consecutiveFailures := DoTurn(trace, turn, consecutiveFailures, start, course);
        if stop.Some? {
          return stop.value;
        }
        turn := turn + 1;
      }
      RunsOut(cfg, course, turn);
      r := Ended(TurnLimit, cfg.maxTurns);
    }

    method DoTurn(trace: Trace, turn: nat, failures: nat, ghost start: seq<Call>, ghost course: Course)
        returns (stop: Option<Outcome>, next: nat)
      requires turn < cfg.maxTurns && Follows(cfg, start, trace, course) && HasCome(start, trace, course, turn, failures)
      modifies this
      ensures stop.None? ==> HasCome(start, trace, course, turn + 1, next)
      ensures stop.Some? ==> Valid() && IsOutcome(cfg, course, stop.value) && successes == Successes(cfg, start, trace, TurnsDone(stop.value))
    {
      var step := TakeTurn(trace, turn, start, course);
      stop, next := Decide(step, turn, failures, course);
      if stop.Some? {
        Stops(cfg, course, turn, stop.value);
      } else {
        GoesOn(cfg, course, turn);
      }
    }

    /** Whether the step ends the run, and the failures in a row if it does not. */
    method Decide(step: StepResult, turn: nat, failures: nat, ghost course: Course) returns (stop: Option<Outcome>, next: nat)
      requires failures == Failures(course, turn)
      requires step.reason == (if course(turn).aborted then Threw else course(turn).reason)
      requires step.terminal <==> step.reason.Threw? || step.reason.Completed?
      ensures stop == StopAt(cfg, course, turn)
      ensures stop.None? ==> next == Failures(course, turn + 1)
    {
      next := failures;
      if step.terminal {
        return Some(if step.reason.Threw? then Thrown(turn) else Ended(Completed, turn + 1)), next;
      }
      if IsFailure(step.reason) {
        next := next + 1;
        if next >= cfg.maxConsecutiveFailures {
          return Some(Ended(FailureLimit, turn + 1)), next;
        }
      } else {
        next := 0;
      }
      stop := None;
    }

    /** An abort throws before the step is taken. */
    method TakeTurn(trace: Trace, turn: nat, ghost start: seq<Call>, ghost course: Course) returns (r: StepResult)
      requires Valid() && Follows(cfg, start, trace, course) && successes == Successes(cfg, start, trace, turn)
      modifies this
      ensures Valid() && successes == Successes(cfg, start, trace, if r.reason.Threw? then turn else turn + 1)
      ensures r.reason == (if course(turn).aborted then Threw else course(turn).reason)
      ensures r.terminal <==> r.reason.Threw? || r.reason.Completed?
    {
      assert IsSeen(cfg, start, trace, course, turn);
      var t := trace(turn);
      if t.aborted {
        return StepResult(true, Threw);
      }
      if StepReason(cfg, successes, t).Threw? {
        ThrowsNothing(successes, t);
      }
      r := Step(t);
    }

    lemma {:induction false} ThrowsNothing(calls: seq<Call>, t: Turn)
      requires StepReason(cfg, calls, t).Threw?
      ensures calls + Added(cfg, calls, t) == calls
    {}
  }
}
