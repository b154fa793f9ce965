/** The engine's run loop: turns, retries of transient errors, consecutive failures, the goal judge and the turn limit.
    What happens in the turns is an arbitrary trace. */
module EngineRun {
  import opened Bytes
  import Messages

  datatype ErrorClass = Transient | LLMRecoverable | UserFixable | Fatal

  datatype Usage = Usage(prompt: int, completion: int, total: int)

  datatype Kind = Continue | Terminal

  datatype Reason = Completed | ToolError | ToolNotFound | VerifyFailed | PermissionDenied | GuardBlocked | Other(name: string)

  datatype Step = StepError(class_: ErrorClass, message: string) | StepDone(kind: Kind, reason: Reason, text: string, usage: Usage)

  datatype Verdict = JudgeError | NotDone | Done(reason: Option<Reason>)

  /** What one turn meets: a cancelled context, the outcome of the step, a cancelled wait before a retry, and what the
      judge says. */
  datatype Turn = Turn(cancelled: bool, step: Step, waitCancelled: bool, verdict: Verdict)

  type Trace = nat -> Turn

  datatype Config = Config(maxTurns: int, maxStepRetries: int, maxConsecutiveFailures: int, hasJudge: bool)

  datatype InputGuard = Allowed | Denied(reason: string) | Tripwire(reason: string)

  datatype StopReason = Stopped(reason: Reason) | NeedsUser | FailureLimit | TurnLimit | InputDenied

  datatype Outcome =
    | Finished(response: string, reason: StopReason, usage: Usage, turns: int)
    | Cancelled
    | InputTripped(cause: string)
    | RetriesExhausted(turn: nat)
    | StepFailed(turn: nat)

  const NO_USAGE := Usage(0, 0, 0)

  function Add(a: Usage, b: Usage): Usage {
    Usage(a.prompt + b.prompt, a.completion + b.completion, a.total + b.total)
  }

  predicate IsFailureReason(r: Reason) {
    r.ToolError? || r.ToolNotFound? || r.VerifyFailed? || r.PermissionDenied? || r.GuardBlocked?
  }

  /** Kind and reason of a finished step once the judge has been heard. An error of the judge ends the run. */
  function Judged(cfg: Config, t: Turn): (Kind, Reason)
    requires t.step.StepDone?
  {
    if t.step.kind.Terminal? && t.step.reason.Completed? && cfg.hasJudge then
      match t.verdict
      case JudgeError => (Terminal, Completed)
      case NotDone => (Continue, Other("judge_continue"))
      case Done(None) => (Terminal, Completed)
      case Done(Some(reason)) => (Terminal, reason)
    else (t.step.kind, t.step.reason)
  }

  predicate IsTransient(t: Turn) {
    t.step.StepError? && t.step.class_.Transient?
  }

  /** A step after which the run goes on, and that counts as a failure. */
  predicate IsFailure(cfg: Config, t: Turn) {
    t.step.StepDone? && Judged(cfg, t).0.Continue? && IsFailureReason(Judged(cfg, t).1)
  }

  // ---------- The trace up to a turn ----------

  /** How many turns right before turn `n` were transient errors. */
  function Transients(trace: Trace, n: nat): nat
    decreases n
  {
    if n == 0 || !IsTransient(trace(n - 1)) then 0 else Transients(trace, n - 1) + 1
  }

  /** The turn behind the last one that was neither a failure nor a transient error. */
  function LastReset(cfg: Config, trace: Trace, n: nat): (r: nat)
    ensures r <= n
    decreases n
  {
    if n == 0 then 0
    else if IsTransient(trace(n - 1)) || IsFailure(cfg, trace(n - 1)) then LastReset(cfg, trace, n - 1)
    else n
  }

  /** The turns since then that were failures. */
  function FailedTurns(cfg: Config, trace: Trace, n: nat): set<nat> {
    set i: nat | LastReset(cfg, trace, n) <= i < n && IsFailure(cfg, trace(i))
  }

  function Failures(cfg: Config, trace: Trace, n: nat): nat {
    |FailedTurns(cfg, trace, n)|
  }

  /** The usage of all successful steps before turn `n`. */
  function TotalUsage(trace: Trace, n: nat): Usage
    decreases n
  {
    if n == 0 then NO_USAGE
    else
      var step := trace(n - 1).step;
      if step.StepDone? then Add(TotalUsage(trace, n - 1), step.usage) else TotalUsage(trace, n - 1)
  }

  /** The last text of an assistant before turn `n`. */
  function LastText(trace: Trace, n: nat): string
    decreases n
  {
    if n == 0 then ""
    else
      var step := trace(n - 1).step;
      if step.StepDone? && step.text != "" then step.text else LastText(trace, n - 1)
  }

  function TooManyFailures(n: nat): string {
    "Stopped: " + Messages.Decimal(n) + " consecutive failures"
  }

  function OutOfTurns(maxTurns: int): string {
    "Stopped after " + Signed(maxTurns) + " turns (max_turns reached)"
  }

  /** How the run ends in turn `n`, if it gets there and ends there. */
  function StopAt(cfg: Config, trace: Trace, n: nat): Option<Outcome> {
    var t := trace(n);
    if t.cancelled then Some(Cancelled)
    else
      match t.step
      case StepError(Transient, _) =>
        if Transients(trace, n) >= cfg.maxStepRetries then Some(RetriesExhausted(n))
        else if t.waitCancelled then Some(Cancelled)
        else None
      case StepError(UserFixable, message) =>
        Some(Finished("User intervention required: " + message, NeedsUser, TotalUsage(trace, n), n + 1))
      case StepError(_, _) =>
        Some(StepFailed(n))
      case StepDone(_, _, text, _) =>
        if Judged(cfg, t).0.Terminal? then
          Some(Finished(text, Stopped(Judged(cfg, t).1), TotalUsage(trace, n + 1), n + 1))
        else if IsFailure(cfg, t) && Failures(cfg, trace, n) + 1 >= cfg.maxConsecutiveFailures then
          Some(Finished(TooManyFailures(Failures(cfg, trace, n) + 1), FailureLimit, TotalUsage(trace, n + 1), n + 1))
        else None
  }

  /** The run goes through turn `n` without ending before it. */
  predicate Reaches(cfg: Config, trace: Trace, n: nat) {
    forall i: nat :: i < n ==> StopAt(cfg, trace, i).None?
  }

  function Signed(n: int): string {
    if n >= 0 then Messages.Decimal(n) else "-" + Messages.Decimal(-n)
  }

  function AtTurnLimit(cfg: Config, trace: Trace): Outcome {
    var n := if cfg.maxTurns > 0 then cfg.maxTurns else 0;
    var text := LastText(trace, n);
    Finished(if text == "" then OutOfTurns(cfg.maxTurns) else text, TurnLimit, TotalUsage(trace, n), cfg.maxTurns)
  }

  /** The outcome is that of the first turn that stops the run, or that of the turn limit if there is none. */
  ghost predicate IsOutcome(cfg: Config, trace: Trace, r: Outcome) {
    || (exists n: nat :: n < cfg.maxTurns && Reaches(cfg, trace, n) && StopAt(cfg, trace, n) == Some(r))
    || ((forall n: nat :: n < cfg.maxTurns ==> StopAt(cfg, trace, n).None?) && r == AtTurnLimit(cfg, trace))
  }

  method Run(cfg: Config, guard: InputGuard, trace: Trace) returns (r: Outcome)
    ensures guard.Tripwire? ==> r == InputTripped(guard.reason)
    ensures guard.Denied? ==> r == Finished("Input rejected: " + guard.reason, InputDenied, NO_USAGE, 0)
    ensures guard.Allowed? ==> IsOutcome(cfg, trace, r)
  {
    match guard {
      case Tripwire(reason) => return InputTripped(reason);
      case Denied(reason) => return Finished("Input rejected: " + reason, InputDenied, NO_USAGE, 0);
      case Allowed =>
    }
    var totalUsage := NO_USAGE;
    var stepRetries, consecutiveFailures := 0, 0;
    var lastAssistantText := "";
    var turn := 0;
    while turn < cfg.maxTurns
      invariant 0 <= turn && (turn <= cfg.maxTurns || turn == 0)
      invariant Reaches(cfg, trace, turn)
      invariant stepRetries == Transients(trace, turn)
      invariant consecutiveFailures == Failures(cfg, trace, turn)
      invariant totalUsage == TotalUsage(trace, turn)
      invariant lastAssistantText == LastText(trace, turn)
    {
      var t := trace(turn);
      FailuresStep(cfg, trace, turn);
      if t.cancelled {
        return Cancelled;
      }
      if t.step.StepError? {
        match t.step.class_ {
          case Transient =>
            if stepRetries >= cfg.maxStepRetries {
              return RetriesExhausted(turn);
            }
            stepRetries := stepRetries + 1;
            if t.waitCancelled {
              return Cancelled;
            }
            turn := turn + 1;
            continue;
          case UserFixable =>
            return Finished("User intervention required: " + t.step.message, NeedsUser, totalUsage, turn + 1);
          case _ =>
            return StepFailed(turn);
        }
      }
      stepRetries := 0;
      totalUsage := Add(totalUsage, t.step.usage);
      if t.step.text != "" {
        lastAssistantText := t.step.text;
      }
      var kind, reason, text := t.step.kind, t.step.reason, t.step.text;
      if kind.Terminal? && reason.Completed? && cfg.hasJudge {
        match t.verdict {
          case JudgeError =>
          case NotDone =>
            kind, reason, text := Continue, Other("judge_continue"), "";
          case Done(judgeReason) =>
            if judgeReason.Some? {
              reason := judgeReason.value;
            }
        }
      }
      if kind.Terminal? {
        return Finished(text, Stopped(reason), totalUsage, turn + 1);
      }
      if IsFailureReason(reason) {
        consecutiveFailures := consecutiveFailures + 1;
        if consecutiveFailures >= cfg.maxConsecutiveFailures {
          return Finished(TooManyFailures(consecutiveFailures), FailureLimit, totalUsage, turn + 1);
        }
      } else {
        consecutiveFailures := 0;
      }
      turn := turn + 1;
    }
    if lastAssistantText == "" {
      lastAssistantText := OutOfTurns(cfg.maxTurns);
    }
    r := Finished(lastAssistantText, TurnLimit, totalUsage, cfg.maxTurns);
  }

  /** One more turn: transient errors leave the number of failures alone, failures add one, anything else resets it. */
  lemma {:induction false} FailuresStep(cfg: Config, trace: Trace, n: nat)
    ensures Failures(cfg, trace, n + 1) ==
              if IsTransient(trace(n)) then Failures(cfg, trace, n)
              else if IsFailure(cfg, trace(n)) then Failures(cfg, trace, n) + 1
              else 0
  {
    var a, b := FailedTurns(cfg, trace, n), FailedTurns(cfg, trace, n + 1);
    if IsTransient(trace(n)) {
      assert a == b;
    } else if IsFailure(cfg, trace(n)) {
      assert b == a + {n};
    } else {
      assert b == {};
    }
  }

  // ---------- What the outcomes mean ----------

  /** The retry counter says that the turns right before were transient errors. */
  lemma {:induction false} TransientsMeaning(trace: Trace, n: nat, k: nat)
    ensures Transients(trace, n) >= k <==> k <= n && forall i: nat :: n - k <= i < n ==> IsTransient(trace(i))
  {
    if n > 0 && k > 0 {
      TransientsMeaning(trace, n - 1, k - 1);
    }
  }

  /** At most one outcome fits. */
  lemma {:induction false} OutcomeUnique(cfg: Config, trace: Trace, r: Outcome, s: Outcome)
    requires IsOutcome(cfg, trace, r) && IsOutcome(cfg, trace, s)
    ensures r == s
  {
    if n: nat :| n < cfg.maxTurns && Reaches(cfg, trace, n) && StopAt(cfg, trace, n) == Some(r) {
      if m: nat :| m < cfg.maxTurns && Reaches(cfg, trace, m) && StopAt(cfg, trace, m) == Some(s) {
        assert m < n ==> StopAt(cfg, trace, m).None?;
        assert n < m ==> StopAt(cfg, trace, n).None?;
      }
    }
  }

  /** The judge is only asked about a completed answer, and a judged turn goes on if and only if the verdict is that the goal
      has not been reached: an error of the judge ends the run. */
  lemma {:induction false} JudgedExact(cfg: Config, t: Turn)
    requires t.step.StepDone?
    ensures Judged(cfg, t).0.Continue? <==>
              t.step.kind.Continue? || (t.step.reason.Completed? && cfg.hasJudge && t.verdict.NotDone?)
  {}

  /** Whatever came before, a run whose judge fails on an answer ends with that answer. */
  lemma {:induction false} JudgeErrorEnds(cfg: Config, trace: Trace, n: nat)
    requires n < cfg.maxTurns && Reaches(cfg, trace, n) && cfg.hasJudge && !trace(n).cancelled
    requires trace(n).step.StepDone? && trace(n).step.kind.Terminal? && trace(n).step.reason.Completed?
    requires trace(n).verdict.JudgeError?
    ensures IsOutcome(cfg, trace, Finished(trace(n).step.text, Stopped(Completed), TotalUsage(trace, n + 1), n + 1))
  {}

  /** A trace whose first turn brings an answer that the judge fails on. */
  function JudgeFails(): Trace {
    _ => Turn(false, StepDone(Terminal, Completed, "done", NO_USAGE), false, JudgeError)
  }

  lemma {:induction false} JudgeErrorInput(cfg: Config)
    requires cfg.maxTurns >= 1 && cfg.hasJudge
    ensures IsOutcome(cfg, JudgeFails(), Finished("done", Stopped(Completed), TotalUsage(JudgeFails(), 1), 1))
  {
    JudgeErrorEnds(cfg, JudgeFails(), 0);
  }

  function AtLeast(limit: int, low: int): int {
    if limit < low then low else limit
  }

  /** Main result on retries: the run ends for lack of retries in turn `n` exactly when it gets there and turn `n` is one
      transient error in a row more than may be retried; no run goes through more of them. A negative limit counts as 0. */
  lemma {:induction false} RetriesExact(cfg: Config, trace: Trace, n: nat)
    requires Reaches(cfg, trace, n)
    ensures var limit := AtLeast(cfg.maxStepRetries, 0);
            && Transients(trace, n) <= limit
            && (StopAt(cfg, trace, n) == Some(RetriesExhausted(n)) <==>
                  && !trace(n).cancelled && limit <= n
                  && forall i: nat :: n - limit <= i <= n ==> IsTransient(trace(i)))
  {
    TransientsMeaning(trace, n, AtLeast(cfg.maxStepRetries, 0));
    if n > 0 {
      assert StopAt(cfg, trace, n - 1).None?;
    }
  }

  /** Main result on failures: in a run that gets to turn `n`, fewer than the permitted number of turns have failed since
      the last one that was neither a failure nor a transient error; the run ends for failures in turn `n` exactly when
      that turn makes it the permitted number. A limit below 1 counts as 1. */
  lemma {:induction false} FailuresExact(cfg: Config, trace: Trace, n: nat)
    requires Reaches(cfg, trace, n)
    ensures var limit := AtLeast(cfg.maxConsecutiveFailures, 1);
            && |FailedTurns(cfg, trace, n)| < limit
            && ((exists r :: StopAt(cfg, trace, n) == Some(r) && r.Finished? && r.reason.FailureLimit?) <==>
                  !trace(n).cancelled && |FailedTurns(cfg, trace, n + 1)| == limit)
    decreases n
  {
    FailuresStep(cfg, trace, n);
    if n > 0 {
      FailuresExact(cfg, trace, n - 1);
      FailuresStep(cfg, trace, n - 1);
      assert StopAt(cfg, trace, n - 1).None?;
    } else {
      assert FailedTurns(cfg, trace, 0) == {};
    }
  }

  /** A result reports the turn it was reached in, and never more turns than allowed. */
  lemma {:induction false} TurnsReported(cfg: Config, trace: Trace, r: Outcome)
    requires IsOutcome(cfg, trace, r) && r.Finished? && cfg.maxTurns >= 1
    ensures 1 <= r.turns <= cfg.maxTurns && r.usage == TotalUsage(trace, if r.reason.NeedsUser? then r.turns - 1 else r.turns)
    ensures r.reason.TurnLimit? <==> forall n: nat :: n < cfg.maxTurns ==> StopAt(cfg, trace, n).None?
  {
  }
}
