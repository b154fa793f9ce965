/** How a run ends, turn by turn, in terms of what the turn meets. */
module EngineEndings {
  import opened Bytes
  import Messages
  import opened EngineRun

  /** The run gets to turn `n` and its step is taken. */
  predicate Steps(cfg: Config, trace: Trace, n: nat) {
    n < cfg.maxTurns && Reaches(cfg, trace, n) && !trace(n).cancelled
  }

  // ---------- Errors ----------

  /** A run ends as a failed step exactly when the step fails in a way that neither a retry nor the user can mend. */
  lemma {:induction false} FatalEnds(cfg: Config, trace: Trace, n: nat)
    requires Steps(cfg, trace, n)
    ensures IsOutcome(cfg, trace, StepFailed(n)) <==>
              trace(n).step.StepError? && (trace(n).step.class_.Fatal? || trace(n).step.class_.LLMRecoverable?)
  {
    if IsOutcome(cfg, trace, StepFailed(n)) {
      EndsIn(cfg, trace, n, StepFailed(n));
    }
  }

  /** A failed step ends in the turn that it names. */
  lemma {:induction false} EndsIn(cfg: Config, trace: Trace, n: nat, r: Outcome)
    requires n < cfg.maxTurns && Reaches(cfg, trace, n) && IsOutcome(cfg, trace, r)
    requires r == StepFailed(n) || r == RetriesExhausted(n) || (r.Finished? && r.turns == n + 1 && !r.reason.TurnLimit?)
    ensures StopAt(cfg, trace, n) == Some(r)
  {
    var m: nat :| m < cfg.maxTurns && Reaches(cfg, trace, m) && StopAt(cfg, trace, m) == Some(r);
    assert m == n;
  }

  /** A run asks for the user exactly when the step fails in a way that the user can mend; it is a result, with the message and
      the usage of the steps before. */
  lemma {:induction false} UserEnds(cfg: Config, trace: Trace, n: nat, text: string, usage: Usage)
    requires Steps(cfg, trace, n)
    ensures IsOutcome(cfg, trace, Finished(text, NeedsUser, usage, n + 1)) <==>
              && trace(n).step.StepError? && trace(n).step.class_.UserFixable?
              && text == "User intervention required: " + trace(n).step.message && usage == TotalUsage(trace, n)
  {
    if IsOutcome(cfg, trace, Finished(text, NeedsUser, usage, n + 1)) {
      EndsIn(cfg, trace, n, Finished(text, NeedsUser, usage, n + 1));
    }
  }

  /** A cancelled context ends the run before the step, and a cancelled wait after a transient error that could be retried. */
  lemma {:induction false} CancelEnds(cfg: Config, trace: Trace, n: nat)
    requires n < cfg.maxTurns && Reaches(cfg, trace, n)
    ensures trace(n).cancelled ==> IsOutcome(cfg, trace, Cancelled)
    ensures !trace(n).cancelled && IsTransient(trace(n)) && trace(n).waitCancelled && Transients(trace, n) < cfg.maxStepRetries ==>
              IsOutcome(cfg, trace, Cancelled)
    ensures !trace(n).cancelled && IsTransient(trace(n)) && !trace(n).waitCancelled && Transients(trace, n) < cfg.maxStepRetries ==>
              Reaches(cfg, trace, n + 1)
  {}

  // ---------- Answers ----------

  /** A step that is final, and that no judge sends on, ends the run with its text and with its reason or the judge's. */
  lemma {:induction false} AnswerEnds(cfg: Config, trace: Trace, n: nat)
    requires Steps(cfg, trace, n) && trace(n).step.StepDone? && trace(n).step.kind.Terminal?
    ensures var t := trace(n);
            var asked := cfg.hasJudge && t.step.reason.Completed?;
            && (!asked || t.verdict.JudgeError? || t.verdict == Done(None) ==>
                  IsOutcome(cfg, trace, Finished(t.step.text, Stopped(t.step.reason), TotalUsage(trace, n + 1), n + 1)))
            && (asked && t.verdict.Done? && t.verdict.reason.Some? ==>
                  IsOutcome(cfg, trace, Finished(t.step.text, Stopped(t.verdict.reason.value), TotalUsage(trace, n + 1), n + 1)))
            && (asked && t.verdict.NotDone? ==> Reaches(cfg, trace, n + 1))
  {}

  /** A step that is not final counts as a failure if and only if its reason is one of these. */
  lemma {:induction false} FailureReasons(cfg: Config, t: Turn)
    requires t.step.StepDone? && t.step.kind.Continue?
    ensures IsFailure(cfg, t) <==> t.step.reason in {ToolError, ToolNotFound, VerifyFailed, PermissionDenied, GuardBlocked}
  {}

  /** Where one failure is enough, it ends the run, with the number of failures in the text; any other step that is not final
      lets the run go on. */
  lemma {:induction false} FailureEnds(cfg: Config, trace: Trace, n: nat)
    requires Steps(cfg, trace, n) && trace(n).step.StepDone? && trace(n).step.kind.Continue? && cfg.maxConsecutiveFailures <= 1
    ensures !IsFailure(cfg, trace(n)) ==> Reaches(cfg, trace, n + 1)
    ensures IsFailure(cfg, trace(n)) ==>
              var text := "Stopped: " + Messages.Decimal(1) + " consecutive failures";
              IsOutcome(cfg, trace, Finished(text, FailureLimit, TotalUsage(trace, n + 1), n + 1))
  {
    FailuresNone(cfg, trace, n);
  }

  lemma {:induction false} FailuresNone(cfg: Config, trace: Trace, n: nat)
    requires Reaches(cfg, trace, n) && cfg.maxConsecutiveFailures <= 1
    ensures Failures(cfg, trace, n) == 0
  {
    FailuresExact(cfg, trace, n);
  }

  // ---------- The turn limit ----------

  /** At the limit the run returns the last text that is not empty, or says that there was none. */
  lemma {:induction false} LastTextMeaning(trace: Trace, n: nat, i: nat)
    requires i < n && trace(i).step.StepDone? && trace(i).step.text != ""
    requires forall j: nat :: i < j < n ==> trace(j).step.StepError? || trace(j).step.text == ""
    ensures LastText(trace, n) == trace(i).step.text
    decreases n
  {
    if i == n - 1 {
    } else {
      LastTextMeaning(trace, n - 1, i);
    }
  }

  lemma {:induction false} NoText(trace: Trace, n: nat)
    requires forall j: nat :: j < n ==> trace(j).step.StepError? || trace(j).step.text == ""
    ensures LastText(trace, n) == ""
    decreases n
  {
    if n == 0 {
    } else {
      NoText(trace, n - 1);
    }
  }

  lemma {:induction false} LimitEnds(cfg: Config, trace: Trace, n: nat)
    requires n == cfg.maxTurns && Reaches(cfg, trace, n)
    ensures IsOutcome(cfg, trace, Finished(if LastText(trace, n) != "" then LastText(trace, n)
                                            else "Stopped after " + Messages.Decimal(n) + " turns (max_turns reached)",
                                            TurnLimit, TotalUsage(trace, n), n))
  {}

  // ---------- Usage ----------

  /** Steps that succeed add what they used, in each of the three counts; errors add nothing. */
  lemma {:induction false} UsageAdds(trace: Trace, n: nat)
    ensures TotalUsage(trace, 0) == Usage(0, 0, 0)
    ensures var a, b, step := TotalUsage(trace, n), TotalUsage(trace, n + 1), trace(n).step;
            if step.StepError? then b == a
            else b.prompt - a.prompt == step.usage.prompt && b.completion - a.completion == step.usage.completion
                 && b.total - a.total == step.usage.total
  {}
}
