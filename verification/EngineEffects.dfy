/** What a step writes to the history, message by message, and that nothing said is lost. */
module EngineEffects {
  import opened Bytes
  import opened Messages
  import opened ContextManager
  import opened EngineHistory

  // ---------- One step ----------

  predicate IsDelegation(e: Engine, w: World) {
    (w.tool == "delegate_task" && e.delegateEnabled) || (w.tool == "coordinate_tasks" && e.coordinatorEnabled)
  }

  /** The step answers in prose: no tool is needed, or the skill has done its work since the last user message. */
  ghost predicate GoesToChat(e: Engine, h: seq<Message>, w: World) {
    w.tool == "none" || (!IsDelegation(e, w) && w.tool in e.skills && Scanned(h, w.tool))
  }

  ghost function After(e: Engine, h: seq<Message>, w: World): seq<Message> {
    h + e.StepMessages(h, w)
  }

  /** An answer stands at the end of the history; a blocked one is replaced; a failed step leaves the history as it is. */
  lemma {:induction false} ChatEffect(e: Engine, h: seq<Message>, w: World)
    requires GoesToChat(e, h, w)
    ensures w.chat.Answer? ==> After(e, h, w) == h + [w.chat.message] && e.StepReason(h, w).Completed?
    ensures w.chat.OutputBlocked? ==>
              && After(e, h, w) == h + [Message(Assistant, Some("I cannot provide that response."), [], "")]
              && e.StepReason(h, w).OutputWasBlocked?
    ensures w.chat.OutputTripped? || w.chat.NoAnswer? ==> After(e, h, w) == h && e.StepReason(h, w).Failure?
  {
    assert h + [] == h;
  }

  /** The history goes on with one call of the tool, with its arguments, and the result. */
  predicate EndsInPair(g: seq<Message>, h: seq<Message>, w: World, text: string) {
    && |g| >= |h| + 2 && g[..|h|] == h
    && g[|h|].role.Assistant? && |g[|h|].toolCalls| == 1 && g[|h|].content.None?
    && g[|h|].toolCalls[0] == ToolCall(w.callId, w.tool, w.arguments)
    && g[|h| + 1].role.Tool? && g[|h| + 1].content == Some(text) && g[|h| + 1].toolCallId == w.callId
  }

  lemma {:induction false} DelegationEffect(e: Engine, h: seq<Message>, w: World)
    requires IsDelegation(e, w)
    ensures EndsInPair(After(e, h, w), h, w, w.subResult) && |After(e, h, w)| == |h| + 2
    ensures w.tool == "delegate_task" ==> e.StepReason(h, w).Delegated?
    ensures w.tool == "coordinate_tasks" ==> e.StepReason(h, w).Coordinated?
  {
    assert "delegate_task"[0] == 'd' && "coordinate_tasks"[0] == 'c' && "none"[0] == 'n';
  }

  /** A refused, failed or successful call is written with its result; a stopped one is not written at all. */
  lemma {:induction false} CallEffect(e: Engine, h: seq<Message>, w: World, text: string)
    requires !IsDelegation(e, w) && !GoesToChat(e, h, w)
    requires match w.outcome
             case NotFound(available) => text == "Error: tool " + ("\"" + w.tool + "\"") + " not found. Available tools: " + available
             case Denied => text == "Permission denied: tool " + ("\"" + w.tool + "\"") + " is not allowed by the current policy."
             case Blocked(reason) => text == "Blocked by guard: " + reason
             case Crashed(error) => text == "Error executing tool " + ("\"" + w.tool + "\"") + ": " + error
             case ErrorResult(error) => text == "Error: " + error
             case Success(result) => text == result
             case Tripped => true
    ensures if w.outcome.Tripped? then After(e, h, w) == h else EndsInPair(After(e, h, w), h, w, text)
    ensures w.outcome.Tripped? || |After(e, h, w)| == |h| + 2 || (w.outcome.Success? && w.verification.Some?)
  {
    assert h + [] == h;
  }

  /** A failed verification is put to the model as a user message. */
  lemma {:induction false} VerificationEffect(e: Engine, h: seq<Message>, w: World)
    requires !IsDelegation(e, w) && !GoesToChat(e, h, w) && w.outcome.Success? && w.verification.Some?
    ensures |After(e, h, w)| == |h| + 3 && e.StepReason(h, w).VerifyFailed?
    ensures var m := After(e, h, w)[|h| + 2];
            && m.role.User? && m.toolCalls == []
            && m.content == Some("[Verification Failed]\n" + w.verification.value + "\nPlease fix the issues and try again.")
  {}

  lemma {:induction false} CallReasons(e: Engine, h: seq<Message>, w: World)
    requires !IsDelegation(e, w) && !GoesToChat(e, h, w)
    ensures var r := e.StepReason(h, w);
            && (r.ToolNotFound? <==> w.outcome.NotFound?) && (r.PermissionDenied? <==> w.outcome.Denied?)
            && (r.GuardBlocked? <==> w.outcome.Blocked?) && (r.Failure? <==> w.outcome.Tripped?)
            && (r.ToolError? <==> w.outcome.Crashed? || w.outcome.ErrorResult?)
            && (r.ToolUse? <==> w.outcome.Success? && w.verification.None?)
  {}

  // ---------- Whole scripts ----------

  /** `a` stands in `b`, in order, at the given places. */
  predicate StandsAt(a: seq<Message>, b: seq<Message>, places: seq<int>) {
    && |places| == |a|
    && (forall i, j :: 0 <= i < j < |places| ==> places[i] < places[j])
    && (forall i :: 0 <= i < |a| ==> 0 <= places[i] < |b| && b[places[i]] == a[i])
  }

  ghost predicate StandsIn(a: seq<Message>, b: seq<Message>) {
    exists places :: StandsAt(a, b, places)
  }

  lemma {:induction false} StandsInLonger(a: seq<Message>, pre: seq<Message>, b: seq<Message>, post: seq<Message>)
    requires StandsIn(a, b)
    ensures StandsIn(a, pre + b + post)
  {
    var places :| StandsAt(a, b, places);
    var moved := seq(|places|, i requires 0 <= i < |places| => places[i] + |pre|);
    assert StandsAt(a, pre + b + post, moved);
  }

  lemma {:induction false} StandsInMore(a: seq<Message>, b: seq<Message>, more: seq<Message>)
    requires StandsIn(a, b)
    ensures StandsIn(a + more, b + more)
  {
    var places :| StandsAt(a, b, places);
    var last := seq(|more|, i requires 0 <= i < |more| => |b| + i);
    assert StandsAt(a + more, b + more, places + last);
  }

  /** What the user and the model say in one operation. */
  ghost function SaidIn(e: Engine, h: seq<Message>, op: Op): seq<Message> {
    match op
    case Input(text) => [UserMessage(text)]
    case Chat(Answer(m)) => [m]
    case Step(w) => if GoesToChat(e, h, w) && w.chat.Answer? then [w.chat.message] else []
    case _ => []
  }

  ghost function Said(e: Engine, s: Snapshot, script: seq<Op>): seq<Message> {
    if script == [] then []
    else
      var front := script[..|script| - 1];
      Said(e, s, front) + SaidIn(e, e.AfterOps(s, front).history, script[|script| - 1])
  }

  /** Operations that take nothing out of a history. */
  predicate Keeps(op: Op) {
    !op.Compaction? && !(op.Injection? && op.position == "replace")
  }

  /** Such an operation puts messages before and after the history, what is said at the end. */
  lemma {:induction false} OpKeeps(e: Engine, s: Snapshot, op: Op) returns (pre: seq<Message>, post: seq<Message>)
    requires Keeps(op)
    ensures e.AfterOp(s, op).history == pre + s.history + post
    ensures SaidIn(e, s.history, op) != [] ==> pre == [] && post == SaidIn(e, s.history, op)
  {
    var h := s.history;
    pre, post := [], [];
    assert [] + h + [] == h;
    match op
    case Input(text) =>
      post := [UserMessage(text)];
    case Chat(chat) =>
      post := ChatMessages(chat);
      if chat.Answer? {
        AnswerAlone(chat);
      }
    case Step(w) =>
      post := e.StepMessages(h, w);
      if GoesToChat(e, h, w) {
        ChatEffect(e, h, w);
        assert w.chat.Answer? ==> (h + post)[|h|..] == post == [w.chat.message];
      }
    case Injection(msgs, position) =>
      if msgs == [] {
      } else if position == "prepend" {
        pre := msgs;
      } else {
        post := msgs;
      }
      assert [] + h + post == h + post && pre + h + [] == pre + h;
    case Reserve(_) =>
    case _ =>
  }

  lemma {:induction false} AnswerAlone(chat: ChatOutcome)
    requires chat.Answer?
    ensures ChatMessages(chat) == [chat.message]
  {}

  /** Main result: as long as nothing is compacted or replaced, everything that the user and the model have said stands in the
      history, in the order in which it was said. */
  lemma {:induction false} NothingSaidIsLost(e: Engine, s: Snapshot, script: seq<Op>)
    requires forall i :: 0 <= i < |script| ==> Keeps(script[i])
    ensures StandsIn(Said(e, s, script), e.AfterOps(s, script).history)
  {
    if script == [] {
      assert StandsAt([], s.history, []);
    } else {
      var front, op := script[..|script| - 1], script[|script| - 1];
      NothingSaidIsLost(e, s, front);
      var t := e.AfterOps(s, front);
      var pre, post := OpKeeps(e, t, op);
      if SaidIn(e, t.history, op) == [] {
        StandsInLonger(Said(e, s, front), pre, t.history, post);
        assert Said(e, s, front) + [] == Said(e, s, front);
      } else {
        StandsInMore(Said(e, s, front), t.history, post);
        assert [] + t.history + post == t.history + post;
      }
    }
  }

  /** Where injected messages go. */
  lemma {:induction false} InjectionEffect(e: Engine, s: Snapshot, msgs: seq<Message>, position: string)
    ensures var h := e.AfterOp(s, Injection(msgs, position)).history;
            && (msgs == [] ==> h == s.history)
            && (msgs != [] && position == "prepend" ==> |h| == |msgs| + |s.history| && h[..|msgs|] == msgs && h[|msgs|..] == s.history)
            && (msgs != [] && position == "replace" ==> h == msgs)
            && (msgs != [] && position != "prepend" && position != "replace" ==>
                  |h| == |s.history| + |msgs| && h[..|s.history|] == s.history && h[|s.history|..] == msgs)
  {
    assert "prepend" != "replace" by {
      assert "prepend"[0] == 'p' && "replace"[0] == 'r';
    }
  }
}
