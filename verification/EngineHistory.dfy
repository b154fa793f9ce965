/** The messages that the engine's steps write, and the guard against repeated skill calls. */
module EngineHistory {
  import opened Bytes
  import opened Messages
  import opened Pairing
  import opened Compaction
  import opened ContextManager
  import CompactionTheorems

  // ---------- Successful calls since the last user message ----------

  const ERROR_PREFIX := "Error:"

  /** A tool message that does not start with the error prefix. */
  predicate IsSuccess(m: Message) {
    m.role.Tool? && !StartsWithText(ContentString(m), ERROR_PREFIX)
  }

  /** The position behind the last user message. */
  function SegmentStart(h: seq<Message>): (s: nat)
    ensures s <= |h| && (s > 0 ==> h[s - 1].role.User?)
    ensures forall i :: s <= i < |h| ==> !h[i].role.User?
  {
    if h == [] then 0
    else if h[|h| - 1].role.User? then |h|
    else SegmentStart(h[..|h| - 1])
  }

  predicate MakesCall(m: Message, k: nat, tool: string, id: string) {
    m.role.Assistant? && k < |m.toolCalls| && m.toolCalls[k].name == tool && m.toolCalls[k].id == id
  }

  /** What the two scans look for: since the last user message, a call of the tool and a successful result that have the
      same id. */
  ghost predicate Scanned(h: seq<Message>, tool: string) {
    exists c, k: nat, t ::
      SegmentStart(h) <= c < |h| && SegmentStart(h) <= t < |h| && IsSuccess(h[t]) && MakesCall(h[c], k, tool, h[t].toolCallId)
  }

  /** The k-th call of the turn at `c` is a call of the tool, and its own result is a success. */
  predicate Succeeded(h: seq<Message>, c: nat, k: nat, tool: string) {
    && c + 1 + k < |h| && h[c].role.Assistant?
    && k < |h[c].toolCalls| && h[c].toolCalls[k].name == tool
    && h[c + 1 + k].toolCallId == h[c].toolCalls[k].id
    && IsSuccess(h[c + 1 + k])
  }

  /** No two calls have the same id. */
  predicate FreshIds(h: seq<Message>) {
    forall i, k, j, l | 0 <= i < |h| && 0 <= k < |h[i].toolCalls| && 0 <= j < |h| && 0 <= l < |h[j].toolCalls| ::
      h[i].toolCalls[k].id == h[j].toolCalls[l].id ==> i == j && k == l
  }

  method ToolAlreadySucceeded(h: seq<Message>, tool: string, skills: set<string>) returns (r: bool)
    ensures r <==> tool in skills && Scanned(h, tool)
  {
    if tool !in skills {
      return false;
    }
    ghost var start := SegmentStart(h);
    var successIds: set<string> := {};
    var i := |h|;
    while i > 0
      invariant start <= i <= |h|
      invariant forall id :: id in successIds <==> exists t :: i <= t < |h| && IsSuccess(h[t]) && h[t].toolCallId == id
    {
      if h[i - 1].role.User? {
        break;
      }
      i := i - 1;
      if h[i].role.Tool? && !StartsWithText(ContentString(h[i]), ERROR_PREFIX) {
        successIds := successIds + {h[i].toolCallId};
      }
    }
    assert i == start;
    i := |h|;
    while i > 0
      invariant start <= i <= |h|
      invariant forall c, k: nat, id :: i <= c < |h| && MakesCall(h[c], k, tool, id) ==> id !in successIds
    {
      if h[i - 1].role.User? {
        break;
      }
      i := i - 1;
      if h[i].role.Assistant? {
        var calls := h[i].toolCalls;
        for k := 0 to |calls|
          invariant forall l: nat, id :: l < k && MakesCall(h[i], l, tool, id) ==> id !in successIds
        {
          if calls[k].name == tool && calls[k].id in successIds {
            assert MakesCall(h[i], k, tool, calls[k].id);
            return true;
          }
        }
      }
    }
    r := false;
  }

  /** The scans miss no successful call. */
  lemma {:induction false} ScanComplete(h: seq<Message>, c: nat, k: nat, tool: string)
    requires Succeeded(h, c, k, tool) && SegmentStart(h) <= c
    ensures Scanned(h, tool)
  {
    assert MakesCall(h[c], k, tool, h[c + 1 + k].toolCallId);
  }

  /** With fresh call ids the scans decide exactly whether the tool was called with success since the last user
      message. */
  lemma {:induction false} ScanExact(h: seq<Message>, tool: string)
    requires WellPaired(h) && FreshIds(h)
    ensures Scanned(h, tool) <==> exists c: nat, k: nat :: SegmentStart(h) <= c && Succeeded(h, c, k, tool)
  {
    if Scanned(h, tool) {
      var c, k: nat, t :|
        SegmentStart(h) <= c < |h| && SegmentStart(h) <= t < |h| && IsSuccess(h[t]) && MakesCall(h[c], k, tool, h[t].toolCallId);
      ScanSound(h, tool, c, k, t);
    }
    if c: nat, k: nat :| SegmentStart(h) <= c && Succeeded(h, c, k, tool) {
      ScanComplete(h, c, k, tool);
    }
  }

  /** With fresh ids a result that has the id of a call is that call's own result. */
  lemma {:induction false} ScanSound(h: seq<Message>, tool: string, c: nat, k: nat, t: nat)
    requires WellPaired(h) && FreshIds(h)
    requires c < |h| && t < |h| && IsSuccess(h[t]) && MakesCall(h[c], k, tool, h[t].toolCallId)
    ensures Succeeded(h, c, k, tool)
  {
    PairedMeaning(h, t);
    var a: nat := CallOf(h, t);
    var l: nat := t - a - 1;
    assert AnswerAt(h, a, l);
    assert h[a].toolCalls[l].id == h[c].toolCalls[k].id;
    assert a == c && l == k;
  }

  /** Between two successful calls of the tool there is a user message. */
  ghost predicate CalledOnce(h: seq<Message>, tool: string) {
    forall c: nat, k: nat, d: nat, l: nat ::
      Succeeded(h, c, k, tool) && Succeeded(h, d, l, tool) && (c < d || (c == d && k < l)) ==>
        exists u :: c < u < d && h[u].role.User?
  }

  // ---------- Steps ----------

  datatype ToolOutcome = NotFound(available: string) | Denied | Blocked(reason: string) | Tripped
                       | Crashed(error: string) | ErrorResult(text: string) | Success(text: string)

  datatype ChatOutcome = Answer(message: Message) | OutputBlocked | OutputTripped | NoAnswer

  /** Everything a step learns from outside: the router's choice, a new call id, the chat model, the tool, the verifiers
      (a failure summary), and the text of a sub-agent's or the coordinator's result. */
  datatype World = World(tool: string, arguments: string, callId: string, chat: ChatOutcome, outcome: ToolOutcome,
                         verification: Option<string>, subResult: string)

  datatype Reason = Completed | OutputWasBlocked | Failure | ToolUse | Delegated | Coordinated | ToolNotFound | PermissionDenied
                  | GuardBlocked | ToolError | VerifyFailed

  const NONE := "none"
  const DELEGATE := "delegate_task"
  const COORDINATE := "coordinate_tasks"

  function Quote(s: string): string {
    "\"" + s + "\""
  }

  function ResultText(tool: string, outcome: ToolOutcome): string {
    match outcome
    case NotFound(available) => "Error: tool " + Quote(tool) + " not found. Available tools: " + available
    case Denied => "Permission denied: tool " + Quote(tool) + " is not allowed by the current policy."
    case Blocked(reason) => "Blocked by guard: " + reason
    case Tripped => ""
    case Crashed(error) => "Error executing tool " + Quote(tool) + ": " + error
    case ErrorResult(text) => "Error: " + text
    case Success(text) => text
  }

  function VerifyText(summary: string): string {
    "[Verification Failed]\n" + summary + "\nPlease fix the issues and try again."
  }

  function AssistantMessage(text: string): Message {
    Message(Assistant, Some(text), [], "")
  }

  const SAFE_ANSWER := "I cannot provide that response."

  function ChatMessages(chat: ChatOutcome): seq<Message> {
    match chat
    case Answer(m) => [m]
    case OutputBlocked => [AssistantMessage(SAFE_ANSWER)]
    case _ => []
  }

  function PairMessages(w: World, text: string): seq<Message> {
    [ToolCallMessage(w.callId, w.tool, w.arguments), ToolResultMessage(w.callId, text)]
  }

  function ToolMessages(w: World): seq<Message> {
    if w.outcome.Tripped? then []
    else
      PairMessages(w, ResultText(w.tool, w.outcome)) +
      if w.outcome.Success? && w.verification.Some? then [UserMessage(VerifyText(w.verification.value))] else []
  }

  function ChatReason(chat: ChatOutcome): Reason {
    match chat
    case Answer(_) => Completed
    case OutputBlocked => OutputWasBlocked
    case _ => Failure
  }

  function ToolReason(w: World): Reason {
    match w.outcome
    case NotFound(_) => ToolNotFound
    case Denied => PermissionDenied
    case Blocked(_) => GuardBlocked
    case Tripped => Failure
    case Crashed(_) => ToolError
    case ErrorResult(_) => ToolError
    case Success(_) => if w.verification.Some? then VerifyFailed else ToolUse
  }

  /** What the chat model may return: it was offered no tools, so it makes no calls. */
  predicate WorldOk(w: World) {
    w.callId != "" && (w.chat.Answer? ==> Plain(w.chat.message))
  }

  class Engine {
    const manager: Manager
    const delegateEnabled: bool
    const coordinatorEnabled: bool
    const skills: set<string>

    constructor (manager: Manager, delegateEnabled: bool, coordinatorEnabled: bool, skills: set<string>)
      ensures this.manager == manager && this.skills == skills
      ensures this.delegateEnabled == delegateEnabled && this.coordinatorEnabled == coordinatorEnabled
    {
      this.manager := manager;
      this.delegateEnabled, this.coordinatorEnabled := delegateEnabled, coordinatorEnabled;
      this.skills := skills;
    }

    predicate IsVirtual(tool: string) {
      tool == NONE || (tool == DELEGATE && delegateEnabled) || (tool == COORDINATE && coordinatorEnabled)
    }

    /** The messages that a tool step appends to the history. */
    ghost function StepMessages(h: seq<Message>, w: World): seq<Message> {
      if w.tool == NONE then ChatMessages(w.chat)
      else if IsVirtual(w.tool) then PairMessages(w, w.subResult)
      else if w.tool in skills && Scanned(h, w.tool) then ChatMessages(w.chat)
      else ToolMessages(w)
    }

    ghost function StepReason(h: seq<Message>, w: World): Reason {
      if w.tool == NONE || (!IsVirtual(w.tool) && w.tool in skills && Scanned(h, w.tool)) then ChatReason(w.chat)
      else if IsVirtual(w.tool) then if w.tool == DELEGATE && delegateEnabled then Delegated else Coordinated
      else ToolReason(w)
    }

    method ChatStep(chat: ChatOutcome) returns (reason: Reason)
      requires manager.Valid()
      modifies manager
      ensures manager.Valid() && manager.reservedTokens == old(manager.reservedTokens)
      ensures manager.History() == old(manager.History()) + ChatMessages(chat)
      ensures reason == ChatReason(chat)
    {
      match chat {
        case Answer(m) =>
          manager.Add(m);
          reason := Completed;
        case OutputBlocked =>
          manager.Add(AssistantMessage(SAFE_ANSWER));
          reason := OutputWasBlocked;
        case _ =>
          reason := Failure;
      }
    }

    method AddPair(w: World, text: string)
      requires manager.Valid()
      modifies manager
      ensures manager.Valid() && manager.reservedTokens == old(manager.reservedTokens)
      ensures manager.History() == old(manager.History()) + PairMessages(w, text)
    {
      manager.Add(ToolCallMessage(w.callId, w.tool, w.arguments));
      manager.Add(ToolResultMessage(w.callId, text));
    }

    method ExecuteAndRecord(w: World) returns (reason: Reason)
      requires manager.Valid() && (w.outcome.Crashed? || w.outcome.ErrorResult? || w.outcome.Success?)
      modifies manager
      ensures manager.Valid() && manager.reservedTokens == old(manager.reservedTokens)
      ensures manager.History() == old(manager.History()) + PairMessages(w, ResultText(w.tool, w.outcome))
      ensures reason == if w.outcome.Success? then ToolUse else ToolError
    {
      AddPair(w, ResultText(w.tool, w.outcome));
      reason := if w.outcome.Success? then ToolUse else ToolError;
    }

    method RunVerification(w: World) returns (failed: bool)
      requires manager.Valid()
      modifies manager
      ensures manager.Valid() && manager.reservedTokens == old(manager.reservedTokens)
      ensures failed == w.verification.Some?
      ensures manager.History() == old(manager.History()) + if failed then [UserMessage(VerifyText(w.verification.value))] else []
    {
      match w.verification {
        case None =>
          failed := false;
        case Some(summary) =>
          manager.Add(UserMessage(VerifyText(summary)));
          failed := true;
      }
    }

    method ToolStep(w: World) returns (reason: Reason)
      requires manager.Valid()
      modifies manager
      ensures manager.Valid() && manager.reservedTokens == old(manager.reservedTokens)
      ensures manager.History() == old(manager.History()) + StepMessages(old(manager.History()), w)
      ensures reason == StepReason(old(manager.History()), w)
    {
      if w.tool == NONE {
        reason := ChatStep(w.chat);
        return;
      }
      if w.tool == DELEGATE && delegateEnabled {
        AddPair(w, w.subResult);
        return Delegated;
      }
      if w.tool == COORDINATE && coordinatorEnabled {
        AddPair(w, w.subResult);
        return Coordinated;
      }
      var h := manager.ListMessages();
      var again := ToolAlreadySucceeded(h, w.tool, skills);
      if again {
        reason := ChatStep(w.chat);
        return;
      }
      reason := RunTool(w);
    }

    /** The part of a tool step behind the repetition guard: look the tool up, check access, execute and verify. */
    method RunTool(w: World) returns (reason: Reason)
      requires manager.Valid()
      modifies manager
      ensures manager.Valid() && manager.reservedTokens == old(manager.reservedTokens)
      ensures manager.History() == old(manager.History()) + ToolMessages(w)
      ensures reason == ToolReason(w)
    {
      if w.outcome.NotFound? {
        AddPair(w, ResultText(w.tool, w.outcome));
        return ToolNotFound;
      }
      if w.outcome.Denied? {
        AddPair(w, ResultText(w.tool, w.outcome));
        return PermissionDenied;
      }
      if w.outcome.Tripped? {
        return Failure;
      }
      if w.outcome.Blocked? {
        AddPair(w, ResultText(w.tool, w.outcome));
        return GuardBlocked;
      }
      reason := ExecuteAndRecord(w);
      if reason == ToolUse {
        var failed := RunVerification(w);
        if failed {
          return VerifyFailed;
        }
      }
    }

    // ---------- Whole scripts ----------

    ghost function Now(): Snapshot
      reads manager
    {
      Snapshot(manager.History(), manager.reservedTokens)
    }

    /** What one operation makes of the history. */
    ghost function AfterOp(s: Snapshot, op: Op): Snapshot {
      match op
      case Input(text) => s.(history := s.history + [UserMessage(text)])
      case Chat(chat) => s.(history := s.history + ChatMessages(chat))
      case Step(w) => s.(history := s.history + StepMessages(s.history, w))
      case Compaction(cfg) => if CompactionOf(s, cfg).Compacted? then s.(history := Msgs(CascadeOf(s, cfg).entries)) else s
      case Injection(msgs, position) => s.(history := Injected(s.history, msgs, position))
      case Reserve(tokens) => s.(reserved := tokens)
    }

    ghost function CascadeOf(s: Snapshot, cfg: Config): Outcome {
      Cascade(Entries(s.history), s.reserved, manager.tokenLimit, cfg)
    }

    /** A compaction is due at the threshold. */
    ghost function CompactionOf(s: Snapshot, cfg: Config): (r: CompactResult)
      ensures r.Compacted? ==> CascadeOf(s, cfg).Done?
    {
      CompactOutcome(Entries(s.history), s.reserved, manager.tokenLimit, manager.threshold, cfg)
    }

    ghost function AfterOps(s: Snapshot, script: seq<Op>): Snapshot {
      if script == [] then s else AfterOp(AfterOps(s, script[..|script| - 1]), script[|script| - 1])
    }

    /** One thing that can happen to the history; `result` tells what a compaction came to. */
    method Apply(op: Op) returns (result: CompactResult)
      requires manager.Valid()
      modifies manager
      ensures manager.Valid() && Now() == AfterOp(old(Now()), op)
      ensures result == if op.Compaction? then CompactionOf(old(Now()), op.cfg) else NotNeeded
    {
      result := NotNeeded;
      match op {
        case Input(text) =>
          manager.Add(UserMessage(text));
        case Chat(chat) =>
          var _ := ChatStep(chat);
        case Step(w) =>
          var _ := ToolStep(w);
        case Compaction(cfg) =>
          result := ApplyCompaction(cfg);
        case Injection(msgs, position) =>
          manager.Inject(msgs, position);
        case Reserve(tokens) =>
          manager.SetReserved(tokens);
      }
    }

    method ApplyCompaction(cfg: Config) returns (result: CompactResult)
      requires manager.Valid()
      modifies manager
      ensures manager.Valid() && Now() == AfterOp(old(Now()), Compaction(cfg)) && result == CompactionOf(old(Now()), cfg)
    {
      EntriesOf(manager.entries);
      result := manager.Compact(cfg);
    }

    /** Whatever happens, in whatever order: the history is what the script makes of it. */
    method Drive(script: seq<Op>)
      requires manager.Valid()
      modifies manager
      ensures manager.Valid() && Now() == AfterOps(old(Now()), script)
    {
      for i := 0 to |script|
        invariant manager.Valid() && Now() == AfterOps(old(Now()), script[..i])
      {
        assert script[..i + 1][..i] == script[..i];
        var _ := Apply(script[i]);
      }
      assert script[..|script|] == script;
    }

    /** The promise about repeated calls carries over from one history to another. */
    ghost predicate KeepsPromise(g: seq<Message>, h: seq<Message>) {
      forall tool :: tool in skills && !IsVirtual(tool) && CalledOnce(g, tool) ==> CalledOnce(h, tool)
    }

    lemma {:induction false} OpPaired(s: Snapshot, op: Op)
      requires WellPaired(s.history) && OpOk(op)
      ensures WellPaired(AfterOp(s, op).history)
    {
      match op
      case Input(text) => AppendPaired(s.history, UserMessage(text));
      case Chat(chat) => ChatPaired(s.history, chat);
      case Step(w) => StepOnce(s.history, w);
      case Compaction(cfg) =>
        CompactionTheorems.CascadePaired(Entries(s.history), s.reserved, manager.tokenLimit, cfg);
      case Injection(msgs, position) =>
        PairedConcat(msgs, s.history);
        PairedConcat(s.history, msgs);
      case Reserve(_) =>
    }

    /** Main result: whatever happens to a well-paired history, in whatever order, every call keeps its results right behind
        it, and every result its call. */
    lemma {:induction false} ScriptPaired(s: Snapshot, script: seq<Op>)
      requires WellPaired(s.history) && forall i :: 0 <= i < |script| ==> OpOk(script[i])
      ensures WellPaired(AfterOps(s, script).history)
    {
      if script == [] {
      } else {
        var n := |script| - 1;
        ScriptPaired(s, script[..n]);
        OpPaired(AfterOps(s, script[..n]), script[n]);
      }
    }

    /** Main result: as long as there are only user inputs and tool steps, no skill is called twice with what the scans take
        for success between two user messages. */
    lemma {:induction false} ScriptOnce(s: Snapshot, script: seq<Op>)
      requires WellPaired(s.history) && forall i :: 0 <= i < |script| ==> OpOk(script[i]) && (script[i].Input? || script[i].Step?)
      ensures KeepsPromise(s.history, AfterOps(s, script).history)
    {
      if script == [] {
      } else {
        var n := |script| - 1;
        var t := AfterOps(s, script[..n]);
        ScriptOnce(s, script[..n]);
        ScriptPaired(s, script[..n]);
        match script[n]
        case Input(text) => InputOnce(t.history, text);
        case Step(w) => StepOnce(t.history, w);
      }
    }

    lemma {:induction false} OpSingle(s: Snapshot, op: Op)
      requires WellPaired(s.history) && OpOk(op) && CompactionTheorems.SingleCalls(s.history)
      requires op.Injection? ==> CompactionTheorems.SingleCalls(op.msgs)
      ensures CompactionTheorems.SingleCalls(AfterOp(s, op).history)
    {
      match op
      case Compaction(cfg) =>
        CompactionTheorems.CascadeSingle(Entries(s.history), s.reserved, manager.tokenLimit, cfg);
      case Input(_) =>
      case Chat(_) =>
      case Step(w) =>
        StepSingle(s.history, w);
      case Injection(msgs, _) =>
        assert CompactionTheorems.SingleCalls(msgs + s.history) && CompactionTheorems.SingleCalls(s.history + msgs);
      case Reserve(_) =>
    }

    lemma {:induction false} StepSingle(h: seq<Message>, w: World)
      requires WorldOk(w) && CompactionTheorems.SingleCalls(h)
      ensures CompactionTheorems.SingleCalls(h + StepMessages(h, w))
    {
      assert CompactionTheorems.SingleCalls(StepMessages(h, w));
    }

    /** Main result: the engine makes one call a turn, so that a compaction that shortens a history leaves at most
        `keepLast + 2` messages, whatever happened before. */
    lemma {:induction false} ScriptSingle(s: Snapshot, script: seq<Op>, cfg: Config)
      requires WellPaired(s.history) && CompactionTheorems.SingleCalls(s.history)
      requires forall i :: 0 <= i < |script| ==>
                 OpOk(script[i]) && (script[i].Injection? ==> CompactionTheorems.SingleCalls(script[i].msgs))
      ensures CompactionTheorems.SingleCalls(AfterOps(s, script).history)
      ensures var t := AfterOps(s, script);
              var n := |AfterOp(t, Compaction(cfg)).history|;
              n == |t.history| || n <= cfg.keepLast + 2
    {
      if script == [] {
      } else {
        var n := |script| - 1;
        ScriptSingle(s, script[..n], cfg);
        ScriptPaired(s, script[..n]);
        OpSingle(AfterOps(s, script[..n]), script[n]);
      }
      var t := AfterOps(s, script);
      ScriptPaired(s, script);
      CompactionTheorems.CascadeSingle(Entries(t.history), t.reserved, manager.tokenLimit, cfg);
    }

    // ---------- What the repetition guard takes for success ----------

    /** Main result on the guard: in a step behind a call that got through to it, the same skill is called again if and only if
        that call was not denied, not blocked, did not crash, and did not succeed with a text that does not start with `Error:`;
        or it failed verification, which starts a new segment. */
    lemma {:induction false} GuardExact(h: seq<Message>, w: World, next: World)
      requires w.tool in skills && !IsVirtual(w.tool) && next.tool == w.tool
      requires !Scanned(h, w.tool) && !w.outcome.Tripped?
      requires forall i :: 0 <= i < |h| ==> h[i].toolCallId != w.callId
      ensures var g := h + StepMessages(h, w);
              StepMessages(g, next) == (if Counts(w.outcome) && !FailsVerification(w) then ChatMessages(next.chat) else ToolMessages(next))
    {
      var g := h + StepMessages(h, w);
      var text := ResultText(w.tool, w.outcome);
      CountsExact(w.callId, w.tool, w.outcome);
      if FailsVerification(w) {
        var verify := UserMessage(VerifyText(w.verification.value));
        assert g == h + PairMessages(w, text) + [verify];
        NewSegment(h + PairMessages(w, text), verify, w.tool);
      } else {
        assert PairMessages(w, text) + [] == PairMessages(w, text);
        PairScanned(h, w, text);
      }
    }

    /** A skill that crashed is not called again; a skill that worked and answered `Error: ...` is. */
    lemma {:induction false} GuardMistaken(h: seq<Message>, w: World, next: World)
      requires w.tool in skills && !IsVirtual(w.tool) && next.tool == w.tool && w.verification.None?
      requires !Scanned(h, w.tool) && forall i :: 0 <= i < |h| ==> h[i].toolCallId != w.callId
      ensures w.outcome == Crashed("timeout") ==> StepMessages(h + StepMessages(h, w), next) == ChatMessages(next.chat)
      ensures w.outcome == Success("Error: none found") ==> StepMessages(h + StepMessages(h, w), next) == ToolMessages(next)
    {
      if w.outcome == Crashed("timeout") || w.outcome == Success("Error: none found") {
        GuardExact(h, w, next);
        assert "Error: none found"[..6] == ERROR_PREFIX;
      }
    }

    /** A step keeps the promise about every skill. */
    lemma {:induction false} StepOnce(h: seq<Message>, w: World)
      requires WellPaired(h) && WorldOk(w)
      ensures WellPaired(h + StepMessages(h, w))
      ensures KeepsPromise(h, h + StepMessages(h, w))
    {
      ChatPaired(h, w.chat);
      PairPaired(h, w, w.subResult);
      ToolPaired(h, w);
      forall tool | tool in skills && !IsVirtual(tool) && CalledOnce(h, tool)
        ensures CalledOnce(h + StepMessages(h, w), tool)
      {
        if w.tool == NONE || (!IsVirtual(w.tool) && w.tool in skills && Scanned(h, w.tool)) {
          ChatOnce(h, w.chat, tool);
        } else if IsVirtual(w.tool) {
          PairOnce(h, w, w.subResult, tool);
        } else {
          ToolOnce(h, w, tool);
        }
      }
    }
  }

  lemma {:induction false} InputOnce(h: seq<Message>, text: string)
    requires WellPaired(h)
    ensures WellPaired(h + [UserMessage(text)])
    ensures forall tool :: CalledOnce(h, tool) ==> CalledOnce(h + [UserMessage(text)], tool)
  {
    AppendPaired(h, UserMessage(text));
    forall tool | CalledOnce(h, tool)
      ensures CalledOnce(h + [UserMessage(text)], tool)
    {
      PlainOnce(h, UserMessage(text), tool);
    }
  }

  lemma {:induction false} ChatPaired(h: seq<Message>, chat: ChatOutcome)
    requires WellPaired(h) && (chat.Answer? ==> Plain(chat.message))
    ensures WellPaired(h + ChatMessages(chat))
  {
    match chat
    case Answer(m) => AppendPaired(h, m);
    case OutputBlocked => AppendPaired(h, AssistantMessage(SAFE_ANSWER));
    case _ => assert h + [] == h;
  }

  lemma {:induction false} PairPaired(h: seq<Message>, w: World, text: string)
    requires WellPaired(h) && w.callId != ""
    ensures WellPaired(h + PairMessages(w, text))
  {
    PairedPair(w.callId, w.tool, w.arguments, text);
    PairedConcat(h, PairMessages(w, text));
  }

  lemma {:induction false} ToolPaired(h: seq<Message>, w: World)
    requires WellPaired(h) && w.callId != ""
    ensures WellPaired(h + ToolMessages(w))
  {
    if w.outcome.Tripped? {
      assert h + [] == h;
    } else {
      var pair := PairMessages(w, ResultText(w.tool, w.outcome));
      PairPaired(h, w, ResultText(w.tool, w.outcome));
      if w.outcome.Success? && w.verification.Some? {
        var verify := UserMessage(VerifyText(w.verification.value));
        AppendPaired(h + pair, verify);
        assert h + (pair + [verify]) == h + pair + [verify];
      } else {
        assert pair + [] == pair;
      }
    }
  }

  /** A plain message adds no successful call. */
  lemma {:induction false} PlainOnce(h: seq<Message>, m: Message, tool: string)
    requires Plain(m) && CalledOnce(h, tool)
    ensures CalledOnce(h + [m], tool)
  {
    var g := h + [m];
    forall c: nat, k: nat, d: nat, l: nat | Succeeded(g, c, k, tool) && Succeeded(g, d, l, tool) && (c < d || (c == d && k < l))
      ensures exists u :: c < u < d && g[u].role.User?
    {
      assert Succeeded(h, c, k, tool) && Succeeded(h, d, l, tool);
      var u :| c < u < d && h[u].role.User?;
      assert g[u] == h[u];
    }
  }

  lemma {:induction false} ChatOnce(h: seq<Message>, chat: ChatOutcome, tool: string)
    requires CalledOnce(h, tool) && (chat.Answer? ==> Plain(chat.message))
    ensures CalledOnce(h + ChatMessages(chat), tool)
  {
    match chat
    case Answer(m) => PlainOnce(h, m, tool);
    case OutputBlocked => PlainOnce(h, AssistantMessage(SAFE_ANSWER), tool);
    case _ => assert h + [] == h;
  }

  /** A new call of the tool is made only when the scans found none since the last user message. */
  lemma {:induction false} PairOnce(h: seq<Message>, w: World, text: string, tool: string)
    requires WellPaired(h) && CalledOnce(h, tool) && (w.tool == tool ==> !Scanned(h, tool))
    ensures CalledOnce(h + PairMessages(w, text), tool)
  {
    var g := h + PairMessages(w, text);
    forall c: nat, k: nat | Succeeded(g, c, k, tool)
      ensures Succeeded(h, c, k, tool) || (c == |h| && k == 0 && w.tool == tool)
    {
      if c < |h| {
        PairedMeaning(h, c);
        assert g[c] == h[c];
        assert IsAnswer(h[c + 1 + k], h[c].toolCalls[k]);
        assert g[c + 1 + k] == h[c + 1 + k];
      }
    }
    forall c: nat, k: nat, d: nat, l: nat | Succeeded(g, c, k, tool) && Succeeded(g, d, l, tool) && (c < d || (c == d && k < l))
      ensures exists u :: c < u < d && g[u].role.User?
    {
      if d < |h| {
        var u :| c < u < d && h[u].role.User?;
        assert g[u] == h[u];
      } else {
        assert Succeeded(h, c, k, tool);
        if SegmentStart(h) <= c {
          ScanComplete(h, c, k, tool);
        }
        assert g[SegmentStart(h) - 1] == h[SegmentStart(h) - 1];
      }
    }
  }

  lemma {:induction false} ToolOnce(h: seq<Message>, w: World, tool: string)
    requires WellPaired(h) && w.callId != "" && CalledOnce(h, tool) && (w.tool == tool ==> !Scanned(h, tool))
    ensures CalledOnce(h + ToolMessages(w), tool)
  {
    if w.outcome.Tripped? {
      assert h + [] == h;
    } else {
      var pair := PairMessages(w, ResultText(w.tool, w.outcome));
      PairOnce(h, w, ResultText(w.tool, w.outcome), tool);
      if w.outcome.Success? && w.verification.Some? {
        var verify := UserMessage(VerifyText(w.verification.value));
        PlainOnce(h + pair, verify, tool);
        assert h + (pair + [verify]) == h + pair + [verify];
      } else {
        assert pair + [] == pair;
      }
    }
  }

  // ---------- Success by prefix ----------

  /** The outcomes whose result texts the scans take for success. */
  predicate Counts(o: ToolOutcome) {
    o.Denied? || o.Blocked? || o.Crashed? || (o.Success? && !StartsWithText(o.text, ERROR_PREFIX))
  }

  predicate FailsVerification(w: World) {
    w.outcome.Success? && w.verification.Some?
  }

  lemma {:induction false} CountsExact(callId: string, tool: string, o: ToolOutcome)
    requires !o.Tripped?
    ensures IsSuccess(ToolResultMessage(callId, ResultText(tool, o))) <==> Counts(o)
  {
    var text := ResultText(tool, o);
    match o
    case NotFound(_) => assert text[..6] == ERROR_PREFIX;
    case Denied => assert text[0] == 'P';
    case Blocked(_) => assert text[0] == 'B';
    case Crashed(_) => assert text[5] == ' ';
    case ErrorResult(_) => assert text[..6] == ERROR_PREFIX;
    case Success(_) =>
  }

  /** The scans agree with the tools on what success is if and only if the outcome is none of these: access refused, a crash,
      or a success whose text starts with the prefix. */
  lemma {:induction false} SuccessAgrees(callId: string, tool: string, o: ToolOutcome)
    requires !o.Tripped?
    ensures (IsSuccess(ToolResultMessage(callId, ResultText(tool, o))) <==> o.Success?) <==>
              !(o.Denied? || o.Blocked? || o.Crashed? || (o.Success? && StartsWithText(o.text, ERROR_PREFIX)))
  {
    CountsExact(callId, tool, o);
  }

  lemma {:induction false} NewSegment(h: seq<Message>, m: Message, tool: string)
    requires m.role.User?
    ensures !Scanned(h + [m], tool)
  {
    assert SegmentStart(h + [m]) == |h| + 1;
  }

  /** After a pair with a new id the scans find a success if and only if the pair is one. */
  lemma {:induction false} PairScanned(h: seq<Message>, w: World, text: string)
    requires !Scanned(h, w.tool) && forall i :: 0 <= i < |h| ==> h[i].toolCallId != w.callId
    ensures Scanned(h + PairMessages(w, text), w.tool) <==> IsSuccess(ToolResultMessage(w.callId, text))
  {
    var g, n := h + PairMessages(w, text), |h|;
    PairSegment(h, w, text);
    assert g[n] == ToolCallMessage(w.callId, w.tool, w.arguments) && g[n + 1] == ToolResultMessage(w.callId, text);
    if IsSuccess(g[n + 1]) {
      assert MakesCall(g[n], 0, w.tool, g[n + 1].toolCallId);
    }
    if Scanned(g, w.tool) {
      var c, k: nat, t :|
        SegmentStart(g) <= c < |g| && SegmentStart(g) <= t < |g| && IsSuccess(g[t]) && MakesCall(g[c], k, w.tool, g[t].toolCallId);
      if t < n {
        ScannedBefore(h, w, text, c, k, t);
      }
    }
  }

  /** An older result of success belongs to an older call. */
  lemma {:induction false} ScannedBefore(h: seq<Message>, w: World, text: string, c: nat, k: nat, t: nat)
    requires forall i :: 0 <= i < |h| ==> h[i].toolCallId != w.callId
    requires SegmentStart(h) <= c < |h| + 2 && SegmentStart(h) <= t < |h| && IsSuccess(h[t])
    requires MakesCall((h + PairMessages(w, text))[c], k, w.tool, h[t].toolCallId)
    ensures Scanned(h, w.tool)
  {
    var g := h + PairMessages(w, text);
    assert g[|h|] == ToolCallMessage(w.callId, w.tool, w.arguments) && g[|h| + 1] == ToolResultMessage(w.callId, text);
    assert c < |h| && g[c] == h[c];
  }

  lemma {:induction false} PairSegment(h: seq<Message>, w: World, text: string)
    ensures SegmentStart(h + PairMessages(w, text)) == SegmentStart(h)
  {
    var g := h + PairMessages(w, text);
    assert g[..|g| - 1] == h + [ToolCallMessage(w.callId, w.tool, w.arguments)];
    assert (h + [ToolCallMessage(w.callId, w.tool, w.arguments)])[..|h|] == h;
  }

  /** What the steps depend on: the messages and the tokens reserved for the prompt. */
  datatype Snapshot = Snapshot(history: seq<Message>, reserved: int)

  datatype Op = Input(text: string) | Chat(chat: ChatOutcome) | Step(world: World) | Compaction(cfg: Config)
              | Injection(msgs: seq<Message>, position: string) | Reserve(tokens: int)

  /** Calls get an id, the chat model makes no calls, and injected messages are well-paired. */
  predicate OpOk(op: Op) {
    match op
    case Chat(Answer(m)) => Plain(m)
    case Step(w) => WorldOk(w)
    case Injection(msgs, _) => WellPaired(msgs)
    case _ => true
  }
}
