/** Tool calls and their results: which call a result belongs to, and histories in which every call has its results
    right behind it. */
module Pairing {
  import opened Messages

  predicate HasCall(m: Message, id: string) {
    exists k | 0 <= k < |m.toolCalls| :: m.toolCalls[k].id == id
  }

  /** A tool result that names its call. */
  predicate IsResult(m: Message) {
    m.role.Tool? && m.toolCallId != ""
  }

  /** Position of the last message before `before` that makes the call, or -1. */
  function FindCall(h: seq<Message>, id: string, before: nat): (a: int)
    requires before <= |h|
    ensures -1 <= a < before
    ensures a >= 0 ==> HasCall(h[a], id)
    ensures forall j :: a < j < before ==> !HasCall(h[j], id)
  {
    if before == 0 then -1
    else if HasCall(h[before - 1], id) then before - 1
    else FindCall(h, id, before - 1)
  }

  /** Position of the call that the result at `i` belongs to, or -1. */
  function CallOf(h: seq<Message>, i: nat): int
    requires i < |h|
  {
    FindCall(h, h[i].toolCallId, i)
  }

  // ---------- Well-paired histories ----------

  /** A message without calls that is no tool result. */
  predicate Plain(m: Message) {
    !m.role.Tool? && m.toolCalls == []
  }

  predicate IsCallTurn(m: Message) {
    m.role.Assistant? && m.toolCalls != [] && forall k :: 0 <= k < |m.toolCalls| ==> m.toolCalls[k].id != ""
  }

  predicate IsAnswer(m: Message, call: ToolCall) {
    m.role.Tool? && m.toolCallId == call.id && m.toolCalls == []
  }

  predicate AnswerAt(h: seq<Message>, a: int, k: nat) {
    0 <= a && a + 1 + k < |h| && k < |h[a].toolCalls| && IsAnswer(h[a + 1 + k], h[a].toolCalls[k])
  }

  /** The results of a turn with calls follow it at once, in the order of the calls. */
  predicate Block(h: seq<Message>, a: int) {
    && 0 <= a < |h|
    && IsCallTurn(h[a])
    && a + |h[a].toolCalls| < |h|
    && forall k :: 0 <= k < |h[a].toolCalls| ==> AnswerAt(h, a, k)
  }

  /** The history consists of plain messages and of blocks of calls and results. */
  predicate WellPaired(h: seq<Message>) {
    || h == []
    || (Plain(h[0]) && WellPaired(h[1..]))
    || (Block(h, 0) && WellPaired(h[1 + |h[0].toolCalls|..]))
  }

  /** Number of messages in the first part of a well-paired history. */
  function FirstPart(h: seq<Message>): (n: nat)
    requires h != [] && WellPaired(h)
    ensures 0 < n <= |h|
  {
    if Plain(h[0]) then 1 else 1 + |h[0].toolCalls|
  }

  lemma {:induction false} ShiftBlock(h: seq<Message>, n: nat, a: int)
    requires n <= |h| && a >= 0
    ensures var b := n + a; Block(h[n..], a) <==> Block(h, b)
  {
    var g, b := h[n..], n + a;
    if b < |h| {
      assert g[a] == h[b];
      forall k: nat
        ensures AnswerAt(g, a, k) == AnswerAt(h, b, k)
      {
        assert b + 1 + k < |h| ==> g[a + 1 + k] == h[b + 1 + k];
      }
    }
  }

  /** Whether a block stands at the front depends on the messages in it alone. */
  lemma {:induction false} FrontBlock(g: seq<Message>, h: seq<Message>, n: nat)
    requires Block(g, 0) && 1 + |g[0].toolCalls| <= n <= |g| && n <= |h| && g[..n] == h[..n]
    ensures Block(h, 0)
  {
    assert forall i :: 0 <= i < n ==> g[..n][i] == h[..n][i];
    assert forall k: nat :: k < |g[0].toolCalls| ==> AnswerAt(g, 0, k) ==> AnswerAt(h, 0, k);
  }

  /** In a well-paired history every result lies in a block and every turn with calls starts one. */
  lemma {:induction false} PairedBlocks(h: seq<Message>, i: nat)
    requires WellPaired(h) && i < |h|
    ensures h[i].role.Tool? ==> exists a :: Block(h, a) && a < i <= a + |h[a].toolCalls|
    ensures h[i].toolCalls != [] ==> Block(h, i)
  {
    var n := FirstPart(h);
    if i >= n {
      PairedBlocks(h[n..], i - n);
      if h[i].role.Tool? {
        var a :| Block(h[n..], a) && a < i - n <= a + |h[n..][a].toolCalls|;
        ShiftBlock(h, n, a);
        assert Block(h, n + a);
      }
      ShiftBlock(h, n, i - n);
    } else if i > 0 {
      assert AnswerAt(h, 0, i - 1);
      assert Block(h, 0);
    }
  }

  /** What being well-paired means for the reader of the history: each result has its call before it, each call has
      its result after it, and only assistant turns make calls. */
  lemma {:induction false} PairedMeaning(h: seq<Message>, i: nat)
    requires WellPaired(h) && i < |h|
    ensures h[i].role.Tool? ==> CallOf(h, i) >= 0 && Block(h, CallOf(h, i)) && i <= CallOf(h, i) + |h[CallOf(h, i)].toolCalls|
    ensures forall k :: 0 <= k < |h[i].toolCalls| ==>
              i + 1 + k < |h| && IsAnswer(h[i + 1 + k], h[i].toolCalls[k]) && h[i].role.Assistant?
  {
    PairedBlocks(h, i);
    forall k | 0 <= k < |h[i].toolCalls|
      ensures i + 1 + k < |h| && IsAnswer(h[i + 1 + k], h[i].toolCalls[k])
    {
      assert AnswerAt(h, i, k);
    }
    if h[i].role.Tool? {
      var a :| Block(h, a) && a < i <= a + |h[a].toolCalls|;
      InBlock(h, a, i);
    }
  }

  /** A result in a block belongs to the turn that starts the block. */
  lemma {:induction false} InBlock(h: seq<Message>, a: int, i: nat)
    requires Block(h, a) && a < i <= a + |h[a].toolCalls|
    ensures IsResult(h[i]) && CallOf(h, i) == a
  {
    assert AnswerAt(h, a, i - a - 1);
    assert HasCall(h[a], h[i].toolCallId);
    forall j | a < j < i
      ensures !HasCall(h[j], h[i].toolCallId)
    {
      assert AnswerAt(h, a, j - a - 1);
    }
  }

  lemma {:induction false} PairedConcat(a: seq<Message>, b: seq<Message>)
    requires WellPaired(a) && WellPaired(b)
    ensures WellPaired(a + b)
  {
    if a == [] {
      assert a + b == b;
    } else {
      var n := FirstPart(a);
      PairedConcat(a[n..], b);
      assert (a + b)[n..] == a[n..] + b;
      assert (a + b)[0] == a[0];
      if !Plain(a[0]) {
        assert (a + b)[..|a|] == a[..|a|];
        FrontBlock(a, a + b, |a|);
      }
    }
  }

  /** A well-paired history can be cut before any message that is no tool result. */
  lemma {:induction false} PairedCut(h: seq<Message>, c: nat)
    requires WellPaired(h) && c <= |h| && (c < |h| ==> !h[c].role.Tool?)
    ensures WellPaired(h[..c]) && WellPaired(h[c..])
  {
    if c == 0 {
      assert h[c..] == h;
    } else {
      var n := FirstPart(h);
      assert !Plain(h[0]) && c < n ==> AnswerAt(h, 0, c - 1);
      PairedCut(h[n..], c - n);
      assert h[n..][..c - n] == h[..c][n..] && h[n..][c - n..] == h[c..];
      assert h[..c][0] == h[0];
      if !Plain(h[0]) {
        assert h[..c][..c] == h[..c];
        FrontBlock(h, h[..c], c);
      }
    }
  }

  lemma {:induction false} PairedPair(callId: string, name: string, arguments: string, text: string)
    requires callId != ""
    ensures WellPaired([ToolCallMessage(callId, name, arguments), ToolResultMessage(callId, text)])
  {
    var h := [ToolCallMessage(callId, name, arguments), ToolResultMessage(callId, text)];
    assert h[2..] == [];
    assert Block(h, 0);
  }

  /** One more message keeps a history well-paired if and only if it is plain. */
  lemma {:induction false} AppendPaired(h: seq<Message>, m: Message)
    requires WellPaired(h)
    ensures WellPaired(h + [m]) <==> Plain(m)
  {
    if h == [] {
      assert h + [m] == [m] && [m][1..] == [];
    } else {
      var n := FirstPart(h);
      AppendPaired(h[n..], m);
      assert (h + [m])[n..] == h[n..] + [m] && (h + [m])[0] == h[0];
      if !Plain(h[0]) {
        assert (h + [m])[..|h|] == h[..|h|];
        FrontBlock(h, h + [m], |h|);
      }
    }
  }

  /** The same messages but for the texts. */
  predicate SameShape(g: seq<Message>, h: seq<Message>) {
    |g| == |h| &&
    forall i :: 0 <= i < |g| ==> g[i].role == h[i].role && g[i].toolCalls == h[i].toolCalls && g[i].toolCallId == h[i].toolCallId
  }

  lemma {:induction false} ShapePaired(g: seq<Message>, h: seq<Message>)
    requires SameShape(g, h) && WellPaired(g)
    ensures WellPaired(h)
  {
    if g == [] {
    } else {
      var n := FirstPart(g);
      ShapePaired(g[n..], h[n..]);
      if !Plain(g[0]) {
        assert forall k: nat :: AnswerAt(g, 0, k) ==> AnswerAt(h, 0, k);
        assert Block(h, 0);
      }
    }
  }
}
