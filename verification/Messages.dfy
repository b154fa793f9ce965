/** Chat messages and the estimate of their size in tokens. */
module Messages {
  import opened Bytes

  datatype Role = System | User | Assistant | Tool | Other(name: string)

  datatype ToolCall = ToolCall(id: string, name: string, arguments: string)

  datatype Message = Message(role: Role, content: Option<string>, toolCalls: seq<ToolCall>, toolCallId: string)

  function ContentString(m: Message): string {
    match m.content
    case None => ""
    case Some(text) => text
  }

  function UserMessage(text: string): Message {
    Message(User, Some(text), [], "")
  }

  function SystemMessage(text: string): Message {
    Message(System, Some(text), [], "")
  }

  function ToolCallMessage(callId: string, name: string, arguments: string): Message {
    Message(Assistant, None, [ToolCall(callId, name, arguments)], "")
  }

  function ToolResultMessage(callId: string, text: string): Message {
    Message(Tool, Some(text), [], callId)
  }

  // ---------- Text ----------

  function Decimal(n: nat): string {
    if n < 10 then [Digit(n)] else Decimal(n / 10) + [Digit(n % 10)]
  }

  function Digit(n: nat): char
    requires n < 10
  {
    "0123456789"[n]
  }

  predicate StartsWithText(s: string, pattern: string) {
    |pattern| <= |s| && s[..|pattern|] == pattern
  }

  predicate ContainsText(s: string, pattern: string) {
    StartsWithText(s, pattern) || (s != "" && ContainsText(s[1..], pattern))
  }

  lemma {:induction false} ContainsMiddle(a: string, pattern: string, b: string)
    ensures ContainsText(a + pattern + b, pattern)
  {
    var s := a + pattern + b;
    if a == "" {
      assert s[..|pattern|] == pattern;
    } else {
      assert s[1..] == a[1..] + pattern + b;
      ContainsMiddle(a[1..], pattern, b);
    }
  }

  // ---------- Token estimate ----------

  const MESSAGE_OVERHEAD := 4
  const TOOL_CALL_OVERHEAD := 4

  predicate InRanges(c: char, ranges: seq<(int, int)>) {
    exists i | 0 <= i < |ranges| :: ranges[i].0 <= c as int <= ranges[i].1
  }

  const HAN: seq<(int, int)> := [
    (0x2E80, 0x2E99), (0x2E9B, 0x2EF3), (0x2F00, 0x2FD5), (0x3005, 0x3005), (0x3007, 0x3007), (0x3021, 0x3029), (0x3038, 0x303B),
    (0x3400, 0x4DBF), (0x4E00, 0x9FFF), (0xF900, 0xFA6D), (0xFA70, 0xFAD9), (0x16FE2, 0x16FE3), (0x16FF0, 0x16FF1),
    (0x20000, 0x2A6DF), (0x2A700, 0x2B739), (0x2B740, 0x2B81D), (0x2B820, 0x2CEA1), (0x2CEB0, 0x2EBE0), (0x2F800, 0x2FA1D),
    (0x30000, 0x3134A), (0x31350, 0x323AF)]

  const HIRAGANA: seq<(int, int)> := [
    (0x3041, 0x3096), (0x309D, 0x309F), (0x1B001, 0x1B11F), (0x1B132, 0x1B132), (0x1B150, 0x1B152), (0x1F200, 0x1F200)]

  const KATAKANA: seq<(int, int)> := [
    (0x30A1, 0x30FA), (0x30FD, 0x30FF), (0x31F0, 0x31FF), (0x32D0, 0x32FE), (0x3300, 0x3357), (0xFF66, 0xFF6F), (0xFF71, 0xFF9D),
    (0x1AFF0, 0x1AFF3), (0x1AFF5, 0x1AFFB), (0x1AFFD, 0x1AFFE), (0x1B000, 0x1B000), (0x1B120, 0x1B122), (0x1B155, 0x1B155),
    (0x1B164, 0x1B167)]

  const HANGUL: seq<(int, int)> := [
    (0x1100, 0x11FF), (0x302E, 0x302F), (0x3131, 0x318E), (0x3200, 0x321E), (0x3260, 0x327E), (0xA960, 0xA97C), (0xAC00, 0xD7A3),
    (0xD7B0, 0xD7C6), (0xD7CB, 0xD7FB), (0xFFA0, 0xFFBE), (0xFFC2, 0xFFC7), (0xFFCA, 0xFFCF), (0xFFD2, 0xFFD7), (0xFFDA, 0xFFDC)]

  predicate IsCJK(c: char) {
    InRanges(c, HAN) || InRanges(c, HIRAGANA) || InRanges(c, KATAKANA) || InRanges(c, HANGUL)
  }

  /** 1.5 tokens for a CJK character and 0.35 for any other, in twentieths. */
  function Weight(c: char): nat {
    if IsCJK(c) then 30 else 7
  }

  function TotalWeight(s: string): nat {
    if s == "" then 0 else TotalWeight(s[..|s| - 1]) + Weight(s[|s| - 1])
  }

  function EstimateText(s: string): nat {
    if s == "" then 0
    else
      var tokens := TotalWeight(s) / 20;
      if tokens == 0 then 1 else tokens
  }

  function EstimateCalls(calls: seq<ToolCall>): nat {
    if calls == [] then 0
    else
      var call := calls[|calls| - 1];
      EstimateCalls(calls[..|calls| - 1]) + EstimateText(call.name) + EstimateText(call.arguments) + TOOL_CALL_OVERHEAD
  }

  function EstimateTokens(m: Message): nat {
    MESSAGE_OVERHEAD + EstimateText(ContentString(m)) + EstimateCalls(m.toolCalls) + EstimateText(m.toolCallId)
  }

  method EstimateTextTokens(text: string) returns (tokens: nat)
    ensures tokens == EstimateText(text)
  {
    if text == "" {
      return 0;
    }
    var total := 0;
    for i := 0 to |text|
      invariant total == TotalWeight(text[..i])
    {
      assert text[..i + 1][..i] == text[..i];
      if IsCJK(text[i]) {
        total := total + 30;
      } else {
        total := total + 7;
      }
    }
    assert text[..|text|] == text;
    tokens := total / 20;
    if tokens == 0 {
      return 1;
    }
  }

  method EstimateMessage(m: Message) returns (tokens: nat)
    ensures tokens == EstimateTokens(m)
  {
    var content := EstimateTextTokens(ContentString(m));
    tokens := MESSAGE_OVERHEAD + content;
    ghost var start := tokens;
    for i := 0 to |m.toolCalls|
      invariant tokens == start + EstimateCalls(m.toolCalls[..i])
    {
      assert m.toolCalls[..i + 1][..i] == m.toolCalls[..i];
      var name := EstimateTextTokens(m.toolCalls[i].name);
      var arguments := EstimateTextTokens(m.toolCalls[i].arguments);
      tokens := tokens + name + arguments + TOOL_CALL_OVERHEAD;
    }
    assert m.toolCalls[..|m.toolCalls|] == m.toolCalls;
    if m.toolCallId != "" {
      var id := EstimateTextTokens(m.toolCallId);
      tokens := tokens + id;
    }
  }

  lemma {:induction false} WeightConcat(a: string, b: string)
    ensures TotalWeight(a + b) == TotalWeight(a) + TotalWeight(b)
  {
    if b == "" {
      assert a + b == a;
    } else {
      var n := |b| - 1;
      assert (a + b)[..|a + b| - 1] == a + b[..n];
      WeightConcat(a, b[..n]);
    }
  }

  /** Estimating two texts apart or together differs by at most one token. */
  lemma {:induction false} EstimateConcat(a: string, b: string)
    ensures -1 <= EstimateText(a + b) - EstimateText(a) - EstimateText(b) <= 1
  {
    WeightConcat(a, b);
    if a == "" {
      assert a + b == b;
    } else if b == "" {
      assert a + b == a;
    }
  }

  /** A longer text never has a smaller estimate. */
  lemma {:induction false} EstimateMonotone(a: string, b: string)
    ensures EstimateText(a) <= EstimateText(a + b)
  {
    WeightConcat(a, b);
  }
}
