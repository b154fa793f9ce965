/** The cascade that shrinks a message history: trim long tool results, mask old ones, cut the front, summarize it. */
module Compaction {
  import opened Bytes
  import opened Messages
  import opened Pairing

  /** A message with its cached token estimate. */
  datatype Entry = Entry(message: Message, tokens: nat)

  function MakeEntry(m: Message): Entry {
    Entry(m, EstimateTokens(m))
  }

  function Msgs(entries: seq<Entry>): (h: seq<Message>)
    ensures |h| == |entries| && forall i :: 0 <= i < |h| ==> h[i] == entries[i].message
  {
    seq(|entries|, i requires 0 <= i < |entries| => entries[i].message)
  }

  datatype Summary = Summarized(text: string) | Failed(error: string)

  datatype Config = Config(budgetMaxChars: int, keepLast: int, targetRatio: real, summarizer: Option<seq<Message> -> Summary>)

  /** Panic: with a negative `keepLast` masking runs past the end of the history. */
  datatype Outcome = Done(entries: seq<Entry>) | Error(error: string) | Panic

  function TotalTokens(entries: seq<Entry>): nat {
    if entries == [] then 0 else TotalTokens(entries[..|entries| - 1]) + entries[|entries| - 1].tokens
  }

  function UsageRatio(tokens: int, tokenLimit: int): real {
    if tokenLimit == 0 then 0.0 else tokens as real / tokenLimit as real
  }

  // ---------- Stage 1: trim ----------

  const TRUNCATED := "\n\n[... truncated"

  function TrimMarker(length: nat): string {
    TRUNCATED + ", original: " + Decimal(length) + " bytes ...]"
  }

  predicate IsTooLong(m: Message, maxChars: nat) {
    m.role.Tool? && |ContentString(m)| > maxChars && !ContainsText(ContentString(m), TRUNCATED)
  }

  function Shortened(m: Message, maxChars: nat): Message
    requires maxChars < |ContentString(m)|
  {
    var content := ContentString(m);
    m.(content := Some(content[..maxChars] + TrimMarker(|content|)))
  }

  function TrimEntry(e: Entry, maxChars: nat): Entry {
    if IsTooLong(e.message, maxChars) then MakeEntry(Shortened(e.message, maxChars)) else e
  }

  function Trimmed(entries: seq<Entry>, maxChars: int): seq<Entry> {
    if maxChars <= 0 then entries else seq(|entries|, i requires 0 <= i < |entries| => TrimEntry(entries[i], maxChars))
  }

  method TrimOne(entry: Entry, maxChars: nat) returns (r: Entry)
    ensures r == TrimEntry(entry, maxChars)
  {
    if !entry.message.role.Tool? {
      return entry;
    }
    var content := ContentString(entry.message);
    if |content| <= maxChars || ContainsText(content, TRUNCATED) {
      return entry;
    }
    r := MakeEntry(Shortened(entry.message, maxChars));
  }

  method BudgetTrim(entries: seq<Entry>, maxChars: int) returns (r: seq<Entry>)
    ensures r == Trimmed(entries, maxChars)
  {
    if maxChars <= 0 {
      return entries;
    }
    var result := new Entry[|entries|](i requires 0 <= i < |entries| => entries[i]);
    ghost var trimmed := Trimmed(entries, maxChars);
    for i := 0 to result.Length
      invariant result[..] == trimmed[..i] + entries[i..]
    {
      assert result[..][i] == entries[i];
      var entry := TrimOne(result[i], maxChars);
      result[i] := entry;
      assert trimmed[..i + 1] == trimmed[..i] + [entry];
    }
    r := result[..];
  }

  // ---------- Stage 2: mask ----------

  const MASKED := "[observation masked]"

  function MaskEntry(e: Entry): Entry {
    if !e.message.role.Tool? || ContentString(e.message) == MASKED then e
    else MakeEntry(e.message.(content := Some(MASKED)))
  }

  function Masked(entries: seq<Entry>, keepLast: nat): seq<Entry> {
    seq(|entries|, i requires 0 <= i < |entries| => if i < |entries| - keepLast then MaskEntry(entries[i]) else entries[i])
  }

  method ObservationMask(entries: seq<Entry>, keepLast: int) returns (r: Option<seq<Entry>>)
    ensures r == if keepLast < 0 then None else Some(Masked(entries, keepLast))
  {
    if keepLast >= |entries| {
      assert Masked(entries, keepLast) == entries;
      return Some(entries);
    }
    if keepLast < 0 {
      return None;
    }
    var result := new Entry[|entries|](i requires 0 <= i < |entries| => entries[i]);
    var cut := |entries| - keepLast;
    for i := 0 to cut
      invariant forall j :: 0 <= j < i ==> result[j] == MaskEntry(entries[j])
      invariant forall j :: i <= j < result.Length ==> result[j] == entries[j]
    {
      if !result[i].message.role.Tool? || ContentString(result[i].message) == MASKED {
        continue;
      }
      var message := result[i].message.(content := Some(MASKED));
      result[i] := Entry(message, EstimateTokens(message));
    }
    assert result[..] == Masked(entries, keepLast);
    r := Some(result[..]);
  }

  // ---------- The boundary ----------

  /** The lowest call of the results from `i` on, if it lies below `cut`. */
  function LowestCall(h: seq<Message>, i: nat, cut: nat): (r: nat)
    requires i <= |h| && cut <= |h|
    ensures r <= cut
    decreases |h| - i
  {
    if i == |h| then cut
    else LowestCall(h, i + 1, if IsResult(h[i]) && 0 <= CallOf(h, i) < cut then CallOf(h, i) else cut)
  }

  /** Index from which on messages are kept. */
  function KeepBoundary(h: seq<Message>, keepLast: nat): (r: nat)
    ensures r <= |h|
  {
    if keepLast >= |h| then 0 else LowestCall(h, |h| - keepLast, |h| - keepLast)
  }

  method FindToolCallAssistant(entries: seq<Entry>, toolCallId: string, before: nat) returns (r: int)
    requires before <= |entries|
    ensures r == FindCall(Msgs(entries), toolCallId, before)
  {
    ghost var h := Msgs(entries);
    var i := before;
    while i > 0
      invariant 0 <= i <= before
      invariant FindCall(h, toolCallId, before) == FindCall(h, toolCallId, i)
    {
      i := i - 1;
      var calls := entries[i].message.toolCalls;
      for k := 0 to |calls|
        invariant forall j :: 0 <= j < k ==> calls[j].id != toolCallId
      {
        if calls[k].id == toolCallId {
          assert HasCall(h[i], toolCallId);
          return i;
        }
      }
    }
    r := -1;
  }

  method AdjustKeepBoundary(entries: seq<Entry>, keepLast: nat) returns (cut: nat)
    ensures cut == KeepBoundary(Msgs(entries), keepLast)
  {
    if keepLast >= |entries| {
      return 0;
    }
    ghost var h := Msgs(entries);
    var start := |entries| - keepLast;
    cut := start;
    for i := start to |entries|
      invariant cut <= |entries|
      invariant LowestCall(h, start, start) == LowestCall(h, i, cut)
    {
      if !entries[i].message.role.Tool? || entries[i].message.toolCallId == "" {
        continue;
      }
      var assistant := FindToolCallAssistant(entries, entries[i].message.toolCallId, i);
      if assistant >= 0 && assistant < cut {
        cut := assistant;
      }
    }
  }

  // ---------- Stages 3 and 4: snip and summarize ----------

  function Marker(text: string): Entry {
    MakeEntry(UserMessage(text))
  }

  function SnipText(removed: nat): string {
    "[" + Decimal(removed) + " earlier messages snipped]"
  }

  function SummaryText(removed: nat, summary: string): string {
    "[Summary of " + Decimal(removed) + " earlier messages]\n" + summary
  }

  function Snipped(entries: seq<Entry>, keepLast: nat): seq<Entry> {
    var cut := KeepBoundary(Msgs(entries), keepLast);
    if cut == 0 then entries else [Marker(SnipText(cut))] + entries[cut..]
  }

  method Snip(entries: seq<Entry>, keepLast: nat) returns (r: seq<Entry>)
    ensures r == Snipped(entries, keepLast)
  {
    if keepLast >= |entries| {
      return entries;
    }
    var cut := AdjustKeepBoundary(entries, keepLast);
    if cut == 0 {
      return entries;
    }
    r := [Marker(SnipText(cut))];
    r := r + entries[cut..];
  }

  function Summarize(entries: seq<Entry>, keepLast: nat, summarizer: Option<seq<Message> -> Summary>): Outcome {
    var cut := KeepBoundary(Msgs(entries), keepLast);
    if summarizer.None? || cut == 0 then Done(entries)
    else
      match summarizer.value(Msgs(entries[..cut]))
      case Failed(error) => Error("compact summarizer: " + error)
      case Summarized(text) => Done([Marker(SummaryText(cut, text))] + entries[cut..])
  }

  method Compact(entries: seq<Entry>, keepLast: nat, summarizer: Option<seq<Message> -> Summary>) returns (r: Outcome)
    ensures r == Summarize(entries, keepLast, summarizer)
  {
    if summarizer.None? {
      return Done(entries);
    }
    if keepLast >= |entries| {
      return Done(entries);
    }
    var cut := AdjustKeepBoundary(entries, keepLast);
    if cut == 0 {
      return Done(entries);
    }
    var earlier := new Message[cut](_ => UserMessage(""));
    for i := 0 to cut
      invariant forall j :: 0 <= j < i ==> earlier[j] == entries[j].message
    {
      earlier[i] := entries[i].message;
    }
    assert earlier[..] == Msgs(entries[..cut]);
    match summarizer.value(earlier[..]) {
      case Failed(error) =>
        return Error("compact summarizer: " + error);
      case Summarized(text) =>
        return Done([Marker(SummaryText(cut, text))] + entries[cut..]);
    }
  }

  // ---------- The cascade ----------

  predicate OnTarget(entries: seq<Entry>, reserved: int, tokenLimit: int, cfg: Config) {
    UsageRatio(reserved + TotalTokens(entries), tokenLimit) < cfg.targetRatio
  }

  function Cascade(entries: seq<Entry>, reserved: int, tokenLimit: int, cfg: Config): Outcome {
    var trimmed := Trimmed(entries, cfg.budgetMaxChars);
    if OnTarget(trimmed, reserved, tokenLimit, cfg) then Done(trimmed)
    else if cfg.keepLast < 0 then Panic
    else CutStages(Masked(trimmed, cfg.keepLast), reserved, tokenLimit, cfg)
  }

  /** The stages behind the mask. */
  function CutStages(masked: seq<Entry>, reserved: int, tokenLimit: int, cfg: Config): Outcome
    requires cfg.keepLast >= 0
  {
    if OnTarget(masked, reserved, tokenLimit, cfg) then Done(masked)
    else
      var snipped := Snipped(masked, cfg.keepLast);
      if OnTarget(snipped, reserved, tokenLimit, cfg) then Done(snipped)
      else Summarize(snipped, cfg.keepLast, cfg.summarizer)
  }

  method RunCompaction(entries0: seq<Entry>, reserved: int, tokenLimit: int, cfg: Config) returns (r: Outcome)
    ensures r == Cascade(entries0, reserved, tokenLimit, cfg)
  {
    var entries := BudgetTrim(entries0, cfg.budgetMaxChars);
    if OnTarget(entries, reserved, tokenLimit, cfg) {
      return Done(entries);
    }
    var masked := ObservationMask(entries, cfg.keepLast);
    if masked.None? {
      return Panic;
    }
    entries := masked.value;
    if OnTarget(entries, reserved, tokenLimit, cfg) {
      return Done(entries);
    }
    entries := Snip(entries, cfg.keepLast);
    if OnTarget(entries, reserved, tokenLimit, cfg) {
      return Done(entries);
    }
    r := Compact(entries, cfg.keepLast, cfg.summarizer);
  }
}
