/** What each stage of the cascade does to each message, and when the cascade stops. */
module CompactionLaws {
  import opened Bytes
  import opened Messages
  import opened Compaction
  import opened CompactionTheorems

  // ---------- One message at a time ----------

  /** The same message but for its text. */
  predicate SameButText(a: Message, b: Message) {
    a.role == b.role && a.toolCalls == b.toolCalls && a.toolCallId == b.toolCallId
  }

  /** A tool message that is longer than allowed, and carries no mark of an earlier cut. */
  predicate WillBeCut(m: Message, maxChars: int) {
    m.role.Tool? && maxChars > 0 && |ContentString(m)| > maxChars && !ContainsText(ContentString(m), "\n\n[... truncated")
  }

  /** Trimming keeps the beginning of each long tool message and says how long it was; it leaves all others alone. */
  lemma {:induction false} TrimLaw(entries: seq<Entry>, maxChars: int, i: nat)
    requires i < |entries|
    ensures |Trimmed(entries, maxChars)| == |entries|
    ensures var a, b := entries[i], Trimmed(entries, maxChars)[i];
            var text := ContentString(a.message);
            if !WillBeCut(a.message, maxChars) then b == a
            else
              && SameButText(a.message, b.message) && b.tokens == EstimateTokens(b.message)
              && b.message.content ==
                   Some(text[..maxChars] + ("\n\n[... truncated" + ", original: " + Decimal(|text|) + " bytes ...]"))
  {}

  /** Masking replaces the text of each tool message before the last `keepLast` messages, and leaves all others alone. */
  lemma {:induction false} MaskLaw(entries: seq<Entry>, keepLast: nat, i: nat)
    requires i < |entries|
    ensures |Masked(entries, keepLast)| == |entries|
    ensures var a, b := entries[i], Masked(entries, keepLast)[i];
            if i >= |entries| - keepLast || !a.message.role.Tool? then b == a
            else SameButText(a.message, b.message) && ContentString(b.message) == "[observation masked]"
  {}

  // ---------- The whole cascade ----------

  predicate IsLow(entries: seq<Entry>, reserved: int, tokenLimit: int, target: real) {
    if tokenLimit == 0 then 0.0 < target else (reserved + TotalTokens(entries)) as real / tokenLimit as real < target
  }

  /** The cascade stops at the first stage that brings the usage below the target, and not before. */
  lemma {:induction false} CascadeFirst(entries: seq<Entry>, reserved: int, tokenLimit: int, cfg: Config)
    requires cfg.keepLast >= 0
    ensures var trimmed := Trimmed(entries, cfg.budgetMaxChars);
            var masked := Masked(trimmed, cfg.keepLast);
            var snipped := Snipped(masked, cfg.keepLast);
            Cascade(entries, reserved, tokenLimit, cfg) ==
              if IsLow(trimmed, reserved, tokenLimit, cfg.targetRatio) then Done(trimmed)
              else if IsLow(masked, reserved, tokenLimit, cfg.targetRatio) then Done(masked)
              else if IsLow(snipped, reserved, tokenLimit, cfg.targetRatio) then Done(snipped)
              else Summarize(snipped, cfg.keepLast, cfg.summarizer)
  {}

  /** What snipping leaves: a user message with the number of messages cut away, and the messages from the boundary on. */
  lemma {:induction false} SnipLaw(entries: seq<Entry>, keepLast: nat)
    ensures var r := Snipped(entries, keepLast);
            var cut := KeepBoundary(Msgs(entries), keepLast);
            if cut == 0 then r == entries
            else
              && |r| == |entries| - cut + 1 && r[1..] == entries[cut..]
              && r[0].message.role.User? && r[0].message.toolCalls == [] && r[0].tokens == EstimateTokens(r[0].message)
              && r[0].message.content == Some("[" + Decimal(cut) + " earlier messages snipped]")
  {}

  /** The summarizer gets the messages before the boundary, in order, and its text stands in front of the others. Without a
      summarizer, and with nothing to cut, nothing happens; its error is the cascade's. */
  lemma {:induction false} SummarizeLaw(entries: seq<Entry>, keepLast: nat, summarize: seq<Message> -> Summary, seen: seq<Message>)
    requires |seen| == KeepBoundary(Msgs(entries), keepLast) && forall i :: 0 <= i < |seen| ==> seen[i] == entries[i].message
    ensures Summarize(entries, keepLast, None) == Done(entries)
    ensures var r := Summarize(entries, keepLast, Some(summarize));
            if seen == [] then r == Done(entries)
            else match summarize(seen)
                 case Failed(error) => r == Error("compact summarizer: " + error)
                 case Summarized(text) =>
                   && r.Done? && |r.entries| == |entries| - |seen| + 1 && r.entries[1..] == entries[|seen|..]
                   && r.entries[0].message.role.User? && r.entries[0].message.toolCalls == []
                   && r.entries[0].message.content == Some("[Summary of " + Decimal(|seen|) + " earlier messages]\n" + text)
  {
    assert Msgs(entries[..|seen|]) == seen;
  }

  /** Both histories end with the same `n` messages, or with all of the second if it is shorter. */
  predicate SameEnd(r: seq<Entry>, entries: seq<Entry>, keepLast: nat) {
    var n := if keepLast < |entries| then keepLast else |entries|;
    |r| >= n && r[|r| - n..] == entries[|entries| - n..]
  }

  /** Main result: whatever the cascade does, the last `keepLast` messages come through as trimmed. */
  lemma {:induction false} KeptTail(entries: seq<Entry>, reserved: int, tokenLimit: int, cfg: Config)
    requires cfg.keepLast >= 0 && Cascade(entries, reserved, tokenLimit, cfg).Done?
    ensures SameEnd(Cascade(entries, reserved, tokenLimit, cfg).entries, Trimmed(entries, cfg.budgetMaxChars), cfg.keepLast)
  {
    var r := Cascade(entries, reserved, tokenLimit, cfg).entries;
    CascadeStages(entries, reserved, tokenLimit, cfg);
    MaskedTail(Trimmed(entries, cfg.budgetMaxChars), cfg.keepLast);
    if text :| IsCut(entries, cfg, r, text) {
      CutTail(entries, cfg, r, text);
    }
  }

  lemma {:induction false} MaskedTail(entries: seq<Entry>, keepLast: nat)
    ensures SameEnd(Masked(entries, keepLast), entries, keepLast) && SameEnd(entries, entries, keepLast)
  {}

  lemma {:induction false} CutTail(entries: seq<Entry>, cfg: Config, r: seq<Entry>, text: string)
    requires cfg.keepLast >= 0 && IsCut(entries, cfg, r, text)
    ensures SameEnd(r, Trimmed(entries, cfg.budgetMaxChars), cfg.keepLast)
  {
    var masked := MaskedStage(entries, cfg);
    BoundaryAbove(Msgs(masked), cfg.keepLast);
    MaskedTail(Trimmed(entries, cfg.budgetMaxChars), cfg.keepLast);
    MarkerTail(masked, CutAt(entries, cfg), cfg.keepLast, text);
  }

  lemma {:induction false} MarkerTail(masked: seq<Entry>, cut: nat, keepLast: nat, text: string)
    requires cut <= |masked| && (keepLast < |masked| ==> cut <= |masked| - keepLast) && (keepLast >= |masked| ==> cut == 0)
    ensures SameEnd([Marker(text)] + masked[cut..], masked, keepLast)
  {}
}
