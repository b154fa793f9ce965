/** The context manager: the message history with its cached token count and its threshold events. */
module ContextManager {
  import opened Bytes
  import opened Messages
  import opened Pairing
  import opened Compaction
  import CompactionTheorems

  datatype EventKind = Exceeded | Recovered

  datatype Event = Event(kind: EventKind, usageRatio: real, tokenCount: int, tokenLimit: int)

  predicate IsEstimated(e: Entry) {
    e.tokens == EstimateTokens(e.message)
  }

  /** Each entry carries the estimate of its own message. */
  predicate Estimated(entries: seq<Entry>) {
    forall i :: 0 <= i < |entries| ==> IsEstimated(entries[i])
  }

  /** What a compaction came to. A panic leaves the manager as it was. */
  datatype CompactResult = NotNeeded | Compacted | CompactFailed(error: string) | Panicked

  class Manager {
    var entries: seq<Entry>
    const tokenLimit: int
    var tokenCount: nat
    var reservedTokens: int
    const threshold: real
    var observers: nat
    var exceeded: bool
    /** The events so far; every observer gets those that fire after its registration. */
    ghost var fired: seq<Event>
    /** The flag has been brought up to date since the observers were registered. */
    ghost var settled: bool

    ghost predicate Valid()
      reads this
    {
      && Estimated(entries)
      && tokenCount == TotalTokens(entries)
      && (forall i :: 0 <= i < |fired| ==> EventOk(fired[i], i))
      && exceeded == (|fired| % 2 == 1)
      && (settled ==> exceeded == Over())
    }

    /** Events alternate, starting with Exceeded, and each one tells the truth about its own ratio. */
    predicate EventOk(e: Event, i: nat) {
      && e.kind == (if i % 2 == 0 then Exceeded else Recovered)
      && (e.kind == Exceeded <==> e.usageRatio >= threshold)
      && e.usageRatio == UsageRatio(e.tokenCount, tokenLimit)
    }

    function History(): seq<Message>
      reads this
    {
      Msgs(entries)
    }

    function Ratio(): real
      reads this
    {
      UsageRatio(reservedTokens + tokenCount, tokenLimit)
    }

    predicate Over()
      reads this
    {
      Ratio() >= threshold
    }

    /** What the threshold check leaves behind: an event exactly when the flag changes. */
    twostate predicate Checked()
      reads this
    {
      && settled == (tokenLimit != 0 && observers > 0)
      && observers == old(observers)
      && if !settled || old(exceeded) == Over() then
           exceeded == old(exceeded) && fired == old(fired)
         else
           && exceeded == Over()
           && fired == old(fired) + [Event(if Over() then Exceeded else Recovered, Ratio(), reservedTokens + tokenCount, tokenLimit)]
    }

    constructor (tokenLimit: int, threshold: real)
      ensures Valid() && entries == [] && reservedTokens == 0 && observers == 0 && !exceeded && fired == []
      ensures this.tokenLimit == tokenLimit && this.threshold == threshold
    {
      this.tokenLimit := tokenLimit;
      this.threshold := threshold;
      entries, tokenCount, reservedTokens, observers := [], 0, 0, 0;
      exceeded, fired, settled := false, [], false;
    }

    method CheckThreshold()
      requires forall i :: 0 <= i < |fired| ==> EventOk(fired[i], i)
      requires exceeded == (|fired| % 2 == 1)
      modifies `exceeded, `fired, `settled
      ensures Checked()
      ensures forall i :: 0 <= i < |fired| ==> EventOk(fired[i], i)
      ensures exceeded == (|fired| % 2 == 1)
      ensures settled ==> exceeded == Over()
    {
      settled := tokenLimit != 0 && observers > 0;
      if tokenLimit == 0 || observers == 0 {
        return;
      }
      var ratio := Ratio();
      var nowExceeded := ratio >= threshold;
      if nowExceeded && !exceeded {
        exceeded := true;
        fired := fired + [Event(Exceeded, ratio, reservedTokens + tokenCount, tokenLimit)];
      } else if !nowExceeded && exceeded {
        exceeded := false;
        fired := fired + [Event(Recovered, ratio, reservedTokens + tokenCount, tokenLimit)];
      }
    }

    method Add(m: Message)
      requires Valid()
      modifies this
      ensures Valid() && Checked()
      ensures entries == old(entries) + [MakeEntry(m)] && History() == old(History()) + [m]
      ensures reservedTokens == old(reservedTokens)
    {
      var tokens := EstimateMessage(m);
      AppendEntry(entries, m);
      entries := entries + [Entry(m, tokens)];
      tokenCount := tokenCount + tokens;
      CheckThreshold();
    }

    method ListMessages() returns (h: seq<Message>)
      ensures h == History()
    {
      var result := new Message[|entries|](_ => UserMessage(""));
      for i := 0 to |entries|
        invariant forall j :: 0 <= j < i ==> result[j] == entries[j].message
      {
        result[i] := entries[i].message;
      }
      h := result[..];
    }

    method SetReserved(tokens: int)
      requires Valid()
      modifies this
      ensures Valid() && Checked()
      ensures entries == old(entries) && reservedTokens == tokens
    {
      reservedTokens := tokens;
      CheckThreshold();
    }

    method OnThreshold()
      requires Valid()
      modifies `observers
      ensures Valid() && observers == old(observers) + 1
    {
      observers := observers + 1;
    }

    method ReplaceEntries(newEntries: seq<Entry>)
      requires Valid() && Estimated(newEntries)
      modifies this
      ensures Valid() && Checked()
      ensures entries == newEntries && reservedTokens == old(reservedTokens)
    {
      entries := newEntries;
      tokenCount := 0;
      for i := 0 to |entries|
        invariant entries == newEntries && unchanged(`reservedTokens, `observers, `exceeded, `fired)
        invariant tokenCount == TotalTokens(entries[..i])
      {
        assert entries[..i + 1][..i] == entries[..i];
        tokenCount := tokenCount + entries[i].tokens;
      }
      assert entries[..|entries|] == entries;
      CheckThreshold();
    }

    /** Below the threshold, and when the summarizer fails, nothing changes. */
    method Compact(cfg: Config) returns (result: CompactResult)
      requires Valid()
      modifies this
      ensures Valid()
      ensures result == CompactOutcome(old(entries), old(reservedTokens), tokenLimit, threshold, cfg)
      ensures if result.Compacted? then
                && entries == Cascade(old(entries), old(reservedTokens), tokenLimit, cfg).entries
                && reservedTokens == old(reservedTokens) && Checked()
              else unchanged(this)
    {
      CascadeEstimated(entries, reservedTokens, tokenLimit, cfg);
      if Ratio() < threshold {
        return NotNeeded;
      }
      var r := RunCompaction(entries, reservedTokens, tokenLimit, cfg);
      result := Report(r);
      if r.Done? {
        ReplaceEntries(r.entries);
      }
    }

    /** An unknown position means append. */
    method Inject(msgs: seq<Message>, position: string)
      requires Valid()
      modifies this
      ensures Valid() && reservedTokens == old(reservedTokens)
      ensures History() == Injected(old(History()), msgs, position)
      ensures if msgs == [] then unchanged(this) else Checked()
    {
      if |msgs| == 0 {
        return;
      }
      var added := EstimateAll(msgs);
      JoinEntries(added, entries);
      JoinEntries(entries, added);
      if position == "prepend" {
        ReplaceEntries(added + entries);
      } else if position == "replace" {
        ReplaceEntries(added);
      } else {
        ReplaceEntries(entries + added);
      }
    }

    /** A new manager with the same limits and no messages. */
    method Fork() returns (child: Manager)
      ensures fresh(child) && child.Valid() && child.entries == [] && child.fired == []
      ensures child.tokenLimit == tokenLimit && child.threshold == threshold
    {
      child := new Manager(tokenLimit, threshold);
    }
  }

  /** Below the threshold nothing is done. */
  function CompactOutcome(entries: seq<Entry>, reserved: int, tokenLimit: int, threshold: real, cfg: Config): CompactResult {
    if UsageRatio(reserved + TotalTokens(entries), tokenLimit) < threshold then NotNeeded
    else Report(Cascade(entries, reserved, tokenLimit, cfg))
  }

  function Report(r: Outcome): CompactResult {
    match r
    case Done(_) => Compacted
    case Error(error) => CompactFailed("compact: " + error)
    case Panic => Panicked
  }

  method EstimateAll(msgs: seq<Message>) returns (entries: seq<Entry>)
    ensures Estimated(entries) && Msgs(entries) == msgs
  {
    var result := new Entry[|msgs|](_ => Entry(UserMessage(""), 0));
    for i := 0 to |msgs|
      invariant forall j :: 0 <= j < i ==> IsEstimated(result[j]) && result[j].message == msgs[j]
    {
      var tokens := EstimateMessage(msgs[i]);
      result[i] := Entry(msgs[i], tokens);
    }
    entries := result[..];
  }

  function Injected(h: seq<Message>, msgs: seq<Message>, position: string): seq<Message> {
    if msgs == [] then h
    else if position == "prepend" then msgs + h
    else if position == "replace" then msgs
    else h + msgs
  }

  lemma {:induction false} AppendEntry(entries: seq<Entry>, m: Message)
    requires Estimated(entries)
    ensures var all := entries + [MakeEntry(m)];
            Estimated(all) && Msgs(all) == Msgs(entries) + [m] && TotalTokens(all) == TotalTokens(entries) + EstimateTokens(m)
  {
    var all := entries + [MakeEntry(m)];
    assert all[..|all| - 1] == entries;
    assert IsEstimated(MakeEntry(m));
  }

  lemma {:induction false} JoinEntries(a: seq<Entry>, b: seq<Entry>)
    requires Estimated(a) && Estimated(b)
    ensures Estimated(a + b) && Msgs(a + b) == Msgs(a) + Msgs(b)
  {}

  lemma {:induction false} EstimatedMarker(text: string)
    ensures Estimated([Marker(text)])
  {
    assert IsEstimated(Marker(text));
  }

  lemma {:induction false} TrimmedEstimated(entries: seq<Entry>, maxChars: int)
    requires Estimated(entries)
    ensures Estimated(Trimmed(entries, maxChars))
  {
    if maxChars <= 0 {
    } else {
      forall i | 0 <= i < |entries|
        ensures IsEstimated(TrimEntry(entries[i], maxChars))
      {
        TrimEntryEstimated(entries[i], maxChars);
      }
    }
  }

  lemma {:induction false} TrimEntryEstimated(e: Entry, maxChars: nat)
    requires IsEstimated(e)
    ensures IsEstimated(TrimEntry(e, maxChars))
  {}

  lemma {:induction false} MaskedEstimated(entries: seq<Entry>, keepLast: nat)
    requires Estimated(entries)
    ensures Estimated(Masked(entries, keepLast))
  {}

  lemma {:induction false} CascadeEstimated(entries: seq<Entry>, reserved: int, tokenLimit: int, cfg: Config)
    requires Estimated(entries)
    ensures var r := Cascade(entries, reserved, tokenLimit, cfg); r.Done? ==> Estimated(r.entries)
  {
    CompactionTheorems.CascadeStages(entries, reserved, tokenLimit, cfg);
    TrimmedEstimated(entries, cfg.budgetMaxChars);
    var r := Cascade(entries, reserved, tokenLimit, cfg);
    if cfg.keepLast >= 0 && r.Done? {
      MaskedEstimated(Trimmed(entries, cfg.budgetMaxChars), cfg.keepLast);
      if text :| CompactionTheorems.IsCut(entries, cfg, r.entries, text) {
        CutEstimated(entries, cfg, r.entries, text);
      }
    }
  }

  lemma {:induction false} CutEstimated(entries: seq<Entry>, cfg: Config, r: seq<Entry>, text: string)
    requires cfg.keepLast >= 0 && CompactionTheorems.IsCut(entries, cfg, r, text)
    requires Estimated(CompactionTheorems.MaskedStage(entries, cfg))
    ensures Estimated(r)
  {
    EstimatedMarker(text);
    JoinEntries([Marker(text)], CompactionTheorems.MaskedStage(entries, cfg)[CompactionTheorems.CutAt(entries, cfg)..]);
  }

  /** The entries of a history. */
  function Entries(h: seq<Message>): (entries: seq<Entry>)
    ensures Estimated(entries) && Msgs(entries) == h
  {
    seq(|h|, i requires 0 <= i < |h| => MakeEntry(h[i]))
  }

  /** Entries that carry their own estimates are determined by their messages. */
  lemma {:induction false} EntriesOf(entries: seq<Entry>)
    requires Estimated(entries)
    ensures entries == Entries(Msgs(entries))
  {
    assert forall i :: 0 <= i < |entries| ==> IsEstimated(entries[i]);
  }

  /** A compaction is due exactly from the threshold on; then the cascade decides what it comes to. */
  lemma {:induction false} CompactWhen(entries: seq<Entry>, reserved: int, tokenLimit: int, threshold: real, cfg: Config)
    ensures var result := CompactOutcome(entries, reserved, tokenLimit, threshold, cfg);
            var r := Cascade(entries, reserved, tokenLimit, cfg);
            var low := if tokenLimit == 0 then 0.0 < threshold
                       else (reserved + TotalTokens(entries)) as real / tokenLimit as real < threshold;
            && (result == NotNeeded <==> low)
            && (!low ==> (result == Compacted <==> r.Done?) && (result == Panicked <==> r.Panic?))
            && (!low && r.Error? ==> result == CompactFailed("compact: " + r.error))
  {}
}
