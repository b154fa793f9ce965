/** What the compaction cascade keeps. */
module CompactionTheorems {
  import opened Bytes
  import opened Messages
  import opened Pairing
  import opened Compaction

  // ---------- The boundary never separates a result from its call ----------

  /** No kept result has its call cut away. */
  predicate KeepsCalls(h: seq<Message>, c: nat) {
    forall i :: c <= i < |h| && IsResult(h[i]) && CallOf(h, i) >= 0 ==> c <= CallOf(h, i)
  }

  /** The results of a turn follow it without interruption. Results whose call is missing may stand anywhere. */
  predicate BlockStructured(h: seq<Message>) {
    forall i :: 0 <= i < |h| && IsResult(h[i]) && CallOf(h, i) >= 0 ==> InOneBlock(h, CallOf(h, i), i)
  }

  predicate InOneBlock(h: seq<Message>, a: nat, i: nat)
    requires i < |h|
  {
    a < i && !IsResult(h[a]) && forall j :: a < j <= i ==> IsResult(h[j]) && CallOf(h, j) == a
  }

  predicate IsCalled(h: seq<Message>, j: nat, a: int) {
    j < |h| && IsResult(h[j]) && CallOf(h, j) == a
  }

  lemma {:induction false} LowestMeaning(h: seq<Message>, i: nat, cut: nat)
    requires i <= |h| && cut <= |h|
    ensures var r := LowestCall(h, i, cut);
            && (forall j, a :: i <= j && IsCalled(h, j, a) && a >= 0 ==> r <= a)
            && (r == cut || exists j :: i <= j && IsCalled(h, j, r))
    decreases |h| - i
  {
    if i < |h| {
      var next := if IsResult(h[i]) && 0 <= CallOf(h, i) < cut then CallOf(h, i) else cut;
      LowestMeaning(h, i + 1, next);
      assert next != cut ==> IsCalled(h, i, next);
    }
  }

  /** The place where the last `keepLast` messages start. */
  function Start(h: seq<Message>, keepLast: nat): nat {
    if keepLast >= |h| then 0 else |h| - keepLast
  }

  /** The result at `j` is kept, and `a` is where its call stands. */
  predicate IsKept(h: seq<Message>, keepLast: nat, j: nat, a: int) {
    Start(h, keepLast) <= j && IsCalled(h, j, a) && a >= 0
  }

  /** Before the last `keepLast` messages a result has its call at `c` further down than any kept result has its own, and
      between that call and the result a kept result's call stands at `a`. */
  predicate Straddles(h: seq<Message>, keepLast: nat, i: nat, c: int, a: int) {
    && i < Start(h, keepLast) && IsCalled(h, i, c) && 0 <= c < a <= i
    && (exists j | 0 <= j < |h| :: IsKept(h, keepLast, j, a))
    && (forall j | 0 <= j < |h| :: IsKept(h, keepLast, j, CallOf(h, j)) ==> c < CallOf(h, j))
  }

  /** Main result: in every history the boundary is above all places that keep calls, and it is such a place if and only if
      the history has no such result. */
  lemma {:induction false} BoundaryExact(h: seq<Message>, keepLast: nat)
    ensures var r := KeepBoundary(h, keepLast);
            && (forall c: nat :: c <= Start(h, keepLast) && KeepsCalls(h, c) ==> c <= r <= Start(h, keepLast))
            && (KeepsCalls(h, r) <==> !exists i: nat, c, a :: Straddles(h, keepLast, i, c, a))
  {
    BoundaryAbove(h, keepLast);
    var r := KeepBoundary(h, keepLast);
    LowestMeaning(h, Start(h, keepLast), Start(h, keepLast));
    if !KeepsCalls(h, r) {
      var i: nat :| r <= i < |h| && IsResult(h[i]) && 0 <= CallOf(h, i) < r;
      Straddled(h, keepLast, i);
    }
    if i: nat, c, a :| Straddles(h, keepLast, i, c, a) {
      var j :| 0 <= j < |h| && IsKept(h, keepLast, j, a);
      assert c < r <= i;
    }
  }

  lemma {:induction false} BoundaryAbove(h: seq<Message>, keepLast: nat)
    ensures var r := KeepBoundary(h, keepLast);
            && (forall c: nat :: c <= Start(h, keepLast) && KeepsCalls(h, c) ==> c <= r <= Start(h, keepLast))
            && (forall i :: Start(h, keepLast) <= i < |h| && IsResult(h[i]) && CallOf(h, i) >= 0 ==> r <= CallOf(h, i))
  {
    var r := KeepBoundary(h, keepLast);
    LowestMeaning(h, Start(h, keepLast), Start(h, keepLast));
    forall c: nat | c <= Start(h, keepLast) && KeepsCalls(h, c)
      ensures c <= r
    {
      if keepLast < |h| && r != Start(h, keepLast) {
        var j :| Start(h, keepLast) <= j && IsCalled(h, j, r);
      }
    }
    forall i | Start(h, keepLast) <= i < |h| && IsResult(h[i]) && CallOf(h, i) >= 0
      ensures r <= CallOf(h, i)
    {
      assert IsCalled(h, i, CallOf(h, i));
    }
  }

  /** A result that the boundary separates from its call. */
  lemma {:induction false} Straddled(h: seq<Message>, keepLast: nat, i: nat)
    requires KeepBoundary(h, keepLast) <= i < |h| && IsResult(h[i]) && 0 <= CallOf(h, i) < KeepBoundary(h, keepLast)
    ensures Straddles(h, keepLast, i, CallOf(h, i), KeepBoundary(h, keepLast))
  {
    var r, start := KeepBoundary(h, keepLast), Start(h, keepLast);
    BoundaryAbove(h, keepLast);
    LowestMeaning(h, start, start);
    var j :| start <= j && IsCalled(h, j, r);
    assert IsKept(h, keepLast, j, r);
  }

  /** For block-structured histories the boundary is the greatest place, not above the last `keepLast` messages, that
      keeps all calls. */
  lemma {:induction false} BoundaryGreatest(h: seq<Message>, keepLast: nat)
    requires BlockStructured(h)
    ensures var r := KeepBoundary(h, keepLast);
            && r <= Start(h, keepLast) && KeepsCalls(h, r)
            && forall c: nat :: c <= Start(h, keepLast) && KeepsCalls(h, c) ==> c <= r
  {
    var r, start := KeepBoundary(h, keepLast), Start(h, keepLast);
    BoundaryAbove(h, keepLast);
    LowestMeaning(h, start, start);
    forall i | r <= i < |h| && IsResult(h[i]) && CallOf(h, i) >= 0
      ensures r <= CallOf(h, i)
    {
      assert InOneBlock(h, CallOf(h, i), i);
      if keepLast < |h| && r != start {
        var j :| start <= j && IsCalled(h, j, r);
        assert InOneBlock(h, r, j);
      }
    }
  }

  /** Without that structure the single pass can separate a result from its call: two calls are made, and their results
      follow in the same order. */
  lemma {:induction false} BoundaryInterleaved()
    ensures var h := Interleaved(); KeepBoundary(h, 1) == 1 && !KeepsCalls(h, 1) && KeepsCalls(h, 0)
  {
    var h := Interleaved();
    assert h[1].toolCalls[0].id == "b" && h[0].toolCalls[0].id == "a";
    assert !HasCall(h[2], "b") && HasCall(h[1], "b");
    assert HasCall(h[0], "a") && !HasCall(h[1], "a");
    assert FindCall(h, "b", 3) == 1;
    assert FindCall(h, "a", 2) == 0;
    assert LowestCall(h, 4, 1) == 1;
    assert IsResult(h[2]) && CallOf(h, 2) == 0;
  }

  function Interleaved(): seq<Message> {
    [ToolCallMessage("a", "f", ""), ToolCallMessage("b", "g", ""), ToolResultMessage("a", ""), ToolResultMessage("b", "")]
  }

  lemma {:induction false} PairedStructured(h: seq<Message>)
    requires WellPaired(h)
    ensures BlockStructured(h)
  {
    forall i | 0 <= i < |h| && IsResult(h[i]) && CallOf(h, i) >= 0
      ensures InOneBlock(h, CallOf(h, i), i)
    {
      PairedMeaning(h, i);
      var a := CallOf(h, i);
      forall j | a < j <= i
        ensures IsResult(h[j]) && CallOf(h, j) == a
      {
        InBlock(h, a, j);
      }
    }
  }

  /** In a well-paired history the boundary lies before a message that is no tool result, and at most as far down as
      the largest number of calls in one turn. */
  lemma {:induction false} BoundaryPaired(h: seq<Message>, keepLast: nat, most: nat)
    requires WellPaired(h) && forall m :: m in h ==> |m.toolCalls| <= most
    ensures var r := KeepBoundary(h, keepLast);
            (r < |h| ==> !h[r].role.Tool?) && Start(h, keepLast) <= r + most
  {
    var r, start := KeepBoundary(h, keepLast), Start(h, keepLast);
    BoundaryGreatest(h, keepLast) by {
      PairedStructured(h);
    }
    LowestMeaning(h, start, start);
    if r < |h| {
      if r == start {
        if h[r].role.Tool? {
          PairedMeaning(h, r);
          InBlock(h, CallOf(h, r), r);
        }
      } else {
        var j :| start <= j && IsCalled(h, j, r);
        PairedMeaning(h, j);
        assert h[r] in h;
      }
    }
  }

  // ---------- The stages keep histories well-paired ----------

  lemma {:induction false} TrimShape(entries: seq<Entry>, maxChars: int)
    ensures SameShape(Msgs(entries), Msgs(Trimmed(entries, maxChars)))
  {}

  lemma {:induction false} MaskShape(entries: seq<Entry>, keepLast: nat)
    ensures SameShape(Msgs(entries), Msgs(Masked(entries, keepLast)))
  {}

  lemma {:induction false} CutPaired(entries: seq<Entry>, keepLast: nat, text: string)
    requires WellPaired(Msgs(entries))
    ensures WellPaired(Msgs([Marker(text)] + entries[KeepBoundary(Msgs(entries), keepLast)..]))
  {
    var h := Msgs(entries);
    var r := KeepBoundary(h, keepLast);
    BoundaryPaired(h, keepLast, MostCalls(h));
    PairedCut(h, r);
    var g := [UserMessage(text)];
    UserPaired(text);
    PairedConcat(g, h[r..]);
    MsgsCut(entries, r, text);
  }

  lemma {:induction false} UserPaired(text: string)
    ensures WellPaired([UserMessage(text)])
  {
    assert [UserMessage(text)][1..] == [];
  }

  lemma {:induction false} MsgsCut(entries: seq<Entry>, r: nat, text: string)
    requires r <= |entries|
    ensures Msgs([Marker(text)] + entries[r..]) == [UserMessage(text)] + Msgs(entries)[r..]
  {}

  /** The largest number of calls in one message. */
  function MostCalls(h: seq<Message>): (n: nat)
    ensures forall m :: m in h ==> |m.toolCalls| <= n
  {
    if h == [] then 0
    else
      var n := MostCalls(h[1..]);
      assert forall m :: m in h ==> m == h[0] || m in h[1..];
      if |h[0].toolCalls| > n then |h[0].toolCalls| else n
  }

  lemma {:induction false} StagesPaired(entries: seq<Entry>, maxChars: int, keepLast: nat)
    requires WellPaired(Msgs(entries))
    ensures WellPaired(Msgs(Trimmed(entries, maxChars)))
    ensures WellPaired(Msgs(Masked(Trimmed(entries, maxChars), keepLast)))
    ensures MostCalls(Msgs(Masked(Trimmed(entries, maxChars), keepLast))) == MostCalls(Msgs(entries))
  {
    var trimmed := Trimmed(entries, maxChars);
    TrimShape(entries, maxChars);
    ShapePaired(Msgs(entries), Msgs(trimmed));
    ShapeCalls(Msgs(entries), Msgs(trimmed));
    var masked := Masked(trimmed, keepLast);
    MaskShape(trimmed, keepLast);
    ShapePaired(Msgs(trimmed), Msgs(masked));
    ShapeCalls(Msgs(trimmed), Msgs(masked));
  }

  /** The history after masking, and the boundary there. */
  function MaskedStage(entries: seq<Entry>, cfg: Config): seq<Entry>
    requires cfg.keepLast >= 0
  {
    Masked(Trimmed(entries, cfg.budgetMaxChars), cfg.keepLast)
  }

  function CutAt(entries: seq<Entry>, cfg: Config): (cut: nat)
    requires cfg.keepLast >= 0
    ensures cut <= |MaskedStage(entries, cfg)|
  {
    KeepBoundary(Msgs(MaskedStage(entries, cfg)), cfg.keepLast)
  }

  /** The history is cut: a marker stands for what lies before the boundary. */
  predicate IsCut(entries: seq<Entry>, cfg: Config, r: seq<Entry>, text: string)
    requires cfg.keepLast >= 0
  {
    CutAt(entries, cfg) > 0 && r == [Marker(text)] + MaskedStage(entries, cfg)[CutAt(entries, cfg)..]
  }

  /** How the cascade can end, for every history: trimmed, masked, cut, with an error, or out of bounds. */
  lemma {:induction false} CascadeStages(entries: seq<Entry>, reserved: int, tokenLimit: int, cfg: Config)
    ensures var r := Cascade(entries, reserved, tokenLimit, cfg);
            && (r.Done? ==>
                  || r.entries == Trimmed(entries, cfg.budgetMaxChars)
                  || (cfg.keepLast >= 0 && r.entries == MaskedStage(entries, cfg))
                  || (cfg.keepLast >= 0 && exists text :: IsCut(entries, cfg, r.entries, text)))
            && (r.Panic? <==> cfg.keepLast < 0 && !OnTarget(Trimmed(entries, cfg.budgetMaxChars), reserved, tokenLimit, cfg))
  {
    if cfg.keepLast >= 0 {
      CutCases(MaskedStage(entries, cfg), reserved, tokenLimit, cfg);
      var cut := CutAt(entries, cfg);
      var r := CutStages(MaskedStage(entries, cfg), reserved, tokenLimit, cfg);
      if text :| r == Done([Marker(text)] + MaskedStage(entries, cfg)[cut..]) && cut > 0 {
        assert IsCut(entries, cfg, r.entries, text);
      }
    }
  }

  lemma {:induction false} CutCases(masked: seq<Entry>, reserved: int, tokenLimit: int, cfg: Config)
    requires cfg.keepLast >= 0
    ensures var r := CutStages(masked, reserved, tokenLimit, cfg);
            var cut := KeepBoundary(Msgs(masked), cfg.keepLast);
            && !r.Panic?
            && (r.Done? ==> r == Done(masked) || (cut > 0 && exists text :: r == Done([Marker(text)] + masked[cut..])))
  {
    SummarizeStage(masked, cfg.keepLast, cfg.summarizer);
    var cut := KeepBoundary(Msgs(masked), cfg.keepLast);
    var r := CutStages(masked, reserved, tokenLimit, cfg);
    if cut > 0 && r == Done(Snipped(masked, cfg.keepLast)) {
      assert r == Done([Marker(SnipText(cut))] + masked[cut..]);
    } else if cut > 0 && r.Done? && r != Done(masked) {
      var text :| r.entries == [Marker(text)] + masked[cut..];
      assert r == Done([Marker(text)] + masked[cut..]);
    }
  }

  /** What snipping and summarizing leave. */
  lemma {:induction false} SummarizeStage(entries: seq<Entry>, keepLast: nat, summarizer: Option<seq<Message> -> Summary>)
    ensures var r := Summarize(Snipped(entries, keepLast), keepLast, summarizer);
            var cut := KeepBoundary(Msgs(entries), keepLast);
            !r.Panic? && (r.Done? ==> if cut == 0 then r.entries == entries else exists text :: r.entries == [Marker(text)] + entries[cut..])
  {
    if summarizer.Some? {
      SnipThenSummarize(entries, keepLast, summarizer.value);
    }
  }

  lemma {:induction false} CutStagePaired(entries: seq<Entry>, cfg: Config, r: seq<Entry>, text: string)
    requires cfg.keepLast >= 0 && WellPaired(Msgs(entries)) && IsCut(entries, cfg, r, text)
    ensures WellPaired(Msgs(r))
  {
    StagesPaired(entries, cfg.budgetMaxChars, cfg.keepLast);
    CutPaired(MaskedStage(entries, cfg), cfg.keepLast, text);
  }

  /** The cascade never separates a call from its results. */
  lemma {:induction false} CascadePaired(entries: seq<Entry>, reserved: int, tokenLimit: int, cfg: Config)
    requires WellPaired(Msgs(entries))
    ensures var r := Cascade(entries, reserved, tokenLimit, cfg); r.Done? ==> WellPaired(Msgs(r.entries))
  {
    CascadeStages(entries, reserved, tokenLimit, cfg);
    StagesPaired(entries, cfg.budgetMaxChars, if cfg.keepLast >= 0 then cfg.keepLast else 0);
    var r := Cascade(entries, reserved, tokenLimit, cfg);
    if cfg.keepLast >= 0 && r.Done? {
      if text :| IsCut(entries, cfg, r.entries, text) {
        CutStagePaired(entries, cfg, r.entries, text);
      }
    }
  }

  // ---------- Snipping first makes the summary short ----------

  /** Putting a plain message in front of the kept messages moves the calls along and loses those that are cut away. */
  lemma {:induction false} CallShift(h: seq<Message>, r: nat, m: Message, i: nat)
    requires r <= i < |h| && m.toolCalls == []
    ensures var g := [m] + h[r..];
            CallOf(g, i - r + 1) == if CallOf(h, i) >= r then CallOf(h, i) - r + 1 else -1
  {
    var g, j := [m] + h[r..], i - r + 1;
    var id := h[i].toolCallId;
    assert g[j] == h[i];
    var a, b := CallOf(h, i), CallOf(g, j);
    assert forall k :: 1 <= k < |g| ==> g[k] == h[k - 1 + r];
    if b >= 1 {
      assert HasCall(h[b - 1 + r], id);
    }
    if a >= r {
      assert HasCall(g[a - r + 1], id);
    }
  }

  /** After a cut the boundary lies right behind the marker. */
  lemma {:induction false} BoundaryAfterCut(h: seq<Message>, keepLast: nat, m: Message)
    requires m.toolCalls == [] && KeepBoundary(h, keepLast) > 0
    ensures KeepBoundary([m] + h[KeepBoundary(h, keepLast)..], keepLast) == 1
  {
    var r := KeepBoundary(h, keepLast);
    var g := [m] + h[r..];
    var start, newStart := |h| - keepLast, |g| - keepLast;
    LowestMeaning(h, start, start);
    LowestMeaning(g, newStart, newStart);
    CallsAfterCut(h, r, m, newStart);
    if r < start {
      var i :| start <= i && IsCalled(h, i, r);
      CalledAfterCut(h, r, m, i);
      assert IsCalled(g, i - r + 1, 1);
    }
  }

  lemma {:induction false} CalledAfterCut(h: seq<Message>, r: nat, m: Message, i: nat)
    requires m.toolCalls == [] && r <= i && IsCalled(h, i, r)
    ensures IsCalled([m] + h[r..], i - r + 1, 1)
  {
    CallShift(h, r, m, i);
    assert ([m] + h[r..])[i - r + 1] == h[i];
  }

  lemma {:induction false} CallsAfterCut(h: seq<Message>, r: nat, m: Message, start: nat)
    requires m.toolCalls == [] && r <= |h| && start >= 1
    ensures forall j, a :: start <= j && IsCalled([m] + h[r..], j, a) && a >= 0 ==> a >= 1
  {
    var g := [m] + h[r..];
    forall j, a | start <= j && IsCalled(g, j, a) && a >= 0
      ensures a >= 1
    {
      assert g[j] == h[j - 1 + r];
      CallShift(h, r, m, j - 1 + r);
    }
  }

  /** In every history: once snipping has removed something, the summarizer that runs after it gets exactly the one
      marker message, and the kept messages stay as they are. If snipping removes nothing, summarizing changes nothing
      either. */
  lemma {:induction false} SnipThenSummarize(entries: seq<Entry>, keepLast: nat, summarize: seq<Message> -> Summary)
    ensures var cut := KeepBoundary(Msgs(entries), keepLast);
            var marker := Marker(SnipText(cut));
            var r := Summarize(Snipped(entries, keepLast), keepLast, Some(summarize));
            if cut == 0 then r == Done(entries)
            else match summarize([marker.message])
                 case Failed(error) => r.Error?
                 case Summarized(text) => r == Done([Marker(SummaryText(1, text))] + entries[cut..])
  {
    var h := Msgs(entries);
    var cut := KeepBoundary(h, keepLast);
    if cut > 0 {
      var marker := Marker(SnipText(cut));
      var snipped := [marker] + entries[cut..];
      assert Msgs(snipped) == [marker.message] + h[cut..];
      BoundaryAfterCut(h, keepLast, marker.message);
      assert Msgs(snipped[..1]) == [marker.message];
      assert snipped[1..] == entries[cut..];
    }
  }

  // ---------- Sizes ----------

  lemma {:induction false} ShapeCalls(g: seq<Message>, h: seq<Message>)
    requires SameShape(g, h)
    ensures MostCalls(g) == MostCalls(h)
  {
    if g == [] {
    } else {
      ShapeCalls(g[1..], h[1..]);
    }
  }

  /** A cascade that cuts leaves the marker, the last `keepLast` messages, and at most one turn with its results more. */
  lemma {:induction false} CascadeSize(entries: seq<Entry>, reserved: int, tokenLimit: int, cfg: Config)
    requires WellPaired(Msgs(entries))
    ensures var r := Cascade(entries, reserved, tokenLimit, cfg);
            r.Done? ==> |r.entries| == |entries| || |r.entries| <= cfg.keepLast + 1 + MostCalls(Msgs(entries))
  {
    CascadeStages(entries, reserved, tokenLimit, cfg);
    if cfg.keepLast >= 0 {
      StagesPaired(entries, cfg.budgetMaxChars, cfg.keepLast);
      BoundaryPaired(Msgs(MaskedStage(entries, cfg)), cfg.keepLast, MostCalls(Msgs(entries)));
    }
  }

  /** At most one call a turn. */
  predicate SingleCalls(h: seq<Message>) {
    forall i :: 0 <= i < |h| ==> |h[i].toolCalls| <= 1
  }

  /** In such histories a cascade that cuts leaves at most `keepLast + 2` messages, and again one call a turn. */
  lemma {:induction false} CascadeSingle(entries: seq<Entry>, reserved: int, tokenLimit: int, cfg: Config)
    requires WellPaired(Msgs(entries)) && SingleCalls(Msgs(entries))
    ensures var r := Cascade(entries, reserved, tokenLimit, cfg);
            r.Done? ==> SingleCalls(Msgs(r.entries)) && (|r.entries| == |entries| || |r.entries| <= cfg.keepLast + 2)
  {
    CascadeSize(entries, reserved, tokenLimit, cfg);
    CascadeStages(entries, reserved, tokenLimit, cfg);
    SingleMost(Msgs(entries));
    SingleStages(entries, cfg);
    var r := Cascade(entries, reserved, tokenLimit, cfg);
    if cfg.keepLast >= 0 && r.Done? {
      if text :| IsCut(entries, cfg, r.entries, text) {
        SingleCut(entries, cfg, r.entries, text);
      }
    }
  }

  lemma {:induction false} SingleStages(entries: seq<Entry>, cfg: Config)
    requires SingleCalls(Msgs(entries))
    ensures SingleCalls(Msgs(Trimmed(entries, cfg.budgetMaxChars)))
    ensures cfg.keepLast >= 0 ==> SingleCalls(Msgs(MaskedStage(entries, cfg)))
  {
    TrimShape(entries, cfg.budgetMaxChars);
    if cfg.keepLast >= 0 {
      MaskShape(Trimmed(entries, cfg.budgetMaxChars), cfg.keepLast);
    }
  }

  lemma {:induction false} SingleCut(entries: seq<Entry>, cfg: Config, r: seq<Entry>, text: string)
    requires cfg.keepLast >= 0 && SingleCalls(Msgs(MaskedStage(entries, cfg))) && IsCut(entries, cfg, r, text)
    ensures SingleCalls(Msgs(r))
  {
    MsgsCut(MaskedStage(entries, cfg), CutAt(entries, cfg), text);
  }

  lemma {:induction false} SingleMost(h: seq<Message>)
    ensures MostCalls(h) <= 1 <==> SingleCalls(h)
  {
    if h == [] {
    } else {
      SingleMost(h[1..]);
      assert forall i :: 1 <= i < |h| ==> h[i] == h[1..][i - 1];
      assert SingleCalls(h) ==> forall i :: 0 <= i < |h[1..]| ==> h[1..][i] == h[i + 1];
    }
  }

  // ---------- Tokens ----------

  lemma {:induction false} TotalConcat(a: seq<Entry>, b: seq<Entry>)
    ensures TotalTokens(a + b) == TotalTokens(a) + TotalTokens(b)
  {
    if b == [] {
      assert a + b == a;
    } else {
      var n := |b| - 1;
      assert (a + b)[..|a + b| - 1] == a + b[..n] && (a + b)[|a + b| - 1] == b[n];
      TotalConcat(a, b[..n]);
    }
  }

  /** How much a message's estimate can grow when it is trimmed and masked. */
  function Growth(m: Message): nat {
    EstimateText(TrimMarker(|ContentString(m)|)) + 1 + EstimateText(MASKED)
  }

  function TotalGrowth(entries: seq<Entry>): nat {
    if entries == [] then 0 else TotalGrowth(entries[..|entries| - 1]) + Growth(entries[|entries| - 1].message)
  }

  lemma {:induction false} StageGrowth(e: Entry, maxChars: int)
    requires e == MakeEntry(e.message)
    ensures maxChars > 0 ==> TrimEntry(e, maxChars).tokens <= e.tokens + Growth(e.message)
    ensures maxChars > 0 ==> MaskEntry(TrimEntry(e, maxChars)).tokens <= e.tokens + Growth(e.message)
    ensures MaskEntry(e).tokens <= e.tokens + Growth(e.message)
  {
    if maxChars <= 0 {
    } else {
      TrimGrowth(e.message, maxChars);
      assert TrimEntry(e, maxChars).tokens == EstimateTokens(TrimEntry(e, maxChars).message);
    }
  }

  lemma {:induction false} TotalGrown(before: seq<Entry>, after: seq<Entry>)
    requires |before| == |after|
    requires forall i :: 0 <= i < |after| ==> after[i].tokens <= before[i].tokens + Growth(before[i].message)
    ensures TotalTokens(after) <= TotalTokens(before) + TotalGrowth(before)
  {
    if before == [] {
    } else {
      TotalGrown(before[..|before| - 1], after[..|after| - 1]);
    }
  }

  lemma {:induction false} MaskedGrowth(entries: seq<Entry>, cfg: Config, i: nat)
    requires cfg.keepLast >= 0 && i < |entries| && entries[i] == MakeEntry(entries[i].message)
    ensures MaskedStage(entries, cfg)[i].tokens <= entries[i].tokens + Growth(entries[i].message)
  {
    StageGrowth(entries[i], cfg.budgetMaxChars);
  }

  /** Main result: a cascade that cuts leaves exactly the tokens of the marker and of the kept messages as they are after
      masking; and those are at most the tokens that the kept messages had before, and for each of them a trim marker, a mask
      and one token. */
  lemma {:induction false} CutTokens(entries: seq<Entry>, cfg: Config, r: seq<Entry>, text: string)
    requires cfg.keepLast >= 0 && IsCut(entries, cfg, r, text)
    requires forall i :: 0 <= i < |entries| ==> entries[i] == MakeEntry(entries[i].message)
    ensures TotalTokens(r) == Marker(text).tokens + TotalTokens(MaskedStage(entries, cfg)[CutAt(entries, cfg)..])
    ensures TotalTokens(r) <= Marker(text).tokens + TotalTokens(entries[CutAt(entries, cfg)..]) + TotalGrowth(entries[CutAt(entries, cfg)..])
  {
    var cut, masked := CutAt(entries, cfg), MaskedStage(entries, cfg);
    TotalConcat([Marker(text)], masked[cut..]);
    assert [Marker(text)][..0] == [];
    assert TotalTokens([Marker(text)]) == Marker(text).tokens;
    forall i | 0 <= i < |entries| - cut
      ensures masked[cut..][i].tokens <= entries[cut..][i].tokens + Growth(entries[cut..][i].message)
    {
      MaskedGrowth(entries, cfg, cut + i);
    }
    TotalGrown(entries[cut..], masked[cut..]);
  }

  /** Trimming an entry raises its estimate by at most the size of the marker and one token. */
  lemma {:induction false} TrimGrowth(m: Message, maxChars: nat)
    ensures TrimEntry(MakeEntry(m), maxChars).tokens <= EstimateTokens(m) + EstimateText(TrimMarker(|ContentString(m)|)) + 1
  {
    var content := ContentString(m);
    if maxChars < |content| {
      EstimateConcat(content[..maxChars], TrimMarker(|content|));
      EstimateMonotone(content[..maxChars], content[maxChars..]);
      assert content[..maxChars] + content[maxChars..] == content;
    }
  }

  /** Trimming and masking twice is the same as once. */
  lemma {:induction false} TrimIdempotent(entries: seq<Entry>, maxChars: int)
    ensures Trimmed(Trimmed(entries, maxChars), maxChars) == Trimmed(entries, maxChars)
  {
    if maxChars <= 0 {
    } else {
      forall i | 0 <= i < |entries|
        ensures TrimEntry(TrimEntry(entries[i], maxChars), maxChars) == TrimEntry(entries[i], maxChars)
      {
        var content := ContentString(entries[i].message);
        if |content| > maxChars {
          var tail := ", original: " + Decimal(|content|) + " bytes ...]";
          ContainsMiddle(content[..maxChars], TRUNCATED, tail);
          assert content[..maxChars] + TrimMarker(|content|) == content[..maxChars] + TRUNCATED + tail;
        }
      }
    }
  }

  lemma {:induction false} MaskIdempotent(entries: seq<Entry>, keepLast: nat)
    ensures Masked(Masked(entries, keepLast), keepLast) == Masked(entries, keepLast)
  {
    assert forall i :: 0 <= i < |entries| ==> MaskEntry(MaskEntry(entries[i])) == MaskEntry(entries[i]);
  }
}
