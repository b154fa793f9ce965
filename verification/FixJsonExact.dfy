/** When the pipeline gives JSON, for all byte strings, and what it does to JSON texts that stop early, wherever that is. */
module FixJsonExact {
  import opened Bytes
  import opened JsonSyntax
  import opened JsonScan
  import opened FixJson
  import opened FixJsonTokens
  import opened FixJsonRepair
  import opened FixJsonTheorems

  // ---------- The bracket pass ----------

  /** The text stops after a complete value or an opening bracket: not inside a string, not inside a literal or a number that
      is none as it stands, and not after a comma, a key or a colon. */
  predicate StopsWell(st: State) {
    Settle(st).At? && CanClose(Settle(st).mode, st.stack)
  }

  /** What the passes see of the scanner's state. */
  function LexOf(st: State): Lex {
    match st
    case At(InString(_, Escape), _) => Esc
    case At(InString(_, _), _) => In
    case _ => Out
  }

  function Closing(stack: seq<Kind>): bytes {
    if stack == [] then [] else Closing(stack[..|stack| - 1]) + [CloseByte(stack[|stack| - 1])]
  }

  lemma {:induction false} ClosingAll(stack: seq<Kind>)
    ensures AllClosers(Closing(stack)) && |Closing(stack)| == |stack|
  {
    if stack == [] {
    } else {
      ClosingAll(stack[..|stack| - 1]);
    }
  }

  lemma {:induction false} StepBrackets(st: State, b: byte)
    requires Step(st, b) != Stuck
    ensures LexOf(Step(st, b)) == Next(LexOf(st), b, QUOTE)
    ensures Closing(Step(st, b).stack) == if LexOf(st).Out? then Push(b, Closing(st.stack)) else Closing(st.stack)
  {
    StepLex(st, b);
    if !st.mode.InString? && !IsScalarByte(b) {
      StructureStack(Settle(st).mode, st.stack, b);
    }
  }

  lemma {:induction false} StepLex(st: State, b: byte)
    requires Step(st, b) != Stuck
    ensures LexOf(Step(st, b)) == Next(LexOf(st), b, QUOTE)
  {}

  lemma {:induction false} StructureStack(m: Mode, stack: seq<Kind>, b: byte)
    requires StructureStep(m, stack, b) != Stuck
    ensures Closing(StructureStep(m, stack, b).stack) == Push(b, Closing(stack))
  {
    StructureResult(m, stack, b);
    if b == OPEN_BRACKET {
      ClosingPush(stack, Arr);
    } else if b == OPEN_BRACE {
      ClosingPush(stack, Obj);
    } else if IsCloser(b) {
      var due := Closing(stack);
      assert due[|due| - 1] == b && due[..|due| - 1] == Closing(stack[..|stack| - 1]);
    }
  }

  /** What one byte of structure does to the stack. */
  lemma {:induction false} StructureResult(m: Mode, stack: seq<Kind>, b: byte)
    requires StructureStep(m, stack, b) != Stuck
    ensures var next := StructureStep(m, stack, b).stack;
            if b == OPEN_BRACKET then next == stack + [Arr]
            else if b == OPEN_BRACE then next == stack + [Obj]
            else if IsCloser(b) then stack != [] && b == CloseByte(stack[|stack| - 1]) && next == stack[..|stack| - 1]
            else next == stack
  {}

  lemma {:induction false} ClosingPush(stack: seq<Kind>, k: Kind)
    ensures Closing(stack + [k]) == Closing(stack) + [CloseByte(k)]
  {
    assert (stack + [k])[..|stack|] == stack;
  }

  /** As long as the text can be the start of a JSON text, the bracket pass has the same stack. */
  lemma {:induction false} ScanBrackets(s: bytes, st: State)
    requires st != Stuck && Scan(s, st) != Stuck
    ensures Brackets(s, LexOf(st), Closing(st.stack)) == (LexOf(Scan(s, st)), Closing(Scan(s, st).stack))
  {
    if s == [] {
    } else {
      StuckStays(s[1..]);
      StepBrackets(st, s[0]);
      ScanBrackets(s[1..], Step(st, s[0]));
    }
  }

  /** Closing brackets do not end a string. */
  lemma {:induction false} StaysInString(r: bytes, st: State)
    requires AllClosers(r) && st.At? && st.mode.InString?
    ensures !IsFinal(Scan(r, st))
  {
    if r == [] {
    } else {
      assert r[0] in r && AllClosers(r[1..]);
      StuckStays(r[1..]);
      if Step(st, r[0]) != Stuck {
        StaysInString(r[1..], Step(st, r[0]));
      }
    }
  }

  /** The closing brackets that are due complete the text if and only if it stops well. */
  lemma {:induction false} ClosersScan(st: State)
    requires st.At?
    ensures IsFinal(Scan(Reverse(Closing(st.stack)), st)) <==> StopsWell(st)
    decreases |st.stack|
  {
    var due := Closing(st.stack);
    ClosingAll(st.stack);
    ReverseMembers(due);
    if st.mode.InString? {
      StaysInString(Reverse(due), st);
    } else if st.stack == [] {
    } else {
      var n := |st.stack| - 1;
      var more := Reverse(Closing(st.stack[..n]));
      FirstDue(st.stack);
      CloserStep(st);
      StuckStays(more);
      if StopsWell(st) {
        ClosersScan(At(AfterValue, st.stack[..n]));
      }
    }
  }

  lemma {:induction false} FirstDue(stack: seq<Kind>)
    requires stack != []
    ensures var n := |stack| - 1;
            var r := Reverse(Closing(stack));
            r != [] && r[0] == CloseByte(stack[n]) && r[1..] == Reverse(Closing(stack[..n]))
  {
    var n := |stack| - 1;
    var due := Closing(stack);
    ReverseLast(due);
    assert due[|due| - 1] == CloseByte(stack[n]) && due[..|due| - 1] == Closing(stack[..n]);
  }

  lemma {:induction false} CloserStep(st: State)
    requires st.At? && !st.mode.InString? && st.stack != []
    ensures var n := |st.stack| - 1;
            Step(st, CloseByte(st.stack[n])) == if StopsWell(st) then At(AfterValue, st.stack[..n]) else Stuck
  {}

  /** Main result: for all byte strings, closing the brackets gives JSON if and only if the scan of the text does not get
      stuck and the text stops well. */
  lemma {:induction false} ClosedExact(s: bytes)
    ensures IsJson(CloseBrackets(s)) <==> StopsWell(Scan(s, START))
  {
    var due := Brackets(s, Out, []).1;
    AcceptsExactly(CloseBrackets(s));
    ScanConcat(s, Reverse(due), START);
    StuckStays(Reverse(due));
    if Scan(s, START) != Stuck {
      ScanBrackets(s, START);
      ClosersScan(Scan(s, START));
    }
  }

  // ---------- The whole pipeline ----------

  /** What the passes before the bracket pass make of a text. */
  function Prepared(data: bytes): bytes {
    DropCommas(SingleToDouble(DropControls(FixNullBraces(StripCodeBlock(data)), Out)), Out)
  }

  /** The result is not valid, and some of its lines hold objects that can be printed as one. */
  predicate Merges(data: bytes, lib: JsonLib) {
    var lines := SplitLines(TrimSpace(data));
    var merged := MergeObjects(LineObjects(lines, lib));
    && !lib.valid(TrimSpace(data)) && |lines| >= 2
    && merged.Some? && |merged.value| > 0 && lib.marshal(merged.value).Some?
  }

  ghost predicate PrintsJson(lib: JsonLib) {
    forall m :: lib.marshal(m).Some? ==> IsJson(lib.marshal(m).value)
  }

  /** Main result: for all inputs the pipeline gives JSON if and only if the text in front of the bracket pass stops well, or
      lines are merged. */
  lemma {:induction false} FixExact(s: bytes, lib: JsonLib)
    requires PrintsJson(lib)
    ensures IsJson(FixJSON(s, lib)) <==> StopsWell(Scan(Prepared(s), START)) || Merges(Repaired(s), lib)
  {
    ClosedExact(Prepared(s));
    MergeCases(Repaired(s), lib);
  }

  lemma {:induction false} MergeCases(data: bytes, lib: JsonLib)
    ensures !Merges(data, lib) ==> Merge(data, lib) == data
    ensures PrintsJson(lib) && Merges(data, lib) ==> IsJson(Merge(data, lib))
  {
    var merged := MergeObjects(LineObjects(SplitLines(TrimSpace(data)), lib));
    if Merges(data, lib) {
      assert Merge(data, lib) == lib.marshal(merged.value).value;
    } else {
      assert Merge(data, lib) == data;
    }
  }

  lemma {:induction false} TrimMembers(s: bytes)
    ensures forall b :: b in TrimSpace(s) ==> b in s
  {
    TrimLeftMembers(s);
    TrimRightPrefix(TrimLeft(s));
  }

  lemma {:induction false} TrimLeftMembers(s: bytes)
    ensures forall b :: b in TrimLeft(s) ==> b in s
  {
    if LeadingSpace(s) == 0 {
    } else {
      TrimLeftMembers(s[LeadingSpace(s)..]);
    }
  }

  lemma {:induction false} NullMembers(s: bytes)
    ensures forall b :: b in FixNullBraces(s) ==> b in s
  {
    if s == [] {
    } else if StartsWith(s, BRACED_NULL) {
      NullMembers(s[6..]);
      assert forall i :: 0 <= i < 4 ==> NULL[i] == s[..6][i + 1];
    } else {
      NullMembers(s[1..]);
    }
  }

  lemma {:induction false} ControlMembers(s: bytes, st: Lex)
    ensures forall b :: b in DropControls(s, st) ==> b in s
  {
    if s == [] {
    } else {
      ControlMembers(s[1..], Next(st, s[0], QUOTE));
    }
  }

  lemma {:induction false} QuoteMembers(s: bytes, st: Lex)
    ensures forall b :: b in Requote(s, st) ==> b in s || b == QUOTE
  {
    if s == [] {
    } else {
      QuoteMembers(s[1..], Next(st, s[0], APOSTROPHE));
    }
  }

  lemma {:induction false} CommaMembers(s: bytes, st: Lex)
    ensures forall b :: b in DropCommas(s, st) ==> b in s
  {
    if s == [] {
    } else {
      CommaMembers(s[1..], Next(st, s[0], QUOTE));
    }
  }

  lemma {:induction false} PreparedMembers(data: bytes)
    ensures forall b :: b in Prepared(data) ==> b in data || b == QUOTE
  {
    var a := StripCodeBlock(data);
    StripMembers(data);
    NullMembers(a);
    var c := DropControls(FixNullBraces(a), Out);
    ControlMembers(FixNullBraces(a), Out);
    QuoteMembers(c, Out);
    CommaMembers(SingleToDouble(c), Out);
  }

  lemma {:induction false} StripMembers(data: bytes)
    ensures forall b :: b in StripCodeBlock(data) ==> b in data
  {
    var trimmed := TrimSpace(data);
    TrimMembers(data);
    var n := Index(trimmed, [NEWLINE]);
    if StartsWith(trimmed, FENCE) && n >= 0 {
      var inner := trimmed[n + 1..];
      var close := Index(inner, FENCE);
      TrimMembers(if close >= 0 then inner[..close] else inner);
    }
  }

  /** A text on one line leaves nothing to merge. */
  lemma {:induction false} OneLine(s: bytes, lib: JsonLib)
    requires NEWLINE !in s
    ensures !Merges(Repaired(s), lib)
  {
    var t := Prepared(s);
    PreparedMembers(s);
    StackClosers(t, Out, []);
    ReverseMembers(Brackets(t, Out, []).1);
    TrimMembers(Repaired(s));
    NoNewline(TrimSpace(Repaired(s)));
  }

  // ---------- Texts that stop early ----------

  /** The text is a start of a JSON text, as far as the scanner can tell. */
  predicate Viable(s: bytes) {
    Scan(s, START) != Stuck
  }

  /** Every start of every JSON text is, wherever it stops. */
  lemma {:induction false} PrefixViable(d: bytes, n: nat)
    requires IsJson(d) && n <= |d|
    ensures Viable(d[..n])
  {
    AcceptsExactly(d);
    assert d == d[..n] + d[n..];
    ScanConcat(d[..n], d[n..], START);
    StuckStays(d[n..]);
  }

  lemma {:induction false} ViableControls(s: bytes, st: State)
    requires Scan(s, st) != Stuck
    ensures DropControls(s, LexOf(st)) == s
  {
    if s == [] {
    } else {
      StuckStays(s[1..]);
      StepBrackets(st, s[0]);
      ViableControls(s[1..], Step(st, s[0]));
      Uncons(s);
    }
  }

  lemma {:induction false} ViableQuotes(s: bytes, st: State)
    requires Scan(s, st) != Stuck && LexOf(st).Out? && QUOTE !in s
    ensures APOSTROPHE !in s
  {
    if s == [] {
    } else {
      StuckStays(s[1..]);
      assert s[0] in s;
      StepBrackets(st, s[0]);
      ViableQuotes(s[1..], Step(st, s[0]));
    }
  }

  /** Where a value or a key is due, no closing bracket can come. */
  lemma {:induction false} NoCloserDue(s: bytes, m: Mode, stack: seq<Kind>)
    requires (m.NeedValue? || m.NeedKey?) && CloserNext(s)
    ensures Scan(s, At(m, stack)) == Stuck
  {
    if IsWs(s[0]) {
      NoCloserDue(s[1..], m, stack);
    } else {
      StuckStays(s[1..]);
    }
  }

  lemma {:induction false} ViableCommas(s: bytes, st: State)
    requires Scan(s, st) != Stuck
    ensures DropCommas(s, LexOf(st)) == s
  {
    if s == [] {
    } else {
      StuckStays(s[1..]);
      StepBrackets(st, s[0]);
      ViableCommas(s[1..], Step(st, s[0]));
      Uncons(s);
      if LexOf(st).Out? && s[0] == COMMA && CloserNext(s[1..]) {
        NoCloserDue(s[1..], Step(st, COMMA).mode, st.stack);
      }
    }
  }

  /** `{null}` can only stand inside a string, and the string goes on after it. */
  lemma {:induction false} BracedScan(st: State)
    requires Scan(BRACED_NULL, st) != Stuck
    ensures Scan(BRACED_NULL, st) == Scan(NULL, st) == st
  {
    assert BRACED_NULL[1..] == [110, 117, 108, 108, 125];
    StuckStays(BRACED_NULL[1..]);
    StuckStays(BRACED_NULL[1..][1..]);
    assert st.At? && st.mode.InString? && st.mode.at.Plain?;
    PlainScan(BRACED_NULL, st.mode.isKey, st.stack);
    PlainScan(NULL, st.mode.isKey, st.stack);
  }

  lemma {:induction false} PlainScan(s: bytes, isKey: bool, stack: seq<Kind>)
    requires forall b :: b in s ==> b >= 32 && b != QUOTE && b != BACKSLASH
    ensures Scan(s, At(InString(isKey, Plain), stack)) == At(InString(isKey, Plain), stack)
  {
    if s == [] {
    } else {
      assert s[0] in s && forall b :: b in s[1..] ==> b in s;
      PlainScan(s[1..], isKey, stack);
    }
  }

  lemma {:induction false} ViableNulls(s: bytes, st: State)
    requires Scan(s, st) != Stuck
    ensures Scan(FixNullBraces(s), st) == Scan(s, st)
  {
    if s == [] {
    } else if StartsWith(s, BRACED_NULL) {
      assert s == BRACED_NULL + s[6..];
      ScanConcat(BRACED_NULL, s[6..], st);
      StuckStays(s[6..]);
      BracedScan(st);
      ScanConcat(NULL, FixNullBraces(s[6..]), st);
      ViableNulls(s[6..], st);
    } else {
      StuckStays(s[1..]);
      ViableNulls(s[1..], Step(st, s[0]));
      assert ([s[0]] + FixNullBraces(s[1..]))[1..] == FixNullBraces(s[1..]);
    }
  }

  lemma {:induction false} ViableStrip(s: bytes)
    requires Viable(s)
    ensures StripCodeBlock(s) == s
  {
    var ws, rest := LeadingWs(s);
    if rest == [] {
      TrimLeftWs(ws, []);
      assert ws + [] == ws;
    } else {
      SpaceScan(ws, START, NeedValue, []);
      ScanConcat(ws, rest, START);
      StuckStays(rest[1..]);
      StripNothing(ws, rest);
    }
  }

  lemma {:induction false} LeadingWs(s: bytes) returns (ws: bytes, rest: bytes)
    ensures s == ws + rest && AllWs(ws) && (rest == [] || !IsWs(rest[0]))
  {
    if s != [] && IsWs(s[0]) {
      var more;
      more, rest := LeadingWs(s[1..]);
      ws := [s[0]] + more;
    } else {
      ws, rest := [], s;
    }
  }

  /** Where the null pass changes something first, `n` takes the place of a brace. */
  lemma {:induction false} NullChanges(s: bytes) returns (i: nat)
    requires Contains(s, BRACED_NULL)
    ensures i < |s| && i < |FixNullBraces(s)| && s[i] == OPEN_BRACE && FixNullBraces(s)[i] == LETTER_N
  {
    if StartsWith(s, BRACED_NULL) {
      assert s[..6][0] == s[0];
      i := 0;
    } else {
      LaterOccurrence(s);
      var j := NullChanges(s[1..]);
      i := j + 1;
    }
  }

  /** Main result: a JSON text that stops early, anywhere, comes through the passes with its brackets closed (and `{null}`
      replaced in strings). That is JSON if and only if it stops well, and the text itself if and only if no bracket is open and
      there is no `{null}`. */
  lemma {:induction false} TruncatedExact(s: bytes)
    requires Viable(s)
    ensures Repaired(s) == CloseBrackets(FixNullBraces(s))
    ensures IsJson(Repaired(s)) <==> StopsWell(Scan(s, START))
    ensures Repaired(s) == s <==> Scan(s, START).stack == [] && !Contains(s, BRACED_NULL)
  {
    var t := FixNullBraces(s);
    ViablePrepared(s);
    ClosedExact(t);
    ViableNulls(s, START);
    ScanBrackets(t, START);
    var due := Closing(Scan(s, START).stack);
    ClosingAll(Scan(s, START).stack);
    NullsFixed(s);
    if Contains(s, BRACED_NULL) {
      var i := NullChanges(s);
      assert Repaired(s)[i] != s[i];
    } else if due != [] {
      ReverseLast(due);
      assert |Repaired(s)| > |s|;
    } else {
      assert s + [] == s;
    }
  }

  lemma {:induction false} ViablePrepared(s: bytes)
    requires Viable(s)
    ensures Prepared(s) == FixNullBraces(s)
  {
    var t := FixNullBraces(s);
    ViableStrip(s);
    ViableNulls(s, START);
    ViableControls(t, START);
    ViableCommas(t, START);
    if QUOTE !in t {
      ViableQuotes(t, START);
      RequoteRun(t, []);
      assert t + [] == t;
    }
  }

  /** Main result: what the pipeline's own documentation promises always, JSON or the input back, holds for a JSON text that
      stops early if and only if it stops well, or no bracket is open and there is no `{null}`, or its lines are merged. */
  lemma {:induction false} PromiseExact(s: bytes, lib: JsonLib)
    requires Viable(s) && PrintsJson(lib)
    ensures IsJson(FixJSON(s, lib)) || FixJSON(s, lib) == s <==>
              || StopsWell(Scan(s, START))
              || (Scan(s, START).stack == [] && !Contains(s, BRACED_NULL))
              || Merges(Repaired(s), lib)
  {
    TruncatedExact(s);
    ViablePrepared(s);
    FixExact(s, lib);
    MergeCases(Repaired(s), lib);
    ViableNulls(s, START);
  }

  /** `["ab` and `["ab]`, as bytes. */
  const CUT_STRING: bytes := [OPEN_BRACKET, QUOTE, 97, 98]
  const CLOSED_STRING: bytes := [OPEN_BRACKET, QUOTE, 97, 98, CLOSE_BRACKET]

  /** A text that stops inside a string comes back with a bracket in the string: neither JSON nor the input. */
  lemma {:induction false} StringAtTheEnd(lib: JsonLib)
    ensures FixJSON(CUT_STRING, lib) == CLOSED_STRING && !IsJson(CLOSED_STRING)
  {
    CutStringScan();
    TruncatedExact(CUT_STRING);
    CutStringClosed();
    NoBraces(CUT_STRING);
    NullsFixed(CUT_STRING);
    OneLine(CUT_STRING, lib);
    MergeCases(Repaired(CUT_STRING), lib);
  }

  lemma {:induction false} CutStringClosed()
    ensures CloseBrackets(CUT_STRING) == CLOSED_STRING
  {
    CutStringScan();
    ScanBrackets(CUT_STRING, START);
    assert Closing([Arr]) == [CLOSE_BRACKET];
    ReverseFirst(CLOSE_BRACKET, []);
    assert [CLOSE_BRACKET] + [] == [CLOSE_BRACKET];
  }

  lemma {:induction false} CutStringScan()
    ensures Scan(CUT_STRING, START) == At(InString(false, Plain), [Arr])
  {
    var s := CUT_STRING;
    assert s[1..][1..] == [97, 98];
    assert [] + [Arr] == [Arr];
    assert Scan(s, START) == Scan(s[1..], At(FirstItem, [Arr])) == Scan(s[1..][1..], At(InString(false, Plain), [Arr]));
    PlainScan([97, 98], false, [Arr]);
  }

  // ---------- Good texts, and repairing twice ----------

  /** A JSON text, however deep it nests, stays JSON, and only `{null}` in its strings changes unless its lines are merged. */
  lemma {:induction false} GoodAnyDepth(s: bytes, lib: JsonLib)
    requires IsJson(s)
    ensures Repaired(s) == FixNullBraces(s) && IsJson(FixNullBraces(s))
    ensures !Merges(FixNullBraces(s), lib) ==> FixJSON(s, lib) == FixNullBraces(s)
    ensures !Merges(FixNullBraces(s), lib) ==> (FixJSON(s, lib) == s <==> !Contains(s, BRACED_NULL))
  {
    var t := FixNullBraces(s);
    AcceptsExactly(s);
    ViableNulls(s, START);
    AcceptsExactly(t);
    TruncatedExact(s);
    ScanBrackets(t, START);
    assert t + [] == t;
    MergeCases(t, lib);
    NullsFixed(s);
  }

  /** `{{null}}`, as bytes. */
  const TWICE_BRACED: bytes := [OPEN_BRACE] + BRACED_NULL + [CLOSE_BRACE]

  /** Bytes other than `n` and braces come from where they are. */
  lemma {:induction false} LettersKept(s: bytes, word: bytes)
    requires StartsWith(FixNullBraces(s), word) && LETTER_N !in word && OPEN_BRACE !in word
    ensures StartsWith(s, word)
  {
    if word == [] {
    } else {
      assert FixNullBraces(s)[..|word|][0] == word[0];
      assert FixNullBraces(s)[1..] == FixNullBraces(s[1..]);
      assert FixNullBraces(s[1..])[..|word| - 1] == FixNullBraces(s)[..|word|][1..] == word[1..];
      LettersKept(s[1..], word[1..]);
      assert s[..|word|] == [s[0]] + s[1..][..|word| - 1];
      Uncons(word);
    }
  }

  /** `{null}` comes out of the null pass where `{{null}}` went in. */
  lemma {:induction false} NullAgainHere(s: bytes)
    requires s != [] && !StartsWith(s, BRACED_NULL)
    ensures StartsWith(FixNullBraces(s), BRACED_NULL) <==> StartsWith(s, TWICE_BRACED)
  {
    InnerBraces(s);
    if StartsWith(s[1..], BRACED_NULL) {
      AfterNull(s);
    } else if StartsWith([s[0]] + FixNullBraces(s[1..]), BRACED_NULL) {
      NullWord(s);
    }
  }

  lemma {:induction false} InnerBraces(s: bytes)
    ensures StartsWith(s, TWICE_BRACED) ==> StartsWith(s[1..], BRACED_NULL)
  {
    if StartsWith(s, TWICE_BRACED) {
      assert s[1..][..6] == s[..8][1..7];
    }
  }

  lemma {:induction false} AfterNull(s: bytes)
    requires s != [] && StartsWith(s[1..], BRACED_NULL) && !StartsWith(s, BRACED_NULL)
    ensures StartsWith(FixNullBraces(s), BRACED_NULL) <==> StartsWith(s, TWICE_BRACED)
  {
    var r, u := s[1..], s[1..][6..];
    var g := FixNullBraces(u);
    assert FixNullBraces(r) == NULL + g;
    assert FixNullBraces(s) == [s[0]] + (NULL + g);
    assert r == BRACED_NULL + u && s == [s[0]] + (BRACED_NULL + u);
    BracesAround(s[0], g, u);
    if g != [] && g[0] == CLOSE_BRACE {
      assert g[..1] == [CLOSE_BRACE];
      LettersKept(u, [CLOSE_BRACE]);
      assert u[..1] == [CLOSE_BRACE];
    }
  }

  lemma {:induction false} BracesAround(b: byte, g: bytes, u: bytes)
    ensures StartsWith([b] + (NULL + g), BRACED_NULL) <==> b == OPEN_BRACE && g != [] && g[0] == CLOSE_BRACE
    ensures StartsWith([b] + (BRACED_NULL + u), TWICE_BRACED) <==> b == OPEN_BRACE && u != [] && u[0] == CLOSE_BRACE
  {
    Between(b, NULL, g, BRACED_NULL);
    Between(b, BRACED_NULL, u, TWICE_BRACED);
  }

  /** A pattern of two braces around something. */
  lemma {:induction false} Between(b: byte, mid: bytes, t: bytes, pattern: bytes)
    requires pattern == [OPEN_BRACE] + mid + [CLOSE_BRACE]
    ensures StartsWith([b] + (mid + t), pattern) <==> b == OPEN_BRACE && t != [] && t[0] == CLOSE_BRACE
  {
    var s, n := [b] + (mid + t), |mid|;
    if t != [] {
      assert s[..n + 2] == [b] + mid + [t[0]];
      assert s[..n + 2][0] == b && s[..n + 2][n + 1] == t[0];
      assert pattern[0] == OPEN_BRACE && pattern[n + 1] == CLOSE_BRACE;
    }
  }

  /** The null pass makes no `null}` out of anything else. */
  lemma {:induction false} NullWord(s: bytes)
    requires s != [] && !StartsWith(s[1..], BRACED_NULL) && StartsWith([s[0]] + FixNullBraces(s[1..]), BRACED_NULL)
    ensures StartsWith(s, BRACED_NULL)
  {
    var r := s[1..];
    var f := [s[0]] + FixNullBraces(r);
    assert f[..6] == BRACED_NULL;
    assert f[0] == OPEN_BRACE && f[1] == LETTER_N && f[1..] == FixNullBraces(r);
    assert r != [] && r[0] == LETTER_N && f[2..] == FixNullBraces(r[1..]);
    assert FixNullBraces(r[1..])[..4] == f[..6][2..] == [117, 108, 108, 125];
    LettersKept(r[1..], [117, 108, 108, 125]);
    assert s[..6] == [s[0]] + ([r[0]] + r[1..][..4]);
  }

  lemma {:induction false} NullAgain(s: bytes)
    ensures Contains(FixNullBraces(s), BRACED_NULL) <==> Contains(s, TWICE_BRACED)
  {
    var f := FixNullBraces(s);
    if s == [] {
    } else if StartsWith(s, BRACED_NULL) {
      NullAgain(s[6..]);
      assert f == NULL + FixNullBraces(s[6..]) && s == BRACED_NULL + s[6..];
      PassedNull(FixNullBraces(s[6..]), s[6..]);
    } else {
      NullAgain(s[1..]);
      NullAgainHere(s);
      FirstOrLater(f, BRACED_NULL);
      FirstOrLater(s, TWICE_BRACED);
      assert f[1..] == FixNullBraces(s[1..]);
    }
  }

  /** Nothing starts in the part of the text that the null pass has just dealt with. */
  lemma {:induction false} PassedNull(g: bytes, u: bytes)
    ensures Contains(NULL + g, BRACED_NULL) <==> Contains(g, BRACED_NULL)
    ensures Contains(BRACED_NULL + u, TWICE_BRACED) <==> Contains(u, TWICE_BRACED)
  {
    var f, s := NULL + g, BRACED_NULL + u;
    forall i | 0 <= i < 4
      ensures !StartsWith(f[i..], BRACED_NULL)
    {
      assert f[i..] != [] && f[i..][0] == NULL[i];
      Differs(f[i..], BRACED_NULL, 0);
    }
    NotBefore(f, 4, BRACED_NULL);
    forall i | 0 <= i < 6
      ensures !StartsWith(s[i..], TWICE_BRACED)
    {
      assert s[i..][0] == BRACED_NULL[i] && (i < 5 ==> s[i..][1] == BRACED_NULL[i + 1]);
      Differs(s[i..], TWICE_BRACED, if i == 0 then 1 else 0);
    }
    NotBefore(s, 6, TWICE_BRACED);
    assert f[4..] == g && s[6..] == u;
  }

  lemma {:induction false} Differs(s: bytes, pattern: bytes, j: nat)
    requires j < |s| && j < |pattern| && s[j] != pattern[j]
    ensures !StartsWith(s, pattern)
  {
    if |pattern| <= |s| {
      assert s[..|pattern|][j] == s[j];
    }
  }

  lemma {:induction false} FirstOrLater(s: bytes, pattern: bytes)
    requires s != []
    ensures Contains(s, pattern) <==> StartsWith(s, pattern) || Contains(s[1..], pattern)
  {
    assert StartsWith(s, pattern) <==> OccursAt(s, 0, pattern);
    OccursLater(s, pattern);
    if i :| OccursAt(s[1..], i, pattern) {
      assert OccursAt(s, i + 1, pattern);
    }
  }

  lemma {:induction false} NotBefore(s: bytes, n: nat, pattern: bytes)
    requires n <= |s| && forall i :: 0 <= i < n ==> !StartsWith(s[i..], pattern)
    ensures Contains(s, pattern) <==> Contains(s[n..], pattern)
  {
    if n == 0 {
      assert s[0..] == s;
    } else {
      assert s[0..] == s;
      FirstOrLater(s, pattern);
      assert forall i :: 0 <= i < n - 1 ==> s[1..][i..] == s[i + 1..];
      NotBefore(s[1..], n - 1, pattern);
      assert s[1..][n - 1..] == s[n..];
    }
  }

  /** On JSON texts a second repair changes nothing if and only if `{{null}}` does not occur, whatever the depth. */
  lemma {:induction false} TwiceExact(s: bytes, lib: JsonLib)
    requires IsJson(s) && NEWLINE !in s
    ensures FixJSON(FixJSON(s, lib), lib) == FixJSON(s, lib) <==> !Contains(s, TWICE_BRACED)
  {
    var t := FixNullBraces(s);
    OneLine(s, lib);
    GoodAnyDepth(s, lib);
    NullMembers(s);
    OneLine(t, lib);
    GoodAnyDepth(t, lib);
    NullAgain(s);
  }

  /** `"{{null}}"`: a JSON text that a second repair changes. */
  lemma {:induction false} TwiceInput(lib: JsonLib)
    ensures var s := [QUOTE] + TWICE_BRACED + [QUOTE];
            IsJson(s) && FixJSON(FixJSON(s, lib), lib) != FixJSON(s, lib)
  {
    var s := [QUOTE] + TWICE_BRACED + [QUOTE];
    PlainScan(TWICE_BRACED, false, []);
    ScanConcat(TWICE_BRACED, [QUOTE], At(InString(false, Plain), []));
    assert s[1..] == TWICE_BRACED + [QUOTE];
    assert [QUOTE][1..] == [];
    assert Scan([QUOTE], At(InString(false, Plain), [])) == At(AfterValue, []);
    AcceptsExactly(s);
    assert s[1..9] == TWICE_BRACED && OccursAt(s, 1, TWICE_BRACED);
    TwiceExact(s, lib);
  }
}
