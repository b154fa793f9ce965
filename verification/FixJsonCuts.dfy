/** Damaged texts that stop between elements: after an element, a comma, a key or a colon. */
module FixJsonCuts {
  import opened Bytes
  import opened JsonSyntax
  import opened JsonScan
  import opened FixJson
  import opened JsonDamage
  import opened FixJsonTokens
  import opened FixJsonRepair
  import opened FixJsonTheorems
  import opened FixJsonExact

  /** The comma pass only takes away what no JSON text has. */
  lemma {:induction false} StrayNotJson(s: bytes)
    ensures DropCommas(s, Out) != s ==> !IsJson(s)
  {
    if IsJson(s) {
      AcceptsExactly(s);
      ViableCommas(s, START);
    }
  }

  // ---------- Where a text stops ----------

  /** What follows the last complete element or the opening bracket. */
  datatype Stop = AtElement | AtComma(ws: bytes) | AtKey(tag: Tag) | AtColon(tag: Tag, ws: bytes)

  /** The innermost open container, and whether it is empty so far. */
  function InnerKind(p: Partial): Option<Kind> {
    match p
    case Whole(_, _) => None
    case Opened(k, _) => Some(k)
    case Inside(k, _, _, _, inner) => if inner.Whole? then Some(k) else InnerKind(inner)
  }

  predicate IsEmpty(p: Partial) {
    p.Opened? || (p.Inside? && IsEmpty(p.inner))
  }

  function Lead(p: Partial, rest: Tokens): Tokens {
    if IsEmpty(p) then rest else Then(Comma, rest)
  }

  function StopTokens(p: Partial, stop: Stop): Tokens {
    match stop
    case AtElement => End
    case AtComma(ws) => Then(Comma, Then(Space(ws), End))
    case AtKey(t) => Lead(p, KeyTokens(t, End))
    case AtColon(t, ws) => Lead(p, KeyTokens(t, Then(Colon, Then(Space(ws), End))))
  }

  function CutText(pre: bytes, p: Partial, q: byte, stop: Stop): bytes {
    Text(Then(Space(pre), PartialTokens(p, StopTokens(p, stop))), q)
  }

  predicate StopOk(p: Partial, stop: Stop, q: byte) {
    match stop
    case AtElement => true
    case AtComma(ws) => AllWs(ws)
    case AtKey(t) => InnerKind(p) == Some(Obj) && TagOk(Some(t), Obj, q)
    case AtColon(t, ws) => InnerKind(p) == Some(Obj) && TagOk(Some(t), Obj, q) && AllWs(ws)
  }

  predicate CutOk(pre: bytes, p: Partial, q: byte, stop: Stop) {
    AllWs(pre) && PartialOk(p, q) && IsQuoteMark(q) && StopOk(p, stop, q)
  }

  function CleanKey(t: Tag): Tag {
    t.(key := CleanBody(t.key))
  }

  function CleanStop(stop: Stop): Stop {
    match stop
    case AtKey(t) => AtKey(CleanKey(t))
    case AtColon(t, ws) => AtColon(CleanKey(t), ws)
    case _ => stop
  }

  lemma {:induction false} CleanShape(p: Partial)
    ensures InnerKind(CleanPartial(p)) == InnerKind(p) && IsEmpty(CleanPartial(p)) == IsEmpty(p)
  {
    if p.Inside? {
      CleanShape(p.inner);
    }
  }

  // ---------- What the passes make of it ----------

  /** The tokens at the end are in order, and they open and close nothing. */
  ghost predicate TailOk(ts: Tokens, clean: Tokens, q: byte) {
    && RawOk(ts, q)
    && Repair(ts) == clean && !CloserAhead(ts)
    && forall stack :: Due(clean, stack) == stack
  }

  ghost predicate TailSafe(ts: Tokens, q: byte) {
    NullSafe(ts, q) && (Text(ts, q) == [] || Text(ts, q)[0] != LETTER_N)
  }

  lemma {:induction false} SpaceEnd(ws: bytes, q: byte)
    requires AllWs(ws)
    ensures TailOk(Then(Space(ws), End), Then(Space(ws), End), q) && TailSafe(Then(Space(ws), End), q)
  {
    EndText(q);
    WsNoN(ws, Text(End, q));
    assert forall stack :: Due(End, stack) == stack;
  }

  lemma {:induction false} KeyEnd(t: Tag, rest: Tokens, clean: Tokens, q: byte)
    requires TagOk(Some(t), Obj, q) && IsQuoteMark(q) && TailOk(rest, clean, q) && TailSafe(rest, q)
    ensures TailOk(KeyTokens(t, rest), KeyTokens(CleanKey(t), clean), q) && TailSafe(KeyTokens(t, rest), q)
  {
    var mid, cleanMid := Then(Space(t.mid), rest), Then(Space(t.mid), clean);
    assert RawOk(mid, q) && NullSafe(mid, q) && Repair(mid) == cleanMid;
    assert forall stack :: Due(cleanMid, stack) == stack;
    var key, cleanKey := Then(Quoted(t.key), mid), Then(Quoted(CleanBody(t.key)), cleanMid);
    assert RawOk(key, q) && NullSafe(key, q) && Repair(key) == cleanKey && !CloserAhead(key);
    assert forall stack :: Due(cleanKey, stack) == stack;
    assert Text(key, q)[0] == q;
    WsNoN(t.pre, Text(key, q));
  }

  lemma {:induction false} PunctuationEnd(t: Token, rest: Tokens, clean: Tokens, q: byte)
    requires (t.Comma? || t.Colon?) && TailOk(rest, clean, q) && TailSafe(rest, q)
    ensures TailOk(Then(t, rest), Then(t, clean), q) && TailSafe(Then(t, rest), q)
  {}

  lemma {:induction false} StopEnd(p: Partial, stop: Stop, q: byte)
    requires StopOk(p, stop, q) && IsQuoteMark(q)
    ensures TailOk(StopTokens(p, stop), StopTokens(CleanPartial(p), CleanStop(stop)), q)
    ensures TailSafe(StopTokens(p, stop), q)
  {
    CleanShape(p);
    EndText(q);
    assert TailOk(End, End, q);
    match stop
    case AtElement =>
    case AtComma(ws) =>
      SpaceEnd(ws, q);
      PunctuationEnd(Comma, Then(Space(ws), End), Then(Space(ws), End), q);
    case AtKey(t) =>
      KeyEnd(t, End, End, q);
      PunctuationEnd(Comma, KeyTokens(t, End), KeyTokens(CleanKey(t), End), q);
    case AtColon(t, ws) =>
      var space := Then(Space(ws), End);
      SpaceEnd(ws, q);
      PunctuationEnd(Colon, space, space, q);
      KeyEnd(t, Then(Colon, space), Then(Colon, space), q);
      PunctuationEnd(Comma, KeyTokens(t, Then(Colon, space)), KeyTokens(CleanKey(t), Then(Colon, space)), q);
  }

  lemma {:induction false} CutRepaired(pre: bytes, p: Partial, q: byte, stop: Stop)
    requires CutOk(pre, p, q, stop)
    ensures var clean := CutText(pre, CleanPartial(p), QUOTE, CleanStop(stop));
            && Prepared(CutText(pre, p, q, stop)) == clean
            && Repaired(CutText(pre, p, q, stop)) == clean + Reverse(Missing(CleanPartial(p)))
  {
    var tail := StopTokens(p, stop);
    var all := Then(Space(pre), PartialTokens(p, tail));
    StopEnd(p, stop, q);
    PartialSafe(p, tail, q);
    assert RawOk(all, q) && NullSafe(all, q);
    PartialFirst(p, tail, q);
    StripNothing(pre, Text(PartialTokens(p, tail), q));
    NullPass(all, q);
    PassesText(all, q);
    RepairPartial(p, tail);
    PartialDue(CleanPartial(p), Repair(tail), []);
    assert [] + Missing(CleanPartial(p)) == Missing(CleanPartial(p));
  }

  // ---------- What the scanner makes of it ----------

  function OpenKinds(p: Partial): seq<Kind> {
    match p
    case Whole(_, _) => []
    case Opened(k, _) => [k]
    case Inside(k, _, _, _, inner) => [k] + OpenKinds(inner)
  }

  function StopMode(p: Partial): Mode {
    if IsEmpty(p) && InnerKind(p).Some? then First(InnerKind(p).value) else AfterValue
  }

  lemma {:induction false} OpenInner(p: Partial)
    ensures p.Whole? <==> OpenKinds(p) == []
    ensures !p.Whole? ==> InnerKind(p) == Some(OpenKinds(p)[|OpenKinds(p)| - 1])
  {
    if p.Inside? {
      OpenInner(p.inner);
    }
  }

  lemma {:induction false} PartialScan(p: Partial, rest: Tokens, m: Mode, stack: seq<Kind>) returns (end: State)
    requires Pristine(Complete(p)) && AllWs(After(p)) && NeedsValue(m)
    ensures HasRead(end, StopMode(p), stack + OpenKinds(p))
    ensures Scan(Text(PartialTokens(p, rest), QUOTE), At(m, stack)) == Scan(Text(rest, QUOTE), end)
  {
    match p
    case Whole(v, post) =>
      var done := ValueScan(v, Then(Space(post), rest), m, stack);
      SpaceScan(post, done, AfterValue, stack);
      ThenScan(Space(post), rest, done);
      end := Scan(post, done);
      assert stack + [] == stack;
    case Opened(k, gap) =>
      OpenScan(k, Then(Space(gap), rest), m, stack);
      end := At(First(k), stack + [k]);
      SpaceScan(gap, end, First(k), stack + [k]);
      ThenScan(Space(gap), rest, end);
    case Inside(k, before, tag, pre, inner) =>
      var value := InsideScan(k, before, tag, pre, PartialTokens(inner, rest), m, stack);
      end := PartialScan(inner, rest, value, stack + [k]);
      Associative(stack, [k], OpenKinds(inner));
      StopModeInside(k, before, tag, pre, inner);
  }

  lemma {:induction false} StopModeInside(k: Kind, before: Items, tag: Option<Tag>, pre: bytes, inner: Partial)
    ensures StopMode(Inside(k, before, tag, pre, inner)) == StopMode(inner)
  {
    if inner.Whole? {
      assert !IsEmpty(Inside(k, before, tag, pre, inner));
    }
  }

  /** The start of a container, up to the item that stops early. */
  lemma {:induction false} InsideScan(k: Kind, before: Items, tag: Option<Tag>, pre: bytes, rest: Tokens, m: Mode, stack: seq<Kind>)
      returns (value: Mode)
    requires ItemsPristine(before, k) && TagPristine(tag, k) && AllWs(pre) && NeedsValue(m)
    ensures NeedsValue(value)
    ensures Scan(Text(Then(Open(k), ItemsTokens(before, TagTokens(tag, Then(Space(pre), rest)))), QUOTE), At(m, stack))
         == Scan(Text(rest, QUOTE), At(value, stack + [k]))
  {
    var last := Then(Space(pre), rest);
    OpenScan(k, ItemsTokens(before, TagTokens(tag, last)), m, stack);
    var start := ItemsScan(before, k, TagTokens(tag, last), First(k), stack + [k]);
    value := TagScan(tag, k, last, start, stack + [k]);
    SpaceScan(pre, At(value, stack + [k]), value, stack + [k]);
    ThenScan(Space(pre), rest, At(value, stack + [k]));
  }

  /** A comma, where the scanner can take one. */
  lemma {:induction false} CommaScan(rest: Tokens, st: State, m: Mode, stack: seq<Kind>)
    requires HasRead(st, m, stack)
    ensures Scan(Text(Then(Comma, rest), QUOTE), st) == Scan(Text(rest, QUOTE), StructureStep(m, stack, COMMA))
  {
    ByteScan([], Comma, COMMA, rest, st, m, stack);
    EmptySpaceText(Then(Comma, rest), QUOTE);
  }

  lemma {:induction false} SpaceEndScan(ws: bytes, st: State)
    requires AllWs(ws) && (st.Stuck? || HasRead(st, st.mode, st.stack))
    ensures Scan(Text(Then(Space(ws), End), QUOTE), st) == st
  {
    assert Text(End, QUOTE) == [];
    assert Text(Then(Space(ws), End), QUOTE) == ws;
    if st.Stuck? {
      StuckStays(ws);
    } else {
      SpaceScan(ws, st, st.mode, st.stack);
    }
  }

  /** Where a key is due, a key, and after a key a colon. */
  lemma {:induction false} KeyEndScan(p: Partial, t: Tag, rest: Tokens, st: State, stack: seq<Kind>)
    requires AllWs(t.pre) && AllWs(t.mid) && IsBody(t.key)
    requires HasRead(st, StopMode(p), stack) && InnerKind(p) == Some(Obj) && stack != [] && stack[|stack| - 1] == Obj
    ensures Scan(Text(Lead(p, KeyTokens(t, rest)), QUOTE), st) == Scan(Text(rest, QUOTE), At(NeedColon, stack))
  {
    if IsEmpty(p) {
      KeyScan(t, rest, FirstKey, stack);
    } else {
      CommaScan(KeyTokens(t, rest), st, AfterValue, stack);
      KeyScan(t, rest, NeedKey, stack);
    }
  }

  predicate StopPristine(p: Partial, stop: Stop) {
    match stop
    case AtElement => true
    case AtComma(ws) => AllWs(ws)
    case AtKey(t) => InnerKind(p) == Some(Obj) && TagPristine(Some(t), Obj)
    case AtColon(t, ws) => InnerKind(p) == Some(Obj) && TagPristine(Some(t), Obj) && AllWs(ws)
  }

  /** What the scanner makes of the end. */
  lemma {:induction false} StopScan(p: Partial, stop: Stop, st: State, stack: seq<Kind>)
    requires StopPristine(p, stop) && HasRead(st, StopMode(p), stack)
    requires InnerKind(p) == (if stack == [] then None else Some(stack[|stack| - 1]))
    ensures StopsWell(Scan(Text(StopTokens(p, stop), QUOTE), st)) <==> stop.AtElement?
  {
    assert Text(End, QUOTE) == [];
    match stop
    case AtElement =>
    case AtComma(ws) =>
      var next := StructureStep(StopMode(p), stack, COMMA);
      CommaScan(Then(Space(ws), End), st, StopMode(p), stack);
      SpaceEndScan(ws, next);
    case AtKey(t) =>
      KeyEndScan(p, t, End, st, stack);
    case AtColon(t, ws) =>
      KeyEndScan(p, t, Then(Colon, Then(Space(ws), End)), st, stack);
      ColonEndScan(ws, stack);
  }

  lemma {:induction false} ColonEndScan(ws: bytes, stack: seq<Kind>)
    requires AllWs(ws)
    ensures Scan(Text(Then(Colon, Then(Space(ws), End)), QUOTE), At(NeedColon, stack)) == At(NeedValue, stack)
  {
    var space := Then(Space(ws), End);
    ByteScan([], Colon, COLON, space, At(NeedColon, stack), NeedColon, stack);
    EmptySpaceText(Then(Colon, space), QUOTE);
    SpaceEndScan(ws, At(NeedValue, stack));
  }

  /** Main result: the passes turn a damaged text that stops between elements into JSON if and only if it stops after an
      element or an opening bracket. */
  lemma {:induction false} CutExact(pre: bytes, p: Partial, q: byte, stop: Stop)
    requires CutOk(pre, p, q, stop)
    ensures IsJson(Repaired(CutText(pre, p, q, stop))) <==> stop.AtElement?
  {
    var clean, end := CleanPartial(p), CleanStop(stop);
    CutRepaired(pre, p, q, stop);
    ClosedExact(CutText(pre, clean, QUOTE, end));
    CompletePristine(p, q);
    CleanShape(p);
    CutScan(pre, clean, end);
  }

  lemma {:induction false} CutScan(pre: bytes, p: Partial, stop: Stop)
    requires AllWs(pre) && Pristine(Complete(p)) && AllWs(After(p)) && StopPristine(p, stop)
    ensures StopsWell(Scan(CutText(pre, p, QUOTE, stop), START)) <==> stop.AtElement?
  {
    var tail := StopTokens(p, stop);
    OpenInner(p);
    SpaceScan(pre, START, NeedValue, []);
    ThenScan(Space(pre), PartialTokens(p, tail), START);
    var st := PartialScan(p, tail, NeedValue, []);
    assert [] + OpenKinds(p) == OpenKinds(p);
    StopScan(p, stop, st, OpenKinds(p));
  }

  // ---------- The promise ----------

  /** A damaged text in an open container comes out as JSON or as it was if and only if it stops after an element or an opening
      bracket. On one line that is the result of the whole pipeline. */
  lemma {:induction false} CutPromise(pre: bytes, p: Partial, q: byte, stop: Stop, lib: JsonLib)
    requires CutOk(pre, p, q, stop) && !p.Whole?
    ensures var s := CutText(pre, p, q, stop);
            && (IsJson(Repaired(s)) || Repaired(s) == s <==> stop.AtElement?)
            && (NEWLINE !in s ==> FixJSON(s, lib) == Repaired(s))
  {
    var s := CutText(pre, p, q, stop);
    CutExact(pre, p, q, stop);
    CutRepaired(pre, p, q, stop);
    LastClosed(CleanPartial(p));
    if stop != AtElement {
      StopLast(pre, p, q, stop);
    }
    if NEWLINE !in s {
      OneLine(s, lib);
      MergeCases(Repaired(s), lib);
    }
  }

  lemma {:induction false} LastClosed(p: Partial)
    requires !p.Whole?
    ensures var r := Reverse(Missing(p)); r != [] && IsCloser(r[|r| - 1])
  {
    var m := Missing(p);
    ReverseFirst(m[0], m[1..]);
    Uncons(m);
  }

  lemma {:induction false} StopLast(pre: bytes, p: Partial, q: byte, stop: Stop)
    requires StopOk(p, stop, q) && stop != AtElement && IsQuoteMark(q)
    ensures var s := CutText(pre, p, q, stop); s != [] && !IsCloser(s[|s| - 1])
  {
    var tail := StopTokens(p, stop);
    TokensLast(p, stop, q);
    PartialAppend(p, End, tail);
    AppendText(PartialTokens(p, End), tail, q);
    SameLast(pre, Text(PartialTokens(p, End), q), Text(tail, q));
  }

  lemma {:induction false} SameLast(a: bytes, b: bytes, c: bytes)
    requires c != []
    ensures var s := a + (b + c); s != [] && s[|s| - 1] == c[|c| - 1]
  {}

  /** The text does not end with a closing bracket. */
  predicate EndsOpen(ts: Tokens, q: byte) {
    var s := Text(ts, q); s != [] && !IsCloser(s[|s| - 1])
  }

  lemma {:induction false} EndsLater(t: Token, rest: Tokens, q: byte)
    requires EndsOpen(rest, q)
    ensures EndsOpen(Then(t, rest), q)
  {}

  lemma {:induction false} EndsWithSpace(t: Token, ws: bytes, q: byte)
    requires AllWs(ws) && (t.Comma? || t.Colon? || t.Quoted?) && IsQuoteMark(q)
    ensures EndsOpen(Then(t, Then(Space(ws), End)), q)
  {
    EndText(q);
    assert Text(Then(Space(ws), End), q) == ws;
    if ws != [] {
      assert ws[|ws| - 1] in ws;
    }
  }

  lemma {:induction false} TokensLast(p: Partial, stop: Stop, q: byte)
    requires StopOk(p, stop, q) && stop != AtElement && IsQuoteMark(q)
    ensures EndsOpen(StopTokens(p, stop), q)
  {
    match stop
    case AtComma(ws) =>
      EndsWithSpace(Comma, ws, q);
    case AtKey(t) =>
      EndsWithSpace(Quoted(t.key), t.mid, q);
      EndsLater(Space(t.pre), Then(Quoted(t.key), Then(Space(t.mid), End)), q);
      EndsLater(Comma, KeyTokens(t, End), q);
    case AtColon(t, ws) =>
      var colon := Then(Colon, Then(Space(ws), End));
      EndsWithSpace(Colon, ws, q);
      EndsLater(Space(t.mid), colon, q);
      EndsLater(Quoted(t.key), Then(Space(t.mid), colon), q);
      EndsLater(Space(t.pre), Then(Quoted(t.key), Then(Space(t.mid), colon)), q);
      EndsLater(Comma, KeyTokens(t, colon), q);
  }
}
