/** JSON texts read from left to right: a scanner with a stack that accepts exactly the texts of the grammar. Where a text
    stops early, the scanner's state says what it stops after. */
module JsonScan {
  import opened Bytes
  import opened JsonSyntax

  // ---------- The scanner ----------

  /** Where the scanner is inside a string: between characters, after a backslash, or in a `\u` escape. */
  datatype StringMode = Plain | Escape | Hex(left: nat)

  datatype Mode =
    | NeedValue
    | FirstItem
    | FirstKey
    | NeedKey
    | NeedColon
    | AfterValue
    | InBare(run: bytes)
    | InString(isKey: bool, at: StringMode)

  /** The mode and the open containers, outermost first; or no JSON text starts like this. */
  datatype State = Stuck | At(mode: Mode, stack: seq<Kind>)

  const START := At(NeedValue, [])

  predicate NeedsValue(m: Mode) {
    m.NeedValue? || m.FirstItem?
  }

  predicate NeedsKey(m: Mode) {
    m.NeedKey? || m.FirstKey?
  }

  /** A closing bracket may come: the container is empty so far, or its last item is complete. */
  predicate CanClose(m: Mode, stack: seq<Kind>) {
    || m.AfterValue?
    || (stack != [] && m == First(stack[|stack| - 1]))
  }

  function First(k: Kind): Mode {
    if k.Arr? then FirstItem else FirstKey
  }

  function Needed(k: Kind): Mode {
    if k.Arr? then NeedValue else NeedKey
  }

  /** The end of a literal or a number. */
  function Settle(st: State): State {
    if st.At? && st.mode.InBare? then
      if IsScalar(st.mode.run) then At(AfterValue, st.stack) else Stuck
    else st
  }

  function StringStep(isKey: bool, at: StringMode, stack: seq<Kind>, b: byte): State {
    match at
    case Plain =>
      if b == QUOTE then At(if isKey then NeedColon else AfterValue, stack)
      else if b == BACKSLASH then At(InString(isKey, Escape), stack)
      else if b < 32 then Stuck
      else At(InString(isKey, Plain), stack)
    case Escape =>
      if IsEscape(b) then At(InString(isKey, Plain), stack)
      else if b == 117 then At(InString(isKey, Hex(4)), stack)
      else Stuck
    case Hex(left) =>
      if IsHexDigit(b) && left > 0 then At(InString(isKey, if left > 1 then Hex(left - 1) else Plain), stack) else Stuck
  }

  /** A byte that is part of no string, literal or number. */
  function StructureStep(m: Mode, stack: seq<Kind>, b: byte): State {
    if IsWs(b) then At(m, stack)
    else if b == QUOTE && (NeedsValue(m) || NeedsKey(m)) then At(InString(NeedsKey(m), Plain), stack)
    else if b == OPEN_BRACKET && NeedsValue(m) then At(FirstItem, stack + [Arr])
    else if b == OPEN_BRACE && NeedsValue(m) then At(FirstKey, stack + [Obj])
    else if stack != [] && b == CloseByte(stack[|stack| - 1]) && CanClose(m, stack) then At(AfterValue, stack[..|stack| - 1])
    else if b == COMMA && m.AfterValue? && stack != [] then At(Needed(stack[|stack| - 1]), stack)
    else if b == COLON && m.NeedColon? then At(NeedValue, stack)
    else Stuck
  }

  function Step(st: State, b: byte): State {
    match st
    case Stuck => Stuck
    case At(InString(isKey, at), stack) => StringStep(isKey, at, stack, b)
    case At(m, stack) =>
      if IsScalarByte(b) then
        if m.InBare? then At(InBare(m.run + [b]), stack)
        else if NeedsValue(m) then At(InBare([b]), stack)
        else Stuck
      else if Settle(st).Stuck? then Stuck
      else StructureStep(Settle(st).mode, stack, b)
  }

  function Scan(s: bytes, st: State): State {
    if s == [] then st else Scan(s[1..], Step(st, s[0]))
  }

  /** The text is over: one value has been read and no container is open. */
  predicate IsFinal(st: State) {
    Settle(st) == At(AfterValue, [])
  }

  predicate Accepts(s: bytes) {
    IsFinal(Scan(s, START))
  }

  lemma {:induction false} ScanConcat(a: bytes, b: bytes, st: State)
    ensures Scan(a + b, st) == Scan(b, Scan(a, st))
  {
    if a == [] {
      assert a + b == b;
    } else {
      assert (a + b)[1..] == a[1..] + b && (a + b)[0] == a[0];
      ScanConcat(a[1..], b, Step(st, a[0]));
    }
  }

  lemma {:induction false} StuckStays(s: bytes)
    ensures Scan(s, Stuck) == Stuck
  {
    if s == [] {
    } else {
      StuckStays(s[1..]);
    }
  }

  // ---------- Every JSON text is accepted ----------

  /** The scanner has read a whole value, or is at the end of a literal or a number. */
  predicate HasRead(st: State, m: Mode, stack: seq<Kind>) {
    Settle(st) == At(m, stack) && !m.InString? && !m.InBare?
  }

  lemma {:induction false} ThenScan(t: Token, rest: Tokens, st: State)
    ensures Scan(Text(Then(t, rest), QUOTE), st) == Scan(Text(rest, QUOTE), Scan(TokenBytes(t, QUOTE), st))
  {
    ScanConcat(TokenBytes(t, QUOTE), Text(rest, QUOTE), st);
  }

  lemma {:induction false} SpaceScan(ws: bytes, st: State, m: Mode, stack: seq<Kind>)
    requires AllWs(ws) && HasRead(st, m, stack)
    ensures HasRead(Scan(ws, st), m, stack) && (!st.mode.InBare? ==> Scan(ws, st) == st)
  {
    if ws == [] {
    } else {
      assert IsWs(ws[0]);
      SpaceScan(ws[1..], Step(st, ws[0]), m, stack);
    }
  }

  /** After white space, one byte of structure. */
  lemma {:induction false} ByteScan(ws: bytes, t: Token, b: byte, rest: Tokens, st: State, m: Mode, stack: seq<Kind>)
    requires AllWs(ws) && HasRead(st, m, stack) && TokenBytes(t, QUOTE) == [b] && !IsScalarByte(b)
    ensures Scan(Text(Then(Space(ws), Then(t, rest)), QUOTE), st) == Scan(Text(rest, QUOTE), StructureStep(m, stack, b))
  {
    SpaceScan(ws, st, m, stack);
    ThenScan(Space(ws), Then(t, rest), st);
    ThenScan(t, rest, Scan(ws, st));
    assert [b][1..] == [];
    assert Scan([b], Scan(ws, st)) == Step(Scan(ws, st), b);
  }

  lemma {:induction false} RunScan(text: bytes, run: bytes, stack: seq<Kind>)
    requires forall b :: b in text ==> IsScalarByte(b)
    ensures Scan(text, At(InBare(run), stack)) == At(InBare(run + text), stack)
  {
    if text == [] {
      assert run + text == run;
    } else {
      assert text[0] in text;
      RunScan(text[1..], run + [text[0]], stack);
      assert run + [text[0]] + text[1..] == run + text;
    }
  }

  lemma {:induction false} BareScan(text: bytes, m: Mode, stack: seq<Kind>)
    requires IsScalar(text) && NeedsValue(m)
    ensures HasRead(Scan(text, At(m, stack)), AfterValue, stack)
  {
    ScalarBytes(text);
    assert text[0] in text;
    RunScan(text[1..], [text[0]], stack);
    Uncons(text);
  }

  lemma {:induction false} BodyScan(body: bytes, isKey: bool, stack: seq<Kind>)
    requires IsBody(body)
    ensures Scan(body, At(InString(isKey, Plain), stack)) == At(InString(isKey, Plain), stack)
  {
    var st := At(InString(isKey, Plain), stack);
    if body == [] {
    } else if body[0] != BACKSLASH {
      BodyScan(body[1..], isKey, stack);
    } else if |body| >= 2 && IsEscape(body[1]) && IsBody(body[2..]) {
      BodyScan(body[2..], isKey, stack);
      Unfold(body, 2, st);
    } else {
      BodyScan(body[6..], isKey, stack);
      Unfold(body, 6, st);
      HexScan(body[2..6], isKey, stack, 4);
    }
  }

  /** The first two bytes, and those up to the `n`-th. */
  lemma {:induction false} Unfold(s: bytes, n: nat, st: State)
    requires 2 <= n <= |s|
    ensures Scan(s, st) == Scan(s[n..], Scan(s[2..n], Step(Step(st, s[0]), s[1])))
  {
    assert s[1..][0] == s[1] && s[1..][1..] == s[2..];
    assert s[2..] == s[2..n] + s[n..];
    ScanConcat(s[2..n], s[n..], Step(Step(st, s[0]), s[1]));
  }

  lemma {:induction false} HexScan(s: bytes, isKey: bool, stack: seq<Kind>, left: nat)
    requires |s| == left > 0 && forall i :: 0 <= i < |s| ==> IsHexDigit(s[i])
    ensures Scan(s, At(InString(isKey, Hex(left)), stack)) == At(InString(isKey, Plain), stack)
  {
    if left > 1 {
      HexScan(s[1..], isKey, stack, left - 1);
    } else {
      assert s[1..] == [];
    }
  }

  /** A whole string token. */
  lemma {:induction false} QuotedScan(body: bytes, m: Mode, stack: seq<Kind>)
    requires IsBody(body) && (NeedsValue(m) || NeedsKey(m))
    ensures Scan(TokenBytes(Quoted(body), QUOTE), At(m, stack)) == At(if NeedsKey(m) then NeedColon else AfterValue, stack)
  {
    var inside := At(InString(NeedsKey(m), Plain), stack);
    BodyScan(body, NeedsKey(m), stack);
    ScanConcat(body, [QUOTE], inside);
    assert [QUOTE][1..] == [];
    assert Scan([QUOTE], inside) == Step(inside, QUOTE);
    var s := [QUOTE] + body + [QUOTE];
    assert s[0] == QUOTE && s[1..] == body + [QUOTE];
  }

  /** The end of a container. */
  lemma {:induction false} CloseScan(k: Kind, gap: bytes, rest: Tokens, st: State, m: Mode, stack: seq<Kind>)
    requires AllWs(gap) && HasRead(st, m, stack + [k]) && CanClose(m, stack + [k])
    ensures Scan(Text(Then(Space(gap), Then(Close(k), rest)), QUOTE), st) == Scan(Text(rest, QUOTE), At(AfterValue, stack))
  {
    ByteScan(gap, Close(k), CloseByte(k), rest, st, m, stack + [k]);
    assert (stack + [k])[..|stack|] == stack;
  }

  lemma {:induction false} OpenScan(k: Kind, rest: Tokens, m: Mode, stack: seq<Kind>)
    requires NeedsValue(m)
    ensures Scan(Text(Then(Open(k), rest), QUOTE), At(m, stack)) == Scan(Text(rest, QUOTE), At(First(k), stack + [k]))
  {
    ThenScan(Open(k), rest, At(m, stack));
    assert [OpenByte(k)][1..] == [];
    assert Scan([OpenByte(k)], At(m, stack)) == Step(At(m, stack), OpenByte(k));
  }

  lemma {:induction false} ValueScan(v: Value, rest: Tokens, m: Mode, stack: seq<Kind>) returns (end: State)
    requires Pristine(v) && NeedsValue(m)
    ensures HasRead(end, AfterValue, stack)
    ensures Scan(Text(ValueTokens(v, rest), QUOTE), At(m, stack)) == Scan(Text(rest, QUOTE), end)
  {
    match v
    case Scalar(text) =>
      BareScan(text, m, stack);
      ThenScan(Bare(text), rest, At(m, stack));
      end := Scan(text, At(m, stack));
    case Str(body) =>
      QuotedScan(body, m, stack);
      ThenScan(Quoted(body), rest, At(m, stack));
      end := At(AfterValue, stack);
    case Empty(k, gap) =>
      OpenScan(k, TailTokens(false, gap, k, rest), m, stack);
      CloseScan(k, gap, rest, At(First(k), stack + [k]), First(k), stack);
      end := At(AfterValue, stack);
    case Full(k, before, last, _, gap) =>
      var tail := TailTokens(false, gap, k, rest);
      OpenScan(k, ItemsTokens(before, ItemTokens(last, tail)), m, stack);
      var start := ItemsScan(before, k, ItemTokens(last, tail), First(k), stack + [k]);
      var done := ItemScan(last, k, tail, start, stack + [k]);
      CloseScan(k, gap, rest, done, AfterValue, stack);
      end := At(AfterValue, stack);
  }

  predicate Starts(m: Mode, k: Kind) {
    m == First(k) || m == Needed(k)
  }

  /** The name in front of a member. */
  lemma {:induction false} TagScan(tag: Option<Tag>, k: Kind, rest: Tokens, m: Mode, stack: seq<Kind>) returns (start: Mode)
    requires TagPristine(tag, k) && Starts(m, k)
    ensures NeedsValue(start)
    ensures Scan(Text(TagTokens(tag, rest), QUOTE), At(m, stack)) == Scan(Text(rest, QUOTE), At(start, stack))
  {
    match tag
    case None =>
      start := m;
    case Some(t) =>
      KeyScan(t, Then(Colon, rest), m, stack);
      ByteScan([], Colon, COLON, rest, At(NeedColon, stack), NeedColon, stack);
      EmptySpaceText(Then(Colon, rest), QUOTE);
      start := NeedValue;
  }

  function KeyTokens(t: Tag, rest: Tokens): Tokens {
    Then(Space(t.pre), Then(Quoted(t.key), Then(Space(t.mid), rest)))
  }

  lemma {:induction false} KeyScan(t: Tag, rest: Tokens, m: Mode, stack: seq<Kind>)
    requires AllWs(t.pre) && AllWs(t.mid) && IsBody(t.key) && NeedsKey(m)
    ensures Scan(Text(KeyTokens(t, rest), QUOTE), At(m, stack)) == Scan(Text(rest, QUOTE), At(NeedColon, stack))
  {
    var mid := Then(Space(t.mid), rest);
    SpaceScan(t.pre, At(m, stack), m, stack);
    ThenScan(Space(t.pre), Then(Quoted(t.key), mid), At(m, stack));
    QuotedScan(t.key, m, stack);
    ThenScan(Quoted(t.key), mid, At(m, stack));
    SpaceScan(t.mid, At(NeedColon, stack), NeedColon, stack);
    ThenScan(Space(t.mid), rest, At(NeedColon, stack));
  }

  lemma {:induction false} ItemScan(i: Item, k: Kind, rest: Tokens, m: Mode, stack: seq<Kind>) returns (end: State)
    requires ItemPristine(i, k) && Starts(m, k)
    ensures HasRead(end, AfterValue, stack)
    ensures Scan(Text(ItemTokens(i, rest), QUOTE), At(m, stack)) == Scan(Text(rest, QUOTE), end)
  {
    var post := Then(Space(i.post), rest);
    var value := ValueTokens(i.value, post);
    var start := TagScan(i.tag, k, Then(Space(i.pre), value), m, stack);
    SpaceScan(i.pre, At(start, stack), start, stack);
    ThenScan(Space(i.pre), value, At(start, stack));
    var done := ValueScan(i.value, post, start, stack);
    SpaceScan(i.post, done, AfterValue, stack);
    ThenScan(Space(i.post), rest, done);
    end := Scan(i.post, done);
  }

  lemma {:induction false} ItemsScan(items: Items, k: Kind, rest: Tokens, m: Mode, stack: seq<Kind>) returns (start: Mode)
    requires ItemsPristine(items, k) && Starts(m, k) && stack != [] && stack[|stack| - 1] == k
    ensures Starts(start, k)
    ensures Scan(Text(ItemsTokens(items, rest), QUOTE), At(m, stack)) == Scan(Text(rest, QUOTE), At(start, stack))
  {
    match items
    case Nil =>
      start := m;
    case Cons(i, more) =>
      var next := ItemsTokens(more, rest);
      var done := ItemScan(i, k, Then(Comma, next), m, stack);
      ByteScan([], Comma, COMMA, next, done, AfterValue, stack);
      EmptySpaceText(Then(Comma, next), QUOTE);
      start := ItemsScan(more, k, rest, Needed(k), stack);
  }

  lemma {:induction false} JsonAccepted(s: bytes)
    requires IsJson(s)
    ensures Accepts(s)
  {
    var pre, v, post :| IsDocument(s, pre, v, post);
    var last := Then(Space(post), End);
    SpaceScan(pre, START, NeedValue, []);
    ThenScan(Space(pre), ValueTokens(v, last), START);
    var end := ValueScan(v, last, NeedValue, []);
    ThenScan(Space(post), End, end);
    SpaceScan(post, end, AfterValue, []);
  }

  // ---------- Every accepted text is JSON ----------

  /** What is accepted and not over yet has a next byte, and the scanner can take it. */
  lemma {:induction false} Advance(s: bytes, st: State)
    requires IsFinal(Scan(s, st)) && (s != [] || !IsFinal(st))
    ensures s != [] && Step(st, s[0]) != Stuck && IsFinal(Scan(s[1..], Step(st, s[0])))
  {
    StuckStays(s[1..]);
  }

  lemma {:induction false} SkipWs(s: bytes, m: Mode, stack: seq<Kind>) returns (ws: bytes, rest: bytes)
    requires IsFinal(Scan(s, At(m, stack))) && !m.InString? && !m.InBare?
    ensures s == ws + rest && AllWs(ws) && (rest == [] || !IsWs(rest[0]))
    ensures IsFinal(Scan(rest, At(m, stack)))
  {
    if s != [] && IsWs(s[0]) {
      var more;
      more, rest := SkipWs(s[1..], m, stack);
      ws := [s[0]] + more;
    } else {
      ws, rest := [], s;
    }
  }

  lemma {:induction false} ReadRun(s: bytes, run: bytes, stack: seq<Kind>) returns (more: bytes, rest: bytes)
    requires IsFinal(Scan(s, At(InBare(run), stack)))
    ensures s == more + rest && IsScalar(run + more) && IsFinal(Scan(rest, At(AfterValue, stack)))
  {
    if s != [] && IsScalarByte(s[0]) {
      var tail;
      tail, rest := ReadRun(s[1..], run + [s[0]], stack);
      more := [s[0]] + tail;
      Associative(run, [s[0]], tail);
      Consed(s, tail, rest);
    } else {
      more, rest := [], s;
      assert run + more == run;
      RunEnds(s, run, stack);
    }
  }

  lemma {:induction false} RunEnds(s: bytes, run: bytes, stack: seq<Kind>)
    requires IsFinal(Scan(s, At(InBare(run), stack))) && (s == [] || !IsScalarByte(s[0]))
    ensures IsScalar(run) && IsFinal(Scan(s, At(AfterValue, stack)))
  {
    if s == [] {
    } else {
      Advance(s, At(InBare(run), stack));
    }
  }

  lemma {:induction false} ReadString(s: bytes, isKey: bool, stack: seq<Kind>) returns (body: bytes, rest: bytes)
    requires IsFinal(Scan(s, At(InString(isKey, Plain), stack)))
    ensures s == body + ([QUOTE] + rest) && IsBody(body)
    ensures IsFinal(Scan(rest, At(if isKey then NeedColon else AfterValue, stack)))
    decreases |s|
  {
    Advance(s, At(InString(isKey, Plain), stack));
    if s[0] == QUOTE {
      body, rest := [], s[1..];
    } else {
      var n := CharLength(s, isKey, stack);
      var more;
      more, rest := ReadString(s[n..], isKey, stack);
      body := s[..n] + more;
      PutChar(s, n, more);
      Regroup(s, n, more, [QUOTE] + rest);
    }
  }

  lemma {:induction false} Regroup(s: bytes, n: nat, a: bytes, b: bytes)
    requires n <= |s| && s[n..] == a + b
    ensures s == s[..n] + a + b
  {}

  /** A plain character, or an escape of two or six bytes. */
  predicate IsChar(s: bytes, n: nat) {
    || (n == 1 <= |s| && s[0] >= 32 && s[0] != QUOTE && s[0] != BACKSLASH)
    || (n == 2 <= |s| && s[0] == BACKSLASH && IsEscape(s[1]))
    || (n == 6 <= |s| && s[0] == BACKSLASH && s[1] == 117 && forall i :: 2 <= i < 6 ==> IsHexDigit(s[i]))
  }

  lemma {:induction false} PutChar(s: bytes, n: nat, more: bytes)
    requires IsChar(s, n) && IsBody(more)
    ensures IsBody(s[..n] + more)
  {
    var body := s[..n] + more;
    assert body[n..] == more && forall i :: 0 <= i < n ==> body[i] == s[i];
  }

  lemma {:induction false} CharLength(s: bytes, isKey: bool, stack: seq<Kind>) returns (n: nat)
    requires s != [] && s[0] != QUOTE && IsFinal(Scan(s, At(InString(isKey, Plain), stack)))
    ensures IsChar(s, n) && IsFinal(Scan(s[n..], At(InString(isKey, Plain), stack)))
  {
    Advance(s, At(InString(isKey, Plain), stack));
    if s[0] == BACKSLASH {
      n := EscapeLength(s, isKey, stack);
    } else {
      n := 1;
    }
  }

  /** The scanner goes through escapes as the grammar has them. */
  lemma {:induction false} EscapeLength(s: bytes, isKey: bool, stack: seq<Kind>) returns (n: nat)
    requires s != [] && s[0] == BACKSLASH && IsFinal(Scan(s, At(InString(isKey, Plain), stack)))
    ensures IsChar(s, n) && IsFinal(Scan(s[n..], At(InString(isKey, Plain), stack)))
  {
    Advance(s, At(InString(isKey, Plain), stack));
    Advance(s[1..], At(InString(isKey, Escape), stack));
    assert s[1..][1..] == s[2..];
    if IsEscape(s[1]) {
      n := 2;
    } else {
      ReadHex(s[2..], isKey, stack, 4);
      n := 6;
      assert s[2..][4..] == s[6..];
      assert forall i :: 2 <= i < 6 ==> s[i] == s[2..][i - 2];
    }
  }

  lemma {:induction false} ReadHex(s: bytes, isKey: bool, stack: seq<Kind>, left: nat)
    requires left > 0 && IsFinal(Scan(s, At(InString(isKey, Hex(left)), stack)))
    ensures |s| >= left && forall i :: 0 <= i < left ==> IsHexDigit(s[i])
    ensures IsFinal(Scan(s[left..], At(InString(isKey, Plain), stack)))
  {
    Advance(s, At(InString(isKey, Hex(left)), stack));
    if left > 1 {
      ReadHex(s[1..], isKey, stack, left - 1);
      assert s[1..][left - 1..] == s[left..];
      assert forall i :: 1 <= i < left ==> s[i] == s[1..][i - 1];
    }
  }

  lemma {:induction false} ReadValue(s: bytes, stack: seq<Kind>) returns (pre: bytes, v: Value, rest: bytes)
    requires IsFinal(Scan(s, At(NeedValue, stack)))
    ensures AllWs(pre) && Pristine(v) && s == pre + Text(ValueTokens(v, End), QUOTE) + rest
    ensures IsFinal(Scan(rest, At(AfterValue, stack)))
    ensures |rest| < |s|
    decreases |s|, 1
  {
    var t;
    pre, t := SkipWs(s, NeedValue, stack);
    v, rest := ReadSolid(t, stack);
    assert pre + (Text(ValueTokens(v, End), QUOTE) + rest) == pre + Text(ValueTokens(v, End), QUOTE) + rest;
  }

  /** A value without white space in front of it. */
  lemma {:induction false} ReadSolid(t: bytes, stack: seq<Kind>) returns (v: Value, rest: bytes)
    requires IsFinal(Scan(t, At(NeedValue, stack))) && (t == [] || !IsWs(t[0]))
    ensures Pristine(v) && t == Text(ValueTokens(v, End), QUOTE) + rest
    ensures IsFinal(Scan(rest, At(AfterValue, stack)))
    ensures |rest| < |t|
    decreases |t|, 0
  {
    Advance(t, At(NeedValue, stack));
    Uncons(t);
    if IsScalarByte(t[0]) {
      var more;
      more, rest := ReadRun(t[1..], [t[0]], stack);
      v := Scalar([t[0]] + more);
      ScalarText([t[0]] + more);
      Consed(t, more, rest);
    } else if t[0] == QUOTE {
      var body;
      body, rest := ReadString(t[1..], false, stack);
      v := Str(body);
      StringText(body);
      Wrapped(t, body, rest);
    } else {
      v, rest := ReadContainer(t[1..], if t[0] == OPEN_BRACKET then Arr else Obj, stack);
    }
  }

  lemma {:induction false} Consed(s: bytes, a: bytes, b: bytes)
    requires s != [] && s[1..] == a + b
    ensures s == [s[0]] + a + b
  {}

  lemma {:induction false} Wrapped(s: bytes, body: bytes, rest: bytes)
    requires s != [] && s[0] == QUOTE && s[1..] == body + ([QUOTE] + rest)
    ensures s == [QUOTE] + body + [QUOTE] + rest
  {}

  lemma {:induction false} ScalarText(text: bytes)
    ensures Text(ValueTokens(Scalar(text), End), QUOTE) == text
  {
    assert Text(End, QUOTE) == [];
  }

  lemma {:induction false} StringText(body: bytes)
    ensures Text(ValueTokens(Str(body), End), QUOTE) == [QUOTE] + body + [QUOTE]
  {
    assert Text(End, QUOTE) == [];
  }

  lemma {:induction false} ReadContainer(s: bytes, k: Kind, stack: seq<Kind>) returns (v: Value, rest: bytes)
    requires IsFinal(Scan(s, At(First(k), stack + [k])))
    ensures Pristine(v) && [OpenByte(k)] + s == Text(ValueTokens(v, End), QUOTE) + rest
    ensures IsFinal(Scan(rest, At(AfterValue, stack)))
    ensures |rest| < |s|
    decreases |s|, 4
  {
    var ws, t := SkipWs(s, First(k), stack + [k]);
    Advance(t, At(First(k), stack + [k]));
    if t[0] == CloseByte(k) {
      v, rest := Empty(k, ws), t[1..];
      CloseStep(First(k), k, stack);
      EmptyText(k, ws);
      Around(OpenByte(k), ws, CloseByte(k), t);
    } else {
      NotEmpty(ws, t, k, stack);
      var before, last;
      before, last, rest := ReadItems(s, k, stack);
      v := Full(k, before, last, false, []);
      FullText(k, before, last);
      Around(OpenByte(k), Text(ItemsTokens(before, ItemTokens(last, End)), QUOTE), CloseByte(k), [CloseByte(k)] + rest);
    }
  }

  lemma {:induction false} Around(open: byte, a: bytes, close: byte, t: bytes)
    requires t != [] && t[0] == close
    ensures [open] + (a + t) == [open] + a + [close] + t[1..]
    ensures a + t == a + ([close] + t[1..])
  {}

  lemma {:induction false} CloseStep(m: Mode, k: Kind, stack: seq<Kind>)
    requires m == First(k) || m.AfterValue?
    ensures Step(At(m, stack + [k]), CloseByte(k)) == At(AfterValue, stack)
  {
    assert (stack + [k])[..|stack|] == stack;
  }

  /** After an item comes a comma or the closing bracket. */
  lemma {:induction false} AfterItem(t: bytes, k: Kind, stack: seq<Kind>)
    requires IsFinal(Scan(t, At(AfterValue, stack + [k]))) && (t == [] || !IsWs(t[0]))
    ensures t != []
    ensures || (t[0] == COMMA && IsFinal(Scan(t[1..], At(Needed(k), stack + [k]))))
            || (t[0] == CloseByte(k) && IsFinal(Scan(t[1..], At(AfterValue, stack))))
  {
    Advance(t, At(AfterValue, stack + [k]));
    CloseStep(AfterValue, k, stack);
  }

  /** What does not close an empty container starts an item. */
  lemma {:induction false} NotEmpty(ws: bytes, t: bytes, k: Kind, stack: seq<Kind>)
    requires AllWs(ws) && t != [] && !IsWs(t[0]) && t[0] != CloseByte(k)
    requires IsFinal(Scan(t, At(First(k), stack + [k])))
    ensures IsFinal(Scan(ws + t, At(Needed(k), stack + [k])))
  {
    SpaceScan(ws, At(Needed(k), stack + [k]), Needed(k), stack + [k]);
    ScanConcat(ws, t, At(Needed(k), stack + [k]));
    assert Step(At(First(k), stack + [k]), t[0]) == Step(At(Needed(k), stack + [k]), t[0]);
  }

  lemma {:induction false} EmptyText(k: Kind, ws: bytes)
    ensures Text(ValueTokens(Empty(k, ws), End), QUOTE) == [OpenByte(k)] + ws + [CloseByte(k)]
  {
    assert Text(End, QUOTE) == [];
    assert Text(Then(Close(k), End), QUOTE) == [CloseByte(k)];
    assert Text(Then(Space(ws), Then(Close(k), End)), QUOTE) == ws + [CloseByte(k)];
  }

  lemma {:induction false} FullText(k: Kind, before: Items, last: Item)
    ensures Text(ValueTokens(Full(k, before, last, false, []), End), QUOTE)
         == [OpenByte(k)] + Text(ItemsTokens(before, ItemTokens(last, End)), QUOTE) + [CloseByte(k)]
  {
    var tail := TailTokens(false, [], k, End);
    ItemAppend(last, End, tail);
    ItemsAppend(before, ItemTokens(last, End), tail);
    AppendText(ItemsTokens(before, ItemTokens(last, End)), tail, QUOTE);
    assert Text(End, QUOTE) == [];
    assert Text(Then(Close(k), End), QUOTE) == [CloseByte(k)];
    EmptySpaceText(Then(Close(k), End), QUOTE);
  }

  lemma {:induction false} ReadItems(s: bytes, k: Kind, stack: seq<Kind>) returns (before: Items, last: Item, rest: bytes)
    requires IsFinal(Scan(s, At(Needed(k), stack + [k])))
    ensures ItemsPristine(before, k) && ItemPristine(last, k)
    ensures s == Text(ItemsTokens(before, ItemTokens(last, End)), QUOTE) + ([CloseByte(k)] + rest)
    ensures IsFinal(Scan(rest, At(AfterValue, stack)))
    decreases |s|, 3
  {
    var i, t := ReadItem(s, k, stack);
    AfterItem(t, k, stack);
    var a := Text(ItemTokens(i, End), QUOTE);
    if t[0] == COMMA {
      var more;
      more, last, rest := ReadItems(t[1..], k, stack);
      before := Cons(i, more);
      MoreText(i, more, last);
      Joined(a, t, Text(ItemsTokens(more, ItemTokens(last, End)), QUOTE), [CloseByte(k)] + rest);
    } else {
      before, last, rest := Nil, i, t[1..];
      Around(OpenByte(k), a, CloseByte(k), t);
    }
  }

  lemma {:induction false} Joined(a: bytes, t: bytes, b: bytes, c: bytes)
    requires t != [] && t[0] == COMMA && t[1..] == b + c
    ensures a + t == a + [COMMA] + b + c
  {}

  lemma {:induction false} MoreText(i: Item, more: Items, last: Item)
    ensures Text(ItemsTokens(Cons(i, more), ItemTokens(last, End)), QUOTE)
         == Text(ItemTokens(i, End), QUOTE) + [COMMA] + Text(ItemsTokens(more, ItemTokens(last, End)), QUOTE)
  {
    var next := Then(Comma, ItemsTokens(more, ItemTokens(last, End)));
    ItemAppend(i, End, next);
    AppendText(ItemTokens(i, End), next, QUOTE);
    assert Text(next, QUOTE) == [COMMA] + Text(next.tail, QUOTE);
  }

  lemma {:induction false} ReadItem(s: bytes, k: Kind, stack: seq<Kind>) returns (i: Item, rest: bytes)
    requires IsFinal(Scan(s, At(Needed(k), stack + [k])))
    ensures ItemPristine(i, k) && s == Text(ItemTokens(i, End), QUOTE) + rest
    ensures rest != [] && !IsWs(rest[0]) && IsFinal(Scan(rest, At(AfterValue, stack + [k])))
    ensures |rest| < |s|
    decreases |s|, 2
  {
    var tag, t := ReadTag(s, k, stack + [k]);
    var pre, v, u := ReadValue(t, stack + [k]);
    var post;
    post, rest := SkipWs(u, AfterValue, stack + [k]);
    i := Item(tag, pre, v, post);
    ItemText(i);
    FourParts(TagText(tag), pre, Text(ValueTokens(v, End), QUOTE), post, rest);
  }

  lemma {:induction false} FourParts(a: bytes, b: bytes, c: bytes, d: bytes, rest: bytes)
    ensures a + (b + c + (d + rest)) == a + b + c + d + rest == a + b + (c + (d + rest))
  {}

  function TagText(tag: Option<Tag>): bytes {
    match tag
    case None => []
    case Some(t) => t.pre + [QUOTE] + t.key + [QUOTE] + t.mid + [COLON]
  }

  lemma {:induction false} ItemText(i: Item)
    ensures Text(ItemTokens(i, End), QUOTE) == TagText(i.tag) + i.pre + Text(ValueTokens(i.value, End), QUOTE) + i.post
  {
    var post := Then(Space(i.post), End);
    var value := Then(Space(i.pre), ValueTokens(i.value, post));
    assert Text(End, QUOTE) == [];
    ValueText(i.value, post, QUOTE);
    assert Text(value, QUOTE) == i.pre + (Text(ValueTokens(i.value, End), QUOTE) + i.post);
    if i.tag.Some? {
      TagTextTokens(i.tag.value, value);
    }
  }

  lemma {:induction false} TagTextTokens(t: Tag, rest: Tokens)
    ensures Text(TagTokens(Some(t), rest), QUOTE) == TagText(Some(t)) + Text(rest, QUOTE)
  {
    var colon := Then(Colon, rest);
    var mid := Then(Space(t.mid), colon);
    assert Text(mid, QUOTE) == t.mid + ([COLON] + Text(rest, QUOTE));
    assert Text(Then(Quoted(t.key), mid), QUOTE) == [QUOTE] + t.key + [QUOTE] + Text(mid, QUOTE);
  }

  lemma {:induction false} ReadTag(s: bytes, k: Kind, stack: seq<Kind>) returns (tag: Option<Tag>, rest: bytes)
    requires IsFinal(Scan(s, At(Needed(k), stack)))
    ensures TagPristine(tag, k) && s == TagText(tag) + rest && IsFinal(Scan(rest, At(NeedValue, stack)))
  {
    if k.Arr? {
      tag, rest := None, s;
    } else {
      var pre, t := SkipWs(s, NeedKey, stack);
      NextByte(t, NeedKey, stack, QUOTE);
      var key, u := ReadString(t[1..], true, stack);
      var mid, w := SkipWs(u, NeedColon, stack);
      NextByte(w, NeedColon, stack, COLON);
      tag, rest := Some(Tag(pre, key, mid)), w[1..];
      TagParts(pre, key, mid, rest);
    }
  }

  lemma {:induction false} TagParts(pre: bytes, key: bytes, mid: bytes, rest: bytes)
    ensures pre + ([QUOTE] + (key + ([QUOTE] + (mid + ([COLON] + rest))))) == TagText(Some(Tag(pre, key, mid))) + rest
  {}

  /** Where a key or a colon is due, nothing else can come. */
  lemma {:induction false} NextByte(s: bytes, m: Mode, stack: seq<Kind>, b: byte)
    requires IsFinal(Scan(s, At(m, stack))) && (s == [] || !IsWs(s[0]))
    requires (m.NeedKey? && b == QUOTE) || (m.NeedColon? && b == COLON)
    ensures s != [] && s[0] == b && s == [b] + s[1..] && IsFinal(Scan(s[1..], Step(At(m, stack), b)))
  {
    Advance(s, At(m, stack));
  }

  lemma {:induction false} AcceptedJson(s: bytes)
    requires Accepts(s)
    ensures IsJson(s)
  {
    var pre, v, t := ReadValue(s, []);
    var post, rest := SkipWs(t, AfterValue, []);
    if rest != [] {
      Advance(rest, At(AfterValue, []));
    }
    var last := Then(Space(post), End);
    ValueText(v, last, QUOTE);
    assert Text(End, QUOTE) == [];
    assert IsDocument(s, pre, v, post);
  }

  /** Main result: the scanner accepts exactly the JSON texts. */
  lemma {:induction false} AcceptsExactly(s: bytes)
    ensures Accepts(s) <==> IsJson(s)
  {
    if IsJson(s) {
      JsonAccepted(s);
    }
    if Accepts(s) {
      AcceptedJson(s);
    }
  }
}
