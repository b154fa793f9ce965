/** What the JSON repair pipeline guarantees as a whole. */
module FixJsonTheorems {
  import opened Bytes
  import opened JsonSyntax
  import opened FixJson
  import opened JsonDamage
  import opened FixJsonTokens
  import opened FixJsonRepair

  // ---------- Damaged texts ----------

  /** A damaged text: white space and a text that may stop early, its strings between the quotation marks `q`. */
  function BrokenText(pre: bytes, p: Partial, q: byte): bytes {
    Text(Then(Space(pre), PartialTokens(p, End)), q)
  }

  /** The JSON text it stands for: `{null}` read as null, without the stray commas and the noise in strings, between
      double quotation marks, and with its containers closed where it stops. */
  function RepairedText(pre: bytes, p: Partial): bytes {
    Document(pre, Complete(CleanPartial(p)), After(CleanPartial(p)))
  }

  lemma {:induction false} PassesRepair(pre: bytes, p: Partial, q: byte)
    requires AllWs(pre) && PartialOk(p, q) && IsQuoteMark(q)
    ensures CloseBrackets(DropCommas(SingleToDouble(DropControls(FixNullBraces(BrokenText(pre, p, q)), Out)), Out))
         == RepairedText(pre, p)
  {
    var ts := PartialTokens(p, End);
    var all := Then(Space(pre), ts);
    var clean := PartialTokens(CleanPartial(p), End);
    EndText(q);
    PartialSafe(p, End, q);
    assert RawOk(all, q) && NullSafe(all, q);
    NullPass(all, q);
    PassesText(all, q);
    RepairPartial(p, End);
    assert Repair(all) == Then(Space(pre), clean);
    PartialDue(CleanPartial(p), End, []);
    assert Due(Repair(all), []) == Missing(CleanPartial(p));
    CompleteText(CleanPartial(p), QUOTE);
    Associative(pre, Text(clean, QUOTE), Reverse(Missing(CleanPartial(p))));
  }

  lemma {:induction false} RepairedAccepted(pre: bytes, p: Partial, q: byte, lib: JsonLib)
    requires AllWs(pre) && PartialOk(p, q) && Depth(Complete(p)) <= MAX_NESTING && Faithful(lib)
    ensures IsJsonWithin(RepairedText(pre, p), MAX_NESTING)
    ensures Merge(RepairedText(pre, p), lib) == RepairedText(pre, p)
  {
    var v, post := Complete(CleanPartial(p)), After(CleanPartial(p));
    CompletePristine(p, q);
    PristineValue(v, End);
    TrimmedValid(pre, v, post, lib);
    assert IsDocument(RepairedText(pre, p), pre, v, post);
  }

  /** Main result: the pipeline turns every text with repairable damage into exactly the JSON text it stands for. */
  lemma {:induction false} FixJsonRepairs(pre: bytes, p: Partial, q: byte, lib: JsonLib)
    requires AllWs(pre) && PartialOk(p, q) && IsQuoteMark(q)
    requires Depth(Complete(p)) <= MAX_NESTING && Faithful(lib)
    ensures FixJSON(BrokenText(pre, p, q), lib) == RepairedText(pre, p)
    ensures IsJsonWithin(RepairedText(pre, p), MAX_NESTING)
  {
    PartialFirst(p, End, q);
    StripNothing(pre, Text(PartialTokens(p, End), q));
    PassesRepair(pre, p, q);
    RepairedAccepted(pre, p, q, lib);
  }

  // ---------- Code fences ----------

  /** The same partial text without white space at its end. */
  function Trimmed(p: Partial): Partial {
    match p
    case Whole(v, _) => Whole(v, [])
    case Opened(k, _) => Opened(k, [])
    case Inside(k, before, tag, pre, inner) => Inside(k, before, tag, pre, Trimmed(inner))
  }

  /** The white space at the end of a partial text. */
  function Blank(p: Partial): bytes {
    match p
    case Whole(_, post) => post
    case Opened(_, gap) => gap
    case Inside(_, _, _, _, inner) => Blank(inner)
  }

  lemma {:induction false} TrimPartial(p: Partial, q: byte)
    requires PartialOk(p, q) && IsQuoteMark(q)
    ensures AllWs(Blank(p)) && PartialOk(Trimmed(p), q) && Depth(Complete(Trimmed(p))) == Depth(Complete(p))
  {
    if p.Inside? {
      TrimPartial(p.inner, q);
    }
  }

  lemma {:induction false} TrimText(p: Partial, q: byte)
    requires PartialOk(p, q) && IsQuoteMark(q)
    ensures Text(PartialTokens(p, End), q) == Text(PartialTokens(Trimmed(p), End), q) + Blank(p)
    ensures var s := Text(PartialTokens(Trimmed(p), End), q); s != [] && IsSolid(s[|s| - 1])
  {
    match p
    case Whole(v, post) =>
      TrimWhole(v, post, q);
    case Opened(k, gap) =>
      TrimOpened(k, gap, q);
    case Inside(k, before, tag, pre, inner) =>
      TrimText(inner, q);
      InsideText(k, before, tag, pre, inner, q);
      InsideText(k, before, tag, pre, Trimmed(inner), q);
      var front := Text(Then(Open(k), ItemsTokens(before, TagTokens(tag, Then(Space(pre), End)))), q);
      Associative(front, Text(PartialTokens(Trimmed(inner), End), q), Blank(inner));
  }

  lemma {:induction false} TrimOpened(k: Kind, gap: bytes, q: byte)
    ensures Text(PartialTokens(Opened(k, []), End), q) == [OpenByte(k)]
    ensures Text(PartialTokens(Opened(k, gap), End), q) == [OpenByte(k)] + gap
  {
    EndText(q);
    assert Text(Then(Space(gap), End), q) == gap;
    EmptySpaceText(End, q);
  }

  lemma {:induction false} TrimWhole(v: Value, post: bytes, q: byte)
    requires ValueOk(v, q) && IsQuoteMark(q)
    ensures var s := Text(PartialTokens(Whole(v, []), End), q);
            && Text(PartialTokens(Whole(v, post), End), q) == s + post
            && s != [] && IsSolid(s[|s| - 1])
  {
    ValueText(v, Then(Space(post), End), q);
    ValueText(v, Then(Space([]), End), q);
    EmptySpaceText(End, q);
    EndText(q);
    assert Text(Then(Space(post), End), q) == post;
    ValueLast(v, q);
  }

  lemma {:induction false} InsideText(k: Kind, before: Items, tag: Option<Tag>, pre: bytes, inner: Partial, q: byte)
    ensures Text(PartialTokens(Inside(k, before, tag, pre, inner), End), q)
         == Text(Then(Open(k), ItemsTokens(before, TagTokens(tag, Then(Space(pre), End)))), q) + Text(PartialTokens(inner, End), q)
  {
    var rest := PartialTokens(inner, End);
    assert Append(Then(Space(pre), End), rest) == Then(Space(pre), rest);
    TagAppend(tag, Then(Space(pre), End), rest);
    ItemsAppend(before, TagTokens(tag, Then(Space(pre), End)), rest);
    var front := Then(Open(k), ItemsTokens(before, TagTokens(tag, Then(Space(pre), End))));
    AppendText(front, rest, q);
  }

  /** A text in a Markdown code block, with a language tag before it and anything after it. */
  function Fenced(lead: bytes, tag: bytes, inner: bytes, rest: bytes): bytes {
    lead + (FENCE + tag + [NEWLINE] + inner + FENCE + rest)
  }

  /** The block does not end early. */
  ghost predicate FenceFree(inner: bytes) {
    forall i :: 0 <= i < |inner| ==> !OccursAt(inner + FENCE, i, FENCE)
  }

  lemma {:induction false} TrailingWithin(a: bytes, x: bytes)
    requires a != [] && IsSolid(a[|a| - 1]) && x != []
    ensures TrailingSpace(a + x) <= |x|
  {
    var s := a + x;
    assert s[|a| - 1] == a[|a| - 1];
    if |x| == 1 {
      assert s[|s| - 2..][0] == s[|s| - 2] == a[|a| - 1];
      assert |s| >= 3 ==> s[|s| - 3..][1] == a[|a| - 1];
    } else if |x| == 2 {
      assert s[|s| - 3..][0] == a[|a| - 1];
    }
  }

  lemma {:induction false} TrimRightKeeps(a: bytes, x: bytes)
    requires a != [] && IsSolid(a[|a| - 1])
    ensures a <= TrimRight(a + x)
    decreases |x|
  {
    var s := a + x;
    var n := TrailingSpace(s);
    if x == [] {
      assert s == a;
      SolidRight(a);
    } else if n > 0 {
      TrailingWithin(a, x);
      assert s[..|s| - n] == a + x[..|x| - n];
      TrimRightKeeps(a, x[..|x| - n]);
    }
  }

  /** Unwrapping gives the trimmed inside of the block. */
  lemma {:induction false} StripFence(lead: bytes, tag: bytes, inner: bytes, rest: bytes)
    requires AllWs(lead) && NEWLINE !in tag && FenceFree(inner)
    ensures StripCodeBlock(Fenced(lead, tag, inner, rest)) == TrimSpace(inner)
  {
    var end := TrimFence(lead, tag, inner, rest);
    var x := inner + FENCE + end;
    var trimmed := FENCE + tag + [NEWLINE] + x;
    assert trimmed[..3] == FENCE;
    EndOfFence(tag, x);
    assert trimmed[Index(trimmed, [NEWLINE]) + 1..] == x;
    FirstFence(inner, end);
    assert x[..|inner|] == inner;
  }

  /** Trimming takes nothing of the block, only white space before it and after it. */
  lemma {:induction false} TrimFence(lead: bytes, tag: bytes, inner: bytes, rest: bytes) returns (end: bytes)
    requires AllWs(lead)
    ensures TrimSpace(Fenced(lead, tag, inner, rest)) == FENCE + tag + [NEWLINE] + (inner + FENCE + end)
  {
    var a := FENCE + tag + [NEWLINE] + inner + FENCE;
    TrimLeftWs(lead, a + rest);
    SolidLeft(a + rest);
    TrimRightKeeps(a, rest);
    assert Fenced(lead, tag, inner, rest) == lead + (a + rest);
    end := TrimRight(a + rest)[|a|..];
    assert TrimRight(a + rest) == a + end;
    Regroup(FENCE + tag + [NEWLINE], inner, end);
  }

  lemma {:induction false} Regroup(head: bytes, inner: bytes, end: bytes)
    ensures head + inner + FENCE + end == head + (inner + FENCE + end)
  {}

  lemma {:induction false} EndOfFence(tag: bytes, x: bytes)
    requires NEWLINE !in tag
    ensures Index(FENCE + tag + [NEWLINE] + x, [NEWLINE]) == |FENCE + tag|
  {
    var s := FENCE + tag + [NEWLINE] + x;
    var n := |FENCE + tag|;
    assert OccursAt(s, n, [NEWLINE]);
    var i := Index(s, [NEWLINE]);
    assert OccursAt(s, i, [NEWLINE]);
    assert s[i..i + 1][0] == s[i];
    forall j | 0 <= j < n
      ensures s[j] != NEWLINE
    {
      assert s[j] == if j < 3 then BACKTICK else tag[j - 3];
      assert j >= 3 ==> tag[j - 3] in tag;
    }
  }

  lemma {:induction false} FirstFence(inner: bytes, x: bytes)
    requires FenceFree(inner)
    ensures Index(inner + FENCE + x, FENCE) == |inner|
  {
    var s := inner + FENCE + x;
    assert OccursAt(s, |inner|, FENCE);
    var i := Index(s, FENCE);
    if i < |inner| {
      assert s[i..i + 3] == (inner + FENCE)[i..i + 3];
      assert OccursAt(inner + FENCE, i, FENCE);
    }
  }

  lemma {:induction false} TrimBroken(pre: bytes, p: Partial, q: byte)
    requires AllWs(pre) && PartialOk(p, q) && IsQuoteMark(q)
    ensures TrimSpace(BrokenText(pre, p, q)) == BrokenText([], Trimmed(p), q)
  {
    var core := Text(PartialTokens(Trimmed(p), End), q);
    TrimPartial(p, q);
    TrimText(p, q);
    PartialFirst(Trimmed(p), End, q);
    Associative(pre, core, Blank(p));
    TrimAround(pre, core, Blank(p));
    EmptySpaceText(PartialTokens(Trimmed(p), End), q);
  }

  /** The main result holds inside a code block, whatever the tag and the text after the block. */
  lemma {:induction false} FixJsonRepairsFenced(lead: bytes, tag: bytes, pre: bytes, p: Partial, q: byte, rest: bytes, lib: JsonLib)
    requires AllWs(lead) && NEWLINE !in tag && FenceFree(BrokenText(pre, p, q))
    requires AllWs(pre) && PartialOk(p, q) && IsQuoteMark(q)
    requires Depth(Complete(p)) <= MAX_NESTING && Faithful(lib)
    ensures FixJSON(Fenced(lead, tag, BrokenText(pre, p, q), rest), lib) == RepairedText([], Trimmed(p))
    ensures IsJsonWithin(RepairedText([], Trimmed(p)), MAX_NESTING)
  {
    StripFence(lead, tag, BrokenText(pre, p, q), rest);
    TrimPartial(p, q);
    TrimBroken(pre, p, q);
    PassesRepair([], Trimmed(p), q);
    RepairedAccepted([], Trimmed(p), q, lib);
  }

  // ---------- Good texts ----------

  /** A value as the grammar has it counts as repairable, and of all the passes only the first changes it. */
  lemma {:induction false} PristineValue(v: Value, rest: Tokens)
    requires Pristine(v)
    ensures ValueOk(v, QUOTE) && Pristine(Clean(v)) && Depth(Clean(v)) == Depth(v)
    ensures Nulls(ValueTokens(v, rest)) == ValueTokens(Clean(v), Nulls(rest))
  {
    match v
    case Str(body) =>
      PristineBody(body);
    case Full(k, before, last, _, gap) =>
      var tail := TailTokens(false, gap, k, rest);
      assert Nulls(Then(Close(k), rest)) == Then(Close(k), Nulls(rest));
      assert Nulls(tail) == TailTokens(false, gap, k, Nulls(rest));
      PristineItem(last, k, tail);
      PristineItems(before, k, ItemTokens(last, tail));
    case Empty(k, gap) =>
      assert Nulls(Then(Close(k), rest)) == Then(Close(k), Nulls(rest));
      assert Nulls(TailTokens(false, gap, k, rest)) == TailTokens(false, gap, k, Nulls(rest));
    case _ =>
  }

  lemma {:induction false} PristineBody(body: bytes)
    requires IsBody(body)
    ensures StringOk(body, QUOTE) && CleanBody(body) == FixNullBraces(body) && IsBody(CleanBody(body))
  {
    NullBody(body);
    BodyClosed(FixNullBraces(body));
  }

  lemma {:induction false} PristineItem(i: Item, k: Kind, rest: Tokens)
    requires ItemPristine(i, k)
    ensures ItemOk(i, k, QUOTE) && ItemPristine(CleanItem(i), k) && Depth(CleanItem(i).value) == Depth(i.value)
    ensures Nulls(ItemTokens(i, rest)) == ItemTokens(CleanItem(i), Nulls(rest))
  {
    var post := Then(Space(i.post), rest);
    PristineValue(i.value, post);
    var last := Then(Space(i.pre), ValueTokens(i.value, post));
    match i.tag
    case None =>
    case Some(t) =>
      PristineBody(t.key);
      var mid := Then(Space(t.mid), Then(Colon, last));
      assert Nulls(mid) == Then(Space(t.mid), Then(Colon, Nulls(last)));
      assert Nulls(Then(Quoted(t.key), mid)) == Then(Quoted(CleanBody(t.key)), Nulls(mid));
  }

  lemma {:induction false} PristineItems(items: Items, k: Kind, rest: Tokens)
    requires ItemsPristine(items, k)
    ensures ItemsOk(items, k, QUOTE) && ItemsPristine(CleanItems(items), k) && ItemsDepth(CleanItems(items)) == ItemsDepth(items)
    ensures Nulls(ItemsTokens(items, rest)) == ItemsTokens(CleanItems(items), Nulls(rest))
  {
    match items
    case Nil =>
    case Cons(i, more) =>
      PristineItem(i, k, Then(Comma, ItemsTokens(more, rest)));
      PristineItems(more, k, rest);
  }

  /** The null pass changes nothing exactly where there is nothing to change. */
  lemma {:induction false} NullsFixed(s: bytes)
    ensures |FixNullBraces(s)| <= |s|
    ensures FixNullBraces(s) == s <==> !Contains(s, BRACED_NULL)
  {
    if s == [] {
    } else if StartsWith(s, BRACED_NULL) {
      NullsFixed(s[6..]);
      assert OccursAt(s, 0, BRACED_NULL);
    } else {
      NullsFixed(s[1..]);
      LaterOccurrence(s);
      assert ([s[0]] + FixNullBraces(s[1..]))[1..] == FixNullBraces(s[1..]);
    }
  }

  lemma {:induction false} LaterOccurrence(s: bytes)
    requires s != [] && !StartsWith(s, BRACED_NULL)
    ensures Contains(s, BRACED_NULL) == Contains(s[1..], BRACED_NULL)
  {
    forall i | OccursAt(s, i, BRACED_NULL)
      ensures OccursAt(s[1..], i - 1, BRACED_NULL)
    {
      assert s[1..][i - 1..i + 5] == s[i..i + 6];
    }
    forall i | OccursAt(s[1..], i, BRACED_NULL)
      ensures OccursAt(s, i + 1, BRACED_NULL)
    {
      assert s[1..][i..i + 6] == s[i + 1..i + 7];
    }
  }

  /** On a JSON text, however deep, all passes but the null pass are the identity. */
  lemma {:induction false} GoodRepaired(s: bytes, pre: bytes, v: Value, post: bytes)
    requires IsDocument(s, pre, v, post)
    ensures Repaired(s) == FixNullBraces(s) == Document(pre, Clean(v), post)
    ensures Pristine(Clean(v)) && Depth(Clean(v)) == Depth(v)
  {
    var p := Whole(v, post);
    var rest := Then(Space(post), End);
    var all := Then(Space(pre), ValueTokens(v, rest));
    PristineValue(v, rest);
    PartialFirst(p, End, QUOTE);
    StripNothing(pre, Text(PartialTokens(p, End), QUOTE));
    assert BrokenText(pre, p, QUOTE) == s;
    PassesRepair(pre, p, QUOTE);
    EndText(QUOTE);
    PartialSafe(p, End, QUOTE);
    assert RawOk(all, QUOTE) && NullSafe(all, QUOTE);
    NullPass(all, QUOTE);
    assert Nulls(rest) == rest;
    assert Nulls(all) == Then(Space(pre), ValueTokens(Clean(v), rest));
  }

  /** Main result: a JSON text comes through unchanged, byte for byte, if and only if `{null}` does not occur in it
      (which it can only do inside a string), and it is JSON afterwards in either case. */
  lemma {:induction false} GoodUnchanged(s: bytes, lib: JsonLib)
    requires IsJsonWithin(s, MAX_NESTING) && Faithful(lib)
    ensures FixJSON(s, lib) == s <==> !Contains(s, BRACED_NULL)
    ensures FixJSON(s, lib) == FixNullBraces(s) && IsJsonWithin(FixJSON(s, lib), MAX_NESTING)
  {
    var pre, v, post :| IsDocument(s, pre, v, post) && Depth(v) <= MAX_NESTING;
    GoodRepaired(s, pre, v, post);
    PristineValue(Clean(v), End);
    TrimmedValid(pre, Clean(v), post, lib);
    NullsFixed(s);
    assert IsDocument(Repaired(s), pre, Clean(v), post);
  }

  /** Repairing twice is repairing once, if and only if the repaired text has no `{null}` in a string. */
  lemma {:induction false} FixJsonIdempotent(pre: bytes, p: Partial, q: byte, lib: JsonLib)
    requires AllWs(pre) && PartialOk(p, q) && IsQuoteMark(q)
    requires Depth(Complete(p)) <= MAX_NESTING && Faithful(lib)
    ensures var once := FixJSON(BrokenText(pre, p, q), lib);
            FixJSON(once, lib) == once <==> !Contains(once, BRACED_NULL)
  {
    FixJsonRepairs(pre, p, q, lib);
    GoodUnchanged(RepairedText(pre, p), lib);
  }

  // ---------- Texts of any kind ----------

  lemma {:induction false} BracketsConcat(a: bytes, b: bytes, st: Lex, stack: bytes)
    ensures Brackets(a + b, st, stack) == Brackets(b, Brackets(a, st, stack).0, Brackets(a, st, stack).1)
  {
    if a == [] {
      assert a + b == b;
    } else {
      assert (a + b)[1..] == a[1..] + b && (a + b)[0] == a[0];
      BracketsConcat(a[1..], b, Next(st, a[0], QUOTE), if st.Out? then Push(a[0], stack) else stack);
    }
  }

  predicate AllClosers(s: bytes) {
    forall b :: b in s ==> IsCloser(b)
  }

  lemma {:induction false} StackClosers(s: bytes, st: Lex, stack: bytes)
    requires AllClosers(stack)
    ensures AllClosers(Brackets(s, st, stack).1)
  {
    if s == [] {
    } else {
      StackClosers(s[1..], Next(st, s[0], QUOTE), if st.Out? then Push(s[0], stack) else stack);
    }
  }

  /** Outside strings the closing brackets empty the stack. */
  lemma {:induction false} ClosersPop(stack: bytes)
    requires AllClosers(stack)
    ensures Brackets(Reverse(stack), Out, stack) == (Out, [])
  {
    if stack == [] {
    } else {
      var n := |stack| - 1;
      ReverseLast(stack);
      assert stack[n] in stack;
      var r := [stack[n]] + Reverse(stack[..n]);
      assert r[0] == stack[n] && r[1..] == Reverse(stack[..n]);
      ClosersPop(stack[..n]);
    }
  }

  /** Inside a string they are part of the string. */
  lemma {:induction false} ClosersInString(r: bytes, st: Lex, stack: bytes)
    requires AllClosers(r) && !st.Out?
    ensures Brackets(r, st, stack).1 == stack
  {
    if r == [] {
    } else {
      assert r[0] in r && AllClosers(r[1..]);
      ClosersInString(r[1..], Next(st, r[0], QUOTE), stack);
    }
  }

  lemma {:induction false} ReverseMembers(s: bytes)
    ensures forall b :: b in Reverse(s) ==> b in s
  {
    if s == [] {
    } else {
      ReverseMembers(s[1..]);
    }
  }

  /** Closing only appends, and it leaves no bracket open, if and only if the text has none open or does not end inside
      a string. */
  lemma {:induction false} CloseBalances(s: bytes)
    ensures s <= CloseBrackets(s) && AllClosers(CloseBrackets(s)[|s|..])
    ensures Brackets(CloseBrackets(s), Out, []).1 == [] <==> Brackets(s, Out, []).1 == [] || Brackets(s, Out, []).0.Out?
  {
    var (st, stack) := Brackets(s, Out, []);
    StackClosers(s, Out, []);
    ReverseMembers(stack);
    BracketsConcat(s, Reverse(stack), Out, []);
    assert CloseBrackets(s)[|s|..] == Reverse(stack);
    if st.Out? {
      ClosersPop(stack);
    } else {
      ClosersInString(Reverse(stack), st, stack);
    }
  }

  /** `[1,`, `[1,]` and `[1]`, as bytes. */
  const CUT_ARRAY: bytes := [OPEN_BRACKET, 49, COMMA]
  const STRAY_ARRAY: bytes := [OPEN_BRACKET, 49, COMMA, CLOSE_BRACKET]
  const MENDED_ARRAY: bytes := [OPEN_BRACKET, 49, CLOSE_BRACKET]

  /** A complete array with a stray comma. */
  const STRAY_VALUE: Partial := Whole(Full(Arr, Nil, Item(None, [], Scalar([49]), []), true, []), [])

  /** The tokens of `[1,`. */
  const CUT_TOKENS: Tokens := Then(Open(Arr), Then(Bare([49]), Then(Comma, End)))

  lemma {:induction false} CutTokens()
    ensures Text(CUT_TOKENS, QUOTE) == CUT_ARRAY && Nulls(CUT_TOKENS) == Repair(CUT_TOKENS) == CUT_TOKENS
    ensures TokensOk(CUT_TOKENS, QUOTE) && Due(CUT_TOKENS, []) == [CLOSE_BRACKET]
  {
    OneIsNumber();
    EndText(QUOTE);
    var one := Then(Comma, End);
    var two := Then(Bare([49]), one);
    assert Text(one, QUOTE) == [COMMA] && Text(two, QUOTE) == [49, COMMA];
    assert Repair(one) == one == Nulls(one) && Repair(two) == two == Nulls(two);
    assert TokensOk(one, QUOTE);
    assert [] + [CloseByte(Arr)] == [CLOSE_BRACKET];
    assert Due(one, [CLOSE_BRACKET]) == [CLOSE_BRACKET] && Due(two, [CLOSE_BRACKET]) == [CLOSE_BRACKET];
  }

  /** Commas are dropped before brackets are closed, so a comma where the text stops survives. */
  lemma {:induction false} CutArrayRepaired()
    ensures Repaired(CUT_ARRAY) == STRAY_ARRAY
  {
    CutTokens();
    assert [] + CUT_ARRAY == CUT_ARRAY;
    StripNothing([], CUT_ARRAY);
    NoBraces(CUT_ARRAY);
    NullsFixed(CUT_ARRAY);
    PassesText(CUT_TOKENS, QUOTE);
    ReverseFirst(CLOSE_BRACKET, []);
    assert [CLOSE_BRACKET] + [] == [CLOSE_BRACKET];
  }

  lemma {:induction false} StrayArrayRepaired()
    ensures Repaired(STRAY_ARRAY) == MENDED_ARRAY == RepairedText([], STRAY_VALUE)
    ensures BrokenText([], STRAY_VALUE, QUOTE) == STRAY_ARRAY && PartialOk(STRAY_VALUE, QUOTE)
  {
    OneIsNumber();
    ShortTexts();
    assert PartialOk(STRAY_VALUE, QUOTE);
    assert [] + STRAY_ARRAY == STRAY_ARRAY;
    StripNothing([], STRAY_ARRAY);
    PassesRepair([], STRAY_VALUE, QUOTE);
  }

  /** JSON texts stay as they are and `[1,]` does not, so it is none. */
  lemma {:induction false} StrayArrayBad()
    ensures !IsJson(STRAY_ARRAY)
  {
    StrayArrayRepaired();
    NoBraces(STRAY_ARRAY);
    NullsFixed(STRAY_ARRAY);
    forall pre, v, post
      ensures !IsDocument(STRAY_ARRAY, pre, v, post)
    {
      if IsDocument(STRAY_ARRAY, pre, v, post) {
        GoodRepaired(STRAY_ARRAY, pre, v, post);
      }
    }
  }

  /** Without a line break there is nothing to merge. */
  lemma {:induction false} MergeOneLine(s: bytes, lib: JsonLib)
    requires NEWLINE !in TrimSpace(s)
    ensures Merge(s, lib) == s
  {
    NoNewline(TrimSpace(s));
  }

  /** The repair of `[1,` is `[1,]`: no JSON text and not the input either, and a second repair changes it again. */
  lemma {:induction false} CommaAtTheEnd(lib: JsonLib)
    ensures FixJSON(CUT_ARRAY, lib) == STRAY_ARRAY && !IsJson(STRAY_ARRAY)
    ensures FixJSON(STRAY_ARRAY, lib) == MENDED_ARRAY
  {
    CutArrayRepaired();
    StrayArrayRepaired();
    StrayArrayBad();
    MergeSolid(STRAY_ARRAY, lib);
    MergeSolid(MENDED_ARRAY, lib);
  }

  lemma {:induction false} MergeSolid(t: bytes, lib: JsonLib)
    requires t != [] && IsSolid(t[0]) && IsSolid(t[|t| - 1]) && NEWLINE !in t
    ensures Merge(t, lib) == t
  {
    assert [] + t + [] == t;
    TrimAround([], t, []);
    MergeOneLine(t, lib);
  }

  lemma {:induction false} OneIsNumber()
    ensures IsScalar([49])
  {
    assert [49 as byte][1..] == [];
    assert DigitRun([]) == 0;
    assert DigitRun([49]) == 1;
  }

  lemma {:induction false} ShortTexts()
    ensures BrokenText([], STRAY_VALUE, QUOTE) == STRAY_ARRAY
    ensures RepairedText([], STRAY_VALUE) == MENDED_ARRAY
  {
    var end := Then(Space([]), End);
    var close := Then(Space([]), Then(Close(Arr), end));
    EndText(QUOTE);
    assert Text(end, QUOTE) == [];
    assert Text(close, QUOTE) == [CLOSE_BRACKET];
    assert Text(Then(Space([]), close), QUOTE) == [CLOSE_BRACKET];
    assert Text(Then(Comma, close), QUOTE) == [COMMA, CLOSE_BRACKET];
    assert Text(Then(Space([]), Then(Comma, close)), QUOTE) == [COMMA, CLOSE_BRACKET];
    assert Text(Then(Bare([49]), Then(Space([]), Then(Comma, close))), QUOTE) == [49, COMMA, CLOSE_BRACKET];
    assert Text(Then(Bare([49]), Then(Space([]), close)), QUOTE) == [49, CLOSE_BRACKET];
  }

  lemma {:induction false} NoBraces(s: bytes)
    requires OPEN_BRACE !in s
    ensures !Contains(s, BRACED_NULL)
  {
    forall i
      ensures !OccursAt(s, i, BRACED_NULL)
    {
      if 0 <= i <= |s| - 6 {
        assert s[i..i + 6][0] == s[i] && s[i] in s;
      }
    }
  }

  // ---------- Concatenated objects ----------

  predicate HasKey(obj: Option<map<bytes, bytes>>, k: bytes) {
    obj.Some? && k in obj.value
  }

  /** The last object that has the key. */
  predicate LastWith(objects: seq<Option<map<bytes, bytes>>>, k: bytes, i: int) {
    0 <= i < |objects| && HasKey(objects[i], k) && forall j :: i < j < |objects| ==> !HasKey(objects[j], k)
  }

  /** A merged key has the value of the last object with that key, other keys do not appear, and nothing is merged
      exactly when no line holds an object. */
  lemma {:induction false} MergeLast(objects: seq<Option<map<bytes, bytes>>>, k: bytes)
    ensures MergeObjects(objects).None? <==> forall i :: 0 <= i < |objects| ==> objects[i].None?
    ensures HasKey(MergeObjects(objects), k) ==>
              exists i :: LastWith(objects, k, i) && MergeObjects(objects).value[k] == objects[i].value[k]
    ensures !HasKey(MergeObjects(objects), k) ==> forall i :: 0 <= i < |objects| ==> !HasKey(objects[i], k)
  {
    if objects == [] {
    } else {
      var n := |objects| - 1;
      var front := objects[..n];
      MergeLast(front, k);
      if HasKey(objects[n], k) {
        assert LastWith(objects, k, n);
      } else if HasKey(MergeObjects(front), k) {
        var i :| LastWith(front, k, i) && MergeObjects(front).value[k] == front[i].value[k];
        assert LastWith(objects, k, i);
      }
    }
  }

  function JoinLines(lines: seq<bytes>): bytes {
    if lines == [] then []
    else if |lines| == 1 then lines[0]
    else lines[0] + [NEWLINE] + JoinLines(lines[1..])
  }

  /** Splitting loses nothing, and no line contains a newline. */
  lemma {:induction false} SplitJoin(s: bytes)
    ensures JoinLines(SplitLines(s)) == s
    ensures forall i :: 0 <= i < |SplitLines(s)| ==> NEWLINE !in SplitLines(s)[i]
  {
    SplitWhole(s);
    SplitFree(s);
  }

  lemma {:induction false} SplitWhole(s: bytes)
    ensures JoinLines(SplitLines(s)) == s
    decreases |s|
  {
    var i := Index(s, [NEWLINE]);
    if i < 0 {
    } else {
      FirstFree(s);
      SplitWhole(s[i + 1..]);
      JoinFirst(s[..i], SplitLines(s[i + 1..]));
      assert s == s[..i] + [NEWLINE] + s[i + 1..];
    }
  }

  lemma {:induction false} SplitFree(s: bytes)
    ensures forall i :: 0 <= i < |SplitLines(s)| ==> NEWLINE !in SplitLines(s)[i]
    decreases |s|
  {
    var i := Index(s, [NEWLINE]);
    FirstFree(s);
    if i < 0 {
    } else {
      SplitFree(s[i + 1..]);
    }
  }

  lemma {:induction false} FirstFree(s: bytes)
    ensures var i := Index(s, [NEWLINE]); if i < 0 then NEWLINE !in s else s[i] == NEWLINE && NEWLINE !in s[..i]
  {
    forall j | 0 <= j < |s| && s[j] == NEWLINE
      ensures OccursAt(s, j, [NEWLINE])
    {
      assert s[j..j + 1] == [NEWLINE];
    }
    var i := Index(s, [NEWLINE]);
    assert i >= 0 ==> s[i..i + 1][0] == s[i];
  }

  lemma {:induction false} JoinFirst(first: bytes, more: seq<bytes>)
    requires more != []
    ensures JoinLines([first] + more) == first + [NEWLINE] + JoinLines(more)
  {
    assert ([first] + more)[1..] == more;
  }
}
