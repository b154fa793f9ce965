/** The pipeline repairs every damaged JSON text it is meant for and leaves every good one alone. */
module FixJsonRepair {
  import opened Bytes
  import opened JsonSyntax
  import opened FixJson
  import opened JsonDamage
  import opened FixJsonTokens

  /** Go's parser gives up on containers that nest deeper than this. */
  const MAX_NESTING: nat := 10000

  /** The library accepts exactly the JSON texts that do not nest too deep. */
  ghost predicate Faithful(lib: JsonLib) {
    forall s :: lib.valid(s) <==> IsJsonWithin(s, MAX_NESTING)
  }

  // ---------- The passes on tokens, taken together ----------

  function RepairToken(t: Token): Token {
    match t
    case Quoted(body) => Quoted(CleanBody(body))
    case NullBraces => Bare(NULL)
    case _ => t
  }

  function Repair(ts: Tokens): Tokens {
    match ts
    case End => End
    case Then(t, rest) => if t.Comma? && CloserAhead(rest) then Repair(rest) else Then(RepairToken(t), Repair(rest))
  }

  lemma {:induction false} RepairPasses(ts: Tokens)
    ensures Uncommaed(Denoised(Nulls(ts))) == Repair(ts)
    ensures CloserAhead(Denoised(Nulls(ts))) == CloserAhead(ts)
    ensures NullFree(Repair(ts))
  {
    match ts
    case End =>
    case Then(t, rest) => RepairPasses(rest);
  }

  lemma {:induction false} DenoisedOk(ts: Tokens, q: byte)
    requires IsQuoteMark(q) && TokensOk(ts, q)
    ensures TokensOk(Denoised(ts), q) && TokensOk(Denoised(ts), QUOTE) && TokensOk(Uncommaed(Denoised(ts)), QUOTE)
  {
    match ts
    case End =>
    case Then(t, rest) =>
      DenoisedOk(rest, q);
      if t.Quoted? {
        BodyClosed(Denoise(t.body));
      }
  }

  /** From the text after the null pass to the text before the bracket pass, and what that pass appends. */
  lemma {:induction false} PassesText(ts: Tokens, q: byte)
    requires IsQuoteMark(q) && TokensOk(Nulls(ts), q)
    ensures DropCommas(SingleToDouble(DropControls(Text(Nulls(ts), q), Out)), Out) == Text(Repair(ts), QUOTE)
    ensures CloseBrackets(Text(Repair(ts), QUOTE)) == Text(Repair(ts), QUOTE) + Reverse(Due(Repair(ts), []))
  {
    DenoisedOk(Nulls(ts), q);
    RepairPasses(ts);
    ControlPass(Nulls(ts), q);
    QuotePass(Denoised(Nulls(ts)), q);
    CommaTokens(Denoised(Nulls(ts)));
    BracketTokens(Repair(ts), []);
  }

  // ---------- Trees ----------

  // Repairing the tokens of a tree gives the tokens of the clean tree.

  lemma {:induction false} RepairValue(v: Value, rest: Tokens)
    ensures Repair(ValueTokens(v, rest)) == ValueTokens(Clean(v), Repair(rest))
  {
    match v
    case Full(k, before, last, stray, gap) =>
      NoCloser(last, TailTokens(stray, gap, k, rest));
      RepairItems(before, ItemTokens(last, TailTokens(stray, gap, k, rest)));
      RepairItem(last, TailTokens(stray, gap, k, rest));
      RepairTail(stray, gap, k, rest);
    case Empty(k, gap) =>
      RepairTail(false, gap, k, rest);
    case _ =>
  }

  lemma {:induction false} RepairTail(stray: bool, gap: bytes, k: Kind, rest: Tokens)
    ensures Repair(TailTokens(stray, gap, k, rest)) == TailTokens(false, gap, k, Repair(rest))
  {
    var close := Then(Close(k), rest);
    assert Repair(close) == Then(Close(k), Repair(rest));
    assert Repair(Then(Space(gap), close)) == Then(Space(gap), Repair(close));
    assert CloserAhead(Then(Space(gap), close));
  }

  lemma {:induction false} RepairTag(tag: Option<Tag>, rest: Tokens)
    ensures Repair(TagTokens(tag, rest)) == TagTokens(CleanTag(tag), Repair(rest))
  {
    match tag
    case None =>
    case Some(t) =>
      var mid := Then(Space(t.mid), Then(Colon, rest));
      assert Repair(mid) == Then(Space(t.mid), Then(Colon, Repair(rest)));
      assert Repair(Then(Quoted(t.key), mid)) == Then(Quoted(CleanBody(t.key)), Repair(mid));
  }

  lemma {:induction false} RepairItem(i: Item, rest: Tokens)
    ensures Repair(ItemTokens(i, rest)) == ItemTokens(CleanItem(i), Repair(rest))
  {
    RepairTag(i.tag, Then(Space(i.pre), ValueTokens(i.value, Then(Space(i.post), rest))));
    RepairValue(i.value, Then(Space(i.post), rest));
  }

  /** The commas between items stay: what follows them is no closing bracket. */
  lemma {:induction false} RepairItems(items: Items, rest: Tokens)
    requires !CloserAhead(rest)
    ensures Repair(ItemsTokens(items, rest)) == ItemsTokens(CleanItems(items), Repair(rest))
    ensures !CloserAhead(ItemsTokens(items, rest))
  {
    match items
    case Nil =>
    case Cons(i, more) =>
      RepairItems(more, rest);
      RepairItem(i, Then(Comma, ItemsTokens(more, rest)));
      NoCloser(i, Then(Comma, ItemsTokens(more, rest)));
  }

  lemma {:induction false} NoCloser(i: Item, rest: Tokens)
    ensures !CloserAhead(ItemTokens(i, rest))
  {
    var value := ValueTokens(i.value, Then(Space(i.post), rest));
    assert !CloserAhead(value) && !CloserAhead(Then(Space(i.pre), value));
  }

  lemma {:induction false} RepairPartial(p: Partial, rest: Tokens)
    ensures Repair(PartialTokens(p, rest)) == PartialTokens(CleanPartial(p), Repair(rest))
    ensures !CloserAhead(PartialTokens(p, rest))
  {
    match p
    case Whole(v, post) => RepairValue(v, Then(Space(post), rest));
    case Opened(_, _) =>
    case Inside(_, before, tag, pre, inner) =>
      RepairPartial(inner, rest);
      var last := Then(Space(pre), PartialTokens(inner, rest));
      assert !CloserAhead(last);
      RepairTag(tag, last);
      RepairItems(before, TagTokens(tag, last));
  }

  // The tokens of a tree with repairable damage are in order.

  lemma {:induction false} ValueSafe(v: Value, rest: Tokens, q: byte)
    requires ValueOk(v, q) && IsQuoteMark(q) && RawOk(rest, q) && NullSafe(rest, q)
    ensures RawOk(ValueTokens(v, rest), q) && NullSafe(ValueTokens(v, rest), q)
  {
    match v
    case Full(k, before, last, stray, gap) =>
      var tail := TailTokens(stray, gap, k, rest);
      TailSafe(stray, gap, k, rest, q);
      ItemSafe(last, k, tail, q);
      ItemsSafe(before, k, ItemTokens(last, tail), q);
    case Empty(k, gap) =>
      TailSafe(false, gap, k, rest, q);
      assert Text(TailTokens(false, gap, k, rest), q) == gap + ([CloseByte(k)] + Text(rest, q));
      WsNoN(gap, [CloseByte(k)] + Text(rest, q));
    case _ =>
  }

  lemma {:induction false} TailSafe(stray: bool, gap: bytes, k: Kind, rest: Tokens, q: byte)
    requires AllWs(gap) && RawOk(rest, q) && NullSafe(rest, q)
    ensures RawOk(TailTokens(stray, gap, k, rest), q) && NullSafe(TailTokens(stray, gap, k, rest), q)
  {
    var close := Then(Close(k), rest);
    assert RawOk(close, q) && NullSafe(close, q);
    assert RawOk(Then(Space(gap), close), q) && NullSafe(Then(Space(gap), close), q);
  }

  /** What comes first in an object is white space or a quotation mark. */
  ghost predicate NoN(ts: Tokens, q: byte) {
    Text(ts, q) != [] && Text(ts, q)[0] != LETTER_N
  }

  lemma {:induction false} WsNoN(ws: bytes, x: bytes)
    requires AllWs(ws) && (x == [] || x[0] != LETTER_N)
    ensures ws + x == [] || (ws + x)[0] != LETTER_N
  {
    if ws == [] {
    } else {
      assert ws[0] in ws;
    }
  }

  lemma {:induction false} EndText(q: byte)
    ensures |Text(End, q)| == 0
  {}

  lemma {:induction false} TagSafe(tag: Option<Tag>, k: Kind, rest: Tokens, q: byte)
    requires TagOk(tag, k, q) && IsQuoteMark(q) && RawOk(rest, q) && NullSafe(rest, q)
    ensures RawOk(TagTokens(tag, rest), q) && NullSafe(TagTokens(tag, rest), q)
    ensures k.Obj? ==> NoN(TagTokens(tag, rest), q)
  {
    match tag
    case None =>
    case Some(t) =>
      var mid := Then(Space(t.mid), Then(Colon, rest));
      assert RawOk(mid, q) && NullSafe(mid, q);
      var key := Then(Quoted(t.key), mid);
      assert RawOk(key, q) && NullSafe(key, q);
      assert Text(key, q) == [q] + (t.key + [q] + Text(mid, q));
      assert Text(TagTokens(tag, rest), q) == t.pre + Text(key, q);
      WsNoN(t.pre, Text(key, q));
  }

  lemma {:induction false} ItemSafe(i: Item, k: Kind, rest: Tokens, q: byte)
    requires ItemOk(i, k, q) && IsQuoteMark(q) && RawOk(rest, q) && NullSafe(rest, q)
    ensures RawOk(ItemTokens(i, rest), q) && NullSafe(ItemTokens(i, rest), q)
    ensures k.Obj? ==> NoN(ItemTokens(i, rest), q)
  {
    ValueSafe(i.value, Then(Space(i.post), rest), q);
    TagSafe(i.tag, k, Then(Space(i.pre), ValueTokens(i.value, Then(Space(i.post), rest))), q);
  }

  lemma {:induction false} ItemsSafe(items: Items, k: Kind, rest: Tokens, q: byte)
    requires ItemsOk(items, k, q) && IsQuoteMark(q) && RawOk(rest, q) && NullSafe(rest, q)
    requires k.Obj? ==> NoN(rest, q)
    ensures RawOk(ItemsTokens(items, rest), q) && NullSafe(ItemsTokens(items, rest), q)
    ensures k.Obj? ==> NoN(ItemsTokens(items, rest), q)
  {
    match items
    case Nil =>
    case Cons(i, more) =>
      ItemsSafe(more, k, rest, q);
      ItemSafe(i, k, Then(Comma, ItemsTokens(more, rest)), q);
  }

  lemma {:induction false} PartialSafe(p: Partial, rest: Tokens, q: byte)
    requires PartialOk(p, q) && IsQuoteMark(q) && RawOk(rest, q) && NullSafe(rest, q)
    requires Text(rest, q) == [] || Text(rest, q)[0] != LETTER_N
    ensures RawOk(PartialTokens(p, rest), q) && NullSafe(PartialTokens(p, rest), q)
  {
    match p
    case Whole(v, post) =>
      assert RawOk(Then(Space(post), rest), q) && NullSafe(Then(Space(post), rest), q);
      ValueSafe(v, Then(Space(post), rest), q);
    case Opened(k, gap) =>
      assert RawOk(Then(Space(gap), rest), q) && NullSafe(Then(Space(gap), rest), q);
      WsNoN(gap, Text(rest, q));
    case Inside(k, before, tag, pre, inner) =>
      PartialSafe(inner, rest, q);
      var last := Then(Space(pre), PartialTokens(inner, rest));
      TagSafe(tag, k, last, q);
      ItemsSafe(before, k, TagTokens(tag, last), q);
  }

  // A whole value leaves no bracket due.

  lemma {:induction false} ValueDue(v: Value, rest: Tokens, stack: bytes)
    ensures Due(ValueTokens(v, rest), stack) == Due(rest, stack)
  {
    match v
    case Full(k, before, last, stray, gap) =>
      var tail := TailTokens(stray, gap, k, rest);
      ItemsDue(before, ItemTokens(last, tail), stack + [CloseByte(k)]);
      ItemDue(last, tail, stack + [CloseByte(k)]);
      TailDue(stray, gap, k, rest, stack);
    case Empty(k, gap) =>
      TailDue(false, gap, k, rest, stack);
    case _ =>
  }

  lemma {:induction false} TailDue(stray: bool, gap: bytes, k: Kind, rest: Tokens, stack: bytes)
    ensures Due(TailTokens(stray, gap, k, rest), stack + [CloseByte(k)]) == Due(rest, stack)
  {
    var due := stack + [CloseByte(k)];
    assert due[..|due| - 1] == stack;
    assert Due(Then(Close(k), rest), due) == Due(rest, stack);
    assert Due(Then(Space(gap), Then(Close(k), rest)), due) == Due(rest, stack);
  }

  lemma {:induction false} TagDue(tag: Option<Tag>, rest: Tokens, stack: bytes)
    ensures Due(TagTokens(tag, rest), stack) == Due(rest, stack)
  {
    match tag
    case None =>
    case Some(t) =>
      assert Due(Then(Space(t.mid), Then(Colon, rest)), stack) == Due(rest, stack);
  }

  lemma {:induction false} ItemDue(i: Item, rest: Tokens, stack: bytes)
    ensures Due(ItemTokens(i, rest), stack) == Due(rest, stack)
  {
    var value := ValueTokens(i.value, Then(Space(i.post), rest));
    TagDue(i.tag, Then(Space(i.pre), value), stack);
    ValueDue(i.value, Then(Space(i.post), rest), stack);
  }

  lemma {:induction false} ItemsDue(items: Items, rest: Tokens, stack: bytes)
    ensures Due(ItemsTokens(items, rest), stack) == Due(rest, stack)
  {
    match items
    case Nil =>
    case Cons(i, more) =>
      ItemDue(i, Then(Comma, ItemsTokens(more, rest)), stack);
      ItemsDue(more, rest, stack);
  }

  lemma {:induction false} PartialDue(p: Partial, rest: Tokens, stack: bytes)
    ensures Due(PartialTokens(p, rest), stack) == Due(rest, stack + Missing(p))
  {
    match p
    case Whole(v, post) =>
      ValueDue(v, Then(Space(post), rest), stack);
      assert stack + [] == stack;
    case Opened(k, gap) =>
      assert Due(Then(Space(gap), rest), stack + [CloseByte(k)]) == Due(rest, stack + [CloseByte(k)]);
    case Inside(k, before, tag, pre, inner) =>
      var last := Then(Space(pre), PartialTokens(inner, rest));
      ItemsDue(before, TagTokens(tag, last), stack + [CloseByte(k)]);
      TagDue(tag, last, stack + [CloseByte(k)]);
      PartialDue(inner, rest, stack + [CloseByte(k)]);
      Associative(stack, [CloseByte(k)], Missing(inner));
  }

  // ---------- The ends of a text ----------

  predicate IsFirst(b: byte) {
    IsSolid(b) && b != BACKTICK
  }

  lemma {:induction false} PartialFirst(p: Partial, rest: Tokens, q: byte)
    requires PartialOk(p, q) && IsQuoteMark(q)
    ensures var s := Text(PartialTokens(p, rest), q); s != [] && IsFirst(s[0])
  {
    var ts := PartialTokens(p, rest);
    var a := TokenBytes(ts.head, q);
    if ts.head.Bare? {
      ScalarBytes(ts.head.text);
      assert a[0] in a;
    }
    assert a != [] && IsFirst(a[0]) && Text(ts, q)[0] == a[0];
  }

  lemma {:induction false} ValueLast(v: Value, q: byte)
    requires ValueOk(v, q) && IsQuoteMark(q)
    ensures var s := Text(ValueTokens(v, End), q); s != [] && IsSolid(s[|s| - 1]) && s[|s| - 1] != COMMA
  {
    match v
    case Scalar(text) =>
      ScalarBytes(text);
      assert Text(ValueTokens(v, End), q) == text;
      assert text[|text| - 1] in text;
    case Full(k, before, last, stray, gap) =>
      FullLast(k, before, last, stray, gap, q);
    case Empty(k, gap) =>
      TailLast(false, gap, k, q);
    case _ =>
  }

  lemma {:induction false} FullLast(k: Kind, before: Items, last: Item, stray: bool, gap: bytes, q: byte)
    ensures var s := Text(ValueTokens(Full(k, before, last, stray, gap), End), q); s != [] && s[|s| - 1] == CloseByte(k)
  {
    var tail := TailTokens(stray, gap, k, End);
    ItemAppend(last, End, tail);
    ItemsAppend(before, ItemTokens(last, End), tail);
    AppendText(Then(Open(k), ItemsTokens(before, ItemTokens(last, End))), tail, q);
    TailLast(stray, gap, k, q);
  }

  lemma {:induction false} TailLast(stray: bool, gap: bytes, k: Kind, q: byte)
    ensures var s := Text(TailTokens(stray, gap, k, End), q); s != [] && s[|s| - 1] == CloseByte(k)
  {
    assert Text(Then(Close(k), End), q) == [CloseByte(k)];
    assert Text(TailTokens(false, gap, k, End), q) == gap + [CloseByte(k)];
  }

  /** Only a text that starts with a backtick is taken for a code block. */
  lemma {:induction false} StripNothing(pre: bytes, s: bytes)
    requires AllWs(pre) && s != [] && IsFirst(s[0])
    ensures StripCodeBlock(pre + s) == pre + s
  {
    TrimLeftWs(pre, s);
    SolidLeft(s);
    TrimRightPrefix(s);
    var trimmed := TrimSpace(pre + s);
    assert |trimmed| >= 3 ==> trimmed[..3][0] == s[0];
  }

  lemma {:induction false} TrimRightPrefix(s: bytes)
    ensures TrimRight(s) <= s
  {
    if TrailingSpace(s) == 0 {
    } else {
      TrimRightPrefix(s[..|s| - TrailingSpace(s)]);
    }
  }

  /** The library accepts a document with white space around it, because the pipeline trims first. */
  lemma {:induction false} TrimmedValid(pre: bytes, v: Value, post: bytes, lib: JsonLib)
    requires AllWs(pre) && Pristine(v) && AllWs(post) && ValueOk(v, QUOTE) && Depth(v) <= MAX_NESTING && Faithful(lib)
    ensures lib.valid(TrimSpace(Document(pre, v, post)))
    ensures TrimSpace(Document(pre, v, post)) == Text(ValueTokens(v, End), QUOTE)
  {
    var core := Text(ValueTokens(v, End), QUOTE);
    ValueText(v, Then(Space(post), End), QUOTE);
    assert Text(Then(Space(post), End), QUOTE) == post;
    assert Document(pre, v, post) == pre + core + post;
    ValueLast(v, QUOTE);
    PartialFirst(Whole(v, []), End, QUOTE);
    ValueText(v, Then(Space([]), End), QUOTE);
    EmptySpaceText(End, QUOTE);
    TrimAround(pre, core, post);
    assert Document([], v, []) == core;
    assert IsDocument(core, [], v, []);
  }
}
