/** The grammar of JSON texts (sections 2 to 7 of RFC 8259) as derivation trees, together with the kinds of damage
    that small models do to such texts. A tree prints as a list of tokens, and a list of tokens as bytes. */
module JsonSyntax {
  import opened Bytes

  // ---------- Scalars and strings ----------

  predicate IsDigit(b: byte) {
    48 <= b <= 57
  }

  predicate IsHexDigit(b: byte) {
    IsDigit(b) || 65 <= b <= 70 || 97 <= b <= 102
  }

  function DigitRun(s: bytes): (n: nat)
    ensures n <= |s| && forall i :: 0 <= i < n ==> IsDigit(s[i])
  {
    if s != [] && IsDigit(s[0]) then 1 + DigitRun(s[1..]) else 0
  }

  /** An exponent part, or nothing. */
  predicate IsExponent(s: bytes) {
    s == [] ||
    ((s[0] == 69 || s[0] == 101) &&
     var digits := if |s| > 1 && (s[1] == 43 || s[1] == 45) then s[2..] else s[1..];
     digits != [] && DigitRun(digits) == |digits|)
  }

  /** A fraction part followed by an exponent part, either of which may be missing. */
  predicate IsFraction(s: bytes) {
    if s != [] && s[0] == 46 then
      var n := DigitRun(s[1..]);
      n > 0 && IsExponent(s[1 + n..])
    else
      IsExponent(s)
  }

  /** Section 6: an optional minus sign, an integer without leading zeros, a fraction and an exponent. */
  predicate IsNumber(s: bytes) {
    var unsigned := if s != [] && s[0] == 45 then s[1..] else s;
    var n := DigitRun(unsigned);
    n > 0 && (unsigned[0] == 48 ==> n == 1) && IsFraction(unsigned[n..])
  }

  /** Sections 3 and 6: `true`, `false`, `null` or a number. */
  predicate IsScalar(s: bytes) {
    s == [116, 114, 117, 101] || s == [102, 97, 108, 115, 101] || s == NULL || IsNumber(s)
  }

  /** The bytes that scalars are made of. */
  predicate IsScalarByte(b: byte) {
    IsDigit(b) || b == 43 || b == 45 || b == 46 || b == 69 || 97 <= b <= 122
  }

  /** The escape letters of section 7 other than `u`. */
  predicate IsEscape(b: byte) {
    b == QUOTE || b == BACKSLASH || b == 47 || b == 98 || b == 102 || b == 110 || b == 114 || b == 116
  }

  /** Section 7: what may stand between the two quotation marks of a string. */
  predicate IsBody(s: bytes) {
    if s == [] then true
    else if s[0] == BACKSLASH then
      (|s| >= 2 && IsEscape(s[1]) && IsBody(s[2..])) ||
      (|s| >= 6 && s[1] == 117 && IsHexDigit(s[2]) && IsHexDigit(s[3]) && IsHexDigit(s[4]) && IsHexDigit(s[5]) && IsBody(s[6..]))
    else s[0] >= 32 && s[0] != QUOTE && IsBody(s[1..])
  }

  // ---------- Derivation trees ----------

  datatype Kind = Arr | Obj

  function OpenByte(k: Kind): byte {
    if k.Arr? then OPEN_BRACKET else OPEN_BRACE
  }

  function CloseByte(k: Kind): byte {
    if k.Arr? then CLOSE_BRACKET else CLOSE_BRACE
  }

  /** A value, with its white space. Three kinds of damage can occur: `{null}` for `null`, a stray comma after the
      last item of a container, and noise bytes in a string. */
  datatype Value =
    | Scalar(text: bytes)
    | Str(body: bytes)
    | NullInBraces
    | Empty(kind: Kind, gap: bytes)
    | Full(kind: Kind, before: Items, last: Item, stray: bool, gap: bytes)

  /** An element of an array (no tag) or a member of an object (with one). */
  datatype Item = Item(tag: Option<Tag>, pre: bytes, value: Value, post: bytes)

  datatype Items = Nil | Cons(head: Item, tail: Items)

  datatype Tag = Tag(pre: bytes, key: bytes, mid: bytes)

  /** A text that stops right after a complete element or an opening bracket: a whole value, or a container with
      some complete items of which the last thing written is again such a text. */
  datatype Partial =
    | Whole(value: Value, post: bytes)
    | Opened(kind: Kind, gap: bytes)
    | Inside(kind: Kind, before: Items, tag: Option<Tag>, pre: bytes, inner: Partial)

  // ---------- Well-formedness ----------

  predicate TagPristine(tag: Option<Tag>, k: Kind) {
    match tag
    case None => k.Arr?
    case Some(l) => k.Obj? && AllWs(l.pre) && AllWs(l.mid) && IsBody(l.key)
  }

  /** A value exactly as the grammar has it. */
  predicate Pristine(v: Value) {
    match v
    case Scalar(text) => IsScalar(text)
    case Str(body) => IsBody(body)
    case NullInBraces => false
    case Empty(_, gap) => AllWs(gap)
    case Full(k, before, last, stray, gap) => !stray && ItemsPristine(before, k) && ItemPristine(last, k) && AllWs(gap)
  }

  predicate ItemPristine(i: Item, k: Kind) {
    TagPristine(i.tag, k) && AllWs(i.pre) && Pristine(i.value) && AllWs(i.post)
  }

  predicate ItemsPristine(items: Items, k: Kind) {
    match items
    case Nil => true
    case Cons(i, rest) => ItemPristine(i, k) && ItemsPristine(rest, k)
  }

  function Max(a: nat, b: nat): nat {
    if a < b then b else a
  }

  /** The nesting depth of containers. */
  function Depth(v: Value): nat {
    match v
    case Empty(_, _) => 1
    case Full(_, before, last, _, _) => 1 + Max(ItemsDepth(before), Depth(last.value))
    case _ => 0
  }

  function ItemsDepth(items: Items): nat {
    match items
    case Nil => 0
    case Cons(i, rest) => Max(Depth(i.value), ItemsDepth(rest))
  }

  // ---------- Tokens ----------

  datatype Token =
    | Space(ws: bytes)
    | Open(kind: Kind)
    | Close(kind: Kind)
    | Comma
    | Colon
    | Bare(text: bytes)
    | Quoted(body: bytes)
    | NullBraces

  datatype Tokens = End | Then(head: Token, tail: Tokens)

  /** The bytes of a token, with strings between the quotation marks `q`. */
  function TokenBytes(t: Token, q: byte): bytes {
    match t
    case Space(ws) => ws
    case Open(k) => [OpenByte(k)]
    case Close(k) => [CloseByte(k)]
    case Comma => [COMMA]
    case Colon => [COLON]
    case Bare(text) => text
    case Quoted(body) => [q] + body + [q]
    case NullBraces => BRACED_NULL
  }

  function Text(ts: Tokens, q: byte): bytes {
    match ts
    case End => []
    case Then(t, rest) => TokenBytes(t, q) + Text(rest, q)
  }

  // Each printer puts the tokens of its argument in front of the tokens that follow it.

  function ValueTokens(v: Value, rest: Tokens): Tokens {
    match v
    case Scalar(text) => Then(Bare(text), rest)
    case Str(body) => Then(Quoted(body), rest)
    case NullInBraces => Then(NullBraces, rest)
    case Empty(k, gap) => Then(Open(k), Then(Space(gap), Then(Close(k), rest)))
    case Full(k, before, last, stray, gap) =>
      Then(Open(k), ItemsTokens(before, ItemTokens(last, TailTokens(stray, gap, k, rest))))
  }

  function TailTokens(stray: bool, gap: bytes, k: Kind, rest: Tokens): Tokens {
    var close := Then(Space(gap), Then(Close(k), rest));
    if stray then Then(Comma, close) else close
  }

  function TagTokens(tag: Option<Tag>, rest: Tokens): Tokens {
    match tag
    case None => rest
    case Some(l) => Then(Space(l.pre), Then(Quoted(l.key), Then(Space(l.mid), Then(Colon, rest))))
  }

  function ItemTokens(i: Item, rest: Tokens): Tokens {
    TagTokens(i.tag, Then(Space(i.pre), ValueTokens(i.value, Then(Space(i.post), rest))))
  }

  /** Items that are each followed by a comma. */
  function ItemsTokens(items: Items, rest: Tokens): Tokens {
    match items
    case Nil => rest
    case Cons(i, more) => ItemTokens(i, Then(Comma, ItemsTokens(more, rest)))
  }

  function PartialTokens(p: Partial, rest: Tokens): Tokens {
    match p
    case Whole(v, post) => ValueTokens(v, Then(Space(post), rest))
    case Opened(k, gap) => Then(Open(k), Then(Space(gap), rest))
    case Inside(k, before, tag, pre, inner) =>
      Then(Open(k), ItemsTokens(before, TagTokens(tag, Then(Space(pre), PartialTokens(inner, rest)))))
  }

  // ---------- JSON texts ----------

  /** The text of a value between white space. */
  function Document(pre: bytes, v: Value, post: bytes): bytes {
    Text(Then(Space(pre), ValueTokens(v, Then(Space(post), End))), QUOTE)
  }

  /** `s` is a JSON text whose containers nest at most `limit` deep. */
  ghost predicate IsJsonWithin(s: bytes, limit: nat) {
    exists pre, v, post :: IsDocument(s, pre, v, post) && Depth(v) <= limit
  }

  /** `v` between white space is a derivation of `s`. */
  predicate IsDocument(s: bytes, pre: bytes, v: Value, post: bytes) {
    AllWs(pre) && Pristine(v) && AllWs(post) && s == Document(pre, v, post)
  }

  ghost predicate IsJson(s: bytes) {
    exists pre, v, post :: IsDocument(s, pre, v, post)
  }

  // ---------- Completion ----------

  /** The shortest completion of a partial text: every open container ends where the text stops. */
  function Complete(p: Partial): Value {
    match p
    case Whole(v, _) => v
    case Opened(k, gap) => Empty(k, gap)
    case Inside(k, before, tag, pre, inner) => Full(k, before, Item(tag, pre, Complete(inner), After(inner)), false, [])
  }

  /** The white space after the completed value. */
  function After(p: Partial): bytes {
    if p.Whole? then p.post else []
  }

  /** The closing brackets that a partial text lacks, outermost first. */
  function Missing(p: Partial): bytes {
    match p
    case Whole(_, _) => []
    case Opened(k, _) => [CloseByte(k)]
    case Inside(k, _, _, _, inner) => [CloseByte(k)] + Missing(inner)
  }

  // ---------- Lemmas ----------

  lemma {:induction false} ExponentBytes(s: bytes)
    requires IsExponent(s)
    ensures forall b :: b in s ==> IsScalarByte(b)
  {
    if s == [] {
    } else {
      var digits := if |s| > 1 && (s[1] == 43 || s[1] == 45) then s[2..] else s[1..];
      assert s == s[..|s| - |digits|] + digits;
    }
  }

  lemma {:induction false} FractionBytes(s: bytes)
    requires IsFraction(s)
    ensures forall b :: b in s ==> IsScalarByte(b)
  {
    if s != [] && s[0] == 46 {
      var n := DigitRun(s[1..]);
      assert s == [s[0]] + s[1..][..n] + s[1 + n..];
      ExponentBytes(s[1 + n..]);
    } else {
      ExponentBytes(s);
    }
  }

  /** A scalar is not empty and contains no white space, bracket, comma, quotation mark or backslash. */
  lemma {:induction false} ScalarBytes(s: bytes)
    requires IsScalar(s)
    ensures s != [] && forall b :: b in s ==> IsScalarByte(b)
  {
    if IsNumber(s) {
      var unsigned := if s != [] && s[0] == 45 then s[1..] else s;
      var n := DigitRun(unsigned);
      assert unsigned == unsigned[..n] + unsigned[n..];
      FractionBytes(unsigned[n..]);
      assert s == s[..|s| - |unsigned|] + unsigned;
    }
  }

  function Append(a: Tokens, b: Tokens): Tokens {
    match a
    case End => b
    case Then(t, rest) => Then(t, Append(rest, b))
  }

  lemma {:induction false} AppendText(a: Tokens, b: Tokens, q: byte)
    ensures Text(Append(a, b), q) == Text(a, q) + Text(b, q)
  {
    match a
    case End =>
    case Then(t, rest) => AppendText(rest, b, q);
  }

  // A printer puts its own tokens in front of the others and leaves those alone.

  lemma {:induction false} ValueAppend(v: Value, a: Tokens, b: Tokens)
    ensures ValueTokens(v, Append(a, b)) == Append(ValueTokens(v, a), b)
  {
    match v
    case Full(k, before, last, stray, gap) =>
      TailAppend(stray, gap, k, a, b);
      ItemAppend(last, TailTokens(stray, gap, k, a), b);
      ItemsAppend(before, ItemTokens(last, TailTokens(stray, gap, k, a)), b);
    case Empty(k, gap) =>
      TailAppend(false, gap, k, a, b);
    case _ =>
  }

  lemma {:induction false} TailAppend(stray: bool, gap: bytes, k: Kind, a: Tokens, b: Tokens)
    ensures TailTokens(stray, gap, k, Append(a, b)) == Append(TailTokens(stray, gap, k, a), b)
  {
    var close := Then(Space(gap), Then(Close(k), a));
    assert Append(close, b) == Then(Space(gap), Then(Close(k), Append(a, b)));
  }

  lemma {:induction false} TagAppend(tag: Option<Tag>, a: Tokens, b: Tokens)
    ensures TagTokens(tag, Append(a, b)) == Append(TagTokens(tag, a), b)
  {
    match tag
    case None =>
    case Some(t) =>
      var tail := Then(Space(t.mid), Then(Colon, a));
      assert Append(tail, b) == Then(Space(t.mid), Then(Colon, Append(a, b)));
  }

  lemma {:induction false} ItemAppend(i: Item, a: Tokens, b: Tokens)
    ensures ItemTokens(i, Append(a, b)) == Append(ItemTokens(i, a), b)
  {
    ValueAppend(i.value, Then(Space(i.post), a), b);
    TagAppend(i.tag, Then(Space(i.pre), ValueTokens(i.value, Then(Space(i.post), a))), b);
  }

  lemma {:induction false} ItemsAppend(items: Items, a: Tokens, b: Tokens)
    ensures ItemsTokens(items, Append(a, b)) == Append(ItemsTokens(items, a), b)
  {
    match items
    case Nil =>
    case Cons(i, more) =>
      ItemsAppend(more, a, b);
      ItemAppend(i, Then(Comma, ItemsTokens(more, a)), b);
  }

  lemma {:induction false} PartialAppend(p: Partial, a: Tokens, b: Tokens)
    ensures PartialTokens(p, Append(a, b)) == Append(PartialTokens(p, a), b)
  {
    match p
    case Whole(v, post) => ValueAppend(v, Then(Space(post), a), b);
    case Opened(_, _) =>
    case Inside(_, before, tag, pre, inner) =>
      PartialAppend(inner, a, b);
      TagAppend(tag, Then(Space(pre), PartialTokens(inner, a)), b);
      ItemsAppend(before, TagTokens(tag, Then(Space(pre), PartialTokens(inner, a))), b);
  }

  lemma {:induction false} ValueText(v: Value, rest: Tokens, q: byte)
    ensures Text(ValueTokens(v, rest), q) == Text(ValueTokens(v, End), q) + Text(rest, q)
  {
    ValueAppend(v, End, rest);
    AppendText(ValueTokens(v, End), rest, q);
  }

  /** The tokens of the missing brackets, with the empty white space that a completed container has there. */
  function MissingTokens(p: Partial, rest: Tokens): Tokens {
    match p
    case Whole(_, _) => rest
    case Opened(k, _) => Then(Close(k), Then(Space([]), rest))
    case Inside(k, _, _, _, inner) => MissingTokens(inner, Then(Space([]), Then(Close(k), Then(Space([]), rest))))
  }

  lemma {:induction false} EmptySpaceText(rest: Tokens, q: byte)
    ensures Text(Then(Space([]), rest), q) == Text(rest, q)
  {}

  lemma {:induction false} CloseText(k: Kind, rest: Tokens, q: byte)
    ensures Text(Then(Close(k), Then(Space([]), rest)), q) == [CloseByte(k)] + Text(rest, q)
  {
    EmptySpaceText(rest, q);
  }

  /** The missing brackets in the order in which they have to be written. */
  function Closers(p: Partial): (s: bytes)
    ensures s == Reverse(Missing(p))
  {
    match p
    case Whole(_, _) => []
    case Opened(k, _) =>
      ReverseFirst(CloseByte(k), []);
      assert [CloseByte(k)] + [] == [CloseByte(k)];
      [CloseByte(k)]
    case Inside(k, _, _, _, inner) =>
      ReverseFirst(CloseByte(k), Missing(inner));
      Closers(inner) + [CloseByte(k)]
  }

  lemma {:induction false} MissingText(p: Partial, rest: Tokens, q: byte)
    ensures Text(MissingTokens(p, rest), q) == Closers(p) + Text(rest, q)
  {
    match p
    case Whole(_, _) =>
    case Opened(k, _) =>
      CloseText(k, rest, q);
    case Inside(k, _, _, _, inner) =>
      var close := Then(Close(k), Then(Space([]), rest));
      MissingText(inner, Then(Space([]), close), q);
      EmptySpaceText(close, q);
      CloseText(k, rest, q);
      Associative(Closers(inner), [CloseByte(k)], Text(rest, q));
  }

  lemma {:induction false} CompleteTokens(p: Partial, rest: Tokens)
    ensures PartialTokens(p, MissingTokens(p, rest)) == ValueTokens(Complete(p), Then(Space(After(p)), rest))
  {
    match p
    case Whole(_, _) =>
    case Opened(_, _) =>
    case Inside(k, _, _, _, inner) =>
      CompleteTokens(inner, Then(Space([]), Then(Close(k), Then(Space([]), rest))));
  }

  /** A partial text followed by the brackets it lacks is the text of its completion. */
  lemma {:induction false} CompleteText(p: Partial, q: byte)
    ensures Text(PartialTokens(p, End), q) + Reverse(Missing(p)) == Text(ValueTokens(Complete(p), Then(Space(After(p)), End)), q)
  {
    var closers := MissingTokens(p, End);
    PartialAppend(p, End, closers);
    AppendText(PartialTokens(p, End), closers, q);
    MissingText(p, End, q);
    CompleteTokens(p, End);
  }

}
