/** What each pass of the pipeline does to a text that is printed from tokens. */
module FixJsonTokens {
  import opened Bytes
  import opened JsonSyntax
  import opened FixJson
  import opened JsonDamage

  predicate TokenOk(t: Token, q: byte) {
    match t
    case Space(ws) => AllWs(ws)
    case Bare(text) => IsScalar(text)
    case Quoted(body) => BodyOk(body, q)
    case _ => true
  }

  predicate TokensOk(ts: Tokens, q: byte) {
    match ts
    case End => true
    case Then(t, rest) => TokenOk(t, q) && TokensOk(rest, q)
  }

  predicate IsQuoteMark(q: byte) {
    q == QUOTE || q == APOSTROPHE
  }

  /** Outside strings there are no quotation marks and no noise. */
  predicate IsPlain(b: byte) {
    b >= 9 && b != QUOTE && b != APOSTROPHE && b != BACKSLASH
  }

  lemma {:induction false} QuotedText(body: bytes, rest: Tokens, q: byte)
    ensures var s := Text(Then(Quoted(body), rest), q);
            s != [] && s[0] == q && s[1..] == body + [q] + Text(rest, q)
  {
    var x := Text(rest, q);
    assert [q] + body + [q] + x == [q] + (body + [q] + x);
  }

  predicate IsBracket(b: byte) {
    b == OPEN_BRACE || b == CLOSE_BRACE || b == OPEN_BRACKET || b == CLOSE_BRACKET
  }

  lemma {:induction false} TokenBytesPlain(t: Token, q: byte)
    requires TokenOk(t, q) && !t.Quoted?
    ensures forall b :: b in TokenBytes(t, q) ==> IsPlain(b)
    ensures t.Space? || t.Bare? ==> forall b :: b in TokenBytes(t, q) ==> b != COMMA && !IsBracket(b)
    ensures t.Bare? ==> TokenBytes(t, q) != [] && !IsWs(TokenBytes(t, q)[0])
  {
    match t
    case Bare(text) => ScalarBytes(text);
    case _ =>
  }

  // ---------- Braced nulls ----------

  function NullToken(t: Token): Token {
    match t
    case NullBraces => Bare(NULL)
    case Quoted(body) => Quoted(FixNullBraces(body))
    case _ => t
  }

  function Nulls(ts: Tokens): Tokens {
    match ts
    case End => End
    case Then(t, rest) => Then(NullToken(t), Nulls(rest))
  }

  /** No object starts with the letter n, so `{` never starts a `{null}` of its own. */
  ghost predicate NullSafe(ts: Tokens, q: byte) {
    match ts
    case End => true
    case Then(t, rest) =>
      NullSafe(rest, q) && (t == Open(Obj) ==> Text(rest, q) == [] || Text(rest, q)[0] != LETTER_N)
  }

  /** The tokens of a damaged text: its strings are in order once the null pass has gone over them. */
  predicate RawOk(ts: Tokens, q: byte) {
    match ts
    case End => true
    case Then(t, rest) => (if t.Quoted? then StringOk(t.body, q) else TokenOk(t, q)) && RawOk(rest, q)
  }

  lemma {:induction false} NullStep(b: byte, x: bytes)
    requires !StartsWith([b] + x, BRACED_NULL)
    ensures FixNullBraces([b] + x) == [b] + FixNullBraces(x)
  {
    assert ([b] + x)[1..] == x;
  }

  lemma {:induction false} NullBraced(x: bytes)
    ensures FixNullBraces(BRACED_NULL + x) == NULL + FixNullBraces(x)
  {
    var s := BRACED_NULL + x;
    assert s[..6] == BRACED_NULL && s[6..] == x;
  }

  /** No `{null}` crosses the end of a string. */
  lemma {:induction false} NullString(a: bytes, q: byte, x: bytes)
    requires IsQuoteMark(q)
    ensures FixNullBraces(a + ([q] + x)) == FixNullBraces(a) + ([q] + FixNullBraces(x))
  {
    var y := [q] + x;
    NullAcross(a, q, x);
    if a == [] {
      assert a + y == y;
      NullStep(q, x);
    } else if StartsWith(a, BRACED_NULL) {
      NullString(a[6..], q, x);
      Split(a, 6, y);
      NullBraced(a[6..] + y);
      Associative(NULL, FixNullBraces(a[6..]), [q] + FixNullBraces(x));
    } else {
      NullString(a[1..], q, x);
      Split(a, 1, y);
      NullStep(a[0], a[1..] + y);
      Associative([a[0]], FixNullBraces(a[1..]), [q] + FixNullBraces(x));
    }
  }

  lemma {:induction false} Split(a: bytes, n: nat, y: bytes)
    requires n <= |a|
    ensures a + y == a[..n] + (a[n..] + y)
  {}

  lemma {:induction false} NullAcross(a: bytes, q: byte, x: bytes)
    requires IsQuoteMark(q)
    ensures StartsWith(a + ([q] + x), BRACED_NULL) == StartsWith(a, BRACED_NULL)
  {
    var s := a + ([q] + x);
    assert |a| >= 6 ==> s[..6] == a[..6];
    assert |a| < 6 <= |s| ==> s[..6][|a|] == q;
  }

  /** `{` in front of something that does not start with n. */
  lemma {:induction false} NullOpen(x: bytes)
    requires x == [] || x[0] != LETTER_N
    ensures FixNullBraces([OPEN_BRACE] + x) == [OPEN_BRACE] + FixNullBraces(x)
  {
    var s := [OPEN_BRACE] + x;
    assert s[1..] == x;
    assert |s| >= 6 ==> s[..6][1] == x[0];
  }

  lemma {:induction false} Wrap(q: byte, body: bytes, x: bytes)
    ensures [q] + body + [q] + x == [q] + (body + ([q] + x))
  {}

  lemma {:induction false} NullQuoted(body: bytes, q: byte, x: bytes)
    requires IsQuoteMark(q)
    ensures FixNullBraces([q] + body + [q] + x) == [q] + FixNullBraces(body) + [q] + FixNullBraces(x)
  {
    NullString(body, q, x);
    NullRun([q], body + ([q] + x));
    Wrap(q, body, x);
    Wrap(q, FixNullBraces(body), FixNullBraces(x));
  }

  lemma {:induction false} NullTokenText(t: Token, q: byte, x: bytes)
    requires IsQuoteMark(q) && (t.Quoted? || TokenOk(t, q))
    requires t == Open(Obj) ==> x == [] || x[0] != LETTER_N
    ensures FixNullBraces(TokenBytes(t, q) + x) == TokenBytes(NullToken(t), q) + FixNullBraces(x)
  {
    match t
    case Quoted(body) =>
      NullQuoted(body, q, x);
    case NullBraces =>
      NullBraced(x);
    case Open(k) =>
      if k.Obj? {
        NullOpen(x);
      } else {
        NullRun([OPEN_BRACKET], x);
      }
    case _ =>
      TokenBytesPlain(t, q);
      NullRun(TokenBytes(t, q), x);
  }

  lemma {:induction false} NullPass(ts: Tokens, q: byte)
    requires IsQuoteMark(q) && RawOk(ts, q) && NullSafe(ts, q)
    ensures FixNullBraces(Text(ts, q)) == Text(Nulls(ts), q)
    ensures TokensOk(Nulls(ts), q)
  {
    match ts
    case End =>
    case Then(t, rest) =>
      NullPass(rest, q);
      NullTokenText(t, q, Text(rest, q));
  }

  /** A string that starts with an escape, and what follows it. */
  lemma {:induction false} AfterEscape(a: bytes, q: byte, x: bytes)
    requires |a| >= 2
    ensures var s := a + [q] + x; s[0] == a[0] && s[1..][0] == a[1] && s[1..][1..] == a[2..] + [q] + x
  {}

  // ---------- Control characters ----------

  function Denoised(ts: Tokens): Tokens {
    match ts
    case End => End
    case Then(t, rest) => Then(if t.Quoted? then Quoted(Denoise(t.body)) else t, Denoised(rest))
  }

  lemma {:induction false} ControlRun(a: bytes, x: bytes)
    requires QUOTE !in a
    ensures DropControls(a + x, Out) == a + DropControls(x, Out)
  {
    if a == [] {
      assert a + x == x;
    } else {
      assert (a + x)[1..] == a[1..] + x && (a + x)[0] == a[0];
      ControlRun(a[1..], x);
      Associative([a[0]], a[1..], DropControls(x, Out));
    }
  }

  lemma {:induction false} ControlBody(a: bytes, x: bytes)
    requires Closed(a, QUOTE)
    ensures DropControls(a + [QUOTE] + x, In) == Denoise(a) + [QUOTE] + DropControls(x, Out)
  {
    var s, y := a + [QUOTE] + x, [QUOTE] + DropControls(x, Out);
    if a == [] {
      assert s[1..] == x;
    } else if a[0] != BACKSLASH {
      assert s[0] == a[0] && s[1..] == a[1..] + [QUOTE] + x;
      ControlBody(a[1..], x);
      assert DropControls(s, In) == (if IsNoise(a[0]) then [] else [a[0]]) + DropControls(s[1..], In);
    } else {
      AfterEscape(a, QUOTE, x);
      assert a[1..][1..] == a[2..];
      ControlBody(a[2..], x);
      assert DropControls(s, In) == [a[0]] + DropControls(s[1..], Esc);
      assert DropControls(s[1..], Esc) == [a[1]] + DropControls(s[1..][1..], In);
      assert Denoise(a) == [a[0]] + ([a[1]] + Denoise(a[2..]));
    }
  }

  lemma {:induction false} ControlTokens(ts: Tokens)
    requires TokensOk(ts, QUOTE)
    ensures DropControls(Text(ts, QUOTE), Out) == Text(Denoised(ts), QUOTE)
  {
    match ts
    case End =>
    case Then(t, rest) =>
      ControlTokens(rest);
      var x := Text(rest, QUOTE);
      if t.Quoted? {
        QuotedText(t.body, rest, QUOTE);
        ControlBody(t.body, x);
      } else {
        TokenBytesPlain(t, QUOTE);
        ControlRun(TokenBytes(t, QUOTE), x);
      }
  }

  /** A text between apostrophes has no quotation mark, so the pass finds no string in it. */
  lemma {:induction false} NoQuotes(ts: Tokens)
    requires TokensOk(ts, APOSTROPHE)
    ensures QUOTE !in Text(ts, APOSTROPHE) && Denoised(ts) == ts
  {
    match ts
    case End =>
    case Then(t, rest) =>
      NoQuotes(rest);
      if !t.Quoted? {
        TokenBytesPlain(t, APOSTROPHE);
      }
  }

  lemma {:induction false} ControlPass(ts: Tokens, q: byte)
    requires IsQuoteMark(q) && TokensOk(ts, q)
    ensures DropControls(Text(ts, q), Out) == Text(Denoised(ts), q)
  {
    if q == QUOTE {
      ControlTokens(ts);
    } else {
      NoQuotes(ts);
      assert Text(ts, q) + [] == Text(ts, q);
      ControlRun(Text(ts, q), []);
    }
  }

  // ---------- Single quotes ----------

  lemma {:induction false} RequoteRun(a: bytes, x: bytes)
    requires APOSTROPHE !in a
    ensures Requote(a + x, Out) == a + Requote(x, Out)
  {
    if a == [] {
      assert a + x == x;
    } else {
      assert (a + x)[1..] == a[1..] + x && (a + x)[0] == a[0];
      RequoteRun(a[1..], x);
      Associative([a[0]], a[1..], Requote(x, Out));
    }
  }

  lemma {:induction false} RequoteBody(a: bytes, x: bytes)
    requires Closed(a, APOSTROPHE)
    ensures Requote(a + [APOSTROPHE] + x, In) == a + [QUOTE] + Requote(x, Out)
  {
    var s, y := a + [APOSTROPHE] + x, [QUOTE] + Requote(x, Out);
    if a == [] {
      assert s[1..] == x;
    } else if a[0] != BACKSLASH {
      assert s[0] == a[0] && s[1..] == a[1..] + [APOSTROPHE] + x;
      RequoteBody(a[1..], x);
      assert Requote(s, In) == [a[0]] + Requote(s[1..], In);
    } else {
      AfterEscape(a, APOSTROPHE, x);
      RequoteBody(a[2..], x);
      assert Requote(s, In) == [a[0]] + Requote(s[1..], Esc);
      assert Requote(s[1..], Esc) == [a[1]] + Requote(s[1..][1..], In);
      UnconsTwo(a);
    }
  }

  lemma {:induction false} RequoteTokens(ts: Tokens)
    requires TokensOk(ts, APOSTROPHE)
    ensures Requote(Text(ts, APOSTROPHE), Out) == Text(ts, QUOTE)
  {
    match ts
    case End =>
    case Then(t, rest) =>
      RequoteTokens(rest);
      var x := Text(rest, APOSTROPHE);
      if t.Quoted? {
        var s := Text(ts, APOSTROPHE);
        QuotedText(t.body, rest, APOSTROPHE);
        RequoteBody(t.body, x);
        assert Requote(s, Out) == [QUOTE] + Requote(s[1..], In);
      } else {
        TokenBytesPlain(t, APOSTROPHE);
        RequoteRun(TokenBytes(t, APOSTROPHE), x);
      }
  }

  lemma {:induction false} QuotedHasQuote(body: bytes)
    ensures QUOTE in TokenBytes(Quoted(body), QUOTE)
  {
    assert TokenBytes(Quoted(body), QUOTE)[0] == QUOTE;
  }

  /** Without a quotation mark there is no string, and without strings there is no apostrophe. */
  lemma {:induction false} NoApostrophes(ts: Tokens)
    requires TokensOk(ts, QUOTE) && QUOTE !in Text(ts, QUOTE)
    ensures APOSTROPHE !in Text(ts, QUOTE)
  {
    match ts
    case End =>
    case Then(t, rest) =>
      assert forall b :: b in TokenBytes(t, QUOTE) ==> b in Text(ts, QUOTE);
      assert forall b :: b in Text(rest, QUOTE) ==> b in Text(ts, QUOTE);
      NoApostrophes(rest);
      if t.Quoted? {
        QuotedHasQuote(t.body);
      } else {
        TokenBytesPlain(t, QUOTE);
      }
  }

  lemma {:induction false} QuotePass(ts: Tokens, q: byte)
    requires IsQuoteMark(q) && TokensOk(ts, q)
    ensures SingleToDouble(Text(ts, q)) == Text(ts, QUOTE)
  {
    if q == APOSTROPHE {
      NoQuotes(ts);
      RequoteTokens(ts);
    } else if QUOTE !in Text(ts, q) {
      NoApostrophes(ts);
      assert Text(ts, q) + [] == Text(ts, q);
      RequoteRun(Text(ts, q), []);
    }
  }

  // ---------- Trailing commas ----------

  predicate CloserAhead(ts: Tokens) {
    match ts
    case End => false
    case Then(t, rest) => if t.Space? then CloserAhead(rest) else t.Close?
  }

  function Uncommaed(ts: Tokens): Tokens {
    match ts
    case End => End
    case Then(t, rest) => if t.Comma? && CloserAhead(rest) then Uncommaed(rest) else Then(t, Uncommaed(rest))
  }

  lemma {:induction false} CloserNextWs(ws: bytes, x: bytes)
    requires AllWs(ws)
    ensures CloserNext(ws + x) == CloserNext(x)
  {
    if ws == [] {
      assert ws + x == x;
    } else {
      assert (ws + x)[1..] == ws[1..] + x && IsWs(ws[0]);
      CloserNextWs(ws[1..], x);
    }
  }

  lemma {:induction false} CloserTokens(ts: Tokens)
    requires TokensOk(ts, QUOTE)
    ensures CloserNext(Text(ts, QUOTE)) == CloserAhead(ts)
  {
    match ts
    case End =>
    case Then(t, rest) =>
      if t.Space? {
        CloserNextWs(t.ws, Text(rest, QUOTE));
        CloserTokens(rest);
      } else {
        var s, a := Text(ts, QUOTE), TokenBytes(t, QUOTE);
        if t.Bare? {
          TokenBytesPlain(t, QUOTE);
          assert a[0] in a;
        }
        assert a != [] && s[0] == a[0];
      }
  }

  lemma {:induction false} CommaRun(a: bytes, x: bytes)
    requires QUOTE !in a && COMMA !in a
    ensures DropCommas(a + x, Out) == a + DropCommas(x, Out)
  {
    if a == [] {
      assert a + x == x;
    } else {
      assert (a + x)[1..] == a[1..] + x && (a + x)[0] == a[0];
      CommaRun(a[1..], x);
      Associative([a[0]], a[1..], DropCommas(x, Out));
    }
  }

  lemma {:induction false} CommaBody(a: bytes, x: bytes)
    requires Closed(a, QUOTE)
    ensures DropCommas(a + [QUOTE] + x, In) == a + [QUOTE] + DropCommas(x, Out)
  {
    var s := a + [QUOTE] + x;
    if a == [] {
      assert s[1..] == x;
    } else if a[0] != BACKSLASH {
      assert s[0] == a[0] && s[1..] == a[1..] + [QUOTE] + x;
      CommaBody(a[1..], x);
      assert DropCommas(s, In) == [a[0]] + DropCommas(s[1..], In);
    } else {
      AfterEscape(a, QUOTE, x);
      CommaBody(a[2..], x);
      assert DropCommas(s, In) == [a[0]] + DropCommas(s[1..], Esc);
      assert DropCommas(s[1..], Esc) == [a[1]] + DropCommas(s[1..][1..], In);
      UnconsTwo(a);
    }
  }

  lemma {:induction false} CommaQuoted(body: bytes, rest: Tokens)
    requires BodyOk(body, QUOTE)
    ensures DropCommas(Text(Then(Quoted(body), rest), QUOTE), Out) == [QUOTE] + body + [QUOTE] + DropCommas(Text(rest, QUOTE), Out)
  {
    var s, x := Text(Then(Quoted(body), rest), QUOTE), Text(rest, QUOTE);
    QuotedText(body, rest, QUOTE);
    CommaBody(body, x);
    Wrap(QUOTE, body, DropCommas(x, Out));
    assert DropCommas(s, Out) == [QUOTE] + DropCommas(s[1..], In);
  }

  lemma {:induction false} CommaTokens(ts: Tokens)
    requires TokensOk(ts, QUOTE)
    ensures DropCommas(Text(ts, QUOTE), Out) == Text(Uncommaed(ts), QUOTE)
  {
    match ts
    case End =>
    case Then(t, rest) =>
      CommaTokens(rest);
      var s, x := Text(ts, QUOTE), Text(rest, QUOTE);
      match t {
        case Quoted(body) =>
          CommaQuoted(body, rest);
        case Comma =>
          assert s[1..] == x;
          CloserTokens(rest);
        case _ =>
          TokenBytesPlain(t, QUOTE);
          CommaRun(TokenBytes(t, QUOTE), x);
      }
  }

  // ---------- Brackets ----------

  /** The closing brackets that are due after the tokens, when `stack` was due before. */
  function Due(ts: Tokens, stack: bytes): bytes {
    match ts
    case End => stack
    case Then(Open(k), rest) => Due(rest, stack + [CloseByte(k)])
    case Then(Close(k), rest) =>
      Due(rest, if stack != [] && stack[|stack| - 1] == CloseByte(k) then stack[..|stack| - 1] else stack)
    case Then(_, rest) => Due(rest, stack)
  }

  predicate NullFree(ts: Tokens) {
    match ts
    case End => true
    case Then(t, rest) => !t.NullBraces? && NullFree(rest)
  }

  lemma {:induction false} BracketRun(a: bytes, x: bytes, stack: bytes)
    requires QUOTE !in a && forall b :: b in a ==> !IsBracket(b)
    ensures Brackets(a + x, Out, stack) == Brackets(x, Out, stack)
  {
    if a == [] {
      assert a + x == x;
    } else {
      assert (a + x)[1..] == a[1..] + x && (a + x)[0] == a[0] && a[0] in a;
      BracketRun(a[1..], x, stack);
    }
  }

  lemma {:induction false} BracketBody(a: bytes, x: bytes, stack: bytes)
    requires Closed(a, QUOTE)
    ensures Brackets(a + [QUOTE] + x, In, stack) == Brackets(x, Out, stack)
  {
    var s := a + [QUOTE] + x;
    if a == [] {
      assert s[1..] == x;
    } else if a[0] != BACKSLASH {
      assert s[0] == a[0] && s[1..] == a[1..] + [QUOTE] + x;
      BracketBody(a[1..], x, stack);
    } else {
      AfterEscape(a, QUOTE, x);
      BracketBody(a[2..], x, stack);
      assert Brackets(s, In, stack) == Brackets(s[1..], Esc, stack) == Brackets(s[1..][1..], In, stack);
    }
  }

  lemma {:induction false} BracketTokens(ts: Tokens, stack: bytes)
    requires TokensOk(ts, QUOTE)
    requires NullFree(ts)
    ensures Brackets(Text(ts, QUOTE), Out, stack) == (Out, Due(ts, stack))
  {
    match ts
    case End =>
    case Then(t, rest) =>
      var s, x := Text(ts, QUOTE), Text(rest, QUOTE);
      match t {
        case Quoted(body) =>
          BracketTokens(rest, stack);
          QuotedText(body, rest, QUOTE);
          BracketBody(body, x, stack);
        case Open(k) =>
          assert s[0] == OpenByte(k) && s[1..] == x;
          BracketTokens(rest, stack + [CloseByte(k)]);
        case Close(k) =>
          assert s[0] == CloseByte(k) && s[1..] == x;
          BracketTokens(rest, Push(CloseByte(k), stack));
        case NullBraces =>
        case _ =>
          BracketTokens(rest, stack);
          TokenBytesPlain(t, QUOTE);
          BracketRun(TokenBytes(t, QUOTE), x, stack);
      }
  }
}
