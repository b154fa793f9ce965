/** The passes on texts that are no JSON, and on the edges of code blocks. */
module FixJsonEdges {
  import opened Bytes
  import opened FixJson
  import opened FixJsonTheorems

  // ---------- Code blocks ----------

  /** A text that does not start with a fence, or whose fence has no end of line, is left alone with its white space. */
  lemma {:induction false} NoBlock(s: bytes)
    requires !StartsWith(TrimSpace(s), FENCE) || NEWLINE !in TrimSpace(s)
    ensures StripCodeBlock(s) == s
  {
    if NEWLINE !in TrimSpace(s) {
      NoNewline(TrimSpace(s));
    }
  }

  /** A block that is never closed goes on to the end of the text. */
  lemma {:induction false} OpenBlock(lead: bytes, tag: bytes, inner: bytes)
    requires AllWs(lead) && NEWLINE !in tag && inner != [] && IsSolid(inner[|inner| - 1])
    requires forall i :: 0 <= i < |inner| ==> !OccursAt(inner, i, FENCE)
    ensures StripCodeBlock(lead + (FENCE + tag + [NEWLINE] + inner)) == TrimSpace(inner)
  {
    var text := FENCE + tag + [NEWLINE] + inner;
    assert lead + text + [] == lead + text && text[0] == BACKTICK && text[|text| - 1] == inner[|inner| - 1];
    TrimAround(lead, text, []);
    EndOfFence(tag, inner);
    assert text[..3] == FENCE && text[|FENCE + tag| + 1..] == inner;
    assert Index(inner, FENCE) < 0;
  }

  // ---------- Control characters ----------

  /** In a string a control character goes, but for tab and line breaks. */
  lemma {:induction false} ControlDropped(b: byte, x: bytes)
    requires b != QUOTE && b != BACKSLASH
    ensures DropControls([QUOTE, b] + x, Out) ==
              (if b < 32 && b != 9 && b != 10 && b != 13 then [QUOTE] else [QUOTE, b]) + DropControls(x, In)
  {
    var s := [QUOTE, b] + x;
    assert s[1..][1..] == x;
    Associative([QUOTE], [b], DropControls(x, In));
    assert [QUOTE] + [b] == [QUOTE, b] && [] + DropControls(x, In) == DropControls(x, In);
    assert DropControls(s, Out) == [QUOTE] + DropControls(s[1..], In);
  }

  /** Behind a backslash it stays, and so does the string. */
  lemma {:induction false} ControlEscaped(b: byte, x: bytes)
    ensures DropControls([QUOTE, BACKSLASH, b] + x, Out) == [QUOTE, BACKSLASH, b] + DropControls(x, In)
  {
    var s := [QUOTE, BACKSLASH, b] + x;
    assert s[1..][0] == BACKSLASH && s[1..][1..][0] == b && s[1..][1..][1..] == x;
    assert DropControls(s[1..][1..], Esc) == [b] + DropControls(x, In);
    assert DropControls(s[1..], In) == [BACKSLASH] + ([b] + DropControls(x, In));
    assert DropControls(s, Out) == [QUOTE] + ([BACKSLASH] + ([b] + DropControls(x, In)));
  }

  /** Outside strings nothing is dropped. */
  lemma {:induction false} ControlOutside(b: byte, x: bytes)
    requires b != QUOTE
    ensures DropControls([b] + x, Out) == [b] + DropControls(x, Out)
  {
    assert ([b] + x)[1..] == x;
  }

  // ---------- Brackets ----------

  /** A closing bracket that does not fit the last open one is overlooked. */
  lemma {:induction false} MisfitOverlooked(a: bytes, b: byte, x: bytes)
    requires IsCloser(b) && Brackets(a, Out, []).0.Out?
    requires var stack := Brackets(a, Out, []).1; stack == [] || stack[|stack| - 1] != b
    ensures Brackets(a + ([b] + x), Out, []) == Brackets(a + x, Out, [])
  {
    BracketsConcat(a, [b] + x, Out, []);
    BracketsConcat(a, x, Out, []);
    assert ([b] + x)[1..] == x;
  }

  // ---------- Commas ----------

  /** Of two commas in a row the pass drops one, so that it takes another pass to drop the other. */
  lemma {:induction false} DoubleComma(x: bytes)
    requires CloserNext(x)
    ensures DropCommas([COMMA, COMMA] + x, Out) == [COMMA] + DropCommas(x, Out)
    ensures DropCommas([COMMA] + x, Out) == DropCommas(x, Out)
  {
    var s, t := [COMMA, COMMA] + x, [COMMA] + x;
    assert t[1..] == x && s[1..] == t;
    assert [] + DropCommas(x, Out) == DropCommas(x, Out);
    assert DropCommas(s, Out) == [COMMA] + DropCommas(t, Out);
  }

  // ---------- White space ----------

  /** The white-space characters of one byte, and three of the longer ones: next line, no-break space and ideographic space. */
  const SPACES: seq<bytes> := [[9], [10], [11], [12], [13], [32], [0xC2, 0x85], [0xC2, 0xA0], [0xE3, 0x80, 0x80]]

  lemma {:induction false} SpacesTrimmed(s: bytes, k: nat)
    requires k < |SPACES|
    ensures TrimLeft(SPACES[k] + s) == TrimLeft(s)
    ensures TrimRight(s + SPACES[k]) == TrimRight(s)
  {
    var w := SPACES[k];
    assert (w + s)[..|w|] == w && (w + s)[|w|..] == s;
    assert (s + w)[|s|..] == w && (s + w)[..|s|] == s;
    assert |w| == 3 ==> (w + s)[..2] == w[..2] && (s + w)[|s| + 1..] == w[1..];
    assert LeadingSpace(w + s) == |w| && TrailingSpace(s + w) == |w|;
  }
}
