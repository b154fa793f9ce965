/** Byte strings, the byte values the scanners compare with, and the white-space trimming and substring search of
    Go's `bytes` package. */
module Bytes {

  newtype byte = x: int | 0 <= x < 256

  type bytes = seq<byte>

  datatype Option<+T> = None | Some(value: T)

  const TAB: byte := 9
  const NEWLINE: byte := 10
  const RETURN: byte := 13
  const SPACE: byte := 32
  const QUOTE: byte := 34
  const APOSTROPHE: byte := 39
  const COMMA: byte := 44
  const COLON: byte := 58
  const OPEN_BRACKET: byte := 91
  const BACKSLASH: byte := 92
  const CLOSE_BRACKET: byte := 93
  const BACKTICK: byte := 96
  const LETTER_N: byte := 110
  const OPEN_BRACE: byte := 123
  const CLOSE_BRACE: byte := 125

  /** `{null}` and `null`, as bytes. */
  const BRACED_NULL: bytes := [123, 110, 117, 108, 108, 125]
  const NULL: bytes := [110, 117, 108, 108]

  /** Three backticks. */
  const FENCE: bytes := [96, 96, 96]

  /** The four white-space bytes of JSON (section 2 of RFC 8259). */
  predicate IsWs(b: byte) {
    b == TAB || b == NEWLINE || b == RETURN || b == SPACE
  }

  predicate AllWs(s: bytes) {
    forall b :: b in s ==> IsWs(b)
  }

  /** A printable ASCII byte other than the blank: never part of a white-space character. */
  predicate IsSolid(b: byte) {
    33 <= b < 127
  }

  predicate StartsWith(s: bytes, pattern: bytes) {
    |pattern| <= |s| && s[..|pattern|] == pattern
  }

  predicate OccursAt(s: bytes, i: int, pattern: bytes) {
    0 <= i <= |s| - |pattern| && s[i..i + |pattern|] == pattern
  }

  ghost predicate Contains(s: bytes, pattern: bytes) {
    exists i :: OccursAt(s, i, pattern)
  }

  /** The white-space characters of `unicode.IsSpace` that need two or three bytes in UTF-8. */
  predicate IsWideSpace(s: bytes) {
    || (|s| == 2 && s[0] == 0xC2 && (s[1] == 0x85 || s[1] == 0xA0))
    || (|s| == 3 && s[0] == 0xE1 && s[1] == 0x9A && s[2] == 0x80)
    || (|s| == 3 && s[0] == 0xE2 && s[1] == 0x80 && (0x80 <= s[2] <= 0x8A || s[2] == 0xA8 || s[2] == 0xA9 || s[2] == 0xAF))
    || (|s| == 3 && s[0] == 0xE2 && s[1] == 0x81 && s[2] == 0x9F)
    || (|s| == 3 && s[0] == 0xE3 && s[1] == 0x80 && s[2] == 0x80)
  }

  /** Width in bytes of the white-space character that `s` begins with, 0 when there is none. */
  function LeadingSpace(s: bytes): (n: nat)
    ensures n <= |s|
  {
    if s == [] then 0
    else if 9 <= s[0] <= 13 || s[0] == SPACE then 1
    else if |s| >= 2 && IsWideSpace(s[..2]) then 2
    else if |s| >= 3 && IsWideSpace(s[..3]) then 3
    else 0
  }

  /** Width in bytes of the white-space character that `s` ends with, 0 when there is none. */
  function TrailingSpace(s: bytes): (n: nat)
    ensures n <= |s|
  {
    if s == [] then 0
    else if 9 <= s[|s| - 1] <= 13 || s[|s| - 1] == SPACE then 1
    else if |s| >= 2 && IsWideSpace(s[|s| - 2..]) then 2
    else if |s| >= 3 && IsWideSpace(s[|s| - 3..]) then 3
    else 0
  }

  function TrimLeft(s: bytes): bytes {
    if LeadingSpace(s) > 0 then TrimLeft(s[LeadingSpace(s)..]) else s
  }

  function TrimRight(s: bytes): bytes {
    if TrailingSpace(s) > 0 then TrimRight(s[..|s| - TrailingSpace(s)]) else s
  }

  function TrimSpace(s: bytes): bytes {
    TrimRight(TrimLeft(s))
  }

  /** Position of the first occurrence of `pattern` in `s`, or -1. */
  function Index(s: bytes, pattern: bytes): (i: int)
    ensures i == -1 || OccursAt(s, i, pattern)
    ensures forall j :: OccursAt(s, j, pattern) ==> 0 <= i <= j
  {
    if StartsWith(s, pattern) then 0
    else if s == [] then -1
    else
      var rest := Index(s[1..], pattern);
      OccursLater(s, pattern);
      assert OccursAt(s, 0, pattern) <==> StartsWith(s, pattern);
      if rest < 0 then -1 else rest + 1
  }

  lemma {:induction false} OccursLater(s: bytes, pattern: bytes)
    requires s != []
    ensures forall j :: OccursAt(s[1..], j, pattern) ==> OccursAt(s, j + 1, pattern)
    ensures forall j :: j != 0 && OccursAt(s, j, pattern) ==> OccursAt(s[1..], j - 1, pattern)
  {
    forall j | OccursAt(s[1..], j, pattern)
      ensures OccursAt(s, j + 1, pattern)
    {
      assert s[1..][j..j + |pattern|] == s[j + 1..j + 1 + |pattern|];
    }
    forall j | j != 0 && OccursAt(s, j, pattern)
      ensures OccursAt(s[1..], j - 1, pattern)
    {
      assert s[1..][j - 1..j - 1 + |pattern|] == s[j..j + |pattern|];
    }
  }

  lemma {:induction false} TrimLeftWs(ws: bytes, s: bytes)
    requires AllWs(ws)
    ensures TrimLeft(ws + s) == TrimLeft(s)
  {
    if ws == [] {
      assert ws + s == s;
    } else {
      assert IsWs(ws[0]);
      assert (ws + s)[1..] == ws[1..] + s;
      TrimLeftWs(ws[1..], s);
    }
  }

  lemma {:induction false} TrimRightWs(s: bytes, ws: bytes)
    requires AllWs(ws)
    ensures TrimRight(s + ws) == TrimRight(s)
  {
    if ws == [] {
      assert s + ws == s;
    } else {
      var n := |ws| - 1;
      assert IsWs(ws[n]);
      assert (s + ws)[..|s + ws| - 1] == s + ws[..n];
      TrimRightWs(s, ws[..n]);
    }
  }

  lemma {:induction false} SolidLeft(s: bytes)
    requires s != [] && IsSolid(s[0])
    ensures TrimLeft(s) == s
  {
    assert LeadingSpace(s) == 0;
  }

  lemma {:induction false} SolidRight(s: bytes)
    requires s != [] && IsSolid(s[|s| - 1])
    ensures TrimRight(s) == s
  {
    assert TrailingSpace(s) == 0;
  }

  /** Trimming strips exactly the JSON white space around a text with printable ends. */
  lemma {:induction false} TrimAround(pre: bytes, core: bytes, post: bytes)
    requires AllWs(pre) && AllWs(post)
    requires core != [] && IsSolid(core[0]) && IsSolid(core[|core| - 1])
    ensures TrimSpace(pre + core + post) == core
  {
    assert pre + core + post == pre + (core + post);
    TrimLeftWs(pre, core + post);
    SolidLeft(core + post);
    TrimRightWs(core, post);
    SolidRight(core);
  }

  function Reverse(s: bytes): bytes {
    if s == [] then [] else Reverse(s[1..]) + [s[0]]
  }

  lemma {:induction false} ReverseFirst(b: byte, s: bytes)
    ensures Reverse([b] + s) == Reverse(s) + [b]
  {
    assert ([b] + s)[1..] == s;
  }

  lemma {:induction false} Associative<T>(a: seq<T>, b: seq<T>, c: seq<T>)
    ensures a + (b + c) == a + b + c
  {}

  lemma {:induction false} Uncons(s: bytes)
    requires s != []
    ensures [s[0]] + s[1..] == s
  {}

  lemma {:induction false} UnconsTwo(s: bytes)
    requires |s| >= 2
    ensures s == [s[0]] + ([s[1]] + s[2..]) && s[1..][0] == s[1] && s[1..][1..] == s[2..]
  {}

  lemma {:induction false} NoNewline(s: bytes)
    requires NEWLINE !in s
    ensures Index(s, [NEWLINE]) < 0
  {
    forall i
      ensures !OccursAt(s, i, [NEWLINE])
    {
      if 0 <= i < |s| {
        assert s[i..i + 1][0] == s[i] && s[i] in s;
      }
    }
  }
}
