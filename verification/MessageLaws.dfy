/** What messages carry, how numbers are written and how much texts weigh, apart from how the model computes it. */
module MessageLaws {
  import opened Bytes
  import opened Messages

  // ---------- Numbers ----------

  function DigitValue(c: char): int {
    c as int - '0' as int
  }

  /** The number that a text of digits stands for. */
  function ValueOf(s: string): int {
    if s == "" then 0 else ValueOf(s[..|s| - 1]) * 10 + DigitValue(s[|s| - 1])
  }

  lemma {:induction false} DigitRead(n: nat)
    requires n < 10
    ensures DigitValue(Digit(n)) == n
  {}

  /** A number is read back as it was written, and written without leading zeros. */
  lemma {:induction false} DecimalRoundTrip(n: nat)
    ensures ValueOf(Decimal(n)) == n
    ensures Decimal(n) != "" && (n > 0 ==> Decimal(n)[0] != '0')
    ensures forall c :: c in Decimal(n) ==> '0' <= c <= '9'
  {
    var s := Decimal(n);
    if n < 10 {
      DigitRead(n);
      assert s[..0] == "";
    } else {
      DecimalRoundTrip(n / 10);
      DigitRead(n % 10);
      assert s[..|s| - 1] == Decimal(n / 10) && s[|s| - 1] == Digit(n % 10);
    }
  }

  // ---------- Texts ----------

  predicate OccursIn(s: string, i: nat, pattern: string) {
    i + |pattern| <= |s| && s[i..i + |pattern|] == pattern
  }

  /** A text contains another exactly when that other stands somewhere in it. */
  lemma {:induction false} ContainsExact(s: string, pattern: string)
    ensures ContainsText(s, pattern) <==> exists i: nat :: OccursIn(s, i, pattern)
  {
    if ContainsText(s, pattern) {
      var i := Found(s, pattern);
    }
    if i: nat :| OccursIn(s, i, pattern) {
      ContainsMiddle(s[..i], pattern, s[i + |pattern|..]);
      assert s == s[..i] + pattern + s[i + |pattern|..];
    }
  }

  lemma {:induction false} Found(s: string, pattern: string) returns (i: nat)
    requires ContainsText(s, pattern)
    ensures OccursIn(s, i, pattern)
  {
    if StartsWithText(s, pattern) {
      i := 0;
    } else {
      var j := Found(s[1..], pattern);
      i := j + 1;
      assert s[1..][j..j + |pattern|] == s[i..i + |pattern|];
    }
  }

  /** How many Chinese, Japanese and Korean characters a text has. */
  function Wide(s: string): nat {
    if s == "" then 0 else Wide(s[1..]) + if IsCJK(s[0]) then 1 else 0
  }

  lemma {:induction false} WideBound(s: string)
    ensures Wide(s) <= |s|
  {
    if s == "" {
    } else {
      WideBound(s[1..]);
    }
  }

  lemma {:induction false} WeightWide(s: string)
    ensures TotalWeight(s) == 30 * Wide(s) + 7 * (|s| - Wide(s))
  {
    if s == "" {
    } else {
      WeightWide(s[1..]);
      assert s == [s[0]] + s[1..];
      WeightConcat([s[0]], s[1..]);
      assert [s[0]][..0] == "";
      assert TotalWeight([s[0]]) == Weight(s[0]);
    }
  }

  /** The estimate is one and a half tokens for each wide character and 0.35 for any other, rounded down, but one token at
      least for a text that is not empty. */
  lemma {:induction false} EstimateExact(s: string)
    ensures var twentieths := 30 * Wide(s) + 7 * (|s| - Wide(s));
            EstimateText(s) == if s == "" then 0 else if twentieths < 20 then 1 else twentieths / 20
  {
    WeightWide(s);
  }

  /** One character of each script is wide. */
  lemma {:induction false} WideSamples()
    ensures IsCJK('\U{6F22}') && IsCJK('\U{3042}') && IsCJK('\U{30A2}') && IsCJK('\U{D55C}')
  {
    assert HAN[8] == (0x4E00, 0x9FFF);
    assert HIRAGANA[0] == (0x3041, 0x3096);
    assert KATAKANA[0] == (0x30A1, 0x30FA);
    assert HANGUL[6] == (0xAC00, 0xD7A3);
  }

  /** Nothing below the first of the ranges is wide: Latin, Greek, Cyrillic, digits and punctuation of Western scripts. */
  lemma {:induction false} NarrowBelow(c: char)
    requires c as int < 0x1100
    ensures !IsCJK(c)
  {
    AllAbove(HAN);
    AllAbove(HIRAGANA);
    AllAbove(KATAKANA);
    AllAbove(HANGUL);
  }

  lemma {:induction false} AllAbove(ranges: seq<(int, int)>)
    requires ranges in {HAN, HIRAGANA, KATAKANA, HANGUL}
    ensures forall i :: 0 <= i < |ranges| ==> ranges[i].0 >= 0x1100
  {}

  // ---------- Messages ----------

  /** A message weighs four tokens and its texts, and each call four tokens and its texts. */
  lemma {:induction false} EstimateParts(role: Role, text: string, id: string, calls: seq<ToolCall>, call: ToolCall)
    ensures EstimateTokens(Message(role, Some(text), [], id)) == 4 + EstimateText(text) + EstimateText(id)
    ensures EstimateTokens(Message(role, None, [], id)) == 4 + EstimateText(id)
    ensures EstimateTokens(Message(role, Some(text), calls + [call], id)) ==
              EstimateTokens(Message(role, Some(text), calls, id)) + 4 + EstimateText(call.name) + EstimateText(call.arguments)
  {
    assert (calls + [call])[..|calls|] == calls;
  }

  /** What the messages that the engine builds carry. */
  lemma {:induction false} MessageParts(text: string, id: string, name: string, arguments: string)
    ensures var m := UserMessage(text); m.role.User? && ContentString(m) == text && m.toolCalls == [] && m.toolCallId == ""
    ensures var m := SystemMessage(text); m.role.System? && ContentString(m) == text && m.toolCalls == [] && m.toolCallId == ""
    ensures var m := ToolCallMessage(id, name, arguments);
            m.role.Assistant? && m.content.None? && m.toolCallId == "" && |m.toolCalls| == 1
            && m.toolCalls[0].id == id && m.toolCalls[0].name == name && m.toolCalls[0].arguments == arguments
    ensures var m := ToolResultMessage(id, text); m.role.Tool? && ContentString(m) == text && m.toolCalls == [] && m.toolCallId == id
  {}
}
