/** The JSON repair pipeline: each pass as a function on byte strings, and as the loop that computes it. */
module FixJson {
  import opened Bytes

  // ---------- The scanners' view of strings ----------

  /** Outside strings, inside a string, or right after a backslash inside a string. */
  datatype Lex = Out | In | Esc

  function Next(st: Lex, b: byte, q: byte): Lex {
    match st
    case Out => if b == q then In else Out
    case In => if b == BACKSLASH then Esc else if b == q then Out else In
    case Esc => In
  }

  /** The scanners keep the state in two flags. */
  function LexOf(inString: bool, escaped: bool): Lex {
    if escaped then Esc else if inString then In else Out
  }

  // ---------- Noise ----------

  /** The control bytes that have no place in a JSON string and that the repair strips. */
  predicate IsNoise(b: byte) {
    b < 32 && b != TAB && b != NEWLINE && b != RETURN
  }

  // ---------- Code fences and braced nulls ----------

  function StripCodeBlock(data: bytes): bytes {
    var trimmed := TrimSpace(data);
    if !StartsWith(trimmed, FENCE) then data
    else
      var firstNewline := Index(trimmed, [NEWLINE]);
      if firstNewline < 0 then data
      else
        var inner := trimmed[firstNewline + 1..];
        var close := Index(inner, FENCE);
        TrimSpace(if close >= 0 then inner[..close] else inner)
  }

  /** Every `{null}` becomes `null`, from left to right. */
  function FixNullBraces(s: bytes): bytes {
    if s == [] then []
    else if StartsWith(s, BRACED_NULL) then NULL + FixNullBraces(s[6..])
    else [s[0]] + FixNullBraces(s[1..])
  }

  // ---------- Control characters ----------

  /** Noise inside strings is dropped, unless a backslash stands before it. */
  function DropControls(s: bytes, st: Lex): bytes {
    if s == [] then []
    else (if st.In? && IsNoise(s[0]) then [] else [s[0]]) + DropControls(s[1..], Next(st, s[0], QUOTE))
  }

  lemma {:induction false} DropControlsAt(s: bytes, i: nat, st: Lex, done: bytes)
    requires i < |s|
    ensures done + DropControls(s[i..], st)
         == (if st.In? && IsNoise(s[i]) then done else done + [s[i]]) + DropControls(s[i + 1..], Next(st, s[i], QUOTE))
  {
    assert s[i..][1..] == s[i + 1..];
    Associative(done, [s[i]], DropControls(s[i + 1..], Next(st, s[i], QUOTE)));
  }

  method FixControlChars(data: bytes) returns (r: bytes)
    ensures r == DropControls(data, Out)
  {
    var buf: bytes := [];
    var inString, escaped := false, false;
    for i := 0 to |data|
      invariant escaped ==> inString
      invariant buf + DropControls(data[i..], LexOf(inString, escaped)) == DropControls(data, Out)
    {
      var b := data[i];
      DropControlsAt(data, i, LexOf(inString, escaped), buf);
      if escaped {
        buf := buf + [b];
        escaped := false;
        continue;
      }
      if b == BACKSLASH && inString {
        buf := buf + [b];
        escaped := true;
        continue;
      }
      if b == QUOTE {
        inString := !inString;
      }
      if inString && b < 32 && b != TAB && b != NEWLINE && b != RETURN {
        continue;
      }
      buf := buf + [b];
    }
    r := buf;
  }

  // ---------- Single quotes ----------

  /** Every apostrophe that no backslash escapes inside an apostrophe string becomes a quotation mark. */
  function Requote(s: bytes, st: Lex): bytes {
    if s == [] then []
    else [if !st.Esc? && s[0] == APOSTROPHE then QUOTE else s[0]] + Requote(s[1..], Next(st, s[0], APOSTROPHE))
  }

  function SingleToDouble(s: bytes): bytes {
    if QUOTE in s then s else Requote(s, Out)
  }

  method FixSingleQuotes(data: bytes) returns (r: bytes)
    ensures r == SingleToDouble(data)
  {
    if QUOTE in data {
      return data;
    }
    var buf: bytes := [];
    var inString, escaped := false, false;
    for i := 0 to |data|
      invariant escaped ==> inString
      invariant buf + Requote(data[i..], LexOf(inString, escaped)) == Requote(data, Out)
    {
      var b := data[i];
      assert data[i..][1..] == data[i + 1..];
      if escaped {
        buf := buf + [b];
        escaped := false;
        continue;
      }
      if b == BACKSLASH && inString {
        buf := buf + [b];
        escaped := true;
        continue;
      }
      if b == APOSTROPHE {
        buf := buf + [QUOTE];
        inString := !inString;
        continue;
      }
      buf := buf + [b];
    }
    r := buf;
  }

  // ---------- Trailing commas ----------

  predicate IsCloser(b: byte) {
    b == CLOSE_BRACE || b == CLOSE_BRACKET
  }

  /** The first byte that is not white space closes a container. */
  predicate CloserNext(s: bytes) {
    s != [] && if IsWs(s[0]) then CloserNext(s[1..]) else IsCloser(s[0])
  }

  /** Every comma outside strings that comes right before a closing bracket is dropped. */
  function DropCommas(s: bytes, st: Lex): bytes {
    if s == [] then []
    else
      (if st.Out? && s[0] == COMMA && CloserNext(s[1..]) then [] else [s[0]]) + DropCommas(s[1..], Next(st, s[0], QUOTE))
  }

  lemma {:induction false} DropCommasAt(s: bytes, i: nat, st: Lex, done: bytes)
    requires i < |s|
    ensures done + DropCommas(s[i..], st)
         == (if st.Out? && s[i] == COMMA && CloserNext(s[i + 1..]) then done else done + [s[i]])
            + DropCommas(s[i + 1..], Next(st, s[i], QUOTE))
  {
    assert s[i..][1..] == s[i + 1..];
    Associative(done, [s[i]], DropCommas(s[i + 1..], Next(st, s[i], QUOTE)));
  }

  method FixTrailingCommas(s: bytes) returns (r: bytes)
    ensures r == DropCommas(s, Out)
  {
    var buf: bytes := [];
    var inString, escaped := false, false;
    var i := 0;
    while i < |s|
      invariant 0 <= i <= |s|
      invariant escaped ==> inString
      invariant buf + DropCommas(s[i..], LexOf(inString, escaped)) == DropCommas(s, Out)
    {
      var c := s[i];
      DropCommasAt(s, i, LexOf(inString, escaped), buf);
      i := i + 1;
      if escaped {
        buf := buf + [c];
        escaped := false;
        continue;
      }
      if c == BACKSLASH && inString {
        buf := buf + [c];
        escaped := true;
        continue;
      }
      if c == QUOTE {
        inString := !inString;
      }
      if c == COMMA && !inString {
        var j := i;
        while j < |s| && (s[j] == SPACE || s[j] == TAB || s[j] == NEWLINE || s[j] == RETURN)
          invariant i <= j <= |s|
          invariant CloserNext(s[j..]) == CloserNext(s[i..])
        {
          assert s[j..][1..] == s[j + 1..];
          j := j + 1;
        }
        if j < |s| && (s[j] == CLOSE_BRACE || s[j] == CLOSE_BRACKET) {
          continue;
        }
      }
      buf := buf + [c];
    }
    assert s[i..] == [];
    r := buf;
  }

  // ---------- Unmatched brackets ----------

  /** The stack of closing brackets that are due, after one byte outside strings. */
  function Push(b: byte, stack: bytes): bytes {
    if b == OPEN_BRACE then stack + [CLOSE_BRACE]
    else if b == OPEN_BRACKET then stack + [CLOSE_BRACKET]
    else if IsCloser(b) && stack != [] && stack[|stack| - 1] == b then stack[..|stack| - 1]
    else stack
  }

  /** State and stack at the end of `s`. */
  function Brackets(s: bytes, st: Lex, stack: bytes): (Lex, bytes) {
    if s == [] then (st, stack)
    else Brackets(s[1..], Next(st, s[0], QUOTE), if st.Out? then Push(s[0], stack) else stack)
  }

  function CloseBrackets(s: bytes): bytes {
    s + Reverse(Brackets(s, Out, []).1)
  }

  method FixUnmatchedBrackets(data: bytes) returns (r: bytes)
    ensures r == CloseBrackets(data)
  {
    var inString, escaped := false, false;
    var stack: bytes := [];
    for i := 0 to |data|
      invariant escaped ==> inString
      invariant Brackets(data[i..], LexOf(inString, escaped), stack) == Brackets(data, Out, [])
    {
      var b := data[i];
      assert data[i..][1..] == data[i + 1..];
      if escaped {
        escaped := false;
        continue;
      }
      if b == BACKSLASH && inString {
        escaped := true;
        continue;
      }
      if b == QUOTE {
        inString := !inString;
        continue;
      }
      if inString {
        continue;
      }
      if b == OPEN_BRACE {
        stack := stack + [CLOSE_BRACE];
      } else if b == OPEN_BRACKET {
        stack := stack + [CLOSE_BRACKET];
      } else if b == CLOSE_BRACE || b == CLOSE_BRACKET {
        if |stack| > 0 && stack[|stack| - 1] == b {
          stack := stack[..|stack| - 1];
        }
      }
    }
    if |stack| == 0 {
      return data;
    }
    var buf := data;
    var i := |stack|;
    assert stack[..i] == stack;
    while i > 0
      invariant 0 <= i <= |stack|
      invariant buf + Reverse(stack[..i]) == data + Reverse(stack)
    {
      ReverseLast(stack[..i]);
      assert stack[..i][..i - 1] == stack[..i - 1];
      i := i - 1;
      buf := buf + [stack[i]];
    }
    r := buf;
  }

  lemma {:induction false} ReverseLast(s: bytes)
    requires s != []
    ensures Reverse(s) == [s[|s| - 1]] + Reverse(s[..|s| - 1])
  {
    if |s| > 1 {
      ReverseLast(s[1..]);
      assert s[1..][..|s| - 2] == s[..|s| - 1][1..];
    }
  }

  // ---------- Concatenated objects ----------

  /** What the pipeline uses of Go's JSON library: the validity check, the parser of one object and the printer. */
  datatype JsonLib = JsonLib(
    valid: bytes -> bool,
    parse: bytes -> Option<map<bytes, bytes>>,
    marshal: map<bytes, bytes> -> Option<bytes>)

  function SplitLines(s: bytes): (lines: seq<bytes>)
    ensures lines != []
    decreases |s|
  {
    var i := Index(s, [NEWLINE]);
    if i < 0 then [s] else [s[..i]] + SplitLines(s[i + 1..])
  }

  /** The object on a line, if there is one. */
  function LineObject(line: bytes, lib: JsonLib): Option<map<bytes, bytes>> {
    if TrimSpace(line) == [] then None else lib.parse(TrimSpace(line))
  }

  function LineObjects(lines: seq<bytes>, lib: JsonLib): seq<Option<map<bytes, bytes>>> {
    seq(|lines|, i requires 0 <= i < |lines| => LineObject(lines[i], lib))
  }

  /** The union of the objects, later ones first; None when there is none. */
  function MergeObjects(objects: seq<Option<map<bytes, bytes>>>): Option<map<bytes, bytes>> {
    if objects == [] then None
    else
      var n := |objects| - 1;
      var merged := MergeObjects(objects[..n]);
      match objects[n]
      case None => merged
      case Some(obj) => Some(if merged.None? then obj else merged.value + obj)
  }

  function Merge(data: bytes, lib: JsonLib): bytes {
    var trimmed := TrimSpace(data);
    if lib.valid(trimmed) then data
    else
      var lines := SplitLines(trimmed);
      var merged := MergeObjects(LineObjects(lines, lib));
      if |lines| < 2 || merged.None? || |merged.value| == 0 then data
      else
        match lib.marshal(merged.value)
        case None => data
        case Some(text) => text
  }

  method MergeJsonObjects(data: bytes, lib: JsonLib) returns (r: bytes)
    ensures r == Merge(data, lib)
  {
    var trimmed := TrimSpace(data);
    if lib.valid(trimmed) {
      return data;
    }
    var lines := SplitLines(trimmed);
    if |lines| < 2 {
      return data;
    }
    var merged: map<bytes, bytes> := map[];
    var anyParsed := false;
    ghost var objects := LineObjects(lines, lib);
    for i := 0 to |lines|
      invariant MergeObjects(objects[..i]) == if anyParsed then Some(merged) else None
      invariant !anyParsed ==> merged == map[]
    {
      assert objects[..i + 1][..i] == objects[..i] && objects[i] == LineObject(lines[i], lib);
      var line := TrimSpace(lines[i]);
      if |line| == 0 {
        continue;
      }
      match lib.parse(line) {
        case None =>
          continue;
        case Some(obj) =>
          assert map[] + obj == obj;
          anyParsed := true;
          merged := merged + obj;
      }
    }
    assert objects[..|lines|] == objects;
    if !anyParsed || |merged| == 0 {
      return data;
    }
    match lib.marshal(merged) {
      case None => return data;
      case Some(text) => return text;
    }
  }

  // ---------- The pipeline ----------

  function Repaired(data: bytes): bytes {
    CloseBrackets(DropCommas(SingleToDouble(DropControls(FixNullBraces(StripCodeBlock(data)), Out)), Out))
  }

  function FixJSON(data: bytes, lib: JsonLib): bytes {
    Merge(Repaired(data), lib)
  }

  method FixJson(data: bytes, lib: JsonLib) returns (r: bytes)
    ensures r == FixJSON(data, lib)
  {
    r := StripCodeBlock(data);
    r := FixNullBraces(r);
    r := FixControlChars(r);
    r := FixSingleQuotes(r);
    r := FixTrailingCommas(r);
    r := FixUnmatchedBrackets(r);
    r := MergeJsonObjects(r, lib);
  }
}
