/** Newline framing of a byte stream that arrives in arbitrary chunks. */
module LineFraming {
  import opened Bytes

  /** The non-empty lines of `s` that a newline ends. */
  function Lines(s: bytes): seq<bytes>
    decreases |s|
  {
    var i := Index(s, [NEWLINE]);
    if i < 0 then []
    else (if i == 0 then [] else [s[..i]]) + Lines(s[i + 1..])
  }

  /** What follows the last newline. */
  function Rest(s: bytes): bytes
    decreases |s|
  {
    var i := Index(s, [NEWLINE]);
    if i < 0 then s else Rest(s[i + 1..])
  }

  function Concat(chunks: seq<bytes>): bytes {
    if chunks == [] then [] else Concat(chunks[..|chunks| - 1]) + chunks[|chunks| - 1]
  }

  /** Dispatch every complete line of every chunk, and hold back what is not complete. */
  method ConsumeReadStream(chunks: seq<bytes>) returns (dispatched: seq<bytes>, buffer: bytes)
    ensures dispatched == Lines(Concat(chunks)) && buffer == Rest(Concat(chunks))
  {
    dispatched, buffer := [], [];
    NoLines([]);
    for c := 0 to |chunks|
      invariant dispatched == Lines(Concat(chunks[..c])) && buffer == Rest(Concat(chunks[..c]))
    {
      assert chunks[..c + 1][..c] == chunks[..c];
      LinesConcat(Concat(chunks[..c]), chunks[c]);
      buffer := buffer + chunks[c];
      dispatched, buffer := DispatchLines(dispatched, buffer);
    }
    assert chunks[..|chunks|] == chunks;
  }

  /** The inner loop: the lines that the buffer holds after one chunk. */
  method DispatchLines(done: seq<bytes>, pending: bytes) returns (dispatched: seq<bytes>, buffer: bytes)
    ensures dispatched == done + Lines(pending) && buffer == Rest(pending)
  {
    dispatched, buffer := done, pending;
    ghost var all, rest := done + Lines(pending), Rest(pending);
    var newline := Index(buffer, [NEWLINE]);
    while newline >= 0
      invariant newline == Index(buffer, [NEWLINE])
      invariant dispatched + Lines(buffer) == all && Rest(buffer) == rest
      decreases |buffer|
    {
      FirstLine(buffer, dispatched);
      var line := buffer[..newline];
      assert |line| == newline;
      buffer := buffer[newline + 1..];
      if |line| > 0 {
        dispatched := dispatched + [line];
      }
      newline := Index(buffer, [NEWLINE]);
    }
  }

  lemma {:induction false} NoLines(s: bytes)
    requires NEWLINE !in s
    ensures Index(s, [NEWLINE]) < 0 && Lines(s) == [] && Rest(s) == s
  {
    NoNewline(s);
  }

  lemma {:induction false} FirstLine(s: bytes, done: seq<bytes>)
    requires Index(s, [NEWLINE]) >= 0
    ensures var i := Index(s, [NEWLINE]);
            && Rest(s) == Rest(s[i + 1..])
            && done + Lines(s) == (if i == 0 then done else done + [s[..i]]) + Lines(s[i + 1..])
  {
    var i := Index(s, [NEWLINE]);
    Put(done, i == 0, s[..i], Lines(s[i + 1..]));
  }

  lemma {:induction false} Put(done: seq<bytes>, skip: bool, line: bytes, more: seq<bytes>)
    ensures done + ((if skip then [] else [line]) + more) == (if skip then done else done + [line]) + more
  {
    assert [] + more == more;
  }

  /** The first newline of `a`, if it has one, is the first of `a + b`. */
  lemma {:induction false} FirstNewline(a: bytes, b: bytes)
    ensures Index(a, [NEWLINE]) >= 0 ==> Index(a + b, [NEWLINE]) == Index(a, [NEWLINE])
  {
    var i, j := Index(a, [NEWLINE]), Index(a + b, [NEWLINE]);
    if i >= 0 {
      assert (a + b)[i..i + 1] == a[i..i + 1];
      assert OccursAt(a + b, i, [NEWLINE]);
      assert a[j..j + 1] == (a + b)[j..j + 1];
      assert OccursAt(a, j, [NEWLINE]);
    }
  }

  /** What was held back goes in front of the next chunk. */
  lemma {:induction false} LinesConcat(a: bytes, b: bytes)
    ensures Lines(a + b) == Lines(a) + Lines(Rest(a) + b) && Rest(a + b) == Rest(Rest(a) + b)
    decreases |a|
  {
    var i := Index(a, [NEWLINE]);
    if i >= 0 {
      var first, a1 := if i == 0 then [] else [a[..i]], a[i + 1..];
      FirstNewline(a, b);
      assert (a + b)[..i] == a[..i] && (a + b)[i + 1..] == a1 + b;
      LinesConcat(a1, b);
      Associative(first, Lines(a1), Lines(Rest(a1) + b));
    }
  }

  /** The chunks of a stream do not matter. */
  lemma {:induction false} ChunksDoNotMatter(chunks: seq<bytes>, others: seq<bytes>, more: seq<bytes>)
    requires Concat(chunks) == Concat(others)
    ensures Lines(Concat(chunks + more)) == Lines(Concat(others + more)) && Rest(Concat(chunks + more)) == Rest(Concat(others + more))
  {
    ConcatBoth(chunks, more);
    ConcatBoth(others, more);
  }

  lemma {:induction false} ConcatBoth(a: seq<bytes>, b: seq<bytes>)
    ensures Concat(a + b) == Concat(a) + Concat(b)
  {
    if b == [] {
      assert a + b == a;
    } else {
      var n := |b| - 1;
      assert (a + b)[..|a + b| - 1] == a + b[..n];
      ConcatBoth(a, b[..n]);
    }
  }

  predicate IsLine(s: bytes) {
    s != [] && NEWLINE !in s
  }

  /** The messages as they are written to the stream. */
  function Frame(messages: seq<bytes>): bytes {
    if messages == [] then [] else messages[0] + [NEWLINE] + Frame(messages[1..])
  }

  /** Reading what was written, with an incomplete message behind it, gives back the messages. */
  lemma {:induction false} FrameRoundTrip(messages: seq<bytes>, partial: bytes)
    requires forall i :: 0 <= i < |messages| ==> IsLine(messages[i])
    requires NEWLINE !in partial
    ensures Lines(Frame(messages) + partial) == messages && Rest(Frame(messages) + partial) == partial
  {
    var s := Frame(messages) + partial;
    if messages == [] {
      assert s == partial;
      NoLines(partial);
    } else {
      var m := messages[0];
      var tail := Frame(messages[1..]) + partial;
      assert s == m + [NEWLINE] + tail;
      EndOfLine(m, tail);
      assert s[..|m|] == m && s[|m| + 1..] == tail;
      FrameRoundTrip(messages[1..], partial);
    }
  }

  lemma {:induction false} EndOfLine(m: bytes, tail: bytes)
    requires NEWLINE !in m
    ensures Index(m + [NEWLINE] + tail, [NEWLINE]) == |m|
  {
    var s := m + [NEWLINE] + tail;
    assert s[|m|..|m| + 1] == [NEWLINE];
    assert OccursAt(s, |m|, [NEWLINE]);
    forall i | 0 <= i < |m|
      ensures !OccursAt(s, i, [NEWLINE])
    {
      assert s[i..i + 1][0] == m[i] && m[i] in m;
    }
  }

  /** The text without its newlines. */
  function Unbroken(s: bytes): bytes {
    if s == [] then [] else (if s[0] == NEWLINE then [] else [s[0]]) + Unbroken(s[1..])
  }

  lemma {:induction false} UnbrokenConcat(a: bytes, b: bytes)
    ensures Unbroken(a + b) == Unbroken(a) + Unbroken(b)
  {
    if a == [] {
      assert a + b == b;
    } else {
      assert (a + b)[0] == a[0] && (a + b)[1..] == a[1..] + b;
      UnbrokenConcat(a[1..], b);
    }
  }

  lemma {:induction false} UnbrokenLine(s: bytes)
    requires NEWLINE !in s
    ensures Unbroken(s) == s
  {
    if s == [] {
    } else {
      assert s[0] in s && forall b :: b in s[1..] ==> b in s;
      UnbrokenLine(s[1..]);
      Uncons(s);
    }
  }

  /** The lines one after the other. */
  function Flat(lines: seq<bytes>): bytes {
    if lines == [] then [] else lines[0] + Flat(lines[1..])
  }

  /** Every dispatched line is a message: not empty, and without a newline. What is held back has none either, and nothing but
      newlines is lost. */
  lemma {:induction false} LinesMeaning(s: bytes)
    ensures forall i :: 0 <= i < |Lines(s)| ==> Lines(s)[i] != [] && NEWLINE !in Lines(s)[i]
    ensures NEWLINE !in Rest(s) && Flat(Lines(s)) + Rest(s) == Unbroken(s)
  {
    LinesFree(s);
    LinesWhole(s);
  }

  lemma {:induction false} LinesFree(s: bytes)
    ensures forall i :: 0 <= i < |Lines(s)| ==> Lines(s)[i] != [] && NEWLINE !in Lines(s)[i]
    ensures NEWLINE !in Rest(s)
    decreases |s|
  {
    var i := Index(s, [NEWLINE]);
    if i < 0 {
      NoIndex(s);
    } else {
      BeforeIndex(s);
      LinesFree(s[i + 1..]);
    }
  }

  lemma {:induction false} LinesWhole(s: bytes)
    ensures Flat(Lines(s)) + Rest(s) == Unbroken(s)
    decreases |s|
  {
    var i := Index(s, [NEWLINE]);
    if i < 0 {
      NoIndex(s);
      UnbrokenLine(s);
      assert [] + s == s;
    } else {
      var first, rest := s[..i], s[i + 1..];
      LinesWhole(rest);
      BeforeIndex(s);
      UnbrokenFirst(first, rest);
      UnbrokenLine(first);
      assert s == first + ([NEWLINE] + rest);
      FlatFirst(first, Lines(rest));
      Associative(first, Flat(Lines(rest)), Rest(rest));
    }
  }

  lemma {:induction false} NoIndex(s: bytes)
    requires Index(s, [NEWLINE]) < 0
    ensures NEWLINE !in s
  {
    forall j | 0 <= j < |s|
      ensures s[j] != NEWLINE
    {
      if s[j] == NEWLINE {
        assert s[j..j + 1] == [NEWLINE];
        assert OccursAt(s, j, [NEWLINE]);
      }
    }
  }

  lemma {:induction false} BeforeIndex(s: bytes)
    requires Index(s, [NEWLINE]) >= 0
    ensures var i := Index(s, [NEWLINE]); i < |s| && s[i] == NEWLINE && NEWLINE !in s[..i]
  {
    var i := Index(s, [NEWLINE]);
    assert s[i..i + 1][0] == s[i];
    forall j | 0 <= j < i
      ensures s[j] != NEWLINE
    {
      if s[j] == NEWLINE {
        assert s[j..j + 1] == [NEWLINE];
        assert OccursAt(s, j, [NEWLINE]);
      }
    }
  }

  lemma {:induction false} UnbrokenFirst(first: bytes, rest: bytes)
    ensures Unbroken(first + ([NEWLINE] + rest)) == Unbroken(first) + Unbroken(rest)
  {
    UnbrokenConcat(first, [NEWLINE] + rest);
    assert ([NEWLINE] + rest)[1..] == rest;
  }

  lemma {:induction false} FlatFirst(first: bytes, lines: seq<bytes>)
    ensures Flat((if |first| == 0 then [] else [first]) + lines) == first + Flat(lines)
  {
    if first == [] {
      assert [] + lines == lines;
    } else {
      assert ([first] + lines)[1..] == lines;
    }
  }
}
