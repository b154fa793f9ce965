/** What merging concatenated objects gives, in terms of the text and of the line parser alone. */
module FixJsonMerge {
  import opened Bytes
  import opened FixJson
  import opened FixJsonTheorems

  // ---------- The lines of a text ----------

  /** The bytes from `a` to `b` are a whole line. */
  predicate IsLine(s: bytes, a: nat, b: nat) {
    && a <= b <= |s| && NEWLINE !in s[a..b]
    && (a > 0 ==> s[a - 1] == NEWLINE)
    && (b < |s| ==> s[b] == NEWLINE)
  }

  lemma {:induction false} NoneInside(s: bytes, a: nat, b: nat)
    requires a <= b <= |s| && NEWLINE !in s[a..b]
    ensures forall i :: a <= i < b ==> s[i] != NEWLINE
  {
    forall i | a <= i < b
      ensures s[i] != NEWLINE
    {
      assert s[a..b][i - a] == s[i];
    }
  }

  /** Lines, as splitting gives them. */
  predicate AreFree(lines: seq<bytes>) {
    lines != [] && forall i :: 0 <= i < |lines| ==> NEWLINE !in lines[i]
  }

  function LineStart(lines: seq<bytes>, i: nat): nat
    requires i < |lines|
    decreases i
  {
    if i == 0 then 0 else |lines[0]| + 1 + LineStart(lines[1..], i - 1)
  }

  predicate IsPart(lines: seq<bytes>, i: nat, a: nat, line: bytes) {
    i < |lines| && LineStart(lines, i) == a && lines[i] == line
  }

  /** The line stands in the text at `a`. */
  predicate StandsAt(s: bytes, a: nat, line: bytes) {
    IsLine(s, a, a + |line|) && s[a..a + |line|] == line
  }

  lemma {:induction false} LineLater(first: bytes, rest: bytes, a: nat, b: nat)
    requires a <= b <= |rest|
    ensures var s, n := first + [NEWLINE] + rest, |first| + 1;
            s[n + a..n + b] == rest[a..b] && (IsLine(s, n + a, n + b) <==> IsLine(rest, a, b))
  {
    var s, n := first + [NEWLINE] + rest, |first| + 1;
    assert s[n + a..n + b] == rest[a..b] && s[|first|] == NEWLINE;
    assert a > 0 ==> s[n + a - 1] == rest[a - 1];
    assert b < |rest| ==> s[n + b] == rest[b];
  }

  lemma {:induction false} FirstLine(first: bytes, rest: bytes, b: nat)
    requires NEWLINE !in first
    ensures var s := first + [NEWLINE] + rest; StandsAt(s, 0, first) && (IsLine(s, 0, b) ==> b == |first|)
  {
    var s := first + [NEWLINE] + rest;
    assert s[0..|first|] == first && s[|first|] == NEWLINE;
    NoneInside(s, 0, |first|);
    if IsLine(s, 0, b) {
      NoneInside(s, 0, b);
    }
  }

  /** Every part of the split text is a line of the text. */
  lemma {:induction false} LineAt(lines: seq<bytes>, i: nat)
    requires AreFree(lines) && i < |lines|
    ensures StandsAt(JoinLines(lines), LineStart(lines, i), lines[i])
    decreases i
  {
    if i == 0 {
      StandsFirst(lines);
    } else {
      var more := lines[1..];
      assert AreFree(more) && more[i - 1] == lines[i];
      LineAt(more, i - 1);
      StandsNext(lines, i, LineStart(more, i - 1), lines[i]);
    }
  }

  lemma {:induction false} StandsNext(lines: seq<bytes>, i: nat, a: nat, line: bytes)
    requires 0 < i < |lines| && a == LineStart(lines[1..], i - 1) && StandsAt(JoinLines(lines[1..]), a, line)
    ensures StandsAt(JoinLines(lines), LineStart(lines, i), line)
  {
    var text := lines[0] + [NEWLINE] + JoinLines(lines[1..]);
    StandsLater(lines[0], JoinLines(lines[1..]), a, line);
    assert JoinLines(lines) == text && LineStart(lines, i) == |lines[0]| + 1 + a;
  }

  lemma {:induction false} StandsFirst(lines: seq<bytes>)
    requires AreFree(lines)
    ensures StandsAt(JoinLines(lines), 0, lines[0])
  {
    if |lines| == 1 {
      assert lines[0][0..|lines[0]|] == lines[0];
    } else {
      FirstLine(lines[0], JoinLines(lines[1..]), 0);
    }
  }

  lemma {:induction false} StandsLater(first: bytes, rest: bytes, a: nat, line: bytes)
    requires StandsAt(rest, a, line)
    ensures StandsAt(first + [NEWLINE] + rest, |first| + 1 + a, line)
  {
    LineLater(first, rest, a, a + |line|);
  }

  /** Every line of the text is a part of the split text. */
  lemma {:induction false} LineFound(lines: seq<bytes>, a: nat, b: nat) returns (i: nat)
    requires AreFree(lines) && IsLine(JoinLines(lines), a, b)
    ensures IsPart(lines, i, a, JoinLines(lines)[a..b])
    decreases |lines|
  {
    if |lines| == 1 {
      OnlyLine(lines[0], a, b);
      i := 0;
    } else if a == 0 {
      FirstLine(lines[0], JoinLines(lines[1..]), b);
      i := 0;
    } else {
      var n, rest := |lines[0]| + 1, JoinLines(lines[1..]);
      AfterFirst(lines[0], rest, a, b);
      LineLater(lines[0], rest, a - n, b - n);
      var j := LineFound(lines[1..], a - n, b - n);
      PartLater(lines, j, a - n, rest[a - n..b - n]);
      i := j + 1;
    }
  }

  lemma {:induction false} PartLater(lines: seq<bytes>, i: nat, a: nat, line: bytes)
    requires |lines| > 1 && IsPart(lines[1..], i, a, line)
    ensures IsPart(lines, i + 1, |lines[0]| + 1 + a, line)
  {}

  lemma {:induction false} OnlyLine(line: bytes, a: nat, b: nat)
    requires NEWLINE !in line && IsLine(line, a, b)
    ensures a == 0 && line[a..b] == line
  {
    assert line[0..|line|] == line;
    NoneInside(line, 0, |line|);
  }

  lemma {:induction false} AfterFirst(first: bytes, rest: bytes, a: nat, b: nat)
    requires NEWLINE !in first && a > 0 && IsLine(first + [NEWLINE] + rest, a, b)
    ensures a >= |first| + 1
  {
    var s := first + [NEWLINE] + rest;
    assert s[0..|first|] == first;
    NoneInside(s, 0, |first|);
  }

  lemma {:induction false} StartsGrow(lines: seq<bytes>, i: nat, j: nat)
    requires i < j < |lines|
    ensures LineStart(lines, i) < LineStart(lines, j)
    decreases i
  {
    if i == 0 {
    } else {
      StartsGrow(lines[1..], i - 1, j - 1);
    }
  }

  // ---------- The merged object ----------

  /** The line holds an object with the key. */
  predicate HoldsKey(line: bytes, lib: JsonLib, k: bytes) {
    var t := TrimSpace(line);
    t != [] && lib.parse(t).Some? && k in lib.parse(t).value
  }

  /** It is the last line that does. */
  ghost predicate IsLastWith(s: bytes, lib: JsonLib, k: bytes, a: nat, b: nat) {
    && IsLine(s, a, b) && HoldsKey(s[a..b], lib, k)
    && forall c: nat, d: nat :: c > a && IsLine(s, c, d) ==> !HoldsKey(s[c..d], lib, k)
  }

  /** The object has exactly the keys of the objects on the lines, each with the value from the last line that has it. */
  ghost predicate IsUnion(s: bytes, lib: JsonLib, m: map<bytes, bytes>) {
    forall k :: HasUnionKey(s, lib, m, k)
  }

  ghost predicate HasUnionKey(s: bytes, lib: JsonLib, m: map<bytes, bytes>, k: bytes) {
    if k in m then
      exists a: nat, b: nat :: IsLastWith(s, lib, k, a, b) && m[k] == lib.parse(TrimSpace(s[a..b])).value[k]
    else
      forall a: nat, b: nat :: IsLine(s, a, b) ==> !HoldsKey(s[a..b], lib, k)
  }

  function Merged(s: bytes, lib: JsonLib): map<bytes, bytes> {
    var m := MergeObjects(LineObjects(SplitLines(s), lib));
    if m.Some? then m.value else map[]
  }

  lemma {:induction false} LineHolds(s: bytes, lib: JsonLib, i: nat, k: bytes)
    requires i < |SplitLines(s)|
    ensures var line := SplitLines(s)[i];
            var obj := LineObjects(SplitLines(s), lib)[i];
            && (HasKey(obj, k) <==> HoldsKey(line, lib, k))
            && (HasKey(obj, k) ==> obj.value[k] == lib.parse(TrimSpace(line)).value[k])
  {}

  lemma {:induction false} LastLine(s: bytes, lib: JsonLib, k: bytes, i: int)
    requires LastWith(LineObjects(SplitLines(s), lib), k, i)
    ensures var a := LineStart(SplitLines(s), i);
            var b := a + |SplitLines(s)[i]|;
            IsLastWith(s, lib, k, a, b) && s[a..b] == SplitLines(s)[i]
  {
    LineOf(s, i);
    LineHolds(s, lib, i, k);
    forall c: nat, d: nat | c > LineStart(SplitLines(s), i) && IsLine(s, c, d)
      ensures !HoldsKey(s[c..d], lib, k)
    {
      LaterLine(s, lib, k, i, c, d);
    }
  }

  lemma {:induction false} LineOf(s: bytes, i: nat)
    requires i < |SplitLines(s)|
    ensures StandsAt(s, LineStart(SplitLines(s), i), SplitLines(s)[i])
  {
    SplitJoin(s);
    LineAt(SplitLines(s), i);
  }

  lemma {:induction false} LaterLine(s: bytes, lib: JsonLib, k: bytes, i: int, c: nat, d: nat)
    requires LastWith(LineObjects(SplitLines(s), lib), k, i) && c > LineStart(SplitLines(s), i) && IsLine(s, c, d)
    ensures !HoldsKey(s[c..d], lib, k)
  {
    SplitJoin(s);
    var j := LineFound(SplitLines(s), c, d);
    if j < i {
      StartsGrow(SplitLines(s), j, i);
    }
    LineHolds(s, lib, j, k);
  }

  lemma {:induction false} MergedUnion(s: bytes, lib: JsonLib)
    ensures IsUnion(s, lib, Merged(s, lib))
  {
    var objects := LineObjects(SplitLines(s), lib);
    forall k
      ensures HasUnionKey(s, lib, Merged(s, lib), k)
    {
      MergeLast(objects, k);
      if k in Merged(s, lib) {
        var i :| LastWith(objects, k, i) && MergeObjects(objects).value[k] == objects[i].value[k];
        LastLine(s, lib, k, i);
        LineHolds(s, lib, i, k);
      } else {
        forall a: nat, b: nat | IsLine(s, a, b)
          ensures !HoldsKey(s[a..b], lib, k)
        {
          SplitJoin(s);
          var i := LineFound(SplitLines(s), a, b);
          LineHolds(s, lib, i, k);
        }
      }
    }
  }

  /** There is only one such object. */
  lemma {:induction false} UnionUnique(s: bytes, lib: JsonLib, m: map<bytes, bytes>, n: map<bytes, bytes>)
    requires IsUnion(s, lib, m) && IsUnion(s, lib, n)
    ensures m == n
  {
    forall k
      ensures k in m <==> k in n
      ensures k in m && k in n ==> m[k] == n[k]
    {
      assert HasUnionKey(s, lib, m, k) && HasUnionKey(s, lib, n, k);
      if k in m && k in n {
        var a: nat, b: nat :| IsLastWith(s, lib, k, a, b) && m[k] == lib.parse(TrimSpace(s[a..b])).value[k];
        var c: nat, d: nat :| IsLastWith(s, lib, k, c, d) && n[k] == lib.parse(TrimSpace(s[c..d])).value[k];
        SameEnd(s, a, b, d);
      }
    }
  }

  lemma {:induction false} SameEnd(s: bytes, a: nat, b: nat, d: nat)
    requires IsLine(s, a, b) && IsLine(s, a, d)
    ensures b == d
  {
    NoneInside(s, a, b);
    NoneInside(s, a, d);
  }

  lemma {:induction false} TwoLines(s: bytes)
    ensures |SplitLines(s)| >= 2 <==> NEWLINE in s
  {
    FirstFree(s);
  }

  /** Main result: a text that is valid, or is on one line when trimmed, stays as it is. From any other the result is the printed
      union of the objects on its lines, a later line overriding an earlier one, unless that union is empty or cannot be
      printed. */
  lemma {:induction false} MergeLaw(s: bytes, lib: JsonLib, m: map<bytes, bytes>)
    requires IsUnion(TrimSpace(s), lib, m)
    ensures var t := TrimSpace(s);
            Merge(s, lib) ==
              if lib.valid(t) || NEWLINE !in t || m == map[] || lib.marshal(m).None? then s else lib.marshal(m).value
  {
    var t := TrimSpace(s);
    TwoLines(t);
    MergedUnion(t, lib);
    UnionUnique(t, lib, m, Merged(t, lib));
    assert |m| == 0 <==> m == map[];
  }

  /** Two objects on two lines: the keys of both, and the second value where they share a key. */
  lemma {:induction false} MergeTwo(a: bytes, b: bytes, lib: JsonLib)
    requires NEWLINE !in a && NEWLINE !in b && a != [] && b != [] && IsSolid(a[0]) && IsSolid(b[0])
    requires IsSolid(a[|a| - 1]) && IsSolid(b[|b| - 1])
    requires lib.parse(a).Some? && lib.parse(b).Some? && !lib.valid(a + [NEWLINE] + b)
    requires lib.parse(a).value + lib.parse(b).value != map[] && lib.marshal(lib.parse(a).value + lib.parse(b).value).Some?
    ensures Merge(a + [NEWLINE] + b, lib) == lib.marshal(lib.parse(a).value + lib.parse(b).value).value
  {
    var t := a + [NEWLINE] + b;
    var m := lib.parse(a).value + lib.parse(b).value;
    assert [] + t + [] == t && [] + a + [] == a && [] + b + [] == b;
    TrimAround([], t, []);
    TrimAround([], a, []);
    TrimAround([], b, []);
    forall k
      ensures HasUnionKey(t, lib, m, k)
    {
      UnionOfTwo(a, b, lib, k);
    }
    assert t[|a|] == NEWLINE;
    MergeLaw(t, lib, m);
  }

  lemma {:induction false} UnionOfTwo(a: bytes, b: bytes, lib: JsonLib, k: bytes)
    requires NEWLINE !in a && NEWLINE !in b && a != [] && b != [] && TrimSpace(a) == a && TrimSpace(b) == b
    requires lib.parse(a).Some? && lib.parse(b).Some?
    ensures HasUnionKey(a + [NEWLINE] + b, lib, lib.parse(a).value + lib.parse(b).value, k)
  {
    LinesOfTwo(a, b);
    if k in lib.parse(b).value {
      InSecond(a, b, lib, k);
    } else if k in lib.parse(a).value {
      InFirst(a, b, lib, k);
    }
  }

  lemma {:induction false} InSecond(a: bytes, b: bytes, lib: JsonLib, k: bytes)
    requires NEWLINE !in a && NEWLINE !in b && HoldsKey(b, lib, k)
    ensures var t := a + [NEWLINE] + b; IsLastWith(t, lib, k, |a| + 1, |t|)
  {
    LinesOfTwo(a, b);
  }

  lemma {:induction false} InFirst(a: bytes, b: bytes, lib: JsonLib, k: bytes)
    requires NEWLINE !in a && NEWLINE !in b && HoldsKey(a, lib, k) && !HoldsKey(b, lib, k)
    ensures IsLastWith(a + [NEWLINE] + b, lib, k, 0, |a|)
  {
    LinesOfTwo(a, b);
  }

  lemma {:induction false} LinesOfTwo(a: bytes, b: bytes)
    requires NEWLINE !in a && NEWLINE !in b
    ensures var t := a + [NEWLINE] + b;
            && t[0..|a|] == a && t[|a| + 1..|t|] == b
            && forall c: nat, d: nat :: IsLine(t, c, d) <==> (c == 0 && d == |a|) || (c == |a| + 1 && d == |t|)
  {
    var t := a + [NEWLINE] + b;
    assert t[0..|a|] == a && t[|a| + 1..|t|] == b && t[|a|] == NEWLINE;
    NoneInside(t, 0, |a|);
    NoneInside(t, |a| + 1, |t|);
    forall c: nat, d: nat | IsLine(t, c, d)
      ensures (c == 0 && d == |a|) || (c == |a| + 1 && d == |t|)
    {
      NoneInside(t, c, d);
      assert c > 0 ==> t[c - 1] == NEWLINE && c - 1 == |a|;
      assert d < |t| ==> t[d] == NEWLINE && d == |a|;
    }
  }
}
