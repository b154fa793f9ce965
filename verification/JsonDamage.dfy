/** The damage that the pipeline repairs, and what the repair makes of a damaged tree. */
module JsonDamage {
  import opened Bytes
  import opened JsonSyntax
  import opened FixJson

  /** The text without its noise bytes. */
  function Denoise(s: bytes): bytes {
    if s == [] then []
    else if IsNoise(s[0]) then Denoise(s[1..])
    else [s[0]] + Denoise(s[1..])
  }

  /** No quotation mark `q` ends the text early: each is escaped, and each backslash escapes a byte that is no noise. */
  predicate Closed(s: bytes, q: byte) {
    if s == [] then true
    else if s[0] == BACKSLASH then |s| >= 2 && !IsNoise(s[1]) && Closed(s[2..], q)
    else s[0] != q && Closed(s[1..], q)
  }

  /** A string between two quotation marks `q` that becomes a JSON string when its noise is stripped. */
  predicate BodyOk(body: bytes, q: byte) {
    && Closed(body, q)
    && IsBody(Denoise(body))
    && (q == APOSTROPHE ==> Denoise(body) == body && QUOTE !in body)
  }

  /** A string between two quotation marks `q` that the repair turns into a JSON string. The pass that unwraps
      `{null}` does not know strings, so it comes first inside strings, too. */
  predicate StringOk(body: bytes, q: byte) {
    BodyOk(FixNullBraces(body), q)
  }

  /** What the repair makes of a string. */
  function CleanBody(body: bytes): bytes {
    Denoise(FixNullBraces(body))
  }

  predicate TagOk(tag: Option<Tag>, k: Kind, q: byte) {
    match tag
    case None => k.Arr?
    case Some(l) => k.Obj? && AllWs(l.pre) && AllWs(l.mid) && StringOk(l.key, q)
  }

  /** A value with repairable damage. */
  predicate ValueOk(v: Value, q: byte) {
    match v
    case Scalar(text) => IsScalar(text)
    case Str(body) => StringOk(body, q)
    case NullInBraces => true
    case Empty(_, gap) => AllWs(gap)
    case Full(k, before, last, _, gap) => ItemsOk(before, k, q) && ItemOk(last, k, q) && AllWs(gap)
  }

  predicate ItemOk(i: Item, k: Kind, q: byte) {
    TagOk(i.tag, k, q) && AllWs(i.pre) && ValueOk(i.value, q) && AllWs(i.post)
  }

  predicate ItemsOk(items: Items, k: Kind, q: byte) {
    match items
    case Nil => true
    case Cons(i, rest) => ItemOk(i, k, q) && ItemsOk(rest, k, q)
  }

  predicate PartialOk(p: Partial, q: byte) {
    match p
    case Whole(v, post) => ValueOk(v, q) && AllWs(post)
    case Opened(_, gap) => AllWs(gap)
    case Inside(k, before, tag, pre, inner) =>
      ItemsOk(before, k, q) && TagOk(tag, k, q) && AllWs(pre) && PartialOk(inner, q)
  }

  function CleanTag(tag: Option<Tag>): Option<Tag> {
    match tag
    case None => None
    case Some(l) => Some(l.(key := CleanBody(l.key)))
  }

  /** The undamaged value: the same tree with `null`, without the stray commas and without the noise. */
  function Clean(v: Value): Value {
    match v
    case Str(body) => Str(CleanBody(body))
    case NullInBraces => Scalar(NULL)
    case Full(k, before, last, _, gap) => Full(k, CleanItems(before), CleanItem(last), false, gap)
    case _ => v
  }

  function CleanItem(i: Item): Item {
    Item(CleanTag(i.tag), i.pre, Clean(i.value), i.post)
  }

  function CleanItems(items: Items): Items {
    match items
    case Nil => Nil
    case Cons(i, rest) => Cons(CleanItem(i), CleanItems(rest))
  }

  function CleanPartial(p: Partial): Partial {
    match p
    case Whole(v, post) => Whole(Clean(v), post)
    case Opened(_, _) => p
    case Inside(k, before, tag, pre, inner) => Inside(k, CleanItems(before), CleanTag(tag), pre, CleanPartial(inner))
  }

  /** A JSON string body is closed and free of noise. */
  lemma {:induction false} BodyClosed(s: bytes)
    requires IsBody(s)
    ensures Closed(s, QUOTE) && Denoise(s) == s
  {
    if s == [] {
    } else if s[0] != BACKSLASH {
      BodyClosed(s[1..]);
    } else if |s| >= 2 && IsEscape(s[1]) && IsBody(s[2..]) {
      BodyClosed(s[2..]);
      assert s[1..][1..] == s[2..];
    } else {
      BodyClosed(s[6..]);
      assert s[2..][1..] == s[3..] && s[3..][1..] == s[4..] && s[4..][1..] == s[5..] && s[5..][1..] == s[6..];
      assert Closed(s[3..], QUOTE) && Denoise(s[3..]) == s[3..] by {
        assert Closed(s[5..], QUOTE) && Denoise(s[5..]) == s[5..];
        assert Closed(s[4..], QUOTE) && Denoise(s[4..]) == s[4..];
      }
      assert Closed(s[2..], QUOTE) && Denoise(s[2..]) == s[2..];
      assert s[1..][1..] == s[2..];
    }
  }

  /** A text without `{` has no `{null}`, up to where it ends. */
  lemma {:induction false} NullRun(a: bytes, x: bytes)
    requires OPEN_BRACE !in a
    ensures FixNullBraces(a + x) == a + FixNullBraces(x)
  {
    if a == [] {
      assert a + x == x;
    } else {
      assert (a + x)[1..] == a[1..] + x;
      assert (a + x)[0] == a[0];
      assert a[0] in a && (|a + x| >= 6 ==> (a + x)[..6][0] == a[0]);
      NullRun(a[1..], x);
      Associative([a[0]], a[1..], FixNullBraces(x));
    }
  }

  /** A string with `{null}` in it changes, but stays a string. */
  lemma {:induction false} NullBody(s: bytes)
    requires IsBody(s)
    ensures IsBody(FixNullBraces(s))
  {
    if s == [] {
    } else if s[0] != BACKSLASH {
      if StartsWith(s, BRACED_NULL) {
        assert s[..6] == BRACED_NULL;
        DropPlain(s, 6);
        NullBody(s[6..]);
        PlainBody(NULL, FixNullBraces(s[6..]));
      } else {
        NullBody(s[1..]);
        PlainBody([s[0]], FixNullBraces(s[1..]));
      }
    } else {
      var n := if |s| >= 2 && IsEscape(s[1]) && IsBody(s[2..]) then 2 else 6;
      assert s == s[..n] + s[n..];
      NullRun(s[..n], s[n..]);
      NullBody(s[n..]);
      var r := s[..n] + FixNullBraces(s[n..]);
      assert r[n..] == FixNullBraces(s[n..]) && forall i :: 0 <= i < n ==> r[i] == s[i];
    }
  }

  lemma {:induction false} DropPlain(s: bytes, n: nat)
    requires IsBody(s) && n <= |s| && BACKSLASH !in s[..n]
    ensures IsBody(s[n..])
  {
    if n == 0 {
    } else {
      assert s[0] == s[..n][0];
      assert forall b :: b in s[1..][..n - 1] ==> b in s[..n];
      DropPlain(s[1..], n - 1);
      assert s[1..][n - 1..] == s[n..];
    }
  }

  lemma {:induction false} PlainBody(a: bytes, s: bytes)
    requires IsBody(s) && forall b :: b in a ==> b >= 32 && b != QUOTE && b != BACKSLASH
    ensures IsBody(a + s)
  {
    if a == [] {
      assert a + s == s;
    } else {
      assert (a + s)[1..] == a[1..] + s && (a + s)[0] == a[0] && a[0] in a;
      assert forall b :: b in a[1..] ==> b in a;
      PlainBody(a[1..], s);
    }
  }

  /** Cleaning undoes all damage. */
  lemma {:induction false} CleanPristine(v: Value, q: byte)
    requires ValueOk(v, q)
    ensures Pristine(Clean(v)) && Depth(Clean(v)) == Depth(v)
  {
    match v
    case Full(k, before, last, _, _) =>
      ItemsPristineLemma(before, k, q);
      CleanPristine(last.value, q);
    case _ =>
  }

  lemma {:induction false} ItemsPristineLemma(items: Items, k: Kind, q: byte)
    requires ItemsOk(items, k, q)
    ensures ItemsPristine(CleanItems(items), k) && ItemsDepth(CleanItems(items)) == ItemsDepth(items)
  {
    match items
    case Nil =>
    case Cons(i, more) =>
      CleanPristine(i.value, q);
      ItemsPristineLemma(more, k, q);
  }

  lemma {:induction false} CompletePristine(p: Partial, q: byte)
    requires PartialOk(p, q)
    ensures Pristine(Complete(CleanPartial(p))) && AllWs(After(CleanPartial(p)))
    ensures Depth(Complete(CleanPartial(p))) == Depth(Complete(p))
  {
    match p
    case Whole(v, _) => CleanPristine(v, q);
    case Opened(_, _) =>
    case Inside(k, before, _, _, inner) =>
      ItemsPristineLemma(before, k, q);
      CompletePristine(inner, q);
  }
}
