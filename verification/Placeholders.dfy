/**
 Goal placeholders such as `{{resource.id}}`. A table of placeholders is a Go map, so a text is filled in by one
 ReplaceAll per placeholder in an arbitrary order. This module says exactly when the order does not matter.
 */
module Placeholders {
  import opened Text

  type Table = map<string, string>

  /** Two opening braces, a name without braces, two closing braces. */
  predicate IsPlaceholder(p: string) {
    && |p| >= 4 && p[0] == p[1] == '{' && p[|p| - 2] == p[|p| - 1] == '}'
    && forall i :: 2 <= i < |p| - 2 ==> p[i] != '{' && p[i] != '}'
  }

  ghost predicate IsTable(t: Table) { forall p :: p in t ==> IsPlaceholder(p) }

  /** strings.ReplaceAll */
  function ReplaceAll(s: string, p: string, v: string): string
    requires p != ""
  {
    if |s| < |p| then s
    else if p <= s then v + ReplaceAll(s[|p|..], p, v)
    else [s[0]] + ReplaceAll(s[1..], p, v)
  }

  ghost predicate Within(order: seq<string>, t: Table) { forall i :: 0 <= i < |order| ==> order[i] in t }

  ghost function FillInOrder(s: string, t: Table, order: seq<string>): string
    requires IsTable(t) && Within(order, t)
    decreases |order|
  {
    if order == [] then s else FillInOrder(ReplaceAll(s, order[0], t[order[0]]), t, order[1..])
  }

  ghost predicate Lists(order: seq<string>, keys: set<string>) {
    && (forall k :: k in order <==> k in keys)
    && (forall i, j :: 0 <= i < j < |order| ==> order[i] != order[j])
  }

  /** `r` is what some iteration order of the table makes of `s`. */
  ghost predicate Yields(s: string, t: Table, r: string)
    requires IsTable(t)
  {
    exists order :: Lists(order, t.Keys) && Within(order, t) && r == FillInOrder(s, t, order)
  }

  /** applyResourcePlaceholders and applyAgentPlaceholders; the replacement map is visited in any order. */
  method Fill(s: string, t: Table) returns (r: string)
    requires IsTable(t)
    ensures Yields(s, t, r)
  {
    r := s;
    var left := t.Keys;
    ghost var order: seq<string> := [];
    while left != {}
      invariant left <= t.Keys && Lists(order, t.Keys - left) && Within(order, t)
      invariant r == FillInOrder(s, t, order)
      decreases left
    {
      var p :| p in left;
      FillOneMore(s, t, order, p);
      ListsOneMore(order, t.Keys - left, p);
      assert t.Keys - (left - {p}) == t.Keys - left + {p};
      r := ReplaceAll(r, p, t[p]);
      order := order + [p];
      left := left - {p};
    }
    assert t.Keys - left == t.Keys;
  }

  lemma ListsOneMore(order: seq<string>, keys: set<string>, p: string)
    requires Lists(order, keys) && p !in keys
    ensures Lists(order + [p], keys + {p})
  {
    forall i | 0 <= i < |order| ensures order[i] != p { assert order[i] in order; }
  }

  lemma {:induction false} FillOneMore(s: string, t: Table, order: seq<string>, p: string)
    requires IsTable(t) && p in t && Within(order, t)
    ensures FillInOrder(s, t, order + [p]) == ReplaceAll(FillInOrder(s, t, order), p, t[p])
    decreases |order|
  {
    if order == [] {
      assert (order + [p])[1..] == [];
    } else {
      FillOneMore(ReplaceAll(s, order[0], t[order[0]]), t, order[1..], p);
      assert (order + [p])[1..] == order[1..] + [p];
    }
  }

  // ----- when an inserted value can become part of a placeholder

  /** Laid over `q` at offset `k`, `v` overlaps `q` (or falls inside it) and agrees with it. */
  predicate TouchesAt(v: string, q: string, k: int) {
    -|v| < k < |q| && forall j :: 0 <= j < |v| && 0 <= k + j < |q| ==> v[j] == q[k + j]
  }

  predicate Touches(v: string, q: string) { exists k :: -|v| < k < |q| && TouchesAt(v, q, k) }

  lemma OccurrenceTouches(a: string, v: string, b: string, q: string, i: nat)
    requires OccursAt(a + v + b, q, i) && |a| < i + |q| && i < |a| + |v|
    ensures TouchesAt(v, q, |a| - i)
  {
    var s, k := a + v + b, |a| - i;
    forall j | 0 <= j < |v| && 0 <= k + j < |q| ensures v[j] == q[k + j] {
      assert s[|a| + j] == v[j];
      assert s[i..i + |q|][k + j] == s[|a| + j];
    }
  }

  /** No occurrence of `q` reaches into an inserted `v` that does not touch it. */
  lemma OccurrenceAvoids(a: string, v: string, b: string, q: string, i: nat)
    requires !Touches(v, q) && OccursAt(a + v + b, q, i)
    ensures i + |q| <= |a| || |a| + |v| <= i
  {
    if |a| < i + |q| && i < |a| + |v| { OccurrenceTouches(a, v, b, q, i); }
  }

  /** Two different placeholders never overlap, and a placeholder overlaps itself only as a whole. */
  lemma PlaceholdersApart(p: string, q: string, k: int)
    requires IsPlaceholder(p) && IsPlaceholder(q) && TouchesAt(p, q, k)
    ensures k == 0 && p == q
  {
    if k > 0 { StartsInside(p, q, k); }
    else if k < 0 { StartsBefore(p, q, k); }
    else { SameEnd(p, q); }
  }

  lemma StartsInside(p: string, q: string, k: int)
    requires TouchesAt(p, q, k) && 0 < k && 2 <= |p|
    ensures p[0] == q[k] && (k + 1 < |q| ==> p[1] == q[k + 1])
  {
    assert k + 1 < |q| ==> p[1] == q[k + 1];
    assert p[0] == q[k + 0];
  }

  lemma StartsBefore(p: string, q: string, k: int)
    requires TouchesAt(p, q, k) && k < 0 && 2 <= |q|
    ensures p[-k] == q[0] && (1 - k < |p| ==> p[1 - k] == q[1])
  {
    assert p[-k] == q[k + -k];
    assert 1 - k < |p| ==> p[1 - k] == q[k + (1 - k)];
  }

  lemma SameEnd(p: string, q: string)
    requires IsPlaceholder(p) && IsPlaceholder(q) && forall j :: 0 <= j < |p| && j < |q| ==> p[j] == q[j]
    ensures p == q
  {
  }

  lemma DifferentDoNotTouch(p: string, q: string)
    requires IsPlaceholder(p) && IsPlaceholder(q) && p != q
    ensures !Touches(p, q)
  {
    forall k | -|p| < k < |q| ensures !TouchesAt(p, q, k) {
      if TouchesAt(p, q, k) { PlaceholdersApart(p, q, k); }
    }
  }

  // ----- replacing around an inserted value

  lemma MatchAt(s: string, q: string, i: nat)
    requires i <= |s|
    ensures q <= s[i..] <==> OccursAt(s, q, i)
  {
    if i + |q| <= |s| { assert s[i..i + |q|] == s[i..][..|q|]; }
  }

  lemma OccursInTail(s: string, q: string, n: nat, i: nat)
    requires n <= |s|
    ensures OccursAt(s[n..], q, i) <==> OccursAt(s, q, n + i)
  {
    if n + i + |q| <= |s| { assert s[n..][i..i + |q|] == s[n + i..n + i + |q|]; }
  }

  lemma OccursInFront(a: string, b: string, q: string, i: nat)
    requires OccursAt(a, q, i)
    ensures OccursAt(a + b, q, i)
  {
    assert (a + b)[i..i + |q|] == a[i..i + |q|];
  }

  /** What precedes the first occurrence is copied. */
  lemma {:induction false} PassThrough(s: string, q: string, w: string, n: nat)
    requires q != "" && n <= |s| && forall i :: 0 <= i < n ==> !OccursAt(s, q, i)
    ensures ReplaceAll(s, q, w) == s[..n] + ReplaceAll(s[n..], q, w)
    decreases n
  {
    if n == 0 {
      assert s[..0] == "" && s[0..] == s;
    } else {
      MatchAt(s, q, 0);
      assert s[0..] == s;
      forall i | 0 <= i < n - 1 ensures !OccursAt(s[1..], q, i) { OccursInTail(s, q, 1, i); }
      PassThrough(s[1..], q, w, n - 1);
      Unmatched(s, q, w);
      assert s[1..][n - 1..] == s[n..];
      CopyOne(s, n, ReplaceAll(s[n..], q, w));
    }
  }

  lemma CopyOne(s: string, n: nat, rest: string)
    requires 0 < n <= |s|
    ensures [s[0]] + (s[1..][..n - 1] + rest) == s[..n] + rest
  {
    assert [s[0]] + s[1..][..n - 1] == s[..n];
  }

  lemma Unmatched(s: string, q: string, w: string)
    requires q != "" && s != "" && !(q <= s)
    ensures ReplaceAll(s, q, w) == [s[0]] + ReplaceAll(s[1..], q, w)
  {
    if |s| < |q| { assert s == [s[0]] + s[1..]; }
  }

  lemma NoOccurrence(s: string, q: string, w: string)
    requires q != "" && forall i :: 0 <= i < |s| ==> !OccursAt(s, q, i)
    ensures ReplaceAll(s, q, w) == s
  {
    PassThrough(s, q, w, |s|);
    assert s[|s|..] == "" && s[..|s|] == s && s + "" == s;
  }

  /** A value that no placeholder can reach into keeps the two sides apart. */
  lemma {:induction false} Separator(a: string, v: string, b: string, q: string, w: string)
    requires q != "" && !Touches(v, q)
    ensures ReplaceAll(a + v + b, q, w) == ReplaceAll(a, q, w) + v + ReplaceAll(b, q, w)
    decreases |a|
  {
    if a == "" {
      SeparatorFirst(v, b, q, w);
      assert "" + v + b == v + b && ReplaceAll("", q, w) == "" && "" + v == v;
    } else if q <= a + v + b {
      SeparatorMatch(a, v, b, q);
      Separator(a[|q|..], v, b, q, w);
      SeparatorHit(a, v, b, q, w, ReplaceAll(a[|q|..], q, w), ReplaceAll(b, q, w));
    } else {
      SeparatorNoMatch(a, v, b, q);
      Separator(a[1..], v, b, q, w);
      SeparatorMiss(a, v, b, q, w, ReplaceAll(a[1..], q, w), ReplaceAll(b, q, w));
    }
  }

  lemma SeparatorHit(a: string, v: string, b: string, q: string, w: string, x: string, y: string)
    requires q != "" && q <= a && ReplaceAll(a[|q|..] + v + b, q, w) == x + v + y && ReplaceAll(a[|q|..], q, w) == x
    ensures ReplaceAll(a + v + b, q, w) == ReplaceAll(a, q, w) + v + y
  {
    assert (a + v + b)[|q|..] == a[|q|..] + v + b;
    Grouped(w, x, v, y);
  }

  lemma SeparatorMiss(a: string, v: string, b: string, q: string, w: string, x: string, y: string)
    requires q != "" && a != "" && !(q <= a + v + b) && !(q <= a)
    requires ReplaceAll(a[1..] + v + b, q, w) == x + v + y && ReplaceAll(a[1..], q, w) == x
    ensures ReplaceAll(a + v + b, q, w) == ReplaceAll(a, q, w) + v + y
  {
    TailOf(a, v, b);
    Unmatched(a + v + b, q, w);
    Unmatched(a, q, w);
    Grouped([a[0]], x, v, y);
  }

  lemma TailOf(a: string, v: string, b: string)
    requires a != ""
    ensures (a + v + b)[0] == a[0] && (a + v + b)[1..] == a[1..] + v + b
  {
  }

  lemma SeparatorFirst(v: string, b: string, q: string, w: string)
    requires q != "" && !Touches(v, q)
    ensures ReplaceAll(v + b, q, w) == v + ReplaceAll(b, q, w)
  {
    var s := v + b;
    assert "" + v + b == s;
    forall i | 0 <= i < |v| ensures !OccursAt(s, q, i) {
      if OccursAt(s, q, i) { OccurrenceAvoids("", v, b, q, i); }
    }
    PassThrough(s, q, w, |v|);
    assert s[..|v|] == v && s[|v|..] == b;
  }

  lemma Grouped(x: string, a: string, v: string, b: string)
    ensures x + (a + v + b) == (x + a) + v + b
  {
  }

  lemma SeparatorMatch(a: string, v: string, b: string, q: string)
    requires q != "" && !Touches(v, q) && a != "" && q <= a + v + b
    ensures q <= a
  {
    var s := a + v + b;
    assert s[0..] == s;
    MatchAt(s, q, 0);
    OccurrenceAvoids(a, v, b, q, 0);
    assert s[..|q|] == a[..|q|];
  }

  lemma SeparatorNoMatch(a: string, v: string, b: string, q: string)
    requires !(q <= a + v + b)
    ensures !(q <= a)
  {
    assert (a + v + b)[..|a|] == a;
  }

  // ----- two replacements commute

  function Pair(s: string, p: string, v: string, q: string, w: string): string
    requires p != "" && q != ""
  {
    ReplaceAll(ReplaceAll(s, p, v), q, w)
  }

  /** What the second replacement leaves of the first one's value. */
  lemma FirstHit(a: string, p: string, b: string, v: string, q: string, w: string)
    requires IsPlaceholder(p) && IsPlaceholder(q) && p != q && !Touches(v, q)
    requires forall i :: 0 <= i < |a| ==> !OccursAt(a + p + b, p, i) && !OccursAt(a + p + b, q, i)
    ensures Pair(a + p + b, p, v, q, w) == a + v + ReplaceAll(ReplaceAll(b, p, v), q, w)
    ensures Pair(a + p + b, q, w, p, v) == a + v + ReplaceAll(ReplaceAll(b, q, w), p, v)
  {
    var s := a + p + b;
    assert a + (p + b) == s;
    forall i | 0 <= i < |a| ensures !OccursAt(a, q, i) {
      if OccursAt(a, q, i) { OccursInFront(a, p + b, q, i); }
    }
    NoOccurrence(a, q, w);
    ReplaceFirst(a, p, b, v);
    Separator(a, v, ReplaceAll(b, p, v), q, w);
    DifferentDoNotTouch(p, q);
    Separator(a, p, b, q, w);
    var c := ReplaceAll(b, q, w);
    forall i | 0 <= i < |a| ensures !OccursAt(a + p + c, p, i) { NoEarlier(a, p, b, c, i); }
    ReplaceFirst(a, p, c, v);
  }

  /** Whether `p` occurs before a given `p` does not depend on what follows it. */
  lemma NoEarlier(a: string, p: string, b: string, c: string, i: nat)
    requires IsPlaceholder(p) && i < |a| && !OccursAt(a + p + b, p, i)
    ensures !OccursAt(a + p + c, p, i)
  {
    if OccursAt(a + p + c, p, i) { EarlierIsInFront(a, p, b, c, i); }
  }

  lemma EarlierIsInFront(a: string, p: string, b: string, c: string, i: nat)
    requires IsPlaceholder(p) && i < |a| && OccursAt(a + p + c, p, i)
    ensures OccursAt(a + p + b, p, i)
  {
    if |a| < i + |p| {
      OccurrenceTouches(a, p, c, p, i);
      PlaceholdersApart(p, p, |a| - i);
    }
    assert a == (a + p + c)[..|a|];
    assert a[i..i + |p|] == (a + p + c)[i..i + |p|];
    OccursInFront(a, p + b, p, i);
    assert a + (p + b) == a + p + b;
  }

  lemma ReplaceFirst(a: string, p: string, b: string, v: string)
    requires IsPlaceholder(p) && forall i :: 0 <= i < |a| ==> !OccursAt(a + p + b, p, i)
    ensures ReplaceAll(a + p + b, p, v) == a + v + ReplaceAll(b, p, v)
  {
    var s := a + p + b;
    PassThrough(s, p, v, |a|);
    assert s[..|a|] == a && s[|a|..] == p + b;
    assert (p + b)[|p|..] == b;
    assert a + (v + ReplaceAll(b, p, v)) == a + v + ReplaceAll(b, p, v);
  }

  /** Replacing two placeholders commutes when neither value can complete the other placeholder. */
  lemma {:induction false} Commute(s: string, p: string, v: string, q: string, w: string)
    requires IsPlaceholder(p) && IsPlaceholder(q) && p != q && !Touches(v, q) && !Touches(w, p)
    ensures Pair(s, p, v, q, w) == Pair(s, q, w, p, v)
    decreases |s|
  {
    if i :| 0 <= i < |s| && IsFirstHit(s, p, q, i) {
      if OccursAt(s, p, i) {
        var a, b := s[..i], s[i + |p|..];
        assert s == a + p + b;
        Commute(b, p, v, q, w);
        FirstHit(a, p, b, v, q, w);
      } else {
        var a, b := s[..i], s[i + |q|..];
        assert s == a + q + b;
        Commute(b, p, v, q, w);
        FirstHit(a, q, b, w, p, v);
      }
    } else {
      NoHit(s, p, q, |s|);
      NoOccurrence(s, p, v);
      NoOccurrence(s, q, w);
    }
  }

  ghost predicate IsFirstHit(s: string, p: string, q: string, i: int) {
    (OccursAt(s, p, i) || OccursAt(s, q, i)) && forall k :: 0 <= k < i ==> !OccursAt(s, p, k) && !OccursAt(s, q, k)
  }

  lemma {:induction false} NoHit(s: string, p: string, q: string, n: nat)
    requires n <= |s| && forall i :: 0 <= i < |s| ==> !IsFirstHit(s, p, q, i)
    ensures forall i :: 0 <= i < n ==> !OccursAt(s, p, i) && !OccursAt(s, q, i)
  {
    if n > 0 {
      NoHit(s, p, q, n - 1);
      assert !IsFirstHit(s, p, q, n - 1);
    }
  }

  // ----- every order

  /** No value can complete another placeholder, unless that placeholder stands for itself. */
  ghost predicate Calm(t: Table) {
    forall p, q :: p in t && q in t && p != q ==> t[q] == q || !Touches(t[p], q)
  }

  lemma {:induction false} ReplaceWithItself(s: string, q: string)
    requires q != ""
    ensures ReplaceAll(s, q, q) == s
  {
    if |s| < |q| {
    } else if q <= s {
      ReplaceWithItself(s[|q|..], q);
      assert s == q + s[|q|..];
    } else {
      ReplaceWithItself(s[1..], q);
      assert s == [s[0]] + s[1..];
    }
  }

  lemma CalmCommutes(s: string, t: Table, p: string, q: string)
    requires IsTable(t) && Calm(t) && p in t && q in t && p != q
    ensures Pair(s, p, t[p], q, t[q]) == Pair(s, q, t[q], p, t[p])
  {
    if t[q] == q {
      ReplaceWithItself(s, q);
      ReplaceWithItself(ReplaceAll(s, p, t[p]), q);
    } else if t[p] == p {
      ReplaceWithItself(s, p);
      ReplaceWithItself(ReplaceAll(s, q, t[q]), p);
    } else {
      Commute(s, p, t[p], q, t[q]);
    }
  }

  function Without(order: seq<string>, k: nat): seq<string>
    requires k < |order|
  {
    order[..k] + order[k + 1..]
  }

  /** Any placeholder of an order may go first. */
  lemma {:induction false} MoveToFront(s: string, t: Table, order: seq<string>, k: nat)
    requires IsTable(t) && Calm(t) && Within(order, t) && k < |order|
    requires forall i, j :: 0 <= i < j < |order| ==> order[i] != order[j]
    ensures FillInOrder(s, t, order) == FillInOrder(ReplaceAll(s, order[k], t[order[k]]), t, Without(order, k))
    decreases k
  {
    if k == 0 {
      assert Without(order, 0) == order[1..];
    } else {
      var p, q, rest := order[0], order[k], order[1..];
      MoveToFront(ReplaceAll(s, p, t[p]), t, rest, k - 1);
      CalmCommutes(s, t, p, q);
      assert Without(order, k)[0] == p && Without(order, k)[1..] == Without(rest, k - 1);
    }
  }

  /** A calm table yields one result, whatever the iteration order. */
  lemma {:induction false} OrdersAgree(s: string, t: Table, a: seq<string>, b: seq<string>, keys: set<string>)
    requires IsTable(t) && Calm(t) && keys <= t.Keys && Lists(a, keys) && Lists(b, keys)
    ensures Within(a, t) && Within(b, t) && FillInOrder(s, t, a) == FillInOrder(s, t, b)
    decreases |a|
  {
    ListsWithin(a, keys, t);
    ListsWithin(b, keys, t);
    assert b != [] ==> b[0] in b;
    if a != [] {
      var p := a[0];
      assert p in a;
      var k :| 0 <= k < |b| && b[k] == p;
      MoveToFront(s, t, b, k);
      ListsTail(a, 0, keys);
      ListsTail(b, k, keys);
      assert Without(a, 0) == a[1..];
      OrdersAgree(ReplaceAll(s, p, t[p]), t, a[1..], Without(b, k), keys - {p});
    }
  }

  lemma ListsWithin(a: seq<string>, keys: set<string>, t: Table)
    requires keys <= t.Keys && Lists(a, keys)
    ensures Within(a, t)
  {
    forall i | 0 <= i < |a| ensures a[i] in t { assert a[i] in a; }
  }

  lemma ListsTail(a: seq<string>, k: nat, keys: set<string>)
    requires Lists(a, keys) && k < |a|
    ensures Lists(Without(a, k), keys - {a[k]})
  {
    var r := Without(a, k);
    forall i, j | 0 <= i < j < |r| ensures r[i] != r[j] {
      assert r[i] == a[if i < k then i else i + 1] && r[j] == a[if j < k then j else j + 1];
    }
    forall x ensures x in r <==> x in keys - {a[k]} {
      if x in r {
        var i :| 0 <= i < |r| && r[i] == x;
        assert x == a[if i < k then i else i + 1];
        assert x in a;
      }
      if x in keys - {a[k]} {
        assert x in a;
        var i :| 0 <= i < |a| && a[i] == x;
        assert r[if i < k then i else i - 1] == x;
      }
    }
  }

  // ----- the converse: a text whose result depends on the order

  lemma {:induction false} ReplaceLength(s: string, q: string, w: string)
    requires q != ""
    ensures |w| >= |q| ==> |ReplaceAll(s, q, w)| >= |s|
    ensures |w| <= |q| ==> |ReplaceAll(s, q, w)| <= |s|
  {
    if |s| < |q| {
    } else if q <= s {
      ReplaceLength(s[|q|..], q, w);
    } else {
      ReplaceLength(s[1..], q, w);
    }
  }

  /** Replacing something that occurs by something else changes the text. */
  lemma {:induction false} ReplaceChanges(s: string, q: string, w: string, i: nat)
    requires q != "" && OccursAt(s, q, i) && ReplaceAll(s, q, w) == s
    ensures w == q
  {
    assert s[0..] == s;
    MatchAt(s, q, 0);
    if q <= s {
      ReplaceLength(s[|q|..], q, w);
      var r := w + ReplaceAll(s[|q|..], q, w);
      assert |w| == |q|;
      assert w == r[..|w|] && s[..|q|] == q;
    } else {
      OccursInTail(s, q, 1, i - 1);
      var r := [s[0]] + ReplaceAll(s[1..], q, w);
      assert r[1..] == ReplaceAll(s[1..], q, w);
      ReplaceChanges(s[1..], q, w, i - 1);
    }
  }

  /** What of `q` sticks out before and after a `v` laid over it at offset `k`. */
  function Before(q: string, k: int): string
    requires k < |q|
  {
    if k > 0 then q[..k] else ""
  }

  function After(q: string, end: int): string
    requires 0 < end
  {
    if end < |q| then q[end..] else ""
  }

  lemma Completed(v: string, q: string, k: int) returns (i: nat)
    requires IsPlaceholder(q) && TouchesAt(v, q, k)
    ensures OccursAt(Before(q, k) + v + After(q, k + |v|), q, i)
  {
    var a, b := Before(q, k), After(q, k + |v|);
    var s := a + v + b;
    i := if k > 0 then 0 else -k;
    assert i + |q| <= |s|;
    forall j | 0 <= j < |q| ensures s[i..i + |q|][j] == q[j] {
      assert s[i..i + |q|][j] == s[i + j];
      if 0 <= j - k < |v| { assert v[j - k] == q[k + (j - k)]; }
    }
    assert s[i..i + |q|] == q;
  }

  /** A proper prefix of a placeholder lacks the closing braces, a proper suffix the opening ones. */
  lemma NotInPrefix(q: string, k: int, r: string, i: nat)
    requires IsPlaceholder(q) && IsPlaceholder(r) && k < |q| && i + |r| <= |Before(q, k)|
    ensures !OccursAt(Before(q, k), r, i)
  {
    var a := Before(q, k);
    assert a[i..i + |r|][|r| - 2] == q[i + |r| - 2];
  }

  lemma NotInSuffix(q: string, end: int, r: string, i: nat)
    requires IsPlaceholder(q) && IsPlaceholder(r) && 0 < end && i + |r| <= |After(q, end)|
    ensures !OccursAt(After(q, end), r, i)
  {
    var b := After(q, end);
    assert b[i..i + |r|][1] == q[end + i + 1];
  }

  /** Around a placeholder, the two ends of another one form no further placeholder. */
  lemma OnlyInTheMiddle(q: string, k: int, end: int, p: string, r: string, i: nat)
    requires IsPlaceholder(p) && IsPlaceholder(q) && IsPlaceholder(r) && k < |q| && 0 < end
    requires OccursAt(Before(q, k) + p + After(q, end), r, i)
    ensures r == p && i == |Before(q, k)|
  {
    var a, b := Before(q, k), After(q, end);
    NotInFront(a, p, b, r, i, q, k);
    NotBehind(a, p, b, r, i, q, end);
    OccurrenceTouches(a, p, b, r, i);
    PlaceholdersApart(p, r, |a| - i);
  }

  lemma OccursInPrefix(a: string, p: string, b: string, r: string, i: nat)
    requires i + |r| <= |a|
    ensures OccursAt(a, r, i) <==> OccursAt(a + p + b, r, i)
  {
    assert (a + p + b)[i..i + |r|] == a[i..i + |r|];
  }

  lemma NotInFront(a: string, p: string, b: string, r: string, i: nat, q: string, k: int)
    requires IsPlaceholder(q) && IsPlaceholder(r) && k < |q| && a == Before(q, k) && OccursAt(a + p + b, r, i)
    ensures |a| < i + |r|
  {
    if i + |r| <= |a| {
      NotInPrefix(q, k, r, i);
      OccursInPrefix(a, p, b, r, i);
    }
  }

  lemma NotBehind(a: string, p: string, b: string, r: string, i: nat, q: string, end: int)
    requires IsPlaceholder(q) && IsPlaceholder(r) && 0 < end && b == After(q, end) && OccursAt(a + p + b, r, i)
    ensures i < |a| + |p|
  {
    OccursSomewhere(a, p, b, r, i);
    forall j: nat ensures !OccursAt(b, r, j) {
      if j + |r| <= |b| { NotInSuffix(q, end, r, j); }
    }
  }

  lemma OccursSomewhere(a: string, p: string, b: string, r: string, i: nat)
    requires OccursAt(a + p + b, r, i)
    ensures i < |a| + |p| || exists j: nat :: OccursAt(b, r, j)
  {
    var n := |a| + |p|;
    assert (a + p + b)[n..] == b;
    if n <= i { OccursInTail(a + p + b, r, n, i - n); }
  }

  /** A value that can complete another placeholder makes some text depend on which of the two is replaced first. */
  lemma RestlessPair(p: string, v: string, q: string, w: string, k: int) returns (s: string)
    requires IsPlaceholder(p) && IsPlaceholder(q) && p != q && w != q && TouchesAt(v, q, k)
    ensures Pair(s, p, v, q, w) != Pair(s, q, w, p, v)
    ensures forall r, i :: IsPlaceholder(r) && r != p ==> !OccursAt(s, r, i)
  {
    var a, b := Before(q, k), After(q, k + |v|);
    s := a + p + b;
    forall r, i | IsPlaceholder(r) && OccursAt(s, r, i) ensures r == p && i == |a| {
      OnlyInTheMiddle(q, k, k + |v|, p, r, i);
    }
    ReplaceFirst(a, p, b, v);
    assert s[|a| + |p|..] == b;
    forall i | 0 <= i < |b| ensures !OccursAt(b, p, i) { OccursInTail(s, p, |a| + |p|, i); }
    NoOccurrence(b, p, v);
    NoOccurrence(s, q, w);
    var i := Completed(v, q, k);
    if ReplaceAll(a + v + b, q, w) == a + v + b { ReplaceChanges(a + v + b, q, w, i); }
  }

  lemma {:induction false} FillSkips(s: string, t: Table, front: seq<string>, rest: seq<string>)
    requires IsTable(t) && Within(front + rest, t)
    requires forall x, i :: 0 <= x < |front| ==> !OccursAt(s, front[x], i)
    ensures Within(rest, t) && FillInOrder(s, t, front + rest) == FillInOrder(s, t, rest)
    decreases |front|
  {
    if front == [] {
      assert front + rest == rest;
    } else {
      assert (front + rest)[0] == front[0] && (front + rest)[1..] == front[1..] + rest;
      NoOccurrence(s, front[0], t[front[0]]);
      FillSkips(s, t, front[1..], rest);
      assert forall i :: 0 <= i < |rest| ==> rest[i] == (front + rest)[|front| + i];
    }
  }

  lemma {:induction false} SomeListing(keys: set<string>) returns (order: seq<string>)
    ensures Lists(order, keys)
  {
    if keys == {} {
      order := [];
    } else {
      var k :| k in keys;
      var rest := SomeListing(keys - {k});
      order := [k] + rest;
      forall x ensures x in order <==> x in keys {
        if x in keys && x != k { assert x in rest; }
      }
      forall i | 0 <= i < |rest| ensures rest[i] != k { assert rest[i] in rest; }
    }
  }

  lemma ListsTwoMore(front: seq<string>, keys: set<string>, p: string, q: string)
    requires Lists(front, keys - {p, q}) && p in keys && q in keys && p != q
    ensures Lists(front + [p, q], keys)
  {
    var all := front + [p, q];
    forall x ensures x in all <==> x in keys {
      if x in front { assert x in keys - {p, q}; }
    }
    forall i | 0 <= i < |front| ensures front[i] != p && front[i] != q { assert front[i] in front; }
  }

  lemma TwoOrders(s: string, t: Table, p: string, q: string)
    requires IsTable(t) && p in t && q in t && p != q
    requires forall r, i :: r in t && r != p && r != q ==> !OccursAt(s, r, i)
    ensures p != "" && q != "" && Yields(s, t, Pair(s, p, t[p], q, t[q]))
  {
    var front := SomeListing(t.Keys - {p, q});
    ListsTwoMore(front, t.Keys, p, q);
    ListsWithin(front + [p, q], t.Keys, t);
    forall x, i | 0 <= x < |front| ensures !OccursAt(s, front[x], i) { assert front[x] in front; }
    FillSkips(s, t, front, [p, q]);
    assert [p, q][1..] == [q] && [q][1..] == [];
    assert FillInOrder(ReplaceAll(s, p, t[p]), t, [q]) == Pair(s, p, t[p], q, t[q]);
  }

  ghost predicate OrderFree(t: Table)
    requires IsTable(t)
  {
    forall s, x, y :: Yields(s, t, x) && Yields(s, t, y) ==> x == y
  }

  /** Every text has one result whatever the iteration order if and only if the table is calm. */
  lemma OrderFreeIffCalm(t: Table)
    requires IsTable(t)
    ensures OrderFree(t) <==> Calm(t)
  {
    if Calm(t) {
      forall s, x, y | Yields(s, t, x) && Yields(s, t, y) ensures x == y {
        var a :| Lists(a, t.Keys) && x == FillInOrder(s, t, a);
        var b :| Lists(b, t.Keys) && y == FillInOrder(s, t, b);
        OrdersAgree(s, t, a, b, t.Keys);
      }
    } else {
      var p, q :| p in t && q in t && p != q && t[q] != q && Touches(t[p], q);
      var k :| -|t[p]| < k < |q| && TouchesAt(t[p], q, k);
      var s := RestlessPair(p, t[p], q, t[q], k);
      assert forall r, i :: r in t && r != p ==> !OccursAt(s, r, i);
      TwoOrders(s, t, p, q);
      TwoOrders(s, t, q, p);
    }
  }

  // ----- one text: every order replaces all placeholders at once

  /** The placeholder of `keys` the text starts with, if there is one. */
  ghost predicate StartsWith(s: string, keys: set<string>) { exists p :: p in keys && p <= s }

  ghost function Leading(s: string, keys: set<string>): (p: string)
    requires StartsWith(s, keys)
    ensures p in keys && p <= s
  {
    var p :| p in keys && p <= s;
    p
  }

  lemma LeadingIsUnique(s: string, p: string, q: string)
    requires IsPlaceholder(p) && IsPlaceholder(q) && p <= s && q <= s
    ensures p == q
  {
    forall j | 0 <= j < |p| && j < |q| ensures p[j] == q[j] { assert s[j] == p[j] && s[j] == q[j]; }
    SameEnd(p, q);
  }

  ghost predicate AllPlaceholders(keys: set<string>) { forall p :: p in keys ==> IsPlaceholder(p) }

  /** All placeholders of `keys` replaced in one pass over the text. */
  ghost function AtOnce(s: string, t: Table, keys: set<string>): string
    requires keys <= t.Keys && AllPlaceholders(keys)
  {
    if s == "" then ""
    else if StartsWith(s, keys) then
      var p := Leading(s, keys);
      t[p] + AtOnce(s[|p|..], t, keys)
    else [s[0]] + AtOnce(s[1..], t, keys)
  }

  /** How many placeholders of `keys` the text has. */
  ghost function Hits(s: string, keys: set<string>): nat
    requires AllPlaceholders(keys)
  {
    if s == "" then 0
    else if StartsWith(s, keys) then 1 + Hits(s[|Leading(s, keys)|..], keys)
    else Hits(s[1..], keys)
  }

  /** No value has an opening brace. */
  ghost predicate Braceless(t: Table) { forall p :: p in t ==> '{' !in t[p] }

  function Openings(s: string): nat {
    if s == "" then 0 else (if s[0] == '{' then 1 else 0) + Openings(s[1..])
  }

  lemma {:induction false} OpeningsAdd(a: string, b: string)
    ensures Openings(a + b) == Openings(a) + Openings(b)
  {
    if a == "" {
      assert a + b == b;
    } else {
      OpeningsAdd(a[1..], b);
      assert (a + b)[1..] == a[1..] + b;
    }
  }

  lemma {:induction false} NoOpenings(s: string)
    requires '{' !in s
    ensures Openings(s) == 0
  {
    if s != "" { NoOpenings(s[1..]); }
  }

  lemma PlaceholderOpenings(p: string)
    requires IsPlaceholder(p)
    ensures Openings(p) == 2
  {
    assert '{' !in p[2..] by {
      forall i | 0 <= i < |p[2..]| ensures p[2..][i] != '{' { assert p[2..][i] == p[2 + i]; }
    }
    NoOpenings(p[2..]);
    assert p[1..][1..] == p[2..];
  }

  /** Every replacement takes two opening braces away. */
  lemma {:induction false} AtOnceOpenings(s: string, t: Table, keys: set<string>)
    requires keys <= t.Keys && AllPlaceholders(keys) && Braceless(t)
    ensures Openings(AtOnce(s, t, keys)) + 2 * Hits(s, keys) == Openings(s)
  {
    if s == "" {
    } else if StartsWith(s, keys) {
      var p := Leading(s, keys);
      AtOnceOpenings(s[|p|..], t, keys);
      OpeningsAdd(t[p], AtOnce(s[|p|..], t, keys));
      NoOpenings(t[p]);
      assert s == p + s[|p|..];
      OpeningsAdd(p, s[|p|..]);
      PlaceholderOpenings(p);
    } else {
      AtOnceOpenings(s[1..], t, keys);
      OpeningsAdd([s[0]], AtOnce(s[1..], t, keys));
    }
  }

  /** A text in front that no placeholder starts in is copied. */
  lemma {:induction false} CopiedFront(a: string, b: string, t: Table, keys: set<string>)
    requires keys <= t.Keys && AllPlaceholders(keys)
    requires forall i :: 0 <= i < |a| ==> !StartsWith(a[i..] + b, keys)
    ensures AtOnce(a + b, t, keys) == a + AtOnce(b, t, keys) && Hits(a + b, keys) == Hits(b, keys)
  {
    if a == "" {
      assert a + b == b;
    } else {
      assert a[0..] == a && (a + b)[1..] == a[1..] + b;
      forall i | 0 <= i < |a[1..]| ensures !StartsWith(a[1..][i..] + b, keys) { assert a[1..][i..] == a[i + 1..]; }
      CopiedFront(a[1..], b, t, keys);
      assert [a[0]] + (a[1..] + AtOnce(b, t, keys)) == a + AtOnce(b, t, keys);
    }
  }

  lemma BracelessFront(a: string, b: string, t: Table, keys: set<string>)
    requires keys <= t.Keys && AllPlaceholders(keys) && '{' !in a
    ensures AtOnce(a + b, t, keys) == a + AtOnce(b, t, keys) && Hits(a + b, keys) == Hits(b, keys)
  {
    forall i | 0 <= i < |a| ensures !StartsWith(a[i..] + b, keys) {
      assert (a[i..] + b)[0] == a[i];
    }
    CopiedFront(a, b, t, keys);
  }

  /** Inside a placeholder, or at the front of a foreign one, none of `keys` starts. */
  lemma NoneStartsInside(p: string, b: string, keys: set<string>, i: nat)
    requires IsPlaceholder(p) && AllPlaceholders(keys) && i < |p| && (i == 0 ==> p !in keys)
    ensures !StartsWith(p[i..] + b, keys)
  {
    var s := p[i..] + b;
    if StartsWith(s, keys) {
      var q := Leading(s, keys);
      forall j | 0 <= j < |p| && 0 <= j - i < |q| ensures p[j] == q[j - i] { assert s[j - i] == p[j]; }
      assert TouchesAt(p, q, -i);
      PlaceholdersApart(p, q, -i);
    }
  }

  lemma ForeignFront(p: string, b: string, t: Table, keys: set<string>)
    requires keys <= t.Keys && AllPlaceholders(keys) && IsPlaceholder(p) && p !in keys
    ensures AtOnce(p + b, t, keys) == p + AtOnce(b, t, keys) && Hits(p + b, keys) == Hits(b, keys)
  {
    forall i: nat | i < |p| ensures !StartsWith(p[i..] + b, keys) { NoneStartsInside(p, b, keys, i); }
    CopiedFront(p, b, t, keys);
  }

  lemma OwnFront(p: string, b: string, t: Table, keys: set<string>)
    requires keys <= t.Keys && AllPlaceholders(keys) && p in keys
    ensures AtOnce(p + b, t, keys) == t[p] + AtOnce(b, t, keys) && Hits(p + b, keys) == 1 + Hits(b, keys)
  {
    var s := p + b;
    assert p <= s;
    LeadingIsUnique(s, p, Leading(s, keys));
    assert s[|p|..] == b;
  }

  /** One more character in front either changes nothing behind it or completes a placeholder. */
  lemma CharFront(c: char, b: string, t: Table, keys: set<string>)
    requires keys <= t.Keys && AllPlaceholders(keys)
    ensures Hits([c] + b, keys) >= Hits(b, keys)
    ensures Hits([c] + b, keys) == Hits(b, keys) ==> AtOnce([c] + b, t, keys) == [c] + AtOnce(b, t, keys)
  {
    var s := [c] + b;
    assert s[1..] == b;
    if StartsWith(s, keys) {
      var p := Leading(s, keys);
      var rest := s[|p|..];
      assert s == p + rest && b == p[1..] + rest;
      forall i | 0 <= i < |p[1..]| ensures !StartsWith(p[1..][i..] + rest, keys) {
        NoneStartsInside(p, rest, keys, i + 1);
        assert p[1..][i..] == p[i + 1..];
      }
      CopiedFront(p[1..], rest, t, keys);
      OwnFront(p, rest, t, keys);
    }
  }

  /**
   Replacing some placeholders keeps every other one. If it adds none, replacing the others afterwards is replacing all
   of them at once.
   */
  lemma {:induction false} OthersRemain(s: string, t: Table, some: set<string>, others: set<string>)
    requires some + others <= t.Keys && some !! others && AllPlaceholders(some + others) && Braceless(t)
    ensures Hits(AtOnce(s, t, some), others) >= Hits(s, others)
    ensures Hits(AtOnce(s, t, some), others) == Hits(s, others) ==>
              AtOnce(AtOnce(s, t, some), t, others) == AtOnce(s, t, some + others)
    decreases |s|
  {
    if s == "" {
    } else if StartsWith(s, some) {
      var p := Leading(s, some);
      var b := s[|p|..];
      assert s == p + b;
      OthersRemain(b, t, some, others);
      ForeignFront(p, b, t, others);
      OwnFront(p, b, t, some);
      OwnFront(p, b, t, some + others);
      BracelessFront(t[p], AtOnce(b, t, some), t, others);
    } else if StartsWith(s, others) {
      var p := Leading(s, others);
      var b := s[|p|..];
      assert s == p + b;
      OthersRemain(b, t, some, others);
      ForeignFront(p, b, t, some);
      OwnFront(p, b, t, others);
      OwnFront(p, b, t, some + others);
      OwnFront(p, AtOnce(b, t, some), t, others);
    } else {
      assert !StartsWith(s, some + others);
      OthersRemain(s[1..], t, some, others);
      CharFront(s[0], AtOnce(s[1..], t, some), t, others);
    }
  }

  lemma {:induction false} HitsAdd(s: string, t: Table, a: set<string>, b: set<string>)
    requires a !! b && a + b <= t.Keys && AllPlaceholders(a + b)
    ensures Hits(s, a + b) == Hits(s, a) + Hits(s, b)
    decreases |s|
  {
    if s == "" {
    } else if StartsWith(s, a + b) {
      var p := Leading(s, a + b);
      var rest := s[|p|..];
      assert s == p + rest;
      HitsAdd(rest, t, a, b);
      OwnFront(p, rest, t, a + b);
      if p in a {
        OwnFront(p, rest, t, a);
        ForeignFront(p, rest, t, b);
      } else {
        OwnFront(p, rest, t, b);
        ForeignFront(p, rest, t, a);
      }
    } else {
      assert forall q :: q in a || q in b ==> q in a + b;
      HitsAdd(s[1..], t, a, b);
    }
  }

  lemma {:induction false} ReplaceIsAtOnce(s: string, t: Table, p: string)
    requires p in t && IsPlaceholder(p)
    ensures AllPlaceholders({p}) && ReplaceAll(s, p, t[p]) == AtOnce(s, t, {p})
  {
    assert AllPlaceholders({p});
    if s != "" {
      if p <= s {
        ReplaceIsAtOnce(s[|p|..], t, p);
        assert s == p + s[|p|..];
        OwnFront(p, s[|p|..], t, {p});
      } else {
        assert !StartsWith(s, {p});
        ReplaceIsAtOnce(s[1..], t, p);
        Unmatched(s, p, t[p]);
      }
    }
  }

  ghost function SetOf(order: seq<string>): set<string> { set p | p in order }

  /** Filling in the placeholders `some` alone makes a placeholder `q` appear that the text did not have. */
  ghost predicate Adds(s: string, t: Table, some: set<string>, q: string)
    requires IsTable(t)
  {
    some <= t.Keys && q in t && q !in some && Hits(AtOnce(s, t, some), {q}) != Hits(s, {q})
  }

  /** No partial fill-in makes a placeholder appear. */
  ghost predicate NothingAppears(s: string, t: Table)
    requires IsTable(t)
  {
    forall some, q :: !Adds(s, t, some, q)
  }

  ghost predicate Distinct(order: seq<string>) { forall i, j :: 0 <= i < j < |order| ==> order[i] != order[j] }

  /** As long as nothing appears, replacing one placeholder after the other is replacing them at once. */
  lemma {:induction false} FillIsAtOnce(s: string, t: Table, order: seq<string>, n: nat)
    requires IsTable(t) && Braceless(t) && Within(order, t) && Distinct(order) && n <= |order|
    requires forall m :: 0 <= m < n ==> !Adds(s, t, SetOf(order[..m]), order[m])
    ensures SetOf(order[..n]) <= t.Keys && FillInOrder(s, t, order[..n]) == AtOnce(s, t, SetOf(order[..n]))
  {
    if n == 0 {
      NothingAtOnce(s, t);
      assert order[..0] == [] && SetOf([]) == {};
    } else {
      FillIsAtOnce(s, t, order, n - 1);
      var some, q := SetOf(order[..n - 1]), order[n - 1];
      assert order[..n] == order[..n - 1] + [q];
      FillOneMore(s, t, order[..n - 1], q);
      ReplaceIsAtOnce(AtOnce(s, t, some), t, q);
      assert q !in some && SetOf(order[..n]) == some + {q};
      assert !Adds(s, t, some, q);
      OthersRemain(s, t, some, {q});
    }
  }

  lemma {:induction false} NothingAtOnce(s: string, t: Table)
    ensures AtOnce(s, t, {}) == s
  {
    if s != "" {
      NothingAtOnce(s[1..], t);
      assert s == [s[0]] + s[1..];
    }
  }

  /** Every order replaces at least the placeholders the text has. */
  lemma {:induction false} FillTakesOpenings(s: string, t: Table, order: seq<string>)
    requires IsTable(t) && Braceless(t) && Within(order, t) && Distinct(order) && SetOf(order) <= t.Keys
    ensures Openings(FillInOrder(s, t, order)) + 2 * Hits(s, SetOf(order)) <= Openings(s)
    decreases |order|
  {
    if order == [] {
      assert SetOf(order) == {};
      NothingAtOnce(s, t);
      AtOnceOpenings(s, t, {});
    } else {
      var p, rest := order[0], order[1..];
      var x := AtOnce(s, t, {p});
      assert p !in SetOf(rest) && SetOf(order) == {p} + SetOf(rest) by {
        assert order == [p] + rest;
        forall i | 0 <= i < |rest| ensures rest[i] != p { assert rest[i] == order[i + 1]; }
      }
      ReplaceIsAtOnce(s, t, p);
      FillTakesOpenings(x, t, rest);
      OthersRemain(s, t, {p}, SetOf(rest));
      HitsAdd(s, t, {p}, SetOf(rest));
      AtOnceOpenings(s, t, {p});
    }
  }

  /** An order in which something appears takes more braces away than replacing all placeholders at once. */
  lemma AppearanceShows(s: string, t: Table, front: seq<string>, q: string, back: seq<string>)
    requires IsTable(t) && Braceless(t) && Lists(front + [q] + back, t.Keys) && Within(front + [q] + back, t)
    requires Within(front, t) && SetOf(front) <= t.Keys
    requires FillInOrder(s, t, front) == AtOnce(s, t, SetOf(front)) && Adds(s, t, SetOf(front), q)
    ensures FillInOrder(s, t, front + [q] + back) != AtOnce(s, t, t.Keys)
  {
    var order, some, tail := front + [q] + back, SetOf(front), [q] + back;
    var y := AtOnce(s, t, some);
    assert order == front + tail;
    Split(front, tail, t.Keys);
    FillAppend(s, t, front, tail);
    FillTakesOpenings(y, t, tail);
    assert SetOf(tail) == {q} + SetOf(back) && q !in SetOf(back) by { TailSplit(front, q, back, t.Keys); }
    HitsAdd(y, t, {q}, SetOf(back));
    HitsAdd(s, t, {q}, SetOf(back));
    HitsAdd(s, t, some, SetOf(tail));
    OthersRemain(s, t, some, {q});
    OthersRemain(s, t, some, SetOf(back));
    AtOnceOpenings(s, t, some);
    AtOnceOpenings(s, t, t.Keys);
  }

  lemma Split(a: seq<string>, b: seq<string>, keys: set<string>)
    requires Lists(a + b, keys)
    ensures Distinct(a) && Distinct(b) && SetOf(a) !! SetOf(b) && SetOf(a) + SetOf(b) == keys
  {
    var all := a + b;
    forall i, j | 0 <= i < j < |a| ensures a[i] != a[j] { assert all[i] != all[j]; }
    forall i, j | 0 <= i < j < |b| ensures b[i] != b[j] { assert all[|a| + i] != all[|a| + j]; }
    forall i, j | 0 <= i < |a| && 0 <= j < |b| ensures a[i] != b[j] { assert all[i] != all[|a| + j]; }
    assert forall x :: x in all <==> x in a || x in b;
  }

  lemma TailSplit(front: seq<string>, q: string, back: seq<string>, keys: set<string>)
    requires Lists(front + [q] + back, keys)
    ensures SetOf([q] + back) == {q} + SetOf(back) && q !in SetOf(back)
  {
    var all := front + [q] + back;
    forall i | 0 <= i < |back| ensures back[i] != q { assert all[|front|] != all[|front| + 1 + i]; }
  }

  lemma {:induction false} FillAppend(s: string, t: Table, a: seq<string>, b: seq<string>)
    requires IsTable(t) && Within(a + b, t)
    ensures Within(a, t) && Within(b, t) && FillInOrder(s, t, a + b) == FillInOrder(FillInOrder(s, t, a), t, b)
    decreases |a|
  {
    assert forall i :: 0 <= i < |a| ==> a[i] == (a + b)[i];
    assert forall i :: 0 <= i < |b| ==> b[i] == (a + b)[|a| + i];
    if a == [] {
      assert a + b == b;
    } else {
      assert (a + b)[1..] == a[1..] + b;
      FillAppend(ReplaceAll(s, a[0], t[a[0]]), t, a[1..], b);
    }
  }

  ghost predicate AlwaysAtOnce(s: string, t: Table)
    requires IsTable(t)
  {
    forall r :: Yields(s, t, r) ==> r == AtOnce(s, t, t.Keys)
  }

  lemma {:induction false} FirstAppearance(s: string, t: Table, some: set<string>, q: string)
    requires IsTable(t) && Braceless(t) && Adds(s, t, some, q)
    ensures !AlwaysAtOnce(s, t)
    decreases |some|
  {
    var front := SomeListing(some);
    if m :| 0 <= m < |front| && Adds(s, t, SetOf(front[..m]), front[m]) {
      assert SetOf(front) == some && front[m] in front;
      assert SetOf(front[..m]) < some by { assert front[m] !in front[..m]; }
      SmallerSet(SetOf(front[..m]), some);
      FirstAppearance(s, t, SetOf(front[..m]), front[m]);
    } else {
      ListsWithin(front, some, t);
      FillIsAtOnce(s, t, front, |front|);
      assert front[..|front|] == front && SetOf(front) == some;
      var back := SomeListing(t.Keys - some - {q});
      Joined(front, some, q, back, t.Keys);
      ListsWithin(front + [q] + back, t.Keys, t);
      AppearanceShows(s, t, front, q, back);
      assert Yields(s, t, FillInOrder(s, t, front + [q] + back));
    }
  }

  lemma SmallerSet<T>(a: set<T>, b: set<T>)
    requires a < b
    ensures |a| < |b|
  {
    assert b == a + (b - a);
    assert |b| == |a| + |b - a|;
  }

  lemma Joined(front: seq<string>, some: set<string>, q: string, back: seq<string>, keys: set<string>)
    requires Lists(front, some) && some <= keys && q in keys && q !in some && Lists(back, keys - some - {q})
    ensures Lists(front + [q] + back, keys)
  {
    var all := front + [q] + back;
    forall x ensures x in all <==> x in keys {
      if x in keys && x !in some && x != q { assert x in back; }
      if x in back { assert x in keys - some - {q}; }
    }
    forall i, j | 0 <= i < j < |all| ensures all[i] != all[j] {
      if j < |front| {
      } else {
        assert all[j] == q || all[j] in back;
        if i < |front| { assert all[i] in front; }
        else if i == |front| { assert all[j] in back; }
      }
    }
  }

  /**
   For one text and values without opening braces: every iteration order replaces all placeholders at once if and only
   if no partial fill-in makes a placeholder appear that the text did not have.
   */
  lemma AtOnceIffNothingAppears(s: string, t: Table)
    requires IsTable(t) && Braceless(t)
    ensures AlwaysAtOnce(s, t) <==> NothingAppears(s, t)
  {
    if NothingAppears(s, t) {
      forall r | Yields(s, t, r) ensures r == AtOnce(s, t, t.Keys) {
        var order :| Lists(order, t.Keys) && Within(order, t) && r == FillInOrder(s, t, order);
        FillIsAtOnce(s, t, order, |order|);
        assert order[..|order|] == order && SetOf(order) == t.Keys;
      }
    } else {
      var some, q :| Adds(s, t, some, q);
      FirstAppearance(s, t, some, q);
    }
  }

  // ----- texts written with care

  /** Every opening brace of the text belongs to a whole placeholder, known or not. */
  ghost predicate WellBraced(s: string) {
    || s == ""
    || (s[0] != '{' && WellBraced(s[1..]))
    || exists p :: IsPlaceholder(p) && p <= s && WellBraced(s[|p|..])
  }

  lemma {:induction false} WellBracedAppend(a: string, b: string)
    requires '{' !in a && WellBraced(b)
    ensures WellBraced(a + b)
  {
    if a == "" {
      assert a + b == b;
    } else {
      WellBracedAppend(a[1..], b);
      assert (a + b)[1..] == a[1..] + b;
    }
  }

  /** Filling in such a text leaves such a text, and adds no placeholder. */
  lemma {:induction false} WellBracedStays(s: string, t: Table, some: set<string>, others: set<string>)
    requires IsTable(t) && Braceless(t) && some + others <= t.Keys && some !! others && WellBraced(s)
    ensures WellBraced(AtOnce(s, t, some)) && Hits(AtOnce(s, t, some), others) == Hits(s, others)
    decreases |s|
  {
    if s == "" {
    } else if s[0] != '{' {
      WellBracedRest(s);
      WellBracedStays(s[1..], t, some, others);
      assert s == [s[0]] + s[1..];
      PlainFrontStays(s[0], s[1..], t, some, others);
    } else {
      var p := FrontPlaceholder(s);
      WellBracedStays(s[|p|..], t, some, others);
      assert s == p + s[|p|..];
      if p in some {
        FilledFrontStays(p, s[|p|..], t, some, others);
      } else {
        KeptFrontStays(p, s[|p|..], t, some, others);
      }
    }
  }

  lemma FrontPlaceholder(s: string) returns (p: string)
    requires WellBraced(s) && s != "" && s[0] == '{'
    ensures IsPlaceholder(p) && p <= s && WellBraced(s[|p|..])
  {
    p :| IsPlaceholder(p) && p <= s && WellBraced(s[|p|..]);
  }

  lemma PlainFrontStays(c: char, rest: string, t: Table, some: set<string>, others: set<string>)
    requires c != '{' && some + others <= t.Keys && AllPlaceholders(some) && AllPlaceholders(others)
    requires WellBraced(AtOnce(rest, t, some)) && Hits(AtOnce(rest, t, some), others) == Hits(rest, others)
    ensures WellBraced(AtOnce([c] + rest, t, some))
    ensures Hits(AtOnce([c] + rest, t, some), others) == Hits([c] + rest, others)
  {
    var x := AtOnce(rest, t, some);
    BracelessFront([c], rest, t, some);
    BracelessFront([c], rest, t, others);
    BracelessFront([c], x, t, others);
    WellBracedAppend([c], x);
  }

  lemma FilledFrontStays(p: string, rest: string, t: Table, some: set<string>, others: set<string>)
    requires p in some && some + others <= t.Keys && some !! others && Braceless(t)
    requires AllPlaceholders(some) && AllPlaceholders(others)
    requires WellBraced(AtOnce(rest, t, some)) && Hits(AtOnce(rest, t, some), others) == Hits(rest, others)
    ensures WellBraced(AtOnce(p + rest, t, some))
    ensures Hits(AtOnce(p + rest, t, some), others) == Hits(p + rest, others)
  {
    var x := AtOnce(rest, t, some);
    OwnFront(p, rest, t, some);
    ForeignFront(p, rest, t, others);
    BracelessFront(t[p], x, t, others);
    WellBracedAppend(t[p], x);
  }

  lemma KeptFrontStays(p: string, rest: string, t: Table, some: set<string>, others: set<string>)
    requires IsPlaceholder(p) && p !in some && some + others <= t.Keys
    requires AllPlaceholders(some) && AllPlaceholders(others)
    requires WellBraced(AtOnce(rest, t, some)) && Hits(AtOnce(rest, t, some), others) == Hits(rest, others)
    ensures WellBraced(AtOnce(p + rest, t, some))
    ensures Hits(AtOnce(p + rest, t, some), others) == Hits(p + rest, others)
  {
    var x := AtOnce(rest, t, some);
    ForeignFront(p, rest, t, some);
    assert (p + x)[|p|..] == x && p <= p + x;
    if p in others {
      OwnFront(p, rest, t, others);
      OwnFront(p, x, t, others);
    } else {
      ForeignFront(p, rest, t, others);
      ForeignFront(p, x, t, others);
    }
  }

  lemma WellBracedRest(s: string)
    requires WellBraced(s) && s != "" && s[0] != '{'
    ensures WellBraced(s[1..])
  {
  }

  lemma WellBracedIsSafe(s: string, t: Table)
    requires IsTable(t) && Braceless(t) && WellBraced(s)
    ensures NothingAppears(s, t) && WellBraced(AtOnce(s, t, t.Keys))
  {
    forall some, q ensures !Adds(s, t, some, q) {
      if some <= t.Keys && q in t && q !in some { WellBracedStays(s, t, some, {q}); }
    }
    WellBracedStays(s, t, t.Keys, {});
  }
}
