/** Runtime placeholders: `${key}` holes in strings, JSON values and action parameters. */
module Substitution {
  import opened Text
  import Dispatch

  type Params = map<string, string>

  const OPEN := "${"

  predicate Opens(s: string) { |s| >= 2 && s[0] == '$' && s[1] == '{' }

  /** The first closing brace at or after `from`, or the length of `s`. */
  function Close(s: string, from: nat): (e: nat)
    requires from <= |s|
    ensures from <= e <= |s|
    decreases |s| - from
  {
    if from == |s| || s[from] == '}' then from else Close(s, from + 1)
  }

  lemma {:induction false} CloseIsFirst(s: string, from: nat)
    requires from <= |s|
    ensures var e := Close(s, from); (e < |s| ==> s[e] == '}') && forall i :: from <= i < e ==> s[i] != '}'
    decreases |s| - from
  {
    if from < |s| && s[from] != '}' { CloseIsFirst(s, from + 1); }
  }

  /** What a string begins with: nothing, an ordinary character, a hole that is never closed, or a hole. */
  datatype Head = Nothing | Ordinary | Unclosed | Hole(key: string, size: nat)

  function HeadOf(s: string): (h: Head)
    ensures h.Nothing? <==> s == ""
    ensures h.Hole? ==> Opens(s) && 3 <= h.size <= |s|
    ensures h.Ordinary? ==> s != "" && !Opens(s)
    ensures h.Unclosed? ==> Opens(s)
  {
    if s == "" then Nothing
    else if !Opens(s) then Ordinary
    else
      var e := Close(s, 2);
      if e == |s| then Unclosed else Hole(TrimSpace(s[2..e]), e + 1)
  }

  /** A stretch of output: its text, whether a hole in it was replaced, and whether one was left open. */
  datatype Outcome = Outcome(text: string, replaced: bool, open: bool)

  function Then(a: Outcome, b: Outcome): Outcome {
    Outcome(a.text + b.text, a.replaced || b.replaced, a.open || b.open)
  }

  function Copied(s: string): Outcome { Outcome(s, false, false) }

  function Filled(hole: string, key: string, p: Params): Outcome {
    if key in p then Outcome(p[key], true, false) else Outcome(hole, false, true)
  }

  /** Every hole whose key has a value is replaced; everything else stays as it is. */
  function Run(s: string, p: Params): Outcome
    decreases |s|
  {
    match HeadOf(s)
    case Nothing => Copied("")
    case Ordinary => Then(Copied([s[0]]), Run(s[1..], p))
    case Unclosed => Outcome(s, false, true)
    case Hole(key, n) => Then(Filled(s[..n], key, p), Run(s[n..], p))
  }

  function Sub(s: string, p: Params): string { Run(s, p).text }

  predicate Replaces(s: string, p: Params) { Run(s, p).replaced }

  predicate FullyResolves(s: string, p: Params) {
    Replaces(s, p) && !Run(s, p).open && !Contains(Sub(s, p), OPEN)
  }

  // ----- scanning

  lemma OpensIsOccurrence(s: string, i: nat)
    requires i <= |s|
    ensures OccursAt(s, OPEN, i) <==> Opens(s[i..])
  {
    if i + 2 <= |s| { assert s[i..i + 2] == [s[i], s[i + 1]]; }
  }

  lemma ThenAssociates(a: Outcome, b: Outcome, c: Outcome)
    ensures Then(Then(a, b), c) == Then(a, Then(b, c))
  {
    assert (a.text + b.text) + c.text == a.text + (b.text + c.text);
  }

  lemma CopyNothing(a: Outcome)
    ensures Then(Copied(""), a) == a && Then(a, Copied("")) == a
  {
    assert "" + a.text == a.text && a.text + "" == a.text;
  }

  lemma OrdinaryStep(s: string, p: Params)
    requires s != "" && !Opens(s)
    ensures Run(s, p) == Then(Copied([s[0]]), Run(s[1..], p))
  {
    assert HeadOf(s).Ordinary?;
  }

  lemma HoleStep(s: string, p: Params)
    requires HeadOf(s).Hole?
    ensures var h := HeadOf(s); Run(s, p) == Then(Filled(s[..h.size], h.key, p), Run(s[h.size..], p))
  {
  }

  /** The text before the next opening is copied. */
  lemma {:induction false} SkipPlain(s: string, i: nat, p: Params)
    requires i <= |s| && forall k :: 0 <= k < i ==> !Opens(s[k..])
    ensures Run(s, p) == Then(Copied(s[..i]), Run(s[i..], p))
    decreases i
  {
    if i == 0 {
      assert s[0..] == s && s[..0] == "";
      CopyNothing(Run(s, p));
    } else {
      var t := s[1..];
      assert s[0..] == s;
      forall k | 0 <= k < i - 1 ensures !Opens(t[k..]) { assert t[k..] == s[k + 1..]; }
      SkipPlain(t, i - 1, p);
      assert t[i - 1..] == s[i..];
      SkipOne(s, i, p, t[..i - 1], Run(s[i..], p));
    }
  }

  lemma SkipOne(s: string, i: nat, p: Params, front: string, rest: Outcome)
    requires 0 < i <= |s| && !Opens(s) && front == s[1..][..i - 1] && Run(s[1..], p) == Then(Copied(front), rest)
    ensures Run(s, p) == Then(Copied(s[..i]), rest)
  {
    OrdinaryStep(s, p);
    assert s[..i] == [s[0]] + front;
    ThenAssociates(Copied([s[0]]), Copied(front), rest);
  }

  lemma NoOpening(s: string, p: Params)
    requires forall k :: 0 <= k < |s| ==> !Opens(s[k..])
    ensures Run(s, p) == Copied(s)
  {
    SkipPlain(s, |s|, p);
    assert s[|s|..] == "" && s[..|s|] == s;
    CopyNothing(Copied(s));
  }

  /** A string in which nothing is replaced comes back byte for byte. */
  lemma {:induction false} UnreplacedIsUnchanged(s: string, p: Params)
    requires !Replaces(s, p)
    ensures Sub(s, p) == s
    decreases |s|
  {
    var h := HeadOf(s);
    if h.Ordinary? {
      OrdinaryStep(s, p);
      UnreplacedIsUnchanged(s[1..], p);
    } else if h.Hole? {
      HoleStep(s, p);
      UnreplacedIsUnchanged(s[h.size..], p);
    }
  }

  lemma {:induction false} NothingToReplaceWith(s: string)
    ensures !Replaces(s, map[])
    decreases |s|
  {
    match HeadOf(s)
    case Ordinary => NothingToReplaceWith(s[1..]);
    case Hole(_, n) => NothingToReplaceWith(s[n..]);
    case _ =>
  }

  /** substituteRuntimeString */
  method SubstituteString(value: string, p: Params) returns (resolved: string, replaced: bool, full: bool)
    ensures resolved == Sub(value, p)
    ensures replaced == Replaces(value, p) && full == FullyResolves(value, p)
  {
    if value == "" || p == map[] {
      NothingToReplaceWith(value);
      UnreplacedIsUnchanged(value, map[]);
      return value, false, false;
    }
    var builder, cursor := Copied(""), 0;
    Begin(value, p);
    while cursor < |value|
      invariant cursor <= |value| && IsDone(value, builder, cursor, p)
      decreases |value| - cursor
    {
      var text, start := ScanText(value, cursor, p);
      Advance(value, builder, cursor, text, start, p);
      builder, cursor := Then(builder, text), start;
      if cursor < |value| {
        var hole, next := ScanHole(value, cursor, p);
        Advance(value, builder, cursor, hole, next, p);
        builder, cursor := Then(builder, hole), next;
      }
    }
    AtEnd(value, builder, p);
    if !builder.replaced {
      UnreplacedIsUnchanged(value, p);
      return value, false, false;
    }
    resolved, replaced := builder.text, true;
    var open := Index(resolved, OPEN, 0);
    full := !builder.open && open < 0;
  }

  /** `builder` is the output for everything before the cursor. */
  ghost predicate IsDone(value: string, builder: Outcome, cursor: nat, p: Params) {
    cursor <= |value| && Run(value, p) == Then(builder, Rest(value, cursor, p))
  }

  lemma Begin(value: string, p: Params)
    ensures IsDone(value, Copied(""), 0, p)
  {
    CopyNothing(Run(value, p));
    assert value[0..] == value;
  }

  lemma Advance(value: string, builder: Outcome, cursor: nat, piece: Outcome, next: nat, p: Params)
    requires IsDone(value, builder, cursor, p)
    requires cursor <= next <= |value| && Rest(value, cursor, p) == Then(piece, Rest(value, next, p))
    ensures IsDone(value, Then(builder, piece), next, p)
  {
    ThenAssociates(builder, piece, Rest(value, next, p));
  }

  /** The output for everything from the cursor on. */
  ghost function Rest(value: string, cursor: nat, p: Params): Outcome
    requires cursor <= |value|
  {
    Run(value[cursor..], p)
  }

  /** Copies the text up to the next opening. */
  method ScanText(value: string, cursor: nat, ghost p: Params) returns (piece: Outcome, start: nat)
    requires cursor < |value|
    ensures cursor <= start <= |value| && Rest(value, cursor, p) == Then(piece, Rest(value, start, p))
    ensures start < |value| ==> OccursAt(value, OPEN, start)
  {
    var found := Index(value, OPEN, cursor);
    start := if found < 0 then |value| else found;
    SkipTo(value, cursor, found, start, p);
    piece := Copied(value[cursor..start]);
  }

  /** Replaces or copies the hole at the cursor. */
  method ScanHole(value: string, start: nat, p: Params) returns (piece: Outcome, next: nat)
    requires OccursAt(value, OPEN, start)
    ensures start < next <= |value| && Rest(value, start, p) == Then(piece, Rest(value, next, p))
  {
    var end := Index(value, "}", start + 2);
    if end < 0 {
      piece, next := Outcome(value[start..], false, true), |value|;
      UnclosedFound(value, start, end, p);
    } else {
      piece, next := HolePiece(value, start, end, p), end + 1;
      HoleFound(value, start, end, p);
    }
  }

  function HolePiece(value: string, start: nat, end: nat, p: Params): Outcome
    requires start + 2 <= end < |value|
  {
    Filled(value[start..end + 1], TrimSpace(value[start + 2..end]), p)
  }

  lemma UnclosedFound(value: string, start: nat, end: int, p: Params)
    requires OccursAt(value, OPEN, start) && IsIndex(value, "}", start + 2, end) && end < 0
    ensures Rest(value, start, p) == Then(Outcome(value[start..], false, true), Rest(value, |value|, p))
  {
    FindsClose(value, start, end);
    UnclosedFrom(value, start, p);
  }

  lemma HoleFound(value: string, start: nat, end: nat, p: Params)
    requires OccursAt(value, OPEN, start) && IsIndex(value, "}", start + 2, end)
    ensures start + 2 <= end < |value|
    ensures Rest(value, start, p) == Then(HolePiece(value, start, end, p), Rest(value, end + 1, p))
  {
    FindsClose(value, start, end);
    RunFromHole(value, start, end + 1 - start, p);
  }

  lemma AtEnd(value: string, a: Outcome, p: Params)
    ensures Then(a, Rest(value, |value|, p)) == a
  {
    assert value[|value|..] == "";
    CopyNothing(a);
  }

  lemma SkipTo(value: string, cursor: nat, found: int, start: nat, p: Params)
    requires cursor < |value| && IsIndex(value, OPEN, cursor, found)
    requires start == if found < 0 then |value| else found
    ensures cursor <= start <= |value|
    ensures Rest(value, cursor, p) == Then(Copied(value[cursor..start]), Rest(value, start, p))
  {
    var rest := value[cursor..];
    forall k | 0 <= k < start - cursor ensures !Opens(rest[k..]) {
      OpensIsOccurrence(value, cursor + k);
      assert rest[k..] == value[cursor + k..];
    }
    SkipFrom(value, cursor, start, p);
  }

  lemma SkipFrom(value: string, cursor: nat, start: nat, p: Params)
    requires cursor <= start <= |value| && forall k :: 0 <= k < start - cursor ==> !Opens(value[cursor..][k..])
    ensures Run(value[cursor..], p) == Then(Copied(value[cursor..start]), Run(value[start..], p))
  {
    var rest := value[cursor..];
    SkipPlain(rest, start - cursor, p);
    assert rest[..start - cursor] == value[cursor..start];
    assert rest[start - cursor..] == value[start..];
  }

  lemma UnclosedFrom(value: string, start: nat, p: Params)
    requires start <= |value| && HeadOf(value[start..]).Unclosed?
    ensures Run(value[start..], p) == Then(Outcome(value[start..], false, true), Run(value[|value|..], p))
  {
    UnclosedStep(value[start..], p);
    AtEnd(value, Outcome(value[start..], false, true), p);
  }

  lemma UnclosedStep(s: string, p: Params)
    requires HeadOf(s).Unclosed?
    ensures Run(s, p) == Outcome(s, false, true)
  {
  }

  lemma RunFromHole(value: string, start: nat, n: nat, p: Params)
    requires start + n <= |value| && HeadOf(value[start..]).Hole? && HeadOf(value[start..]).size == n
    ensures Run(value[start..], p)
            == Then(Filled(value[start..start + n], HeadOf(value[start..]).key, p), Run(value[start + n..], p))
  {
    HoleStep(value[start..], p);
    assert value[start..][..n] == value[start..start + n];
    assert value[start..][n..] == value[start + n..];
  }

  lemma FindsClose(value: string, start: nat, end: int)
    requires OccursAt(value, OPEN, start)
    requires IsIndex(value, "}", start + 2, end)
    ensures HeadOf(value[start..])
            == if end < 0 then Unclosed else Hole(TrimSpace(value[start + 2..end]), end + 1 - start)
  {
    OpensIsOccurrence(value, start);
    var s := value[start..];
    if end < 0 {
      forall k | 2 <= k < |s| ensures s[k] != '}' { BraceAt(value, start, k, start + k); }
      NeverCloses(s);
    } else {
      var m := end - start;
      BraceAt(value, start, m, end);
      forall k | 2 <= k < m ensures s[k] != '}' { BraceAt(value, start, k, start + k); }
      ClosesAt(s, m);
      assert s[2..m] == value[start + 2..end];
    }
  }

  lemma BraceAt(value: string, start: nat, k: nat, at: nat)
    requires start <= |value| && k < |value[start..]| && at == start + k
    ensures OccursAt(value, "}", at) <==> value[start..][k] == '}'
  {
    assert value[at..at + 1] == [value[at]];
  }

  lemma ClosesAt(s: string, m: nat)
    requires 2 <= m < |s| && s[m] == '}' && forall k :: 2 <= k < m ==> s[k] != '}'
    ensures Close(s, 2) == m
  {
    CloseIsFirst(s, 2);
  }

  lemma NeverCloses(s: string)
    requires 2 <= |s| && forall k :: 2 <= k < |s| ==> s[k] != '}'
    ensures Close(s, 2) == |s|
  {
    CloseIsFirst(s, 2);
  }

  // ----- staged substitution

  /** A value that can neither hold a hole nor complete one with its neighbours. */
  ghost predicate Solid(v: string) {
    v != "" && v[0] != '{' && v[|v| - 1] != '$' && forall k :: 0 <= k < |v| ==> !Opens(v[k..])
  }

  /** A key some hole can have. */
  predicate UsableKey(k: string) { IsTrimmed(k) && '}' !in k }

  ghost predicate Tame(p: Params) {
    forall k :: k in p && UsableKey(k) ==> Solid(p[k])
  }

  lemma {:induction false} TrimLeftKeeps(s: string)
    ensures forall c :: c in TrimLeft(s) ==> c in s
  {
    if s != "" && IsSpace(s[0]) { TrimLeftKeeps(s[1..]); }
  }

  lemma HoleKeyIsUsable(s: string)
    requires HeadOf(s).Hole?
    ensures UsableKey(HeadOf(s).key)
  {
    var e := Close(s, 2);
    CloseIsFirst(s, 2);
    var inner := s[2..e];
    TrimLeftKeeps(inner);
    assert TrimSpace(inner) <= TrimLeft(inner);
    assert forall c :: c in TrimSpace(inner) ==> c in TrimLeft(inner);
    assert '}' !in inner;
  }

  /** A brace at the front of the output was there before. */
  lemma BraceWasThere(s: string, p: Params)
    requires Tame(p) && Sub(s, p) != "" && Sub(s, p)[0] == '{'
    ensures s != "" && s[0] == '{'
  {
    match HeadOf(s)
    case Ordinary => OrdinaryStep(s, p);
    case Hole(key, n) =>
      HoleStep(s, p);
      HoleKeyIsUsable(s);
    case _ =>
  }

  /** Text after a hole does not change how the hole is read. */
  lemma HoleIsRead(s: string, t: string)
    requires HeadOf(s).Hole?
    ensures HeadOf(s[..HeadOf(s).size] + t) == HeadOf(s)
  {
    var n := HeadOf(s).size;
    var u := s[..n] + t;
    assert u[..n] == s[..n];
    CloseIsFirst(s, 2);
    CloseIsFirst(u, 2);
    assert Close(u, 2) == n - 1;
    assert u[2..n - 1] == s[2..n - 1];
  }

  /** Two stages of substitution, seen as one outcome. */
  function Staged(s: string, p1: Params, p2: Params): Outcome {
    var second := Run(Sub(s, p1), p2);
    Outcome(second.text, Replaces(s, p1) || second.replaced, second.open)
  }

  /** Substituting p1 and then p2 is substituting once, p1 overriding p2; the flags agree as well. */
  lemma {:induction false} StagesCompose(s: string, p1: Params, p2: Params)
    requires Tame(p1)
    ensures Run(s, p2 + p1) == Staged(s, p1, p2)
    decreases |s|
  {
    match HeadOf(s)
    case Nothing =>
    case Unclosed =>
    case Ordinary =>
      StagesCompose(s[1..], p1, p2);
      OrdinaryStep(s, p1);
      OrdinaryStep(s, p2 + p1);
      OrdinaryStage(s, p1, p2);
    case Hole(key, n) =>
      StagesCompose(s[n..], p1, p2);
      HoleStep(s, p1);
      HoleStep(s, p2 + p1);
      if key in p1 { ReplacedStage(s, p1, p2); } else { LeftStage(s, p1, p2); }
  }

  lemma OrdinaryStage(s: string, p1: Params, p2: Params)
    requires Tame(p1) && HeadOf(s).Ordinary?
    ensures Run(Sub(s, p1), p2) == Then(Copied([s[0]]), Run(Sub(s[1..], p1), p2))
  {
    OrdinaryStep(s, p1);
    var t := Sub(s[1..], p1);
    if t != "" && t[0] == '{' { BraceWasThere(s[1..], p1); }
    var u := [s[0]] + t;
    assert u[1..] == t;
    assert !Opens(u);
    OrdinaryStep(u, p2);
  }

  lemma ReplacedStage(s: string, p1: Params, p2: Params)
    requires Tame(p1) && HeadOf(s).Hole? && HeadOf(s).key in p1
    ensures var h := HeadOf(s);
            Run(Sub(s, p1), p2) == Then(Copied(p1[h.key]), Run(Sub(s[h.size..], p1), p2))
  {
    var h := HeadOf(s);
    var v, t := p1[h.key], Sub(s[h.size..], p1);
    HoleStep(s, p1);
    HoleKeyIsUsable(s);
    var u := v + t;
    forall k | 0 <= k < |v| ensures !Opens(u[k..]) {
      assert !Opens(v[k..]);
      assert k < |v| - 1 ==> u[k..][0] == v[k..][0] && u[k..][1] == v[k..][1];
    }
    SkipPlain(u, |v|, p2);
    assert u[..|v|] == v && u[|v|..] == t;
  }

  lemma LeftStage(s: string, p1: Params, p2: Params)
    requires HeadOf(s).Hole? && HeadOf(s).key !in p1
    ensures var h := HeadOf(s);
            Run(Sub(s, p1), p2) == Then(Filled(s[..h.size], h.key, p2), Run(Sub(s[h.size..], p1), p2))
  {
    var h := HeadOf(s);
    HoleStep(s, p1);
    var t := Sub(s[h.size..], p1);
    HoleIsRead(s, t);
    var u := s[..h.size] + t;
    HoleStep(u, p2);
    assert u[..h.size] == s[..h.size] && u[h.size..] == t;
  }

  lemma {:induction false} Shrinks(t: string, c: string)
    ensures |Sub(t, map[c := ""])| <= |t|
    decreases |t|
  {
    match HeadOf(t)
    case Ordinary =>
      OrdinaryStep(t, map[c := ""]);
      Shrinks(t[1..], c);
    case Hole(_, n) =>
      HoleStep(t, map[c := ""]);
      Shrinks(t[n..], c);
    case _ =>
  }

  /** A text with an opening and a closing brace after it has a hole that a later stage can fill. */
  lemma {:induction false} ClosableHole(t: string, i: nat, e: nat) returns (c: string)
    requires i + 2 <= e < |t| && Opens(t[i..]) && t[e] == '}'
    ensures |Sub(t, map[c := ""])| < |t|
    decreases |t|
  {
    if HeadOf(t).Hole? {
      c := HeadOf(t).key;
      HoleStep(t, map[c := ""]);
      Shrinks(t[HeadOf(t).size..], c);
    } else {
      assert t[0..] == t;
      CloseIsFirst(t, if Opens(t) then 2 else 0);
      assert i > 0;
      assert t[1..][i - 1..] == t[i..];
      c := ClosableHole(t[1..], i - 1, e - 1);
      OrdinaryStep(t, map[c := ""]);
    }
  }

  lemma FilledHole(k: string, rest: string, q: Params)
    requires UsableKey(k) && k in q
    ensures Sub(OPEN + k + "}" + rest, q) == q[k] + Sub(rest, q)
  {
    var s, n := OPEN + k + "}" + rest, |k| + 3;
    assert s[2..n - 1] == k;
    assert s[n - 1] == '}';
    forall x | 2 <= x < n - 1 ensures s[x] != '}' { assert s[x] == k[x - 2]; }
    CloseIsFirst(s, 2);
    assert Close(s, 2) == n - 1;
    HoleStep(s, q);
    assert s[n..] == rest;
  }

  /** A text with one hole, between a possible dollar sign and an empty pair of braces. */
  function Probe(dollar: bool, k: string): string { (if dollar then "$" else "") + (OPEN + k + "}" + "{}") }

  lemma ProbeYields(dollar: bool, k: string, q: Params)
    requires UsableKey(k) && k in q
    ensures Sub(Probe(dollar, k), q) == (if dollar then "$" else "") + q[k] + "{}"
  {
    var body := OPEN + k + "}" + "{}";
    NoOpening("{}", q);
    FilledHole(k, "{}", q);
    if dollar {
      var s := Probe(true, k);
      assert s == "$" + body;
      OrdinaryStep(s, q);
      assert Sub(s, q) == "$" + (q[k] + "{}");
    } else {
      assert Probe(false, k) == body;
      assert "" + q[k] == q[k];
    }
  }

  /** The law fails as soon as one value that a hole can fetch is not solid. */
  lemma LooseValueBreaksStages(p1: Params, k: string) returns (s: string, p2: Params)
    requires k in p1 && UsableKey(k) && !Solid(p1[k])
    ensures Sub(Sub(s, p1), p2) != Sub(s, p2 + p1)
  {
    var v := p1[k];
    var dollar := v == "" || v[0] == '{';
    s := Probe(dollar, k);
    var t := (if dollar then "$" else "") + v + "{}";
    var i := OpeningOf(dollar, v, t);
    var c := ClosableHole(t, i, |t| - 1);
    p2 := map[c := ""];
    ProbeYields(dollar, k, p1);
    ProbeYields(dollar, k, p2 + p1);
  }

  lemma OpeningOf(dollar: bool, v: string, t: string) returns (i: nat)
    requires !Solid(v) && dollar == (v == "" || v[0] == '{') && t == (if dollar then "$" else "") + v + "{}"
    ensures i + 2 <= |t| - 1 && Opens(t[i..])
  {
    if dollar {
      i := 0;
    } else if v[|v| - 1] == '$' {
      i := |v| - 1;
    } else {
      i :| 0 <= i < |v| && Opens(v[i..]);
      assert t[i] == v[i..][0] && t[i + 1] == v[i..][1];
    }
  }

  /** Staging is harmless for every text and every second stage if and only if the first stage's values are solid. */
  lemma StagingIsHarmlessIffTame(p1: Params)
    ensures Tame(p1) <==> forall s, p2 :: Sub(Sub(s, p1), p2) == Sub(s, p2 + p1)
  {
    if Tame(p1) {
      forall s, p2 ensures Sub(Sub(s, p1), p2) == Sub(s, p2 + p1) { StagesCompose(s, p1, p2); }
    } else {
      var k :| k in p1 && UsableKey(k) && !Solid(p1[k]);
      var s, p2 := LooseValueBreaksStages(p1, k);
    }
  }

  // ----- complete resolution

  /** A text that was fully resolved has no hole left, whatever is substituted later. */
  lemma FullyResolvedIsFinal(s: string, p: Params, q: Params)
    requires FullyResolves(s, p)
    ensures Sub(Sub(s, p), q) == Sub(s, p) && !Replaces(Sub(s, p), q)
  {
    var r := Sub(s, p);
    forall k | 0 <= k < |r| ensures !Opens(r[k..]) { OpensIsOccurrence(r, k); }
    NoOpening(r, q);
  }

  /** With solid values the final search for an opening only repeats what the scan has found. */
  lemma SolidOutputOpensIffLeft(s: string, p: Params)
    requires Tame(p)
    ensures Contains(Sub(s, p), OPEN) <==> Run(s, p).open
  {
    StagesCompose(s, p, map[]);
    var r := Sub(s, p);
    assert map[] + p == p;
    if Contains(r, OPEN) {
      var k :| 0 <= k <= |r| && OccursAt(r, OPEN, k);
      OpensIsOccurrence(r, k);
      OpeningIsSeen(r, k, map[]);
      NothingToReplaceWith(r);
    } else {
      forall k | 0 <= k < |r| ensures !Opens(r[k..]) { OpensIsOccurrence(r, k); }
      NoOpening(r, map[]);
    }
  }

  /** An opening makes a hole, which is replaced or left. */
  lemma {:induction false} OpeningIsSeen(r: string, k: nat, p: Params)
    requires k < |r| && Opens(r[k..])
    ensures Run(r, p).open || Run(r, p).replaced
    decreases |r|
  {
    if HeadOf(r).Ordinary? {
      assert r[0..] == r;
      assert r[1..][k - 1..] == r[k..];
      OpeningIsSeen(r[1..], k - 1, p);
    }
  }

  // ----- JSON values

  /** A decoded JSON value; `Scalar` is a number, a boolean or null. */
  datatype Json =
    | Text(text: string) | List(items: seq<Json>) | Object(fields: map<string, Json>) | Scalar(literal: string)

  /** How a fully resolved text is read: as a scalar, a JSON document, or itself. */
  type Coercion = string -> Json

  function SubJson(v: Json, p: Params, coerce: Coercion): Json {
    match v
    case Text(s) => if FullyResolves(s, p) then coerce(Sub(s, p)) else Text(Sub(s, p))
    case List(items) => List(seq(|items|, i requires 0 <= i < |items| => SubJson(items[i], p, coerce)))
    case Object(fields) => Object(map k | k in fields :: SubJson(fields[k], p, coerce))
    case Scalar(_) => v
  }

  /** Some text inside the value has a hole that is replaced. */
  predicate ChangesJson(v: Json, p: Params) {
    match v
    case Text(s) => Replaces(s, p)
    case List(items) => exists i :: 0 <= i < |items| && ChangesJson(items[i], p)
    case Object(fields) => exists k :: k in fields && ChangesJson(fields[k], p)
    case Scalar(_) => false
  }

  /** Some hole of the text is closed, so a later stage can fill it. */
  predicate HasHole(s: string)
    decreases |s|
  {
    match HeadOf(s)
    case Ordinary => HasHole(s[1..])
    case Hole(_, _) => true
    case _ => false
  }

  /** Some text inside the value has such a hole. */
  predicate HasHoleInside(v: Json) {
    match v
    case Text(s) => HasHole(s)
    case List(items) => exists i :: 0 <= i < |items| && HasHoleInside(items[i])
    case Object(fields) => exists k :: k in fields && HasHoleInside(fields[k])
    case Scalar(_) => false
  }

  /** No text that the stage resolves completely is read as a value with a hole. */
  predicate Settles(v: Json, p: Params, coerce: Coercion) {
    match v
    case Text(s) => FullyResolves(s, p) ==> !HasHoleInside(coerce(Sub(s, p)))
    case List(items) => forall i :: 0 <= i < |items| ==> Settles(items[i], p, coerce)
    case Object(fields) => forall k :: k in fields ==> Settles(fields[k], p, coerce)
    case Scalar(_) => true
  }

  /** What has no hole to replace is returned as it is. */
  lemma {:induction false} UnchangedJson(v: Json, p: Params, coerce: Coercion)
    requires !ChangesJson(v, p)
    ensures SubJson(v, p, coerce) == v
  {
    match v
    case Text(s) => UnreplacedIsUnchanged(s, p);
    case List(items) =>
      forall i | 0 <= i < |items| ensures SubJson(items[i], p, coerce) == items[i] {
        UnchangedJson(items[i], p, coerce);
      }
      assert SubJson(v, p, coerce).items == items;
    case Object(fields) =>
      forall k | k in fields ensures SubJson(fields[k], p, coerce) == fields[k] { UnchangedJson(fields[k], p, coerce); }
      assert SubJson(v, p, coerce).fields == fields;
    case Scalar(_) =>
  }

  lemma {:induction false} NoHoleNoChange(s: string, p: Params)
    requires !HasHole(s)
    ensures !Replaces(s, p)
    decreases |s|
  {
    if HeadOf(s).Ordinary? {
      OrdinaryStep(s, p);
      NoHoleNoChange(s[1..], p);
    }
  }

  lemma {:induction false} NoHoleInside(v: Json, p: Params)
    requires !HasHoleInside(v)
    ensures !ChangesJson(v, p)
  {
    match v
    case Text(s) => NoHoleNoChange(s, p);
    case List(items) => forall i | 0 <= i < |items| ensures !ChangesJson(items[i], p) { NoHoleInside(items[i], p); }
    case Object(fields) => forall k | k in fields ensures !ChangesJson(fields[k], p) { NoHoleInside(fields[k], p); }
    case Scalar(_) =>
  }

  lemma StagesComposeText(s: string, p1: Params, p2: Params, coerce: Coercion)
    requires Tame(p1) && Settles(Text(s), p1, coerce)
    ensures SubJson(SubJson(Text(s), p1, coerce), p2, coerce) == SubJson(Text(s), p2 + p1, coerce)
  {
    if FullyResolves(s, p1) {
      ResolvedOnce(s, p1, p2);
      NoHoleInside(coerce(Sub(s, p1)), p2);
      UnchangedJson(coerce(Sub(s, p1)), p2, coerce);
    } else {
      StagesCompose(s, p1, p2);
      StillOpen(s, p1, p2);
    }
  }

  /** What the first stage resolves completely, one stage with both resolves to the same text. */
  lemma ResolvedOnce(s: string, p1: Params, p2: Params)
    requires Tame(p1) && FullyResolves(s, p1)
    ensures FullyResolves(s, p2 + p1) && Sub(s, p2 + p1) == Sub(s, p1)
  {
    StagesCompose(s, p1, p2);
    NoOpeningLeft(Sub(s, p1), p2);
  }

  lemma NoOpeningLeft(r: string, p: Params)
    requires !Contains(r, OPEN)
    ensures Run(r, p) == Copied(r)
  {
    forall k | 0 <= k < |r| ensures !Opens(r[k..]) { OpensIsOccurrence(r, k); }
    NoOpening(r, p);
  }

  /** A first stage that replaces but does not finish leaves the verdict to the second. */
  lemma StillOpen(s: string, p1: Params, p2: Params)
    requires Tame(p1) && !FullyResolves(s, p1)
    ensures FullyResolves(Sub(s, p1), p2) <==> FullyResolves(s, p2 + p1)
  {
    StagesCompose(s, p1, p2);
    SolidOutputOpensIffLeft(s, p1);
    if !Run(s, p1).open {
      NoOpeningLeft(Sub(s, p1), p2);
    } else {
      var r := Sub(s, p1);
      var k :| 0 <= k <= |r| && OccursAt(r, OPEN, k);
      OpensIsOccurrence(r, k);
      OpeningIsSeen(r, k, p2);
    }
  }

  /** Staged substitution over whole JSON values. */
  lemma {:induction false} StagesComposeJson(v: Json, p1: Params, p2: Params, coerce: Coercion)
    requires Tame(p1) && Settles(v, p1, coerce)
    ensures SubJson(SubJson(v, p1, coerce), p2, coerce) == SubJson(v, p2 + p1, coerce)
  {
    match v
    case Text(s) => StagesComposeText(s, p1, p2, coerce);
    case List(items) =>
      forall i | 0 <= i < |items|
        ensures SubJson(SubJson(items[i], p1, coerce), p2, coerce) == SubJson(items[i], p2 + p1, coerce)
      {
        StagesComposeJson(items[i], p1, p2, coerce);
      }
      assert SubJson(SubJson(v, p1, coerce), p2, coerce).items == SubJson(v, p2 + p1, coerce).items;
    case Object(fields) =>
      forall k | k in fields
        ensures SubJson(SubJson(fields[k], p1, coerce), p2, coerce) == SubJson(fields[k], p2 + p1, coerce)
      {
        StagesComposeJson(fields[k], p1, p2, coerce);
      }
      assert SubJson(SubJson(v, p1, coerce), p2, coerce).fields == SubJson(v, p2 + p1, coerce).fields;
    case Scalar(_) =>
  }

  // ----- the converse: a value read with a hole is changed by some later stage

  lemma {:induction false} Lengthens(t: string, c: string, v: string)
    requires |v| > |t|
    ensures |Sub(t, map[c := v])| >= |t|
    decreases |t|
  {
    match HeadOf(t)
    case Ordinary =>
      OrdinaryStep(t, map[c := v]);
      Lengthens(t[1..], c, v);
    case Hole(_, n) =>
      HoleStep(t, map[c := v]);
      Lengthens(t[n..], c, v);
    case _ =>
  }

  /** A hole filled with a long value that has an opening makes the text longer and leaves it open. */
  lemma {:induction false} FillingShows(t: string, v: string) returns (c: string)
    requires HasHole(t) && |v| > |t| && Contains(v, OPEN)
    ensures |Sub(t, map[c := v])| > |t| && Contains(Sub(t, map[c := v]), OPEN)
    decreases |t|
  {
    if HeadOf(t).Ordinary? {
      c := FillingShows(t[1..], v);
      OrdinaryStep(t, map[c := v]);
      ContainsInside([t[0]], Sub(t[1..], map[c := v]), "");
    } else {
      c := HeadOf(t).key;
      var n := HeadOf(t).size;
      HoleStep(t, map[c := v]);
      Lengthens(t[n..], c, v);
      ContainsInside("", v, Sub(t[n..], map[c := v]));
    }
  }

  lemma ContainsInside(a: string, b: string, c: string)
    requires Contains(b, OPEN)
    ensures Contains(a + b + c, OPEN) && Contains(a + b, OPEN) && Contains(b + c, OPEN)
  {
    var i :| 0 <= i <= |b| && OccursAt(b, OPEN, i);
    assert (a + b + c)[|a| + i..|a| + i + 2] == b[i..i + 2];
    assert (a + b)[|a| + i..|a| + i + 2] == b[i..i + 2];
    assert (b + c)[i..i + 2] == b[i..i + 2];
    assert OccursAt(a + b + c, OPEN, |a| + i) && OccursAt(a + b, OPEN, |a| + i) && OccursAt(b + c, OPEN, i);
  }

  /** Whatever the coercion, some later stage changes a value that has a hole inside. */
  lemma {:induction false} HoleIsFilled(w: Json, coerce: Coercion) returns (p: Params)
    requires HasHoleInside(w)
    ensures SubJson(w, p, coerce) != w
  {
    match w
    case Text(t) =>
      var v := OPEN + t;
      assert OccursAt(v, OPEN, 0);
      var c := FillingShows(t, v);
      p := map[c := v];
    case List(items) =>
      var i :| 0 <= i < |items| && HasHoleInside(items[i]);
      p := HoleIsFilled(items[i], coerce);
      assert SubJson(w, p, coerce).items[i] == SubJson(items[i], p, coerce);
    case Object(fields) =>
      var k :| k in fields && HasHoleInside(fields[k]);
      p := HoleIsFilled(fields[k], coerce);
      assert SubJson(w, p, coerce).fields[k] == SubJson(fields[k], p, coerce);
  }

  lemma {:induction false} UnsettledBreaksStages(v: Json, p1: Params, coerce: Coercion) returns (p2: Params)
    requires Tame(p1) && !Settles(v, p1, coerce)
    ensures SubJson(SubJson(v, p1, coerce), p2, coerce) != SubJson(v, p2 + p1, coerce)
  {
    match v
    case Text(s) =>
      p2 := HoleIsFilled(coerce(Sub(s, p1)), coerce);
      ResolvedOnce(s, p1, p2);
    case List(items) =>
      var i :| 0 <= i < |items| && !Settles(items[i], p1, coerce);
      p2 := UnsettledBreaksStages(items[i], p1, coerce);
      assert SubJson(SubJson(v, p1, coerce), p2, coerce).items[i] == SubJson(SubJson(items[i], p1, coerce), p2, coerce);
      assert SubJson(v, p2 + p1, coerce).items[i] == SubJson(items[i], p2 + p1, coerce);
    case Object(fields) =>
      var k :| k in fields && !Settles(fields[k], p1, coerce);
      p2 := UnsettledBreaksStages(fields[k], p1, coerce);
      assert SubJson(SubJson(v, p1, coerce), p2, coerce).fields[k]
          == SubJson(SubJson(fields[k], p1, coerce), p2, coerce);
      assert SubJson(v, p2 + p1, coerce).fields[k] == SubJson(fields[k], p2 + p1, coerce);
  }

  ghost predicate StagesAgree(v: Json, p1: Params, coerce: Coercion) {
    forall p2 :: SubJson(SubJson(v, p1, coerce), p2, coerce) == SubJson(v, p2 + p1, coerce)
  }

  /**
   For every coercion and every value: after a first stage with solid values, every second stage gives what one stage
   with both gives if and only if no completely resolved text is read as a value with a hole.
   */
  lemma StagesAgreeIffSettled(v: Json, p1: Params, coerce: Coercion)
    requires Tame(p1)
    ensures StagesAgree(v, p1, coerce) <==> Settles(v, p1, coerce)
  {
    if Settles(v, p1, coerce) {
      forall p2 ensures SubJson(SubJson(v, p1, coerce), p2, coerce) == SubJson(v, p2 + p1, coerce) {
        StagesComposeJson(v, p1, p2, coerce);
      }
    } else {
      var p2 := UnsettledBreaksStages(v, p1, coerce);
    }
  }

  // ----- the server's coercion

  /** coerceRuntimeValue, given the scalar readings (booleans and numbers) and the JSON decoder. */
  function Coerced(scalar: string -> Dispatch.Option<string>, decode: string -> Dispatch.Option<Json>): Coercion {
    (value: string) =>
      var t := TrimSpace(value);
      if t == "" then Text("")
      else if scalar(t).Some? then Scalar(scalar(t).value)
      else if t[0] in {'{', '[', '"'} && decode(t).Some? then decode(t).value
      else Text(value)
  }

  /** A text that is neither blank, nor a scalar, nor begins like a JSON document is kept to the letter. */
  lemma OtherTextIsKept(
    value: string, scalar: string -> Dispatch.Option<string>, decode: string -> Dispatch.Option<Json>)
    requires exists i :: BeginsAt(value, i) && value[i] !in "{[\""
    requires scalar(TrimSpace(value)).None?
    ensures Coerced(scalar, decode)(value) == Text(value)
  {
    var i :| BeginsAt(value, i) && value[i] !in "{[\"";
    TrimmedStart(value, i);
  }

  /** The first character that is no white space. */
  predicate BeginsAt(s: string, i: int) {
    0 <= i < |s| && !IsSpace(s[i]) && forall j :: 0 <= j < i ==> IsSpace(s[j])
  }

  lemma {:induction false} TrimmedStart(s: string, i: nat)
    requires BeginsAt(s, i)
    ensures TrimSpace(s) != "" && TrimSpace(s)[0] == s[i]
  {
    if i > 0 { TrimmedStart(s[1..], i - 1); } else { KeepsFirst(s); }
  }

  lemma {:induction false} KeepsFirst(s: string)
    requires s != "" && !IsSpace(s[0])
    ensures TrimRight(s) != "" && TrimRight(s)[0] == s[0]
  {
    if IsSpace(s[|s| - 1]) { KeepsFirst(s[..|s| - 1]); }
  }

  /** A text that does not look like a JSON document is never read as a value with a hole. */
  lemma PlainTextSettles(
    s: string, p: Params, scalar: string -> Dispatch.Option<string>, decode: string -> Dispatch.Option<Json>)
    requires FullyResolves(s, p) ==>
               var t := TrimSpace(Sub(s, p)); t != "" ==> t[0] !in {'{', '[', '"'} || scalar(t).Some? || decode(t).None?
    ensures Settles(Text(s), p, Coerced(scalar, decode))
  {
    if FullyResolves(s, p) { NoOpeningNoHole(Sub(s, p)); }
  }

  lemma {:induction false} NoOpeningNoHole(r: string)
    requires !Contains(r, OPEN)
    ensures !HasHole(r)
  {
    if r != "" {
      assert r[0..] == r;
      OpensIsOccurrence(r, 0);
      forall i | 0 <= i <= |r[1..]| ensures !OccursAt(r[1..], OPEN, i) {
        if OccursAt(r[1..], OPEN, i) { assert r[1..][i..i + 2] == r[i + 1..i + 3] && OccursAt(r, OPEN, i + 1); }
      }
      NoOpeningNoHole(r[1..]);
    }
  }

  /** A JSON string that hides an opening behind an escape sequence. */
  const HIDDEN := "\"\\u0024{b}\""

  lemma HiddenIsSolid()
    ensures Solid(HIDDEN) && !Contains(HIDDEN, OPEN)
  {
    var h := HIDDEN;
    assert |h| == 11 && h[0] == '"' && h[10] == '"';
    assert forall i :: 0 <= i < |h| ==> h[i] != '$';
    forall k | 0 <= k < |h| ensures !Opens(h[k..]) { assert h[k..][0] == h[k]; }
    forall i | 0 <= i <= |h| ensures !OccursAt(h, OPEN, i) { OpensIsOccurrence(h, i); }
  }

  /** A text that is one hole is resolved completely by a value without an opening. */
  lemma OneHole(k: string, p: Params)
    requires UsableKey(k) && k in p && !Contains(p[k], OPEN)
    ensures FullyResolves(OPEN + k + "}", p) && Sub(OPEN + k + "}", p) == p[k]
  {
    var s, n := OPEN + k + "}", |k| + 3;
    assert s[2..n - 1] == k && s[n - 1] == '}';
    forall x | 2 <= x < n - 1 ensures s[x] != '}' { assert s[x] == k[x - 2]; }
    CloseIsFirst(s, 2);
    assert Close(s, 2) == n - 1;
    HoleStep(s, p);
    assert s[n..] == "" && p[k] + "" == p[k];
  }

  /**
   The server's decoder reads HIDDEN as the text `${b}`. So with a stage that sets a to HIDDEN, a value without any
   opening, and a second one that sets b, two stages differ from one.
   */
  lemma HiddenOpeningBreaksStages(coerce: Coercion)
    requires coerce(HIDDEN) == Text("${b}")
    ensures Tame(map["a" := HIDDEN]) && !Contains(HIDDEN, OPEN)
    ensures !StagesAgree(Text("${a}"), map["a" := HIDDEN], coerce)
  {
    var p1: Params := map["a" := HIDDEN];
    HiddenIsSolid();
    OneHole("a", p1);
    assert OPEN + "a" + "}" == "${a}";
    assert HeadOf("${b}").Hole? by { CloseIsFirst("${b}", 2); }
    assert !Settles(Text("${a}"), p1, coerce);
    StagesAgreeIffSettled(Text("${a}"), p1, coerce);
  }

  // ----- action parameters

  /** Where a parameter field takes its value from. */
  datatype Source = Expression(text: string) | Constant(value: Json) | Elsewhere(from: string)

  function SubSource(src: Source, p: Params, coerce: Coercion): Source {
    match src
    case Expression(e) => if FullyResolves(e, p) then Constant(coerce(Sub(e, p))) else Expression(Sub(e, p))
    case Constant(v) => Constant(SubJson(v, p, coerce))
    case Elsewhere(_) => src
  }

  predicate ChangesSource(src: Source, p: Params) {
    match src
    case Expression(e) => Replaces(e, p)
    case Constant(v) => ChangesJson(v, p)
    case Elsewhere(_) => false
  }

  /** No expression or text that the stage resolves completely is read as a value with a hole. */
  predicate SettlesSource(src: Source, p: Params, coerce: Coercion) {
    match src
    case Expression(e) => FullyResolves(e, p) ==> !HasHoleInside(coerce(Sub(e, p)))
    case Constant(v) => Settles(v, p, coerce)
    case Elsewhere(_) => true
  }

  lemma UnchangedSource(src: Source, p: Params, coerce: Coercion)
    requires !ChangesSource(src, p)
    ensures SubSource(src, p, coerce) == src
  {
    match src
    case Expression(e) => UnreplacedIsUnchanged(e, p);
    case Constant(v) => UnchangedJson(v, p, coerce);
    case Elsewhere(_) =>
  }

  /** Staged substitution over a field source: an expression the first stage resolves is a constant for the second. */
  lemma StagesComposeSource(src: Source, p1: Params, p2: Params, coerce: Coercion)
    requires Tame(p1) && SettlesSource(src, p1, coerce)
    ensures SubSource(SubSource(src, p1, coerce), p2, coerce) == SubSource(src, p2 + p1, coerce)
  {
    match src
    case Expression(e) =>
      StagesCompose(e, p1, p2);
      if FullyResolves(e, p1) {
        ResolvedOnce(e, p1, p2);
        NoHoleInside(coerce(Sub(e, p1)), p2);
        UnchangedJson(coerce(Sub(e, p1)), p2, coerce);
      } else {
        StillOpen(e, p1, p2);
      }
    case Constant(v) => StagesComposeJson(v, p1, p2, coerce);
    case Elsewhere(_) =>
  }

  lemma {:induction false} EmptyChangesNothing(v: Json)
    ensures !ChangesJson(v, map[])
  {
    match v
    case Text(s) => NothingToReplaceWith(s);
    case List(items) =>
      forall i | 0 <= i < |items| ensures !ChangesJson(items[i], map[]) { EmptyChangesNothing(items[i]); }
    case Object(fields) =>
      forall k | k in fields ensures !ChangesJson(fields[k], map[]) { EmptyChangesNothing(fields[k]); }
    case Scalar(_) =>
  }

  lemma EmptyChangesNoSource(src: Source)
    ensures !ChangesSource(src, map[])
  {
    match src
    case Expression(e) => NothingToReplaceWith(e);
    case Constant(v) => EmptyChangesNothing(v);
    case Elsewhere(_) =>
  }

  function SubData(data: map<string, Json>, p: Params, coerce: Coercion): map<string, Json> {
    map k | k in data :: SubJson(data[k], p, coerce)
  }

  function SubSources(sources: map<string, Source>, p: Params, coerce: Coercion): map<string, Source> {
    map k | k in sources :: SubSource(sources[k], p, coerce)
  }

  predicate ChangesData(data: map<string, Json>, p: Params) { exists k :: k in data && ChangesJson(data[k], p) }

  predicate ChangesSources(sources: map<string, Source>, p: Params) {
    exists k :: k in sources && ChangesSource(sources[k], p)
  }

  class ActionParams {
    var data: map<string, Json>
    var fieldSources: map<string, Source>

    /** materializeActionParams */
    method Materialize(p: Params, coerce: Coercion) returns (changed: bool)
      modifies this
      ensures data == SubData(old(data), p, coerce) && fieldSources == SubSources(old(fieldSources), p, coerce)
      ensures changed == (ChangesData(old(data), p) || ChangesSources(old(fieldSources), p))
    {
      if p == map[] {
        forall k | k in data ensures SubJson(data[k], p, coerce) == data[k] && !ChangesJson(data[k], p) {
          EmptyChangesNothing(data[k]);
          UnchangedJson(data[k], p, coerce);
        }
        forall k | k in fieldSources
          ensures SubSource(fieldSources[k], p, coerce) == fieldSources[k] && !ChangesSource(fieldSources[k], p)
        {
          EmptyChangesNoSource(fieldSources[k]);
          UnchangedSource(fieldSources[k], p, coerce);
        }
        return false;
      }
      var inData := MaterializeData(p, coerce);
      var inSources := MaterializeSources(p, coerce);
      changed := inData || inSources;
    }

    /** The keys outside `left` have been rewritten, one by one; the map is visited in any order. */
    method MaterializeData(p: Params, coerce: Coercion) returns (changed: bool)
      modifies this`data
      ensures data == SubData(old(data), p, coerce) && changed == ChangesData(old(data), p)
    {
      changed := false;
      var left := data.Keys;
      while left != {}
        invariant data.Keys == old(data).Keys && left <= data.Keys
        invariant forall k :: k in data ==>
          data[k] == if k in left then old(data)[k] else SubJson(old(data)[k], p, coerce)
        invariant changed == exists k :: k in old(data) && k !in left && ChangesJson(old(data)[k], p)
        decreases left
      {
        var key :| key in left;
        if ChangesJson(data[key], p) {
          data := data[key := SubJson(data[key], p, coerce)];
          changed := true;
        } else {
          UnchangedJson(data[key], p, coerce);
        }
        left := left - {key};
      }
    }

    method MaterializeSources(p: Params, coerce: Coercion) returns (changed: bool)
      modifies this`fieldSources
      ensures fieldSources == SubSources(old(fieldSources), p, coerce)
      ensures changed == ChangesSources(old(fieldSources), p)
    {
      changed := false;
      var left := fieldSources.Keys;
      while left != {}
        invariant fieldSources.Keys == old(fieldSources).Keys && left <= fieldSources.Keys
        invariant forall k :: k in fieldSources ==>
          fieldSources[k] == if k in left then old(fieldSources)[k] else SubSource(old(fieldSources)[k], p, coerce)
        invariant changed == exists k :: k in old(fieldSources) && k !in left && ChangesSource(old(fieldSources)[k], p)
        decreases left
      {
        var key :| key in left;
        if ChangesSource(fieldSources[key], p) {
          fieldSources := fieldSources[key := SubSource(fieldSources[key], p, coerce)];
          changed := true;
        } else {
          UnchangedSource(fieldSources[key], p, coerce);
        }
        left := left - {key};
      }
    }
  }

  predicate SettlesParams(data: map<string, Json>, sources: map<string, Source>, p: Params, coerce: Coercion) {
    && (forall k :: k in data ==> Settles(data[k], p, coerce))
    && (forall k :: k in sources ==> SettlesSource(sources[k], p, coerce))
  }

  /** Two materializations of an action's parameters are one with the first stage's values taking precedence. */
  lemma StagesComposeParams(
    data: map<string, Json>, sources: map<string, Source>, p1: Params, p2: Params, coerce: Coercion)
    requires Tame(p1) && SettlesParams(data, sources, p1, coerce)
    ensures SubData(SubData(data, p1, coerce), p2, coerce) == SubData(data, p2 + p1, coerce)
    ensures SubSources(SubSources(sources, p1, coerce), p2, coerce) == SubSources(sources, p2 + p1, coerce)
  {
    forall k | k in data
      ensures SubJson(SubJson(data[k], p1, coerce), p2, coerce) == SubJson(data[k], p2 + p1, coerce)
    {
      StagesComposeJson(data[k], p1, p2, coerce);
    }
    forall k | k in sources
      ensures SubSource(SubSource(sources[k], p1, coerce), p2, coerce) == SubSource(sources[k], p2 + p1, coerce)
    {
      StagesComposeSource(sources[k], p1, p2, coerce);
    }
  }

  lemma UnsettledSourceBreaksStages(src: Source, p1: Params, coerce: Coercion) returns (p2: Params)
    requires Tame(p1) && !SettlesSource(src, p1, coerce)
    ensures SubSource(SubSource(src, p1, coerce), p2, coerce) != SubSource(src, p2 + p1, coerce)
  {
    match src
    case Expression(e) =>
      p2 := HoleIsFilled(coerce(Sub(e, p1)), coerce);
      ResolvedOnce(e, p1, p2);
    case Constant(v) => p2 := UnsettledBreaksStages(v, p1, coerce);
  }

  ghost predicate ParamStagesAgree(
    data: map<string, Json>, sources: map<string, Source>, p1: Params, coerce: Coercion)
  {
    forall p2 ::
      && SubData(SubData(data, p1, coerce), p2, coerce) == SubData(data, p2 + p1, coerce)
      && SubSources(SubSources(sources, p1, coerce), p2, coerce) == SubSources(sources, p2 + p1, coerce)
  }

  /** The exact condition for an action's parameters: whatever is materialized later, two passes are one. */
  lemma ParamStagesAgreeIffSettled(
    data: map<string, Json>, sources: map<string, Source>, p1: Params, coerce: Coercion)
    requires Tame(p1)
    ensures ParamStagesAgree(data, sources, p1, coerce) <==> SettlesParams(data, sources, p1, coerce)
  {
    if SettlesParams(data, sources, p1, coerce) {
      forall p2
        ensures SubData(SubData(data, p1, coerce), p2, coerce) == SubData(data, p2 + p1, coerce)
        ensures SubSources(SubSources(sources, p1, coerce), p2, coerce) == SubSources(sources, p2 + p1, coerce)
      {
        StagesComposeParams(data, sources, p1, p2, coerce);
      }
    } else if k :| k in data && !Settles(data[k], p1, coerce) {
      var p2 := UnsettledBreaksStages(data[k], p1, coerce);
      assert SubData(SubData(data, p1, coerce), p2, coerce)[k] != SubData(data, p2 + p1, coerce)[k];
    } else {
      var k :| k in sources && !SettlesSource(sources[k], p1, coerce);
      var p2 := UnsettledSourceBreaksStages(sources[k], p1, coerce);
      assert SubSources(SubSources(sources, p1, coerce), p2, coerce)[k] != SubSources(sources, p2 + p1, coerce)[k];
    }
  }
}
