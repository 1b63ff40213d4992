/** How specific a merge pattern is: the bytes left when its placeholders and stars are taken out. */
module Patterns {
  import opened Text
  import P = Placeholders
  import M = MergeState

  datatype Piece =
    | Literal(text: string)
    | AgentName | AgentId | Agent | ResourceName | ResourceId | Resource | Star

  function Spelled(p: Piece): string {
    match p
    case Literal(text) => text
    case AgentName => "{{agent.name}}"
    case AgentId => "{{agent.id}}"
    case Agent => "{{agent}}"
    case ResourceName => "{{resource.name}}"
    case ResourceId => "{{resource.id}}"
    case Resource => "{{resource}}"
    case Star => "*"
  }

  function TextOf(pieces: seq<Piece>): string {
    if pieces == [] then "" else Spelled(pieces[0]) + TextOf(pieces[1..])
  }

  /** Literal text has neither an opening brace nor a star. */
  predicate IsTidy(pieces: seq<Piece>) {
    forall i :: 0 <= i < |pieces| && pieces[i].Literal? ==> '{' !in pieces[i].text && '*' !in pieces[i].text
  }

  function LiteralLength(pieces: seq<Piece>): nat {
    if pieces == [] then 0
    else (if pieces[0].Literal? then Bytes(pieces[0].text) else 0) + LiteralLength(pieces[1..])
  }

  function Dropped(pieces: seq<Piece>, p: Piece): seq<Piece> {
    if pieces == [] then []
    else (if pieces[0] == p then [] else [pieces[0]]) + Dropped(pieces[1..], p)
  }

  // ----- taking one kind of piece out

  lemma {:induction false} WithoutIsReplaced(s: string, what: string)
    requires what != ""
    ensures M.Without(s, what) == P.ReplaceAll(s, what, "")
  {
    if s != "" {
      if what <= s { WithoutIsReplaced(s[|what|..], what); } else { WithoutIsReplaced(s[1..], what); }
      if |s| < |what| { ShortIsKept(s, what); }
    }
  }

  lemma {:induction false} ShortIsKept(s: string, what: string)
    requires |s| < |what|
    ensures M.Without(s, what) == s
  {
    if s != "" { ShortIsKept(s[1..], what); }
  }

  lemma PieceIsPlaceholder(p: Piece)
    requires !p.Literal? && !p.Star?
    ensures P.IsPlaceholder(Spelled(p))
  {
  }

  /** Length and third character tell the pieces with braces apart. */
  lemma Telling(p: Piece)
    requires !p.Literal?
    ensures |Spelled(p)| == match p
                            case AgentName => 14
                            case AgentId => 12
                            case Agent => 9
                            case ResourceName => 17
                            case ResourceId => 15
                            case Resource => 12
                            case Star => 1
                            case _ => 0
    ensures p.AgentId? ==> Spelled(p)[2] == 'a'
    ensures p.Resource? ==> Spelled(p)[2] == 'r'
  {
  }

  /** A piece at the front of a text, with one placeholder taken out. */
  lemma FrontWithout(q: Piece, rest: string, p: Piece)
    requires !p.Literal? && !p.Star? && (q.Literal? ==> '{' !in q.text)
    ensures M.Without(Spelled(q) + rest, Spelled(p))
            == (if q == p then "" else Spelled(q)) + M.Without(rest, Spelled(p))
  {
    var w, s := Spelled(p), Spelled(q) + rest;
    var t := map[w := ""];
    PieceIsPlaceholder(p);
    WithoutIsReplaced(s, w);
    WithoutIsReplaced(rest, w);
    P.ReplaceIsAtOnce(s, t, w);
    P.ReplaceIsAtOnce(rest, t, w);
    if q == p {
      P.OwnFront(w, rest, t, {w});
    } else if q.Literal? || q.Star? {
      P.BracelessFront(Spelled(q), rest, t, {w});
    } else {
      PieceIsPlaceholder(q);
      Telling(p);
      Telling(q);
      P.ForeignFront(Spelled(q), rest, t, {w});
    }
  }

  lemma {:induction false} StarsWithout(a: string, b: string)
    requires '*' !in a
    ensures M.Without(a + b, "*") == a + M.Without(b, "*")
  {
    if a == "" {
      assert a + b == b;
    } else {
      var tail, rest := a[1..], M.Without(b, "*");
      StarsWithout(tail, b);
      assert (a + b)[1..] == tail + b;
      assert a == [a[0]] + tail;
      assert [a[0]] + (tail + rest) == a + rest;
    }
  }

  lemma NoStarInside(p: Piece)
    requires !p.Literal? && !p.Star?
    ensures '*' !in Spelled(p)
  {
  }

  lemma FrontWithoutStar(q: Piece, rest: string)
    requires q.Literal? ==> '*' !in q.text
    ensures M.Without(Spelled(q) + rest, "*") == (if q.Star? then "" else Spelled(q)) + M.Without(rest, "*")
  {
    if q.Star? {
      assert ("*" + rest)[1..] == rest;
    } else {
      if !q.Literal? { NoStarInside(q); }
      StarsWithout(Spelled(q), rest);
    }
  }

  lemma {:induction false} WithoutPiece(pieces: seq<Piece>, p: Piece)
    requires IsTidy(pieces) && !p.Literal?
    ensures M.Without(TextOf(pieces), Spelled(p)) == TextOf(Dropped(pieces, p)) && IsTidy(Dropped(pieces, p))
    ensures LiteralLength(Dropped(pieces, p)) == LiteralLength(pieces)
  {
    if pieces != [] {
      var q, tail := pieces[0], pieces[1..];
      WithoutPiece(tail, p);
      assert pieces == [q] + tail;
      if p.Star? { FrontWithoutStar(q, TextOf(tail)); } else { FrontWithout(q, TextOf(tail), p); }
      DropFront(q, tail, p);
    }
  }

  lemma DropFront(q: Piece, tail: seq<Piece>, p: Piece)
    requires !p.Literal? && IsTidy(Dropped(tail, p)) && (q.Literal? ==> '{' !in q.text && '*' !in q.text)
    ensures TextOf(Dropped([q] + tail, p)) == (if q == p then "" else Spelled(q)) + TextOf(Dropped(tail, p))
    ensures LiteralLength(Dropped([q] + tail, p))
            == (if q.Literal? then Bytes(q.text) else 0) + LiteralLength(Dropped(tail, p))
    ensures IsTidy(Dropped([q] + tail, p))
  {
    assert ([q] + tail)[1..] == tail;
    if q == p { assert Dropped([q] + tail, p) == Dropped(tail, p); }
    else { assert ([q] + Dropped(tail, p))[1..] == Dropped(tail, p); }
  }

  // ----- all of them

  /** The kinds of pieces, in the order in which they are taken out. */
  function Kind(k: nat): Piece
    requires k < 7
  {
    [AgentName, AgentId, Agent, ResourceName, ResourceId, Resource, Star][k]
  }

  function DroppedAll(pieces: seq<Piece>, n: nat): seq<Piece>
    requires n <= 7
  {
    if n == 0 then pieces else Dropped(DroppedAll(pieces, n - 1), Kind(n - 1))
  }

  lemma {:induction false} StrippedIsDropped(pieces: seq<Piece>, n: nat)
    requires IsTidy(pieces) && n <= 7
    ensures M.Stripped(TextOf(pieces), n) == TextOf(DroppedAll(pieces, n)) && IsTidy(DroppedAll(pieces, n))
    ensures LiteralLength(DroppedAll(pieces, n)) == LiteralLength(pieces)
  {
    if n > 0 {
      StrippedIsDropped(pieces, n - 1);
      assert M.PLACEHOLDERS[n - 1] == Spelled(Kind(n - 1));
      WithoutPiece(DroppedAll(pieces, n - 1), Kind(n - 1));
    }
  }

  lemma {:induction false} DroppedHasNone(pieces: seq<Piece>, p: Piece, q: Piece)
    ensures q in Dropped(pieces, p) <==> q in pieces && q != p
  {
    if pieces != [] {
      DroppedHasNone(pieces[1..], p, q);
      assert pieces == [pieces[0]] + pieces[1..];
    }
  }

  lemma {:induction false} DroppedAllHasNone(pieces: seq<Piece>, n: nat, q: Piece)
    requires n <= 7
    ensures q in DroppedAll(pieces, n) ==> forall k: nat :: k < n ==> q != Kind(k)
  {
    if n > 0 {
      DroppedAllHasNone(pieces, n - 1, q);
      DroppedHasNone(DroppedAll(pieces, n - 1), Kind(n - 1), q);
    }
  }

  lemma {:induction false} LiteralText(pieces: seq<Piece>)
    requires forall q :: q in pieces ==> q.Literal?
    ensures Bytes(TextOf(pieces)) == LiteralLength(pieces)
  {
    if pieces != [] {
      LiteralText(pieces[1..]);
      BytesAdd(pieces[0].text, TextOf(pieces[1..]));
    }
  }

  /** A pattern is as specific as its literal text is long. */
  lemma SpecificityIsLiteral(pieces: seq<Piece>)
    requires IsTidy(pieces) && IsTrimmed(TextOf(pieces))
    ensures M.Specificity(TextOf(pieces)) == LiteralLength(pieces)
  {
    var left := DroppedAll(pieces, 7);
    StrippedIsDropped(pieces, 7);
    forall q | q in left ensures q.Literal? {
      DroppedAllHasNone(pieces, 7, q);
      assert Kind(0) == AgentName && Kind(1) == AgentId && Kind(2) == Agent && Kind(3) == ResourceName;
      assert Kind(4) == ResourceId && Kind(5) == Resource && Kind(6) == Star;
    }
    LiteralText(left);
  }
}
