/** Castling in terms of the king's own steps (`ingest/pgn.py`): the generator tests three squares for attack before
    anything moves; what that means is told by the boards after the step and after castling. */
module PgnCastling {
  import opened Chess
  import opened PgnPosition
  import opened PgnRules

  // The king's square, the one it crosses, and the one it comes to
  function From(c: Color): Square { Square(4, HomeRank(c)) }
  function Over(c: Color, w: Wing): Square { Square(if w.KingSide? then 5 else 3, HomeRank(c)) }
  function Into(c: Color, w: Wing): Square { Square(if w.KingSide? then 6 else 2, HomeRank(c)) }

  // All squares between king and rook
  predicate Between(c: Color, w: Wing, s: Square) {
    s.rank == HomeRank(c) && if w.KingSide? then 4 < s.file < 7 else 0 < s.file < 4
  }

  function KingStep(c: Color, w: Wing): Move {
    Move(From(c), Over(c, w), None, false, None, NoCastle, false, false, false)
  }

  // ---------- lines that stay open, and lines that open ----------

  // An attack of the same man stays, when what comes onto the board does not come between.
  lemma AttackStays(p: Placement, q: Placement, s: Square, t: Square)
    requires s in p && s in q && q[s] == p[s] && Attacks(p, s, t)
    requires forall n: nat :: 0 < n < Distance(s, t) && Walk(s, Toward(s, t), n) in q ==> Walk(s, Toward(s, t), n) in p
    ensures Attacks(q, s, t)
  {
  }

  // A line that was closed has been opened by the one square that was left, so the man attacked that square.
  lemma AttackOpened(p: Placement, q: Placement, s: Square, t: Square, left: Square)
    requires s in p && s in q && q[s] == p[s] && Attacks(q, s, t) && !Attacks(p, s, t) && OnBoard(s) && OnBoard(t)
    requires forall u :: u in p && u != left ==> u in q || u == t
    ensures Attacks(p, s, left)
  {
    var d := Toward(s, t);
    var n: nat :| 0 < n < Distance(s, t) && Walk(s, d, n) in p;
    assert Walk(s, d, n) !in q && Walk(s, d, n) != t;
    assert Walk(s, d, n) == left;
    OnLine(s, t, n);
    forall k: nat | 0 < k < n ensures Walk(s, d, k) !in p {
      assert Walk(s, d, k) !in q && Walk(s, d, k) != t && Walk(s, d, k) != left;
    }
  }

  // A square on an aligned line is itself aligned, and walked to the same way.
  lemma OnLine(s: Square, t: Square, n: nat)
    requires 0 < n < Distance(s, t)
    requires (t.file == s.file) || (t.rank == s.rank) || Abs(t.file - s.file) == Abs(t.rank - s.rank)
    ensures var u := Walk(s, Toward(s, t), n);
            && Distance(s, u) == n && Toward(s, u) == Toward(s, t)
            && (u.file == s.file <==> t.file == s.file) && (u.rank == s.rank <==> t.rank == s.rank)
            && (Abs(u.file - s.file) == Abs(u.rank - s.rank) <==> Abs(t.file - s.file) == Abs(t.rank - s.rank))
  {
  }

  // ---------- the board after the step, and after castling ----------

  // The king stands on the square it crosses.
  ghost predicate Stepped(p: Placement, q: Placement, c: Color, w: Wing) {
    forall s :: Look(q, s) ==
      if s == From(c) then None else if s == Over(c, w) then Some(Piece(c, King)) else Look(p, s)
  }

  // King and rook have castled.
  ghost predicate Castled(p: Placement, q: Placement, c: Color, w: Wing) {
    forall s :: Look(q, s) ==
      if s == From(c) || s == RookFrom(c, w) then None
      else if s == Into(c, w) then Some(Piece(c, King)) else if s == Over(c, w) then Some(Piece(c, Rook))
      else Look(p, s)
  }

  ghost predicate Ready(p: Placement, c: Color, w: Wing) {
    && w != NoCastle && (forall s :: s in p ==> OnBoard(s)) && OneKing(p, c) && RightKept(p, c, w)
    && forall s :: Between(c, w, s) ==> s !in p
  }

  lemma OnlyKing(p: Placement, c: Color, w: Wing)
    requires Ready(p, c, w)
    ensures forall s :: KingAt(p, s, c) <==> s == From(c)
  {
  }

  lemma InCheckAt(q: Placement, c: Color, k: Square)
    requires forall s :: KingAt(q, s, c) <==> s == k
    ensures InCheck(q, c) <==> Attacked(q, k, c.Other())
  {
  }

  // Crossed without check is not attacked before.
  lemma StepSafe(p: Placement, q: Placement, c: Color, w: Wing)
    requires Ready(p, c, w) && Stepped(p, q, c, w) && !Attacked(p, From(c), c.Other())
    ensures InCheck(q, c) <==> Attacked(p, Over(c, w), c.Other())
  {
    OnlyKing(p, c, w);
    forall s ensures KingAt(q, s, c) <==> s == Over(c, w) {
      assert Look(q, s) == if s == From(c) then None else if s == Over(c, w) then Some(Piece(c, King)) else Look(p, s);
      assert KingAt(p, s, c) <==> s == From(c);
    }
    InCheckAt(q, c, Over(c, w));
    forall s | s in p && p[s].color == c.Other()
      ensures s in q && q[s] == p[s] && (Attacks(q, s, Over(c, w)) <==> Attacks(p, s, Over(c, w)))
    {
      StepAttack(p, q, c, w, s);
    }
    forall s | s in q && q[s].color == c.Other() ensures s in p && p[s] == q[s] { SteppedMan(p, q, c, w, s); }
  }

  lemma SteppedMan(p: Placement, q: Placement, c: Color, w: Wing, s: Square)
    requires Ready(p, c, w) && Stepped(p, q, c, w)
    ensures s in p && p[s].color == c.Other() ==> s in q && q[s] == p[s]
    ensures s in q && q[s].color == c.Other() ==> s in p && p[s] == q[s]
  {
    assert Look(q, s) == if s == From(c) then None else if s == Over(c, w) then Some(Piece(c, King)) else Look(p, s);
    assert Between(c, w, Over(c, w));
  }

  lemma StepAttack(p: Placement, q: Placement, c: Color, w: Wing, s: Square)
    requires Ready(p, c, w) && Stepped(p, q, c, w) && !Attacked(p, From(c), c.Other())
    requires s in p && p[s].color == c.Other()
    ensures s in q && q[s] == p[s] && (Attacks(q, s, Over(c, w)) <==> Attacks(p, s, Over(c, w)))
  {
    SteppedMan(p, q, c, w, s);
    var t := Over(c, w);
    if Attacks(p, s, t) {
      forall n: nat | 0 < n < Distance(s, t) && Walk(s, Toward(s, t), n) in q ensures Walk(s, Toward(s, t), n) in p {
        SteppedKeys(p, q, c, w, Walk(s, Toward(s, t), n));
      }
      AttackStays(p, q, s, t);
    } else if Attacks(q, s, t) {
      forall u | u in p && u != From(c) ensures u in q || u == t { SteppedKeys(p, q, c, w, u); }
      AttackOpened(p, q, s, t, From(c));
    }
  }

  lemma SteppedKeys(p: Placement, q: Placement, c: Color, w: Wing, u: Square)
    requires Ready(p, c, w) && Stepped(p, q, c, w)
    ensures u in q && u != Over(c, w) ==> u in p
    ensures u in p && u != From(c) ==> u in q
  {
    assert Look(q, u) == if u == From(c) then None else if u == Over(c, w) then Some(Piece(c, King)) else Look(p, u);
  }

  lemma CastledKeys(p: Placement, q: Placement, c: Color, w: Wing, u: Square)
    requires Ready(p, c, w) && Castled(p, q, c, w)
    ensures u in q && u != Over(c, w) && u != Into(c, w) ==> u in p
    ensures u in p && p[u].color == c.Other() ==> u in q && q[u] == p[u]
    ensures KingAt(q, u, c) <==> u == Into(c, w)
  {
    OnlyKing(p, c, w);
    assert Look(q, u) ==
      if u == From(c) || u == RookFrom(c, w) then None
      else if u == Into(c, w) then Some(Piece(c, King)) else if u == Over(c, w) then Some(Piece(c, Rook))
      else Look(p, u);
    assert KingAt(p, u, c) <==> u == From(c);
    assert Between(c, w, Over(c, w)) && Between(c, w, Into(c, w));
  }

  // A line that comes to the king's new square through the one it crosses comes from where it stood, or through it.
  lemma BehindOver(c: Color, w: Wing, s: Square, n: nat)
    requires w != NoCastle && 0 < n < Distance(s, Into(c, w)) && Walk(s, Toward(s, Into(c, w)), n) == Over(c, w)
    requires var t := Into(c, w); t.file == s.file || t.rank == s.rank || Abs(t.file - s.file) == Abs(t.rank - s.rank)
    ensures if n == 1 then s == From(c) else Walk(s, Toward(s, Into(c, w)), n - 1) == From(c)
  {
    assert s.rank == HomeRank(c);
  }

  lemma NotThroughOver(p: Placement, c: Color, w: Wing, s: Square, n: nat)
    requires Ready(p, c, w) && s in p && p[s].color == c.Other() && Attacks(p, s, Into(c, w))
    requires 0 < n < Distance(s, Into(c, w)) && p[s].kind in SLIDERS
    ensures Walk(s, Toward(s, Into(c, w)), n) != Over(c, w)
  {
    OnlyKing(p, c, w);
    if Walk(s, Toward(s, Into(c, w)), n) == Over(c, w) { BehindOver(c, w, s, n); }
  }

  lemma CastledAttack(p: Placement, q: Placement, c: Color, w: Wing, s: Square)
    requires Ready(p, c, w) && Castled(p, q, c, w) && s in p && p[s].color == c.Other() && Attacks(p, s, Into(c, w))
    ensures s in q && q[s] == p[s] && Attacks(q, s, Into(c, w))
  {
    var t := Into(c, w);
    CastledKeys(p, q, c, w, s);
    if p[s].kind in SLIDERS {
      forall n: nat | 0 < n < Distance(s, t) && Walk(s, Toward(s, t), n) in q ensures Walk(s, Toward(s, t), n) in p {
        NotThroughOver(p, c, w, s, n);
        CastledKeys(p, q, c, w, Walk(s, Toward(s, t), n));
      }
      AttackStays(p, q, s, t);
    }
  }

  // Castled without check is not attacked before.
  lemma CastledSafe(p: Placement, q: Placement, c: Color, w: Wing)
    requires Ready(p, c, w) && Castled(p, q, c, w) && !InCheck(q, c)
    ensures !Attacked(p, Into(c, w), c.Other())
  {
    forall u ensures KingAt(q, u, c) <==> u == Into(c, w) { CastledKeys(p, q, c, w, u); }
    InCheckAt(q, c, Into(c, w));
    forall s | s in p && p[s].color == c.Other() ensures !Attacks(p, s, Into(c, w)) {
      if Attacks(p, s, Into(c, w)) { CastledAttack(p, q, c, w, s); }
    }
  }

  // ---------- the law ----------

  lemma SoundReady(pos: Position, p: Placement, w: Wing)
    requires SoundBoard(pos, p) && w != NoCastle && RightOf(pos.turn, w) in pos.castling
    requires forall s :: Between(pos.turn, w, s) ==> s !in p
    ensures Ready(p, pos.turn, w)
  {
    forall s | s in p ensures OnBoard(s) { assert At(pos.squares, s).Some?; }
    if pos.turn.White? { assert OneKing(p, White); } else { assert OneKing(p, Black); }
    assert RightKept(p, pos.turn, w);
  }

  lemma StepPlays(pos: Position, p: Placement, w: Wing)
    requires SoundBoard(pos, p) && Ready(p, pos.turn, w)
    ensures Pseudo(pos, p, KingStep(pos.turn, w)) && Playable(pos, KingStep(pos.turn, w))
    ensures Stepped(p, Men(SquaresAfter(pos, KingStep(pos.turn, w))), pos.turn, w)
  {
    var c, m := pos.turn, KingStep(pos.turn, w);
    assert Between(c, w, Over(c, w));
    assert KingAt(p, From(c), c);
    PseudoPlayable(pos, p, m);
    PseudoTame(pos, p, m);
    var q := Men(SquaresAfter(pos, m));
    AfterMove(pos, p, m, q);
    forall s
      ensures Look(q, s) == if s == From(c) then None else if s == Over(c, w) then Some(Piece(c, King)) else Look(p, s)
    {
      assert Look(q, s) == AfterAt(c, p, m, s);
    }
  }

  lemma CastlePlays(pos: Position, p: Placement, w: Wing)
    requires SoundBoard(pos, p) && Ready(p, pos.turn, w)
    ensures Playable(pos, CastleMove(pos.turn, w))
    ensures Castled(p, Men(SquaresAfter(pos, CastleMove(pos.turn, w))), pos.turn, w)
  {
    var c, m := pos.turn, CastleMove(pos.turn, w);
    assert KingAt(p, From(c), c) && Between(c, w, Over(c, w)) && Between(c, w, Into(c, w));
    assert At(pos.squares, From(c)).Some?;
    assert Tame(c, p, m);
    var q := Men(SquaresAfter(pos, m));
    AfterMove(pos, p, m, q);
    forall s ensures Look(q, s) ==
      if s == From(c) || s == RookFrom(c, w) then None
      else if s == Into(c, w) then Some(Piece(c, King)) else if s == Over(c, w) then Some(Piece(c, Rook))
      else Look(p, s)
    {
      assert Look(q, s) == AfterAt(c, p, m, s);
    }
  }

  // What castling comes to: the right held, the squares between king and rook empty, no check now, the step over the
  // first of them legal, and no check afterwards
  ghost predicate MayStepAndCastle(pos: Position, p: Placement, w: Wing)
    requires SoundBoard(pos, p)
  {
    && w != NoCastle && RightOf(pos.turn, w) in pos.castling && (forall s :: Between(pos.turn, w, s) ==> s !in p)
    && !InCheck(p, pos.turn) && Legal(pos, p, KingStep(pos.turn, w))
    && Playable(pos, CastleMove(pos.turn, w)) && !InCheck(Men(SquaresAfter(pos, CastleMove(pos.turn, w))), pos.turn)
  }

  lemma BetweenAre(c: Color, w: Wing, s: Square)
    requires Between(c, w, s)
    ensures if w.KingSide? then s == Square(5, HomeRank(c)) || s == Square(6, HomeRank(c))
            else s == Square(1, HomeRank(c)) || s == Square(2, HomeRank(c)) || s == Square(3, HomeRank(c))
  {
  }

  lemma EmptyBetween(pos: Position, p: Placement, w: Wing)
    requires MayCastle(pos, p, w)
    ensures forall s :: Between(pos.turn, w, s) ==> s !in p
  {
    forall s | Between(pos.turn, w, s) ensures s !in p { BetweenAre(pos.turn, w, s); }
  }

  // With the right held and the path empty, castling hangs on the three squares.
  lemma AllEmpty(pos: Position, p: Placement, w: Wing)
    requires SoundBoard(pos, p) && Ready(p, pos.turn, w) && RightOf(pos.turn, w) in pos.castling
    ensures Pseudo(pos, p, CastleMove(pos.turn, w)) <==>
              && !Attacked(p, From(pos.turn), pos.turn.Other()) && !Attacked(p, Over(pos.turn, w), pos.turn.Other())
              && !Attacked(p, Into(pos.turn, w), pos.turn.Other())
  {
    var c, r := pos.turn, HomeRank(pos.turn);
    assert KingAt(p, From(c), c);
    if w.KingSide? {
      assert Between(c, w, Square(5, r)) && Between(c, w, Square(6, r));
    } else {
      assert Between(c, w, Square(1, r)) && Between(c, w, Square(2, r)) && Between(c, w, Square(3, r));
    }
  }

  lemma StepLegal(pos: Position, p: Placement, w: Wing)
    requires SoundBoard(pos, p) && Ready(p, pos.turn, w) && !InCheck(p, pos.turn)
    ensures Legal(pos, p, KingStep(pos.turn, w)) <==> !Attacked(p, Over(pos.turn, w), pos.turn.Other())
    ensures !Attacked(p, From(pos.turn), pos.turn.Other())
  {
    OnlyKing(p, pos.turn, w);
    InCheckAt(p, pos.turn, From(pos.turn));
    StepPlays(pos, p, w);
    StepSafe(p, Men(SquaresAfter(pos, KingStep(pos.turn, w))), pos.turn, w);
  }

  lemma CastleLegal(pos: Position, p: Placement, w: Wing)
    requires SoundBoard(pos, p) && Ready(p, pos.turn, w) && RightOf(pos.turn, w) in pos.castling
    ensures Playable(pos, CastleMove(pos.turn, w))
    ensures Legal(pos, p, CastleMove(pos.turn, w)) <==>
              && !Attacked(p, From(pos.turn), pos.turn.Other()) && !Attacked(p, Over(pos.turn, w), pos.turn.Other())
              && !InCheck(Men(SquaresAfter(pos, CastleMove(pos.turn, w))), pos.turn)
  {
    CastlePlays(pos, p, w);
    AllEmpty(pos, p, w);
    var q := Men(SquaresAfter(pos, CastleMove(pos.turn, w)));
    if !InCheck(q, pos.turn) { CastledSafe(p, q, pos.turn, w); }
  }

  /** Castling is legal exactly when the king may step over: the code's test of three squares before the move is what
      the boards after the step and after castling say. */
  lemma CastlingBySteps(pos: Position, p: Placement, w: Wing)
    requires SoundBoard(pos, p) && w != NoCastle
    ensures Legal(pos, p, CastleMove(pos.turn, w)) <==> MayStepAndCastle(pos, p, w)
  {
    if MayCastle(pos, p, w) { EmptyBetween(pos, p, w); }
    if RightOf(pos.turn, w) in pos.castling && forall s :: Between(pos.turn, w, s) ==> s !in p {
      SoundReady(pos, p, w);
      CastleLegal(pos, p, w);
      OnlyKing(p, pos.turn, w);
      InCheckAt(p, pos.turn, From(pos.turn));
      if !InCheck(p, pos.turn) { StepLegal(pos, p, w); }
    } else {
      NoWay(pos, p, w);
    }
  }

  lemma NoWay(pos: Position, p: Placement, w: Wing)
    requires SoundBoard(pos, p) && w != NoCastle && !MayCastle(pos, p, w)
    ensures !Pseudo(pos, p, CastleMove(pos.turn, w))
  {
  }
}
