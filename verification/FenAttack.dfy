/** `_attack` of `graph/fen.py`: the attack relation over a board held as a dict of squares. */
module FenAttack {
  import opened Chess

  // Every man stands on the board.
  ghost predicate Placed(p: Placement) { forall s :: s in p ==> OnBoard(s) }

  const KING_DELTAS: seq<Dir> :=
    [Dir(1, 0), Dir(1, 1), Dir(0, 1), Dir(-1, 1), Dir(-1, 0), Dir(-1, -1), Dir(0, -1), Dir(1, -1)]

  lemma StepListed(d: Dir)
    ensures IsDir(d) <==> d in KING_DELTAS
  {
    assert KING_DELTAS[0] == Dir(1, 0) && KING_DELTAS[1] == Dir(1, 1) && KING_DELTAS[2] == Dir(0, 1);
    assert KING_DELTAS[3] == Dir(-1, 1) && KING_DELTAS[4] == Dir(-1, 0) && KING_DELTAS[5] == Dir(-1, -1);
    assert KING_DELTAS[6] == Dir(0, -1) && KING_DELTAS[7] == Dir(1, -1);
  }

  // A leaper stands at one of the deltas of the target.
  method Leaper(board: Placement, t: Square, man: Piece, deltas: seq<Dir>) returns (hit: bool)
    ensures hit <==> exists s :: s in board && board[s] == man && Minus(s, t) in deltas
  {
    for k := 0 to |deltas|
      invariant forall s :: s in board && board[s] == man ==> Minus(s, t) !in deltas[..k]
    {
      var s := Plus(t, deltas[k]);
      if s in board && board[s] == man {
        assert Minus(s, t) == deltas[k];
        return true;
      }
      assert forall q :: Minus(q, t) == deltas[k] ==> q == s;
      assert deltas[..k + 1] == deltas[..k] + [deltas[k]];
    }
    assert deltas[..|deltas|] == deltas;
    return false;
  }

  // Where an attacking pawn stands, seen from its target: against its own capture deltas
  function PawnOrigins(side: Color): seq<Dir> { [Dir(-1, -Forward(side)), Dir(1, -Forward(side))] }

  lemma PawnListed(p: Placement, s: Square, t: Square)
    requires s in p && p[s].kind.Pawn?
    ensures Attacks(p, s, t) <==> Minus(s, t) in PawnOrigins(p[s].color)
  {
    assert PawnOrigins(p[s].color)[0] == Dir(-1, -Forward(p[s].color));
    assert PawnOrigins(p[s].color)[1] == Dir(1, -Forward(p[s].color));
  }

  method Ray(board: Placement, t: Square, side: Color, d: Dir) returns (hit: bool)
    requires Placed(board) && OnBoard(t) && IsDir(d)
    ensures hit <==> RayHit(board, t, d, side)
  {
    var s := Plus(t, d);
    ghost var n: nat := 1;
    while OnBoard(s)
      invariant n > 0 && s == Walk(t, d, n) && EmptyUpTo(board, t, d, n)
      decreases 8 - n
    {
      if s in board {
        assert FirstAt(board, t, d, n);
        assert forall m: nat :: FirstAt(board, t, d, m) ==> m == n;
        return board[s].color == side && Slides(board[s].kind, d);
      }
      s, n := Plus(s, d), n + 1;
    }
    forall m: nat | n <= m ensures !OnBoard(Walk(t, d, m)) { LeavesBoard(t, d, n, m); }
    return false;
  }

  // The rays of one table of directions
  method Sliders(board: Placement, t: Square, side: Color, dirs: seq<Dir>) returns (hit: bool)
    requires Placed(board) && OnBoard(t) && forall d :: d in dirs ==> IsDir(d)
    ensures hit <==> exists d :: d in dirs && RayHit(board, t, d, side)
  {
    for k := 0 to |dirs|
      invariant forall d :: d in dirs[..k] ==> !RayHit(board, t, d, side)
    {
      assert dirs[k] in dirs;
      hit := Ray(board, t, side, dirs[k]);
      if hit { return true; }
      assert dirs[..k + 1] == dirs[..k] + [dirs[k]];
    }
    assert dirs[..|dirs|] == dirs;
    return false;
  }

  lemma LeaperAttacks(p: Placement, t: Square, man: Piece, deltas: seq<Dir>)
    requires forall s :: s in p && p[s] == man ==> (Attacks(p, s, t) <==> Minus(s, t) in deltas)
    ensures AttackedBy(p, t, man.color, {man.kind}) <==>
              exists s :: s in p && p[s] == man && Minus(s, t) in deltas
  {
  }

  lemma RayTables(p: Placement, t: Square, side: Color)
    ensures AttackedBy(p, t, side, SLIDERS) <==>
      || (exists d :: d in ROOK && RayHit(p, t, d, side))
      || (exists d :: d in BISHOP && RayHit(p, t, d, side))
  {
    SlidersByRays(p, t, side);
    forall d | IsDir(d) ensures d in ROOK || d in BISHOP { DirListed(d); }
    forall d | d in ROOK || d in BISHOP ensures IsDir(d) { }
  }

  method Attack(board: Placement, t: Square, side: Color) returns (hit: bool)
    requires Placed(board) && OnBoard(t)
    ensures hit <==> Attacked(board, t, side)
  {
    AttackedByKinds(board, t, side);
    forall s | s in board && board[s] == Piece(side, Pawn)
      ensures Attacks(board, s, t) <==> Minus(s, t) in PawnOrigins(side) { PawnListed(board, s, t); }
    forall s | s in board && board[s] == Piece(side, Knight)
      ensures Attacks(board, s, t) <==> Minus(s, t) in KNIGHT { JumpBack(board, s, t); }
    forall s | s in board && board[s] == Piece(side, King)
      ensures Attacks(board, s, t) <==> Minus(s, t) in KING_DELTAS { StepListed(Minus(s, t)); }
    LeaperAttacks(board, t, Piece(side, Pawn), PawnOrigins(side));
    LeaperAttacks(board, t, Piece(side, Knight), KNIGHT);
    LeaperAttacks(board, t, Piece(side, King), KING_DELTAS);
    RayTables(board, t, side);
    hit := Leaper(board, t, Piece(side, Pawn), PawnOrigins(side));
    if !hit { hit := Leaper(board, t, Piece(side, Knight), KNIGHT); }
    if !hit { hit := Leaper(board, t, Piece(side, King), KING_DELTAS); }
    if !hit { hit := Sliders(board, t, side, ROOK); }
    if !hit { hit := Sliders(board, t, side, BISHOP); }
  }

  lemma JumpBack(p: Placement, s: Square, t: Square)
    requires s in p && p[s].kind.Knight?
    ensures Attacks(p, s, t) <==> Minus(s, t) in KNIGHT
  {
    JumpListed(s.file - t.file, s.rank - t.rank);
  }
}
