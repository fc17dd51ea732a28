/** `Board.attacked` of `ingest/pgn.py`: the search outward from the target square. */
module PgnAttack {
  import opened Chess
  import opened PgnPosition

  method Attacked(squares: seq<Cell>, t: Square, side: Color, ghost p: Placement) returns (hit: bool)
    requires Depicts(squares, p) && OnBoard(t)
    ensures hit <==> Chess.Attacked(p, t, side)
  {
    AttackedByKinds(p, t, side);
    hit := PawnAttacks(squares, t, side, p);
    if !hit { hit := KnightAttacks(squares, t, side, p); }
    if !hit { hit := SliderAttacks(squares, t, side, p); }
    if !hit { hit := KingAttacks(squares, t, side, p); }
  }

  // The four loops of `Board.attacked`, in order.
  method PawnAttacks(squares: seq<Cell>, t: Square, side: Color, ghost p: Placement) returns (hit: bool)
    requires Depicts(squares, p) && OnBoard(t)
    ensures hit <==> AttackedBy(p, t, side, {Pawn})
  {
    PawnAttackers(p, t, side);
    var pawnRank := if side.White? then t.rank - 1 else t.rank + 1;
    hit := false;
    if 1 <= pawnRank <= 8 {
      hit := Holds(squares, Square(t.file - 1, pawnRank), Piece(side, Pawn), p);
      if !hit { hit := Holds(squares, Square(t.file + 1, pawnRank), Piece(side, Pawn), p); }
    }
  }

  // A pawn attacks from the two squares diagonally behind its target.
  lemma PawnAttackers(p: Placement, t: Square, side: Color)
    ensures var r := if side.White? then t.rank - 1 else t.rank + 1;
            AttackedBy(p, t, side, {Pawn}) <==>
            (|| Look(p, Square(t.file - 1, r)) == Some(Piece(side, Pawn))
             || Look(p, Square(t.file + 1, r)) == Some(Piece(side, Pawn)))
  {
    var r := if side.White? then t.rank - 1 else t.rank + 1;
    if s :| s in p && p[s].color == side && p[s].kind in {Pawn} && Attacks(p, s, t) {
      assert p[s] == Piece(side, Pawn) && (s == Square(t.file - 1, r) || s == Square(t.file + 1, r));
    }
    forall s | s == Square(t.file - 1, r) || s == Square(t.file + 1, r)
      ensures Look(p, s) == Some(Piece(side, Pawn)) ==>
                s in p && p[s].color == side && p[s].kind in {Pawn} && Attacks(p, s, t)
    {
    }
  }

  method Holds(squares: seq<Cell>, s: Square, piece: Piece, ghost p: Placement) returns (holds: bool)
    requires Depicts(squares, p) && 1 <= s.rank <= 8
    ensures holds <==> Look(p, s) == Some(piece)
  {
    assert At(squares, s) == Look(p, s);
    holds := 0 <= s.file < 8 && squares[Idx(s)] == Some(piece);
  }

  method KnightAttacks(squares: seq<Cell>, t: Square, side: Color, ghost p: Placement) returns (hit: bool)
    requires Depicts(squares, p) && OnBoard(t)
    ensures hit <==> AttackedBy(p, t, side, {Knight})
  {
    for k := 0 to |KNIGHT|
      invariant forall d :: d in KNIGHT[..k] ==> At(squares, Plus(t, d)) != Some(Piece(side, Knight))
    {
      var s := Plus(t, KNIGHT[k]);
      if OnBoard(s) && squares[Idx(s)] == Some(Piece(side, Knight)) {
        JumpListed(KNIGHT[k].df, KNIGHT[k].dr);
        assert s in p && Attacks(p, s, t);
        return true;
      }
    }
    assert KNIGHT[..|KNIGHT|] == KNIGHT;
    forall s | s in p && p[s] == Piece(side, Knight) ensures !Attacks(p, s, t) {
      JumpListed(s.file - t.file, s.rank - t.rank);
      assert s == Plus(t, Minus(s, t));
    }
    return false;
  }

  method SliderAttacks(squares: seq<Cell>, t: Square, side: Color, ghost p: Placement) returns (hit: bool)
    requires Depicts(squares, p) && OnBoard(t)
    ensures hit <==> AttackedBy(p, t, side, SLIDERS)
  {
    SlidersByRays(p, t, side);
    var dirs := ROOK + BISHOP;
    for k := 0 to |dirs|
      invariant forall j :: 0 <= j < k ==> !RayHit(p, t, dirs[j], side)
    {
      DirsAreDirs(k);
      hit := RayAttacks(squares, t, side, dirs[k], p);
      if hit { return true; }
    }
    forall d | IsDir(d) ensures !RayHit(p, t, d, side) { DirListed(d); }
    return false;
  }

  method RayAttacks(squares: seq<Cell>, t: Square, side: Color, d: Dir, ghost p: Placement) returns (hit: bool)
    requires Depicts(squares, p) && OnBoard(t) && IsDir(d)
    ensures hit <==> RayHit(p, t, d, side)
  {
    var s := Square(t.file + d.df, t.rank + d.dr);
    ghost var n: nat := 1;
    while OnBoard(s)
      invariant n > 0 && s == Walk(t, d, n) && EmptyUpTo(p, t, d, n)
      decreases 8 - n
    {
      var c := squares[Idx(s)];
      if c.Some? {
        assert FirstAt(p, t, d, n);
        assert forall m: nat :: FirstAt(p, t, d, m) ==> m == n;
        return c.value.color == side && Slides(c.value.kind, d);
      }
      s, n := Square(s.file + d.df, s.rank + d.dr), n + 1;
    }
    forall m: nat | n <= m ensures !OnBoard(Walk(t, d, m)) { LeavesBoard(t, d, n, m); }
    return false;
  }

  method KingAttacks(squares: seq<Cell>, t: Square, side: Color, ghost p: Placement) returns (hit: bool)
    requires Depicts(squares, p) && OnBoard(t)
    ensures hit <==> AttackedBy(p, t, side, {King})
  {
    for df := -1 to 2
      invariant forall d: Dir :: -1 <= d.df < df && IsDir(d) ==> At(squares, Plus(t, d)) != Some(Piece(side, King))
    {
      for dr := -1 to 2
        invariant forall d: Dir :: d.df == df && -1 <= d.dr < dr && IsDir(d) ==>
                    At(squares, Plus(t, d)) != Some(Piece(side, King))
      {
        var s := Plus(t, Dir(df, dr));
        if (df != 0 || dr != 0) && OnBoard(s) && squares[Idx(s)] == Some(Piece(side, King)) {
          assert s in p && Attacks(p, s, t);
          return true;
        }
      }
    }
    forall s | s in p && p[s] == Piece(side, King) ensures !Attacks(p, s, t) {
      assert s == Plus(t, Minus(s, t));
    }
    return false;
  }
}
