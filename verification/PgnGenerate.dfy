/** The move generation loops of `Board.legal_moves` (`ingest/pgn.py`), each proved to list every
    move its rule allows, once. */
module PgnGenerate {
  import opened Chess
  import opened PgnPosition
  import opened PgnRules
  import PgnAttack

  ghost predicate Distinct(ms: seq<Move>) {
    forall j, k :: 0 <= j < k < |ms| ==> ms[j] != ms[k]
  }

  // A plain move of the piece on `s`, capturing or not
  ghost predicate Lands(p: Placement, s: Square, c: Color, m: Move) {
    m == Plain(p, s, m.to) && OnBoard(m.to) && Free(p, m.to, c)
  }

  method KnightMoves(pos: Position, s: Square, ghost p: Placement) returns (out: seq<Move>)
    requires Depicts(pos.squares, p) && OnBoard(s)
    ensures Distinct(out)
    ensures forall m :: m in out <==> Lands(p, s, pos.turn, m) && KnightJump(m.to.file - s.file, m.to.rank - s.rank)
  {
    out := [];
    for k := 0 to |KNIGHT|
      invariant Distinct(out)
      invariant forall m :: m in out <==> Lands(p, s, pos.turn, m) && Minus(m.to, s) in KNIGHT[..k]
    {
      var t := Plus(s, KNIGHT[k]);
      KnightsDiffer(k);
      assert forall u :: Minus(u, s) == KNIGHT[k] <==> u == t;
      if OnBoard(t) {
        var tp := pos.squares[Idx(t)];
        if tp.None? || tp.value.color != pos.turn {
          out := out + [Move(s, t, None, tp.Some?, None, NoCastle, false, false, false)];
        }
      }
    }
    assert KNIGHT[..|KNIGHT|] == KNIGHT;
    forall t: Square ensures KnightJump(t.file - s.file, t.rank - s.rank) <==> Minus(t, s) in KNIGHT {
      JumpListed(t.file - s.file, t.rank - s.rank);
    }
  }

  lemma KnightsDiffer(k: int)
    requires 0 <= k < |KNIGHT|
    ensures KNIGHT[k] !in KNIGHT[..k] && KNIGHT[..k + 1] == KNIGHT[..k] + [KNIGHT[k]]
  {
  }

  // `t` lies on a line with `s`, with nothing between
  ghost predicate Lined(p: Placement, s: Square, t: Square) {
    Walk(s, Toward(s, t), Distance(s, t)) == t && Clear(p, s, t)
  }

  // The first `n` squares of a ray are listed, the nearest first.
  ghost predicate Listed(p: Placement, s: Square, d: Dir, c: Color, n: nat, out: seq<Move>) {
    && |out| == n && EmptyUpTo(p, s, d, n)
    && forall j: nat :: 0 < j <= n ==>
      out[j - 1] == Plain(p, s, Walk(s, d, j)) && OnBoard(Walk(s, d, j)) && Free(p, Walk(s, d, j), c)
  }

  // The ray goes no further than `n` squares.
  ghost predicate Stopped(p: Placement, s: Square, d: Dir, c: Color, n: nat) {
    || !OnBoard(Walk(s, d, n + 1))
    || (n > 0 && Walk(s, d, n) in p)
    || !Free(p, Walk(s, d, n + 1), c)
  }

  method RayMoves(pos: Position, s: Square, d: Dir, ghost p: Placement) returns (out: seq<Move>)
    requires Depicts(pos.squares, p) && OnBoard(s) && IsDir(d)
    ensures Distinct(out)
    ensures forall m :: m in out <==> Lands(p, s, pos.turn, m) && Toward(s, m.to) == d && Lined(p, s, m.to)
  {
    out := [];
    var t := Plus(s, d);
    ghost var n: nat := 0;
    while OnBoard(t)
      invariant t == Walk(s, d, n + 1) && EmptyUpTo(p, s, d, n + 1)
      invariant Listed(p, s, d, pos.turn, n, out)
      decreases 8 - n
    {
      OneStep(s, d, n + 1);
      var tp := pos.squares[Idx(t)];
      assert tp == At(pos.squares, t);
      if tp.Some? {
        if tp.value.color != pos.turn {
          ListMore(p, s, d, pos.turn, n, out);
          out := out + [Move(s, t, None, true, None, NoCastle, false, false, false)];
          n := n + 1;
        }
        assert Stopped(p, s, d, pos.turn, n);
        break;
      }
      ListMore(p, s, d, pos.turn, n, out);
      out := out + [Move(s, t, None, false, None, NoCastle, false, false, false)];
      t, n := Plus(t, d), n + 1;
    }
    RayComplete(p, s, d, pos.turn, n, out);
  }

  lemma OneStep(s: Square, d: Dir, n: nat)
    requires OnBoard(s) && IsDir(d) && OnBoard(Walk(s, d, n))
    ensures Plus(Walk(s, d, n), d) == Walk(s, d, n + 1) && n < 8
  {
  }

  lemma ListMore(p: Placement, s: Square, d: Dir, c: Color, n: nat, out: seq<Move>)
    requires Listed(p, s, d, c, n, out) && EmptyUpTo(p, s, d, n + 1)
    requires OnBoard(Walk(s, d, n + 1)) && Free(p, Walk(s, d, n + 1), c)
    ensures Listed(p, s, d, c, n + 1, out + [Plain(p, s, Walk(s, d, n + 1))])
    ensures Walk(s, d, n + 1) !in p ==> EmptyUpTo(p, s, d, n + 2)
  {
  }

  lemma RayComplete(p: Placement, s: Square, d: Dir, c: Color, n: nat, out: seq<Move>)
    requires OnBoard(s) && IsDir(d) && Listed(p, s, d, c, n, out) && Stopped(p, s, d, c, n)
    ensures Distinct(out)
    ensures forall m :: m in out <==> Lands(p, s, c, m) && Toward(s, m.to) == d && Lined(p, s, m.to)
  {
    forall m | m in out ensures Lands(p, s, c, m) && Toward(s, m.to) == d && Lined(p, s, m.to) {
      var j :| 0 <= j < |out| && out[j] == m;
      assert m == Plain(p, s, Walk(s, d, j + 1));
      WalkIsLine(s, d, j + 1);
    }
    forall m | Lands(p, s, c, m) && Toward(s, m.to) == d && Lined(p, s, m.to) ensures m in out {
      var j := Distance(s, m.to);
      if n < j { Beyond(p, s, d, c, n, m.to); }
      assert out[j - 1] == Plain(p, s, Walk(s, d, j));
    }
    forall j, k | 0 <= j < k < |out| ensures out[j] != out[k] {
      WalkIsLine(s, d, j + 1);
      WalkIsLine(s, d, k + 1);
    }
  }

  // Past the end of a stopped ray nothing can be reached.
  lemma Beyond(p: Placement, s: Square, d: Dir, c: Color, n: nat, t: Square)
    requires OnBoard(s) && IsDir(d) && Stopped(p, s, d, c, n) && n < Distance(s, t) && Toward(s, t) == d
    requires Lined(p, s, t)
    ensures !OnBoard(t) || !Free(p, t, c)
  {
    if n + 1 < Distance(s, t) && !OnBoard(Walk(s, d, n + 1)) { LeavesBoard(s, d, n + 1, Distance(s, t)); }
  }

  lemma DistinctJoin(a: seq<Move>, b: seq<Move>)
    requires Distinct(a) && Distinct(b) && forall m :: m in a ==> m !in b
    ensures Distinct(a + b)
  {
    forall j, k | 0 <= j < k < |a + b| ensures (a + b)[j] != (a + b)[k] {
      if j < |a| <= k { assert a[j] in a && b[k - |a|] in b; }
    }
  }

  function DirsOf(k: Kind): seq<Dir> {
    (if k in {Rook, Queen} then ROOK else []) + (if k in {Bishop, Queen} then BISHOP else [])
  }

  lemma DirsOfKind(k: Kind)
    requires k in SLIDERS
    ensures forall d :: d in DirsOf(k) <==> IsDir(d) && Slides(k, d)
    ensures forall j :: 0 <= j < |DirsOf(k)| ==> DirsOf(k)[j] !in DirsOf(k)[..j]
  {
    forall d | IsDir(d) ensures (d in ROOK <==> Straight(d)) && (d in BISHOP <==> !Straight(d)) { DirListed(d); }
  }

  lemma LinesAreSlides(p: Placement, s: Square, t: Square)
    requires s in p && p[s].kind in SLIDERS && s != t
    ensures Attacks(p, s, t) <==> Toward(s, t) in DirsOf(p[s].kind) && Lined(p, s, t)
  {
    DirsOfKind(p[s].kind);
    if Lined(p, s, t) { WalkIsLine(s, Toward(s, t), Distance(s, t)); }
  }

  method SliderMoves(pos: Position, s: Square, ghost p: Placement) returns (out: seq<Move>)
    requires Depicts(pos.squares, p) && s in p && p[s].color == pos.turn && p[s].kind in SLIDERS
    ensures Distinct(out)
    ensures forall m :: m in out <==> Lands(p, s, pos.turn, m) && Attacks(p, s, m.to)
  {
    var dirs := DirsOf(pos.squares[Idx(s)].value.kind);
    DirsOfKind(p[s].kind);
    out := [];
    for k := 0 to |dirs|
      invariant Distinct(out)
      invariant forall m :: m in out <==> Lands(p, s, pos.turn, m) && Toward(s, m.to) in dirs[..k] && Lined(p, s, m.to)
    {
      assert dirs[k] in dirs;
      assert dirs[..k + 1] == dirs[..k] + [dirs[k]];
      var ray := RayMoves(pos, s, dirs[k], p);
      DistinctJoin(out, ray);
      out := out + ray;
    }
    assert dirs[..|dirs|] == dirs;
    forall m | Lands(p, s, pos.turn, m)
      ensures Attacks(p, s, m.to) <==> Toward(s, m.to) in DirsOf(p[s].kind) && Lined(p, s, m.to)
    {
      LinesAreSlides(p, s, m.to);
    }
  }

  method KingSteps(pos: Position, s: Square, ghost p: Placement) returns (out: seq<Move>)
    requires Depicts(pos.squares, p) && OnBoard(s)
    ensures Distinct(out)
    ensures forall m :: m in out <==> Lands(p, s, pos.turn, m) && IsDir(Minus(m.to, s))
  {
    out := [];
    for df := -1 to 2
      invariant Distinct(out)
      invariant forall m :: m in out <==>
          Lands(p, s, pos.turn, m) && IsDir(Minus(m.to, s)) && m.to.file - s.file < df
    {
      for dr := -1 to 2
        invariant Distinct(out)
        invariant forall m :: m in out <==>
            && Lands(p, s, pos.turn, m) && IsDir(Minus(m.to, s))
            && (m.to.file - s.file < df || (m.to.file - s.file == df && m.to.rank - s.rank < dr))
      {
        var t := Square(s.file + df, s.rank + dr);
        if (df != 0 || dr != 0) && OnBoard(t) {
          var tp := pos.squares[Idx(t)];
          if tp.None? || tp.value.color != pos.turn {
            out := out + [Move(s, t, None, tp.Some?, None, NoCastle, false, false, false)];
          }
        }
      }
    }
  }

  method Castles(pos: Position, s: Square, ghost p: Placement) returns (out: seq<Move>)
    requires Depicts(pos.squares, p) && OnBoard(s)
    ensures Distinct(out)
    ensures forall m :: m in out <==> s == Square(4, HomeRank(pos.turn)) && CastleRule(pos, p, m)
  {
    out := [];
    var r, enemy := HomeRank(pos.turn), pos.turn.Other();
    if s != Square(4, r) { return; }
    var check := PgnAttack.Attacked(pos.squares, s, enemy, p);
    if check { return; }
    if RightOf(pos.turn, KingSide) in pos.castling
      && pos.squares[Idx(Square(5, r))].None? && pos.squares[Idx(Square(6, r))].None?
    {
      var a := PgnAttack.Attacked(pos.squares, Square(5, r), enemy, p);
      var b := PgnAttack.Attacked(pos.squares, Square(6, r), enemy, p);
      if !a && !b {
        out := out + [Move(s, Square(6, r), None, false, None, KingSide, false, false, false)];
      }
    }
    assert forall m :: m in out <==> m.castle.KingSide? && CastleRule(pos, p, m);
    if RightOf(pos.turn, QueenSide) in pos.castling
      && pos.squares[Idx(Square(1, r))].None? && pos.squares[Idx(Square(2, r))].None?
      && pos.squares[Idx(Square(3, r))].None?
    {
      var a := PgnAttack.Attacked(pos.squares, Square(2, r), enemy, p);
      var b := PgnAttack.Attacked(pos.squares, Square(3, r), enemy, p);
      if !a && !b {
        out := out + [Move(s, Square(2, r), None, false, None, QueenSide, false, false, false)];
      }
    }
  }

  // A pawn's moves to one square: four promotions on the last rank, one move elsewhere
  function PawnTo(s: Square, t: Square, c: Color, capture: bool, ep: bool): seq<Move> {
    if t.rank == LastRank(c) then
      [Move(s, t, None, capture, Some(Queen), NoCastle, ep, false, false),
       Move(s, t, None, capture, Some(Rook), NoCastle, ep, false, false),
       Move(s, t, None, capture, Some(Bishop), NoCastle, ep, false, false),
       Move(s, t, None, capture, Some(Knight), NoCastle, ep, false, false)]
    else [Move(s, t, None, capture, None, NoCastle, ep, false, false)]
  }

  lemma PawnToMoves(s: Square, t: Square, c: Color, capture: bool, ep: bool)
    ensures Distinct(PawnTo(s, t, c, capture, ep))
    ensures forall m :: m in PawnTo(s, t, c, capture, ep) <==>
              && m.frm == s && m.to == t && Bare(m) && m.capture == capture && m.enPassant == ep
              && m.castle.NoCastle? && (m.promotion.Some? <==> t.rank == LastRank(c))
              && (m.promotion.Some? ==> m.promotion.value in OFFICERS)
  {
    forall m: Move | && m.frm == s && m.to == t && Bare(m) && m.capture == capture && m.enPassant == ep
               && m.castle.NoCastle? && (m.promotion.Some? <==> t.rank == LastRank(c))
               && (m.promotion.Some? ==> m.promotion.value in OFFICERS)
      ensures m in PawnTo(s, t, c, capture, ep)
    {
      if t.rank == LastRank(c) {
        var l := PawnTo(s, t, c, capture, ep);
        assert m == l[0] || m == l[1] || m == l[2] || m == l[3];
      }
    }
  }

  ghost predicate PawnMove(pos: Position, p: Placement, s: Square, m: Move)
    requires s in p
  {
    m.frm == s && OnBoard(m.to) && Bare(m) && PawnRule(pos, p, m)
  }

  method PawnAdvances(pos: Position, s: Square, ghost p: Placement) returns (out: seq<Move>)
    requires Depicts(pos.squares, p) && s in p && p[s] == Piece(pos.turn, Pawn)
    ensures Distinct(out)
    ensures forall m :: m in out <==> PawnMove(pos, p, s, m) && !m.capture
  {
    var dr := Forward(pos.turn);
    var one, two := Square(s.file, s.rank + dr), Square(s.file, s.rank + 2 * dr);
    out := [];
    if OnBoard(one) && pos.squares[Idx(one)].None? {
      PawnToMoves(s, one, pos.turn, false, false);
      out := PawnTo(s, one, pos.turn, false, false);
      if one.rank != LastRank(pos.turn) && s.rank == PawnRank(pos.turn) && pos.squares[Idx(two)].None? {
        PawnToMoves(s, two, pos.turn, false, false);
        DistinctJoin(out, PawnTo(s, two, pos.turn, false, false));
        out := out + PawnTo(s, two, pos.turn, false, false);
      }
    }
  }

  method PawnCaptures(pos: Position, s: Square, ghost p: Placement) returns (out: seq<Move>)
    requires Depicts(pos.squares, p) && s in p && p[s] == Piece(pos.turn, Pawn)
    ensures Distinct(out)
    ensures forall m :: m in out <==> PawnMove(pos, p, s, m) && m.capture
  {
    out := [];
    var rank := s.rank + Forward(pos.turn);
    if !(1 <= rank <= 8) { return; }
    for k := 0 to 2
      invariant Distinct(out)
      invariant forall m :: m in out <==> PawnMove(pos, p, s, m) && m.capture && m.to.file - s.file < 2 * k - 1
    {
      var t := Square(s.file + [-1, 1][k], rank);
      if 0 <= t.file < 8 {
        var tp := pos.squares[Idx(t)];
        var ep := Idx(t) == pos.ep;
        if (tp.Some? && tp.value.color != pos.turn) || ep {
          PawnToMoves(s, t, pos.turn, true, ep);
          DistinctJoin(out, PawnTo(s, t, pos.turn, true, ep));
          out := out + PawnTo(s, t, pos.turn, true, ep);
        }
      }
    }
  }

  /** The body of the generation loop: every move of the piece on `s`. */
  method MovesFrom(pos: Position, s: Square, ghost p: Placement) returns (out: seq<Move>)
    requires Depicts(pos.squares, p) && OnBoard(s)
    ensures Distinct(out)
    ensures forall m :: m in out <==> m.frm == s && Pseudo(pos, p, m)
  {
    var man := pos.squares[Idx(s)];
    assert man == At(pos.squares, s);
    if man.None? || man.value.color != pos.turn { return []; }
    match man.value.kind {
      case Pawn =>
        out := PawnAdvances(pos, s, p);
        var captures := PawnCaptures(pos, s, p);
        DistinctJoin(out, captures);
        out := out + captures;
      case Knight =>
        out := KnightMoves(pos, s, p);
      case King =>
        out := KingSteps(pos, s, p);
        assert forall m :: m in out <==> Lands(p, s, pos.turn, m) && Attacks(p, s, m.to);
        var castles := Castles(pos, s, p);
        DistinctJoin(out, castles);
        out := out + castles;
      case _ =>
        out := SliderMoves(pos, s, p);
    }
  }

  method PseudoMoves(pos: Position, ghost p: Placement) returns (out: seq<Move>)
    requires Depicts(pos.squares, p)
    ensures Distinct(out)
    ensures forall m :: m in out <==> Pseudo(pos, p, m)
  {
    out := [];
    for i := 0 to 64
      invariant Distinct(out)
      invariant forall m :: m in out <==> Pseudo(pos, p, m) && Idx(m.frm) < i
    {
      IndexSquare(i);
      var s := SquareOf(i);
      assert forall q :: OnBoard(q) && Idx(q) == i ==> q == s;
      var more := MovesFrom(pos, s, p);
      DistinctJoin(out, more);
      out := out + more;
    }
  }
}
