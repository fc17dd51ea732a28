/** The rules of movement and the invariant of every reachable board (`ingest/pgn.py`).
    A piece goes to a square it attacks (Article 3 of the FIDE Laws of Chess) unless its own
    side stands there; pawns and castling have rules of their own. */
module PgnRules {
  import opened Chess
  import opened PgnPosition

  predicate Enemy(p: Placement, t: Square, c: Color) { t in p && p[t].color != c }

  predicate Free(p: Placement, t: Square, c: Color) { t !in p || p[t].color != c }

  // A move as generated: its piece and its check marks are filled in later
  predicate Bare(m: Move) { m.piece.None? && !m.givesCheck && !m.givesMate }

  function Plain(p: Placement, s: Square, t: Square): Move {
    Move(s, t, None, t in p, None, NoCastle, false, false, false)
  }

  const OFFICERS: set<Kind> := {Queen, Rook, Bishop, Knight}

  ghost predicate PawnRule(pos: Position, p: Placement, m: Move)
    requires m.frm in p
  {
    && m.castle.NoCastle?
    && (m.promotion.Some? <==> m.to.rank == LastRank(pos.turn))
    && (m.promotion.Some? ==> m.promotion.value in OFFICERS)
    && if m.capture then
         && Attacks(p, m.frm, m.to)
         && (m.enPassant <==> Idx(m.to) == pos.ep)
         && (m.enPassant || Enemy(p, m.to, pos.turn))
       else
         && !m.enPassant && m.to.file == m.frm.file && m.to !in p
         && (|| m.to.rank == m.frm.rank + Forward(pos.turn)
             || (&& m.frm.rank == PawnRank(pos.turn)
                 && m.to.rank == m.frm.rank + 2 * Forward(pos.turn)
                 && Square(m.frm.file, m.frm.rank + Forward(pos.turn)) !in p))
  }

  ghost predicate PieceRule(pos: Position, p: Placement, m: Move)
    requires m.frm in p
  {
    m == Plain(p, m.frm, m.to) && Attacks(p, m.frm, m.to) && Free(p, m.to, pos.turn)
  }

  function RightOf(c: Color, w: Wing): char {
    if w.KingSide? then (if c.White? then 'K' else 'k') else (if c.White? then 'Q' else 'q')
  }

  // Article 3.8.2, with the king on its home square: right held, path empty, no square that the
  // king leaves, crosses or enters attacked
  ghost predicate MayCastle(pos: Position, p: Placement, w: Wing) {
    var r := HomeRank(pos.turn);
    && !w.NoCastle? && RightOf(pos.turn, w) in pos.castling
    && !Attacked(p, Square(4, r), pos.turn.Other())
    && if w.KingSide? then
         && Square(5, r) !in p && Square(6, r) !in p
         && !Attacked(p, Square(5, r), pos.turn.Other()) && !Attacked(p, Square(6, r), pos.turn.Other())
       else
         && Square(1, r) !in p && Square(2, r) !in p && Square(3, r) !in p
         && !Attacked(p, Square(2, r), pos.turn.Other()) && !Attacked(p, Square(3, r), pos.turn.Other())
  }

  function CastleMove(c: Color, w: Wing): Move {
    var r := HomeRank(c);
    Move(Square(4, r), Square(if w.KingSide? then 6 else 2, r), None, false, None, w, false, false, false)
  }

  ghost predicate CastleRule(pos: Position, p: Placement, m: Move) {
    m == CastleMove(pos.turn, m.castle) && MayCastle(pos, p, m.castle)
  }

  /** `m` is a generated move of `pos`, king safety aside. */
  ghost predicate Pseudo(pos: Position, p: Placement, m: Move) {
    && OnBoard(m.to) && m.frm in p && p[m.frm].color == pos.turn && Bare(m)
    && match p[m.frm].kind
       case Pawn => PawnRule(pos, p, m)
       case King => PieceRule(pos, p, m) || CastleRule(pos, p, m)
       case _ => PieceRule(pos, p, m)
  }

  function RookFrom(c: Color, w: Wing): Square { Square(if w.KingSide? then 7 else 0, HomeRank(c)) }

  function RookTo(c: Color, w: Wing): Square { Square(if w.KingSide? then 5 else 3, HomeRank(c)) }

  ghost predicate RightKept(p: Placement, c: Color, w: Wing) {
    && KingAt(p, Square(4, HomeRank(c)), c)
    && RookFrom(c, w) in p && p[RookFrom(c, w)] == Piece(c, Rook)
  }

  ghost predicate RightsSound(pos: Position, p: Placement) {
    forall c, w :: w != NoCastle && RightOf(c, w) in pos.castling ==> RightKept(p, c, w)
  }

  // The target was skipped by the last move: empty, the enemy pawn just past it, its origin empty
  ghost predicate EpAt(pos: Position, p: Placement, e: Square) {
    var f := Forward(pos.turn);
    && OnBoard(e) && e.rank == PawnRank(pos.turn.Other()) - f && e !in p
    && Square(e.file, e.rank - f) in p && p[Square(e.file, e.rank - f)] == Piece(pos.turn.Other(), Pawn)
    && Square(e.file, e.rank + f) !in p
  }

  ghost predicate EpSound(pos: Position, p: Placement) {
    pos.ep == -1 || exists e :: Idx(e) == pos.ep && EpAt(pos, p, e)
  }

  ghost predicate NoBackRankPawn(p: Placement) {
    forall s :: s in p && p[s].kind.Pawn? ==> s.rank != 1 && s.rank != 8
  }

  /** What the move core relies on and never checks. */
  ghost predicate SoundBoard(pos: Position, p: Placement) {
    && Depicts(pos.squares, p)
    && OneKing(p, White) && OneKing(p, Black)
    && !InCheck(p, pos.turn.Other())
    && RightsSound(pos, p) && EpSound(pos, p) && NoBackRankPawn(p)
  }

  ghost predicate Sound(pos: Position) {
    |pos.squares| == 64 && SoundBoard(pos, Men(pos.squares))
  }

  lemma PseudoPlayable(pos: Position, p: Placement, m: Move)
    requires Depicts(pos.squares, p) && Pseudo(pos, p, m)
    ensures Playable(pos, m)
  {
  }

  /** `m` may be played: a generated move after which its own king is not attacked. */
  ghost predicate Legal(pos: Position, p: Placement, m: Move)
    requires Depicts(pos.squares, p)
  {
    Pseudo(pos, p, m) && (PseudoPlayable(pos, p, m); !InCheck(Men(SquaresAfter(pos, m)), pos.turn))
  }

  // ---------- the invariant is kept ----------

  /** No generated move captures a king: a square it captures on is a square it attacks. */
  lemma NoKingCapture(pos: Position, p: Placement, m: Move)
    requires SoundBoard(pos, p) && Pseudo(pos, p, m) && m.to in p
    ensures p[m.to].color != pos.turn && p[m.to].kind != King
  {
    if m.castle.NoCastle? {
      assert Attacks(p, m.frm, m.to);
      assert !KingAt(p, m.to, pos.turn.Other());
    }
  }

  // What a generated move of `c` does on a sound board, attacks and paths left out
  ghost predicate Tame(c: Color, p: Placement, m: Move) {
    && OnBoard(m.frm) && OnBoard(m.to) && m.frm in p && p[m.frm].color == c && m.frm != m.to
    && (m.to in p ==> p[m.to].color != c && p[m.to].kind != King)
    && (m.promotion.Some? ==> p[m.frm].kind.Pawn? && m.promotion.value in OFFICERS)
    && (p[m.frm].kind.Pawn? ==> (m.promotion.Some? <==> m.to.rank == LastRank(c)) && m.to.rank != HomeRank(c))
    && (m.enPassant ==>
          && p[m.frm].kind.Pawn? && m.castle.NoCastle?
          && Passed(m.to, c) in p && p[Passed(m.to, c)] == Piece(c.Other(), Pawn))
    && (!m.castle.NoCastle? ==>
          && p[m.frm].kind.King? && m.frm == Square(4, HomeRank(c)) && RightKept(p, c, m.castle)
          && m.to == CastleMove(c, m.castle).to && m.to !in p && RookTo(c, m.castle) !in p)
  }

  lemma PseudoTame(pos: Position, p: Placement, m: Move)
    requires SoundBoard(pos, p) && Pseudo(pos, p, m)
    ensures Tame(pos.turn, p, m)
  {
    if m.to in p { NoKingCapture(pos, p, m); }
  }

  /** What stands on `s` after a move: the piece that arrives, nothing where a piece left or was
      taken in passing, a castling rook beside its king, and elsewhere what stood there before. */
  function AfterAt(c: Color, p: Placement, m: Move, s: Square): Cell
    requires m.frm in p
  {
    if s == m.to then Some(Arriving(m, p[m.frm]))
    else if s == m.frm || (m.enPassant && s == Passed(m.to, c)) then None
    else if m.castle.NoCastle? then Look(p, s)
    else if s == RookTo(c, m.castle) then Some(Piece(c, Rook))
    else if s == RookFrom(c, m.castle) then None
    else Look(p, s)
  }

  ghost predicate Outcome(c: Color, p: Placement, m: Move, q: Placement)
    requires m.frm in p
  {
    forall s :: Look(q, s) == AfterAt(c, p, m, s)
  }

  // The same on the mailbox: one square after a move without castling, and after castling
  lemma SquareAfter(pos: Position, p: Placement, m: Move, s: Square)
    requires Depicts(pos.squares, p) && Tame(pos.turn, p, m) && Playable(pos, m) && m.castle.NoCastle?
    ensures At(SquaresAfter(pos, m), s) == AfterAt(pos.turn, p, m, s)
  {
  }

  lemma SquareCastled(pos: Position, p: Placement, m: Move, s: Square)
    requires Depicts(pos.squares, p) && Tame(pos.turn, p, m) && Playable(pos, m) && !m.castle.NoCastle?
    ensures At(SquaresAfter(pos, m), s) == AfterAt(pos.turn, p, m, s)
  {
  }

  lemma AfterMove(pos: Position, p: Placement, m: Move, q: Placement)
    requires Depicts(pos.squares, p) && Tame(pos.turn, p, m)
    requires Playable(pos, m) && Depicts(SquaresAfter(pos, m), q)
    ensures Outcome(pos.turn, p, m, q)
  {
    forall s ensures Look(q, s) == AfterAt(pos.turn, p, m, s) {
      if m.castle.NoCastle? { SquareAfter(pos, p, m, s); } else { SquareCastled(pos, p, m, s); }
    }
  }

  lemma KingsKept(c: Color, p: Placement, m: Move, q: Placement, side: Color)
    requires Tame(c, p, m) && Outcome(c, p, m, q) && OneKing(p, side)
    ensures OneKing(q, side)
  {
    var k :| KingAt(p, k, side) && forall x :: KingAt(p, x, side) ==> x == k;
    var k' := if k == m.frm then m.to else k;
    forall x ensures KingAt(q, x, side) <==> x == k' {
      assert Look(q, x) == AfterAt(c, p, m, x);
      assert KingAt(p, x, side) <==> x == k;
      assert KingAt(p, m.frm, side) <==> m.frm == k;
    }
    assert KingAt(q, k', side);
  }

  lemma BackRanksKept(c: Color, p: Placement, m: Move, q: Placement)
    requires Tame(c, p, m) && Outcome(c, p, m, q) && NoBackRankPawn(p)
    ensures NoBackRankPawn(q)
  {
    forall s | s in q && q[s].kind.Pawn? ensures s.rank != 1 && s.rank != 8 {
      assert Look(q, s) == AfterAt(c, p, m, s);
    }
  }

  lemma RightsKept(pos: Position, p: Placement, m: Move, q: Placement)
    requires Depicts(pos.squares, p) && RightsSound(pos, p) && Playable(pos, m)
    requires Tame(pos.turn, p, m) && Outcome(pos.turn, p, m, q)
    ensures RightsSound(Moved(pos, m), q)
  {
    forall c, w | w != NoCastle && RightOf(c, w) in RightsAfter(pos, m) ensures RightKept(q, c, w) {
      var x, corner, home := RightOf(c, w), RookFrom(c, w), Square(4, HomeRank(c));
      assert RightKept(p, c, w);
      assert (corner, x) in CORNERS by {
        assert CORNERS[0] == (Square(0, 1), 'Q') && CORNERS[1] == (Square(7, 1), 'K');
        assert CORNERS[2] == (Square(0, 8), 'q') && CORNERS[3] == (Square(7, 8), 'k');
      }
      assert m.frm != home && m.to != home && m.frm != corner && m.to != corner;
      assert Look(q, home) == AfterAt(pos.turn, p, m, home);
      assert Look(q, corner) == AfterAt(pos.turn, p, m, corner);
    }
  }

  // Sixteen indices apart: a pawn has gone two squares forward over an empty one.
  lemma DoubleStep(pos: Position, p: Placement, m: Move)
    requires SoundBoard(pos, p) && Pseudo(pos, p, m) && p[m.frm].kind.Pawn?
    requires Chess.Abs(Idx(m.to) - Idx(m.frm)) == 16
    ensures m.promotion.None? && !m.enPassant && m.castle.NoCastle? && m.frm.file == m.to.file
    ensures m.frm.rank == PawnRank(pos.turn) && m.to.rank == m.frm.rank + 2 * Forward(pos.turn)
    ensures Square(m.frm.file, m.frm.rank + Forward(pos.turn)) !in p
  {
  }

  lemma EpKept(pos: Position, p: Placement, m: Move, q: Placement)
    requires SoundBoard(pos, p) && Pseudo(pos, p, m) && Playable(pos, m) && Outcome(pos.turn, p, m, q)
    ensures EpSound(Moved(pos, m), q)
  {
    if EpAfter(pos, m) != -1 {
      DoubleStep(pos, p, m);
      var e := Square(m.frm.file, m.frm.rank + Forward(pos.turn));
      assert Look(q, e) == AfterAt(pos.turn, p, m, e);
      assert Look(q, m.to) == AfterAt(pos.turn, p, m, m.to);
      assert Look(q, m.frm) == AfterAt(pos.turn, p, m, m.frm);
      assert Idx(e) == EpAfter(pos, m) && EpAt(Moved(pos, m), q, e);
    }
  }

  /** Even before king safety is looked at, a generated move leaves one king a side. */
  lemma PseudoKeepsKings(pos: Position, p: Placement, m: Move, q: Placement)
    requires SoundBoard(pos, p) && Pseudo(pos, p, m)
    requires Playable(pos, m) && Depicts(SquaresAfter(pos, m), q)
    ensures OneKing(q, White) && OneKing(q, Black)
  {
    PseudoTame(pos, p, m);
    AfterMove(pos, p, m, q);
    KingsKept(pos.turn, p, m, q, White);
    KingsKept(pos.turn, p, m, q, Black);
  }

  /** A legal move leads from a sound board to a sound board. */
  lemma LegalKeepsSound(pos: Position, m: Move)
    requires Sound(pos) && Legal(pos, Men(pos.squares), m)
    ensures Playable(pos, m) && Sound(Moved(pos, m))
  {
    var p := Men(pos.squares);
    PseudoPlayable(pos, p, m);
    var q := Men(SquaresAfter(pos, m));
    PseudoKeepsKings(pos, p, m, q);
    PseudoTame(pos, p, m);
    AfterMove(pos, p, m, q);
    BackRanksKept(pos.turn, p, m, q);
    RightsKept(pos, p, m, q);
    EpKept(pos, p, m, q);
  }

  // ---------- moves with their piece and check marks ----------

  function Core(m: Move): Move { m.(piece := None, givesCheck := false, givesMate := false) }

  lemma CoreMoves(pos: Position, m: Move)
    requires Playable(pos, Core(m))
    ensures Playable(pos, m) && Moved(pos, m) == Moved(pos, Core(m))
  {
  }

  ghost predicate CanMove(pos: Position)
    requires |pos.squares| == 64
  {
    exists m :: Legal(pos, Men(pos.squares), m)
  }

  // `m` is a legal move with its piece filled in
  ghost predicate LegalNamed(pos: Position, p: Placement, m: Move)
    requires Depicts(pos.squares, p)
  {
    Legal(pos, p, Core(m)) && m.piece == Some(p[m.frm]) && !m.givesCheck && !m.givesMate
  }

  // ... and marked when it gives check, or mate: check and no legal reply
  ghost predicate LegalMarked(pos: Position, p: Placement, m: Move)
    requires Depicts(pos.squares, p)
  {
    && Legal(pos, p, Core(m)) && m.piece == Some(p[m.frm])
    && (PseudoPlayable(pos, p, Core(m));
        var next := Moved(pos, Core(m));
        && (m.givesCheck <==> InCheck(Men(next.squares), next.turn))
        && (m.givesMate <==> m.givesCheck && !CanMove(next)))
  }

  lemma MarkedOnce(pos: Position, p: Placement, m: Move, n: Move)
    requires Depicts(pos.squares, p) && LegalMarked(pos, p, m) && LegalMarked(pos, p, n) && Core(m) == Core(n)
    ensures m == n
  {
  }
}
