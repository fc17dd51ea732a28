/** The PGN move core and the en-passant runtime agree: the same captures are legal, with the same
    result, and the same moves set a target. */
module PgnEnPassant {
  import opened Chess
  import opened PgnPosition
  import opened PgnRules
  import EnPassant

  function TargetOf(ep: int): EnPassant.Target {
    if ep == -1 then EnPassant.NoTarget else EnPassant.Target(SquareOf(ep))
  }

  function StateOf(pos: Position, p: Placement): EnPassant.State {
    EnPassant.State(TargetOf(pos.ep), p, pos.turn)
  }

  function Capture(frm: Square, to: Square): Move {
    Move(frm, to, None, true, None, NoCastle, true, false, false)
  }

  lemma TargetSquare(pos: Position, p: Placement)
    requires EpSound(pos, p) && pos.ep != -1
    ensures EpAt(pos, p, SquareOf(pos.ep)) && Idx(SquareOf(pos.ep)) == pos.ep
    ensures forall s :: OnBoard(s) && Idx(s) == pos.ep ==> s == SquareOf(pos.ep)
  {
    var e :| Idx(e) == pos.ep && EpAt(pos, p, e);
    SquareIndex(e);
  }

  // Square by square, the two results of a capture in passing are the same.
  lemma SameResult(pos: Position, p: Placement, frm: Square, to: Square, q: Placement)
    requires SoundBoard(pos, p) && Pseudo(pos, p, Capture(frm, to))
    requires Playable(pos, Capture(frm, to)) && Depicts(SquaresAfter(pos, Capture(frm, to)), q)
    ensures q == EnPassant.AfterCapture(p, pos.turn, frm, to)
  {
    var m := Capture(frm, to);
    PseudoTame(pos, p, m);
    AfterMove(pos, p, m, q);
    SameAfter(pos.turn, p, frm, to, q);
  }

  lemma SameAfter(c: Color, p: Placement, frm: Square, to: Square, q: Placement)
    requires frm in p && p[frm] == Piece(c, Pawn) && Outcome(c, p, Capture(frm, to), q)
    requires Square(to.file, EnPassant.MoverRank(c)) == Passed(to, c)
    ensures q == EnPassant.AfterCapture(p, c, frm, to)
  {
    var r := EnPassant.AfterCapture(p, c, frm, to);
    forall s ensures Look(q, s) == Look(r, s) {
      assert Look(q, s) == AfterAt(c, p, Capture(frm, to), s);
    }
    SamePlacement(q, r);
  }

  lemma SamePlacement(q: Placement, r: Placement)
    requires forall s :: Look(q, s) == Look(r, s)
    ensures q == r
  {
    forall s ensures (s in q <==> s in r) && (s in q ==> q[s] == r[s]) { assert Look(q, s) == Look(r, s); }
  }

  lemma SameClaims(pos: Position, p: Placement, frm: Square, to: Square)
    requires SoundBoard(pos, p)
    ensures EnPassant.Claimed(StateOf(pos, p), frm, to) <==> Pseudo(pos, p, Capture(frm, to))
  {
    if pos.ep != -1 { TargetSquare(pos, p); }
  }

  /** A capture in passing is legal in the PGN core exactly when the en-passant runtime accepts it. */
  lemma CapturesAgree(pos: Position, p: Placement, frm: Square, to: Square)
    requires SoundBoard(pos, p)
    ensures EnPassant.MayCapture(StateOf(pos, p), frm, to) <==> Legal(pos, p, Capture(frm, to))
  {
    SameClaims(pos, p, frm, to);
    if Pseudo(pos, p, Capture(frm, to)) {
      PseudoPlayable(pos, p, Capture(frm, to));
      SameResult(pos, p, frm, to, Men(SquaresAfter(pos, Capture(frm, to))));
    }
  }

  // The runtime's name for a move of the core
  function RuntimeMove(p: Placement, m: Move): EnPassant.EpMove
    requires m.frm in p
  {
    EnPassant.EpMove(
      if m.enPassant then EnPassant.EpCapture
      else if p[m.frm].kind.Pawn? && !m.capture then EnPassant.PawnAdvance
      else EnPassant.Quiet,
      m.frm, m.to)
  }

  lemma SameDoubleSteps(pos: Position, p: Placement, m: Move)
    requires SoundBoard(pos, p) && Pseudo(pos, p, m) && p[m.frm].kind.Pawn?
    ensures Chess.Abs(Idx(m.to) - Idx(m.frm)) == 16 <==>
              !m.enPassant && EnPassant.DoubleAdvance(StateOf(pos, p), RuntimeMove(p, m))
  {
    if Chess.Abs(Idx(m.to) - Idx(m.frm)) == 16 { DoubleStep(pos, p, m); }
  }

  /** The target after a move is the same on both sides. */
  lemma TargetsAgree(pos: Position, p: Placement, m: Move)
    requires SoundBoard(pos, p) && Pseudo(pos, p, m) && Playable(pos, m)
    ensures EnPassant.Next(StateOf(pos, p), RuntimeMove(p, m)).target == TargetOf(EpAfter(pos, m))
  {
    if p[m.frm].kind.Pawn? {
      SameDoubleSteps(pos, p, m);
      if Chess.Abs(Idx(m.to) - Idx(m.frm)) == 16 {
        DoubleStep(pos, p, m);
        var e := Square(m.frm.file, m.frm.rank + Forward(pos.turn));
        assert Idx(e) == EpAfter(pos, m);
        SquareIndex(e);
      }
    }
  }

  // A move that takes nothing in passing, castles not and promotes not carries one man over.
  lemma SameCarried(c: Color, p: Placement, m: Move, q: Placement)
    requires m.frm in p && Outcome(c, p, m, q) && m.frm != m.to
    requires !m.enPassant && m.castle.NoCastle? && m.promotion.None?
    ensures q == (p - {m.frm})[m.to := p[m.frm]]
  {
    var r := (p - {m.frm})[m.to := p[m.frm]];
    forall s ensures Look(q, s) == Look(r, s) { assert Look(q, s) == AfterAt(c, p, m, s); }
    SamePlacement(q, r);
  }

  lemma SameBoards(pos: Position, p: Placement, m: Move)
    requires SoundBoard(pos, p) && Pseudo(pos, p, m) && Playable(pos, m) && m.castle.NoCastle? && m.promotion.None?
    ensures EnPassant.Next(StateOf(pos, p), RuntimeMove(p, m)).occupied == Men(SquaresAfter(pos, m))
  {
    var q := Men(SquaresAfter(pos, m));
    PseudoTame(pos, p, m);
    AfterMove(pos, p, m, q);
    if m.enPassant {
      assert m == Capture(m.frm, m.to);
      TargetSquare(pos, p);
      SameAfter(pos.turn, p, m.frm, m.to, q);
    } else {
      SameCarried(pos.turn, p, m, q);
    }
  }

  /** Importer and runtime go through the same states: board, target and side to move after every legal move but
      castling and promotion, which the runtime does not have. */
  lemma StatesAgree(pos: Position, p: Placement, m: Move)
    requires SoundBoard(pos, p) && Legal(pos, p, m) && m.castle.NoCastle? && m.promotion.None?
    ensures Playable(pos, m)
    ensures EnPassant.Next(StateOf(pos, p), RuntimeMove(p, m)) == StateOf(Moved(pos, m), Men(SquaresAfter(pos, m)))
  {
    PseudoPlayable(pos, p, m);
    SameBoards(pos, p, m);
    TargetsAgree(pos, p, m);
    PseudoTame(pos, p, m);
  }
}
