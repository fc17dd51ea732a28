/** Positions of the PGN validator's move core (`ingest/pgn.py`) and the effect of a move. */
module PgnPosition {
  import opened Chess

  // Square indices of the mailbox: rank-major, a1 = 0
  function Idx(s: Square): int { (s.rank - 1) * 8 + s.file }

  function SquareOf(i: int): Square { Square(i % 8, i / 8 + 1) }

  lemma IndexSquare(i: int)
    requires 0 <= i < 64
    ensures OnBoard(SquareOf(i)) && Idx(SquareOf(i)) == i
  {
  }

  lemma SquareIndex(s: Square)
    requires OnBoard(s)
    ensures 0 <= Idx(s) < 64 && SquareOf(Idx(s)) == s
  {
  }

  // What stands on `s`, which need not be on the board
  function At(squares: seq<Cell>, s: Square): Cell
    requires |squares| == 64
  {
    if OnBoard(s) then squares[Idx(s)] else None
  }

  // `p` holds exactly the men of the mailbox
  ghost predicate Depicts(squares: seq<Cell>, p: Placement) {
    && |squares| == 64
    && forall s :: (s in p <==> At(squares, s).Some?) && (s in p ==> p[s] == At(squares, s).value)
  }

  // The occupied squares of a mailbox
  ghost function Men(squares: seq<Cell>): (p: Placement)
    requires |squares| == 64
    ensures Depicts(squares, p)
  {
    forall s: Square ensures s in SQUARES <==> OnBoard(s) { AllSquares(s); }
    map s | s in SQUARES && At(squares, s).Some? :: At(squares, s).value
  }

  datatype Wing = NoCastle | KingSide | QueenSide

  // Squares stand for their indices 0..63
  datatype Move = Move(
    frm: Square, to: Square, piece: Cell, capture: bool, promotion: Option<Kind>,
    castle: Wing, enPassant: bool, givesCheck: bool, givesMate: bool)

  // `ep` is a square index or -1; `castling` holds the letters of the rights still held
  datatype Position = Position(squares: seq<Cell>, turn: Color, castling: set<char>, ep: int)

  // ---------- making a move ----------

  function HomeRank(c: Color): int { if c.White? then 1 else 8 }

  function PawnRank(c: Color): int { if c.White? then 2 else 7 }

  function LastRank(c: Color): int { if c.White? then 8 else 1 }

  // The square of the pawn that an en-passant capture on `t` by `c` removes
  function Passed(t: Square, c: Color): Square { Square(t.file, t.rank - Forward(c)) }

  // A promotion stores the upper-case letter, which is a white piece, whoever promotes.
  function Arriving(m: Move, moved: Piece): Piece {
    if m.promotion.Some? then Piece(White, m.promotion.value) else moved
  }

  predicate Playable(pos: Position, m: Move) {
    && |pos.squares| == 64 && OnBoard(m.frm) && OnBoard(m.to) && pos.squares[Idx(m.frm)].Some?
    && (m.enPassant ==> OnBoard(Passed(m.to, pos.turn)))
  }

  function Put(squares: seq<Cell>, s: Square, c: Cell): seq<Cell>
    requires |squares| == 64 && OnBoard(s)
    ensures |Put(squares, s, c)| == 64
    ensures forall q :: At(Put(squares, s, c), q) == if q == s then c else At(squares, q)
  {
    squares[Idx(s) := c]
  }

  function SquaresAfter(pos: Position, m: Move): (r: seq<Cell>)
    requires Playable(pos, m)
    ensures |r| == 64
  {
    var lifted := Put(pos.squares, m.frm, None);
    var taken := if m.enPassant then Put(lifted, Passed(m.to, pos.turn), None) else lifted;
    var placed := Put(taken, m.to, Some(Arriving(m, pos.squares[Idx(m.frm)].value)));
    var r := HomeRank(pos.turn);
    match m.castle
    case NoCastle => placed
    case KingSide => Put(Put(placed, Square(5, r), At(placed, Square(7, r))), Square(7, r), None)
    case QueenSide => Put(Put(placed, Square(3, r), At(placed, Square(0, r))), Square(0, r), None)
  }

  const CORNERS: seq<(Square, char)> :=
    [(Square(0, 1), 'Q'), (Square(7, 1), 'K'), (Square(0, 8), 'q'), (Square(7, 8), 'k')]

  // The right that moving `piece` from `frm` to `to` ends: those of a moving king, and those of
  // a corner that is left or entered
  predicate Ends(piece: Piece, frm: Square, to: Square, x: char) {
    || (piece == Piece(White, King) && x in {'K', 'Q'})
    || (piece == Piece(Black, King) && x in {'k', 'q'})
    || (frm, x) in CORNERS || (to, x) in CORNERS
  }

  function RightsAfter(pos: Position, m: Move): set<char>
    requires Playable(pos, m)
  {
    set x | x in pos.castling && !Ends(pos.squares[Idx(m.frm)].value, m.frm, m.to, x)
  }

  function EpAfter(pos: Position, m: Move): int
    requires Playable(pos, m)
  {
    if pos.squares[Idx(m.frm)].value.kind.Pawn? && Abs(Idx(m.to) - Idx(m.frm)) == 16
    then (Idx(m.to) + Idx(m.frm)) / 2 else -1
  }

  function Moved(pos: Position, m: Move): Position
    requires Playable(pos, m)
  {
    Position(SquaresAfter(pos, m), pos.turn.Other(), RightsAfter(pos, m), EpAfter(pos, m))
  }
}
