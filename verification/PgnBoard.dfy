/** The board class of `ingest/pgn.py`. */
module PgnBoard {
  import opened Chess
  import opened PgnPosition
  import opened PgnRules
  import opened PgnGenerate
  import PgnAttack

  // The first index that holds this, as a list's own search finds it
  method FirstIndex(squares: seq<Cell>, man: Cell, ghost at: int) returns (i: int)
    requires 0 <= at < |squares| && squares[at] == man
    ensures 0 <= i < |squares| && squares[i] == man && forall j :: 0 <= j < i ==> squares[j] != man
  {
    i := 0;
    while squares[i] != man
      invariant 0 <= i <= at && forall j :: 0 <= j < i ==> squares[j] != man
      decreases |squares| - i
    {
      i := i + 1;
    }
  }

  class Board {
    var squares: seq<Cell>
    var turn: Color
    var castling: set<char>
    var ep: int

    constructor (squares: seq<Cell>, turn: Color, castling: set<char>, ep: int)
      ensures Pos() == Position(squares, turn, castling, ep)
    {
      this.squares, this.turn, this.castling, this.ep := squares, turn, castling, ep;
    }

    function Pos(): Position reads this {
      Position(squares, turn, castling, ep)
    }

    // A list search that fails without a king
    method KingSquare(side: Color) returns (k: Square)
      requires |squares| == 64 && exists s :: KingAt(Men(squares), s, side)
      ensures KingAt(Men(squares), k, side)
    {
      ghost var s :| KingAt(Men(squares), s, side);
      assert squares[Idx(s)] == Some(Piece(side, King));
      var i := FirstIndex(squares, Some(Piece(side, King)), Idx(s));
      IndexSquare(i);
      k := SquareOf(i);
      assert At(squares, k) == Some(Piece(side, King));
    }

    method Attacked(t: Square, side: Color) returns (hit: bool)
      requires |squares| == 64 && OnBoard(t)
      ensures hit <==> Chess.Attacked(Men(squares), t, side)
    {
      hit := PgnAttack.Attacked(squares, t, side, Men(squares));
    }

    method Apply(m: Move) returns (b: Board)
      requires Playable(Pos(), m)
      ensures fresh(b) && b.Pos() == Moved(Pos(), m)
    {
      b := new Board(squares, turn.Other(), castling, -1);
      var piece := squares[Idx(m.frm)].value;
      b.squares := b.squares[Idx(m.frm) := None];
      if m.enPassant {
        b.squares := b.squares[Idx(Passed(m.to, turn)) := None];
      }
      b.squares := b.squares[Idx(m.to) := Some(Arriving(m, piece))];
      var r := HomeRank(turn);
      if m.castle.KingSide? {
        b.squares := b.squares[Idx(Square(5, r)) := b.squares[Idx(Square(7, r))]];
        b.squares := b.squares[Idx(Square(7, r)) := None];
      } else if m.castle.QueenSide? {
        b.squares := b.squares[Idx(Square(3, r)) := b.squares[Idx(Square(0, r))]];
        b.squares := b.squares[Idx(Square(0, r)) := None];
      }
      var rights := KeptRights(castling, piece, m.frm, m.to);
      b.castling := rights;
      if piece.kind.Pawn? && Abs(Idx(m.to) - Idx(m.frm)) == 16 {
        b.ep := (Idx(m.to) + Idx(m.frm)) / 2;
      }
    }

    // Is the king of `side` attacked?
    method Checked(side: Color) returns (check: bool)
      requires |squares| == 64 && OneKing(Men(squares), side)
      ensures check <==> InCheck(Men(squares), side)
    {
      var k := KingSquare(side);
      check := Attacked(k, side.Other());
    }

    // Does a generated move leave its own king attacked?
    method LeavesCheck(m: Move) returns (check: bool)
      requires Sound(Pos()) && Pseudo(Pos(), Men(squares), Core(m))
      ensures check <==> !Legal(Pos(), Men(squares), Core(m))
    {
      ghost var p := Men(squares);
      PseudoPlayable(Pos(), p, Core(m));
      CoreMoves(Pos(), m);
      PseudoKeepsKings(Pos(), p, Core(m), Men(SquaresAfter(Pos(), Core(m))));
      var next := Apply(m);
      check := next.Checked(turn);
    }

    // One generated move, given its piece and kept unless it leaves the king in check
    method Consider(m: Move, ghost done: seq<Move>, legal: seq<Move>) returns (more: seq<Move>)
      requires Sound(Pos()) && Pseudo(Pos(), Men(squares), m) && Core(m) == m && m !in done
      requires Filtered(Pos(), Men(squares), done, legal)
      ensures Filtered(Pos(), Men(squares), done + [m], more)
    {
      PseudoPlayable(Pos(), Men(squares), m);
      var named := m.(piece := squares[Idx(m.frm)]);
      assert Core(named) == m;
      var check := LeavesCheck(named);
      FilteredMore(Pos(), Men(squares), done, legal, named);
      more := if check then legal else legal + [named];
    }

    // The legality filter
    method LegalUnmarked() returns (legal: seq<Move>)
      requires Sound(Pos())
      ensures Distinct(legal)
      ensures forall m :: m in legal <==> LegalNamed(Pos(), Men(squares), m)
    {
      ghost var pos, p := Pos(), Men(squares);
      var out := PseudoMoves(Pos(), p);
      legal := [];
      for k := 0 to |out|
        invariant Filtered(pos, p, out[..k], legal)
      {
        assert out[k] in out;
        assert out[..k + 1] == out[..k] + [out[k]] && out[k] !in out[..k];
        legal := Consider(out[k], out[..k], legal);
      }
      assert out[..|out|] == out;
    }

    // In these two, `isNamed` and `isMarked` stand for being listed and for being marked, whatever that takes.
    method MarkOne(m: Move, ghost isNamed: Move -> bool, ghost isMarked: Move -> bool) returns (n: Move)
      requires Sound(Pos()) && isNamed(m)
      requires forall x {:trigger LegalNamed(Pos(), Men(squares), x)} :: isNamed(x) ==>
                LegalNamed(Pos(), Men(squares), x)
      requires forall x {:trigger LegalMarked(Pos(), Men(squares), x)} :: LegalMarked(Pos(), Men(squares), x) ==>
                isMarked(x)
      ensures Core(n) == Core(m) && isMarked(n)
    {
      assert LegalNamed(Pos(), Men(squares), m);
      n := Mark(m);
    }

    method MarkAll(legal: seq<Move>, ghost isNamed: Move -> bool, ghost isMarked: Move -> bool)
      returns (marked: seq<Move>)
      requires Sound(Pos()) && forall m :: m in legal ==> isNamed(m)
      requires forall x {:trigger LegalNamed(Pos(), Men(squares), x)} :: isNamed(x) ==>
                LegalNamed(Pos(), Men(squares), x)
      requires forall x {:trigger LegalMarked(Pos(), Men(squares), x)} :: LegalMarked(Pos(), Men(squares), x) ==>
                isMarked(x)
      ensures |marked| == |legal| && forall j :: 0 <= j < |legal| ==>
                Core(marked[j]) == Core(legal[j]) && isMarked(marked[j])
    {
      marked := [];
      for k := 0 to |legal|
        invariant |marked| == k
        invariant forall j :: 0 <= j < k ==> Core(marked[j]) == Core(legal[j]) && isMarked(marked[j])
      {
        assert legal[k] in legal;
        var m := MarkOne(legal[k], isNamed, isMarked);
        marked := marked + [m];
      }
    }

    /** Exactly the legal moves, each once. */
    method LegalMoves() returns (marked: seq<Move>)
      requires Sound(Pos())
      ensures Distinct(marked)
      ensures forall m :: m in marked <==> LegalMarked(Pos(), Men(squares), m)
    {
      ghost var pos, p := Pos(), Men(squares);
      var legal := LegalUnmarked();
      marked := MarkAll(legal, m => LegalNamed(pos, p, m), m => LegalMarked(pos, p, m));
      MarkedComplete(pos, p, legal, marked);
    }

    // Notes whether a legal move gives check or mate
    method Mark(m: Move) returns (n: Move)
      requires Sound(Pos()) && LegalNamed(Pos(), Men(squares), m)
      ensures Core(n) == Core(m) && LegalMarked(Pos(), Men(squares), n)
    {
      ghost var pos := Pos();
      PseudoPlayable(pos, Men(squares), Core(m));
      CoreMoves(pos, m);
      LegalKeepsSound(pos, Core(m));
      var next := Apply(m);
      var check := next.Checked(turn.Other());
      n := m;
      if check {
        var replies := next.LegalUnmarked();
        NoReplies(next.Pos(), Men(next.squares), replies);
        n := m.(givesCheck := true, givesMate := replies == []);
      }
    }
  }

  // `legal` holds exactly the legal moves whose cores are in `done`.
  ghost predicate Filtered(pos: Position, p: Placement, done: seq<Move>, legal: seq<Move>)
    requires Depicts(pos.squares, p)
  {
    Distinct(legal) && forall m :: m in legal <==> LegalNamed(pos, p, m) && Core(m) in done
  }

  lemma FilteredMore(pos: Position, p: Placement, done: seq<Move>, legal: seq<Move>, m: Move)
    requires Depicts(pos.squares, p) && Filtered(pos, p, done, legal) && Core(m) !in done
    requires m.frm in p && m.piece == Some(p[m.frm]) && !m.givesCheck && !m.givesMate
    ensures Filtered(pos, p, done + [Core(m)], if Legal(pos, p, Core(m)) then legal + [m] else legal)
  {
    assert m !in legal;
    forall n | Core(n) == Core(m) && LegalNamed(pos, p, n) ensures n == m { }
  }

  lemma NoReplies(pos: Position, p: Placement, replies: seq<Move>)
    requires |pos.squares| == 64 && p == Men(pos.squares) && forall m :: m in replies <==> LegalNamed(pos, p, m)
    ensures replies == [] <==> !CanMove(pos)
  {
    if replies != [] {
      assert replies[0] in replies;
      assert Legal(pos, p, Core(replies[0]));
    }
    if CanMove(pos) {
      var m :| Legal(pos, p, m);
      var m2 := m.(piece := Some(p[m.frm]));
      assert Core(m2) == m;
      assert m2 in replies;
    }
  }

  lemma MarkedComplete(pos: Position, p: Placement, legal: seq<Move>, marked: seq<Move>)
    requires Depicts(pos.squares, p) && Distinct(legal) && |marked| == |legal|
    requires forall m :: m in legal <==> LegalNamed(pos, p, m)
    requires forall j :: 0 <= j < |legal| ==> Core(marked[j]) == Core(legal[j]) && LegalMarked(pos, p, marked[j])
    ensures Distinct(marked)
    ensures forall m :: m in marked <==> LegalMarked(pos, p, m)
  {
    var isNamed, isMarked := (m: Move) => LegalNamed(pos, p, m), (m: Move) => LegalMarked(pos, p, m);
    forall m | isMarked(m) ensures isNamed(Unmarked(m)) { assert Core(Unmarked(m)) == Core(m); }
    forall m, n | isMarked(m) && isMarked(n) && Core(m) == Core(n) ensures m == n { MarkedOnce(pos, p, m, n); }
    forall m, n | isNamed(m) && isNamed(n) && Core(m) == Core(n) ensures m == n { NamedOnce(pos, p, m, n); }
    MarkingComplete(isNamed, isMarked, legal, marked);
  }

  lemma NamedOnce(pos: Position, p: Placement, m: Move, n: Move)
    requires Depicts(pos.squares, p) && LegalNamed(pos, p, m) && LegalNamed(pos, p, n) && Core(m) == Core(n)
    ensures m == n
  {
  }

  function Unmarked(m: Move): Move { m.(givesCheck := false, givesMate := false) }

  // Marking one by one neither loses nor adds a move, when moves are known by their cores.
  lemma MarkingComplete(isNamed: Move -> bool, isMarked: Move -> bool, legal: seq<Move>, marked: seq<Move>)
    requires Distinct(legal) && |marked| == |legal| && forall m :: m in legal <==> isNamed(m)
    requires forall j :: 0 <= j < |legal| ==> Core(marked[j]) == Core(legal[j]) && isMarked(marked[j])
    requires forall m :: isMarked(m) ==> isNamed(Unmarked(m))
    requires forall m, n :: isMarked(m) && isMarked(n) && Core(m) == Core(n) ==> m == n
    requires forall m, n :: isNamed(m) && isNamed(n) && Core(m) == Core(n) ==> m == n
    ensures Distinct(marked) && forall m :: m in marked <==> isMarked(m)
  {
    forall m | isMarked(m) ensures m in marked {
      assert Core(Unmarked(m)) == Core(m) && Unmarked(m) in legal;
      var j :| 0 <= j < |legal| && legal[j] == Unmarked(m);
      assert Core(marked[j]) == Core(m);
    }
    forall j, k | 0 <= j < k < |marked| ensures marked[j] != marked[k] {
      assert legal[j] in legal && legal[k] in legal;
    }
  }

  // The castling-rights part of `Board.apply`
  method KeptRights(castling: set<char>, piece: Piece, frm: Square, to: Square) returns (rights: set<char>)
    ensures rights == set x | x in castling && !Ends(piece, frm, to, x)
  {
    rights := castling;
    if piece == Piece(White, King) {
      rights := rights - {'K', 'Q'};
    } else if piece == Piece(Black, King) {
      rights := rights - {'k', 'q'};
    }
    ghost var kept := rights;
    for k := 0 to |CORNERS|
      invariant rights == set x | x in kept && (frm, x) !in CORNERS[..k] && (to, x) !in CORNERS[..k]
    {
      var (corner, flag) := CORNERS[k];
      if frm == corner || to == corner {
        rights := rights - {flag};
      }
      assert CORNERS[..k + 1] == CORNERS[..k] + [CORNERS[k]];
    }
    assert CORNERS[..|CORNERS|] == CORNERS;
  }
}
