/** What the moves of a game say about its last board (`ingest/pgn.py`): which castling rights are left. */
module PgnHistory {
  import opened Chess
  import opened PgnPosition
  import opened PgnRules
  import opened PgnGame

  // The moves of a game, in order
  function Moves(g: Game): seq<Move> { if g.Start? then [] else Moves(g.game) + [g.move] }

  // Nothing has left the king's home square, and nothing has left or entered the rook's corner.
  ghost predicate Undisturbed(g: Game, home: Square, corner: Square) {
    forall m :: m in Moves(g) ==> m.frm != home && m.frm != corner && m.to != corner
  }

  lemma UndisturbedMore(g: Game, m: Move, home: Square, corner: Square)
    ensures Undisturbed(Then(g, m), home, corner) <==>
              Undisturbed(g, home, corner) && m.frm != home && m.frm != corner && m.to != corner
  {
    assert m in Moves(Then(g, m));
    forall n | n in Moves(g) ensures n in Moves(Then(g, m)) { }
  }

  // A king that holds a right stands at home, so a move is the king's exactly when it leaves home.
  lemma KingLeaves(pos: Position, p: Placement, m: Move, c: Color, w: Wing)
    requires SoundBoard(pos, p) && w != NoCastle && RightOf(c, w) in pos.castling && m.frm in p
    ensures p[m.frm] == Piece(c, King) <==> m.frm == Square(4, HomeRank(c))
  {
    assert RightKept(p, c, w);
    assert KingAt(p, m.frm, c) <==> p[m.frm] == Piece(c, King);
  }

  lemma EndsWhen(piece: Piece, frm: Square, to: Square, c: Color, w: Wing)
    requires w != NoCastle && (piece == Piece(c, King) <==> frm == Square(4, HomeRank(c)))
    ensures Ends(piece, frm, to, RightOf(c, w)) <==>
              frm == Square(4, HomeRank(c)) || frm == RookFrom(c, w) || to == RookFrom(c, w)
  {
    CornersAre(frm, RightOf(c, w));
    CornersAre(to, RightOf(c, w));
  }

  // On a sound board a held right ends exactly when a move leaves home or touches the corner.
  lemma RightEnds(pos: Position, m: Move, c: Color, w: Wing)
    requires Sound(pos) && LegalOn(pos, m) && Playable(pos, m) && w != NoCastle
    ensures RightOf(c, w) in RightsAfter(pos, m) <==>
              && RightOf(c, w) in pos.castling
              && m.frm != Square(4, HomeRank(c)) && m.frm != RookFrom(c, w) && m.to != RookFrom(c, w)
  {
    if RightOf(c, w) in pos.castling {
      var p := Men(pos.squares);
      assert At(pos.squares, m.frm) == Some(p[m.frm]);
      KingLeaves(pos, p, m, c, w);
      EndsWhen(p[m.frm], m.frm, m.to, c, w);
    }
  }

  lemma CornersAre(corner: Square, x: char)
    requires x in {'K', 'Q', 'k', 'q'}
    ensures (corner, x) in CORNERS <==>
              corner == Square(if x in {'K', 'k'} then 7 else 0, if x in {'K', 'Q'} then 1 else 8)
  {
    assert CORNERS[0] == (Square(0, 1), 'Q') && CORNERS[1] == (Square(7, 1), 'K');
    assert CORNERS[2] == (Square(0, 8), 'q') && CORNERS[3] == (Square(7, 8), 'k');
  }

  lemma {:induction false} RightHistory(g: Game, c: Color, w: Wing, x: char, home: Square, corner: Square)
    requires g.Legal() && w != NoCastle
    requires x == RightOf(c, w) && home == Square(4, HomeRank(c)) && corner == RookFrom(c, w)
    ensures x in g.Last().castling <==> Undisturbed(g, home, corner)
  {
    if g.Then? {
      RightHistory(g.game, c, w, x, home, corner);
      GameSound(g.game);
      StepSound(g.game.Last(), g.move);
      RightEnds(g.game.Last(), g.move, c, w);
      UndisturbedMore(g.game, g.move, home, corner);
    }
  }

  /** Over every legal game, a castling right is held at the end exactly when no move has left the king's square and
      none has left or entered the rook's. */
  lemma CastlingHistory(g: Game)
    requires g.Legal()
    ensures 'K' in g.Last().castling <==> Undisturbed(g, Square(4, 1), Square(7, 1))
    ensures 'Q' in g.Last().castling <==> Undisturbed(g, Square(4, 1), Square(0, 1))
    ensures 'k' in g.Last().castling <==> Undisturbed(g, Square(4, 8), Square(7, 8))
    ensures 'q' in g.Last().castling <==> Undisturbed(g, Square(4, 8), Square(0, 8))
  {
    RightHistory(g, White, KingSide, 'K', Square(4, 1), Square(7, 1));
    RightHistory(g, White, QueenSide, 'Q', Square(4, 1), Square(0, 1));
    RightHistory(g, Black, KingSide, 'k', Square(4, 8), Square(7, 8));
    RightHistory(g, Black, QueenSide, 'q', Square(4, 8), Square(0, 8));
  }
}
