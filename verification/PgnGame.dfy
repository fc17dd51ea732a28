/** The game loop of `validate_pgn_game` (`ingest/pgn.py`) over parsed SAN tokens. */
module PgnGame {
  import opened Chess
  import opened PgnPosition
  import opened PgnRules
  import opened PgnGenerate
  import opened PgnBoard

  const BACK_RANK: seq<Kind> := [Rook, Knight, Bishop, Queen, King, Bishop, Knight, Rook]

  function InitialCell(s: Square): Cell
    requires OnBoard(s)
  {
    if s.rank == 1 then Some(Piece(White, BACK_RANK[s.file]))
    else if s.rank == 2 then Some(Piece(White, Pawn))
    else if s.rank == 7 then Some(Piece(Black, Pawn))
    else if s.rank == 8 then Some(Piece(Black, BACK_RANK[s.file]))
    else None
  }

  function InitialSquares(): (r: seq<Cell>)
    ensures |r| == 64
    ensures forall s :: OnBoard(s) ==> At(r, s) == InitialCell(s)
  {
    forall s | OnBoard(s) ensures 0 <= Idx(s) < 64 && SquareOf(Idx(s)) == s { SquareIndex(s); }
    seq(64, i requires 0 <= i < 64 => InitialCell(SquareOf(i)))
  }

  function Initial(): Position {
    Position(InitialSquares(), White, {'K', 'Q', 'k', 'q'}, -1)
  }

  // The men of the initial array
  ghost predicate StartMen(p: Placement) {
    forall s :: Look(p, s) == if OnBoard(s) then InitialCell(s) else None
  }

  lemma Stands(p: Placement, s: Square)
    requires StartMen(p)
    ensures s in p <==> OnBoard(s) && InitialCell(s).Some?
    ensures s in p ==> Some(p[s]) == InitialCell(s)
  {
    assert Look(p, s) == if OnBoard(s) then InitialCell(s) else None;
  }

  lemma StartKing(p: Placement, c: Color)
    requires StartMen(p)
    ensures KingAt(p, Square(4, HomeRank(c)), c)
    ensures forall s :: KingAt(p, s, c) ==> s == Square(4, HomeRank(c))
  {
    forall s ensures KingAt(p, s, c) <==> s == Square(4, HomeRank(c)) { Stands(p, s); }
  }

  // No white man attacks the black king, or is even in line with it, save the king.
  lemma Blocked(p: Placement, s: Square)
    requires StartMen(p) && s in p && p[s].color == White
    ensures !Attacks(p, s, Square(4, 8))
  {
    Stands(p, s);
  }

  lemma StartRights(p: Placement, c: Color, w: Wing)
    requires StartMen(p) && w != NoCastle
    ensures RightKept(p, c, w)
  {
    StartKing(p, c);
    Stands(p, RookFrom(c, w));
  }

  lemma StartQuiet(p: Placement)
    requires StartMen(p)
    ensures !InCheck(p, Black) && NoBackRankPawn(p)
  {
    StartKing(p, Black);
    forall s | s in p && p[s].color == White ensures !Attacks(p, s, Square(4, 8)) { Blocked(p, s); }
    forall s | s in p && p[s].kind.Pawn? ensures s.rank != 1 && s.rank != 8 { Stands(p, s); }
  }

  lemma StartSound(pos: Position, p: Placement)
    requires Depicts(pos.squares, p) && StartMen(p) && pos.turn == White && pos.ep == -1
    ensures SoundBoard(pos, p)
  {
    StartKing(p, White);
    StartKing(p, Black);
    StartQuiet(p);
    forall c, w | w != NoCastle ensures RightKept(p, c, w) { StartRights(p, c, w); }
  }

  /** The initial board is sound. */
  lemma InitialSound()
    ensures Sound(Initial())
  {
    var squares := InitialSquares();
    forall s ensures Look(Men(squares), s) == if OnBoard(s) then InitialCell(s) else None {
      assert Look(Men(squares), s) == At(squares, s);
    }
    StartSound(Initial(), Men(squares));
  }

  // ---------- choosing the move a SAN token names ----------

  datatype Suffix = NoSuffix | Check | Mate

  datatype San =
    | Castling(wing: Wing)
    | Step(piece: Kind, dest: Square, capture: bool, promotion: Option<Kind>,
           disFile: Option<int>, disRank: Option<int>, suffix: Suffix)

  predicate Matches(squares: seq<Cell>, san: San, m: Move)
    requires |squares| == 64
  {
    match san
    case Castling(wing) => !wing.NoCastle? && m.castle == wing
    case Step(piece, dest, capture, promotion, disFile, disRank, _) =>
      var man := At(squares, m.frm);
      && man.Some? && man.value.kind == piece && m.to == dest && m.castle.NoCastle?
      && m.promotion == promotion && m.capture == capture
      && (disFile.Some? ==> m.frm.file == disFile.value)
      && (disRank.Some? ==> m.frm.rank == disRank.value)
  }

  predicate SuffixTrue(san: San, m: Move) {
    san.Step? ==> (san.suffix.Check? ==> m.givesCheck) && (san.suffix.Mate? ==> m.givesMate)
  }

  ghost predicate Candidate(pos: Position, san: San, m: Move)
    requires |pos.squares| == 64
  {
    LegalMarked(pos, Men(pos.squares), m) && Matches(pos.squares, san, m)
  }

  // The token names exactly one legal move and claims no check or mate it does not give
  ghost predicate Selected(pos: Position, san: San, m: Move)
    requires |pos.squares| == 64
  {
    Candidate(pos, san, m) && SuffixTrue(san, m) && forall n :: Candidate(pos, san, n) ==> n == m
  }

  ghost predicate Names(pos: Position, san: San, m: Move) {
    |pos.squares| == 64 && Selected(pos, san, m)
  }

  ghost predicate Matched(pos: Position, san: San) {
    |pos.squares| == 64 && exists m :: Candidate(pos, san, m)
  }

  datatype Match = Chosen(m: Move) | IllegalMove | MalformedPGN

  // The moves a token matches
  method Filter(squares: seq<Cell>, san: San, legal: seq<Move>) returns (cands: seq<Move>)
    requires |squares| == 64 && Distinct(legal)
    ensures Distinct(cands)
    ensures forall m :: m in cands <==> m in legal && Matches(squares, san, m)
  {
    cands := [];
    for k := 0 to |legal|
      invariant Distinct(cands)
      invariant forall m :: m in cands <==> m in legal[..k] && Matches(squares, san, m)
    {
      assert legal[..k + 1] == legal[..k] + [legal[k]] && legal[k] !in legal[..k];
      if Matches(squares, san, legal[k]) { cands := cands + [legal[k]]; }
    }
    assert legal[..|legal|] == legal;
  }

  lemma CandidatesListed(pos: Position, san: San, legal: seq<Move>, cands: seq<Move>)
    requires |pos.squares| == 64
    requires forall m :: m in legal <==> LegalMarked(pos, Men(pos.squares), m)
    requires forall m :: m in cands <==> m in legal && Matches(pos.squares, san, m)
    ensures forall m :: m in cands <==> Candidate(pos, san, m)
  {
  }

  lemma Choice(pos: Position, san: San, cands: seq<Move>)
    requires |pos.squares| == 64 && Distinct(cands)
    requires forall m :: m in cands <==> Candidate(pos, san, m)
    ensures |cands| == 0 <==> !exists m :: Candidate(pos, san, m)
    ensures |cands| > 1 ==> !exists m :: Selected(pos, san, m)
    ensures |cands| == 1 ==> (Selected(pos, san, cands[0]) <==> SuffixTrue(san, cands[0]))
    ensures |cands| == 1 && !SuffixTrue(san, cands[0]) ==> !exists m :: Selected(pos, san, m)
  {
    if |cands| > 0 { assert cands[0] in cands; }
    if |cands| == 1 { OneFits(pos, san, cands[0]); }
    if |cands| > 1 {
      assert cands[1] in cands;
      TwoFit(pos, san, cands[0], cands[1]);
    }
  }

  lemma OneFits(pos: Position, san: San, m: Move)
    requires |pos.squares| == 64 && Candidate(pos, san, m) && forall n :: Candidate(pos, san, n) ==> n == m
    ensures Selected(pos, san, m) <==> SuffixTrue(san, m)
    ensures !SuffixTrue(san, m) ==> !exists n :: Selected(pos, san, n)
  {
  }

  lemma TwoFit(pos: Position, san: San, a: Move, b: Move)
    requires |pos.squares| == 64 && Candidate(pos, san, a) && Candidate(pos, san, b) && a != b
    ensures !exists n :: Selected(pos, san, n)
  {
  }

  method MatchSan(board: Board, san: San) returns (r: Match)
    requires Sound(board.Pos())
    ensures r.Chosen? ==> Names(board.Pos(), san, r.m)
    ensures r.IllegalMove? <==> !Matched(board.Pos(), san)
    ensures r.MalformedPGN? ==> forall m :: !Names(board.Pos(), san, m)
  {
    var legal := board.LegalMoves();
    var cands := Filter(board.squares, san, legal);
    CandidatesListed(board.Pos(), san, legal, cands);
    Choice(board.Pos(), san, cands);
    if cands == [] { return IllegalMove; }
    if |cands| > 1 { return MalformedPGN; }
    return if SuffixTrue(san, cands[0]) then Chosen(cands[0]) else MalformedPGN;
  }

  // ---------- whole games ----------

  datatype Game = Start | Then(game: Game, move: Move) {
    // The board after the game
    ghost function Last(): Position {
      match this
      case Start => Initial()
      case Then(g, m) => if Playable(g.Last(), m) then Moved(g.Last(), m) else g.Last()
    }

    // Every move was legal where it was played
    ghost predicate Legal() {
      match this
      case Start => true
      case Then(g, m) => g.Legal() && LegalOn(g.Last(), m)
    }

    // The tokens name the moves, in order
    ghost predicate Spells(sans: seq<San>) {
      match this
      case Start => sans == []
      case Then(g, m) => sans != [] && g.Spells(sans[..|sans| - 1]) && Names(g.Last(), sans[|sans| - 1], m)
    }
  }

  ghost predicate LegalOn(pos: Position, m: Move) {
    |pos.squares| == 64 && PgnRules.Legal(pos, Men(pos.squares), Core(m))
  }

  lemma StepSound(pos: Position, m: Move)
    requires Sound(pos) && LegalOn(pos, m)
    ensures Playable(pos, m) && Sound(Moved(pos, m))
  {
    LegalKeepsSound(pos, Core(m));
    CoreMoves(pos, m);
  }

  /** Every board of every game of legal moves is sound: one king a side, the side that moved not
      in check, rights with king and rook at home, a true en-passant target, no back-rank pawn. */
  lemma {:induction false} GameSound(g: Game)
    requires g.Legal()
    ensures Sound(g.Last())
  {
    if g.Start? {
      InitialSound();
    } else {
      GameSound(g.game);
      StepSound(g.game.Last(), g.move);
    }
  }

  /** In a game of legal moves no king can be taken by any generated move. */
  lemma KingsAreSafe(g: Game, m: Move)
    requires g.Legal()
    ensures |g.Last().squares| == 64
    ensures var p := Men(g.Last().squares);
            Pseudo(g.Last(), p, m) && m.to in p ==> p[m.to].kind != King
  {
    GameSound(g);
    var p := Men(g.Last().squares);
    if Pseudo(g.Last(), p, m) && m.to in p { NoKingCapture(g.Last(), p, m); }
  }

  /** A man keeps its side when it moves, but for a black pawn that promotes: the code stores the upper-case
      letter, which is a white piece. */
  lemma ArrivalColor(pos: Position, m: Move)
    requires Playable(pos, m) && m.castle.NoCastle? && pos.squares[Idx(m.frm)].value.color == pos.turn
    ensures var c := At(SquaresAfter(pos, m), m.to);
            c.Some? && (c.value.color == pos.turn <==> m.promotion.None? || pos.turn.White?)
  {
  }

  /** The tokens decide the game: it is the only one they spell. */
  lemma {:induction false} OneGame(g: Game, h: Game, sans: seq<San>)
    requires g.Spells(sans) && h.Spells(sans)
    ensures g == h && g.Legal()
  {
    if sans != [] {
      OneGame(g.game, h.game, sans[..|sans| - 1]);
    }
  }

  ghost predicate InSomeGame(sans: seq<San>) { exists h: Game :: h.Spells(sans) }

  // A game that spells a list with one token more
  lemma LastToken(h: Game, sans: seq<San>, san: San)
    requires h.Spells(sans + [san])
    ensures h.Then? && h.game.Spells(sans) && Names(h.game.Last(), san, h.move)
  {
    assert (sans + [san])[..|sans|] == sans;
  }

  lemma InGameBefore(sans: seq<San>, san: San)
    ensures InSomeGame(sans + [san]) ==> InSomeGame(sans)
  {
    if h: Game :| h.Spells(sans + [san]) { LastToken(h, sans, san); }
  }

  // What holds of a list whenever it holds of the list with one token more, holds of every prefix.
  lemma {:induction false} PrefixHolds(holds: seq<San> -> bool, sans: seq<San>, k: nat)
    requires forall s, x {:trigger holds(s + [x])} :: holds(s + [x]) ==> holds(s)
    requires holds(sans) && k <= |sans|
    ensures holds(sans[..k])
    decreases |sans|
  {
    if k < |sans| {
      var init := sans[..|sans| - 1];
      assert sans == init + [sans[|sans| - 1]] && init[..k] == sans[..k];
      PrefixHolds(holds, init, k);
    } else {
      assert sans[..k] == sans;
    }
  }

  lemma StopsThere(holds: seq<San> -> bool, sans: seq<San>, k: nat)
    requires forall s, x {:trigger holds(s + [x])} :: holds(s + [x]) ==> holds(s)
    requires k < |sans| && !holds(sans[..k] + [sans[k]])
    ensures !holds(sans)
  {
    assert sans[..k + 1] == sans[..k] + [sans[k]];
    if holds(sans) { PrefixHolds(holds, sans, k + 1); }
  }

  ghost function InGame(): seq<San> -> bool { s => InSomeGame(s) }

  // A token that names no move where the others lead stands in no game.
  lemma Unplayable(g: Game, sans: seq<San>, san: San)
    requires g.Spells(sans) && forall m :: !Names(g.Last(), san, m)
    ensures !InSomeGame(sans + [san])
  {
    if h: Game :| h.Spells(sans + [san]) {
      LastToken(h, sans, san);
      OneGame(h.game, g, sans);
    }
  }

  // Tokens played to the end are in a game; a token that names no move where the others lead is in none.
  lemma PlayedMeans(g: Game, sans: seq<San>, played: nat)
    requires played <= |sans| && g.Spells(sans[..played])
    requires played < |sans| ==> forall m :: !Names(g.Last(), sans[played], m)
    ensures InSomeGame(sans) <==> played == |sans|
  {
    if played == |sans| {
      assert sans[..played] == sans;
    } else {
      Unplayable(g, sans[..played], sans[played]);
      forall s, x ensures InGame()(s + [x]) ==> InGame()(s) { InGameBefore(s, x); }
      StopsThere(InGame(), sans, played);
    }
  }

  method PlayToken(board: Board, san: San, ghost g: Game) returns (r: Match, next: Board)
    requires g.Legal() && board.Pos() == g.Last()
    ensures r.Chosen? ==> Names(g.Last(), san, r.m) && LegalOn(g.Last(), r.m) && next.Pos() == Then(g, r.m).Last()
    ensures r.IllegalMove? <==> !Matched(g.Last(), san)
    ensures r.MalformedPGN? ==> forall m :: !Names(g.Last(), san, m)
  {
    assert Sound(board.Pos()) by { GameSound(g); }
    r := MatchSan(board, san);
    next := board;
    if r.Chosen? {
      assert Playable(board.Pos(), r.m) && LegalOn(board.Pos(), r.m) by { NamedIsPlayable(board.Pos(), san, r.m); }
      next := board.Apply(r.m);
    }
  }

  lemma NamedIsPlayable(pos: Position, san: San, m: Move)
    requires Sound(pos) && Names(pos, san, m)
    ensures Playable(pos, m) && LegalOn(pos, m)
  {
    StepSound(pos, m);
  }

  datatype Verdict = Accepted | Illegal | Malformed

  lemma SpellsMore(g: Game, sans: seq<San>, k: nat, m: Move)
    requires k < |sans| && g.Legal() && g.Spells(sans[..k]) && Names(g.Last(), sans[k], m) && LegalOn(g.Last(), m)
    ensures Then(g, m).Legal() && Then(g, m).Spells(sans[..k + 1])
  {
    assert sans[..k + 1][..k] == sans[..k];
  }

  /** The loop. It stops at the first token that names no legal move, and the game is illegal if no legal move
      matches that token. */
  method PlayMoves(sans: seq<San>) returns (r: Verdict, ghost g: Game, ghost played: nat)
    ensures g.Legal() && played <= |sans| && g.Spells(sans[..played])
    ensures r.Accepted? <==> played == |sans| > 0
    ensures played < |sans| ==> forall m :: !Names(g.Last(), sans[played], m)
    ensures r.Illegal? <==> played < |sans| && !Matched(g.Last(), sans[played])
  {
    g, played := Start, 0;
    var board := new Board(InitialSquares(), White, {'K', 'Q', 'k', 'q'}, -1);
    for k := 0 to |sans|
      invariant played == k && g.Legal() && g.Spells(sans[..k]) && board.Pos() == g.Last()
    {
      var found, next := PlayToken(board, sans[k], g);
      if !found.Chosen? {
        r := if found.IllegalMove? then Illegal else Malformed;
        return;
      }
      SpellsMore(g, sans, k, found.m);
      board := next;
      g, played := Then(g, found.m), k + 1;
    }
    r := if sans == [] then Malformed else Accepted;
  }

  /** A token list is accepted exactly when some game spells it, and the game is then legal. */
  method ValidateMoves(sans: seq<San>) returns (r: Verdict)
    ensures r.Accepted? <==> sans != [] && InSomeGame(sans)
  {
    ghost var g, played;
    r, g, played := PlayMoves(sans);
    PlayedMeans(g, sans, played);
  }
}
