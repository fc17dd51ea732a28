/** The importer's boards as FEN positions: what a game of legal moves leads to, the parser of `graph/fen.py` takes
    (`ingest/pgn.py`). */
module PgnToFen {
  import opened Chess
  import opened PgnPosition
  import opened PgnRules
  import opened PgnGame
  import opened Material
  import opened Text
  import Fen
  import FenAttack
  import FenPlacement

  // ---------- the men of a side after a move ----------

  lemma InWhere(p: Placement, man: Piece, s: Square)
    ensures s in Where(p, man) <==> Look(p, s) == Some(man)
  {
  }

  // A tame move whose capture in passing ends on an empty square, and whose promotion is White's
  ghost predicate Fair(c: Color, p: Placement, m: Move) {
    Tame(c, p, m) && (m.enPassant ==> m.to !in p) && (m.promotion.Some? ==> c.White?)
  }

  // The man that a move takes
  function Captured(c: Color, p: Placement, m: Move): Option<Square> {
    if m.enPassant then Some(Passed(m.to, c)) else if m.to in p then Some(m.to) else None
  }

  lemma TakenMan(c: Color, p: Placement, m: Move)
    requires Fair(c, p, m) && Captured(c, p, m).Some?
    ensures var s := Captured(c, p, m).value; s in p && p[s].color == c.Other() && p[s].kind != King
  {
  }

  // Of the other side, only the man taken goes.
  lemma OtherMen(c: Color, p: Placement, m: Move, q: Placement, k: Kind)
    requires Fair(c, p, m) && Outcome(c, p, m, q)
    ensures var taken := Captured(c, p, m);
            |Where(q, Piece(c.Other(), k))| == |Where(p, Piece(c.Other(), k))| -
              if taken.Some? && Look(p, taken.value) == Some(Piece(c.Other(), k)) then 1 else 0
  {
    var man, taken := Piece(c.Other(), k), Captured(c, p, m);
    if taken.Some? { TakenMan(c, p, m); }
    forall s ensures s in Where(q, man) <==> s in Where(p, man) && taken != Some(s) { OtherAt(c, p, m, q, man, s); }
    if taken.Some? && Look(p, taken.value) == Some(man) {
      assert Where(q, man) == Where(p, man) - {taken.value};
    } else {
      assert Where(q, man) == Where(p, man);
    }
  }

  lemma OtherAt(c: Color, p: Placement, m: Move, q: Placement, man: Piece, s: Square)
    requires Fair(c, p, m) && Outcome(c, p, m, q) && man.color == c.Other()
    ensures s in Where(q, man) <==> s in Where(p, man) && Captured(c, p, m) != Some(s)
  {
    assert Look(q, s) == AfterAt(c, p, m, s);
    InWhere(p, man, s);
    InWhere(q, man, s);
    if m.enPassant { TakenMan(c, p, m); }
    if !m.castle.NoCastle? { assert RightKept(p, c, m.castle); }
  }

  // Of the mover's side, a pawn becomes an officer when it promotes, and no other number changes.
  lemma MoverMen(c: Color, p: Placement, m: Move, q: Placement, k: Kind)
    requires Fair(c, p, m) && Outcome(c, p, m, q)
    ensures |Where(q, Piece(c, k))| == |Where(p, Piece(c, k))| +
              (if m.promotion == Some(k) then 1 else 0) - if m.promotion.Some? && k.Pawn? then 1 else 0
  {
    var man, from, to := Piece(c, k), Where(p, Piece(c, k)), Where(q, Piece(c, k));
    forall s ensures s in to <==> MoverHas(c, p, m, man, s) { MoverAt(c, p, m, q, man, s); }
    if m.castle.NoCastle? {
      MovedSet(c, p, m, man, to);
    } else {
      CastledSet(c, p, m, man, to);
    }
  }

  lemma MovedSet(c: Color, p: Placement, m: Move, man: Piece, to: set<Square>)
    requires Fair(c, p, m) && m.castle.NoCastle? && man.color == c
    requires forall s :: s in to <==> MoverHas(c, p, m, man, s)
    ensures |to| == |Where(p, man)| +
              (if m.promotion == Some(man.kind) then 1 else 0) - if m.promotion.Some? && man.kind.Pawn? then 1 else 0
  {
    var from, gone, come := Where(p, man), {m.frm}, if Arriving(m, p[m.frm]) == man then {m.to} else {};
    assert m.to !in from;
    assert to == (from - gone) + come && (from - gone) * come == {};
    assert |to| == |from - gone| + |come|;
    if p[m.frm] == man {
      assert |from - gone| == |from| - 1;
    } else {
      assert from - gone == from;
    }
  }

  lemma CastledSet(c: Color, p: Placement, m: Move, man: Piece, to: set<Square>)
    requires Fair(c, p, m) && !m.castle.NoCastle? && man.color == c
    requires forall s :: s in to <==> MoverHas(c, p, m, man, s)
    ensures |to| == |Where(p, man)| && m.promotion.None?
  {
    var from := Where(p, man);
    assert RightKept(p, c, m.castle);
    if man.kind.Rook? {
      Swapped(from, RookFrom(c, m.castle), RookTo(c, m.castle), to);
    } else if man.kind.King? {
      Swapped(from, m.frm, m.to, to);
    } else {
      assert to == from;
    }
  }

  lemma Swapped(from: set<Square>, a: Square, b: Square, to: set<Square>)
    requires a in from && b !in from && forall s :: s in to <==> s == b || (s in from && s != a)
    ensures |to| == |from|
  {
    assert to == (from - {a}) + {b};
  }

  // Where the men of the mover's side stand after the move
  predicate MoverHas(c: Color, p: Placement, m: Move, man: Piece, s: Square)
    requires m.frm in p
  {
    if s == m.to then Arriving(m, p[m.frm]) == man
    else if !m.castle.NoCastle? && s == RookTo(c, m.castle) then man.kind.Rook?
    else s in Where(p, man) && s != m.frm && (m.castle.NoCastle? || s != RookFrom(c, m.castle))
  }

  lemma MoverAt(c: Color, p: Placement, m: Move, q: Placement, man: Piece, s: Square)
    requires Fair(c, p, m) && Outcome(c, p, m, q) && man.color == c
    ensures s in Where(q, man) <==> MoverHas(c, p, m, man, s)
  {
    assert Look(q, s) == AfterAt(c, p, m, s);
    InWhere(p, man, s);
    InWhere(q, man, s);
    if m.enPassant { TakenMan(c, p, m); }
  }

  // ---------- careers over a game ----------

  // Black's promotions aside, which the importer makes to white men
  ghost predicate NoBlackPromotion(g: Game) {
    g.Then? ==> NoBlackPromotion(g.game) && (g.game.Last().turn.Black? ==> g.move.promotion.None?)
  }

  lemma TargetEmpty(pos: Position, p: Placement, m: Move)
    requires SoundBoard(pos, p) && Pseudo(pos, p, m) && m.enPassant
    ensures m.to !in p
  {
    var e :| Idx(e) == pos.ep && EpAt(pos, p, e);
    SquareIndex(e);
    SquareIndex(m.to);
  }

  lemma StepCareer(pos: Position, m: Move, c: Color, career: Career) returns (more: Career)
    requires Sound(pos) && LegalOn(pos, m) && Playable(pos, m) && (m.promotion.Some? ==> pos.turn.White?)
    requires Musters(Men(pos.squares), c, career)
    ensures Musters(Men(SquaresAfter(pos, m)), c, more)
  {
    var p, q := Men(pos.squares), Men(SquaresAfter(pos, m));
    CoreMoves(pos, m);
    PseudoTame(pos, p, Core(m));
    if m.enPassant { TargetEmpty(pos, p, Core(m)); }
    AfterMove(pos, p, Core(m), q);
    more := MoveCareer(pos.turn, p, Core(m), q, c, career);
  }

  lemma MoveCareer(turn: Color, p: Placement, m: Move, q: Placement, c: Color, career: Career) returns (more: Career)
    requires Fair(turn, p, m) && Outcome(turn, p, m, q) && Musters(p, c, career)
    ensures Musters(q, c, more)
  {
    if c == turn {
      more := OwnCareer(turn, p, m, q, career);
    } else {
      more := OtherCareer(turn, p, m, q, career);
    }
  }

  lemma OwnCareer(c: Color, p: Placement, m: Move, q: Placement, career: Career) returns (more: Career)
    requires Fair(c, p, m) && Outcome(c, p, m, q) && Musters(p, c, career)
    ensures Musters(q, c, more)
  {
    more := career;
    if m.promotion.Some? {
      PawnThere(p, m.frm, c);
      more := Promoted(career, m.promotion.value);
    }
    forall k ensures |Where(q, Piece(c, k))| == more.Count(k) { MoverMen(c, p, m, q, k); }
  }

  lemma OtherCareer(turn: Color, p: Placement, m: Move, q: Placement, career: Career) returns (more: Career)
    requires Fair(turn, p, m) && Outcome(turn, p, m, q) && Musters(p, turn.Other(), career)
    ensures Musters(q, turn.Other(), more)
  {
    var taken := Captured(turn, p, m);
    more := career;
    if taken.Some? {
      TakenMan(turn, p, m);
      ManThere(p, taken.value);
      more := Lost(career, p[taken.value].kind);
    }
    forall k ensures |Where(q, Piece(turn.Other(), k))| == more.Count(k) { OtherMen(turn, p, m, q, k); }
  }

  lemma ManThere(p: Placement, s: Square)
    requires s in p
    ensures |Where(p, p[s])| > 0
  {
    assert s in Where(p, p[s]);
  }

  lemma PawnThere(p: Placement, s: Square, c: Color)
    requires s in p && p[s] == Piece(c, Pawn)
    ensures |Where(p, Piece(c, Pawn))| > 0
  {
    ManThere(p, s);
  }

  /** Over every legal game without a black promotion, the men of each side are what losses and promotions have left. */
  lemma {:induction false} GameCareer(g: Game, c: Color) returns (career: Career)
    requires g.Legal() && NoBlackPromotion(g)
    ensures |g.Last().squares| == 64 && Musters(Men(g.Last().squares), c, career)
  {
    GameSound(g);
    if g.Start? {
      career := Enlisted;
      StartArmy(c);
    } else {
      GameSound(g.game);
      StepSound(g.game.Last(), g.move);
      var before := GameCareer(g.game, c);
      career := StepCareer(g.game.Last(), g.move, c, before);
    }
  }

  // The files where this side's men of this kind begin
  function StartSquares(c: Color, k: Kind): set<Square> {
    var r := HomeRank(c);
    match k
    case King => {Square(4, r)}
    case Queen => {Square(3, r)}
    case Rook => {Square(0, r), Square(7, r)}
    case Knight => {Square(1, r), Square(6, r)}
    case Bishop => {Square(2, r), Square(5, r)}
    case Pawn => var h := PawnRank(c);
      {Square(0, h), Square(1, h), Square(2, h), Square(3, h), Square(4, h), Square(5, h), Square(6, h), Square(7, h)}
  }

  lemma StartArmy(c: Color)
    ensures Musters(Men(InitialSquares()), c, Enlisted)
  {
    var p := Men(InitialSquares());
    forall k ensures |Where(p, Piece(c, k))| == Initially(k) {
      forall s ensures s in Where(p, Piece(c, k)) <==> s in StartSquares(c, k) { StartAt(p, c, k, s); }
      assert Where(p, Piece(c, k)) == StartSquares(c, k);
      StartCount(c, k);
    }
  }

  lemma StartCount(c: Color, k: Kind)
    ensures |StartSquares(c, k)| == Initially(k)
  {
  }

  lemma StartAt(p: Placement, c: Color, k: Kind, s: Square)
    requires Depicts(InitialSquares(), p)
    ensures s in Where(p, Piece(c, k)) <==> s in StartSquares(c, k)
  {
    InWhere(p, Piece(c, k), s);
    assert Look(p, s) == At(InitialSquares(), s);
    if OnBoard(s) { InitialAt(c, k, s); }
  }

  lemma InitialAt(c: Color, k: Kind, s: Square)
    requires OnBoard(s)
    ensures InitialCell(s) == Some(Piece(c, k)) <==> s in StartSquares(c, k)
  {
    if s.rank == HomeRank(c) { BackRank(s.file); }
  }

  lemma BackRank(f: int)
    requires 0 <= f < 8
    ensures BACK_RANK[f] == King <==> f == 4
    ensures BACK_RANK[f] == Queen <==> f == 3
    ensures BACK_RANK[f] == Rook <==> f == 0 || f == 7
    ensures BACK_RANK[f] == Knight <==> f == 1 || f == 6
    ensures BACK_RANK[f] == Bishop <==> f == 2 || f == 5
    ensures BACK_RANK[f] != Pawn
  {
  }

  // ---------- the position of a board ----------

  function RightsOf(castling: set<char>): string {
    (if 'K' in castling then "K" else "") + (if 'Q' in castling then "Q" else "") +
    (if 'k' in castling then "k" else "") + (if 'q' in castling then "q" else "")
  }

  ghost function FenOf(pos: Position, half: nat, full: nat): Fen.Fen
    requires |pos.squares| == 64
  {
    Fen.Fen(Men(pos.squares), pos.turn, RightsOf(pos.castling), if pos.ep == -1 then None else Some(SquareOf(pos.ep)),
            half, full)
  }

  lemma RightsCanonical(castling: set<char>)
    ensures Fen.Canonical(RightsOf(castling)) == RightsOf(castling)
    ensures forall x :: x in RightsOf(castling) ==> x in castling && x in {'K', 'Q', 'k', 'q'}
  {
  }

  lemma RightsHome(pos: Position, p: Placement, x: char)
    requires RightsSound(pos, p) && x in pos.castling && x in {'K', 'Q', 'k', 'q'}
    ensures Fen.RightAtHome(p, x)
  {
    var c, w := if x in {'K', 'Q'} then White else Black, if x in {'K', 'k'} then KingSide else QueenSide;
    assert RightOf(c, w) == x;
    assert RightKept(p, c, w);
  }

  lemma TargetPossible(pos: Position, p: Placement)
    requires EpSound(pos, p) && pos.ep != -1
    ensures EpAt(pos, p, SquareOf(pos.ep))
  {
    var e :| Idx(e) == pos.ep && EpAt(pos, p, e);
    SquareIndex(e);
  }

  lemma KingsStandApart(pos: Position, p: Placement)
    requires SoundBoard(pos, p)
    ensures Fen.KingsApart(p)
  {
    forall a, b | KingAt(p, a, White) && KingAt(p, b, Black)
      ensures Max(Abs(a.file - b.file), Abs(a.rank - b.rank)) > 1
    {
      if Max(Abs(a.file - b.file), Abs(a.rank - b.rank)) == 1 {
        assert Attacks(p, a, b) && Attacks(p, b, a);
        assert InCheck(p, pos.turn.Other());
      } else {
        assert a != b;
      }
    }
  }

  lemma TargetsFit(pos: Position, half: nat, full: nat)
    requires Sound(pos) && full >= 1
    ensures Fen.EpGrammar(FenOf(pos, half, full).ep)
    ensures Fen.EpPossible(FenOf(pos, half, full)) <==> (pos.ep != -1 ==> half == 0)
  {
    if pos.ep != -1 { TargetPossible(pos, Men(pos.squares)); }
  }

  lemma Grammar(pos: Position, half: nat, full: nat)
    requires Sound(pos) && full >= 1
    ensures Fen.Grammatical(FenOf(pos, half, full))
  {
    TargetsFit(pos, half, full);
    RightsCanonical(pos.castling);
  }

  lemma RightsFit(pos: Position, half: nat, full: nat)
    requires Sound(pos)
    ensures forall x :: x in FenOf(pos, half, full).rights ==> Fen.RightAtHome(Men(pos.squares), x)
  {
    RightsCanonical(pos.castling);
    forall x | x in RightsOf(pos.castling) ensures Fen.RightAtHome(Men(pos.squares), x) {
      RightsHome(pos, Men(pos.squares), x);
    }
  }

  lemma KingsFit(pos: Position, p: Placement)
    requires SoundBoard(pos, p)
    ensures OneKing(p, White) && OneKing(p, Black) && Fen.KingsApart(p) && Fen.BackRanksClear(p)
    ensures !InCheck(p, pos.turn.Other())
  {
    KingsStandApart(pos, p);
  }

  /** A sound board spells an acceptable position exactly when its men pass the material check, with a clock of zero
      behind a double step. */
  lemma SoundPossible(pos: Position, half: nat, full: nat)
    requires Sound(pos) && full >= 1
    ensures Fen.Accepted(FenOf(pos, half, full)) <==>
              && Fen.MaterialOk(Men(pos.squares), White) && Fen.MaterialOk(Men(pos.squares), Black)
              && (pos.ep != -1 ==> half == 0)
  {
    Grammar(pos, half, full);
    TargetsFit(pos, half, full);
    RightsFit(pos, half, full);
    KingsFit(pos, Men(pos.squares));
  }

  // The board of a position
  function BoardOf(board: Placement): (squares: seq<Cell>)
    ensures |squares| == 64 && forall i :: 0 <= i < 64 ==> squares[i] == Look(board, SquareOf(i))
  {
    seq(64, i => Look(board, SquareOf(i)))
  }

  function PosOf(f: Fen.Fen): Position {
    Position(BoardOf(f.board), f.color, set x | x in f.rights, if f.ep.None? then -1 else Idx(f.ep.value))
  }

  lemma BoardMen(board: Placement)
    requires FenAttack.Placed(board)
    ensures Men(BoardOf(board)) == board
  {
    var p := Men(BoardOf(board));
    forall s ensures Look(p, s) == Look(board, s) {
      assert Look(p, s) == At(BoardOf(board), s);
      if OnBoard(s) { SquareIndex(s); }
    }
    forall s ensures (s in p <==> s in board) && (s in p ==> p[s] == board[s]) { assert Look(p, s) == Look(board, s); }
  }

  lemma RightsBack(rights: string)
    requires Fen.Canonical(rights) == rights
    ensures RightsOf(set x | x in rights) == rights
  {
    var castling := set x | x in rights;
    forall x ensures x in castling <==> x in rights { }
  }

  lemma HomeKept(f: Fen.Fen, c: Color, w: Wing)
    requires w != NoCastle && Fen.RightAtHome(f.board, RightOf(c, w))
    ensures RightKept(f.board, c, w)
  {
  }

  lemma TargetSound(f: Fen.Fen)
    requires Fen.Grammatical(f) && Fen.EpPossible(f)
    ensures EpSound(PosOf(f), f.board)
  {
    if f.ep.Some? {
      SquareIndex(f.ep.value);
      assert EpAt(PosOf(f), f.board, f.ep.value);
    }
  }

  lemma PossibleSound(f: Fen.Fen)
    requires Fen.Accepted(f)
    ensures Sound(PosOf(f)) && FenOf(PosOf(f), f.half, f.full) == f
  {
    BoardMen(f.board);
    RightsBack(f.rights);
    TargetSound(f);
    if f.ep.Some? { SquareIndex(f.ep.value); }
    forall c, w | w != NoCastle && RightOf(c, w) in PosOf(f).castling
      ensures RightKept(f.board, c, w)
    {
      HomeKept(f, c, w);
    }
    assert BlackAndWhite(PosOf(f), f);
  }

  ghost predicate BlackAndWhite(pos: Position, f: Fen.Fen) {
    OneKing(f.board, White) && OneKing(f.board, Black) && !InCheck(f.board, pos.turn.Other())
  }

  // A sound board of this position, whose clock is zero behind a double step
  ghost predicate Stands(pos: Position, f: Fen.Fen) {
    Sound(pos) && FenOf(pos, f.half, f.full) == f && f.full >= 1 && (pos.ep != -1 ==> f.half == 0)
  }

  // The men of this side are what captures and promotions have left.
  ghost predicate Mustered(board: Placement, c: Color) { exists career :: Musters(board, c, career) }

  lemma AcceptedStands(f: Fen.Fen)
    requires Fen.Accepted(f)
    ensures Stands(PosOf(f), f) && Mustered(f.board, White) && Mustered(f.board, Black)
  {
    PossibleSound(f);
    MaterialMeans(f.board, White);
    MaterialMeans(f.board, Black);
    SoundPossible(PosOf(f), f.half, f.full);
  }

  lemma StandsAccepted(pos: Position, f: Fen.Fen)
    requires Stands(pos, f) && Mustered(f.board, White) && Mustered(f.board, Black)
    ensures Fen.Accepted(f)
  {
    KingsFit(pos, f.board);
    MaterialMeans(f.board, White);
    MaterialMeans(f.board, Black);
    SoundPossible(pos, f.half, f.full);
  }

  /** The positions the parser accepts are exactly those of sound boards whose men captures and promotions can have
      left, with a clock of zero behind a double step. */
  lemma PositionsExactly(f: Fen.Fen)
    ensures Fen.Accepted(f) <==> (exists pos :: Stands(pos, f)) && Mustered(f.board, White) && Mustered(f.board, Black)
  {
    if Fen.Accepted(f) { AcceptedStands(f); }
    if pos :| Stands(pos, f) && Mustered(f.board, White) && Mustered(f.board, Black) { StandsAccepted(pos, f); }
  }

  /** The two ends of the repository meet: what a legal game without a black promotion leads to is a position that the
      printer writes and the parser reads back. */
  lemma GamePossible(g: Game, half: nat, full: nat)
    requires g.Legal() && NoBlackPromotion(g) && full >= 1 && (g.Last().ep != -1 ==> half == 0)
    ensures |g.Last().squares| == 64
    ensures var f := FenOf(g.Last(), half, full); Fen.Accepted(f) && Fen.Parse(Fen.Emit(f)) == Fen.Parsed(f)
  {
    GameSound(g);
    var p := Men(g.Last().squares);
    var white := GameCareer(g, White);
    var black := GameCareer(g, Black);
    MaterialMeans(p, White);
    MaterialMeans(p, Black);
    SoundPossible(g.Last(), half, full);
    Fen.ParseOfEmit(FenOf(g.Last(), half, full));
  }

  // ---------- the initial position ----------

  // A row of letters is read man by man.
  lemma {:induction false} LettersRead(row: string, cells: seq<Cell>)
    requires |row| == |cells| && forall k :: 0 <= k < |row| ==>
              cells[k].Some? && cells[k] == FenPlacement.PieceOf(row[k])
    requires forall k :: 0 <= k < |row| ==> !FenPlacement.RunDigit(row[k])
    ensures FenPlacement.ScanRow(row) == FenPlacement.Scan(cells, false)
  {
    if row != "" {
      LettersRead(row[..|row| - 1], cells[..|row| - 1]);
      assert cells == cells[..|row| - 1] + [cells[|row| - 1]];
    }
  }

  lemma LettersEmit(row: string, cells: seq<Cell>)
    requires |row| == |cells| == 8 && forall k :: 0 <= k < 8 ==>
              cells[k].Some? && cells[k] == FenPlacement.PieceOf(row[k])
    requires forall k :: 0 <= k < 8 ==> !FenPlacement.RunDigit(row[k])
    ensures FenPlacement.EmitRow(cells) == row
  {
    LettersRead(row, cells);
    FenPlacement.RowRoundTrip(row, cells);
  }

  lemma EmptyEmit(cells: seq<Cell>)
    requires |cells| == 8 && forall k :: 0 <= k < 8 ==> cells[k] == None
    ensures FenPlacement.EmitRow(cells) == "8"
  {
    assert "8"[..0] == "" && "8"[0] == '8';
    assert FenPlacement.ScanRow("8").cells == cells;
    FenPlacement.RowRoundTrip("8", cells);
  }

  function StartRowText(r: int): string {
    match r case 8 => "rnbqkbnr" case 7 => "pppppppp" case 2 => "PPPPPPPP" case 1 => "RNBQKBNR" case _ => "8"
  }

  lemma StartCells(r: int, f: int)
    requires 1 <= r <= 8 && 0 <= f < 8
    ensures Fen.RowOf(Men(InitialSquares()), r)[f] == InitialCell(Square(f, r))
  {
    assert Look(Men(InitialSquares()), Square(f, r)) == At(InitialSquares(), Square(f, r));
  }

  lemma StartLetter(r: int, f: int)
    requires r in {1, 2, 7, 8} && 0 <= f < 8
    ensures InitialCell(Square(f, r)) == FenPlacement.PieceOf(StartRowText(r)[f])
    ensures InitialCell(Square(f, r)).Some? && !FenPlacement.RunDigit(StartRowText(r)[f])
  {
  }

  lemma StartRow(r: int)
    requires 1 <= r <= 8
    ensures FenPlacement.EmitRow(Fen.RowOf(Men(InitialSquares()), r)) == StartRowText(r)
  {
    var row := Fen.RowOf(Men(InitialSquares()), r);
    forall f | 0 <= f < 8 ensures row[f] == InitialCell(Square(f, r)) { StartCells(r, f); }
    if r in {1, 2, 7, 8} {
      forall f | 0 <= f < 8
        ensures row[f].Some? && row[f] == FenPlacement.PieceOf(StartRowText(r)[f])
      {
        StartLetter(r, f);
      }
      forall f | 0 <= f < 8 ensures !FenPlacement.RunDigit(StartRowText(r)[f]) { StartLetter(r, f); }
      LettersEmit(StartRowText(r), row);
    } else {
      EmptyEmit(row);
    }
  }

  function Behind(first: string, c: char, rest: string): string { first + [c] + rest }

  lemma JoinFirst(parts: seq<string>, c: char, first: string, rest: seq<string>, text: string)
    requires rest != [] && parts == [first] + rest && Join(rest, c) == text
    ensures Join(parts, c) == Behind(first, c, text)
  {
    assert parts[1..] == rest;
  }

  function StartPlacementText(): string {
    Behind("rnbqkbnr", '/', Behind("pppppppp", '/', Behind("8", '/', Behind("8", '/',
      Behind("8", '/', Behind("8", '/', Behind("PPPPPPPP", '/', "RNBQKBNR")))))))
  }

  // The standard text of the initial position
  function StartFen(): string {
    Behind(StartPlacementText(), ' ', Behind("w", ' ', Behind("KQkq", ' ', Behind("-", ' ', Behind("0", ' ', "1")))))
  }

  lemma JoinRows(rows: seq<string>)
    requires rows == ["rnbqkbnr", "pppppppp", "8", "8", "8", "8", "PPPPPPPP", "RNBQKBNR"]
    ensures Join(rows, '/') == StartPlacementText()
  {
    JoinFirst(rows[6..], '/', rows[6], rows[7..], rows[7]);
    JoinFirst(rows[5..], '/', rows[5], rows[6..], Join(rows[6..], '/'));
    JoinFirst(rows[4..], '/', rows[4], rows[5..], Join(rows[5..], '/'));
    JoinFirst(rows[3..], '/', rows[3], rows[4..], Join(rows[4..], '/'));
    JoinFirst(rows[2..], '/', rows[2], rows[3..], Join(rows[3..], '/'));
    JoinFirst(rows[1..], '/', rows[1], rows[2..], Join(rows[2..], '/'));
    JoinFirst(rows, '/', rows[0], rows[1..], Join(rows[1..], '/'));
  }

  lemma RowsWritten(board: Placement, texts: int -> string, rows: seq<string>)
    requires forall r :: 1 <= r <= 8 ==> FenPlacement.EmitRow(Fen.RowOf(board, r)) == texts(r)
    requires rows == [texts(8), texts(7), texts(6), texts(5), texts(4), texts(3), texts(2), texts(1)]
    ensures Fen.EmitRows(board) == rows
  {
  }

  lemma StartTexts(board: Placement, texts: int -> string)
    requires board == Men(InitialSquares()) && forall r :: texts(r) == StartRowText(r)
    ensures forall r :: 1 <= r <= 8 ==> FenPlacement.EmitRow(Fen.RowOf(board, r)) == texts(r)
  {
    forall r | 1 <= r <= 8 ensures FenPlacement.EmitRow(Fen.RowOf(board, r)) == texts(r) { StartRow(r); }
  }

  lemma StartJoined(texts: int -> string)
    requires forall r :: texts(r) == StartRowText(r)
    ensures Join([texts(8), texts(7), texts(6), texts(5), texts(4), texts(3), texts(2), texts(1)], '/') ==
            StartPlacementText()
  {
    assert texts(8) == "rnbqkbnr" && texts(7) == "pppppppp" && texts(2) == "PPPPPPPP" && texts(1) == "RNBQKBNR";
    JoinRows([texts(8), texts(7), texts(6), texts(5), texts(4), texts(3), texts(2), texts(1)]);
  }

  lemma StartPlacement()
    ensures Fen.EmitPlacement(Men(InitialSquares())) == StartPlacementText()
  {
    var texts := r => StartRowText(r);
    StartTexts(Men(InitialSquares()), texts);
    RowsWritten(Men(InitialSquares()), texts,
                [texts(8), texts(7), texts(6), texts(5), texts(4), texts(3), texts(2), texts(1)]);
    StartJoined(texts);
  }

  lemma StartRights()
    ensures RightsOf({'K', 'Q', 'k', 'q'}) == "KQkq" && Fen.RightsText("KQkq") == "KQkq"
    ensures Fen.ColorText(White) == "w" && Dec(0) == "0" && Dec(1) == "1"
  {
  }

  lemma StartFields(f: Fen.Fen)
    requires f == FenOf(Initial(), 0, 1)
    ensures Fen.EpGrammar(f.ep) && Fen.Fields(f) == [StartPlacementText(), "w", "KQkq", "-", "0", "1"]
  {
    StartPlacement();
    StartRights();
    assert f.rights == "KQkq" && f.color == White && f.ep == None && f.half == 0 && f.full == 1;
    assert f.board == Men(InitialSquares());
  }

  lemma StartEmit(parts: seq<string>)
    requires parts == [StartPlacementText(), "w", "KQkq", "-", "0", "1"]
    ensures Join(parts, ' ') == StartFen()
  {
    JoinFirst(parts[4..], ' ', parts[4], parts[5..], parts[5]);
    JoinFirst(parts[3..], ' ', parts[3], parts[4..], Join(parts[4..], ' '));
    JoinFirst(parts[2..], ' ', parts[2], parts[3..], Join(parts[3..], ' '));
    JoinFirst(parts[1..], ' ', parts[1], parts[2..], Join(parts[2..], ' '));
    JoinFirst(parts, ' ', parts[0], parts[1..], Join(parts[1..], ' '));
  }

  /** The standard text is the initial board: the parser reads it as the board where games start. */
  lemma StartText()
    ensures Fen.Parse(StartFen()) == Fen.Parsed(FenOf(Initial(), 0, 1))
  {
    var f := FenOf(Initial(), 0, 1);
    GamePossible(Start, 0, 1);
    StartFields(f);
    StartEmit(Fen.Fields(f));
  }
}
