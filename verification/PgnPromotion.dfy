/** Promotion as the code makes it: the promoted man is always a white one (`ingest/pgn.py`). What that changes in
    legality, and a game in which it happens. */
module PgnPromotion {
  import opened Chess
  import opened PgnPosition
  import opened PgnRules
  import opened PgnGame

  // ---------- promotion to a man of the mover's own ----------

  // The board after the move, with the promoted man of the mover's side (Article 3.7 of the FIDE Laws of Chess)
  function OwnSquares(pos: Position, m: Move): (r: seq<Cell>)
    requires Playable(pos, m)
    ensures |r| == 64
  {
    if m.promotion.Some? then Put(SquaresAfter(pos, m), m.to, Some(Piece(pos.turn, m.promotion.value)))
    else SquaresAfter(pos, m)
  }

  /** Legality when a pawn promotes to a man of its own side */
  ghost predicate OwnLegal(pos: Position, p: Placement, m: Move)
    requires Depicts(pos.squares, p)
  {
    Pseudo(pos, p, m) && (PseudoPlayable(pos, p, m); !InCheck(Men(OwnSquares(pos, m)), pos.turn))
  }

  // The two boards, with a white officer and with a black one on `t`
  ghost predicate Twins(q: Placement, f: Placement, t: Square, officer: Kind) {
    && officer in OFFICERS && t in q && t in f && q[t] == Piece(White, officer) && f[t] == Piece(Black, officer)
    && q.Keys == f.Keys && forall s :: s in q && s != t ==> q[s] == f[s]
  }

  lemma TwinKings(q: Placement, f: Placement, t: Square, officer: Kind, k: Square, c: Color)
    requires Twins(q, f, t, officer)
    ensures KingAt(q, k, c) <==> KingAt(f, k, c)
  {
  }

  lemma TwinAttacks(q: Placement, f: Placement, t: Square, officer: Kind, s: Square, k: Square)
    requires Twins(q, f, t, officer) && s in q && s != t
    ensures Attacks(q, s, k) <==> Attacks(f, s, k)
  {
    assert Clear(q, s, k) <==> Clear(f, s, k);
  }

  lemma TwinAttacked(q: Placement, f: Placement, t: Square, officer: Kind, k: Square)
    requires Twins(q, f, t, officer)
    ensures Attacked(q, k, White) <==> Attacked(f, k, White) || Attacks(q, t, k)
  {
    if s :| s in q && q[s].color == White && Attacks(q, s, k) {
      if s != t { TwinAttacks(q, f, t, officer, s, k); }
    }
    if s :| s in f && f[s].color == White && Attacks(f, s, k) { TwinAttacks(q, f, t, officer, s, k); }
  }

  // The white officer attacks the black king.
  ghost predicate Turncoat(q: Placement, t: Square) {
    t in q && exists k :: KingAt(q, k, Black) && Attacks(q, t, k)
  }

  lemma TwinCheck(q: Placement, f: Placement, t: Square, officer: Kind)
    requires Twins(q, f, t, officer)
    ensures InCheck(q, Black) <==> InCheck(f, Black) || Turncoat(q, t)
  {
    forall k ensures KingAt(q, k, Black) <==> KingAt(f, k, Black) { TwinKings(q, f, t, officer, k, Black); }
    forall k
      ensures Attacked(q, k, White) <==> Attacked(f, k, White) || Attacks(q, t, k)
    {
      TwinAttacked(q, f, t, officer, k);
    }
  }

  lemma PromotionTwins(pos: Position, p: Placement, m: Move)
    requires SoundBoard(pos, p) && Pseudo(pos, p, m) && Playable(pos, m) && m.promotion.Some? && pos.turn.Black?
    ensures Twins(Men(SquaresAfter(pos, m)), Men(OwnSquares(pos, m)), m.to, m.promotion.value)
  {
    PseudoTame(pos, p, m);
    var a, b := SquaresAfter(pos, m), OwnSquares(pos, m);
    var q, f := Men(a), Men(b);
    assert At(a, m.to) == Some(Piece(White, m.promotion.value)) && At(b, m.to) == Some(Piece(Black, m.promotion.value));
    forall s ensures (s in q <==> s in f) && (s in q && s != m.to ==> q[s] == f[s]) {
      assert s != m.to ==> At(a, s) == At(b, s);
    }
    assert q.Keys == f.Keys;
  }

  /** The code's legality is that of the Laws for every move but a black promotion; a black promotion it takes for
      legal exactly when it is and the promoted man, taken for White's, does not attack the black king. */
  lemma PromotionLegality(pos: Position, p: Placement, m: Move)
    requires SoundBoard(pos, p) && Pseudo(pos, p, m) && Playable(pos, m)
    ensures m.promotion.None? || pos.turn.White? ==> (Legal(pos, p, m) <==> OwnLegal(pos, p, m))
    ensures m.promotion.Some? && pos.turn.Black? ==>
              (Legal(pos, p, m) <==> OwnLegal(pos, p, m) && !Turncoat(Men(SquaresAfter(pos, m)), m.to))
  {
    if m.promotion.Some? && pos.turn.Black? {
      PromotionTwins(pos, p, m);
      TwinCheck(Men(SquaresAfter(pos, m)), Men(OwnSquares(pos, m)), m.to, m.promotion.value);
    } else if m.promotion.Some? {
      PseudoTame(pos, p, m);
      var a := SquaresAfter(pos, m);
      assert At(a, m.to) == Some(Piece(White, m.promotion.value));
      assert OwnSquares(pos, m) == a;
    }
  }

  // ---------- a game in which a black pawn becomes a white queen ----------

  // The board differs from the initial array just so.
  ghost predicate Differs(pos: Position, changes: map<Square, Cell>) {
    && |pos.squares| == 64
    && forall s :: OnBoard(s) ==> At(pos.squares, s) == if s in changes then changes[s] else InitialCell(s)
  }

  // No change beside this king, and none that brings in a knight or another king of that side
  ghost predicate Sheltered(changes: map<Square, Cell>, c: Color) {
    forall s :: s in changes ==>
      && OnBoard(s) && !(3 <= s.file <= 5 && s.rank in {HomeRank(c), PawnRank(c)})
      && (changes[s].Some? ==> !changes[s].value.kind.Knight? && changes[s].value != Piece(c, King))
  }

  ghost predicate Calm(changes: map<Square, Cell>) { Sheltered(changes, White) && Sheltered(changes, Black) }

  // Beside a king stand its own men only.
  ghost predicate Shelter(p: Placement, c: Color) {
    var k := Square(4, HomeRank(c));
    && (forall s :: KingAt(p, s, c) ==> s == k)
    && (forall s :: OnBoard(s) && Distance(s, k) == 1 ==> s in p && p[s].color == c)
    && forall s :: s in p && p[s].color == c.Other() ==>
         OnBoard(s) && s != k && (p[s].kind.Knight? ==> s.rank == HomeRank(c.Other()))
  }

  lemma ShelteredFrom(p: Placement, c: Color, s: Square)
    requires Shelter(p, c) && s in p && p[s].color == c.Other()
    ensures !Attacks(p, s, Square(4, HomeRank(c)))
  {
    var k := Square(4, HomeRank(c));
    if Aligned(p[s].kind, k.file - s.file, k.rank - s.rank) {
      var n := Distance(s, k);
      var beside := Walk(s, Toward(s, k), n - 1);
      assert OnBoard(beside) && Distance(beside, k) == 1;
      if n > 1 { assert beside in p; }
    }
  }

  lemma ShelterHolds(p: Placement, c: Color)
    requires Shelter(p, c)
    ensures !InCheck(p, c)
  {
    forall s | s in p && p[s].color == c.Other()
      ensures !Attacks(p, s, Square(4, HomeRank(c)))
    {
      ShelteredFrom(p, c, s);
    }
  }

  function CellAt(changes: map<Square, Cell>, s: Square): Cell
    requires OnBoard(s)
  {
    if s in changes then changes[s] else InitialCell(s)
  }

  lemma ShelterKing(changes: map<Square, Cell>, c: Color, s: Square)
    requires Sheltered(changes, c) && OnBoard(s) && CellAt(changes, s) == Some(Piece(c, King))
    ensures s == Square(4, HomeRank(c))
  {
  }

  lemma ShelterBeside(changes: map<Square, Cell>, c: Color, s: Square)
    requires Sheltered(changes, c) && OnBoard(s) && Distance(s, Square(4, HomeRank(c))) == 1
    ensures CellAt(changes, s).Some? && CellAt(changes, s).value.color == c
  {
    assert 3 <= s.file <= 5 && s.rank in {HomeRank(c), PawnRank(c)};
    assert s !in changes;
  }

  lemma ShelterOther(changes: map<Square, Cell>, c: Color, s: Square)
    requires Sheltered(changes, c) && OnBoard(s) && CellAt(changes, s).Some?
    requires CellAt(changes, s).value.color == c.Other()
    ensures s != Square(4, HomeRank(c))
    ensures CellAt(changes, s).value.kind.Knight? ==> s.rank == HomeRank(c.Other())
  {
    assert Square(4, HomeRank(c)) !in changes;
  }

  lemma DiffersShelter(pos: Position, changes: map<Square, Cell>, c: Color)
    requires Differs(pos, changes) && Sheltered(changes, c)
    ensures Shelter(Men(pos.squares), c)
  {
    var p := Men(pos.squares);
    forall s | KingAt(p, s, c) ensures s == Square(4, HomeRank(c)) {
      Stands(pos, changes, s);
      ShelterKing(changes, c, s);
    }
    forall s | OnBoard(s) && Distance(s, Square(4, HomeRank(c))) == 1 ensures s in p && p[s].color == c {
      Stands(pos, changes, s);
      ShelterBeside(changes, c, s);
    }
    forall s | s in p && p[s].color == c.Other()
      ensures OnBoard(s) && s != Square(4, HomeRank(c)) && (p[s].kind.Knight? ==> s.rank == HomeRank(c.Other()))
    {
      Stands(pos, changes, s);
      ShelterOther(changes, c, s);
    }
  }

  // What stands on the board, as its placement has it
  lemma Stands(pos: Position, changes: map<Square, Cell>, s: Square)
    requires Differs(pos, changes) && OnBoard(s)
    ensures Look(Men(pos.squares), s) == CellAt(changes, s) == At(pos.squares, s)
  {
  }

  // The changes that a move adds
  function Changed(changes: map<Square, Cell>, m: Move, man: Piece): map<Square, Cell> {
    changes[m.frm := None][m.to := Some(man)]
  }

  lemma MovedDiffers(pos: Position, m: Move, changes: map<Square, Cell>)
    requires Differs(pos, changes) && Playable(pos, m) && m.castle.NoCastle? && !m.enPassant
    ensures Differs(Moved(pos, m), Changed(changes, m, Arriving(m, pos.squares[Idx(m.frm)].value)))
  {
    var next := SquaresAfter(pos, m);
    var more := Changed(changes, m, Arriving(m, pos.squares[Idx(m.frm)].value));
    forall s | OnBoard(s) ensures At(next, s) == if s in more then more[s] else InitialCell(s) {
      assert At(pos.squares, s) == CellAt(changes, s);
    }
  }

  // On sheltered boards every generated move is legal.
  lemma ShelteredLegal(pos: Position, m: Move, more: map<Square, Cell>)
    requires |pos.squares| == 64 && Pseudo(pos, Men(pos.squares), m) && Playable(pos, m)
    requires Differs(Moved(pos, m), more) && Calm(more)
    ensures Legal(pos, Men(pos.squares), m)
  {
    DiffersShelter(Moved(pos, m), more, pos.turn);
    ShelterHolds(Men(SquaresAfter(pos, m)), pos.turn);
  }

  lemma Played(g: Game, m: Move)
    requires g.Legal() && LegalOn(g.Last(), m) && Playable(g.Last(), m)
    ensures Then(g, m).Legal() && Then(g, m).Last() == Moved(g.Last(), m)
  {
  }

  function Push(from: Square, to: Square): Move {
    Move(from, to, None, false, None, NoCastle, false, false, false)
  }

  // A pawn may go ahead to an empty square.
  ghost predicate Ahead(c: Color, changes: map<Square, Cell>, from: Square, to: Square) {
    && OnBoard(from) && OnBoard(to) && to.file == from.file && to.rank != LastRank(c)
    && CellAt(changes, from) == Some(Piece(c, Pawn)) && CellAt(changes, to).None?
    && (to.rank == from.rank + Forward(c)
        || (from.rank == PawnRank(c) && to.rank == from.rank + 2 * Forward(c)
            && CellAt(changes, Square(from.file, from.rank + Forward(c))).None?))
  }

  lemma AheadPseudo(pos: Position, changes: map<Square, Cell>, from: Square, to: Square)
    requires Differs(pos, changes) && Ahead(pos.turn, changes, from, to)
    ensures Pseudo(pos, Men(pos.squares), Push(from, to))
  {
    Stands(pos, changes, from);
    Stands(pos, changes, to);
    var middle := Square(from.file, from.rank + Forward(pos.turn));
    if OnBoard(middle) { Stands(pos, changes, middle); }
  }

  ghost predicate Aside(from: Square) { !(3 <= from.file <= 5) }

  lemma StillSheltered(changes: map<Square, Cell>, m: Move, man: Piece)
    requires Calm(changes) && OnBoard(m.frm) && OnBoard(m.to) && Aside(m.frm) && Aside(m.to)
    requires man.kind !in {King, Knight}
    ensures Calm(Changed(changes, m, man))
  {
  }

  lemma PawnStep(pos: Position, from: Square, to: Square, changes: map<Square, Cell>)
    requires Differs(pos, changes) && Calm(changes) && Ahead(pos.turn, changes, from, to) && Aside(from)
    ensures Playable(pos, Push(from, to)) && Legal(pos, Men(pos.squares), Push(from, to))
    ensures Differs(Moved(pos, Push(from, to)), Changed(changes, Push(from, to), Piece(pos.turn, Pawn)))
    ensures Calm(Changed(changes, Push(from, to), Piece(pos.turn, Pawn)))
  {
    var m := Push(from, to);
    AheadPseudo(pos, changes, from, to);
    PseudoPlayable(pos, Men(pos.squares), m);
    Stands(pos, changes, from);
    MovedDiffers(pos, m, changes);
    StillSheltered(changes, m, Piece(pos.turn, Pawn));
    ShelteredLegal(pos, m, Changed(changes, m, Piece(pos.turn, Pawn)));
  }

  // One ply: a pawn goes ahead.
  lemma PawnPly(g: Game, pos: Position, from: Square, to: Square, changes: map<Square, Cell>)
    returns (h: Game, next: Position, more: map<Square, Cell>)
    requires g.Legal() && g.Last() == pos
    requires Differs(pos, changes) && Calm(changes) && Ahead(pos.turn, changes, from, to) && Aside(from)
    ensures more == Changed(changes, Push(from, to), Piece(pos.turn, Pawn)) && Calm(more)
    ensures h.Legal() && h.Last() == next && Differs(next, more) && next.turn == pos.turn.Other()
    ensures Abs(to.rank - from.rank) == 1 ==> next.ep == -1
  {
    var m := Push(from, to);
    h, next, more := Then(g, m), Moved(pos, m), Changed(changes, m, Piece(pos.turn, Pawn));
    PawnStep(pos, from, to, changes);
    assert Core(m) == m;
    Played(g, m);
  }

  // A pawn takes, and promotes on the last rank.
  function Take(from: Square, to: Square, promotion: Option<Kind>): Move {
    Move(from, to, None, true, promotion, NoCastle, false, false, false)
  }

  ghost predicate Takes(pos: Position, changes: map<Square, Cell>, from: Square, to: Square, promotion: Option<Kind>) {
    && OnBoard(from) && OnBoard(to) && Abs(to.file - from.file) == 1 && to.rank == from.rank + Forward(pos.turn)
    && CellAt(changes, from) == Some(Piece(pos.turn, Pawn))
    && CellAt(changes, to).Some? && CellAt(changes, to).value.color != pos.turn
    && (promotion.Some? <==> to.rank == LastRank(pos.turn)) && (promotion.Some? ==> promotion.value in OFFICERS)
    && pos.ep == -1
  }

  lemma TakesPseudo(pos: Position, changes: map<Square, Cell>, from: Square, to: Square, promotion: Option<Kind>)
    requires Differs(pos, changes) && Takes(pos, changes, from, to, promotion)
    ensures Pseudo(pos, Men(pos.squares), Take(from, to, promotion))
  {
    Stands(pos, changes, from);
    Stands(pos, changes, to);
  }

  lemma TakeMoved(pos: Position, m: Move, changes: map<Square, Cell>, man: Piece)
    requires Differs(pos, changes) && Calm(changes) && Aside(m.frm) && Aside(m.to) && man.kind !in {King, Knight}
    requires Playable(pos, m) && m.castle.NoCastle? && !m.enPassant && man == Arriving(m, pos.squares[Idx(m.frm)].value)
    ensures Differs(Moved(pos, m), Changed(changes, m, man)) && Calm(Changed(changes, m, man))
  {
    MovedDiffers(pos, m, changes);
    StillSheltered(changes, m, man);
  }

  lemma TakeStep(pos: Position, m: Move, changes: map<Square, Cell>, man: Piece)
    requires m == Take(m.frm, m.to, m.promotion) && man == Arriving(m, Piece(pos.turn, Pawn))
    requires m.promotion != Some(Knight)
    requires Differs(pos, changes) && Calm(changes) && Takes(pos, changes, m.frm, m.to, m.promotion)
    requires Aside(m.frm) && Aside(m.to)
    ensures Playable(pos, m) && Legal(pos, Men(pos.squares), m)
    ensures Differs(Moved(pos, m), Changed(changes, m, man)) && Calm(Changed(changes, m, man))
  {
    TakesPlayable(pos, changes, m.frm, m.to, m.promotion);
    TakeMoved(pos, m, changes, man);
    ShelteredLegal(pos, m, Changed(changes, m, man));
  }

  lemma TakesPlayable(pos: Position, changes: map<Square, Cell>, from: Square, to: Square, promotion: Option<Kind>)
    requires Differs(pos, changes) && Takes(pos, changes, from, to, promotion)
    ensures Pseudo(pos, Men(pos.squares), Take(from, to, promotion)) && Playable(pos, Take(from, to, promotion))
    ensures pos.squares[Idx(from)] == Some(Piece(pos.turn, Pawn))
  {
    TakesPseudo(pos, changes, from, to, promotion);
    PseudoPlayable(pos, Men(pos.squares), Take(from, to, promotion));
    Stands(pos, changes, from);
  }

  // One ply: a pawn takes.
  lemma TakePly(g: Game, pos: Position, from: Square, to: Square, promotion: Option<Kind>, changes: map<Square, Cell>)
    returns (h: Game, next: Position, more: map<Square, Cell>)
    requires g.Legal() && g.Last() == pos
    requires Differs(pos, changes) && Calm(changes) && Takes(pos, changes, from, to, promotion) && Aside(from)
    requires Aside(to)
    requires promotion != Some(Knight)
    ensures h == Then(g, Take(from, to, promotion)) && LegalOn(pos, Take(from, to, promotion))
    ensures var m := Take(from, to, promotion); more == Changed(changes, m, Arriving(m, Piece(pos.turn, Pawn)))
    ensures Calm(more) && h.Legal() && h.Last() == next && Differs(next, more) && next.turn == pos.turn.Other()
    ensures next.ep == -1
  {
    var m := Take(from, to, promotion);
    h, next, more := Then(g, m), Moved(pos, m), Changed(changes, m, Arriving(m, Piece(pos.turn, Pawn)));
    TakeStep(pos, m, changes, Arriving(m, Piece(pos.turn, Pawn)));
    assert Core(m) == m;
    Played(g, m);
  }

  // White's pawns of the a and the b file and Black's of the h file have come to these ranks, Black's perhaps to g2;
  // nothing else has moved.
  function LineCell(a: int, b: int, h: int, s: Square): Cell {
    if s.file == 0 && 2 <= s.rank <= 6 then (if s.rank == a then Some(Piece(White, Pawn)) else None)
    else if s.file == 1 && 2 <= s.rank <= 6 then (if s.rank == b then Some(Piece(White, Pawn)) else None)
    else if s.file == 7 && 3 <= s.rank <= 7 then (if s.rank == h then Some(Piece(Black, Pawn)) else None)
    else if s == Square(6, 2) && h == 2 then Some(Piece(Black, Pawn))
    else if OnBoard(s) then InitialCell(s) else None
  }

  // The game has come to this position of the line, with this side to move.
  ghost predicate InLine(g: Game, pos: Position, changes: map<Square, Cell>, a: int, b: int, h: int, c: Color) {
    && g.Legal() && g.Last() == pos && pos.turn == c && Differs(pos, changes) && Calm(changes)
    && Shape(changes, a, b, h)
  }

  ghost predicate Shape(changes: map<Square, Cell>, a: int, b: int, h: int) {
    2 <= a <= 6 && 2 <= b <= 6 && 2 <= h <= 7 && forall s :: OnBoard(s) ==> CellAt(changes, s) == LineCell(a, b, h, s)
  }

  lemma ShapeA(changes: map<Square, Cell>, a: int, b: int, h: int)
    requires Shape(changes, a, b, h) && a < 6
    ensures Ahead(White, changes, Square(0, a), Square(0, a + 1))
    ensures Shape(Changed(changes, Push(Square(0, a), Square(0, a + 1)), Piece(White, Pawn)), a + 1, b, h)
  {
  }

  lemma ShapeB(changes: map<Square, Cell>, a: int, b: int, h: int)
    requires Shape(changes, a, b, h) && b < 6
    ensures Ahead(White, changes, Square(1, b), Square(1, b + 1))
    ensures Shape(Changed(changes, Push(Square(1, b), Square(1, b + 1)), Piece(White, Pawn)), a, b + 1, h)
  {
  }

  lemma ShapeH(changes: map<Square, Cell>, a: int, b: int, h: int)
    requires Shape(changes, a, b, h) && h > 3
    ensures Ahead(Black, changes, Square(7, h), Square(7, h - 1))
    ensures Shape(Changed(changes, Push(Square(7, h), Square(7, h - 1)), Piece(Black, Pawn)), a, b, h - 1)
  {
  }

  lemma ShapeG2(changes: map<Square, Cell>, a: int, b: int)
    requires Shape(changes, a, b, 3)
    ensures Shape(Changed(changes, Take(Square(7, 3), Square(6, 2), None), Piece(Black, Pawn)), a, b, 2)
  {
  }

  lemma AdvanceA(g: Game, pos: Position, changes: map<Square, Cell>, a: int, b: int, h: int)
    returns (k: Game, next: Position, more: map<Square, Cell>)
    requires InLine(g, pos, changes, a, b, h, White) && a < 6
    ensures InLine(k, next, more, a + 1, b, h, Black) && next.ep == -1
  {
    ShapeA(changes, a, b, h);
    k, next, more := PawnPly(g, pos, Square(0, a), Square(0, a + 1), changes);
  }

  lemma AdvanceB(g: Game, pos: Position, changes: map<Square, Cell>, a: int, b: int, h: int)
    returns (k: Game, next: Position, more: map<Square, Cell>)
    requires InLine(g, pos, changes, a, b, h, White) && b < 6
    ensures InLine(k, next, more, a, b + 1, h, Black) && next.ep == -1
  {
    ShapeB(changes, a, b, h);
    k, next, more := PawnPly(g, pos, Square(1, b), Square(1, b + 1), changes);
  }

  lemma AdvanceH(g: Game, pos: Position, changes: map<Square, Cell>, a: int, b: int, h: int)
    returns (k: Game, next: Position, more: map<Square, Cell>)
    requires InLine(g, pos, changes, a, b, h, Black) && h > 3
    ensures InLine(k, next, more, a, b, h - 1, White) && next.ep == -1
  {
    ShapeH(changes, a, b, h);
    k, next, more := PawnPly(g, pos, Square(7, h), Square(7, h - 1), changes);
  }

  lemma TakeG2(g: Game, pos: Position, changes: map<Square, Cell>, a: int, b: int)
    returns (k: Game, next: Position, more: map<Square, Cell>)
    requires InLine(g, pos, changes, a, b, 3, Black) && pos.ep == -1
    ensures InLine(k, next, more, a, b, 2, White) && next.ep == -1
  {
    ShapeG2(changes, a, b);
    k, next, more := TakePly(g, pos, Square(7, 3), Square(6, 2), None, changes);
  }

  lemma LineStarts()
    ensures InLine(Start, Initial(), map[], 2, 2, 7, White)
  {
  }

  // 1. a3 h6 2. a4 h5 3. a5 h4
  lemma ThreeMoves() returns (g: Game, pos: Position, changes: map<Square, Cell>)
    ensures InLine(g, pos, changes, 5, 2, 4, White)
  {
    LineStarts();
    g, pos, changes := AdvanceA(Start, Initial(), map[], 2, 2, 7);
    g, pos, changes := AdvanceH(g, pos, changes, 3, 2, 7);
    g, pos, changes := AdvanceA(g, pos, changes, 3, 2, 6);
    g, pos, changes := AdvanceH(g, pos, changes, 4, 2, 6);
    g, pos, changes := AdvanceA(g, pos, changes, 4, 2, 5);
    g, pos, changes := AdvanceH(g, pos, changes, 5, 2, 5);
  }

  // 4. b3 h3 5. b4 hxg2 6. a6
  lemma PawnOnG2() returns (g: Game, pos: Position, changes: map<Square, Cell>)
    ensures InLine(g, pos, changes, 6, 4, 2, Black) && pos.ep == -1
  {
    g, pos, changes := ThreeMoves();
    g, pos, changes := AdvanceB(g, pos, changes, 5, 2, 4);
    g, pos, changes := AdvanceH(g, pos, changes, 5, 3, 4);
    g, pos, changes := AdvanceB(g, pos, changes, 5, 3, 3);
    g, pos, changes := TakeG2(g, pos, changes, 5, 4);
    g, pos, changes := AdvanceA(g, pos, changes, 5, 4, 2);
  }

  // 6. ... gxh1=Q
  lemma PromoteOnH1(g: Game, pos: Position, changes: map<Square, Cell>, a: int, b: int)
    returns (h: Game, next: Position, m: Move)
    requires InLine(g, pos, changes, a, b, 2, Black) && pos.ep == -1
    ensures m == Take(Square(6, 2), Square(7, 1), Some(Queen)) && h == Then(g, m) && LegalOn(pos, m) && h.Legal()
    ensures h.Last() == next
    ensures At(pos.squares, m.frm) == Some(Piece(Black, Pawn))
    ensures |next.squares| == 64 && At(next.squares, m.to) == Some(Piece(White, Queen))
  {
    var more;
    m := Take(Square(6, 2), Square(7, 1), Some(Queen));
    Stands(pos, changes, m.frm);
    h, next, more := TakePly(g, pos, Square(6, 2), Square(7, 1), Some(Queen), changes);
    Stands(next, more, m.to);
  }

  /** In a legal game a black pawn promotes, and a white queen stands in its place. */
  lemma BlackMakesWhiteQueen() returns (g: Game, pos: Position, m: Move, h: Game, next: Position)
    ensures g.Legal() && g.Last() == pos && Sound(pos) && pos.turn == Black && LegalOn(pos, m)
    ensures At(pos.squares, m.frm) == Some(Piece(Black, Pawn)) && m.promotion == Some(Queen)
    ensures h == Then(g, m) && h.Legal() && h.Last() == next && |next.squares| == 64
    ensures At(next.squares, m.to) == Some(Piece(White, Queen))
  {
    var changes;
    g, pos, changes := PawnOnG2();
    GameSound(g);
    h, next, m := PromoteOnH1(g, pos, changes, 6, 4);
  }

  // ---------- a game in which a legal promotion is refused ----------

  // White's officers stand at home, the d pawn shields the queen, and no pawn attacks the black king on e8, d7 or c6.
  ghost predicate Harmless(p: Placement, k: Square) {
    && k in {Square(4, 8), Square(3, 7), Square(2, 6)} && Square(3, 2) in p
    && (forall s :: KingAt(p, s, Black) ==> s == k)
    && forall s :: s in p && p[s].color == White ==> Meek(p[s], s, k)
  }

  lemma HarmlessFrom(p: Placement, k: Square, s: Square)
    requires Harmless(p, k) && s in p && p[s].color == White
    ensures !Attacks(p, s, k)
  {
    if s == Square(3, 1) && k == Square(3, 7) { assert Walk(s, Toward(s, k), 1) == Square(3, 2); }
  }

  lemma HarmlessHolds(p: Placement, k: Square)
    requires Harmless(p, k)
    ensures !InCheck(p, Black)
  {
    forall s | s in p && p[s].color == White ensures !Attacks(p, s, k) { HarmlessFrom(p, k, s); }
  }

  // The board of `PawnOnG2`, but for White's c pawn, Black's d pawn and the black king
  function RoamCell(c: int, d: int, k: Square, s: Square): Cell {
    if s.file == 2 && 2 <= s.rank <= 5 then (if s.rank == c then Some(Piece(White, Pawn)) else None)
    else if s == k then Some(Piece(Black, King))
    else if s.file == 3 && 6 <= s.rank <= 7 then (if s.rank == d then Some(Piece(Black, Pawn)) else None)
    else if s == Square(4, 8) then None
    else LineCell(6, 4, 2, s)
  }

  ghost predicate Roam(changes: map<Square, Cell>, c: int, d: int, k: Square) {
    && 2 <= c <= 5 && (d == 6 || (d == 7 && k == Square(4, 8))) && k in {Square(4, 8), Square(3, 7), Square(2, 6)}
    && forall s :: OnBoard(s) ==> CellAt(changes, s) == RoamCell(c, d, k, s)
  }

  ghost predicate Roaming(g: Game, pos: Position, changes: map<Square, Cell>, c: int, d: int, k: Square, turn: Color) {
    && g.Legal() && g.Last() == pos && pos.turn == turn && pos.ep == -1 && Differs(pos, changes)
    && Sheltered(changes, White)
    && Roam(changes, c, d, k)
  }

  predicate Meek(man: Piece, s: Square, k: Square) {
    if man.kind.Pawn? then Abs(k.file - s.file) != 1 || k.rank != s.rank + 1
    else OnBoard(s) && s.rank == 1 && man.kind == BACK_RANK[s.file]
  }

  lemma RoamMeek(c: int, d: int, k: Square, s: Square)
    requires 2 <= c <= 5 && k in {Square(4, 8), Square(3, 7), Square(2, 6)} && OnBoard(s)
    ensures var cell := RoamCell(c, d, k, s);
            && (cell.Some? && cell.value.color == White ==> Meek(cell.value, s, k))
            && (cell == Some(Piece(Black, King)) ==> s == k)
  {
  }

  lemma RoamHarmless(pos: Position, changes: map<Square, Cell>, c: int, d: int, k: Square)
    requires Differs(pos, changes) && Roam(changes, c, d, k)
    ensures Harmless(Men(pos.squares), k)
  {
    var p := Men(pos.squares);
    forall s | s in p
      ensures (p[s].color == White ==> Meek(p[s], s, k)) && (KingAt(p, s, Black) ==> s == k)
    {
      assert OnBoard(s);
      RoamStands(pos, changes, c, d, k, s);
      RoamMeek(c, d, k, s);
    }
    RoamStands(pos, changes, c, d, k, Square(3, 2));
  }

  lemma RoamStands(pos: Position, changes: map<Square, Cell>, c: int, d: int, k: Square, s: Square)
    requires Differs(pos, changes) && Roam(changes, c, d, k) && OnBoard(s)
    ensures Look(Men(pos.squares), s) == RoamCell(c, d, k, s)
  {
    Stands(pos, changes, s);
  }

  // One ply of a pawn or the king, after which the mover is not in check
  lemma RoamPly(g: Game, pos: Position, m: Move, changes: map<Square, Cell>, man: Piece)
    returns (h: Game, next: Position, more: map<Square, Cell>)
    requires g.Legal() && g.Last() == pos && Differs(pos, changes) && Core(m) == m
    requires Pseudo(pos, Men(pos.squares), m) && Playable(pos, m) && pos.squares[Idx(m.frm)] == Some(man)
    requires m.promotion.None? && m.castle.NoCastle? && !m.enPassant && Abs(m.to.rank - m.frm.rank) <= 1
    requires !InCheck(Men(SquaresAfter(pos, m)), pos.turn)
    ensures more == Changed(changes, m, man)
    ensures h.Legal() && h.Last() == next && Differs(next, more) && next.turn == pos.turn.Other() && next.ep == -1
  {
    h, next, more := Then(g, m), Moved(pos, m), Changed(changes, m, man);
    MovedDiffers(pos, m, changes);
    Played(g, m);
  }

  lemma RoamC(changes: map<Square, Cell>, c: int, d: int, k: Square)
    requires Roam(changes, c, d, k) && c < 5 && Sheltered(changes, White)
    ensures var more := Changed(changes, Push(Square(2, c), Square(2, c + 1)), Piece(White, Pawn));
            Roam(more, c + 1, d, k) && Sheltered(more, White)
  {
  }

  lemma AheadC(changes: map<Square, Cell>, c: int, d: int, k: Square)
    requires Roam(changes, c, d, k) && c < 5
    ensures Ahead(White, changes, Square(2, c), Square(2, c + 1))
  {
  }

  lemma AdvanceC(g: Game, pos: Position, changes: map<Square, Cell>, c: int, d: int, k: Square)
    returns (h: Game, next: Position, more: map<Square, Cell>)
    requires Roaming(g, pos, changes, c, d, k, White) && c < 5
    ensures Roaming(h, next, more, c + 1, d, k, Black)
  {
    var m := Push(Square(2, c), Square(2, c + 1));
    RoamC(changes, c, d, k);
    AheadC(changes, c, d, k);
    AheadPseudo(pos, changes, m.frm, m.to);
    PseudoPlayable(pos, Men(pos.squares), m);
    Stands(pos, changes, m.frm);
    MovedDiffers(pos, m, changes);
    DiffersShelter(Moved(pos, m), Changed(changes, m, Piece(White, Pawn)), White);
    ShelterHolds(Men(SquaresAfter(pos, m)), White);
    h, next, more := RoamPly(g, pos, m, changes, Piece(White, Pawn));
  }

  // A move of Black's that leads to this shape is legal.
  lemma BlackRoams(g: Game, pos: Position, m: Move, changes: map<Square, Cell>, man: Piece, c: int, d: int, k: Square)
    returns (h: Game, next: Position, more: map<Square, Cell>)
    requires g.Legal() && g.Last() == pos && pos.turn == Black && Differs(pos, changes) && Core(m) == m
    requires Pseudo(pos, Men(pos.squares), m) && Playable(pos, m) && pos.squares[Idx(m.frm)] == Some(man)
    requires m.promotion.None? && m.castle.NoCastle? && !m.enPassant && Abs(m.to.rank - m.frm.rank) <= 1
    requires Roam(Changed(changes, m, man), c, d, k) && Sheltered(Changed(changes, m, man), White)
    ensures Roaming(h, next, more, c, d, k, White)
  {
    MovedDiffers(pos, m, changes);
    RoamHarmless(Moved(pos, m), Changed(changes, m, man), c, d, k);
    HarmlessHolds(Men(SquaresAfter(pos, m)), k);
    h, next, more := RoamPly(g, pos, m, changes, man);
  }

  lemma RoamD(changes: map<Square, Cell>)
    requires Shape(changes, 6, 4, 2) && Sheltered(changes, White)
    ensures Ahead(Black, changes, Square(3, 7), Square(3, 6))
    ensures var more := Changed(changes, Push(Square(3, 7), Square(3, 6)), Piece(Black, Pawn));
            Roam(more, 2, 6, Square(4, 8)) && Sheltered(more, White)
  {
  }

  // 6. ... d6
  lemma AdvanceD() returns (h: Game, next: Position, more: map<Square, Cell>)
    ensures Roaming(h, next, more, 2, 6, Square(4, 8), White)
  {
    var g, pos, changes := PawnOnG2();
    var m := Push(Square(3, 7), Square(3, 6));
    RoamD(changes);
    AheadPseudo(pos, changes, m.frm, m.to);
    PseudoPlayable(pos, Men(pos.squares), m);
    Stands(pos, changes, m.frm);
    h, next, more := BlackRoams(g, pos, m, changes, Piece(Black, Pawn), 2, 6, Square(4, 8));
  }

  lemma RoamKing(changes: map<Square, Cell>, c: int, k: Square, to: Square)
    requires Roam(changes, c, 6, k) && Sheltered(changes, White)
    requires (k == Square(4, 8) && to == Square(3, 7)) || (k == Square(3, 7) && to == Square(2, 6))
    ensures CellAt(changes, k) == Some(Piece(Black, King)) && CellAt(changes, to).None?
    ensures var more := Changed(changes, Push(k, to), Piece(Black, King));
            Roam(more, c, 6, to) && Sheltered(more, White)
  {
  }

  lemma KingPseudo(pos: Position, changes: map<Square, Cell>, k: Square, to: Square)
    requires Differs(pos, changes) && pos.turn == Black && OnBoard(k) && OnBoard(to) && Distance(k, to) == 1
    requires CellAt(changes, k) == Some(Piece(Black, King)) && CellAt(changes, to).None?
    ensures Pseudo(pos, Men(pos.squares), Push(k, to)) && Playable(pos, Push(k, to))
    ensures pos.squares[Idx(k)] == Some(Piece(Black, King))
  {
    Stands(pos, changes, k);
    Stands(pos, changes, to);
    PseudoPlayable(pos, Men(pos.squares), Push(k, to));
  }

  lemma KingGoes(g: Game, pos: Position, changes: map<Square, Cell>, c: int, k: Square, to: Square)
    returns (h: Game, next: Position, more: map<Square, Cell>)
    requires Roaming(g, pos, changes, c, 6, k, Black)
    requires (k == Square(4, 8) && to == Square(3, 7)) || (k == Square(3, 7) && to == Square(2, 6))
    ensures Roaming(h, next, more, c, 6, to, White)
  {
    RoamKing(changes, c, k, to);
    KingPseudo(pos, changes, k, to);
    h, next, more := BlackRoams(g, pos, Push(k, to), changes, Piece(Black, King), c, 6, to);
  }

  // 7. c3 Kd7 8. c4 Kc6 9. c5
  lemma KingOnC6() returns (g: Game, pos: Position, changes: map<Square, Cell>)
    ensures Roaming(g, pos, changes, 5, 6, Square(2, 6), Black)
  {
    g, pos, changes := AdvanceD();
    g, pos, changes := AdvanceC(g, pos, changes, 2, 6, Square(4, 8));
    g, pos, changes := KingGoes(g, pos, changes, 3, Square(4, 8), Square(3, 7));
    g, pos, changes := AdvanceC(g, pos, changes, 3, 6, Square(3, 7));
    g, pos, changes := KingGoes(g, pos, changes, 4, Square(3, 7), Square(2, 6));
    g, pos, changes := AdvanceC(g, pos, changes, 4, 6, Square(2, 6));
  }

  const H1_QUEEN: Move := Take(Square(6, 2), Square(7, 1), Some(Queen))

  // What the board holds after the promotion to a queen of this side
  function PromotedCell(side: Color, s: Square): Cell {
    if s == Square(7, 1) then Some(Piece(side, Queen)) else if s == Square(6, 2) then None
    else if OnBoard(s) then RoamCell(5, 6, Square(2, 6), s) else None
  }

  ghost predicate Promoted(q: Placement, side: Color) { forall s :: Look(q, s) == PromotedCell(side, s) }

  lemma PromotedBoards(pos: Position, changes: map<Square, Cell>)
    requires Differs(pos, changes) && Roam(changes, 5, 6, Square(2, 6)) && pos.turn == Black && Playable(pos, H1_QUEEN)
    ensures Promoted(Men(SquaresAfter(pos, H1_QUEEN)), White) && Promoted(Men(OwnSquares(pos, H1_QUEEN)), Black)
  {
    var a, b := SquaresAfter(pos, H1_QUEEN), OwnSquares(pos, H1_QUEEN);
    forall s ensures Look(Men(a), s) == PromotedCell(White, s) && Look(Men(b), s) == PromotedCell(Black, s) {
      assert Look(Men(a), s) == At(a, s) && Look(Men(b), s) == At(b, s);
      if OnBoard(s) { Stands(pos, changes, s); }
    }
  }

  lemma PromotedOwn(f: Placement)
    requires Promoted(f, Black)
    ensures !InCheck(f, Black)
  {
    assert Look(f, Square(3, 2)) == PromotedCell(Black, Square(3, 2));
    forall s | s in f ensures Look(f, s) == PromotedCell(Black, s) { }
    HarmlessHolds(f, Square(2, 6));
  }

  // The queen's diagonal to c6 is empty.
  lemma PromotedTurncoat(q: Placement)
    requires Promoted(q, White)
    ensures Turncoat(q, Square(7, 1))
  {
    var t, k := Square(7, 1), Square(2, 6);
    assert Look(q, t) == PromotedCell(White, t) && Look(q, k) == PromotedCell(White, k);
    forall n: nat | 0 < n < Distance(t, k) ensures Walk(t, Toward(t, k), n) !in q {
      assert Look(q, Walk(t, Toward(t, k), n)) == PromotedCell(White, Walk(t, Toward(t, k), n));
    }
    assert KingAt(q, k, Black) && Attacks(q, t, k);
  }

  lemma QueenTakes(pos: Position, changes: map<Square, Cell>)
    requires Differs(pos, changes) && Roam(changes, 5, 6, Square(2, 6)) && pos.turn == Black && pos.ep == -1
    ensures Pseudo(pos, Men(pos.squares), H1_QUEEN) && Playable(pos, H1_QUEEN)
  {
    Stands(pos, changes, Square(6, 2));
    Stands(pos, changes, Square(7, 1));
    TakesPlayable(pos, changes, Square(6, 2), Square(7, 1), Some(Queen));
  }

  lemma QueenRefused(pos: Position, changes: map<Square, Cell>)
    requires Differs(pos, changes) && Roam(changes, 5, 6, Square(2, 6)) && pos.turn == Black
    requires Sound(pos) && Pseudo(pos, Men(pos.squares), H1_QUEEN) && Playable(pos, H1_QUEEN)
    ensures OwnLegal(pos, Men(pos.squares), H1_QUEEN) && !Legal(pos, Men(pos.squares), H1_QUEEN)
  {
    PromotedBoards(pos, changes);
    PromotedOwn(Men(OwnSquares(pos, H1_QUEEN)));
    PromotedTurncoat(Men(SquaresAfter(pos, H1_QUEEN)));
    PromotionLegality(pos, Men(pos.squares), H1_QUEEN);
  }

  /** A game in which the code refuses a promotion that the Laws allow: 9. ... gxh1=Q, where the new queen, taken for
      White's, attacks its own king on c6. */
  lemma RefusedPromotion() returns (g: Game, pos: Position)
    ensures g.Legal() && g.Last() == pos && Sound(pos) && pos.turn == Black
    ensures OwnLegal(pos, Men(pos.squares), H1_QUEEN) && !Legal(pos, Men(pos.squares), H1_QUEEN)
  {
    var changes;
    g, pos, changes := KingOnC6();
    GameSound(g);
    QueenTakes(pos, changes);
    QueenRefused(pos, changes);
  }
}
