/** Writing moves down (`ingest/pgn.py`): the full token of a legal move names that move and no other, so every legal
    game can be written, and is then accepted. */
module PgnNotation {
  import opened Chess
  import opened PgnPosition
  import opened PgnRules
  import opened PgnGame

  // The token that says all it can: piece, origin, capture, target, promotion, check or mate
  function FullSan(squares: seq<Cell>, m: Move): San
    requires |squares| == 64 && At(squares, m.frm).Some?
  {
    if !m.castle.NoCastle? then Castling(m.castle)
    else Step(At(squares, m.frm).value.kind, m.to, m.capture, m.promotion, Some(m.frm.file), Some(m.frm.rank),
              if m.givesMate then Mate else if m.givesCheck then Check else NoSuffix)
  }

  lemma FromIsThere(pos: Position, m: Move)
    requires Sound(pos) && LegalMarked(pos, Men(pos.squares), m)
    ensures At(pos.squares, m.frm).Some? && Some(Men(pos.squares)[m.frm]) == At(pos.squares, m.frm)
  {
  }

  // Generated moves that agree in these fields agree.
  lemma OneMove(pos: Position, p: Placement, m: Move, n: Move)
    requires SoundBoard(pos, p) && Pseudo(pos, p, m) && Pseudo(pos, p, n)
    requires m.castle == n.castle
    requires m.castle.NoCastle? ==>
              m.frm == n.frm && m.to == n.to && m.capture == n.capture && m.promotion == n.promotion
    ensures m == n
  {
  }

  /** The full token of a legal move names it. */
  lemma FullNames(pos: Position, m: Move)
    requires Sound(pos) && LegalMarked(pos, Men(pos.squares), m)
    ensures At(pos.squares, m.frm).Some? && Names(pos, FullSan(pos.squares, m), m)
  {
    var p := Men(pos.squares);
    FromIsThere(pos, m);
    var san := FullSan(pos.squares, m);
    assert Candidate(pos, san, m);
    forall n | Candidate(pos, san, n) ensures n == m {
      OneMove(pos, p, Core(m), Core(n));
      MarkedOnce(pos, p, n, m);
    }
  }

  // The token leaves out at most the origin of the full one.
  predicate Fits(san: San, full: San) {
    match san
    case Castling(_) => san == full
    case Step(piece, dest, capture, promotion, file, rank, suffix) =>
      && full.Step? && piece == full.piece && dest == full.dest && capture == full.capture
      && promotion == full.promotion
      && (file == None || file == full.disFile) && (rank == None || rank == full.disRank)
  }

  // And it claims no more than a check or a mate that is there.
  predicate Claims(san: San, full: San) {
    san.Step? && full.Step? && full.suffix != Mate ==> san.suffix == NoSuffix || san.suffix == full.suffix
  }

  lemma MatchesFits(squares: seq<Cell>, san: San, m: Move)
    requires |squares| == 64 && At(squares, m.frm).Some? && (m.givesMate ==> m.givesCheck)
    ensures Matches(squares, san, m) <==> Fits(san, FullSan(squares, m))
    ensures Fits(san, FullSan(squares, m)) ==> (SuffixTrue(san, m) <==> Claims(san, FullSan(squares, m)))
  {
  }

  ghost predicate LegalFit(pos: Position, san: San, m: Move)
    requires Sound(pos)
  {
    LegalMarked(pos, Men(pos.squares), m) && At(pos.squares, m.frm).Some? && Fits(san, FullSan(pos.squares, m))
  }

  /** A token names a move exactly when it is short for the full token of that legal move and of no other. */
  lemma NamesExactly(pos: Position, san: San, m: Move)
    requires Sound(pos)
    ensures Names(pos, san, m) <==>
              && LegalFit(pos, san, m) && Claims(san, FullSan(pos.squares, m))
              && forall n :: LegalFit(pos, san, n) ==> n == m
  {
    forall n ensures Candidate(pos, san, n) <==> LegalFit(pos, san, n) {
      if LegalMarked(pos, Men(pos.squares), n) {
        FromIsThere(pos, n);
        MatchesFits(pos.squares, san, n);
      }
    }
    if Candidate(pos, san, m) { MatchesFits(pos.squares, san, m); }
  }

  // The move with its piece and its true marks
  ghost function Marked(pos: Position, m: Move): Move
    requires Sound(pos) && LegalOn(pos, m) && Playable(pos, Core(m))
  {
    var next := Moved(pos, Core(m));
    var check := InCheck(Men(next.squares), next.turn);
    Core(m).(piece := At(pos.squares, m.frm), givesCheck := check, givesMate := check && !CanMove(next))
  }

  lemma MarkedLegal(pos: Position, m: Move)
    requires Sound(pos) && LegalOn(pos, m) && Playable(pos, Core(m))
    ensures LegalMarked(pos, Men(pos.squares), Marked(pos, m)) && Core(Marked(pos, m)) == Core(m)
  {
    assert At(pos.squares, m.frm) == Some(Men(pos.squares)[m.frm]);
  }

  // The same moves, marks aside
  ghost predicate SameMoves(g: Game, h: Game) {
    match g
    case Start => h.Start?
    case Then(a, m) => h.Then? && SameMoves(a, h.game) && Core(h.move) == Core(m)
  }

  /** Every legal game can be written: some tokens spell it, marks and all. */
  lemma {:induction false} GameWritten(g: Game) returns (h: Game, sans: seq<San>)
    requires g.Legal()
    ensures h.Spells(sans) && SameMoves(g, h) && h.Last() == g.Last()
  {
    h, sans := Start, [];
    if g.Then? {
      var pos := g.game.Last();
      GameSound(g.game);
      StepSound(pos, g.move);
      h, sans := GameWritten(g.game);
      PseudoPlayable(pos, Men(pos.squares), Core(g.move));
      var m := Marked(pos, g.move);
      MarkedLegal(pos, g.move);
      FullNames(pos, m);
      CoreMoves(pos, m);
      CoreMoves(pos, g.move);
      var san := FullSan(pos.squares, m);
      assert (sans + [san])[..|sans|] == sans;
      h, sans := Then(h, m), sans + [san];
    }
  }

  /** So the validator accepts every legal game of at least one move, written in full. */
  lemma LegalGamesPass(g: Game) returns (sans: seq<San>)
    requires g.Legal() && g.Then?
    ensures sans != [] && InSomeGame(sans)
  {
    var h;
    h, sans := GameWritten(g);
  }
}
