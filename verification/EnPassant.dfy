/** The en-passant runtime (`graph/en_passant.py`): one move applied to a state, and the identity
    value of a state. Its attack search goes piece by piece and asks for a clear line. */
module EnPassant {
  import opened Chess
  import opened FenAttack

  // A target outside the grammar (rank 3 or 6 of the board) stands for any malformed target text.
  datatype Target = NoTarget | Target(sq: Square)

  datatype State = State(target: Target, occupied: Placement, side: Color)

  datatype MoveType = PawnAdvance | EpCapture | Quiet

  datatype EpMove = EpMove(kind: MoveType, frm: Square, to: Square)

  datatype Failure = TargetMalformed | TargetInconsistent | CapturePrecondition | PinnedCapture

  datatype Result = Ok(state: State) | Fail(failure: Failure)

  function TargetRank(capturer: Color): int { if capturer.White? then 6 else 3 }

  // The rank of the capturing pawn, and of the pawn it captures
  function MoverRank(side: Color): int { if side.White? then 5 else 4 }

  predicate GrammarOk(t: Target) {
    t.NoTarget? || (0 <= t.sq.file < 8 && t.sq.rank in {3, 6})
  }

  // The closed domain of states
  ghost predicate Readable(st: State) {
    Placed(st.occupied) && OneKing(st.occupied, White) && OneKing(st.occupied, Black)
  }

  method ReadState(st: State) returns (ok: bool)
    ensures ok <==> Readable(st)
  {
    KingsCount(st.occupied, White);
    KingsCount(st.occupied, Black);
    ok := (forall s :: s in st.occupied ==> OnBoard(s))
      && |Where(st.occupied, Piece(White, King))| == 1 && |Where(st.occupied, Piece(Black, King))| == 1;
  }

  // From `a` towards `b`, the end excluded
  method LineClear(occ: Placement, a: Square, b: Square, d: Dir) returns (clear: bool)
    requires a != b && d == Toward(a, b)
    requires a.file == b.file || a.rank == b.rank || Abs(b.file - a.file) == Abs(b.rank - a.rank)
    ensures clear <==> Clear(occ, a, b)
  {
    var s := Plus(a, d);
    ghost var n: nat := 1;
    while s != b
      invariant 0 < n <= Distance(a, b) && s == Walk(a, d, n) && EmptyUpTo(occ, a, d, n)
      decreases Distance(a, b) - n
    {
      if s in occ { return false; }
      s, n := Plus(s, d), n + 1;
    }
    assert n == Distance(a, b);
    return true;
  }

  method AttackedFrom(occ: Placement, t: Square, side: Color) returns (hit: bool)
    ensures hit <==> Chess.Attacked(occ, t, side)
  {
    var todo := occ.Keys;
    while todo != {}
      invariant todo <= occ.Keys
      invariant forall s :: s in occ && s !in todo && occ[s].color == side ==> !Attacks(occ, s, t)
      decreases |todo|
    {
      var s :| s in todo;
      todo := todo - {s};
      if occ[s].color == side {
        var hits := PieceAttacks(occ, s, t);
        if hits { return true; }
      }
    }
    return false;
  }

  method PieceAttacks(occ: Placement, s: Square, t: Square) returns (hit: bool)
    requires s in occ
    ensures hit <==> Attacks(occ, s, t)
  {
    var df, dr := s.file - t.file, s.rank - t.rank;
    match occ[s].kind {
      case Pawn => hit := dr == -Forward(occ[s].color) && Abs(df) == 1;
      case Knight => hit := (Abs(df) == 1 && Abs(dr) == 2) || (Abs(df) == 2 && Abs(dr) == 1);
      case King => hit := Max(Abs(df), Abs(dr)) == 1;
      case k =>
        hit := ((k in {Rook, Queen} && (df == 0 || dr == 0)) || (k in {Bishop, Queen} && Abs(df) == Abs(dr)))
          && (df != 0 || dr != 0);
        if hit {
          ClearReverses(occ, s, t);
          hit := LineClear(occ, t, s, Dir(Sign(df), Sign(dr)));
        }
    }
  }

  function AfterCapture(occ: Placement, side: Color, frm: Square, to: Square): Placement {
    (occ - {frm, Square(to.file, MoverRank(side))})[to := Piece(side, Pawn)]
  }

  // The target is empty, on the opponent's target rank, with the pawn that passed it beside it
  predicate Consistent(st: State)
    requires st.target.Target?
  {
    var t := st.target.sq;
    && t !in st.occupied && t.rank == TargetRank(st.side)
    && Square(t.file, MoverRank(st.side)) in st.occupied
    && st.occupied[Square(t.file, MoverRank(st.side))] == Piece(st.side.Other(), Pawn)
  }

  // A pawn of the side to move stands beside the pawn that passed the target
  predicate Adjacent(st: State, frm: Square, to: Square)
    requires st.target.Target?
  {
    && to == st.target.sq && frm.rank == MoverRank(st.side) && Abs(frm.file - to.file) == 1
    && frm in st.occupied && st.occupied[frm] == Piece(st.side, Pawn)
  }

  // All but the safety of the own king
  predicate Claimed(st: State, frm: Square, to: Square) {
    st.target.Target? && GrammarOk(st.target) && Consistent(st) && Adjacent(st, frm, to)
  }

  /** Article 3.7.3.1: the pawn has just passed, and the capture leaves the own king safe. */
  ghost predicate MayCapture(st: State, frm: Square, to: Square) {
    Claimed(st, frm, to) && !InCheck(AfterCapture(st.occupied, st.side, frm, to), st.side)
  }

  lemma KingStays(st: State, frm: Square, to: Square, c: Color)
    requires OneKing(st.occupied, c) && Claimed(st, frm, to)
    ensures OneKing(AfterCapture(st.occupied, st.side, frm, to), c)
  {
    var q := AfterCapture(st.occupied, st.side, frm, to);
    var k :| KingAt(st.occupied, k, c) && forall x :: KingAt(st.occupied, x, c) ==> x == k;
    assert KingAt(q, k, c);
    forall x | KingAt(q, x, c) ensures x == k { assert KingAt(st.occupied, x, c); }
  }

  // The checks that need no attack search
  method ClaimFault(st: State, frm: Square, to: Square) returns (f: Option<Failure>)
    ensures f.None? <==> Claimed(st, frm, to)
    ensures f != Some(PinnedCapture)
    ensures f == Some(TargetMalformed) <==> !GrammarOk(st.target)
    ensures f == Some(TargetInconsistent) <==> GrammarOk(st.target) && st.target.Target? && !Consistent(st)
    ensures f == Some(CapturePrecondition) <==>
            GrammarOk(st.target) && (st.target.NoTarget? || (Consistent(st) && !Adjacent(st, frm, to)))
  {
    if !GrammarOk(st.target) { return Some(TargetMalformed); }
    if st.target.NoTarget? { return Some(CapturePrecondition); }
    if !Consistent(st) { return Some(TargetInconsistent); }
    if !Adjacent(st, frm, to) { return Some(CapturePrecondition); }
    return None;
  }

  method Capture(st: State, frm: Square, to: Square) returns (r: Result)
    requires OneKing(st.occupied, st.side)
    ensures r.Ok? <==> MayCapture(st, frm, to)
    ensures r.Ok? ==> r.state == State(NoTarget, AfterCapture(st.occupied, st.side, frm, to), st.side.Other())
    ensures r == Fail(TargetMalformed) <==> !GrammarOk(st.target)
    ensures r == Fail(TargetInconsistent) <==> GrammarOk(st.target) && st.target.Target? && !Consistent(st)
    ensures r == Fail(CapturePrecondition) <==>
            GrammarOk(st.target) && (st.target.NoTarget? || (Consistent(st) && !Adjacent(st, frm, to)))
    ensures r == Fail(PinnedCapture) <==> Claimed(st, frm, to) && !MayCapture(st, frm, to)
  {
    var fault := ClaimFault(st, frm, to);
    if fault.Some? { return Fail(fault.value); }
    var safe := Safe(st, frm, to);
    if !safe { return Fail(PinnedCapture); }
    return Ok(State(NoTarget, AfterCapture(st.occupied, st.side, frm, to), st.side.Other()));
  }

  // The capture is judged on the resulting position.
  method Safe(st: State, frm: Square, to: Square) returns (safe: bool)
    requires OneKing(st.occupied, st.side) && Claimed(st, frm, to)
    ensures safe <==> !InCheck(AfterCapture(st.occupied, st.side, frm, to), st.side)
  {
    var result := AfterCapture(st.occupied, st.side, frm, to);
    assert OneKing(result, st.side) by { KingStays(st, frm, to, st.side); }
    var hit := KingAttacked(result, st.side);
    safe := !hit;
  }

  method KingAttacked(p: Placement, c: Color) returns (hit: bool)
    requires OneKing(p, c)
    ensures hit <==> InCheck(p, c)
  {
    var king := FindKing(p, c);
    hit := AttackedFrom(p, king, c.Other());
  }

  method FindKing(p: Placement, c: Color) returns (k: Square)
    requires OneKing(p, c)
    ensures KingAt(p, k, c)
  {
    ghost var king :| KingAt(p, king, c);
    var todo := p.Keys;
    while todo != {}
      invariant todo <= p.Keys && king in todo
      decreases |todo|
    {
      k :| k in todo;
      if p[k] == Piece(c, King) { return; }
      todo := todo - {k};
    }
  }

  predicate DoubleAdvance(st: State, m: EpMove)
    requires m.frm in st.occupied
  {
    && m.kind.PawnAdvance? && st.occupied[m.frm].kind.Pawn? && m.frm.file == m.to.file
    && m.frm.rank == (if st.side.White? then 2 else 7) && m.to.rank == (if st.side.White? then 4 else 5)
  }

  // A move that captures nothing in passing is trusted beyond its piece and squares.
  ghost predicate Allowed(st: State, m: EpMove) {
    OnBoard(m.frm) && OnBoard(m.to) &&
    if m.kind.EpCapture? then MayCapture(st, m.frm, m.to) else m.frm in st.occupied
  }

  function Next(st: State, m: EpMove): State {
    if m.kind.EpCapture? then State(NoTarget, AfterCapture(st.occupied, st.side, m.frm, m.to), st.side.Other())
    else if m.frm !in st.occupied then st
    else
      State(
        if DoubleAdvance(st, m) then Target(Square(m.to.file, TargetRank(st.side.Other()))) else NoTarget,
        (st.occupied - {m.frm})[m.to := st.occupied[m.frm]],
        st.side.Other())
  }

  method PlainMove(st: State, m: EpMove) returns (r: Result)
    requires !m.kind.EpCapture?
    ensures r == if m.frm in st.occupied then Ok(Next(st, m)) else Fail(TargetMalformed)
  {
    if m.frm !in st.occupied { return Fail(TargetMalformed); }
    var result := (st.occupied - {m.frm})[m.to := st.occupied[m.frm]];
    var target := NoTarget;
    if DoubleAdvance(st, m) { target := Target(Square(m.to.file, TargetRank(st.side.Other()))); }
    return Ok(State(target, result, st.side.Other()));
  }

  method Apply(st: State, m: EpMove) returns (r: Result)
    ensures r.Ok? <==> Readable(st) && Allowed(st, m)
    ensures r.Ok? ==> r.state == Next(st, m)
    ensures r == Fail(TargetMalformed) <==>
            || !Readable(st) || !OnBoard(m.frm) || !OnBoard(m.to)
            || (if m.kind.EpCapture? then !GrammarOk(st.target) else m.frm !in st.occupied)
    ensures r == Fail(TargetInconsistent) <==>
            && Readable(st) && OnBoard(m.frm) && OnBoard(m.to) && m.kind.EpCapture?
            && GrammarOk(st.target) && st.target.Target? && !Consistent(st)
    ensures r == Fail(PinnedCapture) <==>
            && Readable(st) && OnBoard(m.frm) && OnBoard(m.to) && m.kind.EpCapture?
            && Claimed(st, m.frm, m.to) && !MayCapture(st, m.frm, m.to)
  {
    var ok := ReadState(st);
    if !ok || !OnBoard(m.frm) || !OnBoard(m.to) { return Fail(TargetMalformed); }
    assert st.side == White || st.side == Black;
    if m.kind.EpCapture? {
      r := Capture(st, m.frm, m.to);
    } else {
      r := PlainMove(st, m);
    }
  }

  /** A target lives for one move: a move sets one exactly when it is a double advance, the target
      is then the square passed over, and whatever target there was is gone. */
  lemma TargetLifetime(st: State, m: EpMove)
    requires Readable(st) && Allowed(st, m)
    ensures var t := Next(st, m).target;
            && (t.Target? <==> !m.kind.EpCapture? && DoubleAdvance(st, m))
            && (t.Target? ==> t.sq.file == m.to.file && t.sq.rank == m.frm.rank + Sign(m.to.rank - m.frm.rank))
            && (t.Target? ==> GrammarOk(t) && t.sq.rank == TargetRank(Next(st, m).side))
  {
  }

  /** The identity value: the target if some capture of it is legal. */
  ghost function Identity(st: State): Target {
    if st.target.Target? && exists frm :: MayCapture(st, frm, st.target.sq) then st.target else NoTarget
  }

  lemma MoverSquares(st: State, frm: Square)
    requires Placed(st.occupied) && st.target.Target? && MayCapture(st, frm, st.target.sq)
    ensures || frm == Square(st.target.sq.file - 1, MoverRank(st.side))
            || frm == Square(st.target.sq.file + 1, MoverRank(st.side))
    ensures OnBoard(frm)
  {
  }

  method IdentityValue(st: State) returns (malformed: bool, v: Target)
    ensures malformed <==> !Readable(st)
    ensures Readable(st) ==> v == Identity(st)
  {
    var ok := ReadState(st);
    malformed, v := !ok, NoTarget;
    if malformed || st.target.NoTarget? || !GrammarOk(st.target) { return; }
    var t := st.target.sq;
    for k := 0 to 2
      invariant k > 0 ==> !MayCapture(st, Square(t.file - 1, MoverRank(st.side)), t)
      invariant k > 1 ==> !MayCapture(st, Square(t.file + 1, MoverRank(st.side)), t)
    {
      var frm := Square(t.file + [-1, 1][k], MoverRank(st.side));
      if 0 <= frm.file < 8 {
        var r := Capture(st, frm, t);
        if r.Ok? {
          v := st.target;
          return;
        }
      } else {
        assert frm !in st.occupied;
      }
    }
    forall frm ensures !MayCapture(st, frm, t) {
      if MayCapture(st, frm, t) { MoverSquares(st, frm); }
    }
  }
}
