/** The chessboard and the attack relation of Article 3 of the FIDE Laws of Chess.
    The three attack detectors of the repository are each proved to decide `Attacked`. */
module Chess {

  datatype Option<+T> = None | Some(value: T)

  datatype Color = White | Black {
    function Other(): Color { if White? then Black else White }
  }

  datatype Kind = Pawn | Knight | Bishop | Rook | Queen | King

  datatype Piece = Piece(color: Color, kind: Kind)

  // Files count from 0 (the a-file), ranks from 1.
  datatype Square = Square(file: int, rank: int)

  type Placement = map<Square, Piece>

  // What a square holds
  type Cell = Option<Piece>

  function Look(p: Placement, s: Square): Cell { if s in p then Some(p[s]) else None }

  predicate OnBoard(s: Square) {
    0 <= s.file < 8 && 1 <= s.rank <= 8
  }

  const SQUARES: set<Square> := set f, r | 0 <= f < 8 && 1 <= r <= 8 :: Square(f, r)

  lemma AllSquares(s: Square)
    ensures s in SQUARES <==> OnBoard(s)
  {
    assert OnBoard(s) ==> Square(s.file, s.rank) in SQUARES;
  }

  datatype Dir = Dir(df: int, dr: int)

  const KNIGHT: seq<Dir> :=
    [Dir(1, 2), Dir(2, 1), Dir(-1, 2), Dir(-2, 1), Dir(1, -2), Dir(2, -1), Dir(-1, -2), Dir(-2, -1)]
  const ROOK: seq<Dir> := [Dir(1, 0), Dir(-1, 0), Dir(0, 1), Dir(0, -1)]
  const BISHOP: seq<Dir> := [Dir(1, 1), Dir(1, -1), Dir(-1, 1), Dir(-1, -1)]

  function Forward(c: Color): int { if c.White? then 1 else -1 }

  function Abs(x: int): nat { if x < 0 then -x else x }

  function Sign(x: int): int { if x < 0 then -1 else if x == 0 then 0 else 1 }

  function Max(x: int, y: int): int { if x < y then y else x }

  // `n` times a component that is -1, 0 or 1
  function Scale(n: nat, u: int): int { if u == 0 then 0 else if u < 0 then 0 - n else n }

  predicate IsDir(d: Dir) {
    -1 <= d.df <= 1 && -1 <= d.dr <= 1 && (d.df != 0 || d.dr != 0)
  }

  predicate Straight(d: Dir) { d.df == 0 || d.dr == 0 }

  // The n-th square from `s` in direction `d`
  function Walk(s: Square, d: Dir, n: nat): Square {
    Square(s.file + Scale(n, d.df), s.rank + Scale(n, d.dr))
  }

  function Plus(s: Square, d: Dir): Square { Square(s.file + d.df, s.rank + d.dr) }

  function Minus(s: Square, t: Square): Dir { Dir(s.file - t.file, s.rank - t.rank) }

  function Toward(s: Square, t: Square): Dir {
    Dir(Sign(t.file - s.file), Sign(t.rank - s.rank))
  }

  function Distance(s: Square, t: Square): nat {
    Max(Abs(t.file - s.file), Abs(t.rank - s.rank))
  }

  // No piece stands strictly between `s` and `t`
  ghost predicate Clear(p: Placement, s: Square, t: Square) {
    forall k: nat :: 0 < k < Distance(s, t) ==> Walk(s, Toward(s, t), k) !in p
  }

  predicate KnightJump(df: int, dr: int) {
    (Abs(df) == 1 && Abs(dr) == 2) || (Abs(df) == 2 && Abs(dr) == 1)
  }

  predicate Aligned(k: Kind, df: int, dr: int) {
    || (k in {Rook, Queen} && ((df == 0) != (dr == 0)))
    || (k in {Bishop, Queen} && df != 0 && Abs(df) == Abs(dr))
  }

  /** The piece on `s` attacks `t`; what stands on `t` itself does not matter. */
  ghost predicate Attacks(p: Placement, s: Square, t: Square)
    requires s in p
  {
    var df, dr := t.file - s.file, t.rank - s.rank;
    match p[s].kind
    case Pawn => Abs(df) == 1 && dr == Forward(p[s].color)
    case Knight => KnightJump(df, dr)
    case King => Max(Abs(df), Abs(dr)) == 1
    case _ => Aligned(p[s].kind, df, dr) && Clear(p, s, t)
  }

  /** Some piece of color `side` attacks `t`. */
  ghost predicate Attacked(p: Placement, t: Square, side: Color) {
    exists s :: s in p && p[s].color == side && Attacks(p, s, t)
  }

  // The same, by a piece of one of the given kinds
  ghost predicate AttackedBy(p: Placement, t: Square, side: Color, kinds: set<Kind>) {
    exists s :: s in p && p[s].color == side && p[s].kind in kinds && Attacks(p, s, t)
  }

  const SLIDERS: set<Kind> := {Bishop, Rook, Queen}

  lemma AttackedByKinds(p: Placement, t: Square, side: Color)
    ensures Attacked(p, t, side) <==>
      || AttackedBy(p, t, side, {Pawn}) || AttackedBy(p, t, side, {Knight})
      || AttackedBy(p, t, side, SLIDERS) || AttackedBy(p, t, side, {King})
  {
    if Attacked(p, t, side) {
      var s :| s in p && p[s].color == side && Attacks(p, s, t);
      assert p[s].kind in {Pawn} || p[s].kind in {Knight} || p[s].kind in SLIDERS || p[s].kind in {King};
    }
  }

  ghost predicate KingAt(p: Placement, s: Square, c: Color) {
    s in p && p[s] == Piece(c, King)
  }

  ghost predicate OneKing(p: Placement, c: Color) {
    exists s :: KingAt(p, s, c) && forall q :: KingAt(p, q, c) ==> q == s
  }

  ghost predicate InCheck(p: Placement, c: Color) {
    exists s :: KingAt(p, s, c) && Attacked(p, s, c.Other())
  }

  // The squares of the men of one kind and color
  function Where(p: Placement, man: Piece): set<Square> {
    set s | s in p && p[s] == man
  }

  lemma KingsCount(p: Placement, c: Color)
    ensures |Where(p, Piece(c, King))| == 1 <==> OneKing(p, c)
  {
    var kings := Where(p, Piece(c, King));
    if |kings| == 1 {
      var s :| s in kings;
      assert |kings - {s}| == 0;
      assert KingAt(p, s, c) && forall q :: KingAt(p, q, c) ==> q in kings;
    }
    if OneKing(p, c) {
      var s :| KingAt(p, s, c) && forall q :: KingAt(p, q, c) ==> q == s;
      assert forall q :: q in kings ==> KingAt(p, q, c);
      assert kings == {s} && |{s}| == 1;
    }
  }

  // A piece of kind `k` slides along direction `d`
  predicate Slides(k: Kind, d: Dir) {
    if Straight(d) then k in {Rook, Queen} else k in {Bishop, Queen}
  }

  // The first piece met on the ray from `t` in direction `d` stands at step `n`
  ghost predicate FirstAt(p: Placement, t: Square, d: Dir, n: nat) {
    n > 0 && Walk(t, d, n) in p && EmptyUpTo(p, t, d, n)
  }

  ghost predicate EmptyUpTo(p: Placement, t: Square, d: Dir, n: nat) {
    forall k: nat :: 0 < k < n ==> Walk(t, d, k) !in p
  }

  // Some slider of color `side` attacks `t` along the ray that leaves `t` in direction `d`
  ghost predicate RayHit(p: Placement, t: Square, d: Dir, side: Color) {
    exists n: nat :: FirstAt(p, t, d, n) && p[Walk(t, d, n)].color == side && Slides(p[Walk(t, d, n)].kind, d)
  }

  /** Seen from either end, a line holds the same squares in reverse order. */
  lemma LineReverses(s: Square, t: Square)
    requires s.file == t.file || s.rank == t.rank || Abs(t.file - s.file) == Abs(t.rank - s.rank)
    ensures Distance(s, t) == Distance(t, s)
    ensures forall k: nat :: k <= Distance(s, t) ==>
              Walk(s, Toward(s, t), k) == Walk(t, Toward(t, s), Distance(s, t) - k)
  {
  }

  lemma ClearReverses(p: Placement, s: Square, t: Square)
    requires s.file == t.file || s.rank == t.rank || Abs(t.file - s.file) == Abs(t.rank - s.rank)
    ensures Clear(p, s, t) <==> Clear(p, t, s)
  {
    LineReverses(s, t);
    LineReverses(t, s);
    if Clear(p, s, t) {
      forall k: nat | 0 < k < Distance(t, s) ensures Walk(t, Toward(t, s), k) !in p {
        assert Walk(s, Toward(s, t), Distance(s, t) - k) !in p;
      }
    }
    if Clear(p, t, s) {
      forall k: nat | 0 < k < Distance(s, t) ensures Walk(s, Toward(s, t), k) !in p {
        assert Walk(t, Toward(t, s), Distance(s, t) - k) !in p;
      }
    }
  }

  /** Walking `n` steps in direction `d` and looking back gives `d` and `n` again. */
  lemma WalkIsLine(t: Square, d: Dir, n: nat)
    requires IsDir(d) && n > 0
    ensures var s := Walk(t, d, n);
            && Toward(t, s) == d && Distance(t, s) == n
            && (s.file == t.file || s.rank == t.rank || Abs(t.file - s.file) == Abs(t.rank - s.rank))
            && forall k :: k in SLIDERS ==>
                 (Aligned(k, t.file - s.file, t.rank - s.rank) <==> Slides(k, d))
  {
  }

  /** A slider at step `n` of a ray attacks the origin exactly when nothing stands before it. */
  lemma SliderOnRay(p: Placement, t: Square, d: Dir, n: nat)
    requires IsDir(d) && n > 0 && Walk(t, d, n) in p && p[Walk(t, d, n)].kind in SLIDERS
    ensures Attacks(p, Walk(t, d, n), t) <==> Slides(p[Walk(t, d, n)].kind, d) && EmptyUpTo(p, t, d, n)
  {
    WalkIsLine(t, d, n);
    ClearReverses(p, Walk(t, d, n), t);
  }

  lemma RayHitAttacks(p: Placement, t: Square, d: Dir, side: Color)
    requires IsDir(d) && RayHit(p, t, d, side)
    ensures AttackedBy(p, t, side, SLIDERS)
  {
    var n: nat :| FirstAt(p, t, d, n) && p[Walk(t, d, n)].color == side && Slides(p[Walk(t, d, n)].kind, d);
    SliderOnRay(p, t, d, n);
  }

  lemma SliderHitsRay(p: Placement, s: Square, t: Square)
    requires s in p && p[s].kind in SLIDERS && Attacks(p, s, t)
    ensures IsDir(Toward(t, s)) && RayHit(p, t, Toward(t, s), p[s].color)
  {
    var d, n := Toward(t, s), Distance(t, s);
    assert Walk(t, d, n) == s;
    SliderOnRay(p, t, d, n);
    assert FirstAt(p, t, d, n);
  }

  /** The slider part of the attack relation is a search along the eight rays of the target. */
  lemma SlidersByRays(p: Placement, t: Square, side: Color)
    ensures AttackedBy(p, t, side, SLIDERS) <==> exists d :: IsDir(d) && RayHit(p, t, d, side)
  {
    if AttackedBy(p, t, side, SLIDERS) {
      var s :| s in p && p[s].color == side && p[s].kind in SLIDERS && Attacks(p, s, t);
      SliderHitsRay(p, s, t);
    }
    forall d | IsDir(d) && RayHit(p, t, d, side) ensures AttackedBy(p, t, side, SLIDERS) {
      RayHitAttacks(p, t, d, side);
    }
  }

  lemma DirListed(d: Dir)
    requires IsDir(d)
    ensures d in ROOK + BISHOP
    ensures d in ROOK <==> Straight(d)
    ensures d in BISHOP <==> !Straight(d)
  {
    assert ROOK[0] == Dir(1, 0) && ROOK[1] == Dir(-1, 0) && ROOK[2] == Dir(0, 1) && ROOK[3] == Dir(0, -1);
    assert BISHOP[0] == Dir(1, 1) && BISHOP[1] == Dir(1, -1) && BISHOP[2] == Dir(-1, 1) && BISHOP[3] == Dir(-1, -1);
  }

  lemma DirsAreDirs(k: int)
    requires 0 <= k < |ROOK + BISHOP|
    ensures IsDir((ROOK + BISHOP)[k])
  {
  }

  /** A ray that has left the board does not come back. */
  lemma LeavesBoard(t: Square, d: Dir, n: nat, m: nat)
    requires OnBoard(t) && IsDir(d) && !OnBoard(Walk(t, d, n)) && n <= m
    ensures !OnBoard(Walk(t, d, m))
  {
  }

  lemma JumpListed(df: int, dr: int)
    ensures KnightJump(df, dr) <==> Dir(df, dr) in KNIGHT
  {
    assert KNIGHT[0] == Dir(1, 2) && KNIGHT[1] == Dir(2, 1) && KNIGHT[2] == Dir(-1, 2) && KNIGHT[3] == Dir(-2, 1);
    assert KNIGHT[4] == Dir(1, -2) && KNIGHT[5] == Dir(2, -1) && KNIGHT[6] == Dir(-1, -2) && KNIGHT[7] == Dir(-2, -1);
  }
}
