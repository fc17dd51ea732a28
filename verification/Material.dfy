/** Which armies the material check lets pass (`graph/fen.py`): those that captures and promotions can leave of the
    initial one. */
module Material {
  import opened Chess
  import opened Fen

  function Initially(k: Kind): nat {
    match k
    case King => 1 case Queen => 1 case Rook => 2 case Bishop => 2 case Knight => 2 case Pawn => 8
  }

  // What becomes of an army: men are lost, all but the king, and pawns are promoted.
  datatype Career = Enlisted | Lost(before: Career, kind: Kind) | Promoted(before: Career, kind: Kind) {
    function Count(k: Kind): int {
      match this
      case Enlisted => Initially(k)
      case Lost(c, kind) => c.Count(k) - if k == kind then 1 else 0
      case Promoted(c, kind) => c.Count(k) + (if k == kind then 1 else 0) - if k.Pawn? then 1 else 0
    }

    predicate Valid() {
      match this
      case Enlisted => true
      case Lost(c, kind) => c.Valid() && kind != King && c.Count(kind) > 0
      case Promoted(c, kind) => c.Valid() && kind in {Queen, Rook, Bishop, Knight} && c.Count(Pawn) > 0
    }
  }

  // The men of this side are those the career leaves.
  ghost predicate Musters(board: Placement, c: Color, career: Career) {
    career.Valid() && forall k :: |Where(board, Piece(c, k))| == career.Count(k)
  }

  function Over(n: int, start: int): nat { if n > start then n - start else 0 }

  function Extra(career: Career): int {
    Over(career.Count(Queen), 1) + Over(career.Count(Rook), 2) +
    Over(career.Count(Bishop), 2) + Over(career.Count(Knight), 2)
  }

  lemma {:induction false} CareerPays(career: Career)
    requires career.Valid()
    ensures career.Count(King) == 1 && 0 <= career.Count(Pawn) && Extra(career) + career.Count(Pawn) <= 8
    ensures forall k :: career.Count(k) >= 0
  {
    if !career.Enlisted? {
      CareerPays(career.before);
      forall k ensures career.Count(k) >= 0 { assert career.before.Count(k) >= 0; }
    }
  }

  // The men of a side that are of one of these kinds
  function WhereAny(board: Placement, c: Color, kinds: set<Kind>): set<Square> {
    set s | s in board && board[s].color == c && board[s].kind in kinds
  }

  lemma OneKindMore(board: Placement, c: Color, kinds: set<Kind>, k: Kind)
    requires k !in kinds
    ensures |WhereAny(board, c, kinds + {k})| == |WhereAny(board, c, kinds)| + |Where(board, Piece(c, k))|
  {
    var a, b := WhereAny(board, c, kinds), Where(board, Piece(c, k));
    assert WhereAny(board, c, kinds + {k}) == a + b && a * b == {};
  }

  lemma WhereKind(board: Placement, c: Color)
    ensures |OfColor(board, c)| ==
            |Where(board, Piece(c, King))| + |Where(board, Piece(c, Queen))| + |Where(board, Piece(c, Rook))| +
            |Where(board, Piece(c, Bishop))| + |Where(board, Piece(c, Knight))| + |Where(board, Piece(c, Pawn))|
  {
    assert WhereAny(board, c, {}) == {};
    OneKindMore(board, c, {}, King);
    OneKindMore(board, c, {King}, Queen);
    OneKindMore(board, c, {King, Queen}, Rook);
    OneKindMore(board, c, {King, Queen, Rook}, Bishop);
    OneKindMore(board, c, {King, Queen, Rook, Bishop}, Knight);
    OneKindMore(board, c, {King, Queen, Rook, Bishop, Knight}, Pawn);
    AllKinds(board, c);
    assert {} + {King} == {King} && {King} + {Queen} == {King, Queen};
    assert {King, Queen} + {Rook} == {King, Queen, Rook};
    assert {King, Queen, Rook} + {Bishop} == {King, Queen, Rook, Bishop};
    assert {King, Queen, Rook, Bishop} + {Knight} == {King, Queen, Rook, Bishop, Knight};
    assert {King, Queen, Rook, Bishop, Knight} + {Pawn} == {King, Queen, Rook, Bishop, Knight, Pawn};
  }

  lemma AllKinds(board: Placement, c: Color)
    ensures WhereAny(board, c, {King, Queen, Rook, Bishop, Knight, Pawn}) == OfColor(board, c)
  {
    forall s | s in OfColor(board, c) ensures s in WhereAny(board, c, {King, Queen, Rook, Bishop, Knight, Pawn}) {
      AnyKind(board[s].kind);
    }
  }

  lemma AnyKind(k: Kind)
    ensures k == King || k == Queen || k == Rook || k == Bishop || k == Knight || k == Pawn
  {
  }

  lemma {:induction false} PromoteMany(career: Career, kind: Kind, n: nat) returns (more: Career)
    requires career.Valid() && kind in {Queen, Rook, Bishop, Knight} && career.Count(Pawn) >= n
    ensures more.Valid() && more.Count(Pawn) == career.Count(Pawn) - n && more.Count(kind) == career.Count(kind) + n
    ensures forall k :: k != kind && k != Pawn ==> more.Count(k) == career.Count(k)
    decreases n
  {
    more := career;
    if n > 0 {
      var less := PromoteMany(career, kind, n - 1);
      more := Promoted(less, kind);
    }
  }

  lemma {:induction false} LoseDown(career: Career, kind: Kind, n: nat) returns (more: Career)
    requires career.Valid() && kind != King && career.Count(kind) >= n
    ensures more.Valid() && more.Count(kind) == n && forall k :: k != kind ==> more.Count(k) == career.Count(k)
    decreases career.Count(kind) - n
  {
    more := career;
    if career.Count(kind) > n { more := LoseDown(Lost(career, kind), kind, n); }
  }

  // A career to these numbers, where missing pawns pay for the extra officers
  lemma CareerTo(q: nat, r: nat, b: nat, n: nat, p: nat) returns (career: Career)
    requires Over(q, 1) + Over(r, 2) + Over(b, 2) + Over(n, 2) + p <= 8
    ensures career.Valid() && career.Count(King) == 1 && career.Count(Queen) == q && career.Count(Rook) == r
    ensures career.Count(Bishop) == b && career.Count(Knight) == n && career.Count(Pawn) == p
  {
    career := PromoteMany(Enlisted, Queen, Over(q, 1));
    career := PromoteMany(career, Rook, Over(r, 2));
    career := PromoteMany(career, Bishop, Over(b, 2));
    career := PromoteMany(career, Knight, Over(n, 2));
    career := LoseDown(career, Queen, q);
    career := LoseDown(career, Rook, r);
    career := LoseDown(career, Bishop, b);
    career := LoseDown(career, Knight, n);
    career := LoseDown(career, Pawn, p);
  }

  /** The material check passes exactly the armies that losses and promotions can leave of the initial one. */
  lemma MaterialMeans(board: Placement, c: Color)
    requires OneKing(board, c)
    ensures MaterialOk(board, c) <==> exists career :: Musters(board, c, career)
  {
    WhereKind(board, c);
    KingsCount(board, c);
    if MaterialOk(board, c) {
      var q, r, b := |Where(board, Piece(c, Queen))|, |Where(board, Piece(c, Rook))|, |Where(board, Piece(c, Bishop))|;
      var n, p := |Where(board, Piece(c, Knight))|, |Where(board, Piece(c, Pawn))|;
      var career := CareerTo(q, r, b, n, p);
      forall k ensures |Where(board, Piece(c, k))| == career.Count(k) { AnyKind(k); }
      assert Musters(board, c, career);
    }
    if career :| Musters(board, c, career) { CareerPays(career); }
  }
}
