/** Position identity (`graph/position_digest.py`, `graph/transposition_node.py`): the en-passant
    component, its agreement with the en-passant runtime, and the normalised snapshot. */
module PositionIdentity {
  import opened Chess
  import opened Text
  import opened FenAttack
  import opened Fen
  import EnPassant

  // The ranks the en-passant contract names for the side to move
  function TargetRank(c: Color): int { if c.White? then 6 else 3 }

  function MoverRank(c: Color): int { if c.White? then 5 else 4 }

  // The board after an en-passant capture from file `file`
  function Captured(f: Fen, file: int): Placement
    requires f.ep.Some?
  {
    var e, r := f.ep.value, MoverRank(f.color);
    (f.board - {Square(file, r), Square(e.file, r)})[Square(e.file, TargetRank(f.color)) := Piece(f.color, Pawn)]
  }

  // A pawn on `file` may legally take the target.
  ghost predicate Takes(f: Fen, file: int)
    requires f.ep.Some?
  {
    && 0 <= file < 8 && Abs(file - f.ep.value.file) == 1
    && Look(f.board, Square(file, MoverRank(f.color))) == Some(Piece(f.color, Pawn))
    && !InCheck(Captured(f, file), f.color)
  }

  ghost function EpIdentity(f: Fen): Option<Square> {
    if f.ep.Some? && exists file :: Takes(f, file) then f.ep else None
  }

  lemma CapturedKing(f: Fen, file: int, c: Color)
    requires Accepted(f) && f.ep.Some?
    requires Look(f.board, Square(file, MoverRank(f.color))) == Some(Piece(f.color, Pawn))
    ensures OneKing(Captured(f, file), c)
  {
    var q := Captured(f, file);
    assert OneKing(f.board, c) by { assert c == White || c == Black; }
    var k :| KingAt(f.board, k, c) && forall x :: KingAt(f.board, x, c) ==> x == k;
    assert KingAt(q, k, c);
    forall x | KingAt(q, x, c) ensures x == k { assert KingAt(f.board, x, c); }
  }

  // The first king of color `c`
  method KingSquare(p: Placement, c: Color) returns (k: Square)
    requires OneKing(p, c)
    ensures KingAt(p, k, c)
  {
    KingsCount(p, c);
    var kings := Where(p, Piece(c, King));
    ghost var w :| w in kings;
    k :| k in kings;
  }

  method TakesFrom(f: Fen, file: int) returns (takes: bool)
    requires Accepted(f) && f.ep.Some? && Abs(file - f.ep.value.file) == 1
    ensures takes <==> Takes(f, file)
  {
    if !(0 <= file < 8) { return false; }
    var mover := Square(file, MoverRank(f.color));
    if mover !in f.board || f.board[mover] != Piece(f.color, Pawn) { return false; }
    var after := Captured(f, file);
    CapturedKing(f, file, f.color);
    var king := KingSquare(after, f.color);
    var hit := FenAttack.Attack(after, king, f.color.Other());
    takes := !hit;
  }

  method EpIdentityOf(f: Fen) returns (r: Option<Square>)
    requires Accepted(f)
    ensures r == EpIdentity(f)
  {
    if f.ep.None? { return None; }
    TakesBeside(f);
    var takes := TakesFromEither(f);
    return if takes then f.ep else None;
  }

  method TakesFromEither(f: Fen) returns (takes: bool)
    requires Accepted(f) && f.ep.Some?
    ensures takes <==> Takes(f, f.ep.value.file - 1) || Takes(f, f.ep.value.file + 1)
  {
    takes := TakesFrom(f, f.ep.value.file - 1);
    if !takes { takes := TakesFrom(f, f.ep.value.file + 1); }
  }

  lemma TakesBeside(f: Fen)
    requires f.ep.Some?
    ensures EpIdentity(f) == if Takes(f, f.ep.value.file - 1) || Takes(f, f.ep.value.file + 1) then f.ep else None
  {
    assert forall file :: Takes(f, file) ==> file == f.ep.value.file - 1 || file == f.ep.value.file + 1;
  }

  // ---------- agreement with the en-passant runtime ----------

  function StateOf(f: Fen): EnPassant.State {
    EnPassant.State(if f.ep.Some? then EnPassant.Target(f.ep.value) else EnPassant.NoTarget, f.board, f.color)
  }

  lemma TakesIsCapture(f: Fen, frm: Square)
    requires Accepted(f) && f.ep.Some?
    ensures EnPassant.MayCapture(StateOf(f), frm, f.ep.value) <==> frm.rank == MoverRank(f.color) && Takes(f, frm.file)
  {
    var e := f.ep.value;
    assert e == Square(e.file, TargetRank(f.color));
    assert Look(f.board, Square(e.file, MoverRank(f.color))) == Some(Piece(f.color.Other(), Pawn));
    assert frm == Square(frm.file, frm.rank);
    if frm.rank == MoverRank(f.color) {
      assert EnPassant.AfterCapture(f.board, f.color, frm, e) == Captured(f, frm.file);
    }
  }

  /** On every position the parser accepts, the two en-passant identity functions agree. */
  lemma IdentitiesAgree(f: Fen)
    requires Accepted(f)
    ensures EnPassant.Readable(StateOf(f))
    ensures EnPassant.Identity(StateOf(f)) == StateOf(f.(ep := EpIdentity(f))).target
  {
    if f.ep.Some? {
      forall frm
        ensures EnPassant.MayCapture(StateOf(f), frm, f.ep.value) <==>
                  frm.rank == MoverRank(f.color) && Takes(f, frm.file)
      {
        TakesIsCapture(f, frm);
      }
      if file :| Takes(f, file) {
        assert EnPassant.MayCapture(StateOf(f), Square(file, MoverRank(f.color)), f.ep.value);
      }
    }
  }

  // ---------- identity and the normalised snapshot ----------

  datatype Identity = Identity(variant: string, board: string, side: string, castling: string, enPassant: string)

  lemma EpIdentityGrammar(f: Fen)
    requires Accepted(f)
    ensures EpGrammar(EpIdentity(f))
  {
  }

  ghost function IdentityOf(variant: string, f: Fen): Identity
    requires Accepted(f)
  {
    EpIdentityGrammar(f);
    Identity(variant, EmitPlacement(f.board), ColorText(f.color), RightsText(f.rights), EpText(EpIdentity(f)))
  }

  // The canonical encoding that is hashed
  ghost function Encode(variant: string, f: Fen): string
    requires Accepted(f)
  {
    var i := IdentityOf(variant, f);
    Join([i.variant, i.board, i.side, i.castling, i.enPassant], ' ')
  }

  /** The position with its en-passant identity value and its clocks normalised. */
  ghost function Normal(f: Fen): Fen { f.(ep := EpIdentity(f), half := 0, full := 1) }

  ghost function Snapshot(f: Fen): string
    requires Accepted(f)
  {
    EpIdentityGrammar(f);
    Emit(Normal(f))
  }

  lemma TakesSame(f: Fen, g: Fen, file: int)
    requires f.ep.Some? && g.board == f.board && g.color == f.color && g.ep == f.ep
    ensures Takes(f, file) <==> Takes(g, file)
  {
  }

  lemma NormalAccepted(f: Fen)
    requires Accepted(f)
    ensures Accepted(Normal(f)) && Normal(Normal(f)) == Normal(f)
  {
    if EpIdentity(f).Some? {
      var file :| Takes(f, file);
      TakesSame(f, Normal(f), file);
    }
  }

  /** A snapshot always parses, is its own snapshot, and has the identity of its position. */
  lemma SnapshotFixedPoint(variant: string, f: Fen)
    requires Accepted(f)
    ensures Parse(Snapshot(f)) == Parsed(Normal(f)) && Accepted(Normal(f))
    ensures Snapshot(Normal(f)) == Snapshot(f)
    ensures IdentityOf(variant, Normal(f)) == IdentityOf(variant, f)
  {
    NormalAccepted(f);
    ParseOfEmit(Normal(f));
  }

  lemma EpTextOne(a: Option<Square>, b: Option<Square>)
    requires EpGrammar(a) && EpGrammar(b) && EpText(a) == EpText(b)
    ensures a == b
  {
  }

  /** Equal identities, equal normal positions: nothing but the position enters its identity. */
  lemma IdentityIsNormal(variant: string, f: Fen, g: Fen)
    requires Accepted(f) && Accepted(g)
    ensures IdentityOf(variant, f) == IdentityOf(variant, g) <==> Normal(f) == Normal(g)
  {
    var a, b := IdentityOf(variant, f), IdentityOf(variant, g);
    if a == b {
      assert f.board == g.board by { BoardTextOne(f.board, g.board); }
      assert f.rights == g.rights by { RightsTextOne(f.rights, g.rights); }
      assert EpIdentity(f) == EpIdentity(g) by {
        EpIdentityGrammar(f);
        EpIdentityGrammar(g);
        EpTextOne(EpIdentity(f), EpIdentity(g));
      }
      assert f.color == g.color;
    }
  }

  lemma BoardTextOne(a: Placement, b: Placement)
    requires Placed(a) && Placed(b) && EmitPlacement(a) == EmitPlacement(b)
    ensures a == b
  {
    PlacementRoundTrip(EmitPlacement(a), a);
    PlacementRoundTrip(EmitPlacement(a), b);
    WritesOne(EmitPlacement(a), a, b);
  }

  lemma RightsTextOne(a: string, b: string)
    requires Canonical(a) == a && Canonical(b) == b && RightsText(a) == RightsText(b)
    ensures a == b
  {
  }

  /** The hashed encoding separates identities. */
  lemma EncodeInjective(v: string, f: Fen, w: string, g: Fen)
    requires Accepted(f) && Accepted(g) && Free(v, ' ') && Free(w, ' ') && Encode(v, f) == Encode(w, g)
    ensures IdentityOf(v, f) == IdentityOf(w, g)
  {
    EncodeSplits(v, f);
    EncodeSplits(w, g);
    var a, b := IdentityOf(v, f), IdentityOf(w, g);
    var x := [a.variant, a.board, a.side, a.castling, a.enPassant];
    var y := [b.variant, b.board, b.side, b.castling, b.enPassant];
    assert x == y;
    assert x[0] == y[0] && x[1] == y[1] && x[2] == y[2] && x[3] == y[3] && x[4] == y[4];
  }

  lemma EncodeSplits(v: string, f: Fen)
    requires Accepted(f) && Free(v, ' ')
    ensures var i := IdentityOf(v, f);
            Split(Encode(v, f), ' ') == [i.variant, i.board, i.side, i.castling, i.enPassant]
  {
    var i := IdentityOf(v, f);
    PartsFree(v, f);
    SplitFive(i.variant, i.board, i.side, i.castling, i.enPassant);
  }

  lemma SplitFive(a: string, b: string, c: string, d: string, e: string)
    requires Free(a, ' ') && Free(b, ' ') && Free(c, ' ') && Free(d, ' ') && Free(e, ' ')
    ensures Split(Join([a, b, c, d, e], ' '), ' ') == [a, b, c, d, e]
  {
    SplitJoin([a, b, c, d, e], ' ');
  }

  lemma PartsFree(v: string, f: Fen)
    requires Accepted(f) && Free(v, ' ')
    ensures var i := IdentityOf(v, f);
            Free(i.board, ' ') && Free(i.side, ' ') && Free(i.castling, ' ') && Free(i.enPassant, ' ')
  {
    EpIdentityGrammar(f);
    FieldsFree(f);
    FieldsFree(Normal(f));
    var i := IdentityOf(v, f);
    assert i.board == Fields(f)[0] && i.side == Fields(f)[1] && i.castling == Fields(f)[2];
    assert i.enPassant == Fields(Normal(f))[3];
  }
}
