/** The FEN parser and printer (`graph/fen.py`) and their round trip. */
module Fen {
  import opened Chess
  import opened Text
  import opened FenPlacement
  import opened FenAttack

  datatype Fen = Fen(board: Placement, color: Color, rights: string, ep: Option<Square>, half: nat, full: nat)

  datatype FenResult = Parsed(fen: Fen) | MalformedFen | ImpossiblePosition

  // ---------- placement ----------

  // The row of `board` on rank `r`
  function RowOf(board: Placement, r: int): (row: seq<Cell>)
    ensures |row| == 8 && forall f :: 0 <= f < 8 ==> row[f] == Look(board, Square(f, r))
  {
    seq(8, f => Look(board, Square(f, r)))
  }

  // Ranks are written from the eighth down.
  function EmitRows(board: Placement): (rows: seq<string>)
    ensures |rows| == 8 && forall i :: 0 <= i < 8 ==> rows[i] == EmitRow(RowOf(board, 8 - i))
  {
    seq(8, i => EmitRow(RowOf(board, 8 - i)))
  }

  function EmitPlacement(board: Placement): string { Join(EmitRows(board), '/') }

  ghost predicate RowsWrite(rows: seq<string>, board: Placement) {
    |rows| == 8 && forall i :: 0 <= i < 8 ==> ParseRow(rows[i]) == Some(RowOf(board, 8 - i))
  }

  // `text` writes the men of `board`
  ghost predicate Writes(text: string, board: Placement) {
    Placed(board) && RowsWrite(Split(text, '/'), board)
  }

  predicate PlacementOk(text: string) {
    |Split(text, '/')| == 8 && forall i :: 0 <= i < 8 ==> ParseRow(Split(text, '/')[i]).Some?
  }

  lemma RowsRoundTrip(rows: seq<string>, board: Placement)
    ensures RowsWrite(rows, board) <==> rows == EmitRows(board)
  {
    if |rows| == 8 {
      forall i | 0 <= i < 8
        ensures ParseRow(rows[i]) == Some(RowOf(board, 8 - i)) <==> rows[i] == EmitRows(board)[i]
      {
        RowRoundTrip(rows[i], RowOf(board, 8 - i));
      }
    }
  }

  lemma EmittedRowsSplit(board: Placement)
    ensures Split(EmitPlacement(board), '/') == EmitRows(board)
  {
    RowsRoundTrip(EmitRows(board), board);
    forall i | 0 <= i < 8 ensures Free(EmitRows(board)[i], '/') {
      assert ParseRow(EmitRows(board)[i]).Some?;
      RowChars(EmitRows(board)[i], '/');
    }
    SplitJoin(EmitRows(board), '/');
  }

  /** One text writes a board, and it is the text the printer emits. */
  lemma PlacementRoundTrip(text: string, board: Placement)
    requires Placed(board)
    ensures Writes(text, board) <==> text == EmitPlacement(board)
  {
    EmittedRowsSplit(board);
    RowsRoundTrip(Split(text, '/'), board);
    JoinSplit(text, '/');
  }

  lemma WritesOne(text: string, a: Placement, b: Placement)
    requires Writes(text, a) && Writes(text, b)
    ensures a == b
  {
    forall s: Square ensures Look(a, s) == Look(b, s) {
      if OnBoard(s) {
        var i := 8 - s.rank;
        assert ParseRow(Split(text, '/')[i]) == Some(RowOf(a, 8 - i)) == Some(RowOf(b, 8 - i));
        assert RowOf(a, s.rank)[s.file] == RowOf(b, s.rank)[s.file];
      }
    }
    assert forall s :: s in a ==> Look(a, s) == Look(b, s);
    assert forall s :: s in b ==> Look(a, s) == Look(b, s);
  }

  // The inner loop of `parse_fen`: one row into the board
  method ParseRank(row: string, r: int, before: Placement) returns (ok: bool, board: Placement)
    requires forall s :: s in before ==> s.rank != r
    ensures ok <==> ParseRow(row).Some?
    ensures ok ==> forall s ::
      (Look(board, s) == if s.rank == r && 0 <= s.file < 8 then ParseRow(row).value[s.file] else Look(before, s))
  {
    board := before;
    var f, prevDigit := 0, false;
    ok := false;
    for k := 0 to |row|
      invariant ScanRow(row[..k]).Scan? && ScanRow(row[..k]).prevDigit == prevDigit
      invariant |ScanRow(row[..k]).cells| == f
      invariant forall s ::
          (Look(board, s) ==
           if s.rank == r && 0 <= s.file < f then ScanRow(row[..k]).cells[s.file] else Look(before, s))
    {
      var ch := row[k];
      assert row[..k + 1][..k] == row[..k];
      if RunDigit(ch) {
        if prevDigit { ScanFails(row, k); return; }
        f, prevDigit := f + DigitValue(ch), true;
      } else if PieceOf(ch).Some? {
        board := board[Square(f, r) := PieceOf(ch).value];
        f, prevDigit := f + 1, false;
      } else {
        ScanFails(row, k);
        return;
      }
    }
    assert row[..|row|] == row;
    ok := f == 8;
  }

  lemma {:induction false} ScanFails(row: string, k: nat)
    requires k < |row| && ScanRow(row[..k + 1]).Bad?
    ensures ScanRow(row).Bad?
    decreases |row|
  {
    if k + 1 < |row| {
      assert row[..|row| - 1][..k + 1] == row[..k + 1];
      ScanFails(row[..|row| - 1], k);
    } else {
      assert row[..k + 1] == row;
    }
  }

  // What the board holds after the first `i` rows
  ghost predicate RowsRead(rows: seq<string>, i: nat, board: Placement)
    requires |rows| == 8
  {
    && (forall j :: 0 <= j < i && j < 8 ==> ParseRow(rows[j]).Some?)
    && forall s :: Look(board, s) == CellRead(rows, i, s)
  }

  function CellRead(rows: seq<string>, i: nat, s: Square): Cell
    requires |rows| == 8
  {
    if 8 - i < s.rank <= 8 && 1 <= s.rank && 0 <= s.file < 8 && ParseRow(rows[8 - s.rank]).Some?
    then ParseRow(rows[8 - s.rank]).value[s.file] else None
  }

  lemma AllRowsRead(rows: seq<string>, board: Placement)
    requires |rows| == 8 && RowsRead(rows, 8, board)
    ensures Placed(board) && RowsWrite(rows, board)
  {
    forall i | 0 <= i < 8 ensures ParseRow(rows[i]) == Some(RowOf(board, 8 - i)) {
      var cells := ParseRow(rows[i]).value;
      forall f | 0 <= f < 8 ensures RowOf(board, 8 - i)[f] == cells[f] {
        assert Look(board, Square(f, 8 - i)) == CellRead(rows, 8, Square(f, 8 - i));
      }
      assert RowOf(board, 8 - i) == cells;
    }
    forall s | s in board ensures OnBoard(s) { assert Look(board, s) == CellRead(rows, 8, s); }
  }

  method ParsePlacement(text: string) returns (ok: bool, board: Placement)
    ensures ok <==> PlacementOk(text)
    ensures ok ==> Writes(text, board)
  {
    var rows := Split(text, '/');
    board := map[];
    ok := |rows| == 8;
    if !ok { return; }
    for i := 0 to 8
      invariant RowsRead(rows, i, board)
    {
      forall s | s in board ensures s.rank != 8 - i { assert Look(board, s) == CellRead(rows, i, s); }
      ghost var before := board;
      ok, board := ParseRank(rows[i], 8 - i, board);
      if !ok { return; }
      forall s ensures Look(board, s) == CellRead(rows, i + 1, s) { assert Look(before, s) == CellRead(rows, i, s); }
    }
    AllRowsRead(rows, board);
    ok := true;
  }

  // The row loop of `emit_fen`
  method EmitRank(board: Placement, r: int) returns (row: string)
    ensures row == EmitRow(RowOf(board, r))
  {
    ghost var cells := RowOf(board, r);
    var text, empty := "", 0;
    for f := 0 to 8
      invariant empty >= 0 && WriteCells(cells[..f]) == Pen(text, empty)
    {
      assert cells[..f + 1][..f] == cells[..f];
      if Square(f, r) in board {
        if empty > 0 {
          text := text + Dec(empty);
          empty := 0;
        }
        text := text + [Letter(board[Square(f, r)])];
      } else {
        empty := empty + 1;
      }
    }
    assert cells[..8] == cells;
    if empty > 0 { text := text + Dec(empty); }
    row := text;
  }

  // ---------- the other fields ----------

  function ColorText(c: Color): string { if c.White? then "w" else "b" }

  const RIGHTS: string := "KQkq"

  // The letters of `s` that are rights, in their fixed order
  function Canonical(s: string): string {
    (if 'K' in s then "K" else "") + (if 'Q' in s then "Q" else "") +
    (if 'k' in s then "k" else "") + (if 'q' in s then "q" else "")
  }

  function RightsText(rights: string): string { if rights == "" then "-" else rights }

  predicate RightsFieldOk(s: string) {
    || s == "-"
    || (&& s != "" && (forall ch :: ch in s ==> ch in RIGHTS)
        && (forall i, j :: 0 <= i < j < |s| ==> s[i] != s[j]) && Canonical(s) == s)
  }

  function SquareName(s: Square): string
    requires OnBoard(s)
  {
    ['a' + s.file as char, '0' + s.rank as char]
  }

  predicate EpGrammar(ep: Option<Square>) {
    ep.Some? ==> 0 <= ep.value.file < 8 && ep.value.rank in {3, 6}
  }

  function EpText(ep: Option<Square>): string
    requires EpGrammar(ep)
  {
    if ep.Some? then SquareName(ep.value) else "-"
  }

  predicate EpFieldOk(s: string) {
    s == "-" || (|s| == 2 && 'a' <= s[0] <= 'h' && s[1] in {'3', '6'})
  }

  function EpField(s: string): Option<Square>
    requires EpFieldOk(s)
  {
    if s == "-" then None else Some(Square((s[0] - 'a') as int, (s[1] - '0') as int))
  }

  predicate CounterOk(s: string, min: nat) {
    s != "" && AllDigits(s) && Dec(ParseNat(s)) == s && ParseNat(s) >= min
  }

  // The shape every parsed position has
  ghost predicate Grammatical(f: Fen) {
    Placed(f.board) && Canonical(f.rights) == f.rights && EpGrammar(f.ep) && f.full >= 1
  }

  /** `text` is the six fields of `f`. */
  ghost predicate Denotes(text: string, f: Fen) {
    var parts := Split(text, ' ');
    && Grammatical(f) && |parts| == 6
    && Writes(parts[0], f.board) && parts[1] == ColorText(f.color) && parts[2] == RightsText(f.rights)
    && parts[3] == EpText(f.ep) && parts[4] == Dec(f.half) && parts[5] == Dec(f.full)
  }

  function Fields(f: Fen): (parts: seq<string>)
    requires EpGrammar(f.ep)
  {
    [EmitPlacement(f.board), ColorText(f.color), RightsText(f.rights), EpText(f.ep), Dec(f.half), Dec(f.full)]
  }

  function Emit(f: Fen): string
    requires EpGrammar(f.ep)
  {
    Join(Fields(f), ' ')
  }

  lemma JoinFree(parts: seq<string>, c: char, d: char)
    requires |parts| > 0 && c != d && forall k :: 0 <= k < |parts| ==> Free(parts[k], d)
    ensures Free(Join(parts, c), d)
  {
  }

  lemma PlacementFree(board: Placement)
    ensures Free(EmitPlacement(board), ' ')
  {
    RowsRoundTrip(EmitRows(board), board);
    forall i | 0 <= i < 8 ensures Free(EmitRows(board)[i], ' ') {
      assert ParseRow(EmitRows(board)[i]).Some?;
      RowChars(EmitRows(board)[i], ' ');
    }
    JoinFree(EmitRows(board), '/', ' ');
  }

  lemma CanonicalFree(s: string)
    ensures Free(Canonical(s), ' ')
  {
  }

  lemma FieldsFree(f: Fen)
    requires Grammatical(f)
    ensures forall k :: 0 <= k < 6 ==> Free(Fields(f)[k], ' ')
  {
    PlacementFree(f.board);
    CanonicalFree(f.rights);
    assert Free(RightsText(f.rights), ' ');
    assert Free(EpText(f.ep), ' ');
    assert Free(Dec(f.half), ' ') && Free(Dec(f.full), ' ');
  }

  /** Every position has exactly one text: the one the printer emits. */
  lemma FenRoundTrip(text: string, f: Fen)
    requires Grammatical(f)
    ensures Denotes(text, f) <==> text == Emit(f)
  {
    FieldsFree(f);
    SplitJoin(Fields(f), ' ');
    JoinSplit(text, ' ');
    assert text == Emit(f) <==> Split(text, ' ') == Fields(f);
    PlacementRoundTrip(Split(text, ' ')[0], f.board);
  }

  lemma DenotesOne(text: string, f: Fen, g: Fen)
    requires Denotes(text, f) && Denotes(text, g)
    ensures f == g
  {
    var parts := Split(text, ' ');
    WritesOne(parts[0], f.board, g.board);
    DecInjective(f.half, g.half);
    DecInjective(f.full, g.full);
  }

  // ---------- position rules ----------

  function OfColor(board: Placement, c: Color): set<Square> { set s | s in board && board[s].color == c }

  function Excess(board: Placement, c: Color): nat {
    ExcessOf(board, c, Queen, 1) + ExcessOf(board, c, Rook, 2) +
    ExcessOf(board, c, Bishop, 2) + ExcessOf(board, c, Knight, 2)
  }

  function ExcessOf(board: Placement, c: Color, k: Kind, start: nat): nat {
    var have := |Where(board, Piece(c, k))|;
    if have > start then have - start else 0
  }

  // Officers beyond the start set are paid for by missing pawns.
  predicate MaterialOk(board: Placement, c: Color) {
    var pawns := |Where(board, Piece(c, Pawn))|;
    pawns <= 8 && |OfColor(board, c)| <= 16 && Excess(board, c) <= 8 - pawns
  }

  ghost predicate KingsApart(board: Placement) {
    forall a, b :: KingAt(board, a, White) && KingAt(board, b, Black) ==>
                     Max(Abs(a.file - b.file), Abs(a.rank - b.rank)) > 1
  }

  predicate BackRanksClear(board: Placement) {
    forall s :: s in board && board[s].kind.Pawn? ==> s.rank != 1 && s.rank != 8
  }

  // A held right has its king and rook at home.
  predicate RightAtHome(board: Placement, right: char) {
    var c := if right in {'K', 'Q'} then White else Black;
    var r := if c.White? then 1 else 8;
    && Look(board, Square(4, r)) == Some(Piece(c, King))
    && Look(board, Square(if right in {'K', 'k'} then 7 else 0, r)) == Some(Piece(c, Rook))
  }

  predicate EpPossible(f: Fen) {
    f.ep.Some? ==>
      var e, c := f.ep.value, f.color.Other();
      && e.rank == (if c.White? then 3 else 6)
      && Look(f.board, Square(e.file, e.rank + Forward(c))) == Some(Piece(c, Pawn))
      && e !in f.board && Square(e.file, e.rank - Forward(c)) !in f.board
      && f.half == 0
  }

  ghost predicate Possible(f: Fen) {
    && OneKing(f.board, White) && OneKing(f.board, Black) && KingsApart(f.board)
    && BackRanksClear(f.board) && MaterialOk(f.board, White) && MaterialOk(f.board, Black)
    && !InCheck(f.board, f.color.Other())
    && (forall x :: x in f.rights ==> RightAtHome(f.board, x))
    && EpPossible(f)
  }

  /** What `parse_fen` accepts. */
  ghost predicate Accepted(f: Fen) { Grammatical(f) && Possible(f) }

  method KingsOk(board: Placement, mover: Color) returns (ok: bool)
    requires Placed(board)
    ensures ok <==>
              OneKing(board, White) && OneKing(board, Black) && KingsApart(board) && !InCheck(board, mover.Other())
  {
    var whites, blacks := Where(board, Piece(White, King)), Where(board, Piece(Black, King));
    KingsCount(board, White);
    KingsCount(board, Black);
    if |whites| != 1 || |blacks| != 1 { return false; }
    assert OneKing(board, White) && OneKing(board, Black);
    var w :| w in whites;
    var b :| b in blacks;
    assert KingAt(board, w, White) && KingAt(board, b, Black);
    if Max(Abs(w.file - b.file), Abs(w.rank - b.rank)) <= 1 { return false; }
    var hit := FenAttack.Attack(board, if mover.White? then b else w, mover);
    ok := !hit;
  }

  method CheckPosition(f: Fen) returns (ok: bool)
    requires Grammatical(f)
    ensures ok <==> Possible(f)
  {
    var kings := KingsOk(f.board, f.color);
    ok := kings && BackRanksClear(f.board) && MaterialOk(f.board, White) && MaterialOk(f.board, Black)
      && (forall x :: x in f.rights ==> RightAtHome(f.board, x)) && EpPossible(f);
  }

  // ---------- the parser and the printer ----------

  ghost function Denoted(text: string): Fen
    requires exists f :: Denotes(text, f)
    ensures Denotes(text, Denoted(text))
  {
    var f :| Denotes(text, f); f
  }

  /** Text that denotes no position is malformed; otherwise the answer depends on the position. */
  ghost function Parse(text: string): FenResult {
    if !exists f :: Denotes(text, f) then MalformedFen
    else if Possible(Denoted(text)) then Parsed(Denoted(text))
    else ImpossiblePosition
  }

  lemma RightsField(rights: string, s: string)
    ensures RightsFieldOk(s) ==> var r := if s == "-" then "" else s; Canonical(r) == r && RightsText(r) == s
    ensures Canonical(rights) == rights ==> RightsFieldOk(RightsText(rights))
  {
  }

  lemma EpFields(ep: Option<Square>, s: string)
    ensures EpFieldOk(s) ==> EpGrammar(EpField(s)) && EpText(EpField(s)) == s
    ensures EpGrammar(ep) ==> EpFieldOk(EpText(ep))
  {
  }

  // The fields after the placement
  predicate TailOk(parts: seq<string>)
    requires |parts| == 6
  {
    && (parts[1] == "w" || parts[1] == "b")
    && CounterOk(parts[4], 0) && CounterOk(parts[5], 1)
    && RightsFieldOk(parts[2]) && EpFieldOk(parts[3])
  }

  lemma DenotedFields(text: string, g: Fen)
    requires Denotes(text, g)
    ensures PlacementOk(Split(text, ' ')[0]) && TailOk(Split(text, ' '))
    ensures forall k :: 0 <= k < 6 ==> Split(text, ' ')[k] != ""
  {
    ParseDec(g.half);
    ParseDec(g.full);
    RightsField(g.rights, "");
    EpFields(g.ep, "");
    assert Split(text, ' ')[0] != "";
  }

  function Assemble(parts: seq<string>, board: Placement): Fen
    requires |parts| == 6 && TailOk(parts)
  {
    Fen(board, if parts[1] == "w" then White else Black, if parts[2] == "-" then "" else parts[2],
        EpField(parts[3]), ParseNat(parts[4]), ParseNat(parts[5]))
  }

  lemma AssembledDenotes(text: string, board: Placement)
    requires |Split(text, ' ')| == 6 && TailOk(Split(text, ' ')) && Writes(Split(text, ' ')[0], board)
    ensures Denotes(text, Assemble(Split(text, ' '), board))
  {
    RightsField("", Split(text, ' ')[2]);
    EpFields(None, Split(text, ' ')[3]);
  }

  // The grammar part of the parser
  method ParseFields(text: string) returns (ok: bool, f: Fen)
    ensures ok <==> exists g :: Denotes(text, g)
    ensures ok ==> Denotes(text, f)
  {
    ok, f := false, Fen(map[], White, "", None, 0, 1);
    var parts := Split(text, ' ');
    forall g | Denotes(text, g)
      ensures PlacementOk(parts[0]) && TailOk(parts) && forall k :: 0 <= k < 6 ==> parts[k] != ""
    {
      DenotedFields(text, g);
    }
    if |parts| != 6 || exists k :: 0 <= k < 6 && parts[k] == "" { return; }
    var placed, board := ParsePlacement(parts[0]);
    if !placed { return; }
    if !TailOk(parts) { return; }
    AssembledDenotes(text, board);
    ok, f := true, Assemble(parts, board);
  }

  method ParseFen(text: string) returns (r: FenResult)
    ensures r == Parse(text)
  {
    var ok, f := ParseFields(text);
    if !ok { return MalformedFen; }
    DenotesOne(text, f, Denoted(text));
    var possible := CheckPosition(f);
    r := if possible then Parsed(f) else ImpossiblePosition;
  }

  method EmitFen(f: Fen) returns (text: string)
    requires EpGrammar(f.ep)
    ensures text == Emit(f)
  {
    var rows := [];
    for i := 0 to 8
      invariant |rows| == i && forall j :: 0 <= j < i ==> rows[j] == EmitRow(RowOf(f.board, 8 - j))
    {
      var row := EmitRank(f.board, 8 - i);
      rows := rows + [row];
    }
    assert rows == EmitRows(f.board);
    text := Join([Join(rows, '/'), ColorText(f.color), RightsText(f.rights), EpText(f.ep), Dec(f.half), Dec(f.full)],
                 ' ');
  }

  /** `emit(parse(t)) == t` for every accepted text. */
  lemma EmitOfParse(text: string)
    requires Parse(text).Parsed?
    ensures Accepted(Parse(text).fen) && Emit(Parse(text).fen) == text
  {
    var f :| Denotes(text, f);
    FenRoundTrip(text, Parse(text).fen);
  }

  /** `parse(emit(p)) == p` for every accepted position. */
  lemma ParseOfEmit(f: Fen)
    requires Accepted(f)
    ensures Parse(Emit(f)) == Parsed(f)
  {
    FenRoundTrip(Emit(f), f);
    DenotesOne(Emit(f), f, Denoted(Emit(f)));
  }
}
