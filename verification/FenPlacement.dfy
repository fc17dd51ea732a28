/** The placement field of a FEN: rank rows read and written (`graph/fen.py`; section 16.1 of the
    PGN Standard). */
module FenPlacement {
  import opened Chess
  import opened Text

  function PieceOf(ch: char): Option<Piece> {
    match ch
    case 'P' => Some(Piece(White, Pawn)) case 'N' => Some(Piece(White, Knight))
    case 'B' => Some(Piece(White, Bishop)) case 'R' => Some(Piece(White, Rook))
    case 'Q' => Some(Piece(White, Queen)) case 'K' => Some(Piece(White, King))
    case 'p' => Some(Piece(Black, Pawn)) case 'n' => Some(Piece(Black, Knight))
    case 'b' => Some(Piece(Black, Bishop)) case 'r' => Some(Piece(Black, Rook))
    case 'q' => Some(Piece(Black, Queen)) case 'k' => Some(Piece(Black, King))
    case _ => None
  }

  function Letter(man: Piece): char {
    match man
    case Piece(White, Pawn) => 'P' case Piece(White, Knight) => 'N' case Piece(White, Bishop) => 'B'
    case Piece(White, Rook) => 'R' case Piece(White, Queen) => 'Q' case Piece(White, King) => 'K'
    case Piece(Black, Pawn) => 'p' case Piece(Black, Knight) => 'n' case Piece(Black, Bishop) => 'b'
    case Piece(Black, Rook) => 'r' case Piece(Black, Queen) => 'q' case Piece(Black, King) => 'k'
  }

  lemma LetterNames(man: Piece, ch: char)
    ensures PieceOf(ch) == Some(man) <==> ch == Letter(man)
  {
  }

  predicate RunDigit(ch: char) { '1' <= ch <= '8' }

  function Blank(n: nat): (r: seq<Cell>)
    ensures |r| == n && forall k :: 0 <= k < n ==> r[k] == None
  {
    if n == 0 then [] else Blank(n - 1) + [None]
  }

  // ---------- one row, read from the left ----------

  // What has been read: the cells so far and whether the last character was a digit
  datatype Scan = Bad | Scan(cells: seq<Cell>, prevDigit: bool)

  function ScanRow(row: string): Scan {
    if row == "" then Scan([], false)
    else ScanChar(ScanRow(row[..|row| - 1]), row[|row| - 1])
  }

  function ScanChar(s: Scan, ch: char): Scan {
    if s.Bad? then Bad
    else if RunDigit(ch) then (if s.prevDigit then Bad else Scan(s.cells + Blank(DigitValue(ch)), true))
    else if PieceOf(ch).Some? then Scan(s.cells + [PieceOf(ch)], false)
    else Bad
  }

  // The eight cells of a row, if it is a row
  function ParseRow(row: string): Option<seq<Cell>> {
    var s := ScanRow(row);
    if s.Scan? && |s.cells| == 8 then Some(s.cells) else None
  }

  // ---------- one row, written from the left ----------

  // The text so far and the run of empty squares not yet written
  datatype Pen = Pen(text: string, empty: nat) {
    function Flush(): string { if empty > 0 then text + Dec(empty) else text }
  }

  function WriteCell(p: Pen, c: Cell): Pen {
    if c.Some? then Pen(p.Flush() + [Letter(c.value)], 0) else Pen(p.text, p.empty + 1)
  }

  function WriteCells(cells: seq<Cell>): Pen {
    if cells == [] then Pen("", 0) else WriteCell(WriteCells(cells[..|cells| - 1]), cells[|cells| - 1])
  }

  function EmitRow(cells: seq<Cell>): string { WriteCells(cells).Flush() }

  lemma ScanSnoc(row: string, ch: char)
    ensures ScanRow(row + [ch]) == ScanChar(ScanRow(row), ch)
  {
    assert (row + [ch])[..|row|] == row;
  }

  lemma RunDigits(n: nat)
    requires 0 < n <= 8
    ensures Dec(n) == [Digit(n)] && RunDigit(Digit(n)) && DigitValue(Digit(n)) == n
  {
  }

  lemma FlushReads(p: Pen, done: seq<Cell>)
    requires p.empty <= 8 && ScanRow(p.text) == Scan(done, false)
    ensures ScanRow(p.Flush()) == Scan(done + Blank(p.empty), p.empty > 0)
  {
    if p.empty > 0 {
      RunDigits(p.empty);
      ScanSnoc(p.text, Digit(p.empty));
    } else {
      assert done + Blank(0) == done;
    }
  }

  lemma ReadLetter(p: Pen, done: seq<Cell>, man: Piece)
    requires p.empty <= 8 && ScanRow(p.text) == Scan(done, false)
    ensures ScanRow(WriteCell(p, Some(man)).text) == Scan(done + Blank(p.empty) + [Some(man)], false)
  {
    FlushReads(p, done);
    ScanSnoc(p.Flush(), Letter(man));
    LetterNames(man, Letter(man));
    LetterIsNoDigit(man);
  }

  lemma LetterIsNoDigit(man: Piece)
    ensures !RunDigit(Letter(man))
  {
  }

  /** Writing up to eight cells and reading them back: what the pen has written scans to the cells
      before the pending run of empty squares. */
  lemma {:induction false} ReadsBack(cells: seq<Cell>) returns (done: seq<Cell>)
    requires |cells| <= 8
    ensures WriteCells(cells).empty <= 8 && ScanRow(WriteCells(cells).text) == Scan(done, false)
    ensures cells == done + Blank(WriteCells(cells).empty)
  {
    done := [];
    if cells != [] {
      var init, c := cells[..|cells| - 1], cells[|cells| - 1];
      var p := WriteCells(init);
      done := ReadsBack(init);
      assert cells == init + [c];
      assert WriteCells(cells) == WriteCell(p, c);
      if c.Some? {
        ReadLetter(p, done, c.value);
        done := cells;
        assert cells == cells + Blank(0);
      } else {
        BlankMore(done, p.empty);
      }
    }
  }

  lemma BlankMore(done: seq<Cell>, n: nat)
    ensures done + Blank(n) + [None] == done + Blank(n + 1)
  {
  }

  lemma {:induction false} WriteBlanks(cells: seq<Cell>, n: nat)
    ensures var p := WriteCells(cells); WriteCells(cells + Blank(n)) == Pen(p.text, p.empty + n)
  {
    if n == 0 {
      assert cells + Blank(0) == cells;
    } else {
      WriteBlanks(cells, n - 1);
      var all := cells + Blank(n);
      assert all[..|all| - 1] == cells + Blank(n - 1);
    }
  }

  lemma WriteDigit(init: string, ch: char)
    requires RunDigit(ch) && ScanRow(init).Scan? && WriteCells(ScanRow(init).cells) == Pen(init, 0)
    ensures EmitRow(ScanRow(init).cells + Blank(DigitValue(ch))) == init + [ch]
  {
    WriteBlanks(ScanRow(init).cells, DigitValue(ch));
    RunDigits(DigitValue(ch));
  }

  lemma WriteLetter(init: string, ch: char)
    requires ScanRow(init).Scan? && EmitRow(ScanRow(init).cells) == init && PieceOf(ch).Some?
    ensures WriteCells(ScanRow(init).cells + [PieceOf(ch)]) == Pen(init + [ch], 0)
  {
    var cells := ScanRow(init).cells;
    LetterNames(PieceOf(ch).value, ch);
    assert (cells + [PieceOf(ch)])[..|cells|] == cells;
  }

  /** Every row is the one text that writes its cells. */
  lemma {:induction false} WritesBack(row: string)
    requires ScanRow(row).Scan?
    ensures EmitRow(ScanRow(row).cells) == row
    ensures !ScanRow(row).prevDigit ==> WriteCells(ScanRow(row).cells) == Pen(row, 0)
  {
    if row != "" {
      var init, ch := row[..|row| - 1], row[|row| - 1];
      WritesBack(init);
      assert row == init + [ch];
      if RunDigit(ch) {
        WriteDigit(init, ch);
      } else {
        WriteLetter(init, ch);
      }
    }
  }

  /** Reading and writing a row are inverse: the two lemmas together. */
  lemma RowRoundTrip(row: string, cells: seq<Cell>)
    requires |cells| == 8
    ensures ParseRow(row) == Some(cells) <==> row == EmitRow(cells)
  {
    var done := ReadsBack(cells);
    FlushReads(WriteCells(cells), done);
    if ParseRow(row) == Some(cells) { WritesBack(row); }
  }

  lemma {:induction false} RowChars(row: string, c: char)
    requires ScanRow(row).Scan? && !RunDigit(c) && PieceOf(c).None?
    ensures Free(row, c)
  {
    if row != "" { RowChars(row[..|row| - 1], c); }
  }
}
