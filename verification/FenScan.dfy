/** The linear search for a FEN placement in any text (`server/control_plane_errors.py`): it finds
    one exactly when some substring is a placement. */
module FenScan {
  import opened Chess
  import opened Text
  import opened FenPlacement
  import opened Fen

  /** `_rank_ok`: exactly the rows that parse. */
  method RankOk(rank: string) returns (ok: bool)
    ensures ok <==> ParseRow(rank).Some?
  {
    if !(1 <= |rank| <= 8) {
      LongRow(rank);
      return false;
    }
    var total, prevDigit := 0, false;
    for k := 0 to |rank|
      invariant ScanRow(rank[..k]).Scan? && ScanRow(rank[..k]).prevDigit == prevDigit
      invariant |ScanRow(rank[..k]).cells| == total
    {
      var ch := rank[k];
      assert rank[..k + 1][..k] == rank[..k];
      if PieceOf(ch).Some? {
        total, prevDigit := total + 1, false;
      } else if RunDigit(ch) && !prevDigit {
        total, prevDigit := total + DigitValue(ch), true;
      } else {
        ScanFails(rank, k);
        return false;
      }
    }
    assert rank[..|rank|] == rank;
    return total == 8;
  }

  lemma {:induction false} CellsPerChar(row: string)
    requires ScanRow(row).Scan?
    ensures |ScanRow(row).cells| >= |row|
  {
    if row != "" { CellsPerChar(row[..|row| - 1]); }
  }

  lemma LongRow(row: string)
    requires !(1 <= |row| <= 8)
    ensures ParseRow(row).None?
  {
    if ScanRow(row).Scan? { CellsPerChar(row); }
  }

  ghost predicate Row(s: string) { ParseRow(s).Some? }

  ghost predicate EndsInRow(s: string) { exists n :: 0 <= n <= |s| && Row(s[n..]) }

  ghost predicate StartsWithRow(s: string) { exists n :: 0 <= n <= |s| && Row(s[..n]) }

  method AnyPrefix(s: string) returns (found: bool)
    ensures found <==> StartsWithRow(s)
  {
    var limit := if |s| < 8 then |s| else 8;
    for n := 1 to limit + 1
      invariant forall m :: 1 <= m < n ==> !Row(s[..m])
    {
      var ok := RankOk(s[..n]);
      if ok { return true; }
    }
    forall m | 0 <= m <= |s| && !(1 <= m <= limit) ensures !Row(s[..m]) { LongRow(s[..m]); }
    return false;
  }

  method AnySuffix(s: string) returns (found: bool)
    ensures found <==> EndsInRow(s)
  {
    var limit := if |s| < 8 then |s| else 8;
    for n := 1 to limit + 1
      invariant forall m :: |s| - n < m < |s| ==> !Row(s[m..])
    {
      var ok := RankOk(s[|s| - n..]);
      if ok { return true; }
    }
    forall m | 0 <= m <= |s| && !(|s| - limit <= m < |s|) ensures !Row(s[m..]) { LongRow(s[m..]); }
    return false;
  }

  // Eight ranks starting inside segment `i`
  ghost predicate Window(segments: seq<string>, i: nat) {
    && i + 7 < |segments|
    && EndsInRow(segments[i]) && StartsWithRow(segments[i + 7])
    && forall k :: i < k < i + 7 ==> Row(segments[k])
  }

  // `bad` counts the segments before each index that are not rows.
  ghost predicate Counts(segments: seq<string>, bad: seq<int>, n: nat) {
    && n <= |segments| && |bad| == n + 1
    && forall k :: 0 <= k < n ==> bad[k + 1] == bad[k] + if Row(segments[k]) then 0 else 1
  }

  lemma {:induction false} CountsGrow(segments: seq<string>, bad: seq<int>, a: nat, b: nat)
    requires Counts(segments, bad, |segments|) && a <= b <= |segments|
    ensures bad[a] <= bad[b]
    ensures bad[a] == bad[b] <==> forall k :: a <= k < b ==> Row(segments[k])
    decreases b - a
  {
    if a < b { CountsGrow(segments, bad, a, b - 1); }
  }

  ghost predicate HasWindow(segments: seq<string>) { exists i: nat :: Window(segments, i) }

  /** Some substring is a placement. */
  ghost predicate HasPlacement(text: string) {
    exists i, j :: 0 <= i <= j <= |text| && PlacementOk(text[i..j])
  }

  // The three tables over the segments
  method Tables(segments: seq<string>) returns (prefix: seq<bool>, suffix: seq<bool>, bad: seq<int>)
    ensures |prefix| == |suffix| == |segments| && Counts(segments, bad, |segments|)
    ensures forall j :: 0 <= j < |segments| ==> (prefix[j] <==> StartsWithRow(segments[j]))
    ensures forall j :: 0 <= j < |segments| ==> (suffix[j] <==> EndsInRow(segments[j]))
  {
    prefix, suffix, bad := [], [], [0];
    for k := 0 to |segments|
      invariant |prefix| == |suffix| == k && Counts(segments, bad, k)
      invariant forall j :: 0 <= j < k ==> (prefix[j] <==> StartsWithRow(segments[j]))
      invariant forall j :: 0 <= j < k ==> (suffix[j] <==> EndsInRow(segments[j]))
    {
      var full := RankOk(segments[k]);
      var pre := AnyPrefix(segments[k]);
      var suf := AnySuffix(segments[k]);
      prefix, suffix, bad := prefix + [pre], suffix + [suf], bad + [bad[k] + if full then 0 else 1];
    }
  }

  method FindWindow(segments: seq<string>) returns (found: bool)
    ensures found <==> HasWindow(segments)
  {
    if |segments| < 8 { return false; }
    var prefix, suffix, bad := Tables(segments);
    for i := 0 to |segments| - 7
      invariant forall j: nat :: j < i ==> !Window(segments, j)
    {
      CountsGrow(segments, bad, i + 1, i + 7);
      if suffix[i] && prefix[i + 7] && bad[i + 7] == bad[i + 1] {
        assert Window(segments, i);
        return true;
      }
    }
    return false;
  }

  /** The linear scan. */
  method HasFenPlacement(text: string) returns (found: bool)
    ensures found <==> HasPlacement(text)
  {
    WindowsArePlacements(text);
    found := FindWindow(Split(text, '/'));
  }

  // ---------- windows of segments are substrings ----------

  // The segments of two texts set side by side
  function Glue(a: seq<string>, b: seq<string>): seq<string>
    requires |a| > 0 && |b| > 0
  {
    a[..|a| - 1] + [a[|a| - 1] + b[0]] + b[1..]
  }

  function Push(ch: char, r: seq<string>): seq<string>
    requires |r| > 0
  {
    [[ch] + r[0]] + r[1..]
  }

  lemma GluePush(ch: char, r: seq<string>, b: seq<string>)
    requires |r| > 0 && |b| > 0
    ensures Glue(Push(ch, r), b) == Push(ch, Glue(r, b))
  {
    if |r| == 1 {
      assert [ch] + r[0] + b[0] == [ch] + (r[0] + b[0]);
    } else {
      assert Push(ch, r)[..|r| - 1] == [[ch] + r[0]] + r[1..|r| - 1];
      assert Glue(r, b)[1..] == r[1..|r| - 1] + [r[|r| - 1] + b[0]] + b[1..];
    }
  }

  lemma GlueEmpty(r: seq<string>, b: seq<string>)
    requires |r| > 0 && |b| > 0
    ensures Glue([""] + r, b) == [""] + Glue(r, b) && Glue([""], b) == b
  {
    assert ([""] + r)[..|r|] == [""] + r[..|r| - 1];
    assert "" + b[0] == b[0];
  }

  lemma {:induction false} SplitConcat(x: string, y: string, c: char)
    ensures Split(x + y, c) == Glue(Split(x, c), Split(y, c))
  {
    if x == "" {
      assert x + y == y;
      GlueEmpty([""], Split(y, c));
    } else {
      SplitConcat(x[1..], y, c);
      assert (x + y)[1..] == x[1..] + y;
      GluePush(x[0], Split(x[1..], c), Split(y, c));
      GlueEmpty(Split(x[1..], c), Split(y, c));
    }
  }

  // How the segments of a text show those of a substring of it
  lemma SegmentsOfMiddle(u: string, sub: string, v: string)
    requires |Split(sub, '/')| == 8
    ensures var i, segs := |Split(u, '/')| - 1, Split(u + sub + v, '/');
            && i + 7 < |segs|
            && (forall k :: 0 < k < 7 ==> segs[i + k] == Split(sub, '/')[k])
            && segs[i] == Split(u, '/')[i] + Split(sub, '/')[0]
            && segs[i + 7] == Split(sub, '/')[7] + Split(v, '/')[0]
  {
    SplitConcat(u, sub, '/');
    SplitConcat(u + sub, v, '/');
  }

  lemma MiddleGivesWindow(u: string, sub: string, v: string)
    requires |Split(sub, '/')| == 8 && forall k :: 0 <= k < 8 ==> Row(Split(sub, '/')[k])
    ensures HasWindow(Split(u + sub + v, '/'))
  {
    SegmentsOfMiddle(u, sub, v);
    var i, segs, rows := |Split(u, '/')| - 1, Split(u + sub + v, '/'), Split(sub, '/');
    DropFront(Split(u, '/')[i], rows[0]);
    DropFront(rows[7], Split(v, '/')[0]);
    RowInside(segs, i, rows, |Split(u, '/')[i]|);
  }

  lemma CutAt(text: string, a: nat, b: nat)
    requires a <= b <= |text|
    ensures text[..a] + text[a..b] + text[b..] == text
  {
  }

  lemma PlacementRows(sub: string)
    requires PlacementOk(sub)
    ensures |Split(sub, '/')| == 8 && forall k :: 0 <= k < 8 ==> Row(Split(sub, '/')[k])
  {
  }

  lemma DropFront(x: string, y: string)
    ensures (x + y)[|x|..] == y && (x + y)[..|x|] == x
  {
  }

  lemma RowInside(segs: seq<string>, i: nat, rows: seq<string>, m: nat)
    requires |rows| == 8 && i + 7 < |segs| && m <= |segs[i]| && |rows[7]| <= |segs[i + 7]|
    requires forall k :: 0 <= k < 8 ==> Row(rows[k])
    requires segs[i][m..] == rows[0] && segs[i + 7][..|rows[7]|] == rows[7]
    requires forall k :: 0 < k < 7 ==> segs[i + k] == rows[k]
    ensures Window(segs, i)
  {
    forall k | i < k < i + 7 ensures Row(segs[k]) { assert segs[i + (k - i)] == rows[k - i]; }
  }

  // Gluing the cut pieces gives the segments back.
  lemma GlueCuts(segs: seq<string>, i: nat, m: nat, n: nat, first: seq<string>, rows: seq<string>, last: seq<string>)
    requires i + 7 < |segs| && m <= |segs[i]| && n <= |segs[i + 7]|
    requires first == segs[..i] + [segs[i][..m]]
    requires rows == [segs[i][m..]] + segs[i + 1..i + 7] + [segs[i + 7][..n]]
    requires last == [segs[i + 7][n..]] + segs[i + 8..]
    ensures Glue(Glue(first, rows), last) == segs
  {
    var mid := Glue(first, rows);
    assert segs[i][..m] + segs[i][m..] == segs[i];
    assert mid == segs[..i + 7] + [segs[i + 7][..n]];
    assert segs[i + 7][..n] + segs[i + 7][n..] == segs[i + 7];
  }

  // The text of consecutive segments, cut inside the first and the last
  lemma WindowGivesPlacement(text: string, i: nat)
    requires Window(Split(text, '/'), i)
    ensures HasPlacement(text)
  {
    var segs := Split(text, '/');
    var m :| 0 <= m <= |segs[i]| && Row(segs[i][m..]);
    var n :| 0 <= n <= |segs[i + 7]| && Row(segs[i + 7][..n]);
    var first := segs[..i] + [segs[i][..m]];
    var rows := [segs[i][m..]] + segs[i + 1..i + 7] + [segs[i + 7][..n]];
    var last := [segs[i + 7][n..]] + segs[i + 8..];
    CutRows(segs, i, m, n, rows);
    JoinSplit(text, '/');
    CutsAreFree(segs, i, m, n, first, rows, last);
    GlueCuts(segs, i, m, n, first, rows, last);
    CutText(text, first, rows, last);
  }

  lemma CutRows(segs: seq<string>, i: nat, m: nat, n: nat, rows: seq<string>)
    requires Window(segs, i) && m <= |segs[i]| && n <= |segs[i + 7]| && Row(segs[i][m..]) && Row(segs[i + 7][..n])
    requires rows == [segs[i][m..]] + segs[i + 1..i + 7] + [segs[i + 7][..n]]
    ensures forall k :: 0 <= k < 8 ==> Row(rows[k])
  {
    forall k | 0 <= k < 8 ensures Row(rows[k]) {
      if 0 < k < 7 { assert rows[k] == segs[i + k]; }
    }
  }

  lemma CutText(text: string, first: seq<string>, rows: seq<string>, last: seq<string>)
    requires |first| > 0 && |rows| == 8 && |last| > 0 && Split(text, '/') == Glue(Glue(first, rows), last)
    requires forall k :: 0 <= k < |first| ==> Free(first[k], '/')
    requires forall k :: 0 <= k < |rows| ==> Free(rows[k], '/')
    requires forall k :: 0 <= k < |last| ==> Free(last[k], '/')
    requires forall k :: 0 <= k < 8 ==> Row(rows[k])
    ensures HasPlacement(text)
  {
    SplitJoin(first, '/');
    SplitJoin(rows, '/');
    SplitJoin(last, '/');
    var u, sub, v := Join(first, '/'), Join(rows, '/'), Join(last, '/');
    SplitConcat(u, sub, '/');
    SplitConcat(u + sub, v, '/');
    JoinSplit(u + sub + v, '/');
    JoinSplit(text, '/');
    assert text == u + sub + v;
    assert text[|u|..|u| + |sub|] == sub;
    assert PlacementOk(sub);
  }

  lemma CutsAreFree(segs: seq<string>, i: nat, m: nat, n: nat, first: seq<string>, rows: seq<string>, last: seq<string>)
    requires i + 7 < |segs| && m <= |segs[i]| && n <= |segs[i + 7]|
    requires forall k :: 0 <= k < |segs| ==> Free(segs[k], '/')
    requires first == segs[..i] + [segs[i][..m]]
    requires rows == [segs[i][m..]] + segs[i + 1..i + 7] + [segs[i + 7][..n]]
    requires last == [segs[i + 7][n..]] + segs[i + 8..]
    ensures forall k :: 0 <= k < |first| ==> Free(first[k], '/')
    ensures forall k :: 0 <= k < |rows| ==> Free(rows[k], '/')
    ensures forall k :: 0 <= k < |last| ==> Free(last[k], '/')
  {
  }

  /** The segments hold a window exactly when some substring is a placement. */
  lemma WindowsArePlacements(text: string)
    ensures HasWindow(Split(text, '/')) <==> HasPlacement(text)
  {
    if HasPlacement(text) {
      var a, b :| 0 <= a <= b <= |text| && PlacementOk(text[a..b]);
      CutAt(text, a, b);
      PlacementRows(text[a..b]);
      MiddleGivesWindow(text[..a], text[a..b], text[b..]);
    }
    if HasWindow(Split(text, '/')) {
      var i: nat :| Window(Split(text, '/'), i);
      WindowGivesPlacement(text, i);
    }
  }
}
