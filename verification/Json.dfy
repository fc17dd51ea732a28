/** The canonical JSON text of a torn-tail entry (`store/crash_resume.py`): sorted keys, no blanks, characters
    beyond ASCII as they are. */
module Json {
  import opened Text
  import opened Encoding

  // ---------- texts behind one another ----------

  lemma Behind(a: string, x: string, y: string)
    requires a + x == a + y
    ensures x == y
  {
    assert x == (a + x)[|a|..] && y == (a + y)[|a|..];
  }

  lemma Assoc(a: string, b: string, c: string)
    ensures a + b + c == a + (b + c)
  {
  }

  lemma Regroup(a: string, b: string, c: string, d: string)
    ensures a + b + c + d == a + (b + c + d) && a + b + c + d == a + (b + (c + d))
  {
  }

  // ---------- strings ----------

  function Hex(d: nat): char
    requires d < 16
  {
    if d < 10 then '0' + d as char else 'a' + (d - 10) as char
  }

  // Quotes, backslashes and control characters are escaped, and nothing else.
  function EscapeChar(c: char): string {
    if c == '\\' then "\\\\"
    else if c == '\"' then "\\\""
    else if c == '\U{08}' then "\\b"
    else if c == '\U{0C}' then "\\f"
    else if c == '\n' then "\\n"
    else if c == '\r' then "\\r"
    else if c == '\t' then "\\t"
    else if c < ' ' then "\\u00" + [Hex(c as int / 16), Hex(c as int % 16)]
    else [c]
  }

  function Escape(s: string): string { if s == "" then "" else EscapeChar(s[0]) + Escape(s[1..]) }

  function Quote(s: string): string { "\"" + Escape(s) + "\"" }

  lemma HexInjective(a: nat, b: nat)
    requires a < 16 && b < 16 && Hex(a) == Hex(b)
    ensures a == b
  {
  }

  lemma EscapeStart(c: char)
    ensures |EscapeChar(c)| > 0 && EscapeChar(c)[0] != '\"'
  {
  }

  // How many characters an escape takes, by its first two
  function EscapeWidth(a: char, b: char): nat { if a != '\\' then 1 else if b == 'u' then 6 else 2 }

  lemma EscapeWidthIs(c: char, x: string)
    requires |x| > 0
    ensures |EscapeChar(c) + x| > 1
    ensures |EscapeChar(c)| == EscapeWidth((EscapeChar(c) + x)[0], (EscapeChar(c) + x)[1])
  {
  }

  lemma EscapeCharInjective(c: char, d: char)
    requires EscapeChar(c) == EscapeChar(d)
    ensures c == d
  {
    if |EscapeChar(c)| == 6 {
      assert EscapeChar(c)[4] == EscapeChar(d)[4] && EscapeChar(c)[5] == EscapeChar(d)[5];
      HexInjective(c as int / 16, d as int / 16);
      HexInjective(c as int % 16, d as int % 16);
    } else {
      assert EscapeChar(c)[0] == EscapeChar(d)[0];
      if |EscapeChar(c)| == 2 { assert EscapeChar(c)[1] == EscapeChar(d)[1]; }
    }
  }

  lemma EscapeCharSplit(c: char, x: string, d: char, y: string)
    requires |x| > 0 && |y| > 0 && EscapeChar(c) + x == EscapeChar(d) + y
    ensures c == d && x == y
  {
    EscapeWidthIs(c, x);
    EscapeWidthIs(d, y);
    var w := |EscapeChar(c)|;
    assert EscapeChar(c) == (EscapeChar(c) + x)[..w] && EscapeChar(d) == (EscapeChar(d) + y)[..w];
    assert x == (EscapeChar(c) + x)[w..] && y == (EscapeChar(d) + y)[w..];
    EscapeCharInjective(c, d);
  }

  // An escaped text ends at its first bare quote.
  lemma {:induction false} EscapeSplit(s: string, r: string, t: string, q: string)
    requires Escape(s) + "\"" + r == Escape(t) + "\"" + q
    ensures s == t && r == q
  {
    Unescaped(s, r);
    Unescaped(t, q);
    if s == "" || t == "" {
      assert s == "" && t == "";
      assert r == ("\"" + r)[1..] && q == ("\"" + q)[1..];
    } else {
      EscapeCharSplit(s[0], Escape(s[1..]) + "\"" + r, t[0], Escape(t[1..]) + "\"" + q);
      EscapeSplit(s[1..], r, t[1..], q);
      assert s == [s[0]] + s[1..] && t == [t[0]] + t[1..];
    }
  }

  lemma Unescaped(s: string, r: string)
    ensures s == "" ==> Escape(s) + "\"" + r == "\"" + r
    ensures s != "" ==> Escape(s) + "\"" + r == EscapeChar(s[0]) + (Escape(s[1..]) + "\"" + r)
    ensures (Escape(s) + "\"" + r)[0] == '\"' <==> s == ""
  {
    if s != "" {
      EscapeStart(s[0]);
      Regroup(EscapeChar(s[0]), Escape(s[1..]), "\"", r);
    }
  }

  lemma QuoteSplit(s: string, r: string, t: string, q: string)
    requires Quote(s) + r == Quote(t) + q
    ensures s == t && r == q
  {
    Regroup("\"", Escape(s), "\"", r);
    Regroup("\"", Escape(t), "\"", q);
    Behind("\"", Escape(s) + "\"" + r, Escape(t) + "\"" + q);
    EscapeSplit(s, r, t, q);
  }

  // ---------- numbers ----------

  predicate NumChar(c: char) { IsDigit(c) || c in {'-', '+', '.', 'e'} }

  predicate AllNum(s: string) { forall k :: 0 <= k < |s| ==> NumChar(s[k]) }

  // The shortest text of a finite float holds a point or an exponent.
  predicate FiniteText(s: string) {
    s != "" && (s[0] == '-' || IsDigit(s[0])) && AllNum(s) && exists k :: 0 <= k < |s| && s[k] in {'.', 'e'}
  }

  lemma IntTextShape(n: int)
    ensures var s := IntText(n);
            |s| > 0 && (s[0] == '-' || IsDigit(s[0])) && AllNum(s) && forall k :: 0 <= k < |s| ==> s[k] !in {'.', 'e'}
  {
  }

  // Nothing behind a value goes on with a number.
  predicate Stops(r: string) { r == "" || !NumChar(r[0]) }

  lemma NumberSplit(a: string, r: string, b: string, s: string)
    requires AllNum(a) && AllNum(b) && Stops(r) && Stops(s) && a + r == b + s
    ensures a == b && r == s
  {
    var x, y := a + r, b + s;
    assert forall k :: 0 <= k < |a| ==> x[k] == a[k];
    assert forall k :: 0 <= k < |b| ==> y[k] == b[k];
    assert (|a| < |x| ==> x[|a|] == r[0]) && (|b| < |y| ==> y[|b|] == s[0]);
    assert |a| == |b|;
    assert a == x[..|a|] && b == y[..|b|] && r == x[|a|..] && s == y[|b|..];
  }

  // ---------- values ----------

  function Canon(v: Value): string
    decreases v, 1
  {
    match v
    case Null => "null"
    case Bool(b) => if b then "true" else "false"
    case Int(n) => IntText(n)
    case Float(repr) => repr
    case Str(s) => Quote(s)
    case List(items) => "[" + if items == [] then "]" else Canon(items[0]) + MoreItems(items[1..])
    case Dict(fields) =>
      var ks := SortedKeys(fields.Keys);
      "{" + if ks == [] then "}" else Pair(ks[0], v) + MorePairs(ks[1..], v)
  }

  // The items behind the first, up to the bracket
  function MoreItems(items: seq<Value>): string
    decreases items, 0
  {
    if items == [] then "]" else "," + Canon(items[0]) + MoreItems(items[1..])
  }

  function Pair(k: string, v: Value): string
    requires v.Dict? && k in v.fields
    decreases v, 0, 0
  {
    Quote(k) + ":" + Canon(v.fields[k])
  }

  function MorePairs(keys: seq<string>, v: Value): string
    requires v.Dict? && forall k :: k in keys ==> k in v.fields
    decreases v, 0, |keys|
  {
    if keys == [] then "}" else "," + Pair(keys[0], v) + MorePairs(keys[1..], v)
  }

  // Every float in it is finite.
  predicate Finite(v: Value) {
    match v
    case Float(repr) => FiniteText(repr)
    case List(items) => forall k :: 0 <= k < |items| ==> Finite(items[k])
    case Dict(fields) => forall k :: k in fields ==> Finite(fields[k])
    case _ => true
  }

  // ---------- one text, one value ----------

  datatype Shape = NullShape | BoolShape | NumberShape | StrShape | ListShape | DictShape

  function ShapeOf(v: Value): Shape {
    match v
    case Null => NullShape case Bool(_) => BoolShape case Int(_) => NumberShape case Float(_) => NumberShape
    case Str(_) => StrShape case List(_) => ListShape case Dict(_) => DictShape
  }

  function ShapeBy(c: char): Shape {
    if c == 'n' then NullShape else if c == 't' || c == 'f' then BoolShape else if c == '\"' then StrShape
    else if c == '[' then ListShape else if c == '{' then DictShape else NumberShape
  }

  lemma CanonStart(v: Value)
    requires Finite(v)
    ensures |Canon(v)| > 0 && ShapeBy(Canon(v)[0]) == ShapeOf(v) && Canon(v)[0] !in {']', '}', ','}
  {
    if v.Int? { IntTextShape(v.n); }
  }

  lemma SameShape(v: Value, r: string, w: Value, s: string)
    requires Finite(v) && Finite(w) && Canon(v) + r == Canon(w) + s
    ensures ShapeOf(v) == ShapeOf(w)
  {
    CanonStart(v);
    CanonStart(w);
    assert Canon(v)[0] == (Canon(v) + r)[0] && Canon(w)[0] == (Canon(w) + s)[0];
  }

  lemma WordSplit(b: bool, r: string, c: bool, s: string)
    requires Canon(Bool(b)) + r == Canon(Bool(c)) + s
    ensures b == c && r == s
  {
    assert (Canon(Bool(b)) + r)[0] == (if b then 't' else 'f') && (Canon(Bool(c)) + s)[0] == if c then 't' else 'f';
    Behind(Canon(Bool(b)), r, s);
  }

  lemma NumbersSplit(v: Value, r: string, w: Value, s: string)
    requires (v.Int? || v.Float?) && (w.Int? || w.Float?) && Finite(v) && Finite(w)
    requires Stops(r) && Stops(s) && Canon(v) + r == Canon(w) + s
    ensures v == w && r == s
  {
    if v.Int? { IntTextShape(v.n); }
    if w.Int? { IntTextShape(w.n); }
    NumberSplit(Canon(v), r, Canon(w), s);
    if v.Int? && w.Int? { IntTextInjective(v.n, w.n); }
  }

  /** A value text ends where its value does: equal texts, whatever ends them, mean equal values and equal rests. */
  lemma {:induction false} CanonSplit(v: Value, r: string, w: Value, s: string)
    requires Finite(v) && Finite(w) && Stops(r) && Stops(s) && Canon(v) + r == Canon(w) + s
    ensures v == w && r == s
    decreases v, 2
  {
    SameShape(v, r, w, s);
    match v
    case Null => Behind("null", r, s);
    case Bool(b) => WordSplit(b, r, w.b, s);
    case Int(_) => NumbersSplit(v, r, w, s);
    case Float(_) => NumbersSplit(v, r, w, s);
    case Str(t) => QuoteSplit(t, r, w.s, s);
    case List(items) => ItemsSplit(v, r, w, s);
    case Dict(fields) => FieldsSplit(v, r, w, s);
  }

  // The text behind the opening bracket
  function ItemsText(items: seq<Value>): string {
    if items == [] then "]" else Canon(items[0]) + MoreItems(items[1..])
  }

  lemma ItemsSplit(v: Value, r: string, w: Value, s: string)
    requires v.List? && w.List? && Finite(v) && Finite(w) && Canon(v) + r == Canon(w) + s
    ensures v == w && r == s
    decreases v, 1
  {
    Assoc("[", ItemsText(v.items), r);
    Assoc("[", ItemsText(w.items), s);
    Behind("[", ItemsText(v.items) + r, ItemsText(w.items) + s);
    ItemsTextSplit(v.items, r, w.items, s);
  }

  lemma ItemsTextSplit(xs: seq<Value>, r: string, ys: seq<Value>, s: string)
    requires (forall k :: 0 <= k < |xs| ==> Finite(xs[k])) && forall k :: 0 <= k < |ys| ==> Finite(ys[k])
    requires ItemsText(xs) + r == ItemsText(ys) + s
    ensures xs == ys && r == s
    decreases xs, 1
  {
    ItemsStart(xs, r);
    ItemsStart(ys, s);
    assert (ItemsText(xs) + r)[0] == (ItemsText(ys) + s)[0];
    if xs == [] {
      Behind("]", r, s);
    } else {
      MoreStops(xs[1..], r);
      MoreStops(ys[1..], s);
      CanonSplit(xs[0], MoreItems(xs[1..]) + r, ys[0], MoreItems(ys[1..]) + s);
      MoreItemsSplit(xs[1..], r, ys[1..], s);
      assert xs == [xs[0]] + xs[1..] && ys == [ys[0]] + ys[1..];
    }
  }

  lemma ItemsStart(xs: seq<Value>, r: string)
    requires forall k :: 0 <= k < |xs| ==> Finite(xs[k])
    ensures xs == [] ==> ItemsText(xs) + r == "]" + r
    ensures xs != [] ==> ItemsText(xs) + r == Canon(xs[0]) + (MoreItems(xs[1..]) + r)
    ensures (ItemsText(xs) + r)[0] == ']' <==> xs == []
  {
    if xs != [] {
      CanonStart(xs[0]);
      Assoc(Canon(xs[0]), MoreItems(xs[1..]), r);
    }
  }

  lemma MoreStops(xs: seq<Value>, r: string)
    ensures xs == [] ==> MoreItems(xs) + r == "]" + r
    ensures xs != [] ==> MoreItems(xs) + r == "," + (Canon(xs[0]) + (MoreItems(xs[1..]) + r))
    ensures Stops(MoreItems(xs) + r)
  {
  }

  lemma {:induction false} MoreItemsSplit(xs: seq<Value>, r: string, ys: seq<Value>, s: string)
    requires (forall k :: 0 <= k < |xs| ==> Finite(xs[k])) && forall k :: 0 <= k < |ys| ==> Finite(ys[k])
    requires MoreItems(xs) + r == MoreItems(ys) + s
    ensures xs == ys && r == s
    decreases xs, 0
  {
    MoreStops(xs, r);
    MoreStops(ys, s);
    assert (MoreItems(xs) + r)[0] == (MoreItems(ys) + s)[0];
    if xs == [] {
      Behind("]", r, s);
    } else {
      MoreStops(xs[1..], r);
      MoreStops(ys[1..], s);
      Behind(",", Canon(xs[0]) + (MoreItems(xs[1..]) + r), Canon(ys[0]) + (MoreItems(ys[1..]) + s));
      CanonSplit(xs[0], MoreItems(xs[1..]) + r, ys[0], MoreItems(ys[1..]) + s);
      MoreItemsSplit(xs[1..], r, ys[1..], s);
      assert xs == [xs[0]] + xs[1..] && ys == [ys[0]] + ys[1..];
    }
  }

  // The text behind the opening brace
  function FieldsText(keys: seq<string>, v: Value): string
    requires v.Dict? && forall k :: k in keys ==> k in v.fields
  {
    if keys == [] then "}" else Pair(keys[0], v) + MorePairs(keys[1..], v)
  }

  lemma FieldsSplit(v: Value, r: string, w: Value, s: string)
    requires v.Dict? && w.Dict? && Finite(v) && Finite(w) && Canon(v) + r == Canon(w) + s
    ensures v == w && r == s
    decreases v, 1
  {
    var ks, js := SortedKeys(v.fields.Keys), SortedKeys(w.fields.Keys);
    Braced(v, ks, r);
    Braced(w, js, s);
    Behind("{", FieldsText(ks, v) + r, FieldsText(js, w) + s);
    FieldsTextSplit(ks, v, r, js, w, s);
    SameDict(v, w);
  }

  lemma Braced(v: Value, ks: seq<string>, r: string)
    requires v.Dict? && ks == SortedKeys(v.fields.Keys)
    ensures Canon(v) + r == "{" + (FieldsText(ks, v) + r)
  {
    Assoc("{", FieldsText(ks, v), r);
  }

  lemma ConsFields(ks: seq<string>, v: Value, js: seq<string>, w: Value)
    requires v.Dict? && w.Dict? && ks != [] && js != [] && ks[0] == js[0] && ks[1..] == js[1..]
    requires forall k :: k in ks ==> k in v.fields && k in w.fields
    requires v.fields[ks[0]] == w.fields[ks[0]] && forall k :: k in ks[1..] ==> v.fields[k] == w.fields[k]
    ensures ks == js && forall k :: k in ks ==> v.fields[k] == w.fields[k]
  {
    assert ks == [ks[0]] + ks[1..] && js == [js[0]] + js[1..];
  }

  lemma FieldsTextSplit(ks: seq<string>, v: Value, r: string, js: seq<string>, w: Value, s: string)
    requires v.Dict? && w.Dict? && Finite(v) && Finite(w)
    requires (forall k :: k in ks ==> k in v.fields) && forall k :: k in js ==> k in w.fields
    requires FieldsText(ks, v) + r == FieldsText(js, w) + s
    ensures ks == js && r == s && forall k :: k in ks ==> v.fields[k] == w.fields[k]
    decreases v, 0, |ks| + 1
  {
    FieldsStart(ks, v, r);
    FieldsStart(js, w, s);
    assert (FieldsText(ks, v) + r)[0] == (FieldsText(js, w) + s)[0];
    if ks == [] {
      Behind("}", r, s);
    } else {
      MorePairsStop(ks[1..], v, r);
      MorePairsStop(js[1..], w, s);
      PairSplit(ks[0], v, MorePairs(ks[1..], v) + r, js[0], w, MorePairs(js[1..], w) + s);
      MorePairsSplit(ks[1..], v, r, js[1..], w, s);
      ConsFields(ks, v, js, w);
    }
  }

  lemma FieldsStart(ks: seq<string>, v: Value, r: string)
    requires v.Dict? && forall k :: k in ks ==> k in v.fields
    ensures ks == [] ==> FieldsText(ks, v) + r == "}" + r
    ensures ks != [] ==> FieldsText(ks, v) + r == Pair(ks[0], v) + (MorePairs(ks[1..], v) + r)
    ensures (FieldsText(ks, v) + r)[0] == '}' <==> ks == []
  {
  }

  lemma MorePairsStop(ks: seq<string>, v: Value, r: string)
    requires v.Dict? && forall k :: k in ks ==> k in v.fields
    ensures ks == [] ==> MorePairs(ks, v) + r == "}" + r
    ensures ks != [] ==> MorePairs(ks, v) + r == "," + (Pair(ks[0], v) + (MorePairs(ks[1..], v) + r))
    ensures Stops(MorePairs(ks, v) + r)
  {
  }

  lemma PairSplit(k: string, v: Value, r: string, j: string, w: Value, s: string)
    requires v.Dict? && w.Dict? && k in v.fields && j in w.fields && Finite(v) && Finite(w) && Stops(r) && Stops(s)
    requires Pair(k, v) + r == Pair(j, w) + s
    ensures k == j && v.fields[k] == w.fields[j] && r == s
    decreases v, 0, 0
  {
    Regroup(Quote(k), ":", Canon(v.fields[k]), r);
    Regroup(Quote(j), ":", Canon(w.fields[j]), s);
    QuoteSplit(k, ":" + (Canon(v.fields[k]) + r), j, ":" + (Canon(w.fields[j]) + s));
    Behind(":", Canon(v.fields[k]) + r, Canon(w.fields[j]) + s);
    CanonSplit(v.fields[k], r, w.fields[j], s);
  }

  lemma {:induction false} MorePairsSplit(ks: seq<string>, v: Value, r: string, js: seq<string>, w: Value, s: string)
    requires v.Dict? && w.Dict? && Finite(v) && Finite(w)
    requires (forall k :: k in ks ==> k in v.fields) && forall k :: k in js ==> k in w.fields
    requires MorePairs(ks, v) + r == MorePairs(js, w) + s
    ensures ks == js && r == s && forall k :: k in ks ==> v.fields[k] == w.fields[k]
    decreases v, 0, |ks|
  {
    MorePairsStop(ks, v, r);
    MorePairsStop(js, w, s);
    assert (MorePairs(ks, v) + r)[0] == (MorePairs(js, w) + s)[0];
    if ks == [] {
      Behind("}", r, s);
    } else {
      MorePairsStop(ks[1..], v, r);
      MorePairsStop(js[1..], w, s);
      Behind(",", Pair(ks[0], v) + (MorePairs(ks[1..], v) + r), Pair(js[0], w) + (MorePairs(js[1..], w) + s));
      PairSplit(ks[0], v, MorePairs(ks[1..], v) + r, js[0], w, MorePairs(js[1..], w) + s);
      MorePairsSplit(ks[1..], v, r, js[1..], w, s);
      ConsFields(ks, v, js, w);
    }
  }

  /** The canonical text names its value. */
  lemma CanonInjective(v: Value, w: Value)
    requires Finite(v) && Finite(w) && Canon(v) == Canon(w)
    ensures v == w
  {
    assert Canon(v) + "" == Canon(w) + "";
    CanonSplit(v, "", w, "");
  }
}
