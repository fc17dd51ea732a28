/** The type-tagged, length-framed canonical encoding of `store/corruption.py` and the framed tail
    serialisations of `store/rollback.py` and `store/crash_resume.py`: all prefix-free. */
module Encoding {
  import opened Text

  /** Values of the store: the six kinds of the scan domain, and floats outside it by their text.
      Dafny characters are Unicode scalar values, so every string has a UTF-8 form. */
  datatype Value =
    | Null
    | Bool(b: bool)
    | Int(n: int)
    | Str(s: string)
    | Float(repr: string)
    | List(items: seq<Value>)
    | Dict(fields: map<string, Value>)

  type Bytes = seq<int>

  // ---------- characters and text ----------

  function Utf8(c: char): (bs: Bytes)
    ensures |bs| > 0
  {
    var n := c as int;
    var a := n / 0x40;
    var b := a / 0x40;
    if n < 0x80 then [n]
    else if n < 0x800 then [0xC0 + a, 0x80 + n % 0x40]
    else if n < 0x10000 then [0xE0 + b, 0x80 + a % 0x40, 0x80 + n % 0x40]
    else [0xF0 + b / 0x40, 0x80 + b % 0x40, 0x80 + a % 0x40, 0x80 + n % 0x40]
  }

  // How many bytes a character whose form starts with `b` takes
  function Width(b: int): nat { if b < 0x80 then 1 else if b < 0xE0 then 2 else if b < 0xF0 then 3 else 4 }

  lemma Utf8Width(c: char)
    ensures |Utf8(c)| == Width(Utf8(c)[0])
  {
  }

  // The code point a form spells
  function Decode(bs: Bytes): int
    requires 1 <= |bs| <= 4
  {
    match |bs|
    case 1 => bs[0]
    case 2 => (bs[0] - 0xC0) * 0x40 + (bs[1] - 0x80)
    case 3 => ((bs[0] - 0xE0) * 0x40 + (bs[1] - 0x80)) * 0x40 + (bs[2] - 0x80)
    case _ => (((bs[0] - 0xF0) * 0x40 + (bs[1] - 0x80)) * 0x40 + (bs[2] - 0x80)) * 0x40 + (bs[3] - 0x80)
  }

  lemma DecodeUtf8(c: char)
    ensures |Utf8(c)| <= 4 && Decode(Utf8(c)) == c as int
  {
    var n := c as int;
    var a := n / 0x40;
    var b := a / 0x40;
    assert n == a * 0x40 + n % 0x40;
    assert a == b * 0x40 + a % 0x40;
    assert b == b / 0x40 * 0x40 + b % 0x40;
  }

  lemma Utf8Injective(c: char, d: char)
    requires Utf8(c) == Utf8(d)
    ensures c == d
  {
    DecodeUtf8(c);
    DecodeUtf8(d);
  }

  function Raw(s: string): Bytes {
    if s == "" then [] else Utf8(s[0]) + Raw(s[1..])
  }

  lemma {:induction false} RawInjective(s: string, t: string)
    requires Raw(s) == Raw(t)
    ensures s == t
  {
    if s == "" || t == "" {
      assert s == t;
    } else {
      Utf8Width(s[0]);
      Utf8Width(t[0]);
      assert Raw(s)[0] == Utf8(s[0])[0] && Raw(t)[0] == Utf8(t[0])[0];
      var w := |Utf8(s[0])|;
      assert Raw(s)[..w] == Utf8(s[0]) && Raw(t)[..w] == Utf8(t[0]);
      assert Raw(s)[w..] == Raw(s[1..]) && Raw(t)[w..] == Raw(t[1..]);
      Utf8Injective(s[0], t[0]);
      RawInjective(s[1..], t[1..]);
      assert s == [s[0]] + s[1..] && t == [t[0]] + t[1..];
    }
  }

  // ---------- framing ----------

  const COLON: int := 58

  // `<length of body>:<body>`
  function Frame(body: Bytes): Bytes { Raw(Dec(|body|)) + [COLON] + body }

  lemma {:induction false} RawDigits(s: string)
    requires AllDigits(s)
    ensures forall k :: 0 <= k < |Raw(s)| ==> Raw(s)[k] != COLON
  {
    if s != "" {
      RawDigits(s[1..]);
      assert Utf8(s[0]) == [s[0] as int];
    }
  }

  /** A text free of the colon ends at the first colon. */
  lemma CountSplit(m: nat, r: Bytes, n: nat, s: Bytes)
    requires Raw(Dec(m)) + [COLON] + r == Raw(Dec(n)) + [COLON] + s
    ensures m == n && r == s
  {
    var x, y := Raw(Dec(m)), Raw(Dec(n));
    RawDigits(Dec(m));
    RawDigits(Dec(n));
    var a, b := x + [COLON] + r, y + [COLON] + s;
    assert forall k :: 0 <= k < |x| ==> a[k] == x[k];
    assert forall k :: 0 <= k < |y| ==> b[k] == y[k];
    assert a[|x|] == COLON && b[|y|] == COLON;
    assert |x| == |y|;
    assert x == a[..|x|] && y == b[..|y|];
    assert r == a[|x| + 1..] && s == b[|y| + 1..];
    RawInjective(Dec(m), Dec(n));
    DecInjective(m, n);
  }

  lemma FrameSplit(x: Bytes, r: Bytes, y: Bytes, s: Bytes)
    requires Frame(x) + r == Frame(y) + s
    ensures x == y && r == s
  {
    assert Frame(x) + r == Raw(Dec(|x|)) + [COLON] + (x + r);
    assert Frame(y) + s == Raw(Dec(|y|)) + [COLON] + (y + s);
    CountSplit(|x|, x + r, |y|, y + s);
    assert x == (x + r)[..|x|] && r == (x + r)[|x|..];
    assert y == (y + s)[..|y|] && s == (y + s)[|y|..];
  }

  // ---------- the order of dict keys ----------

  // Text is compared by code points.
  predicate Below(s: string, t: string) {
    s == "" || (t != "" && (s[0] < t[0] || (s[0] == t[0] && Below(s[1..], t[1..]))))
  }

  lemma {:induction false} BelowTotal(s: string, t: string)
    ensures Below(s, t) || Below(t, s)
    ensures Below(s, t) && Below(t, s) ==> s == t
  {
    if s != "" && t != "" {
      BelowTotal(s[1..], t[1..]);
      assert s == [s[0]] + s[1..] && t == [t[0]] + t[1..];
    }
  }

  lemma {:induction false} BelowTransitive(s: string, t: string, u: string)
    requires Below(s, t) && Below(t, u)
    ensures Below(s, u)
  {
    if s != "" && s[0] == t[0] == u[0] { BelowTransitive(s[1..], t[1..], u[1..]); }
  }

  predicate IsLeast(k: string, ks: set<string>) {
    k in ks && forall j :: j in ks ==> Below(k, j)
  }

  lemma {:induction false} LeastExists(ks: set<string>)
    requires ks != {}
    ensures exists k :: IsLeast(k, ks)
  {
    var k :| k in ks;
    BelowTotal(k, k);
    var rest := ks - {k};
    if rest == {} {
      assert ks == {k} && IsLeast(k, ks);
    } else {
      LeastExists(rest);
      var m :| IsLeast(m, rest);
      BelowTotal(k, m);
      var least := if Below(k, m) then k else m;
      forall j | j in ks ensures Below(least, j) {
        if j in rest && least == k { BelowTransitive(k, m, j); }
        assert j in rest || j == k;
      }
      assert IsLeast(least, ks);
    }
  }

  lemma LeastUnique(a: string, b: string, ks: set<string>)
    requires IsLeast(a, ks) && IsLeast(b, ks)
    ensures a == b
  {
    BelowTotal(a, b);
  }

  function Least(ks: set<string>): (k: string)
    requires ks != {}
    ensures IsLeast(k, ks)
  {
    LeastExists(ks);
    assert forall a, b | IsLeast(a, ks) && IsLeast(b, ks) :: a == b by {
      forall a, b | IsLeast(a, ks) && IsLeast(b, ks) ensures a == b { LeastUnique(a, b, ks); }
    }
    var k :| k in ks && IsLeast(k, ks);
    k
  }

  function SortedKeys(ks: set<string>): (s: seq<string>)
    ensures |s| == |ks| && forall k :: k in s <==> k in ks
    decreases |ks|
  {
    if ks == {} then [] else [Least(ks)] + SortedKeys(ks - {Least(ks)})
  }

  // ---------- the encoding ----------

  const MAX_DEPTH: nat := 8
  const MAX_INT_BITS: nat := 256

  function IntText(n: int): string { if n < 0 then "-" + Dec(-n) else Dec(n) }

  function Encode(v: Value): Bytes
    decreases v, 1
  {
    match v
    case Null => Raw("n")
    case Bool(b) => if b then Raw("t") else Raw("f")
    case Int(n) => Raw("i") + Frame(Raw(IntText(n)))
    case Str(s) => Raw("s") + Frame(Raw(s))
    case Float(_) => []
    case List(items) => Raw("l") + Raw(Dec(|items|)) + [COLON] + EncodeAll(items)
    case Dict(fields) => Raw("d") + Raw(Dec(|fields|)) + [COLON] + EncodePairs(SortedKeys(fields.Keys), v)
  }

  function EncodeAll(items: seq<Value>): Bytes
    decreases items, 0
  {
    if items == [] then [] else Encode(items[0]) + EncodeAll(items[1..])
  }

  // The pairs of a dict, in the order of `keys`
  function EncodePairs(keys: seq<string>, v: Value): Bytes
    requires v.Dict? && forall k :: k in keys ==> k in v.fields
    decreases v, 0, |keys|
  {
    if keys == [] then []
    else Raw("s") + Frame(Raw(keys[0])) + Encode(v.fields[keys[0]]) + EncodePairs(keys[1..], v)
  }

  // ---------- the scan domain ----------

  function Pow2(n: nat): nat { if n == 0 then 1 else 2 * Pow2(n - 1) }

  // At most `MAX_DEPTH` levels and `MAX_INT_BITS` bits, no float
  predicate InDomain(v: Value, depth: nat)
    decreases v
  {
    && depth <= MAX_DEPTH
    && match v
       case Int(n) => (if n < 0 then -n else n) < Pow2(MAX_INT_BITS)
       case Float(_) => false
       case List(items) => forall k :: 0 <= k < |items| ==> InDomain(items[k], depth + 1)
       case Dict(fields) => forall k :: k in fields ==> InDomain(fields[k], depth + 1)
       case _ => true
  }

  // No float anywhere: all that injectivity needs
  predicate Plain(v: Value) {
    match v
    case Float(_) => false
    case List(items) => forall k :: 0 <= k < |items| ==> Plain(items[k])
    case Dict(fields) => forall k :: k in fields ==> Plain(fields[k])
    case _ => true
  }

  lemma {:induction false} DomainIsPlain(v: Value, depth: nat)
    requires InDomain(v, depth)
    ensures Plain(v)
  {
    match v
    case List(items) =>
      forall k | 0 <= k < |items| ensures Plain(items[k]) { DomainIsPlain(items[k], depth + 1); }
    case Dict(fields) =>
      forall k | k in fields ensures Plain(fields[k]) { DomainIsPlain(v.fields[k], depth + 1); }
    case _ =>
  }

  // ---------- prefix-freedom ----------

  lemma IntTextSign(n: int)
    ensures IntText(n)[0] == '-' <==> n < 0
  {
    if n >= 0 { assert IsDigit(Dec(n)[0]); }
  }

  lemma IntTextInjective(m: int, n: int)
    requires IntText(m) == IntText(n)
    ensures m == n
  {
    IntTextSign(m);
    IntTextSign(n);
    if m < 0 {
      assert Dec(-m) == IntText(m)[1..] && Dec(-n) == IntText(n)[1..];
      DecInjective(-m, -n);
    } else {
      DecInjective(m, n);
    }
  }

  function Tag(v: Value): char {
    match v
    case Null => 'n' case Bool(b) => if b then 't' else 'f' case Int(_) => 'i' case Str(_) => 's'
    case Float(_) => '?' case List(_) => 'l' case Dict(_) => 'd'
  }

  // The encoding after its tag
  function Body(v: Value): Bytes {
    match v
    case Int(n) => Frame(Raw(IntText(n)))
    case Str(s) => Frame(Raw(s))
    case List(items) => Raw(Dec(|items|)) + [COLON] + EncodeAll(items)
    case Dict(fields) => Raw(Dec(|fields|)) + [COLON] + EncodePairs(SortedKeys(fields.Keys), v)
    case _ => []
  }

  lemma TagAndBody(v: Value)
    requires Plain(v)
    ensures Encode(v) == [Tag(v) as int] + Body(v)
  {
    RawOne(Tag(v));
    match v
    case List(items) => Grouped([Tag(v) as int], Raw(Dec(|items|)), [COLON], EncodeAll(items));
    case Dict(fields) => Grouped([Tag(v) as int], Raw(Dec(|fields|)), [COLON], EncodePairs(SortedKeys(fields.Keys), v));
    case _ =>
  }

  lemma RawOne(c: char)
    requires c as int < 0x80
    ensures Raw([c]) == [c as int]
  {
    assert Raw([c]) == Utf8(c) + Raw([]);
  }

  lemma Grouped(a: Bytes, b: Bytes, c: Bytes, d: Bytes)
    ensures a + b + c + d == a + (b + c + d)
  {
  }

  lemma TagSplit(v: Value, r: Bytes, w: Value, s: Bytes)
    requires Plain(v) && Plain(w) && Encode(v) + r == Encode(w) + s
    ensures Tag(v) == Tag(w) && Body(v) + r == Body(w) + s
  {
    TagAndBody(v);
    TagAndBody(w);
    FirstAndRest(Tag(v) as int, Body(v), r);
    FirstAndRest(Tag(w) as int, Body(w), s);
  }

  lemma FirstAndRest(a: int, b: Bytes, r: Bytes)
    ensures ([a] + b + r)[0] == a && ([a] + b + r)[1..] == b + r
  {
  }

  // A counted body: the counts agree and so does what follows them.
  lemma CountedSplit(m: nat, x: Bytes, r: Bytes, n: nat, y: Bytes, s: Bytes)
    requires Raw(Dec(m)) + [COLON] + x + r == Raw(Dec(n)) + [COLON] + y + s
    ensures m == n && x + r == y + s
  {
    assert Raw(Dec(m)) + [COLON] + x + r == Raw(Dec(m)) + [COLON] + (x + r);
    assert Raw(Dec(n)) + [COLON] + y + s == Raw(Dec(n)) + [COLON] + (y + s);
    CountSplit(m, x + r, n, y + s);
  }

  lemma TextCase(a: string, r: Bytes, b: string, s: Bytes)
    requires Frame(Raw(a)) + r == Frame(Raw(b)) + s
    ensures a == b && r == s
  {
    FrameSplit(Raw(a), r, Raw(b), s);
    RawInjective(a, b);
  }

  /** Equal encodings, whatever follows them, mean equal values and equal rests. */
  lemma {:induction false} PrefixFree(v: Value, r: Bytes, w: Value, s: Bytes)
    requires Plain(v) && Plain(w) && Encode(v) + r == Encode(w) + s
    ensures v == w && r == s
    decreases v, 2
  {
    TagSplit(v, r, w, s);
    match v
    case Int(n) =>
      TextCase(IntText(n), r, IntText(w.n), s);
      IntTextInjective(n, w.n);
    case Str(t) =>
      TextCase(t, r, w.s, s);
    case List(_) => ListPrefixFree(v, r, w, s);
    case Dict(_) => DictPrefixFree(v, r, w, s);
    case Null =>
      assert Body(v) + r == r && Body(w) + s == s;
    case Bool(_) =>
      assert Body(v) + r == r && Body(w) + s == s;
    case Float(_) =>
  }

  lemma ListPrefixFree(v: Value, r: Bytes, w: Value, s: Bytes)
    requires v.List? && w.List? && Plain(v) && Plain(w) && Body(v) + r == Body(w) + s
    ensures v == w && r == s
    decreases v, 1
  {
    CountedSplit(|v.items|, EncodeAll(v.items), r, |w.items|, EncodeAll(w.items), s);
    AllPrefixFree(v.items, r, w.items, s);
  }

  lemma DictPrefixFree(v: Value, r: Bytes, w: Value, s: Bytes)
    requires v.Dict? && w.Dict? && Plain(v) && Plain(w) && Body(v) + r == Body(w) + s
    ensures v == w && r == s
    decreases v, 1
  {
    var ks, js := SortedKeys(v.fields.Keys), SortedKeys(w.fields.Keys);
    CountedSplit(|v.fields|, EncodePairs(ks, v), r, |w.fields|, EncodePairs(js, w), s);
    PairsPrefixFree(ks, v, r, js, w, s);
    SameDict(v, w);
  }

  lemma SameDict(v: Value, w: Value)
    requires v.Dict? && w.Dict? && SortedKeys(v.fields.Keys) == SortedKeys(w.fields.Keys)
    requires forall k :: k in SortedKeys(v.fields.Keys) ==> k in v.fields && k in w.fields && v.fields[k] == w.fields[k]
    ensures v == w
  {
    assert v.fields.Keys == w.fields.Keys;
    assert v.fields == w.fields;
  }

  lemma AllSplit(xs: seq<Value>, r: Bytes)
    requires xs != []
    ensures EncodeAll(xs) + r == Encode(xs[0]) + (EncodeAll(xs[1..]) + r)
  {
  }

  lemma {:induction false} AllPrefixFree(xs: seq<Value>, r: Bytes, ys: seq<Value>, s: Bytes)
    requires |xs| == |ys| && EncodeAll(xs) + r == EncodeAll(ys) + s
    requires (forall k :: 0 <= k < |xs| ==> Plain(xs[k])) && forall k :: 0 <= k < |ys| ==> Plain(ys[k])
    ensures xs == ys && r == s
    decreases xs, 0
  {
    if xs == [] {
      assert EncodeAll(xs) + r == r && EncodeAll(ys) + s == s;
    } else {
      AllSplit(xs, r);
      AllSplit(ys, s);
      PrefixFree(xs[0], EncodeAll(xs[1..]) + r, ys[0], EncodeAll(ys[1..]) + s);
      AllPrefixFree(xs[1..], r, ys[1..], s);
      assert xs == [xs[0]] + xs[1..] && ys == [ys[0]] + ys[1..];
    }
  }

  lemma PairsSplit(ks: seq<string>, v: Value, r: Bytes)
    requires v.Dict? && ks != [] && forall k :: k in ks ==> k in v.fields
    ensures EncodePairs(ks, v) + r ==
            Raw("s") + (Frame(Raw(ks[0])) + (Encode(v.fields[ks[0]]) + (EncodePairs(ks[1..], v) + r)))
  {
    Regroup(Raw("s"), Frame(Raw(ks[0])), Encode(v.fields[ks[0]]), EncodePairs(ks[1..], v), r);
  }

  lemma Regroup(a: Bytes, b: Bytes, c: Bytes, d: Bytes, r: Bytes)
    ensures a + b + c + d + r == a + (b + (c + (d + r)))
  {
  }

  lemma {:induction false} PairsPrefixFree(ks: seq<string>, v: Value, r: Bytes, js: seq<string>, w: Value, s: Bytes)
    requires v.Dict? && w.Dict? && Plain(v) && Plain(w) && |ks| == |js|
    requires (forall k :: k in ks ==> k in v.fields) && (forall k :: k in js ==> k in w.fields)
    requires EncodePairs(ks, v) + r == EncodePairs(js, w) + s
    ensures ks == js && r == s && forall k :: k in ks ==> v.fields[k] == w.fields[k]
    decreases v, 0, |ks|
  {
    if ks == [] {
      assert EncodePairs(ks, v) + r == r && EncodePairs(js, w) + s == s;
    } else {
      var a, b := ks[0], js[0];
      var more, rest := EncodePairs(ks[1..], v) + r, EncodePairs(js[1..], w) + s;
      PairsSplit(ks, v, r);
      PairsSplit(js, w, s);
      Behind(Raw("s"), Frame(Raw(a)) + (Encode(v.fields[a]) + more), Frame(Raw(b)) + (Encode(w.fields[b]) + rest));
      TextCase(a, Encode(v.fields[a]) + more, b, Encode(w.fields[b]) + rest);
      PrefixFree(v.fields[a], more, w.fields[b], rest);
      PairsPrefixFree(ks[1..], v, r, js[1..], w, s);
      assert ks == [a] + ks[1..] && js == [b] + js[1..];
    }
  }

  lemma Behind(a: Bytes, x: Bytes, y: Bytes)
    requires a + x == a + y
    ensures x == y
  {
    assert x == (a + x)[|a|..] && y == (a + y)[|a|..];
  }

  // ---------- the encoder as it runs ----------

  method EncodeScalar(v: Value, depth: nat) returns (ok: bool, out: Bytes)
    requires !v.List? && !v.Dict? && depth <= MAX_DEPTH
    ensures ok <==> InDomain(v, depth)
    ensures ok ==> out == Encode(v)
  {
    ok, out := true, [];
    match v {
      case Null => out := Raw("n");
      case Bool(b) => out := if b then Raw("t") else Raw("f");
      case Int(n) =>
        ok := (if n < 0 then -n else n) < Pow2(MAX_INT_BITS);
        out := Raw("i") + Frame(Raw(IntText(n)));
      case Str(s) => out := Raw("s") + Frame(Raw(s));
      case Float(_) => ok := false;
    }
  }

  /** Encodes a value; refuses exactly the values outside the scan domain. */
  method EncodeValue(v: Value, depth: nat) returns (ok: bool, out: Bytes)
    ensures ok <==> InDomain(v, depth)
    ensures ok ==> out == Encode(v)
    decreases v, 1
  {
    ok, out := depth <= MAX_DEPTH, [];
    if !ok { return; }
    match v {
      case List(items) =>
        var body;
        ok, body := EncodeItems(items, depth + 1);
        out := Raw("l") + Raw(Dec(|items|)) + [COLON] + body;
      case Dict(fields) =>
        var body;
        ok, body := EncodeFields(SortedKeys(fields.Keys), v, depth + 1);
        out := Raw("d") + Raw(Dec(|fields|)) + [COLON] + body;
      case _ =>
        ok, out := EncodeScalar(v, depth);
    }
  }

  method EncodeItems(items: seq<Value>, depth: nat) returns (ok: bool, out: Bytes)
    ensures ok <==> forall k :: 0 <= k < |items| ==> InDomain(items[k], depth)
    ensures ok ==> out == EncodeAll(items)
    decreases items, 0
  {
    ok, out := true, [];
    if items == [] { return; }
    ok, out := EncodeValue(items[0], depth);
    if !ok { return; }
    var rest;
    ok, rest := EncodeItems(items[1..], depth);
    out := out + rest;
    assert forall k :: 0 < k < |items| ==> items[k] == items[1..][k - 1];
  }

  method EncodeFields(keys: seq<string>, v: Value, depth: nat) returns (ok: bool, out: Bytes)
    requires v.Dict? && forall k :: k in keys ==> k in v.fields
    ensures ok <==> forall k :: k in keys ==> InDomain(v.fields[k], depth)
    ensures ok ==> out == EncodePairs(keys, v)
    decreases v, 0, |keys|
  {
    ok, out := true, [];
    if keys == [] { return; }
    ok, out := EncodeValue(v.fields[keys[0]], depth);
    assert keys[0] in keys;
    if !ok { return; }
    var rest;
    ok, rest := EncodeFields(keys[1..], v, depth);
    out := Raw("s") + Frame(Raw(keys[0])) + out + rest;
    assert forall k :: k in keys <==> k == keys[0] || k in keys[1..];
  }

  // ---------- framed texts ----------

  // `tag|<length>:<text>|<length>:<text>...`
  function FrameText(text: string): string { Dec(|text|) + ":" + text }

  function Framed(texts: seq<string>): string {
    if texts == [] then "" else "|" + FrameText(texts[0]) + Framed(texts[1..])
  }

  lemma DecSplit(m: nat, r: string, n: nat, s: string)
    requires Dec(m) + ":" + r == Dec(n) + ":" + s
    ensures m == n && r == s
  {
    var x, y := Dec(m), Dec(n);
    var a, b := x + ":" + r, y + ":" + s;
    assert forall k :: 0 <= k < |x| ==> a[k] == x[k];
    assert forall k :: 0 <= k < |y| ==> b[k] == y[k];
    assert a[|x|] == ':' && b[|y|] == ':';
    assert |x| == |y|;
    assert x == a[..|x|] && y == b[..|y|];
    assert r == a[|x| + 1..] && s == b[|y| + 1..];
    DecInjective(m, n);
  }

  /** Framed texts come apart in one way only. */
  lemma {:induction false} FramedInjective(xs: seq<string>, ys: seq<string>)
    requires Framed(xs) == Framed(ys)
    ensures xs == ys
  {
    if xs != [] && ys != [] {
      var r, s := xs[0] + Framed(xs[1..]), ys[0] + Framed(ys[1..]);
      assert Framed(xs) == "|" + (Dec(|xs[0]|) + ":" + r);
      assert Framed(ys) == "|" + (Dec(|ys[0]|) + ":" + s);
      assert Dec(|xs[0]|) + ":" + r == Framed(xs)[1..] == Framed(ys)[1..] == Dec(|ys[0]|) + ":" + s;
      DecSplit(|xs[0]|, r, |ys[0]|, s);
      assert xs[0] == r[..|xs[0]|] && ys[0] == s[..|ys[0]|];
      assert Framed(xs[1..]) == r[|xs[0]|..] && Framed(ys[1..]) == s[|ys[0]|..];
      FramedInjective(xs[1..], ys[1..]);
      assert xs == [xs[0]] + xs[1..] && ys == [ys[0]] + ys[1..];
    }
  }
}
