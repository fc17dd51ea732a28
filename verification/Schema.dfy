/** Payload schemas of the control plane: what conforms, what a client reads from it, and which changes are
    additive (`server/control_plane_client.py`, `server/control_plane_versioning.py`). */
module Schema {

  datatype Option<+T> = None | Some(value: T)

  // ---------- plain values ----------

  // `NonFinite` numbers the infinities and the not-a-number, which the comparison takes as equal to itself.
  datatype Value = Null
                 | Text(text: string)
                 | Int(number: int)
                 | Float(float: real)
                 | NonFinite(which: nat)
                 | Bool(truth: bool)
                 | List(items: seq<Value>)
                 | Dict(entries: map<string, Value>)

  datatype Kind = StringKind | IntegerKind | NumberKind | BooleanKind | ArrayKind | ObjectKind

  // `items` is there for arrays, `fields` for objects; a body is an object of its own.
  datatype Spec = Spec(kind: Kind, required: bool, items: Option<Kind>, writeOnly: bool,
                       example: Option<Value>, fields: map<string, Spec>)

  function Body(fields: map<string, Spec>): Spec { Spec(ObjectKind, true, None, false, None, fields) }

  predicate TypeOk(kind: Kind, v: Value) {
    match kind
    case StringKind => v.Text?
    case IntegerKind => v.Int?
    case NumberKind => v.Int? || v.Float?
    case BooleanKind => v.Bool?
    case ArrayKind => v.List?
    case ObjectKind => v.Dict?
  }

  predicate ItemsOk(item: Option<Kind>, items: seq<Value>) {
    item.Some? ==> forall k :: 0 <= k < |items| ==> TypeOk(item.value, items[k])
  }

  /** The payload conforms to the fields of an object; a closed check also refuses undeclared keys. */
  ghost predicate Valid(p: Value, spec: Spec, closed: bool)
    decreases p, 0
  {
    && p.Dict?
    && (closed ==> p.entries.Keys <= spec.fields.Keys)
    && (forall name :: name in spec.fields && spec.fields[name].required ==> name in p.entries)
    && forall name :: name in spec.fields && name in p.entries ==>
      ValueValid(p.entries[name], spec.fields[name], closed)
  }

  ghost predicate ValueValid(v: Value, spec: Spec, closed: bool)
    decreases v, 1
  {
    && TypeOk(spec.kind, v)
    && (spec.kind == ObjectKind ==> Valid(v, spec, closed))
    && (spec.kind == ArrayKind ==> ItemsOk(spec.items, v.items))
  }

  // What is left of a payload: the declared fields
  function Project(p: Value, spec: Spec): Value
    decreases p
  {
    if !p.Dict? then p
    else Dict(map name | name in spec.fields && name in p.entries ::
                if spec.fields[name].kind == ObjectKind then Project(p.entries[name], spec.fields[name])
                else p.entries[name])
  }

  method ValidPayload(p: Value, spec: Spec, closed: bool) returns (ok: bool)
    ensures ok <==> Valid(p, spec, closed)
    decreases p
  {
    if !p.Dict? || (closed && exists key :: key in p.entries && key !in spec.fields) { return false; }
    var names := spec.fields.Keys;
    while names != {}
      invariant names <= spec.fields.Keys
      invariant forall name :: name in spec.fields && name !in names ==>
                  (spec.fields[name].required ==> name in p.entries)
                  && (name in p.entries ==> ValueValid(p.entries[name], spec.fields[name], closed))
    {
      var name :| name in names;
      names := names - {name};
      var field := spec.fields[name];
      if name !in p.entries {
        if field.required { return false; }
        continue;
      }
      var value := p.entries[name];
      if !TypeOk(field.kind, value) { return false; }
      if field.kind == ObjectKind {
        var inner := ValidPayload(value, field, closed);
        if !inner { return false; }
      }
      if field.kind == ArrayKind && !ItemsOk(field.items, value.items) { return false; }
    }
    return true;
  }

  method ProjectPayload(p: Value, spec: Spec) returns (q: Value)
    requires Valid(p, spec, false)
    ensures q == Project(p, spec)
    decreases p
  {
    var kept: map<string, Value> := map[];
    var names := spec.fields.Keys;
    while names != {}
      invariant names <= spec.fields.Keys
      invariant forall name :: name in kept <==> name in spec.fields && name !in names && name in p.entries
      invariant forall name :: name in kept ==> kept[name] == Project(p, spec).entries[name]
    {
      var name :| name in names;
      names := names - {name};
      if name !in p.entries { continue; }
      var value := p.entries[name];
      if spec.fields[name].kind == ObjectKind { value := ProjectPayload(value, spec.fields[name]); }
      kept := kept[name := value];
    }
    q := Dict(kept);
    assert q.entries == Project(p, spec).entries;
  }

  // ---------- additive changes ----------

  // The fields of an object before and after: nothing goes, nothing changes but inside objects, and what
  // comes is optional.
  predicate Additive(before: Spec, after: Spec)
    decreases before, 0
  {
    && (forall name :: name in before.fields ==>
         name in after.fields && SameOrAdditive(before.fields[name], after.fields[name]))
    && forall name :: name in after.fields && name !in before.fields ==> !after.fields[name].required
  }

  predicate SameOrAdditive(before: Spec, after: Spec)
    decreases before, 1
  {
    if before.kind == ObjectKind && after.kind == ObjectKind
    then before.(fields := after.fields) == after && Additive(before, after)
    else before == after
  }

  lemma {:induction false} AdditiveReflexive(s: Spec)
    ensures Additive(s, s)
    decreases s
  {
    forall name | name in s.fields ensures SameOrAdditive(s.fields[name], s.fields[name]) {
      AdditiveReflexive(s.fields[name]);
    }
  }

  lemma {:induction false} AdditiveTransitive(a: Spec, b: Spec, c: Spec)
    requires Additive(a, b) && Additive(b, c)
    ensures Additive(a, c)
    decreases a
  {
    forall name | name in a.fields ensures name in c.fields && SameOrAdditive(a.fields[name], c.fields[name]) {
      var x, y, z := a.fields[name], b.fields[name], c.fields[name];
      assert SameOrAdditive(x, y) && SameOrAdditive(y, z);
      if x.kind == ObjectKind { AdditiveTransitive(x, y, z); }
    }
    forall name | name in c.fields && name !in a.fields ensures !c.fields[name].required {
      if name in b.fields { assert SameOrAdditive(b.fields[name], c.fields[name]); }
    }
  }

  /** Requests: a body the old fields allow is allowed by the new ones, at any depth. */
  lemma {:induction false} RequestSound(before: Spec, after: Spec, p: Value)
    requires Additive(before, after) && Valid(p, before, true)
    ensures Valid(p, after, true)
    decreases p
  {
    forall name | name in after.fields && after.fields[name].required ensures name in p.entries {
      assert name in before.fields;
      assert SameOrAdditive(before.fields[name], after.fields[name]);
    }
    forall name | name in after.fields && name in p.entries
      ensures ValueValid(p.entries[name], after.fields[name], true)
    {
      var x, y, v := before.fields[name], after.fields[name], p.entries[name];
      assert SameOrAdditive(x, y) && ValueValid(v, x, true);
      if x.kind == ObjectKind { RequestSound(x, y, v); }
    }
  }

  /** Responses: a body the new fields allow is one that a reader of the old fields allows, at any depth. */
  lemma {:induction false} ResponseSound(before: Spec, after: Spec, p: Value)
    requires Additive(before, after) && Valid(p, after, false)
    ensures Valid(p, before, false)
    decreases p
  {
    forall name | name in before.fields && before.fields[name].required ensures name in p.entries {
      assert SameOrAdditive(before.fields[name], after.fields[name]);
    }
    forall name | name in before.fields && name in p.entries
      ensures ValueValid(p.entries[name], before.fields[name], false)
    {
      var x, y, v := before.fields[name], after.fields[name], p.entries[name];
      assert SameOrAdditive(x, y) && ValueValid(v, y, false);
      if x.kind == ObjectKind { ResponseSound(x, y, v); }
    }
  }

  /** An old reader gets the same from a response as from the part of it that a new reader keeps. */
  lemma {:induction false} ProjectThrough(before: Spec, after: Spec, p: Value)
    requires Additive(before, after) && Valid(p, after, false)
    ensures Project(Project(p, after), before) == Project(p, before)
    decreases p
  {
    var q := Project(p, after);
    forall name | name in before.fields && name in p.entries
      ensures Project(q, before).entries[name] == Project(p, before).entries[name]
    {
      var x, y, v := before.fields[name], after.fields[name], p.entries[name];
      assert SameOrAdditive(x, y) && ValueValid(v, y, false);
      if x.kind == ObjectKind { ProjectThrough(x, y, v); }
    }
    assert Project(q, before).entries == Project(p, before).entries;
  }

  /** What is left of a conforming payload conforms, and holds no undeclared key at any depth. */
  lemma {:induction false} ProjectCloses(spec: Spec, p: Value)
    requires Valid(p, spec, false)
    ensures Valid(Project(p, spec), spec, true)
    decreases p
  {
    var q := Project(p, spec);
    forall name | name in spec.fields && name in q.entries
      ensures ValueValid(q.entries[name], spec.fields[name], true)
    {
      assert ValueValid(p.entries[name], spec.fields[name], false);
      if spec.fields[name].kind == ObjectKind { ProjectCloses(spec.fields[name], p.entries[name]); }
    }
  }

  /** A payload that passes the closed check loses nothing. */
  lemma {:induction false} ProjectOfClosed(spec: Spec, p: Value)
    requires Valid(p, spec, true)
    ensures Project(p, spec) == p && Valid(p, spec, false)
    decreases p
  {
    var q := Project(p, spec);
    forall name | name in spec.fields && name in p.entries
      ensures ValueValid(p.entries[name], spec.fields[name], false) && q.entries[name] == p.entries[name]
    {
      assert ValueValid(p.entries[name], spec.fields[name], true);
      if spec.fields[name].kind == ObjectKind { ProjectOfClosed(spec.fields[name], p.entries[name]); }
    }
    assert q.entries == p.entries;
  }

  // ---------- additive is all that serves ----------

  // The kinds a value has: one, but that integers are numbers too
  lemma Kinds(v: Value)
    ensures TypeOk(StringKind, v) <==> exists s :: v == Text(s)
    ensures TypeOk(IntegerKind, v) <==> exists n :: v == Int(n)
    ensures TypeOk(NumberKind, v) <==> (exists n :: v == Int(n)) || exists x :: v == Float(x)
    ensures TypeOk(BooleanKind, v) <==> v == Bool(true) || v == Bool(false)
    ensures TypeOk(ArrayKind, v) <==> exists items :: v == List(items)
    ensures TypeOk(ObjectKind, v) <==> exists entries :: v == Dict(entries)
  {
  }

  // Arrays have a scalar item type, and only objects have fields.
  ghost predicate Proper(s: Spec) {
    forall name :: name in s.fields ==>
      var f := s.fields[name];
      && (f.kind == ArrayKind <==> f.items.Some?) && (f.items.Some? ==> f.items.value !in {ArrayKind, ObjectKind})
      && (f.kind != ObjectKind ==> f.fields == map[]) && Proper(f)
  }

  // The same fields without their notes
  function Plain(s: Spec): Spec {
    Spec(s.kind, s.required, s.items, false, None, map name | name in s.fields :: Plain(s.fields[name]))
  }

  /** What may be sent to the old fields may be sent to the new ones, whatever it is. */
  ghost predicate TakesAll(before: Spec, after: Spec) {
    forall p {:trigger Valid(p, before, true)} :: Valid(p, before, true) ==> Valid(p, after, true)
  }

  /** What the new fields may answer the old ones may, whatever it is. */
  ghost predicate AnswersAll(before: Spec, after: Spec) {
    forall p {:trigger Valid(p, after, false)} :: Valid(p, after, false) ==> Valid(p, before, false)
  }

  function SampleOf(kind: Kind): Value {
    match kind
    case StringKind => Text("") case IntegerKind => Int(0) case NumberKind => Float(0.5) case BooleanKind => Bool(true)
    case ArrayKind => List([]) case ObjectKind => Dict(map[])
  }

  // A value with every field there
  function Full(s: Spec): Value {
    Dict(map name | name in s.fields ::
      if s.fields[name].kind == ObjectKind then Full(s.fields[name]) else SampleOf(s.fields[name].kind))
  }

  lemma SampleKind(j: Kind, k: Kind)
    requires TypeOk(j, SampleOf(k)) && TypeOk(k, SampleOf(j))
    ensures j == k
  {
  }

  lemma {:induction false} FullValid(s: Spec, closed: bool)
    ensures Valid(Full(s), s, closed)
    decreases s
  {
    var p := Full(s);
    forall name | name in s.fields && name in p.entries ensures ValueValid(p.entries[name], s.fields[name], closed) {
      if s.fields[name].kind == ObjectKind { FullValid(s.fields[name], closed); }
    }
  }

  // The full value with another value in one field, and without the field
  lemma PutValid(s: Spec, name: string, v: Value, closed: bool)
    requires name in s.fields && ValueValid(v, s.fields[name], closed)
    ensures Valid(Dict(Full(s).entries[name := v]), s, closed)
  {
    FullValid(s, closed);
    var p := Dict(Full(s).entries[name := v]);
    forall n | n in s.fields && n in p.entries ensures ValueValid(p.entries[n], s.fields[n], closed) {
      if n != name { assert ValueValid(Full(s).entries[n], s.fields[n], closed); }
    }
  }

  lemma DropValid(s: Spec, name: string, closed: bool)
    requires name in s.fields && !s.fields[name].required
    ensures Valid(Dict(Full(s).entries - {name}), s, closed)
  {
    FullValid(s, closed);
    var p := Dict(Full(s).entries - {name});
    forall n | n in s.fields && n in p.entries ensures ValueValid(p.entries[n], s.fields[n], closed) {
      assert ValueValid(Full(s).entries[n], s.fields[n], closed);
    }
  }

  // A value of a field that serves both ways
  lemma FieldTakes(before: Spec, after: Spec, name: string, v: Value)
    requires TakesAll(before, after) && name in before.fields && ValueValid(v, before.fields[name], true)
    ensures name in after.fields && ValueValid(v, after.fields[name], true)
  {
    PutValid(before, name, v, true);
    assert Valid(Dict(Full(before).entries[name := v]), after, true);
  }

  lemma FieldAnswers(before: Spec, after: Spec, name: string, v: Value)
    requires AnswersAll(before, after) && name in before.fields && name in after.fields
    requires ValueValid(v, after.fields[name], false)
    ensures ValueValid(v, before.fields[name], false)
  {
    PutValid(after, name, v, false);
    assert Valid(Dict(Full(after).entries[name := v]), before, false);
  }

  // Sent in full and answered in full, a field keeps its kind.
  lemma SameKind(before: Spec, after: Spec, name: string)
    requires TakesAll(before, after) && AnswersAll(before, after) && name in before.fields
    ensures name in after.fields && after.fields[name].kind == before.fields[name].kind
  {
    FullValid(before, true);
    FullValid(after, false);
    var p, q := Full(before), Full(after);
    assert Valid(p, after, true) && Valid(q, before, false);
    assert ValueValid(p.entries[name], after.fields[name], true);
    assert ValueValid(q.entries[name], before.fields[name], false);
    KindOfSample(before, name);
    KindOfSample(after, name);
    SampleKind(before.fields[name].kind, after.fields[name].kind);
  }

  lemma KindOfSample(s: Spec, name: string)
    requires name in s.fields
    ensures forall k :: TypeOk(k, Full(s).entries[name]) <==> TypeOk(k, SampleOf(s.fields[name].kind))
  {
  }

  // Left out of both, it is asked for in both or in neither.
  lemma SameRequired(before: Spec, after: Spec, name: string)
    requires TakesAll(before, after) && AnswersAll(before, after) && name in before.fields && name in after.fields
    ensures after.fields[name].required == before.fields[name].required
  {
    if !before.fields[name].required {
      DropValid(before, name, true);
    } else if !after.fields[name].required {
      DropValid(after, name, false);
    }
  }

  // Sent and answered with one item, an array keeps its item type.
  lemma SameItems(before: Spec, after: Spec, name: string)
    requires TakesAll(before, after) && AnswersAll(before, after) && Proper(before) && Proper(after)
    requires name in before.fields && name in after.fields && after.fields[name].kind == before.fields[name].kind
    ensures after.fields[name].items == before.fields[name].items
  {
    var x, y := before.fields[name], after.fields[name];
    if x.kind == ArrayKind {
      var v, w := List([SampleOf(x.items.value)]), List([SampleOf(y.items.value)]);
      assert TypeOk(x.items.value, v.items[0]) && TypeOk(y.items.value, w.items[0]);
      FieldTakes(before, after, name, v);
      FieldAnswers(before, after, name, w);
      assert TypeOk(y.items.value, v.items[0]) && TypeOk(x.items.value, w.items[0]);
      SampleKind(x.items.value, y.items.value);
    }
  }

  lemma NestedServes(before: Spec, after: Spec, name: string)
    requires TakesAll(before, after) && AnswersAll(before, after) && name in before.fields && name in after.fields
    requires before.fields[name].kind == ObjectKind && after.fields[name].kind == ObjectKind
    ensures TakesAll(before.fields[name], after.fields[name]) && AnswersAll(before.fields[name], after.fields[name])
  {
    var x, y := before.fields[name], after.fields[name];
    forall v | Valid(v, x, true) ensures Valid(v, y, true) { FieldTakes(before, after, name, v); }
    forall v | Valid(v, y, false) ensures Valid(v, x, false) { FieldAnswers(before, after, name, v); }
  }

  lemma NothingNewRequired(before: Spec, after: Spec, name: string)
    requires TakesAll(before, after) && name in after.fields && name !in before.fields
    ensures !after.fields[name].required
  {
    FullValid(before, true);
    assert Valid(Full(before), after, true);
  }

  // All of a field that serves both ways but what is inside an object
  lemma FieldServes(before: Spec, after: Spec, name: string)
    requires Proper(before) && Proper(after) && TakesAll(before, after) && AnswersAll(before, after)
    requires name in before.fields
    ensures name in after.fields
    ensures var x, y := before.fields[name], after.fields[name];
            && Plain(x).(fields := map[]) == Plain(y).(fields := map[])
            && (x.kind == y.kind == ObjectKind || Plain(x) == Plain(y))
  {
    SameKind(before, after, name);
    SameRequired(before, after, name);
    SameItems(before, after, name);
    var x, y := before.fields[name], after.fields[name];
    if x.kind != ObjectKind { assert x.fields == map[] && y.fields == map[]; }
  }

  lemma {:induction false} ServingIsAdditive(before: Spec, after: Spec)
    requires Proper(before) && Proper(after) && TakesAll(before, after) && AnswersAll(before, after)
    ensures Additive(Plain(before), Plain(after))
    decreases before
  {
    var a, b := Plain(before), Plain(after);
    forall name | name in a.fields ensures name in b.fields && SameOrAdditive(a.fields[name], b.fields[name]) {
      FieldServes(before, after, name);
      var x, y := before.fields[name], after.fields[name];
      assert a.fields[name] == Plain(x) && b.fields[name] == Plain(y);
      if x.kind == ObjectKind {
        NestedServes(before, after, name);
        ServingIsAdditive(x, y);
      }
    }
    forall name | name in b.fields && name !in a.fields ensures !b.fields[name].required {
      NothingNewRequired(before, after, name);
      assert b.fields[name] == Plain(after.fields[name]);
    }
  }

  // The notes of a field do not bear on what conforms.
  lemma {:induction false} PlainValid(p: Value, s: Spec, closed: bool)
    ensures Valid(p, Plain(s), closed) <==> Valid(p, s, closed)
    decreases p
  {
    if p.Dict? {
      forall name | name in s.fields && name in p.entries
        ensures ValueValid(p.entries[name], Plain(s).fields[name], closed) <==>
                  ValueValid(p.entries[name], s.fields[name], closed)
      {
        PlainValid(p.entries[name], s.fields[name], closed);
      }
    }
  }

  /** The additive changes are exactly those that serve old clients both ways: all they send is still taken, and all
      that is answered they still read. No other change of names, types or required fields does. */
  lemma AdditiveExactly(before: Spec, after: Spec)
    requires Proper(before) && Proper(after)
    ensures Additive(Plain(before), Plain(after)) <==> TakesAll(before, after) && AnswersAll(before, after)
  {
    if Additive(Plain(before), Plain(after)) {
      forall p | Valid(p, before, true) ensures Valid(p, after, true) {
        PlainValid(p, before, true);
        RequestSound(Plain(before), Plain(after), p);
        PlainValid(p, after, true);
      }
      forall p | Valid(p, after, false) ensures Valid(p, before, false) {
        PlainValid(p, after, false);
        ResponseSound(Plain(before), Plain(after), p);
        PlainValid(p, before, false);
      }
    }
    if TakesAll(before, after) && AnswersAll(before, after) { ServingIsAdditive(before, after); }
  }

  // The notes of the old fields, at any depth, are still there.
  ghost predicate NotesKept(a: Spec, b: Spec) {
    forall name :: name in a.fields && name in b.fields ==>
      var x, y := a.fields[name], b.fields[name];
      x.writeOnly == y.writeOnly && x.example == y.example && NotesKept(x, y)
  }

  /** An additive change is one that serves both ways and keeps the notes. */
  lemma {:induction false} AdditiveSplits(a: Spec, b: Spec)
    requires Proper(a) && Proper(b)
    ensures Additive(a, b) <==> Additive(Plain(a), Plain(b)) && NotesKept(a, b)
    decreases a, 0
  {
    var c, d := Plain(a), Plain(b);
    forall name | name in a.fields && name in b.fields
      ensures SameOrAdditive(a.fields[name], b.fields[name]) <==>
                && SameOrAdditive(Plain(a).fields[name], Plain(b).fields[name])
                && a.fields[name].writeOnly == b.fields[name].writeOnly
                && a.fields[name].example == b.fields[name].example && NotesKept(a.fields[name], b.fields[name])
    {
      FieldSplits(a.fields[name], b.fields[name]);
    }
    forall name ensures (name in c.fields <==> name in a.fields) && (name in d.fields <==> name in b.fields) { }
    forall name | name in b.fields ensures d.fields[name].required == b.fields[name].required {
      assert d.fields[name] == Plain(b.fields[name]);
    }
    if Additive(a, b) {
      forall name | name in a.fields ensures name in b.fields && SameOrAdditive(a.fields[name], b.fields[name]) { }
    }
    if Additive(c, d) {
      forall name | name in c.fields ensures name in d.fields && SameOrAdditive(c.fields[name], d.fields[name]) { }
    }
  }

  lemma FieldSplits(x: Spec, y: Spec)
    requires Proper(x) && Proper(y)
    requires (x.kind != ObjectKind ==> x.fields == map[]) && (y.kind != ObjectKind ==> y.fields == map[])
    ensures SameOrAdditive(x, y) <==>
              && SameOrAdditive(Plain(x), Plain(y)) && NotesKept(x, y)
              && x.writeOnly == y.writeOnly && x.example == y.example
    decreases x, 1
  {
    if x.kind == ObjectKind && y.kind == ObjectKind {
      AdditiveSplits(x, y);
    } else if x.kind != ObjectKind {
      assert Plain(x).fields == map[];
      assert Plain(y).fields == map[] ==> y.fields == map[] by {
        if name :| name in y.fields { assert name in Plain(y).fields; }
      }
    }
  }

  // ---------- equality by a work list ----------

  ghost function Size(v: Value): nat
    decreases v
  {
    match v
    case List(items) => 1 + SizeItems(v, |items|)
    case Dict(entries) => 1 + SizeOf(v, entries.Keys)
    case _ => 1
  }

  // The first `n` items of a list together
  ghost function SizeItems(v: Value, n: nat): nat
    requires v.List? && n <= |v.items|
    decreases v, 0, n
  {
    if n == 0 then 0 else SizeItems(v, n - 1) + Size(v.items[n - 1])
  }

  // The values at these keys of a dictionary together
  ghost function SizeOf(v: Value, keys: set<string>): nat
    requires v.Dict? && keys <= v.entries.Keys
    decreases v, 0, keys
  {
    if keys == {} then 0
    else
      var k :| k in keys;
      Size(v.entries[k]) + SizeOf(v, keys - {k})
  }

  lemma {:induction false} SizeOfAny(v: Value, keys: set<string>, k: string)
    requires v.Dict? && keys <= v.entries.Keys && k in keys
    ensures SizeOf(v, keys) == Size(v.entries[k]) + SizeOf(v, keys - {k})
    decreases keys
  {
    var j :| j in keys && SizeOf(v, keys) == Size(v.entries[j]) + SizeOf(v, keys - {j});
    if j != k {
      SizeOfAny(v, keys - {j}, k);
      SizeOfAny(v, keys - {k}, j);
      assert keys - {j} - {k} == keys - {k} - {j};
    }
  }

  datatype Pair = Pair(left: Value, right: Value)

  ghost function Weight(pairs: seq<Pair>): nat {
    if pairs == [] then 0 else Weight(pairs[..|pairs| - 1]) + Size(pairs[|pairs| - 1].left)
  }

  ghost predicate AllEqual(pairs: seq<Pair>) { forall k :: 0 <= k < |pairs| ==> pairs[k].left == pairs[k].right }

  /** Comparison of two values by a stack of pairs still to be compared. */
  method Equal(left: Value, right: Value) returns (same: bool)
    ensures same <==> left == right
  {
    var pairs := [Pair(left, right)];
    while pairs != []
      invariant left == right <==> AllEqual(pairs)
      decreases Weight(pairs)
    {
      var rest, a, b := pairs[..|pairs| - 1], pairs[|pairs| - 1].left, pairs[|pairs| - 1].right;
      assert AllEqual(pairs) <==> AllEqual(rest) && a == b;
      if a.List? && b.List? {
        if |a.items| != |b.items| { return false; }
        pairs := PushItems(rest, a, b);
      } else if a.Dict? && b.Dict? {
        if a.entries.Keys != b.entries.Keys { return false; }
        pairs := PushEntries(rest, a, b);
      } else {
        if a != b { return false; }
        pairs := rest;
      }
    }
    return true;
  }

  method PushItems(rest: seq<Pair>, a: Value, b: Value) returns (pairs: seq<Pair>)
    requires a.List? && b.List? && |a.items| == |b.items|
    ensures AllEqual(pairs) <==> AllEqual(rest) && a == b
    ensures Weight(pairs) < Weight(rest) + Size(a)
  {
    pairs := rest;
    for n := 0 to |a.items|
      invariant AllEqual(pairs) <==> AllEqual(rest) && a.items[..n] == b.items[..n]
      invariant Weight(pairs) == Weight(rest) + SizeItems(a, n)
    {
      assert a.items[..n + 1] == a.items[..n] + [a.items[n]] && b.items[..n + 1] == b.items[..n] + [b.items[n]];
      pairs := Push(pairs, Pair(a.items[n], b.items[n]));
    }
    assert a.items[..|a.items|] == a.items && b.items[..|a.items|] == b.items;
  }

  method PushEntries(rest: seq<Pair>, a: Value, b: Value) returns (pairs: seq<Pair>)
    requires a.Dict? && b.Dict? && a.entries.Keys == b.entries.Keys
    ensures AllEqual(pairs) <==> AllEqual(rest) && a == b
    ensures Weight(pairs) < Weight(rest) + Size(a)
  {
    pairs := rest;
    var keys := a.entries.Keys;
    while keys != {}
      invariant keys <= a.entries.Keys
      invariant AllEqual(pairs) <==>
                  AllEqual(rest) && forall k :: k in a.entries && k !in keys ==> a.entries[k] == b.entries[k]
      invariant Weight(pairs) == Weight(rest) + SizeOf(a, a.entries.Keys) - SizeOf(a, keys)
    {
      var k :| k in keys;
      SizeOfAny(a, keys, k);
      keys := keys - {k};
      pairs := Push(pairs, Pair(a.entries[k], b.entries[k]));
    }
    assert a == b <==> a.entries == b.entries;
  }

  function Push(pairs: seq<Pair>, p: Pair): (more: seq<Pair>)
    ensures Weight(more) == Weight(pairs) + Size(p.left)
    ensures AllEqual(more) <==> AllEqual(pairs) && p.left == p.right
  {
    assert (pairs + [p])[..|pairs|] == pairs;
    pairs + [p]
  }
}
