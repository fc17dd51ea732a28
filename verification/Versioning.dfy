/** The compatibility verdict for two control-plane snapshots (`server/control_plane_versioning.py`). */
module Versioning {
  import opened Schema
  import Text

  // ---------- snapshots ----------

  datatype Method = GET | POST
  datatype Auth = Public | Required

  datatype Op = Op(verb: Method, path: string, auth: Auth, mutating: bool, request: Spec, response: Spec,
                   errors: seq<string>)

  // `meta` holds the texts beside the operations.
  datatype Area = Area(meta: map<string, string>, ops: map<string, Op>)

  // The base path is "/" + word + "/v" + major. `rest` holds every other declaration of the contract.
  datatype Contract = Contract(word: string, major: nat, publicOps: seq<string>, readOnly: seq<string>,
                               codes: seq<string>, errorFields: Spec, rest: Value)

  datatype Doc = Doc(contract: Contract, areas: map<string, Area>)

  datatype OpId = OpId(area: string, op: string)

  function Name(id: OpId): string { id.area + "." + id.op }

  function Ops(doc: Doc): set<OpId> {
    set area, op | area in doc.areas && op in doc.areas[area].ops :: OpId(area, op)
  }

  function OpAt(doc: Doc, id: OpId): Op
    requires id in Ops(doc)
  {
    doc.areas[id.area].ops[id.op]
  }

  function Listed(s: seq<string>): set<string> { set x | x in s }

  // ---------- what a snapshot must be ----------

  const CODES := {
    "auth_expired", "auth_invalid", "idempotency_conflict", "quota_exhausted", "quota_reservation_expired",
    "entitlement_missing", "provider_key_invalid", "provider_unavailable", "cost_cap_exceeded", "rate_limited",
    "malformed_request", "not_found", "conflict", "internal"
  }

  const CHESS_TOKENS := {"game", "games", "move", "moves", "fen", "pgn", "san", "uci", "analysis", "note", "notes",
    "position", "board", "eval"}

  const MAX_EXAMPLE_INT := 0x1F_FFFF_FFFF_FFFF

  predicate Lower(c: char) { 'a' <= c <= 'z' }

  predicate AreaName(s: string) {
    1 <= |s| <= 32 && Lower(s[0]) && forall k :: 0 <= k < |s| ==> Lower(s[k]) || s[k] == '_'
  }

  predicate FieldName(s: string) {
    && 1 <= |s| <= 64 && Lower(s[0]) && (forall k :: 0 <= k < |s| ==> Lower(s[k]) || Text.IsDigit(s[k]) || s[k] == '_')
    && forall token :: token in Text.Split(s, '_') ==> token !in CHESS_TOKENS
  }

  predicate Segment(s: string) {
    1 <= |s| <= 32 && forall k :: 0 <= k < |s| ==> Lower(s[k]) || Text.IsDigit(s[k]) || s[k] == '-'
  }

  predicate PathOk(s: string) {
    var parts := Text.Split(s, '/');
    2 <= |parts| <= 9 && parts[0] == "" && forall k :: 1 <= k < |parts| ==> Segment(parts[k])
  }

  predicate ScalarExample(kind: Kind, v: Value) {
    match kind
    case StringKind => v.Text?
    case IntegerKind => v.Int? && -MAX_EXAMPLE_INT <= v.number <= MAX_EXAMPLE_INT
    case NumberKind => v.Float? || (v.Int? && -MAX_EXAMPLE_INT <= v.number <= MAX_EXAMPLE_INT)
    case BooleanKind => v.Bool?
    case _ => false
  }

  predicate ExampleOk(kind: Kind, item: Option<Kind>, v: Value) {
    if kind == ArrayKind
    then v.List? && item.Some? && forall k :: 0 <= k < |v.items| ==> ScalarExample(item.value, v.items[k])
    else ScalarExample(kind, v)
  }

  // The fields of an object at this depth, on the request or the response side
  predicate FieldsOk(s: Spec, depth: nat, request: bool)
    decreases s, 0
  {
    |s.fields| <= 256 && forall name :: name in s.fields ==> FieldName(name) && FieldOk(s.fields[name], depth, request)
  }

  predicate FieldOk(s: Spec, depth: nat, request: bool)
    decreases s, 1
  {
    && (if s.kind == ArrayKind then s.items.Some? && s.items.value !in {ArrayKind, ObjectKind} else s.items.None?)
    && (if s.kind == ObjectKind then depth < 8 && s.example.None? && FieldsOk(s, depth + 1, request)
        else s.fields == map[])
    && (s.writeOnly ==> request)
    && (s.example.Some? ==> ExampleOk(s.kind, s.items, s.example.value))
  }

  predicate BodyOk(s: Spec, request: bool) { s == Body(s.fields) && FieldsOk(s, 1, request) }

  predicate OpOk(op: Op, codes: seq<string>) {
    && PathOk(op.path) && BodyOk(op.request, true) && BodyOk(op.response, false)
    && (op.verb == GET ==> !op.mutating && op.request.fields == map[])
    && Unique(op.errors) && op.errors != [] && Listed(op.errors) <= Listed(codes)
  }

  predicate Unique(s: seq<string>) { forall j, k :: 0 <= j < k < |s| ==> s[j] != s[k] }

  predicate ErrorFieldsOk(s: Spec, codes: seq<string>) {
    && BodyOk(s, false) && s.fields.Keys == {"code", "message", "retryable"}
    && (forall name :: name in s.fields ==>
          s.fields[name].required && s.fields[name].kind == if name == "retryable" then BooleanKind else StringKind)
    && (s.fields["code"].example.Some? ==>
          s.fields["code"].example.value.Text? && s.fields["code"].example.value.text in codes)
  }

  predicate ContractOk(c: Contract) {
    && c.word != "" && (forall k :: 0 <= k < |c.word| ==> Lower(c.word[k])) && 1 <= c.major <= 999
    && Unique(c.publicOps) && Unique(c.readOnly) && Unique(c.codes) && c.codes != [] && Listed(c.codes) <= CODES
    && ErrorFieldsOk(c.errorFields, c.codes)
  }

  predicate AreasOk(doc: Doc) {
    && 1 <= |doc.areas| <= 64
    && (forall area :: area in doc.areas ==> AreaName(area) && 1 <= |doc.areas[area].ops| <= 64)
    && forall id :: id in Ops(doc) ==> AreaName(id.op) && OpOk(OpAt(doc, id), doc.contract.codes)
  }

  // No path serves two operations.
  predicate PathsDiffer(doc: Doc) {
    forall a, b :: a in Ops(doc) && b in Ops(doc) && OpAt(doc, a).path == OpAt(doc, b).path ==> a == b
  }

  function PublicNames(doc: Doc): set<string> { set id | id in Ops(doc) && OpAt(doc, id).auth == Public :: Name(id) }
  function ReadOnlyNames(doc: Doc): set<string> { set id | id in Ops(doc) && !OpAt(doc, id).mutating :: Name(id) }

  predicate SourceOk(doc: Doc) {
    && ContractOk(doc.contract) && AreasOk(doc) && PathsDiffer(doc)
    && Listed(doc.contract.publicOps) == PublicNames(doc)
    && Listed(doc.contract.readOnly) == ReadOnlyNames(doc)
  }

  // ---------- the verdict ----------

  function Added(was: Doc, now: Doc): set<OpId> { set id | id in Ops(now) && id !in Ops(was) }

  predicate SameLists(was: Doc, now: Doc) {
    && Listed(now.contract.readOnly) ==
       Listed(was.contract.readOnly) + (set id | id in Added(was, now) && !OpAt(now, id).mutating :: Name(id))
    && Listed(now.contract.publicOps) ==
       Listed(was.contract.publicOps) + (set id | id in Added(was, now) && OpAt(now, id).auth == Public :: Name(id))
  }

  predicate SameContract(a: Contract, b: Contract) {
    a.(publicOps := [], readOnly := []) == b.(publicOps := [], readOnly := [])
  }

  predicate OpKept(a: Op, b: Op) {
    && b.verb == a.verb && b.path == a.path && b.auth == a.auth && b.mutating == a.mutating && b.errors == a.errors
    && Additive(a.request, b.request) && Additive(a.response, b.response)
  }

  predicate AreaKept(a: Area, b: Area) {
    a.meta == b.meta && forall op :: op in a.ops ==> op in b.ops && OpKept(a.ops[op], b.ops[op])
  }

  predicate AreasKept(was: Doc, now: Doc) {
    forall area :: area in was.areas ==> area in now.areas && AreaKept(was.areas[area], now.areas[area])
  }

  predicate NewRoutes(was: Doc, now: Doc) {
    forall a, b :: a in Added(was, now) && b in Ops(was) ==>
      OpAt(now, a).verb != OpAt(was, b).verb || OpAt(now, a).path != OpAt(was, b).path
  }

  // The comparison within one major version, as it is made
  predicate SameMajor(was: Doc, now: Doc) {
    SameLists(was, now) && SameContract(was.contract, now.contract) && AreasKept(was, now) && NewRoutes(was, now)
  }

  const MAX_MINOR := 2147483647

  /** `None` stands for the refusal of a malformed request. */
  function Compare(was: Doc, now: Doc, oldMinor: int, newMinor: int): Option<bool> {
    if !(0 <= oldMinor <= MAX_MINOR && 0 <= newMinor <= MAX_MINOR) || !SourceOk(was) || !SourceOk(now) then None
    else if now.contract.major < was.contract.major then None
    else if now.contract.major > was.contract.major then Some(true)
    else if newMinor < oldMinor then None
    else if now.contract.word != was.contract.word then Some(false)
    else Some(SameMajor(was, now))
  }

  // ---------- what it means ----------

  /** Nothing declared goes or changes, but for additions inside bodies and of operations. */
  predicate Compatible(was: Doc, now: Doc) {
    SameContract(was.contract, now.contract) && AreasKept(was, now)
  }

  lemma KeptOp(was: Doc, now: Doc, id: OpId)
    requires AreasKept(was, now) && id in Ops(was)
    ensures id in Ops(now) && OpKept(OpAt(was, id), OpAt(now, id))
  {
    assert AreaKept(was.areas[id.area], now.areas[id.area]);
  }

  // The operations that are there before and after keep their flags.
  ghost predicate FlagsKept(was: Doc, now: Doc) {
    forall id :: id in Ops(was) ==>
      id in Ops(now) && OpAt(now, id).mutating == OpAt(was, id).mutating && OpAt(now, id).auth == OpAt(was, id).auth
  }

  lemma ReadOnlyFollows(was: Doc, now: Doc)
    requires FlagsKept(was, now)
    ensures ReadOnlyNames(now) ==
            ReadOnlyNames(was) + set id | id in Added(was, now) && !OpAt(now, id).mutating :: Name(id)
  {
    var more := set id | id in Added(was, now) && !OpAt(now, id).mutating :: Name(id);
    forall name | name in ReadOnlyNames(now) ensures name in ReadOnlyNames(was) + more {
      var id :| id in Ops(now) && !OpAt(now, id).mutating && Name(id) == name;
      assert id in Ops(was) || id in Added(was, now);
    }
    forall name | name in ReadOnlyNames(was) + more ensures name in ReadOnlyNames(now) {}
  }

  lemma PublicFollows(was: Doc, now: Doc)
    requires FlagsKept(was, now)
    ensures PublicNames(now) ==
            PublicNames(was) + set id | id in Added(was, now) && OpAt(now, id).auth == Public :: Name(id)
  {
    var more := set id | id in Added(was, now) && OpAt(now, id).auth == Public :: Name(id);
    forall name | name in PublicNames(now) ensures name in PublicNames(was) + more {
      var id :| id in Ops(now) && OpAt(now, id).auth == Public && Name(id) == name;
      assert id in Ops(was) || id in Added(was, now);
    }
    forall name | name in PublicNames(was) + more ensures name in PublicNames(now) {}
  }

  lemma KeptFlags(was: Doc, now: Doc)
    requires AreasKept(was, now)
    ensures FlagsKept(was, now)
  {
    forall id | id in Ops(was)
      ensures id in Ops(now) && OpAt(now, id).mutating == OpAt(was, id).mutating
      ensures OpAt(now, id).auth == OpAt(was, id).auth
    {
      KeptOp(was, now, id);
    }
  }

  lemma RoutesFollow(was: Doc, now: Doc)
    requires PathsDiffer(now) && AreasKept(was, now)
    ensures NewRoutes(was, now)
  {
    forall a, b | a in Added(was, now) && b in Ops(was) ensures OpAt(now, a).path != OpAt(was, b).path {
      KeptOp(was, now, b);
    }
  }

  /** On well-formed snapshots the checks of the allow-lists and of the routes never decide. */
  lemma SameMajorMeans(was: Doc, now: Doc)
    requires SourceOk(was) && SourceOk(now)
    ensures SameMajor(was, now) <==> Compatible(was, now)
  {
    if AreasKept(was, now) {
      KeptFlags(was, now);
      ReadOnlyFollows(was, now);
      PublicFollows(was, now);
      RoutesFollow(was, now);
    }
  }

  lemma CompatibleReflexive(doc: Doc)
    ensures Compatible(doc, doc)
  {
    forall area | area in doc.areas ensures AreaKept(doc.areas[area], doc.areas[area]) {
      AreaReflexive(doc.areas[area]);
    }
  }

  lemma AreaReflexive(a: Area)
    ensures AreaKept(a, a)
  {
    forall op | op in a.ops ensures OpKept(a.ops[op], a.ops[op]) {
      AdditiveReflexive(a.ops[op].request);
      AdditiveReflexive(a.ops[op].response);
    }
  }

  lemma AreaTransitive(a: Area, b: Area, c: Area)
    requires AreaKept(a, b) && AreaKept(b, c)
    ensures AreaKept(a, c)
  {
    forall op | op in a.ops ensures op in c.ops && OpKept(a.ops[op], c.ops[op]) {
      AdditiveTransitive(a.ops[op].request, b.ops[op].request, c.ops[op].request);
      AdditiveTransitive(a.ops[op].response, b.ops[op].response, c.ops[op].response);
    }
  }

  lemma CompatibleTransitive(a: Doc, b: Doc, c: Doc)
    requires Compatible(a, b) && Compatible(b, c)
    ensures Compatible(a, c)
  {
    forall area | area in a.areas ensures area in c.areas && AreaKept(a.areas[area], c.areas[area]) {
      AreaTransitive(a.areas[area], b.areas[area], c.areas[area]);
    }
  }

  /** The verdict is yes exactly for a newer major version, or for a later minor one under the same base path
      that is compatible. */
  lemma CompareMeans(was: Doc, now: Doc, m: int, n: int)
    requires SourceOk(was) && SourceOk(now) && 0 <= m <= MAX_MINOR && 0 <= n <= MAX_MINOR
    ensures Compare(was, now, m, n) == Some(true) <==>
            (was.contract.major < now.contract.major
             || (was.contract.major == now.contract.major && m <= n && Compatible(was, now)))
  {
    SameMajorMeans(was, now);
  }

  /** A snapshot is compatible with itself. */
  lemma CompareReflexive(doc: Doc, m: int)
    requires SourceOk(doc) && 0 <= m <= MAX_MINOR
    ensures Compare(doc, doc, m, m) == Some(true)
  {
    CompatibleReflexive(doc);
    CompareMeans(doc, doc, m, m);
  }

  /** The verdict along a line of releases: yes twice is yes at once. */
  lemma CompareTransitive(a: Doc, b: Doc, c: Doc, m: int, n: int, o: int)
    requires Compare(a, b, m, n) == Some(true) && Compare(b, c, n, o) == Some(true)
    ensures Compare(a, c, m, o) == Some(true)
  {
    CompareMeans(a, b, m, n);
    CompareMeans(b, c, n, o);
    CompareMeans(a, c, m, o);
    if a.contract.major == c.contract.major { CompatibleTransitive(a, b, c); }
  }

  // An old client works against the new server: the operation is where it was, takes every request that
  // conforms to the old fields, and answers what conforms to them, with nothing lost to the old reader.
  ghost predicate Serves(a: Op, b: Op) {
    && b.verb == a.verb && b.path == a.path && b.auth == a.auth && b.mutating == a.mutating
    && Listed(b.errors) == Listed(a.errors)
    && (forall p {:trigger Valid(p, a.request, true)} :: Valid(p, a.request, true) ==> Valid(p, b.request, true))
    && (forall p {:trigger Valid(p, b.response, false)} :: Valid(p, b.response, false) ==>
          (Valid(p, a.response, false) && Project(Project(p, b.response), a.response) == Project(p, a.response)))
  }

  /** A yes within one major version means that every old client works, whatever the payloads. */
  lemma CompareSound(was: Doc, now: Doc, m: int, n: int, id: OpId)
    requires Compare(was, now, m, n) == Some(true) && was.contract.major == now.contract.major && id in Ops(was)
    ensures id in Ops(now) && Serves(OpAt(was, id), OpAt(now, id))
  {
    KeptOp(was, now, id);
    var a, b := OpAt(was, id), OpAt(now, id);
    forall p | Valid(p, a.request, true) ensures Valid(p, b.request, true) { RequestSound(a.request, b.request, p); }
    forall p | Valid(p, b.response, false)
      ensures Valid(p, a.response, false) && Project(Project(p, b.response), a.response) == Project(p, a.response)
    {
      ResponseSound(a.response, b.response, p);
      ProjectThrough(a.response, b.response, p);
    }
  }

  // ---------- exactly which changes pass ----------

  lemma {:induction false} FieldsProper(s: Spec, depth: nat, request: bool)
    requires FieldsOk(s, depth, request)
    ensures Proper(s)
    decreases s
  {
    forall name | name in s.fields
      ensures var f := s.fields[name];
              && (f.kind == ArrayKind <==> f.items.Some?)
              && (f.items.Some? ==> f.items.value !in {ArrayKind, ObjectKind})
              && (f.kind != ObjectKind ==> f.fields == map[]) && Proper(f)
    {
      assert FieldOk(s.fields[name], depth, request);
      if s.fields[name].kind == ObjectKind { FieldsProper(s.fields[name], depth + 1, request); }
    }
  }

  /** Old clients are served both ways on both sides: all they send is taken, all they are answered they read, and
      what they sent may also be echoed and what they read be sent. The notes stay. */
  ghost predicate ServedBothWays(a: Spec, b: Spec) { TakesAll(a, b) && AnswersAll(a, b) && NotesKept(a, b) }

  ghost predicate OpServed(a: Op, b: Op) {
    && b.verb == a.verb && b.path == a.path && b.auth == a.auth && b.mutating == a.mutating && b.errors == a.errors
    && ServedBothWays(a.request, b.request) && ServedBothWays(a.response, b.response)
  }

  lemma OpExactly(a: Op, b: Op, x: seq<string>, y: seq<string>)
    requires OpOk(a, x) && OpOk(b, y)
    ensures OpKept(a, b) <==> OpServed(a, b)
  {
    FieldsProper(a.request, 1, true);
    FieldsProper(b.request, 1, true);
    FieldsProper(a.response, 1, false);
    FieldsProper(b.response, 1, false);
    AdditiveSplits(a.request, b.request);
    AdditiveSplits(a.response, b.response);
    AdditiveExactly(a.request, b.request);
    AdditiveExactly(a.response, b.response);
  }

  /** Within one major version the verdict is yes exactly when the declarations stay, no area or operation goes, and
      every operation serves old clients both ways, whatever the payloads. */
  lemma CompareExactly(was: Doc, now: Doc, m: int, n: int)
    requires SourceOk(was) && SourceOk(now) && was.contract.major == now.contract.major
    requires 0 <= m <= n <= MAX_MINOR
    ensures Compare(was, now, m, n) == Some(true) <==>
              && SameContract(was.contract, now.contract)
              && (forall area :: area in was.areas ==>
                   area in now.areas && now.areas[area].meta == was.areas[area].meta)
              && forall id :: id in Ops(was) ==> id in Ops(now) && OpServed(OpAt(was, id), OpAt(now, id))
  {
    CompareMeans(was, now, m, n);
    forall id | id in Ops(was) && id in Ops(now)
      ensures OpKept(OpAt(was, id), OpAt(now, id)) <==> OpServed(OpAt(was, id), OpAt(now, id))
    {
      OpExactly(OpAt(was, id), OpAt(now, id), was.contract.codes, now.contract.codes);
    }
    AreasById(was, now);
  }

  lemma AreasById(was: Doc, now: Doc)
    ensures AreasKept(was, now) <==>
              && (forall area :: area in was.areas ==>
                   area in now.areas && now.areas[area].meta == was.areas[area].meta)
              && forall id :: id in Ops(was) ==> id in Ops(now) && OpKept(OpAt(was, id), OpAt(now, id))
  {
    if AreasKept(was, now) {
      forall id | id in Ops(was)
        ensures id in Ops(now) && OpKept(OpAt(was, id), OpAt(now, id))
      {
        KeptOp(was, now, id);
      }
    } else {
      var area :| area in was.areas && (area in now.areas ==> !AreaKept(was.areas[area], now.areas[area]));
      if area in now.areas && now.areas[area].meta == was.areas[area].meta {
        var op :| op in was.areas[area].ops &&
          (op in now.areas[area].ops ==> !OpKept(was.areas[area].ops[op], now.areas[area].ops[op]));
        assert OpId(area, op) in Ops(was);
      }
    }
  }
}
