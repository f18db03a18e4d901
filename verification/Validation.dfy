/** Mappings from source columns to target fields, and what makes one acceptable. */
module Validation {
  import opened Prelude
  import opened Schemas

  datatype FieldMapping = FieldMapping(source: int, target: uint64)

  datatype MappingSpec = MappingSpec(schemaID: uint64, mappings: seq<FieldMapping>)

  datatype Code =
    | InvalidMapping | InvalidSourceIndex | UnknownTarget | DuplicateTarget | RequiredTargetMissing
    | RequiredValueMissing | InvalidInteger | InvalidDecimal | InvalidBoolean | InvalidDateTime | ProcessorError

  /** Why a mapping is rejected; i is the position of the field or mapping at fault. */
  datatype Defect =
    | SchemaIDZero | SchemaMismatch | CountGivenTwice | CountNegative
    | FieldIDZero(i: nat) | DuplicateFieldID(i: nat)
    | SourceOutside(i: nat) | TargetZero(i: nat) | TargetMissing(i: nat) | TargetTwice(i: nat)
    | RequiredUnmapped(i: nat)
  {
    function Code(): Code {
      match this
      case SourceOutside(_) => InvalidSourceIndex
      case TargetZero(_) => UnknownTarget
      case TargetMissing(_) => UnknownTarget
      case TargetTwice(_) => DuplicateTarget
      case RequiredUnmapped(_) => RequiredTargetMissing
      case _ => InvalidMapping
    }

    /** A defect of the schema rather than of the mapping. */
    predicate OfSchema() {
      SchemaIDZero? || FieldIDZero? || DuplicateFieldID?
    }
  }

  predicate HasField(fields: seq<Field>, id: uint64) {
    exists f :: f in fields && f.id == id
  }

  predicate Maps(mappings: seq<FieldMapping>, id: uint64) {
    exists m :: m in mappings && m.target == id
  }

  /** The first n field IDs are non-zero and distinct. */
  ghost predicate SoundIDs(fields: seq<Field>, n: nat)
    requires n <= |fields|
  {
    && (forall k :: 0 <= k < n ==> fields[k].id != 0)
    && (forall j, k :: 0 <= j < k < n ==> fields[j].id != fields[k].id)
  }

  predicate SourceInside(source: int, counts: seq<int>) {
    source >= 0 && (counts != [] ==> source < counts[0])
  }

  /** The first n mappings have sources in range and distinct, known targets. */
  ghost predicate SoundMappings(mappings: seq<FieldMapping>, fields: seq<Field>, counts: seq<int>, n: nat)
    requires n <= |mappings|
  {
    && (forall k :: 0 <= k < n ==> SourceInside(mappings[k].source, counts) && HasField(fields, mappings[k].target))
    && (forall j, k :: 0 <= j < k < n ==> mappings[j].target != mappings[k].target)
  }

  /** The first n fields are mapped if they must be. */
  ghost predicate Covered(mappings: seq<FieldMapping>, fields: seq<Field>, n: nat)
    requires n <= |fields|
  {
    forall k :: 0 <= k < n && fields[k].required ==> Maps(mappings, fields[k].id)
  }

  ghost predicate SoundHeader(spec: MappingSpec, schema: Schema, counts: seq<int>) {
    && schema.id != 0
    && (spec.schemaID != 0 ==> spec.schemaID == schema.id)
    && |counts| <= 1
    && (counts != [] ==> counts[0] >= 0)
  }

  /** The mappings that can be compiled; counts is the optional number of source columns. */
  ghost predicate WellFormed(spec: MappingSpec, schema: Schema, counts: seq<int>) {
    && SoundHeader(spec, schema, counts)
    && SoundIDs(schema.fields, |schema.fields|)
    && SoundMappings(spec.mappings, schema.fields, counts, |spec.mappings|)
    && Covered(spec.mappings, schema.fields, |schema.fields|)
  }

  /** d is there, and nothing that is checked before it is wrong. */
  ghost predicate IsFirstDefect(spec: MappingSpec, schema: Schema, counts: seq<int>, d: Defect) {
    var fields, mappings := schema.fields, spec.mappings;
    match d
    case SchemaIDZero => schema.id == 0
    case SchemaMismatch => schema.id != 0 && spec.schemaID != 0 && spec.schemaID != schema.id
    case CountGivenTwice => schema.id != 0 && (spec.schemaID != 0 ==> spec.schemaID == schema.id) && |counts| > 1
    case CountNegative => schema.id != 0 && (spec.schemaID != 0 ==> spec.schemaID == schema.id) && |counts| == 1
        && counts[0] < 0
    case FieldIDZero(i) => SoundHeader(spec, schema, counts) && i < |fields| && SoundIDs(fields, i) && fields[i].id == 0
    case DuplicateFieldID(i) =>
      && SoundHeader(spec, schema, counts) && i < |fields| && SoundIDs(fields, i)
      && fields[i].id != 0 && HasField(fields[..i], fields[i].id)
    case RequiredUnmapped(i) =>
      && SoundHeader(spec, schema, counts) && SoundIDs(fields, |fields|)
         && SoundMappings(mappings, fields, counts, |mappings|)
      && i < |fields| && Covered(mappings, fields, i) && fields[i].required && !Maps(mappings, fields[i].id)
    case SourceOutside(i) => ReachesMapping(spec, schema, counts, i) && !SourceInside(mappings[i].source, counts)
    case TargetZero(i) =>
      && ReachesMapping(spec, schema, counts, i) && SourceInside(mappings[i].source, counts)
      && mappings[i].target == 0
    case TargetMissing(i) =>
      && ReachesMapping(spec, schema, counts, i) && SourceInside(mappings[i].source, counts)
      && mappings[i].target != 0 && !HasField(fields, mappings[i].target)
    case TargetTwice(i) =>
      && ReachesMapping(spec, schema, counts, i) && SourceInside(mappings[i].source, counts)
      && HasField(fields, mappings[i].target) && Maps(mappings[..i], mappings[i].target)
  }

  /** Everything that is checked before mapping i is in order. */
  ghost predicate ReachesMapping(spec: MappingSpec, schema: Schema, counts: seq<int>, i: nat) {
    && SoundHeader(spec, schema, counts) && SoundIDs(schema.fields, |schema.fields|)
    && i < |spec.mappings| && SoundMappings(spec.mappings, schema.fields, counts, i)
  }

  /** index sends the IDs of the first n fields to their positions. */
  ghost predicate Indexes(index: map<uint64, nat>, fields: seq<Field>, n: nat)
    requires n <= |fields|
  {
    && (forall id :: id in index ==> index[id] < n && fields[index[id]].id == id)
    && (forall k :: 0 <= k < n ==> fields[k].id in index && index[fields[k].id] == k)
  }

  lemma DefectIsFatal(spec: MappingSpec, schema: Schema, counts: seq<int>, d: Defect)
    requires IsFirstDefect(spec, schema, counts, d)
    ensures !WellFormed(spec, schema, counts)
  {
    match d {
      case DuplicateFieldID(i) =>
        var f :| f in schema.fields[..i] && f.id == schema.fields[i].id;
        var j :| 0 <= j < i && schema.fields[j] == f;
      case TargetTwice(i) =>
        var m :| m in spec.mappings[..i] && m.target == spec.mappings[i].target;
        var j :| 0 <= j < i && spec.mappings[j] == m;
      case _ =>
    }
  }

  method ValidateMapping(spec: MappingSpec, schema: Schema, counts: seq<int>) returns (d: Option<Defect>)
    ensures d.None? <==> WellFormed(spec, schema, counts)
    ensures d.Some? ==> IsFirstDefect(spec, schema, counts, d.value)
  {
    d := FirstDefect(spec, schema, counts);
    if d.Some? {
      DefectIsFatal(spec, schema, counts, d.value);
    }
  }

  method FirstDefect(spec: MappingSpec, schema: Schema, counts: seq<int>) returns (d: Option<Defect>)
    ensures if d.None? then WellFormed(spec, schema, counts) else IsFirstDefect(spec, schema, counts, d.value)
  {
    hide SoundIDs, SoundMappings, Covered, Indexes;
    if schema.id == 0 { return Some(SchemaIDZero); }
    if spec.schemaID != 0 && spec.schemaID != schema.id { return Some(SchemaMismatch); }
    if |counts| > 1 { return Some(CountGivenTwice); }
    if |counts| == 1 && counts[0] < 0 { return Some(CountNegative); }
    var index;
    d, index := IndexFields(schema.fields);
    if d.Some? { return; }
    var mapped;
    d, mapped := MarkTargets(spec, schema, counts, index);
    if d.Some? { return; }
    d := CheckRequired(spec.mappings, schema.fields, mapped);
  }

  /** The loop over the schema fields. */
  method IndexFields(fields: seq<Field>) returns (d: Option<Defect>, index: map<uint64, nat>)
    ensures d.None? ==> SoundIDs(fields, |fields|) && Indexes(index, fields, |fields|)
    ensures d.Some? ==> d.value.FieldIDZero? || d.value.DuplicateFieldID?
    ensures d.Some? ==> d.value.i < |fields| && SoundIDs(fields, d.value.i)
    ensures d.Some? ==> (d.value.FieldIDZero? <==> fields[d.value.i].id == 0)
    ensures d.Some? && d.value.DuplicateFieldID? ==> HasField(fields[..d.value.i], fields[d.value.i].id)
  {
    index := map[];
    for k := 0 to |fields|
      invariant SoundIDs(fields, k) && Indexes(index, fields, k)
    {
      var id := fields[k].id;
      if id == 0 { return Some(FieldIDZero(k)), index; }
      if id in index {
        assert fields[index[id]] in fields[..k];
        return Some(DuplicateFieldID(k)), index;
      }
      index := index[id := k];
    }
    d := None;
  }

  /** The loop over the mappings. */
  method MarkTargets(spec: MappingSpec, schema: Schema, counts: seq<int>, index: map<uint64, nat>)
    returns (d: Option<Defect>, mapped: set<nat>)
    requires SoundHeader(spec, schema, counts) && SoundIDs(schema.fields, |schema.fields|)
    requires Indexes(index, schema.fields, |schema.fields|)
    ensures d.None? ==> SoundMappings(spec.mappings, schema.fields, counts, |spec.mappings|)
    ensures d.None? ==> IsMapped(mapped, spec.mappings, schema.fields)
    ensures d.Some? ==> IsFirstDefect(spec, schema, counts, d.value)
  {
    var fields, mappings := schema.fields, spec.mappings;
    mapped := {};
    for k := 0 to |mappings|
      invariant SoundMappings(mappings, fields, counts, k)
      invariant IsMapped(mapped, mappings[..k], fields)
    {
      var source, target := mappings[k].source, mappings[k].target;
      if source < 0 || (counts != [] && source >= counts[0]) { return Some(SourceOutside(k)), mapped; }
      if target == 0 { return Some(TargetZero(k)), mapped; }
      KnownTarget(index, fields, target);
      if target !in index { return Some(TargetMissing(k)), mapped; }
      if index[target] in mapped { return Some(TargetTwice(k)), mapped; }
      MarkOneMore(mapped, mappings, fields, k, index[target]);
      SoundOneMore(mappings, fields, counts, k);
      mapped := mapped + {index[target]};
    }
    assert mappings[..|mappings|] == mappings;
    d := None;
  }

  /** mapped holds the positions of the fields that are targets. */
  ghost predicate IsMapped(mapped: set<nat>, mappings: seq<FieldMapping>, fields: seq<Field>) {
    forall n :: n in mapped <==> 0 <= n < |fields| && Maps(mappings, fields[n].id)
  }

  lemma KnownTarget(index: map<uint64, nat>, fields: seq<Field>, target: uint64)
    requires Indexes(index, fields, |fields|)
    ensures target in index <==> HasField(fields, target)
    ensures target in index ==> index[target] < |fields| && fields[index[target]].id == target
  {
    if target in index {
      assert fields[index[target]] in fields;
    }
  }

  lemma MarkOneMore(mapped: set<nat>, mappings: seq<FieldMapping>, fields: seq<Field>, k: nat, n: nat)
    requires k < |mappings| && IsMapped(mapped, mappings[..k], fields) && SoundIDs(fields, |fields|)
    requires n < |fields| && fields[n].id == mappings[k].target
    ensures IsMapped(mapped + {n}, mappings[..k + 1], fields)
  {
    MapsOneMore(mappings, k);
    forall i ensures i in mapped + {n} <==> 0 <= i < |fields| && Maps(mappings[..k + 1], fields[i].id) {
      assert i in mapped + {n} <==> i in mapped || i == n;
    }
  }

  lemma SoundOneMore(mappings: seq<FieldMapping>, fields: seq<Field>, counts: seq<int>, k: nat)
    requires k < |mappings| && SoundMappings(mappings, fields, counts, k)
    requires SourceInside(mappings[k].source, counts) && HasField(fields, mappings[k].target)
    requires !Maps(mappings[..k], mappings[k].target)
    ensures SoundMappings(mappings, fields, counts, k + 1)
  {
    forall j | 0 <= j < k ensures mappings[j].target != mappings[k].target {
      assert mappings[j] in mappings[..k];
    }
  }

  /** The second loop over the schema fields. */
  method CheckRequired(mappings: seq<FieldMapping>, fields: seq<Field>, mapped: set<nat>) returns (d: Option<Defect>)
    requires IsMapped(mapped, mappings, fields)
    ensures d.None? ==> Covered(mappings, fields, |fields|)
    ensures d.Some? ==> d.value.RequiredUnmapped? && d.value.i < |fields| && Covered(mappings, fields, d.value.i)
    ensures d.Some? ==> fields[d.value.i].required && !Maps(mappings, fields[d.value.i].id)
  {
    for k := 0 to |fields|
      invariant Covered(mappings, fields, k)
    {
      if fields[k].required && k !in mapped { return Some(RequiredUnmapped(k)); }
    }
    d := None;
  }

  lemma MapsOneMore(mappings: seq<FieldMapping>, k: nat)
    requires k < |mappings|
    ensures forall id :: Maps(mappings[..k + 1], id) <==> Maps(mappings[..k], id) || mappings[k].target == id
  {
    assert mappings[..k + 1] == mappings[..k] + [mappings[k]];
  }

  // Order of the mappings ----------------------------------------------------

  /** Distinct targets at distinct positions: what the mapping loop checks, without positions. */
  ghost predicate Injective(mappings: seq<FieldMapping>) {
    && (forall m, n :: m in mappings && n in mappings && m.target == n.target ==> m == n)
    && (forall m :: m in mappings ==> multiset(mappings)[m] == 1)
  }

  lemma {:induction false} OccursTwice<T>(s: seq<T>, x: T)
    ensures multiset(s)[x] >= 2 <==> exists i, j :: 0 <= i < j < |s| && s[i] == x && s[j] == x
  {
    if s != [] {
      var front, last := Front(s), Last(s);
      assert s == front + [last];
      OccursTwice(front, x);
      if last == x && x in front {
        var i :| 0 <= i < |front| && front[i] == x;
        assert s[i] == x && s[|s| - 1] == x;
      }
    }
  }

  lemma InjectiveIsDistinct(mappings: seq<FieldMapping>)
    ensures Injective(mappings) <==> forall j, k :: 0 <= j < k < |mappings| ==> mappings[j].target != mappings[k].target
  {
    forall m | m in mappings ensures multiset(mappings)[m] >= 1 {
    }
    if Injective(mappings) {
      forall j, k | 0 <= j < k < |mappings| ensures mappings[j].target != mappings[k].target {
        OccursTwice(mappings, mappings[j]);
      }
    } else {
      forall m | m in mappings && multiset(mappings)[m] != 1
        ensures exists j, k :: 0 <= j < k < |mappings| && mappings[j].target == mappings[k].target
      {
        OccursTwice(mappings, m);
      }
    }
  }

  /** Acceptance does not depend on the order of the mappings. */
  lemma PermutationKeepsAcceptance(spec: MappingSpec, permuted: seq<FieldMapping>, schema: Schema, counts: seq<int>)
    requires multiset(permuted) == multiset(spec.mappings)
    ensures WellFormed(spec, schema, counts) <==> WellFormed(spec.(mappings := permuted), schema, counts)
  {
    hide SoundIDs;
    SameElements(permuted, spec.mappings);
    assert Injective(permuted) <==> Injective(spec.mappings);
    InjectiveIsDistinct(spec.mappings);
    InjectiveIsDistinct(permuted);
    assert forall k :: 0 <= k < |spec.mappings| ==> spec.mappings[k] in permuted;
    assert forall k :: 0 <= k < |permuted| ==> permuted[k] in spec.mappings;
  }

  lemma SameElements<T>(a: seq<T>, b: seq<T>)
    requires multiset(a) == multiset(b)
    ensures forall x :: x in a <==> x in b
  {
    forall x ensures x in a <==> x in b {
      assert x in multiset(a) <==> x in multiset(b);
    }
  }

  // In the elements themselves ------------------------------------------------------

  /**
   * Acceptance: a schema with an ID that is the mapping's, if that has one; at most one count, not negative; fields
   * with distinct IDs other than zero; mappings from inside the count to fields there are, no two to one; and every
   * required field is mapped.
   */
  lemma {:induction false} AcceptedIs(spec: MappingSpec, schema: Schema, counts: seq<int>)
    ensures WellFormed(spec, schema, counts) <==>
            && schema.id != 0 && (spec.schemaID == 0 || spec.schemaID == schema.id)
            && (counts == [] || (|counts| == 1 && counts[0] >= 0))
            && (forall f :: f in schema.fields ==> f.id != 0)
            && (forall j, k :: 0 <= j < k < |schema.fields| ==> schema.fields[j].id != schema.fields[k].id)
            && (forall m :: m in spec.mappings ==>
                  && m.source >= 0 && (counts != [] ==> m.source < counts[0])
                  && exists f :: f in schema.fields && f.id == m.target)
            && (forall j, k :: 0 <= j < k < |spec.mappings| ==> spec.mappings[j].target != spec.mappings[k].target)
            && (forall f :: f in schema.fields && f.required ==> exists m :: m in spec.mappings && m.target == f.id)
  {
    assert forall k :: 0 <= k < |schema.fields| ==> schema.fields[k] in schema.fields;
    assert forall k :: 0 <= k < |spec.mappings| ==> spec.mappings[k] in spec.mappings;
  }

  /** What the code of a rejection says of the mapping or field at fault. */
  lemma {:induction false} CodeTells(spec: MappingSpec, schema: Schema, counts: seq<int>, d: Defect)
    requires IsFirstDefect(spec, schema, counts, d)
    ensures d.Code() == InvalidSourceIndex <==>
            d.SourceOutside?
            && (spec.mappings[d.i].source < 0 || (counts != [] && spec.mappings[d.i].source >= counts[0]))
    ensures d.Code() == UnknownTarget <==>
            (d.TargetZero? || d.TargetMissing?)
            && (spec.mappings[d.i].target == 0 || forall f :: f in schema.fields ==> f.id != spec.mappings[d.i].target)
    ensures d.Code() == DuplicateTarget <==>
            d.TargetTwice? && exists j :: 0 <= j < d.i && spec.mappings[j].target == spec.mappings[d.i].target
    ensures d.Code() == RequiredTargetMissing <==>
            d.RequiredUnmapped? && schema.fields[d.i].required
            && forall m :: m in spec.mappings ==> m.target != schema.fields[d.i].id
    ensures d.Code() in {InvalidMapping, InvalidSourceIndex, UnknownTarget, DuplicateTarget, RequiredTargetMissing}
  {
    hide SoundIDs, SoundMappings, SoundHeader, Covered;
    if d.TargetTwice? {
      var m :| m in spec.mappings[..d.i] && m.target == spec.mappings[d.i].target;
      var j :| 0 <= j < d.i && spec.mappings[j] == m;
    }
  }
}
