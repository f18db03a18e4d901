/** CompilePlan and the plan it produces: field IDs resolved to slots, then run row by row. */
module Plan {
  import opened Prelude
  import opened Schemas
  import opened Validation

  /** A converted value; an unmapped or empty field is None. */
  datatype Value =
    | StringValue(s: string) | IntegerValue(i: int) | DecimalValue(bits: bv64) | BooleanValue(b: bool)
    | TimeValue(instant: int)

  type Record = seq<Option<Value>>

  /** strconv.ParseInt, ParseFloat and ParseBool, and time.Parse for RFC 3339. */
  datatype Parsers = Parsers(
    parseInt: string -> Option<int>,
    parseFloat: string -> Option<bv64>,
    parseBool: string -> Option<bool>,
    parseTime: string -> Option<int>)

  datatype RowError = RowError(row: int, sourceIndex: Option<int>, targetID: Option<uint64>, code: Code)

  datatype MapOp = MapOp(sourceIndex: int, targetIndex: nat, targetID: uint64, targetType: FieldType, required: bool)

  datatype ExecutionPlan = ExecutionPlan(ops: seq<MapOp>, targetFields: seq<Field>) {
    /** Slots are in range; otherwise writing the record would panic. */
    ghost predicate Valid() {
      forall op :: op in ops ==> op.targetIndex < |targetFields|
    }
  }

  function Convert(p: Parsers, raw: string, fieldType: FieldType): Result<Value, Code> {
    match fieldType
    case TypeString => Ok(StringValue(raw))
    case TypeInteger => (match p.parseInt(raw) case Some(i) => Ok(IntegerValue(i)) case None => Err(InvalidInteger))
    case TypeDecimal => (match p.parseFloat(raw) case Some(f) => Ok(DecimalValue(f)) case None => Err(InvalidDecimal))
    case TypeBoolean => (match p.parseBool(raw) case Some(b) => Ok(BooleanValue(b)) case None => Err(InvalidBoolean))
    case TypeDateTime => (match p.parseTime(raw) case Some(t) => Ok(TimeValue(t)) case None => Err(InvalidDateTime))
    case Unsupported(_) => Err(InvalidMapping)
  }

  // Compilation ---------------------------------------------------------------

  /** op carries out the mapping: its slot is the one of the target field. */
  predicate Compiles(op: MapOp, m: FieldMapping, fields: seq<Field>) {
    && op.sourceIndex == m.source
    && op.targetIndex < |fields|
    && var f := fields[op.targetIndex];
       f.id == m.target == op.targetID && f.fieldType == op.targetType && f.required == op.required
  }

  ghost predicate IsCompiled(plan: ExecutionPlan, spec: MappingSpec, schema: Schema) {
    && plan.targetFields == schema.fields
    && |plan.ops| == |spec.mappings|
    && forall i :: 0 <= i < |plan.ops| ==> Compiles(plan.ops[i], spec.mappings[i], schema.fields)
  }

  method CompilePlan(spec: MappingSpec, schema: Schema, counts: seq<int>) returns (r: Result<ExecutionPlan, Defect>)
    ensures r.Ok? <==> WellFormed(spec, schema, counts)
    ensures r.Ok? ==> IsCompiled(r.value, spec, schema) && r.value.Valid()
    ensures r.Err? ==> IsFirstDefect(spec, schema, counts, r.error)
  {
    var d := ValidateMapping(spec, schema, counts);
    if d.Some? { return Err(d.value); }
    var fields := schema.fields;
    var byID: map<uint64, nat> := map[];
    for k := 0 to |fields|
      invariant forall id :: id in byID <==> HasField(fields[..k], id)
      invariant forall id :: id in byID ==> byID[id] < |fields| && fields[byID[id]].id == id
    {
      assert fields[..k + 1] == fields[..k] + [fields[k]];
      byID := byID[fields[k].id := k];
    }
    assert fields[..|fields|] == fields;
    var ops: seq<MapOp> := [];
    for k := 0 to |spec.mappings|
      invariant |ops| == k && forall i :: 0 <= i < k ==> Compiles(ops[i], spec.mappings[i], fields)
    {
      var m := spec.mappings[k];
      var targetIndex := byID[m.target];
      var target := fields[targetIndex];
      ops := ops + [MapOp(m.source, targetIndex, target.id, target.fieldType, target.required)];
    }
    r := Ok(ExecutionPlan(ops, fields));
  }

  // Execution -----------------------------------------------------------------

  /** What one operation makes of a row: an error, or the new value of its slot. */
  function RunOp(p: Parsers, op: MapOp, source: seq<string>): Result<Option<Value>, RowError> {
    if op.sourceIndex < 0 || op.sourceIndex >= |source| then
      Err(RowError(0, Some(op.sourceIndex), Some(op.targetID), InvalidSourceIndex))
    else
      var raw := source[op.sourceIndex];
      if raw == "" then
        if op.required then Err(RowError(0, Some(op.sourceIndex), Some(op.targetID), RequiredValueMissing))
        else Ok(None)
      else
        match Convert(p, raw, op.targetType)
        case Ok(value) => Ok(Some(value))
        case Err(code) => Err(RowError(0, Some(op.sourceIndex), Some(op.targetID), code))
  }

  datatype Executed = Executed(record: Record, error: Option<RowError>)

  /** The operations one after the other, up to the first error. */
  function RunOps(p: Parsers, ops: seq<MapOp>, width: nat, source: seq<string>): (r: Executed)
    requires forall op :: op in ops ==> op.targetIndex < width
    ensures |r.record| == width
  {
    if ops == [] then Executed(seq(width, _ => None), None)
    else
      var before := RunOps(p, Front(ops), width, source);
      if before.error.Some? then before
      else
        match RunOp(p, Last(ops), source)
        case Err(e) => before.(error := Some(e))
        case Ok(None) => before
        case Ok(Some(value)) => before.(record := before.record[Last(ops).targetIndex := Some(value)])
  }

  method Execute(p: Parsers, plan: ExecutionPlan, source: seq<string>) returns (r: Executed)
    requires plan.Valid()
    ensures r == RunOps(p, plan.ops, |plan.targetFields|, source)
  {
    var values := new Option<Value>[|plan.targetFields|](_ => None);
    for k := 0 to |plan.ops|
      invariant fresh(values)
      invariant RunOps(p, plan.ops[..k], |plan.targetFields|, source) == Executed(values[..], None)
    {
      var op := plan.ops[k];
      assert Front(plan.ops[..k + 1]) == plan.ops[..k];
      RunOpsStops(p, plan, k + 1, source);
      if op.sourceIndex < 0 || op.sourceIndex >= |source| {
        return Executed(values[..], Some(RowError(0, Some(op.sourceIndex), Some(op.targetID), InvalidSourceIndex)));
      }
      var raw := source[op.sourceIndex];
      if raw == "" {
        if op.required {
          return Executed(values[..], Some(RowError(0, Some(op.sourceIndex), Some(op.targetID), RequiredValueMissing)));
        }
        continue;
      }
      match Convert(p, raw, op.targetType) {
        case Err(code) =>
          return Executed(values[..], Some(RowError(0, Some(op.sourceIndex), Some(op.targetID), code)));
        case Ok(value) =>
          values[op.targetIndex] := Some(value);
      }
    }
    assert plan.ops[..|plan.ops|] == plan.ops;
    r := Executed(values[..], None);
  }

  /** Once an operation fails, the later ones make no difference. */
  lemma {:induction false} RunOpsStops(p: Parsers, plan: ExecutionPlan, k: nat, source: seq<string>)
    requires plan.Valid() && k <= |plan.ops|
    ensures var before := RunOps(p, plan.ops[..k], |plan.targetFields|, source);
      before.error.Some? ==> RunOps(p, plan.ops, |plan.targetFields|, source) == before
    decreases |plan.ops| - k
  {
    if k == |plan.ops| {
      assert plan.ops[..k] == plan.ops;
    } else {
      assert Front(plan.ops[..k + 1]) == plan.ops[..k];
      RunOpsStops(p, plan, k + 1, source);
    }
  }

  // What a plan means ------------------------------------------------------------

  /** The row can serve the field from the mapped source: in range, and convertible unless empty and optional. */
  predicate Serves(p: Parsers, source: seq<string>, index: int, f: Field) {
    && 0 <= index < |source|
    && if source[index] == "" then !f.required else Convert(p, source[index], f.fieldType).Ok?
  }

  /** Every mapped field can be served. */
  ghost predicate RowFits(p: Parsers, mappings: seq<FieldMapping>, fields: seq<Field>, source: seq<string>) {
    forall m, f :: m in mappings && f in fields && f.id == m.target ==> Serves(p, source, m.source, f)
  }

  /** The field by itself: the converted value of its mapped source, None if unmapped or empty. */
  ghost predicate IsFieldValue(p: Parsers, mappings: seq<FieldMapping>, f: Field, source: seq<string>,
                               value: Option<Value>) {
    && (!Maps(mappings, f.id) ==> value == None)
    && (forall m :: m in mappings && m.target == f.id && 0 <= m.source < |source| ==>
          if source[m.source] == "" then value == None
          else
            var r := Convert(p, source[m.source], f.fieldType);
            r.Ok? && value == Some(r.value))
  }

  ghost predicate IsNaiveRecord(p: Parsers, mappings: seq<FieldMapping>, fields: seq<Field>, source: seq<string>,
                                record: Record) {
    && |record| == |fields|
    && forall k :: 0 <= k < |fields| ==> IsFieldValue(p, mappings, fields[k], source, record[k])
  }

  /** The first i mappings, run as compiled: either all of them are served, or the error tells the first that is not. */
  lemma {:induction false} CompiledPrefix(p: Parsers, plan: ExecutionPlan, spec: MappingSpec, schema: Schema,
                                          source: seq<string>, i: nat)
    requires IsCompiled(plan, spec, schema) && plan.Valid() && i <= |plan.ops|
    requires SoundIDs(schema.fields, |schema.fields|)
            && SoundMappings(spec.mappings, schema.fields, [], |spec.mappings|)
    ensures var r := RunOps(p, plan.ops[..i], |schema.fields|, source);
      && (r.error.None? <==> forall j :: 0 <= j < i ==> RunOp(p, plan.ops[j], source).Ok?)
      && (r.error.None? ==> IsNaiveRecord(p, spec.mappings[..i], schema.fields, source, r.record))
      && (r.error.Some? ==> exists j ::
            0 <= j < i && RunOp(p, plan.ops[j], source) == Err(r.error.value)
            && (forall l :: 0 <= l < j ==> RunOp(p, plan.ops[l], source).Ok?)
            && IsNaiveRecord(p, spec.mappings[..j], schema.fields, source, r.record))
  {
    hide RunOp, IsNaiveRecord, SoundIDs, SoundMappings;
    if i == 0 {
      EmptyRecord(p, schema.fields, source);
    } else {
      CompiledPrefix(p, plan, spec, schema, source, i - 1);
      assert Front(plan.ops[..i]) == plan.ops[..i - 1];
      var before := RunOps(p, plan.ops[..i - 1], |schema.fields|, source);
      if before.error.None? && RunOp(p, plan.ops[i - 1], source).Ok? {
        OneMoreValue(p, plan, spec, schema, source, i - 1, before.record);
      }
    }
  }

  lemma EmptyRecord(p: Parsers, fields: seq<Field>, source: seq<string>)
    ensures IsNaiveRecord(p, [], fields, source, seq(|fields|, _ => None))
  {
  }

  /** Serving mapping i fills its own slot, and no mapping before it used that slot. */
  lemma OneMoreValue(p: Parsers, plan: ExecutionPlan, spec: MappingSpec, schema: Schema, source: seq<string>, i: nat,
                     record: Record)
    requires IsCompiled(plan, spec, schema) && i < |plan.ops|
    requires SoundIDs(schema.fields, |schema.fields|)
            && SoundMappings(spec.mappings, schema.fields, [], |spec.mappings|)
    requires IsNaiveRecord(p, spec.mappings[..i], schema.fields, source, record)
    requires RunOp(p, plan.ops[i], source).Ok?
    ensures var value, slot := RunOp(p, plan.ops[i], source).value, plan.ops[i].targetIndex;
      IsNaiveRecord(p, spec.mappings[..i + 1], schema.fields, source,
                    if value.Some? then record[slot := value] else record)
  {
    var value, slot, fields := RunOp(p, plan.ops[i], source).value, plan.ops[i].targetIndex, schema.fields;
    var after := if value.Some? then record[slot := value] else record;
    assert spec.mappings[..i + 1] == spec.mappings[..i] + [spec.mappings[i]];
    assert Compiles(plan.ops[i], spec.mappings[i], fields);
    forall m | m in spec.mappings[..i] ensures m.target != spec.mappings[i].target {
      var j :| 0 <= j < i && spec.mappings[j] == m;
    }
    forall k | 0 <= k < |fields| ensures IsFieldValue(p, spec.mappings[..i + 1], fields[k], source, after[k]) {
      assert IsFieldValue(p, spec.mappings[..i], fields[k], source, record[k]);
      assert spec.mappings[i] in spec.mappings[..i + 1];
      if k != slot {
        assert fields[k].id != fields[slot].id;
        assert Maps(spec.mappings[..i], fields[k].id) ==> Maps(spec.mappings[..i + 1], fields[k].id);
      }
    }
  }

  lemma OpServes(p: Parsers, op: MapOp, m: FieldMapping, fields: seq<Field>, source: seq<string>)
    requires Compiles(op, m, fields)
    ensures RunOp(p, op, source).Ok? <==> Serves(p, source, m.source, fields[op.targetIndex])
    ensures RunOp(p, op, source).Err? ==>
              (RunOp(p, op, source).error.code == InvalidSourceIndex <==> !(0 <= m.source < |source|))
    ensures RunOp(p, op, source).Err? ==>
              RunOp(p, op, source).error.sourceIndex == Some(m.source)
                  && RunOp(p, op, source).error.targetID == Some(m.target)
    ensures RunOp(p, op, source).Err? ==>
              IsCodeFor(source, m.source, fields[op.targetIndex], RunOp(p, op, source).error.code)
  {
  }

  /** Some operation fails exactly when some mapped field cannot be served. */
  lemma OpsServe(p: Parsers, plan: ExecutionPlan, spec: MappingSpec, schema: Schema, source: seq<string>)
    requires IsCompiled(plan, spec, schema) && SoundIDs(schema.fields, |schema.fields|)
    ensures RowFits(p, spec.mappings, schema.fields, source) <==>
            forall j :: 0 <= j < |plan.ops| ==> RunOp(p, plan.ops[j], source).Ok?
  {
    hide RunOp, Serves;
    var fields := schema.fields;
    forall j | 0 <= j < |plan.ops|
      ensures RunOp(p, plan.ops[j], source).Ok?
              <==> Serves(p, source, spec.mappings[j].source, fields[plan.ops[j].targetIndex])
      ensures fields[plan.ops[j].targetIndex] in fields && spec.mappings[j] in spec.mappings
    {
      OpServes(p, plan.ops[j], spec.mappings[j], fields, source);
    }
    if forall j :: 0 <= j < |plan.ops| ==> RunOp(p, plan.ops[j], source).Ok? {
      forall m, f | m in spec.mappings && f in fields && f.id == m.target ensures Serves(p, source, m.source, f) {
        var j :| 0 <= j < |spec.mappings| && spec.mappings[j] == m;
        var k :| 0 <= k < |fields| && fields[k] == f;
        assert Compiles(plan.ops[j], m, fields);
        assert k == plan.ops[j].targetIndex;
      }
    }
  }

  lemma AnyCount(mappings: seq<FieldMapping>, fields: seq<Field>, counts: seq<int>, n: nat)
    requires n <= |mappings| && SoundMappings(mappings, fields, counts, n)
    ensures SoundMappings(mappings, fields, [], n)
  {
  }

  /**
   * Compilation preserves meaning: the plan accepts exactly the rows in which every mapped field can be
   * served, and then produces the record that serves each field by itself.
   */
  lemma CompilationPreservesMeaning(p: Parsers, plan: ExecutionPlan, spec: MappingSpec, schema: Schema,
                                    counts: seq<int>, source: seq<string>)
    requires WellFormed(spec, schema, counts) && IsCompiled(plan, spec, schema) && plan.Valid()
    ensures var r := RunOps(p, plan.ops, |plan.targetFields|, source);
      && (r.error.None? <==> RowFits(p, spec.mappings, schema.fields, source))
      && (r.error.None? ==> IsNaiveRecord(p, spec.mappings, schema.fields, source, r.record))
  {
    hide RunOps, RunOp, IsNaiveRecord, RowFits, SoundIDs, SoundMappings;
    AnyCount(spec.mappings, schema.fields, counts, |spec.mappings|);
    CompiledPrefix(p, plan, spec, schema, source, |plan.ops|);
    assert plan.ops[..|plan.ops|] == plan.ops && spec.mappings[..|plan.ops|] == spec.mappings;
    OpsServe(p, plan, spec, schema, source);
  }

  /** Why the row cannot serve the field: no such cell, an empty one, or one that is not of the field's type. */
  ghost predicate IsCodeFor(source: seq<string>, index: int, f: Field, code: Code) {
    if !(0 <= index < |source|) then code == InvalidSourceIndex
    else if source[index] == "" then code == RequiredValueMissing
    else
      match f.fieldType
      case TypeString => false
      case TypeInteger => code == InvalidInteger
      case TypeDecimal => code == InvalidDecimal
      case TypeBoolean => code == InvalidBoolean
      case TypeDateTime => code == InvalidDateTime
      case Unsupported(_) => code == InvalidMapping
  }

  /** The cells a field can be served from, type by type. */
  lemma ServesIs(p: Parsers, source: seq<string>, index: int, f: Field)
    ensures Serves(p, source, index, f) <==>
            && 0 <= index < |source|
            && var cell := source[index];
               if cell == "" then !f.required
               else
                 match f.fieldType
                 case TypeString => true
                 case TypeInteger => p.parseInt(cell).Some?
                 case TypeDecimal => p.parseFloat(cell).Some?
                 case TypeBoolean => p.parseBool(cell).Some?
                 case TypeDateTime => p.parseTime(cell).Some?
                 case Unsupported(_) => false
  {
  }

  /** The value of a cell is what the parser of its type makes of it; a string is taken as it is. */
  lemma ConvertIs(p: Parsers, cell: string, t: FieldType, v: Value)
    ensures Convert(p, cell, t) == Ok(v) <==>
            match t
            case TypeString => v == StringValue(cell)
            case TypeInteger => v.IntegerValue? && p.parseInt(cell) == Some(v.i)
            case TypeDecimal => v.DecimalValue? && p.parseFloat(cell) == Some(v.bits)
            case TypeBoolean => v.BooleanValue? && p.parseBool(cell) == Some(v.b)
            case TypeDateTime => v.TimeValue? && p.parseTime(cell) == Some(v.instant)
            case Unsupported(_) => false
  {
  }

  /** The row is rejected for mapping j, which goes to field k; every mapping before it can be served. */
  ghost predicate RejectedAt(p: Parsers, mappings: seq<FieldMapping>, fields: seq<Field>, source: seq<string>,
                             e: RowError, j: int, k: int) {
    && 0 <= j < |mappings| && 0 <= k < |fields| && fields[k].id == mappings[j].target
    && !Serves(p, source, mappings[j].source, fields[k])
    && e.sourceIndex == Some(mappings[j].source) && e.targetID == Some(mappings[j].target)
    && IsCodeFor(source, mappings[j].source, fields[k], e.code)
    && forall l, f ::
         0 <= l < j && f in fields && f.id == mappings[l].target ==> Serves(p, source, mappings[l].source, f)
  }

  /** The error names the first mapping that cannot be served, and tells by its code why. */
  lemma {:induction false} RejectionTellsWhy(p: Parsers, plan: ExecutionPlan, spec: MappingSpec, schema: Schema,
                                             counts: seq<int>, source: seq<string>)
    requires WellFormed(spec, schema, counts) && IsCompiled(plan, spec, schema) && plan.Valid()
    requires RunOps(p, plan.ops, |plan.targetFields|, source).error.Some?
    ensures var e := RunOps(p, plan.ops, |plan.targetFields|, source).error.value;
      exists j, k :: RejectedAt(p, spec.mappings, schema.fields, source, e, j, k)
  {
    hide RunOps, RunOp, IsNaiveRecord, SoundMappings, Serves, IsCodeFor;
    AnyCount(spec.mappings, schema.fields, counts, |spec.mappings|);
    CompiledPrefix(p, plan, spec, schema, source, |plan.ops|);
    assert plan.ops[..|plan.ops|] == plan.ops;
    var e := RunOps(p, plan.ops, |plan.targetFields|, source).error.value;
    var j :| 0 <= j < |plan.ops| && RunOp(p, plan.ops[j], source) == Err(e)
          && forall l :: 0 <= l < j ==> RunOp(p, plan.ops[l], source).Ok?;
    OpServes(p, plan.ops[j], spec.mappings[j], schema.fields, source);
    forall l, f | 0 <= l < j && f in schema.fields && f.id == spec.mappings[l].target
      ensures Serves(p, source, spec.mappings[l].source, f)
    {
      OpServes(p, plan.ops[l], spec.mappings[l], schema.fields, source);
      var i :| 0 <= i < |schema.fields| && schema.fields[i] == f;
      assert Compiles(plan.ops[l], spec.mappings[l], schema.fields);
      assert i == plan.ops[l].targetIndex;
    }
    assert RejectedAt(p, spec.mappings, schema.fields, source, e, j, plan.ops[j].targetIndex);
  }

  /** A row that is rejected is rejected for its first unserved mapping, which the error names. */
  lemma RejectionNamesFirstFailure(p: Parsers, plan: ExecutionPlan, spec: MappingSpec, schema: Schema,
                                   counts: seq<int>, source: seq<string>)
    requires WellFormed(spec, schema, counts) && IsCompiled(plan, spec, schema) && plan.Valid()
    requires RunOps(p, plan.ops, |plan.targetFields|, source).error.Some?
    ensures var e := RunOps(p, plan.ops, |plan.targetFields|, source).error.value;
      exists j :: 0 <= j < |spec.mappings| &&
        var m, f := spec.mappings[j], schema.fields[plan.ops[j].targetIndex];
        && f.id == m.target && !Serves(p, source, m.source, f)
        && e.sourceIndex == Some(m.source) && e.targetID == Some(m.target)
        && (e.code == InvalidSourceIndex <==> !(0 <= m.source < |source|))
        && forall l :: 0 <= l < j ==> Serves(p, source, spec.mappings[l].source, schema.fields[plan.ops[l].targetIndex])
  {
    hide RunOps, RunOp, IsNaiveRecord, SoundIDs, SoundMappings, Serves;
    AnyCount(spec.mappings, schema.fields, counts, |spec.mappings|);
    CompiledPrefix(p, plan, spec, schema, source, |plan.ops|);
    assert plan.ops[..|plan.ops|] == plan.ops;
    var e := RunOps(p, plan.ops, |plan.targetFields|, source).error.value;
    var j :| 0 <= j < |plan.ops| && RunOp(p, plan.ops[j], source) == Err(e)
          && forall l :: 0 <= l < j ==> RunOp(p, plan.ops[l], source).Ok?;
    forall l | 0 <= l < j
      ensures Serves(p, source, spec.mappings[l].source, schema.fields[plan.ops[l].targetIndex])
    {
      OpServes(p, plan.ops[l], spec.mappings[l], schema.fields, source);
    }
    OpServes(p, plan.ops[j], spec.mappings[j], schema.fields, source);
  }

  /** A row as wide as the count the mapping was validated with never lacks a source. */
  lemma ValidatedSourcesArePresent(p: Parsers, plan: ExecutionPlan, spec: MappingSpec, schema: Schema,
                                   source: seq<string>)
    requires WellFormed(spec, schema, [|source|]) && IsCompiled(plan, spec, schema) && plan.Valid()
    ensures var r := RunOps(p, plan.ops, |plan.targetFields|, source);
      r.error.Some? ==> r.error.value.code != InvalidSourceIndex
  {
    hide RunOps, Serves;
    if RunOps(p, plan.ops, |plan.targetFields|, source).error.Some? {
      RejectionNamesFirstFailure(p, plan, spec, schema, [|source|], source);
    }
  }

  /** Only one record serves every field by itself. */
  lemma NaiveRecordIsUnique(p: Parsers, mappings: seq<FieldMapping>, fields: seq<Field>, source: seq<string>,
                            a: Record, b: Record)
    requires RowFits(p, mappings, fields, source)
    requires IsNaiveRecord(p, mappings, fields, source, a) && IsNaiveRecord(p, mappings, fields, source, b)
    ensures a == b
  {
    forall k | 0 <= k < |fields| ensures a[k] == b[k] {
      assert IsFieldValue(p, mappings, fields[k], source, a[k]) && IsFieldValue(p, mappings, fields[k], source, b[k]);
      if m :| m in mappings && m.target == fields[k].id {
        assert fields[k] in fields && Serves(p, source, m.source, fields[k]);
      }
    }
  }

  /** The order of the mappings decides neither which rows succeed nor any record. */
  lemma PermutationKeepsRecords(p: Parsers, plan: ExecutionPlan, permutedPlan: ExecutionPlan, spec: MappingSpec,
                                permuted: seq<FieldMapping>,
                                schema: Schema, counts: seq<int>, source: seq<string>)
    requires multiset(permuted) == multiset(spec.mappings) && WellFormed(spec, schema, counts)
    requires IsCompiled(plan, spec, schema) && plan.Valid()
    requires IsCompiled(permutedPlan, spec.(mappings := permuted), schema) && permutedPlan.Valid()
    ensures var r, s := RunOps(p, plan.ops, |plan.targetFields|, source),
            RunOps(p, permutedPlan.ops, |permutedPlan.targetFields|, source);
      (r.error.None? <==> s.error.None?) && (r.error.None? ==> r.record == s.record)
  {
    hide RunOps, Serves, WellFormed, IsCompiled, IsFieldValue;
    SameElements(permuted, spec.mappings);
    PermutationKeepsAcceptance(spec, permuted, schema, counts);
    CompilationPreservesMeaning(p, plan, spec, schema, counts, source);
    CompilationPreservesMeaning(p, permutedPlan, spec.(mappings := permuted), schema, counts, source);
    var r, s := RunOps(p, plan.ops, |plan.targetFields|, source),
        RunOps(p, permutedPlan.ops, |permutedPlan.targetFields|, source);
    if r.error.None? && s.error.None? {
      forall f, value | IsFieldValue(p, permuted, f, source, value)
        ensures IsFieldValue(p, spec.mappings, f, source, value)
      {
        SameFieldValue(p, permuted, spec.mappings, f, source, value);
      }
      NaiveRecordIsUnique(p, spec.mappings, schema.fields, source, r.record, s.record);
    }
  }

  lemma SameFieldValue(p: Parsers, a: seq<FieldMapping>, b: seq<FieldMapping>, f: Field, source: seq<string>,
                       value: Option<Value>)
    requires IsFieldValue(p, a, f, source, value)
    requires forall m :: m in a <==> m in b
    ensures IsFieldValue(p, b, f, source, value)
  {
  }
}
