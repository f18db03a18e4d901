/**
 * The schema registry. A schema's fields are a slice, which copies of the
 * schema share; the registry shares no slice with its callers.
 */
module Registry {
  import opened Prelude
  import opened Schemas
  import Validation

  datatype SchemaError = InvalidSchema | SchemaExists | SchemaNotFound

  /** A schema as it is passed around. */
  datatype SchemaRef = SchemaRef(id: uint64, name: string, fields: array<Field>)
  {
    ghost function Value(): Schema
      reads fields
    {
      Schema(id, name, fields[..])
    }
  }

  predicate SupportedFieldType(fieldType: FieldType) {
    !fieldType.Unsupported?
  }

  /** The first n fields are named, of supported types, and their names are distinct. */
  ghost predicate SoundFields(fields: seq<Field>, n: nat)
    requires n <= |fields|
  {
    && (forall k :: 0 <= k < n ==> fields[k].name != "" && SupportedFieldType(fields[k].fieldType))
    && (forall j, k :: 0 <= j < k < n ==> fields[j].name != fields[k].name)
  }

  ghost predicate IsValid(schema: Schema) {
    && schema.id != 0 && schema.name != "" && schema.fields != []
    && Validation.SoundIDs(schema.fields, |schema.fields|)
    && SoundFields(schema.fields, |schema.fields|)
  }

  /** What a valid schema is: IDs and names given and distinct, at least one field, and known types. */
  lemma ValidIs(schema: SchemaRef)
    ensures IsValid(schema.Value()) <==>
            && schema.id != 0 && schema.name != "" && schema.fields.Length > 0
            && (forall k :: 0 <= k < schema.fields.Length ==>
                  var f := schema.fields[k]; f.id != 0 && f.name != "" && !f.fieldType.Unsupported?)
            && (forall j, k :: 0 <= j < k < schema.fields.Length ==>
                  schema.fields[j].id != schema.fields[k].id && schema.fields[j].name != schema.fields[k].name)
  {
    var fields := schema.fields[..];
    assert forall k :: 0 <= k < |fields| ==> fields[k] == schema.fields[k];
  }

  method ValidateSchema(schema: SchemaRef) returns (ok: bool)
    ensures ok <==> IsValid(schema.Value())
    ensures ok <==>
            && schema.id != 0 && schema.name != "" && schema.fields.Length > 0
            && (forall k :: 0 <= k < schema.fields.Length ==>
                  var f := schema.fields[k]; f.id != 0 && f.name != "" && !f.fieldType.Unsupported?)
            && (forall j, k :: 0 <= j < k < schema.fields.Length ==>
                  schema.fields[j].id != schema.fields[k].id && schema.fields[j].name != schema.fields[k].name)
  {
    ValidIs(schema);
    hide Validation.SoundIDs, SoundFields;
    if schema.id == 0 || schema.name == "" || schema.fields.Length == 0 { return false; }
    var fieldIDs: set<uint64>, fieldNames: set<string> := {}, {};
    ghost var fields := schema.fields[..];
    NoFields(fields);
    for index := 0 to schema.fields.Length
      invariant forall id :: id in fieldIDs <==> exists k :: 0 <= k < index && fields[k].id == id
      invariant forall name :: name in fieldNames <==> exists k :: 0 <= k < index && fields[k].name == name
      invariant Validation.SoundIDs(fields, index) && SoundFields(fields, index)
    {
      var field := schema.fields[index];
      OneMoreField(fields, index);
      if field.id == 0 || field.name == "" { return false; }
      if field.id in fieldIDs || field.name in fieldNames { return false; }
      if !SupportedFieldType(field.fieldType) { return false; }
      fieldIDs := fieldIDs + {field.id};
      fieldNames := fieldNames + {field.name};
    }
    ok := true;
  }

  lemma NoFields(fields: seq<Field>)
    ensures Validation.SoundIDs(fields, 0) && SoundFields(fields, 0)
  {
  }

  /** One more field is in order if it is so itself and shares neither ID nor name; otherwise none of this is valid. */
  lemma OneMoreField(fields: seq<Field>, n: nat)
    requires n < |fields| && Validation.SoundIDs(fields, n) && SoundFields(fields, n)
    ensures var f := fields[n];
      var sound := f.id != 0 && f.name != "" && SupportedFieldType(f.fieldType)
                   && forall k :: 0 <= k < n ==> fields[k].id != f.id && fields[k].name != f.name;
      && (sound ==> Validation.SoundIDs(fields, n + 1) && SoundFields(fields, n + 1))
      && (!sound ==> !(Validation.SoundIDs(fields, |fields|) && SoundFields(fields, |fields|)))
  {
  }

  method CloneSchema(schema: SchemaRef) returns (copy: SchemaRef)
    ensures fresh(copy.fields) && copy.Value() == schema.Value()
  {
    var fields := new Field[schema.fields.Length](i requires 0 <= i < schema.fields.Length reads schema.fields =>
                                                  schema.fields[i]);
    copy := schema.(fields := fields);
  }

  /** What the registry holds, by ID: valid schemas with distinct names. */
  ghost predicate Consistent(contents: map<uint64, Schema>) {
    && (forall id :: id in contents ==> contents[id].id == id && IsValid(contents[id]))
    && (forall i, j :: i in contents && j in contents && contents[i].name == contents[j].name ==> i == j)
  }

  ghost predicate NameTaken(contents: map<uint64, Schema>, name: string) {
    exists id :: id in contents && contents[id].name == name
  }

  /** What registering a schema leaves behind. */
  ghost function Registered(contents: map<uint64, Schema>, schema: Schema): map<uint64, Schema> {
    if IsValid(schema) && schema.id !in contents && !NameTaken(contents, schema.name)
    then contents[schema.id := schema]
    else contents
  }

  lemma RegisteredIsConsistent(contents: map<uint64, Schema>, schema: Schema)
    requires Consistent(contents)
    ensures Consistent(Registered(contents, schema))
  {
    hide IsValid;
  }

  /** The schemas of a registry in strictly increasing ID order. */
  ghost predicate Lists(list: seq<Schema>, contents: map<uint64, Schema>) {
    && (forall i, j :: 0 <= i < j < |list| ==> list[i].id < list[j].id)
    && (forall i :: 0 <= i < |list| ==> list[i].id in contents && contents[list[i].id] == list[i])
    && (forall id :: id in contents ==> contents[id] in list)
  }

  /** There is one such list. */
  lemma {:induction false} ListIsUnique(a: seq<Schema>, b: seq<Schema>, contents: map<uint64, Schema>)
    requires Consistent(contents) && Lists(a, contents) && Lists(b, contents)
    ensures a == b
  {
    hide Consistent;
    SameMembers(a, b, contents);
    IncreasingIsUnique(a, b);
  }

  lemma SameMembers(a: seq<Schema>, b: seq<Schema>, contents: map<uint64, Schema>)
    requires Lists(a, contents) && Lists(b, contents)
    ensures forall s :: s in a <==> s in b
  {
  }

  lemma NonEmpty<T>(s: seq<T>)
    ensures s != [] ==> exists x :: x in s
  {
    if s != [] {
      assert s[0] in s;
    }
  }

  lemma {:induction false} IncreasingIsUnique(a: seq<Schema>, b: seq<Schema>)
    requires forall i, j :: 0 <= i < j < |a| ==> a[i].id < a[j].id
    requires forall i, j :: 0 <= i < j < |b| ==> b[i].id < b[j].id
    requires forall s :: s in a <==> s in b
    ensures a == b
  {
    if a == [] {
      NonEmpty(b);
    } else {
      assert a[0] in b && b[0] in a;
      assert a[0] == b[0];
      forall s ensures s in a[1..] <==> s in b[1..] {
        assert s in a[1..] <==> s in a && s != a[0];
        assert s in b[1..] <==> s in b && s != b[0];
      }
      IncreasingIsUnique(a[1..], b[1..]);
      assert a == [a[0]] + a[1..] && b == [b[0]] + b[1..];
    }
  }

  class MemorySchemaRegistry {
    var schemas: map<uint64, SchemaRef>

    /** The slices only the registry may hold. */
    ghost function Owned(): set<object>
      reads this
    {
      set id | id in schemas :: schemas[id].fields
    }

    ghost function Contents(): map<uint64, Schema>
      reads this, Owned()
    {
      map id | id in schemas :: schemas[id].Value()
    }

    ghost predicate Valid()
      reads this, Owned()
    {
      Consistent(Contents())
    }

    constructor ()
      ensures Valid() && Contents() == map[] && Owned() == {}
    {
      schemas := map[];
    }

    method Register(schema: SchemaRef) returns (r: Result<(), SchemaError>)
      requires Valid()
      modifies this
      ensures Valid() && Contents() == Registered(old(Contents()), old(schema.Value()))
      ensures fresh(Owned() - old(Owned()))
      ensures r == if !IsValid(schema.Value()) then Err(InvalidSchema)
                   else if schema.id in old(Contents()) || NameTaken(old(Contents()), schema.name)
                       then Err(SchemaExists)
                   else Ok(())
    {
      hide IsValid, NameTaken, Consistent;
      RegisteredIsConsistent(Contents(), schema.Value());
      var valid := ValidateSchema(schema);
      assert Contents() == old(Contents());
      if !valid { return Err(InvalidSchema); }
      var copy := CloneSchema(schema);
      assert Contents() == old(Contents());
      if schema.id in schemas { return Err(SchemaExists); }
      assert Contents() == old(Contents());
      var taken := HasName(schema.name);
      assert Contents() == old(Contents());
      if taken { return Err(SchemaExists); }
      schemas := schemas[schema.id := copy];
      assert Contents() == old(Contents())[schema.id := copy.Value()];
      r := Ok(());
    }

    /** The loop over the registered schemas. */
    method HasName(name: string) returns (taken: bool)
      ensures taken <==> NameTaken(Contents(), name)
    {
      var keys := schemas.Keys;
      while keys != {}
        invariant keys <= schemas.Keys
        invariant forall id :: id in schemas && id !in keys ==> schemas[id].name != name
      {
        var id :| id in keys;
        if schemas[id].name == name {
          assert id in Contents() && Contents()[id].name == name;
          return true;
        }
        keys := keys - {id};
      }
      taken := false;
    }

    method Get(id: uint64) returns (r: Result<SchemaRef, SchemaError>)
      requires Valid()
      ensures r.Ok? <==> id in Contents()
      ensures r.Ok? ==> fresh(r.value.fields) && r.value.Value() == Contents()[id] && IsValid(r.value.Value())
      ensures r.Err? ==> r.error == SchemaNotFound
    {
      if id == 0 { return Err(SchemaNotFound); }
      if id !in schemas { return Err(SchemaNotFound); }
      assert id in Contents();
      var copy := CloneSchema(schemas[id]);
      r := Ok(copy);
    }

    method List() returns (result: seq<SchemaRef>)
      requires Valid()
      ensures forall s :: s in result ==> fresh(s.fields)
      ensures forall i, j :: 0 <= i < j < |result| ==> result[i].fields != result[j].fields
      ensures Lists(Values(result), Contents())
    {
      hide Consistent;
      var schemas := CloneAll();
      result := SortByID(schemas);
      SortedIsListed(schemas, result, Contents());
      forall i, j | 0 <= i < j < |result| ensures result[i].fields != result[j].fields {
        assert result[i] in schemas && result[j] in schemas;
      }
    }

    /** The loop that clones every schema, in the order of the map. */
    method CloneAll() returns (result: seq<SchemaRef>)
      requires Valid()
      ensures forall s :: s in result ==> fresh(s.fields)
      ensures forall s, t :: s in result && t in result && s.fields == t.fields ==> s == t
      ensures forall s :: s in result ==> s.id in Contents() && s.Value() == Contents()[s.id]
      ensures forall id :: id in Contents() ==> HasID(result, id)
      ensures forall i, j :: 0 <= i < j < |result| ==> result[i].id != result[j].id
    {
      hide IsValid;
      result := [];
      var keys := schemas.Keys;
      while keys != {}
        invariant keys <= schemas.Keys
        invariant forall s :: s in result ==>
                    fresh(s.fields) && s.id in schemas.Keys - keys && s.Value() == Contents()[s.id]
        invariant forall s, t :: s in result && t in result && s.fields == t.fields ==> s == t
        invariant forall id :: id in schemas.Keys - keys ==> HasID(result, id)
        invariant forall i, j :: 0 <= i < j < |result| ==> result[i].id != result[j].id
      {
        var id :| id in keys;
        var copy := CloneSchema(schemas[id]);
        assert id in Contents() && Contents()[id] == copy.Value();
        AppendID(result, copy);
        result := result + [copy];
        keys := keys - {id};
      }
    }
  }

  ghost function Values(refs: seq<SchemaRef>): (values: seq<Schema>)
    reads set s | s in refs :: s.fields
    ensures |values| == |refs|
    ensures forall i :: 0 <= i < |refs| ==> values[i] == refs[i].Value()
  {
    if refs == [] then [] else Values(Front(refs)) + [Last(refs).Value()]
  }

  ghost predicate HasID(refs: seq<SchemaRef>, id: uint64) {
    exists i :: 0 <= i < |refs| && refs[i].id == id
  }

  lemma AppendID(refs: seq<SchemaRef>, ref: SchemaRef)
    ensures forall id :: HasID(refs + [ref], id) <==> HasID(refs, id) || id == ref.id
  {
    forall id ensures HasID(refs + [ref], id) <==> HasID(refs, id) || id == ref.id {
      assert (refs + [ref])[|refs|] == ref;
      if HasID(refs, id) {
        var i :| 0 <= i < |refs| && refs[i].id == id;
        assert (refs + [ref])[i].id == id;
      }
    }
  }

  /** sort.Slice by ID, for distinct IDs. */
  method SortByID(refs: seq<SchemaRef>) returns (sorted: seq<SchemaRef>)
    requires forall i, j :: 0 <= i < j < |refs| ==> refs[i].id != refs[j].id
    ensures forall s :: s in sorted <==> s in refs
    ensures forall i, j :: 0 <= i < j < |sorted| ==> sorted[i].id < sorted[j].id
  {
    sorted := [];
    for k := 0 to |refs|
      invariant forall s :: s in sorted <==> s in refs[..k]
      invariant forall i, j :: 0 <= i < j < |sorted| ==> sorted[i].id < sorted[j].id
    {
      assert forall s :: s in refs[..k] ==> s.id != refs[k].id;
      sorted := InsertByID(sorted, refs[k]);
      assert refs[..k + 1] == refs[..k] + [refs[k]];
    }
    assert refs[..|refs|] == refs;
  }

  method InsertByID(sorted: seq<SchemaRef>, ref: SchemaRef) returns (result: seq<SchemaRef>)
    requires forall i, j :: 0 <= i < j < |sorted| ==> sorted[i].id < sorted[j].id
    requires forall s :: s in sorted ==> s.id != ref.id
    ensures forall s :: s in result <==> s in sorted || s == ref
    ensures forall i, j :: 0 <= i < j < |result| ==> result[i].id < result[j].id
  {
    var p := 0;
    while p < |sorted| && sorted[p].id < ref.id
      invariant p <= |sorted| && forall i :: 0 <= i < p ==> sorted[i].id < ref.id
    {
      p := p + 1;
    }
    assert p < |sorted| ==> sorted[p] in sorted;
    result := sorted[..p] + [ref] + sorted[p..];
    InsertedAt(sorted, p, ref);
  }

  lemma InsertedAt(sorted: seq<SchemaRef>, p: nat, ref: SchemaRef)
    requires p <= |sorted| && forall i, j :: 0 <= i < j < |sorted| ==> sorted[i].id < sorted[j].id
    requires forall i :: 0 <= i < p ==> sorted[i].id < ref.id
    requires p < |sorted| ==> ref.id < sorted[p].id
    ensures var result := sorted[..p] + [ref] + sorted[p..];
      && (forall s :: s in result <==> s in sorted || s == ref)
      && (forall i, j :: 0 <= i < j < |result| ==> result[i].id < result[j].id)
  {
    InsertedMembers(sorted, p, ref);
    var result := sorted[..p] + [ref] + sorted[p..];
    assert forall i :: 0 <= i < |result| ==>
                         result[i] == if i < p then sorted[i] else if i == p then ref else sorted[i - 1];
    assert forall i :: p <= i < |sorted| ==> ref.id < sorted[i].id;
  }

  lemma InsertedMembers(sorted: seq<SchemaRef>, p: nat, ref: SchemaRef)
    requires p <= |sorted|
    ensures forall s :: s in sorted[..p] + [ref] + sorted[p..] <==> s in sorted || s == ref
  {
    assert sorted[..p] + sorted[p..] == sorted;
    assert forall s :: s in sorted <==> s in sorted[..p] + sorted[p..];
  }

  lemma {:induction false} SortedIsListed(refs: seq<SchemaRef>, sorted: seq<SchemaRef>, contents: map<uint64, Schema>)
    requires forall s :: s in refs ==> s.id in contents && s.Value() == contents[s.id]
    requires forall id :: id in contents ==> HasID(refs, id)
    requires forall s :: s in sorted <==> s in refs
    requires forall i, j :: 0 <= i < j < |sorted| ==> sorted[i].id < sorted[j].id
    ensures Lists(Values(sorted), contents)
  {
    hide Values;
    var values := Values(sorted);
    forall i | 0 <= i < |values| ensures values[i].id in contents && contents[values[i].id] == values[i] {
      assert sorted[i] in refs;
    }
    forall id | id in contents ensures contents[id] in values {
      var k :| 0 <= k < |refs| && refs[k].id == id;
      assert refs[k] in sorted;
      var i :| 0 <= i < |sorted| && sorted[i] == refs[k];
      assert values[i] == contents[id];
    }
  }

  /** A schema of the registry never fails the checks a mapping makes of its schema. */
  lemma ValidSchemaHasNoDefect(spec: Validation.MappingSpec, schema: Schema, counts: seq<int>, d: Validation.Defect)
    requires IsValid(schema) && Validation.IsFirstDefect(spec, schema, counts, d)
    ensures !d.OfSchema()
  {
  }
}
