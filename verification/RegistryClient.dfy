/** Clients of the schema registry, which keep every slice they ever passed to it or got from it. */
module RegistryClient {
  import opened Prelude
  import opened Schemas
  import opened Registry
  import Validation

  datatype Step =
    | Allocate(fields: seq<Field>)
    | Overwrite(slice: nat, index: nat, field: Field)
    | Register(id: uint64, name: string, slice: nat)
    | Get(id: uint64)
    | List

  /** The slices as if nobody shared them, and the schemas as if they were values. */
  datatype Model = Model(held: seq<seq<Field>>, contents: map<uint64, Schema>)

  function FieldsOf(list: seq<Schema>): (held: seq<seq<Field>>)
    ensures |held| == |list|
  {
    seq(|list|, i requires 0 <= i < |list| => list[i].fields)
  }

  /** Only registering changes what the registry holds; only overwriting changes a slice. */
  ghost predicate StepTo(before: Model, step: Step, after: Model) {
    match step
    case Allocate(fields) => after == before.(held := before.held + [fields])
    case Overwrite(n, i, field) =>
      after == if n < |before.held| && i < |before.held[n]|
               then before.(held := before.held[n := before.held[n][i := field]])
               else before
    case Register(id, name, n) =>
      after == if n < |before.held|
               then before.(contents := Registered(before.contents, Schema(id, name, before.held[n])))
               else before
    case Get(id) =>
      after == if id in before.contents then before.(held := before.held + [before.contents[id].fields]) else before
    case List => exists list :: Lists(list, before.contents) && after == before.(held := before.held + FieldsOf(list))
  }

  lemma Listed(before: Model, list: seq<Schema>, after: Model)
    requires Lists(list, before.contents) && after == before.(held := before.held + FieldsOf(list))
    ensures StepTo(before, Step.List, after)
  {
  }

  lemma AllocateStep(before: Model, fields: seq<Field>)
    ensures StepTo(before, Step.Allocate(fields), before.(held := before.held + [fields]))
  {
  }

  lemma GetStep(before: Model, id: uint64)
    ensures StepTo(before, Step.Get(id),
                   if id in before.contents then before.(held := before.held + [before.contents[id].fields])
                   else before)
  {
  }

  /** The model may be where a client is after the steps. */
  ghost predicate Reaches(steps: seq<Step>, model: Model) {
    if steps == [] then model == Model([], map[])
    else exists before :: Reaches(Front(steps), before) && StepTo(before, Last(steps), model)
  }

  /** In every reachable state the schemas are valid, under their own IDs, with distinct names. */
  lemma {:induction false} ReachableIsConsistent(steps: seq<Step>, model: Model)
    requires Reaches(steps, model)
    ensures Consistent(model.contents)
  {
    hide Consistent, Registered, Lists;
    if steps == [] {
      EmptyIsConsistent();
    } else {
      var before :| Reaches(Front(steps), before) && StepTo(before, Last(steps), model);
      ReachableIsConsistent(Front(steps), before);
      if Last(steps).Register? && Last(steps).slice < |before.held| {
        RegisteredIsConsistent(before.contents, Schema(Last(steps).id, Last(steps).name,
                                                       before.held[Last(steps).slice]));
      }
    }
  }

  lemma EmptyIsConsistent()
    ensures Consistent(map[])
  {
  }

  /** Once registered, a schema stays as it was: whatever was held after n steps is held at the end. */
  lemma {:induction false} RegisteredStays(steps: seq<Step>, n: nat, model: Model) returns (before: Model)
    requires n <= |steps| && Reaches(steps, model)
    ensures Reaches(steps[..n], before)
    ensures forall id :: id in before.contents ==> id in model.contents && model.contents[id] == before.contents[id]
    decreases |steps|
  {
    hide IsValid, NameTaken, Lists;
    if n == |steps| {
      assert steps[..n] == steps;
      before := model;
    } else {
      var last :| Reaches(Front(steps), last) && StepTo(last, Last(steps), model);
      assert Front(steps)[..n] == steps[..n];
      before := RegisteredStays(Front(steps), n, last);
    }
  }

  /** No schema a client can get fails the checks a mapping makes of its schema. */
  lemma GottenSchemaHasNoDefect(steps: seq<Step>, model: Model, id: uint64, spec: Validation.MappingSpec,
                                counts: seq<int>, d: Validation.Defect)
    requires Reaches(steps, model) && id in model.contents
    requires Validation.IsFirstDefect(spec, model.contents[id], counts, d)
    ensures !d.OfSchema()
  {
    ReachableIsConsistent(steps, model);
    ValidSchemaHasNoDefect(spec, model.contents[id], counts, d);
  }

  class Client {
    const registry: MemorySchemaRegistry
    var held: seq<array<Field>>

    /** The client's slices are apart from each other and from the registry's. */
    ghost predicate Valid()
      reads this, registry, registry.Owned()
    {
      && registry.Valid()
      && (forall n :: 0 <= n < |held| ==> held[n] !in registry.Owned())
      && (forall m, n :: 0 <= m < n < |held| ==> held[m] != held[n])
    }

    ghost function Held(): (values: seq<seq<Field>>)
      reads this, set n | 0 <= n < |held| :: held[n]
      ensures |values| == |held|
      ensures forall n :: 0 <= n < |held| ==> values[n] == held[n][..]
    {
      Slices(held)
    }

    ghost function Value(): Model
      reads this, registry, registry.Owned(), set n | 0 <= n < |held| :: held[n]
    {
      Model(Held(), registry.Contents())
    }

    constructor ()
      ensures fresh(registry) && held == []
      ensures Valid() && Value() == Model([], map[])
    {
      registry := new MemorySchemaRegistry();
      held := [];
    }

    /** More slices, which nobody else holds. */
    method Keep(slices: seq<array<Field>>)
      requires Valid()
      requires forall i :: 0 <= i < |slices| ==> slices[i] !in registry.Owned() && slices[i] !in held
      requires forall i, j :: 0 <= i < j < |slices| ==> slices[i] != slices[j]
      modifies this
      ensures Valid() && held == old(held) + slices
      ensures Value() == old(Value()).(held := old(Value().held) + Slices(slices))
    {
      hide IsValid, Consistent, Slices;
      held := held + slices;
      assert registry.Contents() == old(registry.Contents());
      Append(old(held), slices);
    }

    method Allocate(fields: seq<Field>)
      requires Valid()
      modifies this
      ensures Valid() && StepTo(old(Value()), Step.Allocate(fields), Value())
      ensures forall n :: 0 <= n < |held| ==> held[n] in old(held) || fresh(held[n])
    {
      hide IsValid, Consistent, StepTo, Slices;
      AllocateStep(Value(), fields);
      var slice := new Field[|fields|](i requires 0 <= i < |fields| => fields[i]);
      assert slice[..] == fields;
      assert Value() == old(Value());
      OneSlice(slice);
      Keep([slice]);
    }

    method Overwrite(n: nat, i: nat, field: Field)
      requires Valid()
      modifies set n | 0 <= n < |held| :: held[n]
      ensures Valid() && StepTo(old(Value()), Step.Overwrite(n, i, field), Value())
    {
      if n < |held| && i < held[n].Length {
        held[n][i] := field;
        assert Held() == old(Held())[n := old(Held())[n][i := field]];
      }
    }

    method Register(id: uint64, name: string, n: nat)
      requires Valid()
      modifies registry
      ensures Valid() && StepTo(old(Value()), Step.Register(id, name, n), Value())
    {
      hide IsValid, Consistent;
      if n < |held| {
        var _ := registry.Register(SchemaRef(id, name, held[n]));
        assert Held() == old(Held());
      }
    }

    method Get(id: uint64)
      requires Valid()
      modifies this
      ensures Valid() && StepTo(old(Value()), Step.Get(id), Value())
      ensures forall n :: 0 <= n < |held| ==> held[n] in old(held) || fresh(held[n])
    {
      hide IsValid, Consistent, StepTo, Slices;
      var r := registry.Get(id);
      assert Value() == old(Value());
      GetStep(Value(), id);
      if r.Ok? {
        OneSlice(r.value.fields);
        Keep([r.value.fields]);
      }
    }

    method List()
      requires Valid()
      modifies this
      ensures Valid() && StepTo(old(Value()), Step.List, Value())
      ensures forall n :: 0 <= n < |held| ==> held[n] in old(held) || fresh(held[n])
    {
      hide IsValid, Consistent, Lists, StepTo, Slices;
      var slices, list := Fetch();
      assert Value() == old(Value());
      Keep(slices);
      Listed(old(Value()), list, Value());
    }

    method Fetch() returns (slices: seq<array<Field>>, ghost list: seq<Schema>)
      requires Valid()
      ensures Lists(list, registry.Contents()) && Slices(slices) == FieldsOf(list)
      ensures forall i :: 0 <= i < |slices| ==> fresh(slices[i])
      ensures forall i, j :: 0 <= i < j < |slices| ==> slices[i] != slices[j]
    {
      hide IsValid, Consistent, Lists;
      var refs := registry.List();
      list := Values(refs);
      slices := seq(|refs|, i requires 0 <= i < |refs| => refs[i].fields);
      forall i | 0 <= i < |slices| ensures fresh(slices[i]) {
        assert refs[i] in refs;
      }
      assert registry.Contents() == old(registry.Contents());
    }

    method Do(step: Step)
      requires Valid()
      modifies this, registry, held
      ensures Valid() && StepTo(old(Value()), step, Value())
      ensures forall n :: 0 <= n < |held| ==> held[n] in old(held) || fresh(held[n])
    {
      match step {
        case Allocate(fields) => Allocate(fields);
        case Overwrite(n, i, field) => Overwrite(n, i, field);
        case Register(id, name, n) => Register(id, name, n);
        case Get(id) => Get(id);
        case List => List();
      }
    }
  }

  /**
   * Whatever a client does, the slices it holds and the registry behave as if
   * they were values that share nothing.
   */
  method Serve(steps: seq<Step>) returns (client: Client)
    ensures fresh(client) && client.Valid() && Reaches(steps, client.Value())
  {
    hide StepTo;
    client := new Client();
    for k := 0 to |steps|
      invariant fresh(client) && fresh(client.registry)
                && (forall n :: 0 <= n < |client.held| ==> fresh(client.held[n]))
      invariant client.Valid() && Reaches(steps[..k], client.Value())
    {
      ghost var before := client.Value();
      client.Do(steps[k]);
      assert Front(steps[..k + 1]) == steps[..k];
    }
    assert steps[..|steps|] == steps;
  }

  ghost function Slices(held: seq<array<Field>>): (values: seq<seq<Field>>)
    reads held
    ensures |values| == |held|
    ensures forall n :: 0 <= n < |held| ==> values[n] == held[n][..]
  {
    if held == [] then [] else Slices(Front(held)) + [Last(held)[..]]
  }

  lemma OneSlice(slice: array<Field>)
    ensures Slices([slice]) == [slice[..]]
  {
    assert Front([slice]) == [];
  }

  lemma Append(held: seq<array<Field>>, slices: seq<array<Field>>)
    ensures Slices(held + slices) == Slices(held) + Slices(slices)
  {
  }
}
