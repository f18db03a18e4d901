/**
 * What the values of an upstream JSON answer say about target fields. Objects are Go
 * maps, so they are visited in any order.
 */
module JevReading {
  import opened Prelude
  import opened Schemas
  import opened Names
  import opened FuzzySuggester

  /** A Go value of type any, as decoding with json.Number produces it, or a field ID put in its place. */
  datatype Any =
    | Nil
    | Boolean(b: bool)
    | Number(text: string)
    | Uint64(id: uint64)
    | Text(s: string)
    | Slice(items: seq<Any>)
    | Object(entries: map<string, Any>)

  /** The library calls: strconv.ParseUint in base 10, json.Number.Float64 and the Unicode tables. */
  datatype Library = Library(parseUint: string -> Option<uint64>, parseFloat: string -> Option<real>, unicode: Unicode)

  datatype Answer = Answer(target: uint64, confidence: real)

  const CHOICE_KEYS := ["choice", "target", "target_id", "field_id", "id", "name"]
  const ITEM_KEYS := ["target", "target_id", "field_id", "id", "choice", "name"]
  const TARGET_KEYS := ["target", "target_id", "field_id", "id", "choice", "name", "value"]
  const SCORE_KEYS := ["probability", "confidence", "score"]
  const OWN_SCORE_KEYS := ["confidence", "probability", "score"]
  const PROBABILITY_KEYS := ["probabilities", "probs"]

  ghost predicate IsTarget(schema: Schema, id: uint64) {
    id != 0 && exists f :: f in schema.fields && f.id == id
  }

  ghost predicate IsAnswer(schema: Schema, a: Answer) {
    IsTarget(schema, a.target) && 0.0 <= a.confidence <= 1.0
  }

  // The pure readers --------------------------------------------------------

  function FirstValue(entries: map<string, Any>, keys: seq<string>): (v: Option<Any>)
    ensures v.Some? ==> exists key :: key in entries && entries[key] == v.value
  {
    if keys == [] then None
    else if keys[0] in entries then Some(entries[keys[0]])
    else FirstValue(entries, keys[1..])
  }

  function NumberValue(lib: Library, value: Any): Option<real> {
    if value.Number? then lib.parseFloat(value.text) else None
  }

  function ClampConfidence(value: real): (c: real)
    ensures 0.0 <= c <= 1.0 && (0.0 <= value <= 1.0 ==> c == value)
  {
    if value < 0.0 then 0.0 else if value > 1.0 then 1.0 else value
  }

  function SchemaTarget(id: Option<uint64>, schema: Schema): (target: Option<uint64>)
    ensures target.Some? <==> id.Some? && IsTarget(schema, id.value)
    ensures target.Some? ==> target == id
  {
    if id.None? || id.value == 0 then None else FieldWithID(schema.fields, id.value)
  }

  function FieldWithID(fields: seq<Field>, id: uint64): (target: Option<uint64>)
    ensures target == if exists f :: f in fields && f.id == id then Some(id) else None
  {
    if fields == [] then None
    else if fields[0].id == id then Some(id)
    else FieldWithID(fields[1..], id)
  }

  /** The first field with a non-zero ID and the given normalized name. */
  function FieldNamed(lib: Library, fields: seq<Field>, normalized: string): (target: Option<uint64>)
    ensures target.Some? ==> target.value != 0 && exists f :: f in fields && f.id == target.value
  {
    if fields == [] then None
    else if Normalized(lib.unicode, fields[0].name) == normalized && fields[0].id != 0 then Some(fields[0].id)
    else FieldNamed(lib, fields[1..], normalized)
  }

  /** The field a value stands for. Objects are searched inside, however deep they nest. */
  function TargetFromValue(lib: Library, value: Any, schema: Schema): (target: Option<uint64>)
    ensures target.Some? ==> IsTarget(schema, target.value)
    decreases value, |TARGET_KEYS| + 1
  {
    match value
    case Number(text) => SchemaTarget(lib.parseUint(text), schema)
    case Text(s) =>
      var byId := SchemaTarget(lib.parseUint(Trim(s, lib.unicode.isSpace)), schema);
      if byId.Some? then byId else FieldNamed(lib, schema.fields, Normalized(lib.unicode, s))
    case Object(_) => TargetFromMap(lib, value, 0, schema)
    case _ => None
  }

  /** The first of the target keys, from position k on, whose value stands for a field. */
  function TargetFromMap(lib: Library, source: Any, k: nat, schema: Schema): (target: Option<uint64>)
    requires source.Object? && k <= |TARGET_KEYS|
    ensures target.Some? ==> IsTarget(schema, target.value)
    decreases source, |TARGET_KEYS| - k
  {
    if k == |TARGET_KEYS| then None
    else
      var key := TARGET_KEYS[k];
      var here := if key in source.entries then TargetFromValue(lib, source.entries[key], schema) else None;
      if here.Some? then here else TargetFromMap(lib, source, k + 1, schema)
  }

  /** The first readable number under the score keys, from position k on; zero without one. */
  function ConfidenceFromMap(lib: Library, entries: map<string, Any>, keys: seq<string>): (c: real)
    ensures 0.0 <= c <= 1.0
  {
    if keys == [] then 0.0
    else
      var number := if keys[0] in entries then NumberValue(lib, entries[keys[0]]) else None;
      if number.Some? then ClampConfidence(number.value) else ConfidenceFromMap(lib, entries, keys[1..])
  }

  // Visiting an object ------------------------------------------------------

  /** The confidence stored for an entry, either directly or inside an object. */
  function EntryConfidence(lib: Library, value: Any): (c: Option<real>)
    ensures c.Some? ==> 0.0 <= c.value <= 1.0
  {
    var stored := if value.Object? then FirstValue(value.entries, SCORE_KEYS) else Some(value);
    var number := if stored.Some? then NumberValue(lib, stored.value) else None;
    if number.Some? then Some(ClampConfidence(number.value)) else None
  }

  /** What an entry proposes: its key resolved to a field, with its confidence. */
  function Proposal(lib: Library, key: string, value: Any, schema: Schema): (a: Option<Answer>)
    ensures a.Some? ==> IsAnswer(schema, a.value)
  {
    var target, confidence := TargetFromValue(lib, Text(key), schema), EntryConfidence(lib, value);
    if target.Some? && confidence.Some? then Some(Answer(target.value, confidence.value)) else None
  }

  function Better(best: Option<Answer>, next: Option<Answer>): Option<Answer> {
    if next.Some? && (best.None? || next.value.confidence > best.value.confidence) then next else best
  }

  /** The running best over an order. */
  function BestInOrder(lib: Library, entries: map<string, Any>, schema: Schema, order: seq<string>): Option<Answer>
    requires forall key :: key in order ==> key in entries
  {
    if order == [] then None
    else Better(BestInOrder(lib, entries, schema, Front(order)),
                Proposal(lib, Last(order), entries[Last(order)], schema))
  }

  /** What an item of a list proposes. A position is no target: only an item that names one counts. */
  function ItemProposal(lib: Library, schema: Schema, index: nat, item: Any): (a: Option<Answer>)
    ensures a.Some? ==> IsAnswer(schema, a.value)
  {
    var position := if index < |schema.fields| then Uint64(schema.fields[index].id) else Nil;
    var named := if item.Object? then FirstValue(item.entries, ITEM_KEYS) else None;
    var target := TargetFromValue(lib, if named.Some? then named.value else position, schema);
    var confidence := EntryConfidence(lib, item);
    if target.Some? && confidence.Some? then Some(Answer(target.value, confidence.value)) else None
  }

  function BestOfItems(lib: Library, schema: Schema, items: seq<Any>): Option<Answer> {
    if items == [] then None
    else Better(BestOfItems(lib, schema, Front(items)), ItemProposal(lib, schema, |items| - 1, Last(items)))
  }

  method BestProbability(lib: Library, value: Any, schema: Schema) returns (best: Option<Answer>)
    ensures value.Object? ==>
              exists order :: Enumerates(order, value.entries.Keys)
                  && best == BestInOrder(lib, value.entries, schema, order)
    ensures value.Slice? ==> best == BestOfItems(lib, schema, value.items)
    ensures !value.Object? && !value.Slice? ==> best == None
  {
    match value {
      case Object(entries) =>
        best := BestOfEntries(lib, entries, schema);
      case Slice(items) =>
        best := BestOfSlice(lib, items, schema);
      case _ =>
        best := None;
    }
  }

  /** The object case: Go picks the order. */
  method BestOfEntries(lib: Library, entries: map<string, Any>, schema: Schema) returns (best: Option<Answer>)
    ensures exists order :: Enumerates(order, entries.Keys) && best == BestInOrder(lib, entries, schema, order)
  {
    hide TargetFromValue, Normalized, Proposal, Consider;
    best := None;
    ghost var order: seq<string> := [];
    var remaining := entries.Keys;
    while remaining != {}
      invariant remaining <= entries.Keys && Enumerates(order, entries.Keys - remaining)
      invariant best == BestInOrder(lib, entries, schema, order)
      invariant best.Some? ==> best.value.confidence >= 0.0
      decreases remaining
    {
      var key :| key in remaining;
      remaining := remaining - {key};
      assert Front(order + [key]) == order;
      order := order + [key];
      var probability := entries[key];
      ConsiderIsBetter(lib, schema, best, key, probability);
      if probability.Object? {
        var nested := FirstValue(probability.entries, SCORE_KEYS);
        if nested.Some? {
          best := Consider(lib, schema, best, Text(key), nested.value);
        }
        continue;
      }
      best := Consider(lib, schema, best, Text(key), probability);
    }
    assert entries.Keys - remaining == entries.Keys;
  }

  /** Considering an entry keeps the better of its proposal and the best so far. */
  lemma ConsiderIsBetter(lib: Library, schema: Schema, best: Option<Answer>, key: string, value: Any)
    requires best.Some? ==> best.value.confidence >= 0.0
    ensures var stored := if value.Object? then FirstValue(value.entries, SCORE_KEYS) else Some(value);
      Better(best, Proposal(lib, key, value, schema))
      == if stored.Some? then Consider(lib, schema, best, Text(key), stored.value) else best
  {
    hide TargetFromValue, Normalized;
  }

  /** The list case. */
  method BestOfSlice(lib: Library, items: seq<Any>, schema: Schema) returns (best: Option<Answer>)
    ensures best == BestOfItems(lib, schema, items)
  {
    hide TargetFromValue, Normalized;
    best := None;
    for index := 0 to |items|
      invariant best == BestOfItems(lib, schema, items[..index])
    {
      assert Front(items[..index + 1]) == items[..index];
      var item := items[index];
      PositionsNeverResolve(lib, schema, index);
      if item.Object? {
        var targetValue, probabilityValue := FirstValue(item.entries, ITEM_KEYS), FirstValue(item.entries, SCORE_KEYS);
        if targetValue.None? && index < |schema.fields| {
          targetValue := Some(Uint64(schema.fields[index].id));
        }
        if probabilityValue.Some? {
          best := Consider(lib, schema, best, if targetValue.Some? then targetValue.value else Nil,
                           probabilityValue.value);
        }
        continue;
      }
      if index < |schema.fields| {
        best := Consider(lib, schema, best, Uint64(schema.fields[index].id), item);
      }
    }
    assert items[..|items|] == items;
  }

  /** The closure of BestProbability: keep the entry if it beats the best so far. */
  function Consider(lib: Library, schema: Schema, best: Option<Answer>, targetValue: Any,
                    probabilityValue: Any): Option<Answer> {
    var target, number := TargetFromValue(lib, targetValue, schema), NumberValue(lib, probabilityValue);
    if target.None? || number.None? then best
    else
      var probability := ClampConfidence(number.value);
      if probability > (if best.Some? then best.value.confidence else -1.0) then Some(Answer(target.value, probability))
      else best
  }

  /** A bare position never stands for a field, so an answer list without names proposes nothing. */
  lemma PositionsNeverResolve(lib: Library, schema: Schema, index: nat)
    ensures index < |schema.fields| ==> TargetFromValue(lib, Uint64(schema.fields[index].id), schema) == None
    ensures TargetFromValue(lib, Nil, schema) == None
    ensures forall item: Any :: (!item.Object? || FirstValue(item.entries, ITEM_KEYS).None?) ==>
              ItemProposal(lib, schema, index, item) == None
  {
  }

  // Order does not matter for the confidence ---------------------------------

  ghost predicate Proposes(lib: Library, entries: map<string, Any>, schema: Schema, a: Answer) {
    exists key :: key in entries && Proposal(lib, key, entries[key], schema) == Some(a)
  }

  ghost predicate IsProposed(lib: Library, entries: map<string, Any>, schema: Schema, target: uint64) {
    exists c: real :: Proposes(lib, entries, schema, Answer(target, c))
  }

  /** best is a proposal of the object that no other proposal exceeds; None if there is no proposal. */
  ghost predicate IsMaximal(lib: Library, entries: map<string, Any>, schema: Schema, best: Option<Answer>) {
    && (best.Some? ==> Proposes(lib, entries, schema, best.value))
    && (forall a :: Proposes(lib, entries, schema, a) ==> best.Some? && a.confidence <= best.value.confidence)
  }

  lemma {:induction false} BestInOrderBounds(lib: Library, entries: map<string, Any>, schema: Schema,
                                             order: seq<string>)
    requires forall key :: key in order ==> key in entries
    ensures var best := BestInOrder(lib, entries, schema, order);
      && (best.Some? ==> exists key :: key in order && Proposal(lib, key, entries[key], schema) == best)
      && (forall key :: key in order ==>
            var a := Proposal(lib, key, entries[key], schema);
            a.Some? ==> best.Some? && a.value.confidence <= best.value.confidence)
  {
    hide Proposal;
    if order != [] {
      var front, last := Front(order), Last(order);
      BestInOrderBounds(lib, entries, schema, front);
      assert order == front + [last];
      assert forall key :: key in order <==> key in front || key == last;
    }
  }

  /** Every order gives a maximal proposal, and every maximal proposal is what some order gives. */
  lemma BestIsMaximal(lib: Library, entries: map<string, Any>, schema: Schema, best: Option<Answer>)
    ensures IsMaximal(lib, entries, schema, best) <==>
            exists order :: Enumerates(order, entries.Keys) && BestInOrder(lib, entries, schema, order) == best
  {
    hide Proposal, BestInOrder;
    if order :| Enumerates(order, entries.Keys) && BestInOrder(lib, entries, schema, order) == best {
      BestInOrderBounds(lib, entries, schema, order);
    }
    if IsMaximal(lib, entries, schema, best) {
      if best.Some? {
        var key :| key in entries && Proposal(lib, key, entries[key], schema) == best;
        var rest := SomeOrder(entries.Keys - {key});
        forall k | k in rest ensures NotBetter(Proposal(lib, k, entries[k], schema), best.value) {
          if Proposal(lib, k, entries[k], schema).Some? {
            assert Proposes(lib, entries, schema, Proposal(lib, k, entries[k], schema).value);
          }
        }
        FirstMaximalWins(lib, entries, schema, best, key, rest);
        assert Enumerates([key] + rest, entries.Keys);
      } else {
        var order := SomeOrder(entries.Keys);
        BestInOrderBounds(lib, entries, schema, order);
      }
    }
  }

  predicate NotBetter(a: Option<Answer>, best: Answer) {
    a.Some? ==> a.value.confidence <= best.confidence
  }

  lemma {:induction false} FirstMaximalWins(lib: Library, entries: map<string, Any>, schema: Schema,
                                            best: Option<Answer>, key: string, rest: seq<string>)
    requires best.Some? && key in entries && Proposal(lib, key, entries[key], schema) == best
    requires forall k :: k in rest ==> k in entries && NotBetter(Proposal(lib, k, entries[k], schema), best.value)
    ensures BestInOrder(lib, entries, schema, [key] + rest) == best
  {
    hide Proposal;
    if rest == [] {
      assert Front([key] + rest) == [] && BestInOrder(lib, entries, schema, []) == None;
    } else {
      assert Front([key] + rest) == [key] + Front(rest);
      FirstMaximalWins(lib, entries, schema, best, key, Front(rest));
    }
  }

  ghost predicate SameTarget(lib: Library, entries: map<string, Any>, schema: Schema) {
    forall a, b :: IsMaximal(lib, entries, schema, Some(a)) && IsMaximal(lib, entries, schema, Some(b))
        ==> a.target == b.target
  }

  /** The confidence is the same in every order; the target is exactly when the top proposals agree on one. */
  lemma {:induction false} OrderIndependence(lib: Library, entries: map<string, Any>, schema: Schema)
    ensures forall o, p :: Enumerates(o, entries.Keys) && Enumerates(p, entries.Keys) ==>
              var best, other := BestInOrder(lib, entries, schema, o), BestInOrder(lib, entries, schema, p);
              (best.Some? <==> other.Some?) && (best.Some? ==> best.value.confidence == other.value.confidence)
    ensures SameTarget(lib, entries, schema) <==>
            forall o, p :: Enumerates(o, entries.Keys) && Enumerates(p, entries.Keys) ==>
              BestInOrder(lib, entries, schema, o) == BestInOrder(lib, entries, schema, p)
  {
    hide Proposal, BestInOrder;
    forall o | Enumerates(o, entries.Keys)
      ensures IsMaximal(lib, entries, schema, BestInOrder(lib, entries, schema, o))
    {
      BestIsMaximal(lib, entries, schema, BestInOrder(lib, entries, schema, o));
    }
    forall a | IsMaximal(lib, entries, schema, Some(a))
      ensures exists o :: Enumerates(o, entries.Keys) && BestInOrder(lib, entries, schema, o) == Some(a)
    {
      BestIsMaximal(lib, entries, schema, Some(a));
    }
  }

  // The confidence of one target ------------------------------------------------

  /** What an entry says of one target: its confidence, if its key resolves to that target. */
  function Match(lib: Library, key: string, value: Any, schema: Schema, target: uint64): Option<real> {
    var a := Proposal(lib, key, value, schema);
    if a.Some? && a.value.target == target then Some(a.value.confidence) else None
  }

  /** The first match over an order. */
  function FirstMatch(lib: Library, entries: map<string, Any>, schema: Schema, target: uint64,
                      order: seq<string>): Option<real>
    requires forall key :: key in order ==> key in entries
  {
    if order == [] then None
    else
      var before := FirstMatch(lib, entries, schema, target, Front(order));
      if before.Some? then before else Match(lib, Last(order), entries[Last(order)], schema, target)
  }

  method ProbabilityForTarget(lib: Library, value: Any, target: uint64, schema: Schema) returns (c: Option<real>)
    ensures value.Object? ==>
              exists order :: Enumerates(order, value.entries.Keys)
                  && c == FirstMatch(lib, value.entries, schema, target, order)
    ensures !value.Object? ==> c == None
    ensures c.Some? ==> value.Object? && Proposes(lib, value.entries, schema, Answer(target, c.value))
    ensures c.None? && value.Object? ==> forall a :: Proposes(lib, value.entries, schema, a) ==> a.target != target
  {
    hide Proposes, Match;
    if !value.Object? { return None; }
    c := MatchInSomeOrder(lib, value.entries, target, schema);
    MatchIsProposed(lib, value.entries, schema, target, c);
  }

  /** The loop over the object: Go picks the order. */
  method MatchInSomeOrder(lib: Library, entries: map<string, Any>, target: uint64, schema: Schema)
    returns (c: Option<real>)
    ensures exists order :: Enumerates(order, entries.Keys) && c == FirstMatch(lib, entries, schema, target, order)
  {
    hide TargetFromValue, Normalized, Match, Proposal, EntryConfidence;
    ghost var order: seq<string> := [];
    var remaining := entries.Keys;
    while remaining != {}
      invariant remaining <= entries.Keys && Enumerates(order, entries.Keys - remaining)
      invariant FirstMatch(lib, entries, schema, target, order) == None
      decreases remaining
    {
      var choice :| choice in remaining;
      remaining := remaining - {choice};
      assert Front(order + [choice]) == order;
      order := order + [choice];
      MatchIs(lib, choice, entries[choice], schema, target);
      var resolved := TargetFromValue(lib, Text(choice), schema);
      if resolved != Some(target) { continue; }
      var probability := Some(entries[choice]);
      if entries[choice].Object? {
        probability := FirstValue(entries[choice].entries, SCORE_KEYS);
      }
      if probability.Some? {
        var number := NumberValue(lib, probability.value);
        if number.Some? {
          c := Some(ClampConfidence(number.value));
          ghost var rest := SomeOrder(remaining);
          FirstMatchStays(lib, entries, schema, target, order, rest);
          EnumerationsJoin(order, rest, entries.Keys, remaining);
          return;
        }
      }
    }
    assert entries.Keys - remaining == entries.Keys;
    c := None;
  }

  /** A match is the number stored for a key that resolves to the target. */
  lemma MatchIs(lib: Library, key: string, value: Any, schema: Schema, target: uint64)
    ensures var stored := if value.Object? then FirstValue(value.entries, SCORE_KEYS) else Some(value);
      var number := if stored.Some? then NumberValue(lib, stored.value) else None;
      var resolves := TargetFromValue(lib, Text(key), schema) == Some(target);
      Match(lib, key, value, schema, target)
      == if resolves && number.Some? then Some(ClampConfidence(number.value)) else None
  {
    hide TargetFromValue;
  }

  lemma {:induction false} FirstMatchStays(lib: Library, entries: map<string, Any>, schema: Schema, target: uint64,
                                           order: seq<string>, rest: seq<string>)
    requires forall key :: key in order || key in rest ==> key in entries
    requires FirstMatch(lib, entries, schema, target, order).Some?
    ensures FirstMatch(lib, entries, schema, target, order + rest) == FirstMatch(lib, entries, schema, target, order)
  {
    hide Match;
    if rest == [] {
      assert order + rest == order;
    } else {
      assert Front(order + rest) == order + Front(rest);
      FirstMatchStays(lib, entries, schema, target, order, Front(rest));
    }
  }

  lemma {:induction false} FirstMatchIsMatch(lib: Library, entries: map<string, Any>, schema: Schema, target: uint64,
                                             order: seq<string>)
    requires forall key :: key in order ==> key in entries
    ensures var c := FirstMatch(lib, entries, schema, target, order);
      && (c.Some? ==> exists key :: key in order && Match(lib, key, entries[key], schema, target) == c)
      && (c.None? ==> forall key :: key in order ==> Match(lib, key, entries[key], schema, target) == None)
  {
    hide Match;
    if order != [] {
      FirstMatchIsMatch(lib, entries, schema, target, Front(order));
      assert order == Front(order) + [Last(order)];
    }
  }

  lemma MatchProposes(lib: Library, entries: map<string, Any>, schema: Schema, target: uint64)
    ensures forall key :: key in entries && Match(lib, key, entries[key], schema, target).Some? ==>
              Proposes(lib, entries, schema, Answer(target, Match(lib, key, entries[key], schema, target).value))
    ensures forall a :: Proposes(lib, entries, schema, a) && a.target == target ==>
              exists key :: key in entries && Match(lib, key, entries[key], schema, target) == Some(a.confidence)
  {
    forall a | Proposes(lib, entries, schema, a) && a.target == target
      ensures exists key :: key in entries && Match(lib, key, entries[key], schema, target) == Some(a.confidence)
    {
      var key :| key in entries && Proposal(lib, key, entries[key], schema) == Some(a);
      assert Match(lib, key, entries[key], schema, target) == Some(a.confidence);
    }
  }

  /** The outcomes over all orders are exactly the confidences proposed for the target; none only if there is none. */
  lemma MatchIsProposed(lib: Library, entries: map<string, Any>, schema: Schema, target: uint64, c: Option<real>)
    ensures (exists order :: Enumerates(order, entries.Keys) && FirstMatch(lib, entries, schema, target, order) == c)
       <==> if c.Some? then Proposes(lib, entries, schema, Answer(target, c.value))
            else forall a :: Proposes(lib, entries, schema, a) ==> a.target != target
  {
    hide Proposes, Match, FirstMatch;
    MatchProposes(lib, entries, schema, target);
    if order :| Enumerates(order, entries.Keys) && FirstMatch(lib, entries, schema, target, order) == c {
      FirstMatchIsMatch(lib, entries, schema, target, order);
    }
    if c.Some? && Proposes(lib, entries, schema, Answer(target, c.value)) {
      var key :| key in entries && Match(lib, key, entries[key], schema, target) == c;
      var rest := SomeOrder(entries.Keys - {key});
      MatchedFirst(lib, entries, schema, target, key, rest);
      assert Enumerates([key] + rest, entries.Keys);
    } else if c.None? && forall a :: Proposes(lib, entries, schema, a) ==> a.target != target {
      var order := SomeOrder(entries.Keys);
      FirstMatchIsMatch(lib, entries, schema, target, order);
    }
  }

  lemma MatchedFirst(lib: Library, entries: map<string, Any>, schema: Schema, target: uint64, key: string,
                     rest: seq<string>)
    requires key in entries && (forall k :: k in rest ==> k in entries)
            && Match(lib, key, entries[key], schema, target).Some?
    ensures FirstMatch(lib, entries, schema, target, [key] + rest) == Match(lib, key, entries[key], schema, target)
  {
    hide Match;
    assert Front([key]) == [];
    FirstMatchStays(lib, entries, schema, target, [key], rest);
  }

  /** All entries that resolve to the target give it the same confidence. */
  ghost predicate SameConfidence(lib: Library, entries: map<string, Any>, schema: Schema, target: uint64) {
    forall a: Answer, b: Answer ::
      && a.target == b.target == target
      && Proposes(lib, entries, schema, a) && Proposes(lib, entries, schema, b)
      ==> a == b
  }

  /** The confidence of a resolved choice depends on the order exactly if two entries for it disagree. */
  lemma {:induction false} MatchOrderIndependence(lib: Library, entries: map<string, Any>, schema: Schema,
                                                  target: uint64)
    ensures SameConfidence(lib, entries, schema, target) <==>
            forall o, p :: Enumerates(o, entries.Keys) && Enumerates(p, entries.Keys) ==>
              FirstMatch(lib, entries, schema, target, o) == FirstMatch(lib, entries, schema, target, p)
  {
    hide Proposes, FirstMatch;
    if SameConfidence(lib, entries, schema, target) {
      forall o, p | Enumerates(o, entries.Keys) && Enumerates(p, entries.Keys)
        ensures FirstMatch(lib, entries, schema, target, o) == FirstMatch(lib, entries, schema, target, p)
      {
        MatchIsProposed(lib, entries, schema, target, FirstMatch(lib, entries, schema, target, o));
        MatchIsProposed(lib, entries, schema, target, FirstMatch(lib, entries, schema, target, p));
      }
    } else {
      var a, b :| Proposes(lib, entries, schema, a) && Proposes(lib, entries, schema, b)
          && a.target == b.target == target && a != b;
      MatchIsProposed(lib, entries, schema, target, Some(a.confidence));
      MatchIsProposed(lib, entries, schema, target, Some(b.confidence));
    }
  }
}
