/**
 * What a Jev reply means, spelled out in the keys and texts a reply is made of: the
 * readers of JevReading and JevSuggester agree with it.
 */
module JevMeaning {
  import opened Prelude
  import opened Schemas
  import opened Names
  import opened JevReading
  import opened JevSuggester

  // Fields ------------------------------------------------------------------

  /** The earliest field with a non-zero ID and the normalized name has this ID. */
  ghost predicate IsNamed(u: Unicode, fields: seq<Field>, name: string, id: uint64) {
    exists k :: NamedAt(u, fields, name, id, k)
  }

  ghost predicate NamedAt(u: Unicode, fields: seq<Field>, name: string, id: uint64, k: int) {
    && 0 <= k < |fields| && fields[k].id == id && id != 0 && Normalized(u, fields[k].name) == name
    && forall j :: 0 <= j < k ==> fields[j].id == 0 || Normalized(u, fields[j].name) != name
  }

  ghost predicate IsFieldID(fields: seq<Field>, id: uint64) {
    id != 0 && exists f :: f in fields && f.id == id
  }

  /**
   * The value stands for the field: a number by its ID, a text by the ID it spells or else by a name, an object by
   * the first of its members that stands for any field.
   */
  ghost predicate StandsFor(lib: Library, fields: seq<Field>, value: Any, id: uint64)
    decreases value
  {
    match value
    case Number(text) => lib.parseUint(text) == Some(id) && IsFieldID(fields, id)
    case Text(s) =>
      var spelled := lib.parseUint(Trim(s, lib.unicode.isSpace));
      if spelled.Some? && IsFieldID(fields, spelled.value) then id == spelled.value
      else IsNamed(lib.unicode, fields, Normalized(lib.unicode, s), id)
    case Object(entries) =>
      var keys := ["target", "target_id", "field_id", "id", "choice", "name", "value"];
      exists i ::
        && 0 <= i < |keys| && keys[i] in entries && StandsFor(lib, fields, entries[keys[i]], id)
        && forall j, x: uint64 :: 0 <= j < i && keys[j] in entries ==> !StandsFor(lib, fields, entries[keys[j]], x)
    case _ => false
  }

  lemma {:induction false} NamedIs(lib: Library, fields: seq<Field>, name: string, id: uint64)
    ensures FieldNamed(lib, fields, name) == Some(id) <==> IsNamed(lib.unicode, fields, name, id)
  {
    hide Normalized, IsNamed;
    if fields == [] {
      NobodyIsNamed(lib.unicode, name, id);
    } else {
      NamedIs(lib, fields[1..], name, id);
      NamedFirst(lib.unicode, fields, name, id);
    }
  }

  lemma NobodyIsNamed(u: Unicode, name: string, id: uint64)
    ensures !IsNamed(u, [], name, id)
  {
  }

  /** Either the first field is named so, or it does not matter. */
  lemma NamedFirst(u: Unicode, fields: seq<Field>, name: string, id: uint64)
    requires fields != []
    ensures IsNamed(u, fields, name, id) <==>
            if fields[0].id != 0 && Normalized(u, fields[0].name) == name then id == fields[0].id
            else IsNamed(u, fields[1..], name, id)
  {
    hide Normalized;
    if fields[0].id == 0 || Normalized(u, fields[0].name) != name {
      if IsNamed(u, fields, name, id) {
        var k :| NamedAt(u, fields, name, id, k);
        assert fields[1..][k - 1] == fields[k];
        assert forall j :: 0 <= j < k - 1 ==> fields[1..][j] == fields[j + 1];
        assert NamedAt(u, fields[1..], name, id, k - 1);
      }
      if IsNamed(u, fields[1..], name, id) {
        var k :| NamedAt(u, fields[1..], name, id, k);
        assert fields[k + 1] == fields[1..][k];
        assert forall j :: 0 < j <= k ==> fields[j] == fields[1..][j - 1];
        assert NamedAt(u, fields, name, id, k + 1);
      }
    } else if IsNamed(u, fields, name, id) {
      var k :| NamedAt(u, fields, name, id, k);
    } else {
      assert fields[0].id == id ==> NamedAt(u, fields, name, id, 0);
    }
  }

  /** A number resolves to the non-zero field ID it spells, and to nothing else. */
  lemma {:induction false} NumberTarget(lib: Library, text: string, schema: Schema, id: uint64)
    ensures TargetFromValue(lib, Number(text), schema) == Some(id) <==>
            lib.parseUint(text) == Some(id) && id != 0 && exists f :: f in schema.fields && f.id == id
  {
  }

  /** A text that spells a field ID resolves to it; any other to the earliest field of its name, if there is one. */
  lemma {:induction false} TextTarget(lib: Library, s: string, schema: Schema, id: uint64)
    ensures lib.parseUint(Trim(s, lib.unicode.isSpace)) == Some(id) && id != 0
            && (exists f :: f in schema.fields && f.id == id)
            ==> TargetFromValue(lib, Text(s), schema) == Some(id)
    ensures (forall n :: lib.parseUint(Trim(s, lib.unicode.isSpace)) == Some(n) ==>
               n == 0 || forall f :: f in schema.fields ==> f.id != n) ==>
              (TargetFromValue(lib, Text(s), schema) == Some(id) <==>
               IsNamed(lib.unicode, schema.fields, Normalized(lib.unicode, s), id))
  {
    hide Normalized, Trim;
    NamedIs(lib, schema.fields, Normalized(lib.unicode, s), id);
  }

  /** An object resolves as the first of its seven target members that resolves. */
  lemma {:induction false} ObjectTarget(lib: Library, entries: map<string, Any>, schema: Schema, id: uint64)
    ensures var keys := ["target", "target_id", "field_id", "id", "choice", "name", "value"];
      TargetFromValue(lib, Object(entries), schema) == Some(id) <==>
      exists i ::
        && 0 <= i < |keys| && keys[i] in entries && TargetFromValue(lib, entries[keys[i]], schema) == Some(id)
        && forall j :: 0 <= j < i && keys[j] in entries ==> TargetFromValue(lib, entries[keys[j]], schema) == None
  {
    MapTarget(lib, Object(entries), 0, schema, id);
    assert ["target", "target_id", "field_id", "id", "choice", "name", "value"] == TARGET_KEYS;
  }

  lemma {:induction false} MapTarget(lib: Library, source: Any, k: nat, schema: Schema, id: uint64)
    requires source.Object? && k <= |TARGET_KEYS|
    ensures TargetFromMap(lib, source, k, schema) == Some(id) <==>
      exists i ::
        && k <= i < |TARGET_KEYS| && TARGET_KEYS[i] in source.entries
        && TargetFromValue(lib, source.entries[TARGET_KEYS[i]], schema) == Some(id)
        && forall j :: k <= j < i && TARGET_KEYS[j] in source.entries ==>
             TargetFromValue(lib, source.entries[TARGET_KEYS[j]], schema) == None
    decreases |TARGET_KEYS| - k
  {
    hide TargetFromValue;
    if k < |TARGET_KEYS| {
      MapTarget(lib, source, k + 1, schema, id);
    }
  }

  /** The value resolves to exactly the fields it stands for. */
  ghost predicate Agrees(lib: Library, value: Any, schema: Schema) {
    forall id: uint64 :: TargetFromValue(lib, value, schema) == Some(id) <==> StandsFor(lib, schema.fields, value, id)
  }

  /** Whatever the tree: a value resolves to a field exactly if it stands for it. */
  lemma {:induction false} TargetIs(lib: Library, value: Any, schema: Schema)
    ensures forall id: uint64 ::
              TargetFromValue(lib, value, schema) == Some(id) <==> StandsFor(lib, schema.fields, value, id)
    decreases value
  {
    hide TargetFromValue, StandsFor;
    assert Agrees(lib, value, schema) by {
      if value.Text? {
        TextStandsFor(lib, value.s, schema);
      } else if value.Object? {
        forall key | key in value.entries ensures Agrees(lib, value.entries[key], schema) {
          TargetIs(lib, value.entries[key], schema);
        }
        ObjectStandsFor(lib, value.entries, schema);
      } else {
        LeafStandsFor(lib, value, schema);
      }
    }
  }

  lemma LeafStandsFor(lib: Library, value: Any, schema: Schema)
    requires !value.Text? && !value.Object?
    ensures Agrees(lib, value, schema)
  {
  }

  lemma TextStandsFor(lib: Library, s: string, schema: Schema)
    ensures Agrees(lib, Text(s), schema)
  {
    hide Normalized, Trim, IsNamed;
    forall id: uint64
      ensures TargetFromValue(lib, Text(s), schema) == Some(id) <==> StandsFor(lib, schema.fields, Text(s), id)
    {
      NamedIs(lib, schema.fields, Normalized(lib.unicode, s), id);
    }
  }

  lemma ObjectStandsFor(lib: Library, entries: map<string, Any>, schema: Schema)
    requires forall key :: key in entries ==> Agrees(lib, entries[key], schema)
    ensures Agrees(lib, Object(entries), schema)
  {
    hide TargetFromValue;
    forall id: uint64
      ensures TargetFromValue(lib, Object(entries), schema) == Some(id)
         <==> StandsFor(lib, schema.fields, Object(entries), id)
    {
      ObjectTarget(lib, entries, schema, id);
      forall key | key in entries
        ensures TargetFromValue(lib, entries[key], schema) == None
           <==> forall x: uint64 :: !StandsFor(lib, schema.fields, entries[key], x)
      {
        NoneStandsFor(lib, entries[key], schema);
      }
    }
  }

  lemma NoneStandsFor(lib: Library, value: Any, schema: Schema)
    requires Agrees(lib, value, schema)
    ensures TargetFromValue(lib, value, schema) == None
            <==> forall x: uint64 :: !StandsFor(lib, schema.fields, value, x)
  {
    hide TargetFromValue, StandsFor;
    var target := TargetFromValue(lib, value, schema);
    if target.Some? {
      assert StandsFor(lib, schema.fields, value, target.value);
    }
  }

  // Numbers -----------------------------------------------------------------

  /** The first of the keys that the object has, and its value. */
  lemma {:induction false} FirstValueIs(entries: map<string, Any>, keys: seq<string>, v: Any)
    ensures FirstValue(entries, keys) == Some(v) <==>
            exists i ::
              && 0 <= i < |keys| && keys[i] in entries && entries[keys[i]] == v
              && forall j :: 0 <= j < i ==> keys[j] !in entries
  {
    if keys != [] {
      FirstValueIs(entries, keys[1..], v);
      assert forall j :: 0 <= j < |keys| - 1 ==> keys[1..][j] == keys[j + 1];
      if keys[0] !in entries {
        if FirstValue(entries, keys) == Some(v) {
          var i :| 0 <= i < |keys[1..]| && keys[1..][i] in entries && entries[keys[1..][i]] == v
                && forall j :: 0 <= j < i ==> keys[1..][j] !in entries;
          assert keys[i + 1] in entries && entries[keys[i + 1]] == v;
          assert forall j :: 0 < j <= i ==> keys[j] == keys[1..][j - 1];
        }
        if i :| 0 <= i < |keys| && keys[i] in entries && entries[keys[i]] == v
                && forall j :: 0 <= j < i ==> keys[j] !in entries {
          assert keys[1..][i - 1] in entries && entries[keys[1..][i - 1]] == v;
        }
      }
    }
  }

  predicate Readable(lib: Library, value: Any) {
    value.Number? && lib.parseFloat(value.text).Some?
  }

  /** The value is a number, and c is that number brought into [0, 1]. */
  predicate Reads(lib: Library, value: Any, c: real) {
    Readable(lib, value)
    && var r := lib.parseFloat(value.text).value;
       if r < 0.0 then c == 0.0 else if r > 1.0 then c == 1.0 else c == r
  }

  /** The score of an entry: itself, or the first score member of an object. */
  predicate Scores(lib: Library, value: Any, c: real) {
    if value.Object? then
      var score := FirstValue(value.entries, ["probability", "confidence", "score"]);
      score.Some? && Reads(lib, score.value, c)
    else Reads(lib, value, c)
  }

  lemma EntryIs(lib: Library, value: Any, c: real)
    ensures EntryConfidence(lib, value) == Some(c) <==> Scores(lib, value, c)
  {
    assert SCORE_KEYS == ["probability", "confidence", "score"];
  }

  /** The score an answer object has of its own: its first readable score member, or zero. */
  ghost predicate OwnScore(lib: Library, entries: map<string, Any>, c: real) {
    FirstReadable(lib, entries, ["confidence", "probability", "score"], c)
  }

  ghost predicate FirstReadable(lib: Library, entries: map<string, Any>, keys: seq<string>, c: real) {
    if forall i :: 0 <= i < |keys| && keys[i] in entries ==> !Readable(lib, entries[keys[i]]) then c == 0.0
    else exists i :: ReadsFirst(lib, entries, keys, c, i)
  }

  ghost predicate ReadsFirst(lib: Library, entries: map<string, Any>, keys: seq<string>, c: real, i: int) {
    && 0 <= i < |keys| && keys[i] in entries && Reads(lib, entries[keys[i]], c)
    && forall j :: 0 <= j < i && keys[j] in entries ==> !Readable(lib, entries[keys[j]])
  }

  lemma {:induction false} FirstReadableIs(lib: Library, entries: map<string, Any>, keys: seq<string>, c: real)
    ensures ConfidenceFromMap(lib, entries, keys) == c <==> FirstReadable(lib, entries, keys, c)
  {
    if keys != [] {
      FirstReadableIs(lib, entries, keys[1..], c);
      assert forall i :: 0 <= i < |keys| - 1 ==> keys[1..][i] == keys[i + 1];
      assert forall i :: 0 < i < |keys| ==> keys[i] == keys[1..][i - 1];
      if keys[0] in entries && Readable(lib, entries[keys[0]]) {
        assert ReadsFirst(lib, entries, keys, c, 0) <==> Reads(lib, entries[keys[0]], c);
      } else {
        forall i: int ensures ReadsFirst(lib, entries, keys, c, i + 1) <==> ReadsFirst(lib, entries, keys[1..], c, i) {
        }
        if i :| ReadsFirst(lib, entries, keys, c, i) {
          assert ReadsFirst(lib, entries, keys[1..], c, i - 1);
        }
        if i :| ReadsFirst(lib, entries, keys[1..], c, i) {
          assert ReadsFirst(lib, entries, keys, c, i + 1);
        }
      }
    }
  }

  lemma OwnScoreIs(lib: Library, entries: map<string, Any>, c: real)
    ensures ConfidenceFromMap(lib, entries, OWN_SCORE_KEYS) == c <==> OwnScore(lib, entries, c)
  {
    assert OWN_SCORE_KEYS == ["confidence", "probability", "score"];
    FirstReadableIs(lib, entries, OWN_SCORE_KEYS, c);
  }

  // Offers --------------------------------------------------------------------

  /** Some entry of the object offers the field with this confidence. */
  ghost predicate Offers(lib: Library, fields: seq<Field>, entries: map<string, Any>, id: uint64, c: real) {
    exists key :: key in entries && StandsFor(lib, fields, Text(key), id) && Scores(lib, entries[key], c)
  }

  lemma ProposalIs(lib: Library, key: string, value: Any, schema: Schema, id: uint64, c: real)
    ensures Proposal(lib, key, value, schema) == Some(Answer(id, c)) <==>
            StandsFor(lib, schema.fields, Text(key), id) && Scores(lib, value, c)
  {
    hide StandsFor, TargetFromValue, EntryConfidence, Scores;
    TargetIs(lib, Text(key), schema);
    EntryIs(lib, value, c);
  }

  /** What an object proposes is what its entries offer. */
  lemma ProposesIs(lib: Library, entries: map<string, Any>, schema: Schema, id: uint64, c: real)
    ensures Proposes(lib, entries, schema, Answer(id, c)) <==> Offers(lib, schema.fields, entries, id, c)
  {
    hide StandsFor, Scores, Proposal;
    forall key | key in entries
      ensures Proposal(lib, key, entries[key], schema) == Some(Answer(id, c)) <==>
              StandsFor(lib, schema.fields, Text(key), id) && Scores(lib, entries[key], c)
    {
      ProposalIs(lib, key, entries[key], schema, id, c);
    }
  }

  /** An item of a list offers the field it names. */
  ghost predicate OffersItem(lib: Library, fields: seq<Field>, item: Any, id: uint64, c: real) {
    item.Object?
    && var named := FirstValue(item.entries, ["target", "target_id", "field_id", "id", "choice", "name"]);
       named.Some? && StandsFor(lib, fields, named.value, id) && Scores(lib, item, c)
  }

  lemma ItemIs(lib: Library, schema: Schema, index: nat, item: Any, id: uint64, c: real)
    ensures ItemProposal(lib, schema, index, item) == Some(Answer(id, c))
            <==> OffersItem(lib, schema.fields, item, id, c)
  {
    hide StandsFor, TargetFromValue, EntryConfidence, Scores;
    assert ITEM_KEYS == ["target", "target_id", "field_id", "id", "choice", "name"];
    PositionsNeverResolve(lib, schema, index);
    EntryIs(lib, item, c);
    if item.Object? && FirstValue(item.entries, ITEM_KEYS).Some? {
      TargetIs(lib, FirstValue(item.entries, ITEM_KEYS).value, schema);
    }
  }

  // Answers -------------------------------------------------------------------

  /** A best offer of an object or a list: no other exceeds it, and of those in a list it is the first. */
  ghost predicate IsTop(lib: Library, fields: seq<Field>, value: Option<Any>, best: Option<Answer>) {
    match value
    case Some(Object(entries)) =>
      && (best.Some? ==> Offers(lib, fields, entries, best.value.target, best.value.confidence))
      && (forall id: uint64, c: real ::
            Offers(lib, fields, entries, id, c) ==> best.Some? && c <= best.value.confidence)
    case Some(Slice(items)) =>
      && (best.Some? ==> exists i :: IsFirstTop(lib, fields, items, best.value, i))
      && (best.None? ==>
            forall j, id: uint64, c: real :: 0 <= j < |items| ==> !OffersItem(lib, fields, items[j], id, c))
    case _ => best == None
  }

  ghost predicate IsFirstTop(lib: Library, fields: seq<Field>, items: seq<Any>, best: Answer, i: int) {
    && 0 <= i < |items| && OffersItem(lib, fields, items[i], best.target, best.confidence)
    && forall j, id: uint64, c: real :: 0 <= j < |items| && OffersItem(lib, fields, items[j], id, c) ==>
         c <= best.confidence && (j < i ==> c < best.confidence)
  }

  lemma TopOfObject(lib: Library, entries: map<string, Any>, schema: Schema, best: Option<Answer>)
    ensures IsMaximal(lib, entries, schema, best) <==> IsTop(lib, schema.fields, Some(Object(entries)), best)
  {
    hide Offers, Proposes;
    forall id: uint64, c: real
      ensures Proposes(lib, entries, schema, Answer(id, c)) <==> Offers(lib, schema.fields, entries, id, c)
    {
      ProposesIs(lib, entries, schema, id, c);
    }
    forall a: Answer
      ensures Proposes(lib, entries, schema, a) <==> Offers(lib, schema.fields, entries, a.target, a.confidence)
    {
      assert a == Answer(a.target, a.confidence);
    }
    if IsTop(lib, schema.fields, Some(Object(entries)), best) {
      forall a | Proposes(lib, entries, schema, a) ensures best.Some? && a.confidence <= best.value.confidence {
        assert Offers(lib, schema.fields, entries, a.target, a.confidence);
      }
    }
  }

  lemma ItemsAre(lib: Library, items: seq<Any>, schema: Schema)
    ensures forall j, id: uint64, c: real :: 0 <= j < |items| ==>
              (ItemProposal(lib, schema, j, items[j]) == Some(Answer(id, c))
               <==> OffersItem(lib, schema.fields, items[j], id, c))
  {
    hide ItemProposal, OffersItem;
    forall j, id: uint64, c: real | 0 <= j < |items|
      ensures ItemProposal(lib, schema, j, items[j]) == Some(Answer(id, c))
              <==> OffersItem(lib, schema.fields, items[j], id, c)
    {
      ItemIs(lib, schema, j, items[j], id, c);
    }
  }

  /** There is one first top item. */
  lemma FirstTopIsUnique(lib: Library, fields: seq<Field>, items: seq<Any>, a: Answer, i: int, b: Answer, k: int)
    requires IsFirstTop(lib, fields, items, a, i) && IsFirstTop(lib, fields, items, b, k)
    ensures i == k && a.confidence == b.confidence
  {
    hide OffersItem;
  }

  lemma TopOfSlice(lib: Library, items: seq<Any>, schema: Schema, best: Option<Answer>)
    ensures best == BestOfItems(lib, schema, items) <==> IsTop(lib, schema.fields, Some(Slice(items)), best)
  {
    hide ItemProposal, OffersItem, BestOfItems;
    ItemsAre(lib, items, schema);
    BestOfItemsIsFirstMaximal(lib, schema, items);
    var found := BestOfItems(lib, schema, items);
    forall j, id: uint64, c: real | 0 <= j < |items| && OffersItem(lib, schema.fields, items[j], id, c)
      ensures found.Some? && c <= found.value.confidence
    {
      assert ItemProposal(lib, schema, j, items[j]) == Some(Answer(id, c));
    }
    if found.Some? {
      var i :| 0 <= i < |items| && ItemProposal(lib, schema, i, items[i]) == found
            && forall j :: 0 <= j < i ==>
                  var a := ItemProposal(lib, schema, j, items[j]);
                  a.Some? ==> a.value.confidence < found.value.confidence;
      assert found == Some(Answer(found.value.target, found.value.confidence));
      forall j, id: uint64, c: real | 0 <= j < |items| && OffersItem(lib, schema.fields, items[j], id, c)
        ensures c <= found.value.confidence && (j < i ==> c < found.value.confidence)
      {
        assert ItemProposal(lib, schema, j, items[j]) == Some(Answer(id, c));
      }
      assert IsFirstTop(lib, schema.fields, items, found.value, i);
      if best.Some? {
        if k :| IsFirstTop(lib, schema.fields, items, best.value, k) {
          FirstTopIsUnique(lib, schema.fields, items, found.value, i, best.value, k);
          assert ItemProposal(lib, schema, i, items[i]) == Some(Answer(best.value.target, best.value.confidence));
        }
      }
    }
  }

  lemma TopIs(lib: Library, value: Option<Any>, schema: Schema, best: Option<Answer>)
    ensures MaybeBestOf(lib, value, schema, best) <==> IsTop(lib, schema.fields, value, best)
  {
    hide IsMaximal, BestOfItems, Offers, IsFirstTop, OffersItem;
    if value.Some? {
      if value.value.Object? {
        TopOfObject(lib, value.value.entries, schema, best);
      } else if value.value.Slice? {
        TopOfSlice(lib, value.value.items, schema, best);
      }
    }
  }

  /**
   * What an answer object means. A choice that stands for a field decides it, with a confidence the probabilities
   * offer that field, or else the object's own score; without such a choice the best probability decides.
   */
  ghost predicate Means(lib: Library, fields: seq<Field>, answer: map<string, Any>, a: Option<Answer>) {
    var choice := FirstValue(answer, ["choice", "target", "target_id", "field_id", "id", "name"]);
    var probabilities := FirstValue(answer, ["probabilities", "probs"]);
    if choice.Some? && exists id: uint64 :: StandsFor(lib, fields, choice.value, id) then
      && a.Some? && StandsFor(lib, fields, choice.value, a.value.target)
      && if probabilities.Some? && probabilities.value.Object?
            && exists c: real :: Offers(lib, fields, probabilities.value.entries, a.value.target, c)
         then Offers(lib, fields, probabilities.value.entries, a.value.target, a.value.confidence)
         else OwnScore(lib, answer, a.value.confidence)
    else IsTop(lib, fields, probabilities, a)
  }

  lemma OffersAreProposals(lib: Library, entries: map<string, Any>, schema: Schema, id: uint64)
    ensures forall c: real ::
              Proposes(lib, entries, schema, Answer(id, c)) <==> Offers(lib, schema.fields, entries, id, c)
    ensures IsProposed(lib, entries, schema, id) <==> exists c: real :: Offers(lib, schema.fields, entries, id, c)
  {
    hide Proposes, Offers;
    forall c: real
      ensures Proposes(lib, entries, schema, Answer(id, c)) <==> Offers(lib, schema.fields, entries, id, c)
    {
      ProposesIs(lib, entries, schema, id, c);
    }
    if c: real :| Offers(lib, schema.fields, entries, id, c) {
      assert Proposes(lib, entries, schema, Answer(id, c));
    }
    if c: real :| Proposes(lib, entries, schema, Answer(id, c)) {
      assert Offers(lib, schema.fields, entries, id, c);
    }
  }

  /** Reading an answer object gives what it means, and every meaning it may have. */
  lemma AnswerIs(lib: Library, answer: map<string, Any>, schema: Schema, a: Option<Answer>)
    ensures ReadsAs(lib, answer, schema, a) <==> Means(lib, schema.fields, answer, a)
  {
    hide IsTop, MaybeBestOf, Offers, Proposes, IsProposed, OwnScore, StandsFor, TargetFromValue;
    assert CHOICE_KEYS == ["choice", "target", "target_id", "field_id", "id", "name"];
    assert PROBABILITY_KEYS == ["probabilities", "probs"];
    var choice, probabilities := FirstValue(answer, CHOICE_KEYS), FirstValue(answer, PROBABILITY_KEYS);
    TopIs(lib, probabilities, schema, a);
    if choice.Some? {
      TargetIs(lib, choice.value, schema);
      var target := TargetFromValue(lib, choice.value, schema);
      if target.Some? {
        assert StandsFor(lib, schema.fields, choice.value, target.value);
        if probabilities.Some? && probabilities.value.Object? {
          OffersAreProposals(lib, probabilities.value.entries, schema, target.value);
        }
        if a.Some? && a.value.target == target.value {
          var c := a.value.confidence;
          assert a.value == Answer(target.value, c);
          OwnScoreIs(lib, answer, c);
        }
      }
    }
  }

  // Responses -----------------------------------------------------------------

  /** What a path of members leads to; a null if it leads nowhere. */
  function At(value: Any, path: seq<string>): Any {
    if path == [] then value
    else if value.Object? && path[0] in value.entries then At(value.entries[path[0]], path[1..])
    else Nil
  }

  /** Where a response is searched, in this order; the response itself comes last. */
  lemma PlacesAre(payload: map<string, Any>)
    ensures Places(payload) ==
            [ AnswerObject(At(Object(payload), ["data", "answers", "target"])),
              Ranking(FirstValue(payload, ["probabilities", "probs"])),
              Ranking(FirstValue(payload, ["choices"])),
              AnswerObject(At(Object(payload), ["result"])),
              AnswerObject(At(Object(payload), ["data"])),
              AnswerObject(At(Object(payload), ["choice"])),
              Itself ]
  {
    assert PROBABILITY_KEYS == ["probabilities", "probs"];
    var whole := Object(payload);
    AtMember(whole, "result");
    AtMember(whole, "data");
    AtMember(whole, "choice");
    AtPath(whole, "data", ["answers", "target"]);
    AtPath(At(whole, ["data"]), "answers", ["target"]);
    AtMember(At(whole, ["data"]), "answers");
    AtMember(At(At(whole, ["data"]), ["answers"]), "target");
  }

  lemma AtMember(value: Any, key: string)
    ensures At(value, [key]) == Get(AsObject(value), key)
  {
    assert [key][1..] == [];
  }

  lemma AtPath(value: Any, key: string, rest: seq<string>)
    ensures At(value, [key] + rest) == At(At(value, [key]), rest)
  {
    assert ([key] + rest)[1..] == rest && [key][1..] == [];
    if !(value.Object? && key in value.entries) {
      AtNothing(rest);
    }
  }

  lemma AtNothing(path: seq<string>)
    ensures At(Nil, path) == Nil
  {
  }

  /** A response with a readable code other than zero is refused. */
  lemma RefusedIs(lib: Library, payload: map<string, Any>)
    ensures Refused(lib, payload) <==>
            && "code" in payload && payload["code"].Number?
            && lib.parseFloat(payload["code"].text).Some? && lib.parseFloat(payload["code"].text).value != 0.0
  {
  }

  /** A key is there unless it is blank. */
  lemma {:induction false} KeyIs(lib: Library, apiKey: string)
    ensures HasKey(lib, apiKey) <==> exists c :: c in apiKey && !lib.unicode.isSpace(c)
  {
    hide Trim;
    TrimIs(apiKey, lib.unicode.isSpace);
  }

  /** Without a body that decodes, or with a refusal, there is no answer. */
  lemma {:induction false} UnusableReplies(lib: Library, reply: Reply, schema: Schema, a: Option<Answer>)
    requires Answers(lib, reply, schema, a)
    ensures reply == Failed || reply == Received(None) ==> a == None
    ensures reply.Received? && reply.body.Some? && "code" in reply.body.value ==>
              var code := reply.body.value["code"];
              code.Number? && lib.parseFloat(code.text).Some? && lib.parseFloat(code.text).value != 0.0 ==> a == None
  {
    hide Resolves;
  }

  /**
   * The usual reply: a choice that spells the ID of a field, and a probability under that same ID. Whatever else the
   * reply holds, it is read as that field with that probability.
   */
  lemma UsualReply(lib: Library, payload: map<string, Any>, schema: Schema, answer: map<string, Any>, text: string,
                   id: uint64, entries: map<string, Any>, p: string, c: real, a: Option<Answer>)
    requires At(Object(payload), ["data", "answers", "target"]) == Object(answer)
    requires "choice" in answer && answer["choice"] == Text(text)
    requires lib.parseUint(Trim(text, lib.unicode.isSpace)) == Some(id) && id != 0
    requires exists f :: f in schema.fields && f.id == id
    requires "probabilities" in answer && answer["probabilities"] == Object(entries)
    requires text in entries && entries[text] == Number(p) && lib.parseFloat(p) == Some(c) && 0.0 <= c <= 1.0
    requires forall key :: key in entries && key != text ==> !StandsFor(lib, schema.fields, Text(key), id)
    requires Resolves(lib, payload, schema, a)
    ensures a == Some(Answer(id, c))
  {
    hide StandsFor, Places, IsTop, OwnScore, MaybeBestOf, ReadsAs;
    PlacesAre(payload);
    assert Places(payload)[0] == AnswerObject(Object(answer));
    AnswerIs(lib, answer, schema, None);
    UsualAnswer(lib, schema.fields, answer, text, id, entries, p, c, None);
    if a.Some? {
      AnswerIs(lib, answer, schema, a);
      UsualAnswer(lib, schema.fields, answer, text, id, entries, p, c, a);
    }
  }

  /** The same for an answer object by itself. */
  lemma UsualAnswer(lib: Library, fields: seq<Field>, answer: map<string, Any>, text: string, id: uint64,
                    entries: map<string, Any>, p: string, c: real, a: Option<Answer>)
    requires "choice" in answer && answer["choice"] == Text(text)
    requires lib.parseUint(Trim(text, lib.unicode.isSpace)) == Some(id) && id != 0
    requires exists f :: f in fields && f.id == id
    requires "probabilities" in answer && answer["probabilities"] == Object(entries)
    requires text in entries && entries[text] == Number(p) && lib.parseFloat(p) == Some(c) && 0.0 <= c <= 1.0
    requires forall key :: key in entries && key != text ==> !StandsFor(lib, fields, Text(key), id)
    ensures Means(lib, fields, answer, a) ==> a == Some(Answer(id, c))
  {
    hide IsTop, OwnScore, Trim, Normalized, IsNamed;
    assert FirstValue(answer, ["choice", "target", "target_id", "field_id", "id", "name"]) == Some(Text(text));
    assert FirstValue(answer, ["probabilities", "probs"]) == Some(Object(entries));
    assert StandsFor(lib, fields, Text(text), id);
    assert Offers(lib, fields, entries, id, c);
    if Means(lib, fields, answer, a) {
      assert a.value.target == id;
      var key :| key in entries && StandsFor(lib, fields, Text(key), id)
                 && Scores(lib, entries[key], a.value.confidence);
      assert key == text;
    }
  }
}
