/** JevSuggester: the choice read out of an upstream JSON answer, and the fallback to fuzzy matching. */
module JevSuggester {
  import opened Prelude
  import opened Schemas
  import opened Names
  import opened FuzzySuggester
  import opened JevReading

  // Reading an answer --------------------------------------------------------

  /** The outcomes best may have for a list or an object of probabilities. */
  ghost predicate IsBestOf(lib: Library, value: Any, schema: Schema, best: Option<Answer>) {
    match value
    case Object(entries) => IsMaximal(lib, entries, schema, best)
    case Slice(items) => best == BestOfItems(lib, schema, items)
    case _ => best == None
  }

  ghost predicate MaybeBestOf(lib: Library, value: Option<Any>, schema: Schema, best: Option<Answer>) {
    if value.Some? then IsBestOf(lib, value.value, schema, best) else best == None
  }

  /**
   * What an answer object may be read as. A resolvable choice decides the target: its confidence is
   * one the probabilities give that target, or else the object's own. Otherwise the best probability decides.
   */
  ghost predicate ReadsAs(lib: Library, answer: map<string, Any>, schema: Schema, a: Option<Answer>) {
    var choice, probabilities := FirstValue(answer, CHOICE_KEYS), FirstValue(answer, PROBABILITY_KEYS);
    var target := if choice.Some? then TargetFromValue(lib, choice.value, schema) else None;
    if target.None? then MaybeBestOf(lib, probabilities, schema, a)
    else
      && a.Some? && a.value.target == target.value
      && if probabilities.Some? && probabilities.value.Object?
            && IsProposed(lib, probabilities.value.entries, schema, target.value)
         then Proposes(lib, probabilities.value.entries, schema, a.value)
         else a.value.confidence == ConfidenceFromMap(lib, answer, OWN_SCORE_KEYS)
  }

  method FindBest(lib: Library, value: Option<Any>, schema: Schema) returns (best: Option<Answer>)
    ensures MaybeBestOf(lib, value, schema, best)
  {
    hide BestInOrder, BestOfItems, Proposal;
    if value.None? { return None; }
    best := BestProbability(lib, value.value, schema);
    if value.value.Object? {
      BestIsMaximal(lib, value.value.entries, schema, best);
    }
  }

  method ParseJevAnswer(lib: Library, answer: map<string, Any>, schema: Schema) returns (a: Option<Answer>)
    ensures ReadsAs(lib, answer, schema, a)
  {
    var choice := FirstValue(answer, CHOICE_KEYS);
    var probabilities := FirstValue(answer, PROBABILITY_KEYS);
    if choice.Some? {
      var target := TargetFromValue(lib, choice.value, schema);
      if target.Some? {
        if probabilities.Some? {
          var confidence := ProbabilityForTarget(lib, probabilities.value, target.value, schema);
          if confidence.Some? {
            assert Proposes(lib, probabilities.value.entries, schema, Answer(target.value, confidence.value));
            return Some(Answer(target.value, confidence.value));
          }
        }
        return Some(Answer(target.value, ConfidenceFromMap(lib, answer, OWN_SCORE_KEYS)));
      }
    }
    a := FindBest(lib, probabilities, schema);
  }

  function Get(entries: Option<map<string, Any>>, key: string): Any {
    if entries.Some? && key in entries.value then entries.value[key] else Nil
  }

  function AsObject(value: Any): Option<map<string, Any>> {
    if value.Object? then Some(value.entries) else None
  }

  /** A part of a response that may hold the answer. */
  datatype Place = AnswerObject(candidate: Any) | Ranking(ranking: Option<Any>) | Itself

  /** The places of a response, in the order they are searched. */
  function Places(payload: map<string, Any>): (places: seq<Place>)
    ensures |places| == 7
  {
    var whole := Some(payload);
    [ AnswerObject(Get(AsObject(Get(AsObject(Get(whole, "data")), "answers")), "target")),
      Ranking(FirstValue(payload, PROBABILITY_KEYS)),
      Ranking(FirstValue(payload, ["choices"])),
      AnswerObject(Get(whole, "result")),
      AnswerObject(Get(whole, "data")),
      AnswerObject(Get(whole, "choice")),
      Itself ]
  }

  ghost predicate ObjectReadsAs(lib: Library, value: Any, schema: Schema, a: Option<Answer>) {
    if value.Object? then ReadsAs(lib, value.entries, schema, a) else a == None
  }

  /** What looking in a place may find. */
  ghost predicate FindsAt(lib: Library, payload: map<string, Any>, schema: Schema, place: Place, a: Option<Answer>) {
    match place
    case AnswerObject(value) => ObjectReadsAs(lib, value, schema, a)
    case Ranking(value) => MaybeBestOf(lib, value, schema, a)
    case Itself =>
      var own := TargetFromMap(lib, Object(payload), 0, schema);
      a == if own.Some? then Some(Answer(own.value, ConfidenceFromMap(lib, payload, OWN_SCORE_KEYS))) else None
  }

  /** The first n places may all have been found empty. */
  ghost predicate FoundNothing(lib: Library, payload: map<string, Any>, schema: Schema, n: nat) {
    forall i :: 0 <= i < n && i < 7 ==> FindsAt(lib, payload, schema, Places(payload)[i], None)
  }

  /** The first place that holds an answer decides; without one, none of the seven does. */
  ghost predicate Resolves(lib: Library, payload: map<string, Any>, schema: Schema, a: Option<Answer>) {
    if a.None? then FoundNothing(lib, payload, schema, 7)
    else
      exists n ::
        0 <= n < 7 && FoundNothing(lib, payload, schema, n) && FindsAt(lib, payload, schema, Places(payload)[n], a)
  }

  lemma SearchOn(lib: Library, payload: map<string, Any>, schema: Schema, n: nat, a: Option<Answer>)
    requires n < 7 && (n > 0 ==> FoundNothing(lib, payload, schema, n))
            && FindsAt(lib, payload, schema, Places(payload)[n], a)
    ensures a.Some? ==> Resolves(lib, payload, schema, a)
    ensures a.None? ==> FoundNothing(lib, payload, schema, n + 1)
    ensures a.None? && n == 6 ==> Resolves(lib, payload, schema, a)
  {
    hide FindsAt, Places;
  }

  ghost predicate Refused(lib: Library, payload: map<string, Any>) {
    var code := NumberValue(lib, Get(Some(payload), "code"));
    code.Some? && code.value != 0.0
  }

  /** A body that does not decode is None; a JSON null decodes to an empty object. */
  method ParseJevResponse(lib: Library, body: Option<map<string, Any>>, schema: Schema) returns (a: Option<Answer>)
    ensures a.Some? ==> body.Some? && !Refused(lib, body.value)
    ensures body.Some? && !Refused(lib, body.value) ==> Resolves(lib, body.value, schema, a)
  {
    hide ObjectReadsAs, MaybeBestOf, FoundNothing, Resolves;
    if body.None? { return None; }
    var payload := body.value;
    var code := NumberValue(lib, Get(Some(payload), "code"));
    if code.Some? && code.value != 0.0 { return None; }
    a := ParseObject(lib, Get(AsObject(Get(AsObject(Get(Some(payload), "data")), "answers")), "target"), schema);
    SearchOn(lib, payload, schema, 0, a);
    if a.Some? { return; }
    a := FindBest(lib, FirstValue(payload, PROBABILITY_KEYS), schema);
    SearchOn(lib, payload, schema, 1, a);
    if a.Some? { return; }
    a := FindBest(lib, FirstValue(payload, ["choices"]), schema);
    SearchOn(lib, payload, schema, 2, a);
    if a.Some? { return; }
    for i := 0 to 3
      invariant FoundNothing(lib, payload, schema, 3 + i)
    {
      var nestedKey := ["result", "data", "choice"][i];
      a := ParseObject(lib, Get(Some(payload), nestedKey), schema);
      SearchOn(lib, payload, schema, 3 + i, a);
      if a.Some? { return; }
    }
    var target := TargetFromMap(lib, Object(payload), 0, schema);
    a := if target.Some? then Some(Answer(target.value, ConfidenceFromMap(lib, payload, OWN_SCORE_KEYS))) else None;
    SearchOn(lib, payload, schema, 6, a);
  }

  method ParseObject(lib: Library, value: Any, schema: Schema) returns (a: Option<Answer>)
    ensures ObjectReadsAs(lib, value, schema, a)
  {
    if value.Object? {
      a := ParseJevAnswer(lib, value.entries, schema);
    } else {
      a := None;
    }
  }

  // What every answer is ------------------------------------------------------

  /** A list gives the first of its best-scored named items, whatever sits at the other positions. */
  lemma {:induction false} BestOfItemsIsFirstMaximal(lib: Library, schema: Schema, items: seq<Any>)
    ensures var best := BestOfItems(lib, schema, items);
      && (forall j :: 0 <= j < |items| ==>
            var a := ItemProposal(lib, schema, j, items[j]);
            a.Some? ==> best.Some? && a.value.confidence <= best.value.confidence)
      && (best.Some? ==> exists i ::
            0 <= i < |items| && ItemProposal(lib, schema, i, items[i]) == best &&
            forall j :: 0 <= j < i ==>
              var a := ItemProposal(lib, schema, j, items[j]); a.Some? ==> a.value.confidence < best.value.confidence)
  {
    hide ItemProposal;
    if items != [] {
      BestOfItemsIsFirstMaximal(lib, schema, Front(items));
      assert items[|items| - 1] == Last(items);
      assert forall j :: 0 <= j < |items| - 1 ==> items[j] == Front(items)[j];
      var before, last := BestOfItems(lib, schema, Front(items)), ItemProposal(lib, schema, |items| - 1, Last(items));
      if Better(before, last) != before {
        assert ItemProposal(lib, schema, |items| - 1, items[|items| - 1]) == BestOfItems(lib, schema, items);
      }
    }
  }

  lemma BestIsAnswer(lib: Library, value: Option<Any>, schema: Schema, a: Answer)
    requires MaybeBestOf(lib, value, schema, Some(a))
    ensures IsAnswer(schema, a)
  {
    hide BestOfItems;
    if value.value.Slice? {
      BestOfItemsIsFirstMaximal(lib, schema, value.value.items);
    }
  }

  lemma ReadingIsAnswer(lib: Library, answer: map<string, Any>, schema: Schema, a: Answer)
    requires ReadsAs(lib, answer, schema, Some(a))
    ensures IsAnswer(schema, a)
  {
    var choice, probabilities := FirstValue(answer, CHOICE_KEYS), FirstValue(answer, PROBABILITY_KEYS);
    var target := if choice.Some? then TargetFromValue(lib, choice.value, schema) else None;
    if target.None? {
      BestIsAnswer(lib, probabilities, schema, a);
    } else if probabilities.Some? && probabilities.value.Object?
              && IsProposed(lib, probabilities.value.entries, schema, target.value) {
      assert Proposes(lib, probabilities.value.entries, schema, a);
    } else {
      assert a.confidence == ConfidenceFromMap(lib, answer, OWN_SCORE_KEYS);
    }
  }

  /** Whatever the tree and however its objects are visited: a field of the schema, and a number in [0, 1]. */
  lemma ResolutionIsAnswer(lib: Library, payload: map<string, Any>, schema: Schema, a: Answer)
    requires Resolves(lib, payload, schema, Some(a))
    ensures IsAnswer(schema, a)
  {
    var i :| 0 <= i < 7 && FindsAt(lib, payload, schema, Places(payload)[i], Some(a));
    var place := Places(payload)[i];
    assert FindsAt(lib, payload, schema, place, Some(a));
    assert place.AnswerObject? ==> ObjectReadsAs(lib, place.candidate, schema, Some(a));
    match place {
      case AnswerObject(value) => ReadingIsAnswer(lib, value.entries, schema, a);
      case Ranking(value) => BestIsAnswer(lib, value, schema, a);
      case Itself =>
    }
  }

  // The suggester ---------------------------------------------------------------

  /** The outcome of the HTTP call for one column: an error, or a body that decodes or not. */
  datatype Reply = Failed | Received(body: Option<map<string, Any>>)

  /** The answer a reply may be taken for; None if it is unusable. */
  ghost predicate Answers(lib: Library, reply: Reply, schema: Schema, a: Option<Answer>) {
    if reply.Received? && reply.body.Some? && !Refused(lib, reply.body.value)
    then Resolves(lib, reply.body.value, schema, a)
    else a == None
  }

  lemma {:induction false} BestExcludes(lib: Library, value: Option<Any>, schema: Schema, a: Answer)
    requires MaybeBestOf(lib, value, schema, Some(a))
    ensures !MaybeBestOf(lib, value, schema, None)
  {
    hide BestOfItems;
  }

  lemma {:induction false} ReadingExcludes(lib: Library, answer: map<string, Any>, schema: Schema, a: Answer)
    requires ReadsAs(lib, answer, schema, Some(a))
    ensures !ReadsAs(lib, answer, schema, None)
  {
    hide MaybeBestOf, Proposes;
    var probabilities := FirstValue(answer, PROBABILITY_KEYS);
    if MaybeBestOf(lib, probabilities, schema, Some(a)) {
      BestExcludes(lib, probabilities, schema, a);
    }
  }

  lemma {:induction false} PlaceExcludes(lib: Library, payload: map<string, Any>, schema: Schema, place: Place,
                                         a: Answer)
    requires FindsAt(lib, payload, schema, place, Some(a))
    ensures !FindsAt(lib, payload, schema, place, None)
  {
    hide MaybeBestOf, ReadsAs;
    match place {
      case AnswerObject(value) => ReadingExcludes(lib, value.entries, schema, a);
      case Ranking(value) => BestExcludes(lib, value, schema, a);
      case Itself =>
    }
  }

  /** Whether a reply is usable does not depend on how its objects are visited. */
  lemma {:induction false} UsabilityIsDetermined(lib: Library, reply: Reply, schema: Schema, a: Answer)
    requires Answers(lib, reply, schema, Some(a))
    ensures !Answers(lib, reply, schema, None)
  {
    hide FindsAt, Places;
    var payload := reply.body.value;
    var n :| 0 <= n < 7 && FindsAt(lib, payload, schema, Places(payload)[n], Some(a));
    PlaceExcludes(lib, payload, schema, Places(payload)[n], a);
  }

  /** One suggestion per column, in order, each read out of the reply for that column. */
  ghost predicate IsJevList(lib: Library, schema: Schema, replies: seq<Reply>, list: seq<Suggestion>) {
    && |list| == |replies|
    && forall i :: 0 <= i < |list| ==>
         && list[i].source == i && list[i].reason == JevChoice
         && Answers(lib, replies[i], schema, Some(Answer(list[i].target, list[i].confidence)))
  }

  predicate HasKey(lib: Library, apiKey: string) {
    Trim(apiKey, lib.unicode.isSpace) != []
  }

  /** No reply is unusable, however its objects are visited. */
  ghost predicate AllUsable(lib: Library, schema: Schema, replies: seq<Reply>) {
    forall i :: 0 <= i < |replies| ==> !Answers(lib, replies[i], schema, None)
  }

  method SuggestResult(lib: Library, ctx: Context, apiKey: string, schema: Schema, columns: seq<string>,
                       replies: seq<Reply>)
    returns (r: Result<Suggestions, Error>)
    requires |replies| == |columns|
    ensures r.Err? ==> ctx.cancellable
    ensures r.Ok? && r.value.model == Jev ==> IsJevList(lib, schema, replies, r.value.list)
    ensures r.Ok? && r.value.model == Fuzzy ==> r.value.list == FuzzyList(lib.unicode, schema.fields, columns)
    ensures r.Ok? ==> (r.value.model == Jev <==> HasKey(lib, apiKey) && AllUsable(lib, schema, replies))
  {
    hide Answers, FuzzyList;
    if Trim(apiKey, lib.unicode.isSpace) == [] {
      r := FuzzySuggester.SuggestResult(lib.unicode, ctx, schema, columns);
      return;
    }
    var list: seq<Suggestion> := [];
    for i := 0 to |columns|
      invariant IsJevList(lib, schema, replies[..i], list)
      invariant forall k :: 0 <= k < i ==> !Answers(lib, replies[k], schema, None)
    {
      var answer := SuggestColumn(lib, schema, replies[i]);
      if answer.Some? {
        UsabilityIsDetermined(lib, replies[i], schema, answer.value);
      }
      if answer.None? {
        r := FuzzySuggester.SuggestResult(lib.unicode, ctx, schema, columns);
        return;
      }
      list := list + [Suggestion(i, answer.value.target, answer.value.confidence, JevChoice)];
    }
    assert replies[..|columns|] == replies;
    r := Ok(Suggestions(list, Jev));
  }

  method SuggestColumn(lib: Library, schema: Schema, reply: Reply) returns (a: Option<Answer>)
    ensures Answers(lib, reply, schema, a)
  {
    hide Resolves;
    if reply.Failed? { return None; }
    a := ParseJevResponse(lib, reply.body, schema);
  }

  /** Every suggestion Jev makes names a field of the schema, with a confidence in [0, 1]. */
  lemma JevListIsSound(lib: Library, schema: Schema, replies: seq<Reply>, list: seq<Suggestion>)
    requires IsJevList(lib, schema, replies, list)
    ensures forall s :: s in list ==> IsTarget(schema, s.target) && 0.0 <= s.confidence <= 1.0
  {
    hide Resolves;
    forall i | 0 <= i < |list| ensures IsAnswer(schema, Answer(list[i].target, list[i].confidence)) {
      ResolutionIsAnswer(lib, replies[i].body.value, schema, Answer(list[i].target, list[i].confidence));
    }
  }
}
