/** FuzzySuggester: for every source column, the target field whose name is nearest. */
module FuzzySuggester {
  import opened Prelude
  import opened Schemas
  import opened Names
  import opened EditDistance

  datatype Reason = FuzzyMatch(name: string, distance: nat) | JevChoice

  datatype Suggestion = Suggestion(source: nat, target: uint64, confidence: real, reason: Reason)

  datatype Provider = Fuzzy | Jev

  datatype Suggestions = Suggestions(list: seq<Suggestion>, model: Provider)

  datatype Error = ContextError

  function FuzzyConfidence(distance: nat, left: string, right: string): real {
    var maxLength := if |right| > |left| then |right| else |left|;
    if maxLength == 0 then 0.0
    else
      var confidence := 1.0 - distance as real / maxLength as real;
      if confidence < 0.0 then 0.0 else confidence
  }

  /** The clamp to zero is never taken, and only equal names reach one. */
  lemma {:induction false} ConfidenceRange(left: string, right: string)
    ensures var d, c := Distance(left, right), FuzzyConfidence(Distance(left, right), left, right);
      && 0.0 <= c <= 1.0
      && (left != [] || right != [] ==>
            && (c == 1.0 <==> left == right)
            && c == 1.0 - d as real / (if |right| > |left| then |right| else |left|) as real)
  {
    DistanceBounds(left, right);
    var d, maxLength := Distance(left, right), if |right| > |left| then |right| else |left|;
    if maxLength != 0 {
      RatioRange(d, maxLength);
    }
  }

  lemma RatioRange(d: nat, n: nat)
    requires d <= n && n != 0
    ensures 0.0 <= d as real / n as real <= 1.0
    ensures d as real / n as real == 0.0 <==> d == 0
  {
    var q := d as real / n as real;
    assert q * n as real == d as real;
    assert q > 1.0 ==> q * n as real > n as real;
  }

  // What a suggestion should be --------------------------------------------

  predicate Eligible(u: Unicode, field: Field) {
    Normalized(u, field.name) != [] && field.id != 0
  }

  function Score(u: Unicode, column: string, field: Field): real {
    var left, right := Normalized(u, column), Normalized(u, field.name);
    FuzzyConfidence(Distance(left, right), left, right)
  }

  /** Among the first n fields, the earliest of the eligible ones that score highest for the column. */
  ghost predicate IsBest(u: Unicode, fields: seq<Field>, n: nat, column: string, k: int) {
    && 0 <= k < n <= |fields| && Eligible(u, fields[k])
    && (forall j :: 0 <= j < n && Eligible(u, fields[j]) ==>
          Score(u, column, fields[j]) <= Score(u, column, fields[k]))
    && (forall j :: 0 <= j < k && Eligible(u, fields[j]) ==>
          Score(u, column, fields[j]) < Score(u, column, fields[k]))
  }

  ghost predicate NoneEligible(u: Unicode, fields: seq<Field>, n: nat) {
    forall j :: 0 <= j < n && j < |fields| ==> !Eligible(u, fields[j])
  }

  lemma {:induction false} BestExists(u: Unicode, fields: seq<Field>, n: nat, column: string) returns (k: int)
    requires n <= |fields| && !NoneEligible(u, fields, n)
    ensures IsBest(u, fields, n, column, k)
  {
    hide Score, Normalized;
    if NoneEligible(u, fields, n - 1) {
      k := n - 1;
    } else {
      k := BestExists(u, fields, n - 1, column);
      if Eligible(u, fields[n - 1]) && Score(u, column, fields[n - 1]) > Score(u, column, fields[k]) {
        k := n - 1;
      }
    }
  }

  /** The field to suggest for a column, if any. */
  ghost function BestField(u: Unicode, fields: seq<Field>, column: string): (best: Option<int>)
    ensures best.Some? ==> IsBest(u, fields, |fields|, column, best.value)
  {
    if Normalized(u, column) != [] && exists k :: IsBest(u, fields, |fields|, column, k) then
      var k :| IsBest(u, fields, |fields|, column, k);
      Some(k)
    else None
  }

  lemma BestFieldIs(u: Unicode, fields: seq<Field>, column: string, k: int)
    requires Normalized(u, column) != [] && IsBest(u, fields, |fields|, column, k)
    ensures BestField(u, fields, column) == Some(k)
  {
  }

  ghost function SuggestionFor(u: Unicode, fields: seq<Field>, source: nat, column: string, k: int): Suggestion
    requires 0 <= k < |fields|
  {
    Suggestion(source, fields[k].id, Score(u, column, fields[k]),
               FuzzyMatch(fields[k].name, Distance(Normalized(u, column), Normalized(u, fields[k].name))))
  }

  /** The suggestions for the columns, in column order. */
  ghost function FuzzyList(u: Unicode, fields: seq<Field>, columns: seq<string>): seq<Suggestion> {
    if columns == [] then []
    else
      var before := FuzzyList(u, fields, Front(columns));
      match BestField(u, fields, Last(columns))
      case None => before
      case Some(k) => before + [SuggestionFor(u, fields, |columns| - 1, Last(columns), k)]
  }

  ghost predicate HasSource(list: seq<Suggestion>, source: nat) {
    exists s :: s in list && s.source == source
  }

  /** The columns that get a suggestion are those with a name, as soon as some field is eligible. */
  ghost predicate Suggestible(u: Unicode, fields: seq<Field>, column: string) {
    Normalized(u, column) != [] && !NoneEligible(u, fields, |fields|)
  }

  /** Sources strictly increase, so that each suggestible column has exactly one entry: its best field. */
  ghost predicate Suggests(u: Unicode, fields: seq<Field>, columns: seq<string>, list: seq<Suggestion>) {
    && (forall m, n :: 0 <= m < n < |list| ==> list[m].source < list[n].source)
    && (forall i :: 0 <= i < |columns| ==> (HasSource(list, i) <==> Suggestible(u, fields, columns[i])))
    && (forall s :: s in list ==> s.source < |columns| && IsBestSuggestion(u, fields, columns[s.source], s))
  }

  lemma {:induction false} FuzzyListMeaning(u: Unicode, fields: seq<Field>, columns: seq<string>)
    ensures Suggests(u, fields, columns, FuzzyList(u, fields, columns))
  {
    hide Score, Normalized, Distance, Suggests;
    if columns == [] {
      NoColumns(u, fields);
    } else {
      var before, column := FuzzyList(u, fields, Front(columns)), Last(columns);
      FuzzyListMeaning(u, fields, Front(columns));
      if Suggestible(u, fields, column) {
        var k := BestExists(u, fields, |fields|, column);
        BestFieldIs(u, fields, column, k);
        SuggestsColumn(u, fields, columns, before, k);
      } else {
        SkipsColumn(u, fields, columns, before);
      }
    }
  }

  lemma NoColumns(u: Unicode, fields: seq<Field>)
    ensures Suggests(u, fields, [], [])
  {
  }

  lemma SuggestsColumn(u: Unicode, fields: seq<Field>, columns: seq<string>, before: seq<Suggestion>, k: int)
    requires columns != [] && Suggests(u, fields, Front(columns), before)
    requires IsBest(u, fields, |fields|, Last(columns), k) && Suggestible(u, fields, Last(columns))
    ensures Suggests(u, fields, columns, before + [SuggestionFor(u, fields, |columns| - 1, Last(columns), k)])
  {
    hide Score, Normalized, Distance;
    var last := SuggestionFor(u, fields, |columns| - 1, Last(columns), k);
    var list := before + [last];
    assert forall m :: 0 <= m < |before| ==> before[m] in before;
    assert last in list && forall s :: s in list <==> s in before || s == last;
    forall i | 0 <= i < |columns| ensures HasSource(list, i) <==> Suggestible(u, fields, columns[i]) {
      assert HasSource(list, i) <==> HasSource(before, i) || i == |columns| - 1;
    }
  }

  lemma SkipsColumn(u: Unicode, fields: seq<Field>, columns: seq<string>, before: seq<Suggestion>)
    requires columns != [] && Suggests(u, fields, Front(columns), before) && !Suggestible(u, fields, Last(columns))
    ensures Suggests(u, fields, columns, before)
  {
  }

  /** s names the best field for the column, with its score. */
  ghost predicate IsBestSuggestion(u: Unicode, fields: seq<Field>, column: string, s: Suggestion) {
    exists k :: IsBest(u, fields, |fields|, column, k) && s == SuggestionFor(u, fields, s.source, column, k)
  }

  /** Confidences lie in [0, 1], and are 1 exactly when some field has the column's own normalized name. */
  lemma {:induction false} SuggestionConfidence(u: Unicode, fields: seq<Field>, column: string, s: Suggestion)
    requires Normalized(u, column) != [] && IsBestSuggestion(u, fields, column, s)
    ensures 0.0 <= s.confidence <= 1.0
    ensures s.confidence == 1.0 <==>
            exists f :: f in fields && f.id != 0 && Normalized(u, f.name) == Normalized(u, column)
    ensures s.confidence == 1.0 ==>
            exists f :: f in fields && f.id == s.target && Normalized(u, f.name) == Normalized(u, column)
  {
    var k :| IsBest(u, fields, |fields|, column, k) && s == SuggestionFor(u, fields, s.source, column, k);
    forall f | f in fields && Eligible(u, f)
      ensures 0.0 <= Score(u, column, f) <= 1.0
      ensures Score(u, column, f) == 1.0 <==> Normalized(u, f.name) == Normalized(u, column)
    {
      ConfidenceRange(Normalized(u, column), Normalized(u, f.name));
    }
    assert fields[k] in fields;
  }

  /** How near two normalized names are: one, less the share of the longer one that must be edited. */
  ghost function Nearness(left: string, right: string): real
    requires left != [] || right != []
  {
    1.0 - Distance(left, right) as real / (if |right| > |left| then |right| else |left|) as real
  }

  /** Field k can be suggested: it has an ID, and a name with a letter or a number. */
  ghost predicate IsNameable(u: Unicode, fields: seq<Field>, k: int) {
    0 <= k < |fields| && fields[k].id != 0 && Normalized(u, fields[k].name) != []
  }

  /** A suggestion names the nearest field, the earliest one if several are, and says how near it is. */
  ghost predicate NamesNearest(u: Unicode, fields: seq<Field>, name: string, s: Suggestion, k: int)
    requires name != []
  {
    && IsNameable(u, fields, k) && s.target == fields[k].id
    && s.confidence == Nearness(name, Normalized(u, fields[k].name))
    && s.reason == FuzzyMatch(fields[k].name, Distance(name, Normalized(u, fields[k].name)))
    && forall j :: IsNameable(u, fields, j) ==>
         var near := Nearness(name, Normalized(u, fields[j].name));
         near <= s.confidence && (j < k ==> near < s.confidence)
  }

  lemma {:induction false} SuggestionIs(u: Unicode, fields: seq<Field>, column: string, s: Suggestion)
    requires Normalized(u, column) != [] && IsBestSuggestion(u, fields, column, s)
    ensures exists k :: NamesNearest(u, fields, Normalized(u, column), s, k)
  {
    hide Normalized, Distance;
    var k :| IsBest(u, fields, |fields|, column, k) && s == SuggestionFor(u, fields, s.source, column, k);
    forall j | IsNameable(u, fields, j)
      ensures Score(u, column, fields[j]) == Nearness(Normalized(u, column), Normalized(u, fields[j].name))
    {
      ConfidenceRange(Normalized(u, column), Normalized(u, fields[j].name));
    }
    assert NamesNearest(u, fields, Normalized(u, column), s, k);
  }

  /** A column is suggested for exactly if its name and that of some field with an ID have a letter or a number. */
  lemma {:induction false} SuggestibleIs(u: Unicode, fields: seq<Field>, column: string)
    ensures Suggestible(u, fields, column) <==> Normalized(u, column) != [] && exists k :: IsNameable(u, fields, k)
  {
    hide Normalized;
    if k :| IsNameable(u, fields, k) {
      assert Eligible(u, fields[k]);
    }
    if !NoneEligible(u, fields, |fields|) {
      var k :| 0 <= k < |fields| && Eligible(u, fields[k]);
      assert IsNameable(u, fields, k);
    }
  }

  // The method --------------------------------------------------------------

  method SuggestResult(u: Unicode, ctx: Context, schema: Schema, columns: seq<string>)
    returns (r: Result<Suggestions, Error>)
    ensures r.Err? ==> ctx.cancellable
    ensures r.Ok? ==> r.value == Suggestions(FuzzyList(u, schema.fields, columns), Fuzzy)
  {
    hide Distance, Normalized, FuzzyConfidence;
    var list: seq<Suggestion> := [];
    var fields := schema.fields;
    for i := 0 to |columns|
      invariant list == FuzzyList(u, fields, columns[..i])
    {
      var column := columns[i];
      assert Front(columns[..i + 1]) == columns[..i];
      var cancelled := Cancelled(ctx);
      if cancelled { return Err(ContextError); }
      var sourceName := NormalizeName(u, column);
      if sourceName == [] { continue; }
      var bestIndex, bestDistance, bestConfidence := -1, 0, -1.0;
      for k := 0 to |fields|
        invariant bestIndex < 0 ==> NoneEligible(u, fields, k)
        invariant bestIndex >= 0 ==> IsBest(u, fields, k, column, bestIndex)
        invariant bestIndex >= 0 ==> bestConfidence == Score(u, column, fields[bestIndex])
        invariant bestIndex >= 0 ==> bestDistance == Distance(sourceName, Normalized(u, fields[bestIndex].name))
      {
        var targetName := NormalizeName(u, fields[k].name);
        if targetName == [] || fields[k].id == 0 { continue; }
        var distance := LevenshteinDistance(sourceName, targetName);
        var confidence := FuzzyConfidence(distance, sourceName, targetName);
        if bestIndex < 0 || confidence > bestConfidence {
          bestIndex, bestDistance, bestConfidence := k, distance, confidence;
        }
      }
      if bestIndex < 0 { continue; }
      BestFieldIs(u, fields, column, bestIndex);
      var field := fields[bestIndex];
      list := list + [Suggestion(i, field.id, bestConfidence, FuzzyMatch(field.name, bestDistance))];
    }
    assert columns[..|columns|] == columns;
    r := Ok(Suggestions(list, Fuzzy));
  }
}
