/**
 * LevenshteinDistance of the fuzzy suggester, proved against edit scripts: the
 * result is the least cost of any script turning one name into the other.
 */
module EditDistance {
  import opened Prelude

  /** One edit, applied while the left string is read from front to back. */
  datatype Edit = Keep | Substitute(with: char) | Insert(what: char) | Delete

  type Script = seq<Edit>

  /** What a script makes of a string; None if it does not consume the string exactly. */
  function Apply(script: Script, s: string): Option<string> {
    if script == [] then
      if s == [] then Some([]) else None
    else
      var edit := Last(script);
      if edit.Insert? then
        match Apply(Front(script), s)
        case Some(t) => Some(t + [edit.what])
        case None => None
      else if s == [] then None
      else
        match Apply(Front(script), Front(s))
        case None => None
        case Some(t) =>
          match edit
          case Keep => Some(t + [Last(s)])
          case Substitute(c) => Some(t + [c])
          case _ => Some(t)
  }

  /** Every edit but Keep costs one. */
  function Cost(script: Script): nat {
    if script == [] then 0 else Cost(Front(script)) + if Last(script).Keep? then 0 else 1
  }

  ghost predicate Turns(script: Script, left: string, right: string) {
    Apply(script, left) == Some(right)
  }

  /** d is the cost of some script from left to right, and no script is cheaper. */
  ghost predicate IsLeastCost(left: string, right: string, d: int) {
    && (exists script :: Turns(script, left, right) && Cost(script) == d)
    && (forall script :: Turns(script, left, right) ==> d <= Cost(script))
  }

  function Min3(left: int, middle: int, right: int): (m: int)
    ensures m <= left && m <= middle && m <= right
    ensures m == left || m == middle || m == right
  {
    if left < middle then
      if left < right then left else right
    else if middle < right then middle else right
  }

  /** The recurrence the two rows tabulate: the distance between two strings by their last characters. */
  function Distance(a: string, b: string): nat
    decreases |a| + |b|
  {
    if a == [] then |b|
    else if b == [] then |a|
    else Min3(Distance(Front(a), b) + 1,
              Distance(a, Front(b)) + 1,
              Distance(Front(a), Front(b)) + if Last(a) == Last(b) then 0 else 1)
  }

  /** No script is cheaper than the recurrence. */
  lemma {:induction false} DistanceIsLowerBound(script: Script, a: string, b: string)
    requires Turns(script, a, b)
    ensures Distance(a, b) <= Cost(script)
  {
    if script != [] {
      var edit, rest := Last(script), Front(script);
      if edit.Insert? {
        DistanceIsLowerBound(rest, a, Front(b));
      } else if edit.Delete? {
        DistanceIsLowerBound(rest, Front(a), b);
      } else {
        var t := Apply(rest, Front(a)).value;
        assert Front(b) == t;
        DistanceIsLowerBound(rest, Front(a), t);
      }
    }
  }

  /** A script that costs what the recurrence says. */
  function Cheapest(a: string, b: string): Script
    decreases |a| + |b|
  {
    if a == [] && b == [] then []
    else if a == [] then Cheapest(a, Front(b)) + [Insert(Last(b))]
    else if b == [] then Cheapest(Front(a), b) + [Delete]
    else if Distance(a, b) == Distance(Front(a), b) + 1 then Cheapest(Front(a), b) + [Delete]
    else if Distance(a, b) == Distance(a, Front(b)) + 1 then Cheapest(a, Front(b)) + [Insert(Last(b))]
    else Cheapest(Front(a), Front(b)) + [if Last(a) == Last(b) then Keep else Substitute(Last(b))]
  }

  lemma AppendEdit(script: Script, edit: Edit)
    ensures Front(script + [edit]) == script && Last(script + [edit]) == edit
  {
  }

  lemma {:induction false} CheapestAttainsDistance(a: string, b: string)
    ensures Turns(Cheapest(a, b), a, b)
    ensures Cost(Cheapest(a, b)) == Distance(a, b)
    decreases |a| + |b|
  {
    if a != [] || b != [] {
      AppendEdit(Front(Cheapest(a, b)), Last(Cheapest(a, b)));
      assert a != [] ==> a == Front(a) + [Last(a)];
      assert b != [] ==> b == Front(b) + [Last(b)];
      if a == [] {
        CheapestAttainsDistance(a, Front(b));
        AppendEdit(Cheapest(a, Front(b)), Insert(Last(b)));
      } else if b == [] || Distance(a, b) == Distance(Front(a), b) + 1 {
        CheapestAttainsDistance(Front(a), b);
        AppendEdit(Cheapest(Front(a), b), Delete);
      } else if Distance(a, b) == Distance(a, Front(b)) + 1 {
        CheapestAttainsDistance(a, Front(b));
        AppendEdit(Cheapest(a, Front(b)), Insert(Last(b)));
      } else {
        CheapestAttainsDistance(Front(a), Front(b));
        AppendEdit(Cheapest(Front(a), Front(b)), if Last(a) == Last(b) then Keep else Substitute(Last(b)));
      }
    }
  }

  /** The recurrence is the minimum over all edit scripts. */
  lemma DistanceIsLeastCost(a: string, b: string)
    ensures IsLeastCost(a, b, Distance(a, b))
  {
    CheapestAttainsDistance(a, b);
    forall script | Turns(script, a, b) ensures Distance(a, b) <= Cost(script) {
      DistanceIsLowerBound(script, a, b);
    }
  }

  /** Names an entry of the table; it only serves to trigger the quantifier below. */
  ghost predicate Entry(i: int, j: int) { true }

  /** cell(i, j) is the distance between the first j characters of row and the first i of column. */
  ghost predicate Tabulates(cell: (int, int) -> int, row: string, column: string) {
    forall i, j {:trigger Entry(i, j)} :: Entry(i, j) && 0 <= i <= |column| && 0 <= j <= |row| ==>
      cell(i, j) == Distance(row[..j], column[..i])
  }

  lemma TableOf(row: string, column: string) returns (cell: (int, int) -> int)
    ensures Tabulates(cell, row, column)
  {
    cell := (i, j) => if 0 <= i <= |column| && 0 <= j <= |row| then Distance(row[..j], column[..i]) else 0;
  }

  lemma TableEdge(cell: (int, int) -> int, row: string, column: string, k: nat)
    requires Tabulates(cell, row, column)
    ensures k <= |column| ==> cell(k, 0) == k
    ensures k <= |row| ==> cell(0, k) == k
  {
    assert Entry(k, 0) && Entry(0, k);
  }

  lemma TableStep(cell: (int, int) -> int, row: string, column: string, i: nat, j: nat)
    requires Tabulates(cell, row, column) && i < |column| && j < |row|
    ensures cell(i + 1, j + 1)
         == Min3(cell(i + 1, j) + 1, cell(i, j + 1) + 1, cell(i, j) + if row[j] != column[i] then 1 else 0)
  {
    assert Entry(i + 1, j + 1) && Entry(i + 1, j) && Entry(i, j + 1) && Entry(i, j);
    assert Front(row[..j + 1]) == row[..j] && Front(column[..i + 1]) == column[..i];
  }

  /** The last entry is the least cost, whichever of the two strings indexes the rows. */
  lemma {:induction false} TableCorner(cell: (int, int) -> int, row: string, column: string)
    requires Tabulates(cell, row, column)
    ensures cell(|column|, |row|) == Distance(row, column) == Distance(column, row)
  {
    assert Entry(|column|, |row|) && row[..|row|] == row && column[..|column|] == column;
    DistanceIsSymmetric(row, column);
  }

  /**
   * The two-row computation. The shorter string indexes the rows, so the operands
   * may be swapped, and the buffers change places after every character of the longer one.
   */
  method LevenshteinDistance(left: string, right: string) returns (d: nat)
    ensures IsLeastCost(left, right, d)
    ensures d == Distance(left, right)
  {
    hide IsLeastCost;
    DistanceIsLeastCost(left, right);
    if left == [] { return |right|; }
    if right == [] { return |left|; }
    var row, column := left, right;
    if |row| > |column| {
      row, column := column, row;
    }
    ghost var cell := TableOf(row, column);
    var previous := new int[|row| + 1](i => i);
    var current := new int[|row| + 1](_ => 0);
    forall k | 0 <= k <= |row| ensures previous[k] == cell(0, k) {
      TableEdge(cell, row, column, k);
    }
    for i := 0 to |column|
      invariant previous != current && previous.Length == current.Length == |row| + 1
      invariant fresh(previous) && fresh(current)
      invariant forall k :: 0 <= k <= |row| ==> previous[k] == cell(i, k)
    {
      current[0] := i + 1;
      TableEdge(cell, row, column, i + 1);
      for j := 0 to |row|
        invariant forall k :: 0 <= k <= |row| ==> previous[k] == cell(i, k)
        invariant forall k :: 0 <= k <= j ==> current[k] == cell(i + 1, k)
      {
        var cost := if row[j] != column[i] then 1 else 0;
        current[j + 1] := Min3(current[j] + 1, previous[j + 1] + 1, previous[j] + cost);
        TableStep(cell, row, column, i, j);
      }
      previous, current := current, previous;
    }
    TableCorner(cell, row, column);
    d := previous[|row|];
  }

  // Metric laws -----------------------------------------------------------

  lemma {:induction false} DistanceIsSymmetric(a: string, b: string)
    ensures Distance(a, b) == Distance(b, a)
    decreases |a| + |b|
  {
    if a != [] && b != [] {
      DistanceIsSymmetric(Front(a), b);
      DistanceIsSymmetric(a, Front(b));
      DistanceIsSymmetric(Front(a), Front(b));
    }
  }

  /** Zero exactly on equal strings, and never outside the length difference and the longer length. */
  lemma {:induction false} DistanceBounds(a: string, b: string)
    ensures Distance(a, b) == 0 <==> a == b
    ensures |a| - |b| <= Distance(a, b) && |b| - |a| <= Distance(a, b)
    ensures Distance(a, b) <= if |a| < |b| then |b| else |a|
    decreases |a| + |b|
  {
    if a != [] && b != [] {
      assert a == Front(a) + [Last(a)] && b == Front(b) + [Last(b)];
      DistanceBounds(Front(a), b);
      DistanceBounds(a, Front(b));
      DistanceBounds(Front(a), Front(b));
    }
  }

  /** One script doing the work of two in a row. */
  function Compose(first: Script, second: Script): Script
    decreases |first| + |second|
  {
    if second != [] && Last(second).Insert? then Compose(first, Front(second)) + [Last(second)]
    else if first != [] && Last(first).Delete? then Compose(Front(first), second) + [Delete]
    else if first == [] || second == [] then []
    else
      var rest, edit := Compose(Front(first), Front(second)), ComposedEdit(Last(first), Last(second));
      if edit.Some? then rest + [edit.value] else rest
  }

  lemma {:induction false} ComposeIsSound(first: Script, second: Script, a: string, b: string, c: string)
    requires Turns(first, a, b) && Turns(second, b, c)
    ensures Turns(Compose(first, second), a, c)
    ensures Cost(Compose(first, second)) <= Cost(first) + Cost(second)
    decreases |first| + |second|
  {
    if second != [] && Last(second).Insert? {
      var t := Apply(Front(second), b).value;
      ComposeIsSound(first, Front(second), a, b, t);
      AppendEdit(Compose(first, Front(second)), Last(second));
    } else if first != [] && Last(first).Delete? {
      ComposeIsSound(Front(first), second, Front(a), b, c);
      AppendEdit(Compose(Front(first), second), Delete);
    } else if first != [] && second != [] {
      ComposeLastEdits(first, second, a, b, c);
    }
  }

  /** The case where the last edit of the first script writes what the last of the second reads. */
  lemma {:induction false} ComposeLastEdits(first: Script, second: Script, a: string, b: string, c: string)
    requires Turns(first, a, b) && Turns(second, b, c)
    requires first != [] && second != [] && !Last(second).Insert? && !Last(first).Delete?
    ensures Turns(Compose(first, second), a, c)
    ensures Cost(Compose(first, second)) <= Cost(first) + Cost(second)
    decreases |first| + |second|, 0
  {
    var a' := if Last(first).Insert? then a else Front(a);
    var c' := Apply(Front(second), Front(b)).value;
    assert Front(b) == Apply(Front(first), a').value;
    ComposeIsSound(Front(first), Front(second), a', Front(b), c');
    var rest, edit := Compose(Front(first), Front(second)), ComposedEdit(Last(first), Last(second));
    if edit.Some? {
      AppendEdit(rest, edit.value);
      LastEditTurns(rest, edit.value, a', c', a, c);
    }
  }

  /** What one edit makes of what another has written. */
  function ComposedEdit(first: Edit, second: Edit): Option<Edit> {
    match second
    case Delete => if first.Insert? then None else Some(Delete)
    case Keep => Some(first)
    case Substitute(c) => Some(if first.Insert? then Insert(c) else Substitute(c))
    case Insert(_) => None
  }

  /** One more edit at the end of a script. */
  lemma LastEditTurns(rest: Script, edit: Edit, a': string, c': string, a: string, c: string)
    requires Turns(rest, a', c')
    requires if edit.Insert? then a == a' else a != [] && Front(a) == a'
    requires match edit
             case Insert(x) => c == c' + [x]
             case Delete => c == c'
             case Keep => a != [] && c == c' + [Last(a)]
             case Substitute(x) => c == c' + [x]
    ensures Turns(rest + [edit], a, c)
  {
    AppendEdit(rest, edit);
  }

  lemma {:induction false} TriangleInequality(a: string, b: string, c: string)
    ensures Distance(a, c) <= Distance(a, b) + Distance(b, c)
  {
    CheapestAttainsDistance(a, b);
    CheapestAttainsDistance(b, c);
    ComposeIsSound(Cheapest(a, b), Cheapest(b, c), a, b, c);
    DistanceIsLowerBound(Compose(Cheapest(a, b), Cheapest(b, c)), a, c);
  }
}
