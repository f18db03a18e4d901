/** What sort.Strings promises. */
module Sorting {
  import opened Prelude

  /** Go's order on strings; on valid UTF-8 the bytes compare as the code points do. */
  predicate StringLeq(a: string, b: string) {
    a == [] || (b != [] && (a[0] < b[0] || (a[0] == b[0] && StringLeq(a[1..], b[1..]))))
  }

  lemma {:induction false} StringLeqIsTotal(a: string, b: string)
    ensures StringLeq(a, b) || StringLeq(b, a)
    ensures StringLeq(a, b) && StringLeq(b, a) ==> a == b
  {
    if a != [] && b != [] {
      StringLeqIsTotal(a[1..], b[1..]);
      assert a == [a[0]] + a[1..] && b == [b[0]] + b[1..];
    }
  }

  lemma {:induction false} StringLeqIsTransitive(a: string, b: string, c: string)
    requires StringLeq(a, b) && StringLeq(b, c)
    ensures StringLeq(a, c)
  {
    if a != [] && a[0] == b[0] == c[0] {
      StringLeqIsTransitive(a[1..], b[1..], c[1..]);
    }
  }

  predicate Ascending(s: seq<string>) {
    forall i, j :: 0 <= i < j < |s| ==> StringLeq(s[i], s[j])
  }

  function Insert(x: string, s: seq<string>): (r: seq<string>)
    ensures multiset(r) == multiset(s) + multiset{x}
  {
    if s == [] then [x]
    else if StringLeq(x, s[0]) then [x] + s
    else
      assert s == [s[0]] + s[1..];
      [s[0]] + Insert(x, s[1..])
  }

  lemma InsertMembers(x: string, s: seq<string>)
    ensures forall y :: y in Insert(x, s) ==> y == x || y in s
  {
    forall y | y in Insert(x, s) ensures y == x || y in s {
      assert y in multiset(Insert(x, s));
    }
  }

  lemma {:induction false} InsertIsAscending(x: string, s: seq<string>)
    requires Ascending(s)
    ensures Ascending(Insert(x, s))
  {
    hide StringLeq;
    if s != [] {
      StringLeqIsTotal(x, s[0]);
      if StringLeq(x, s[0]) {
        forall j | 0 < j < |s| ensures StringLeq(x, s[j]) {
          StringLeqIsTransitive(x, s[0], s[j]);
        }
      } else {
        InsertIsAscending(x, s[1..]);
        InsertMembers(x, s[1..]);
        assert forall y :: y in Insert(x, s[1..]) ==> StringLeq(s[0], y);
      }
    }
  }

  /** A permutation of the strings in ascending order. */
  function SortStrings(s: seq<string>): (r: seq<string>)
    ensures multiset(r) == multiset(s)
  {
    if s == [] then []
    else
      assert s == [s[0]] + s[1..];
      Insert(s[0], SortStrings(s[1..]))
  }

  lemma {:induction false} SortStringsIsAscending(s: seq<string>)
    ensures Ascending(SortStrings(s))
  {
    if s != [] {
      SortStringsIsAscending(s[1..]);
      InsertIsAscending(s[0], SortStrings(s[1..]));
    }
  }

  lemma LeastIsFirst(s: seq<string>, x: string)
    requires Ascending(s) && x in multiset(s)
    ensures StringLeq(s[0], x)
  {
    var i :| 0 <= i < |s| && s[i] == x;
    StringLeqIsTotal(x, x);
  }

  /** There is one ascending permutation: sorting forgets the initial order. */
  lemma {:induction false} AscendingIsUnique(a: seq<string>, b: seq<string>)
    requires multiset(a) == multiset(b) && Ascending(a) && Ascending(b)
    ensures a == b
  {
    hide StringLeq, Ascending;
    assert |a| == |multiset(a)| && |b| == |multiset(b)|;
    if a != [] {
      LeastIsFirst(a, b[0]);
      LeastIsFirst(b, a[0]);
      StringLeqIsTotal(a[0], b[0]);
      TailsAgree(a, b);
      AscendingIsUnique(a[1..], b[1..]);
      assert a == [a[0]] + a[1..] && b == [b[0]] + b[1..];
    }
  }

  lemma TailsAgree(a: seq<string>, b: seq<string>)
    requires multiset(a) == multiset(b) && a != [] && b != [] && a[0] == b[0] && Ascending(a) && Ascending(b)
    ensures multiset(a[1..]) == multiset(b[1..]) && Ascending(a[1..]) && Ascending(b[1..])
  {
    assert a == [a[0]] + a[1..] && b == [b[0]] + b[1..];
    assert multiset(a[1..]) == multiset(a) - multiset{a[0]};
    assert multiset(b[1..]) == multiset(b) - multiset{b[0]};
  }
}
