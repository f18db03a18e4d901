/** Values shared by every component: optional values, results, bytes. */
module Prelude {

  datatype Option<+T> = None | Some(value: T)

  datatype Result<+T, +E> = Ok(value: T) | Err(error: E)

  newtype byte = x: int | 0 <= x < 256

  /** Go's int64 range. */
  const MAX_INT64: int := 0x7fff_ffff_ffff_ffff
  const MIN_INT64: int := -0x8000_0000_0000_0000

  /** All the elements but the last one. */
  function Front<T>(s: seq<T>): (r: seq<T>)
    requires s != []
  {
    s[..|s| - 1]
  }

  function Last<T>(s: seq<T>): T
    requires s != []
  {
    s[|s| - 1]
  }

  /** The pieces joined end to end. */
  function Concat<T>(pieces: seq<seq<T>>): seq<T> {
    if pieces == [] then [] else Concat(Front(pieces)) + Last(pieces)
  }

  /** An order in which Go may deliver the keys of a map. */
  ghost predicate Enumerates(order: seq<string>, keys: set<string>) {
    && (forall key :: key in order <==> key in keys)
    && (forall i, j :: 0 <= i < j < |order| ==> order[i] != order[j])
  }

  lemma EnumerationsJoin(order: seq<string>, rest: seq<string>, keys: set<string>, remaining: set<string>)
    requires remaining <= keys && Enumerates(order, keys - remaining) && Enumerates(rest, remaining)
    ensures Enumerates(order + rest, keys)
  {
    assert forall key :: key in order + rest <==> key in order || key in rest;
    assert forall i, j :: 0 <= i < |order| && 0 <= j < |rest| ==> order[i] in order && rest[j] in rest;
  }

  lemma {:induction false} SomeOrder(keys: set<string>) returns (order: seq<string>)
    ensures Enumerates(order, keys)
    decreases keys
  {
    if keys == {} {
      order := [];
    } else {
      var key :| key in keys;
      order := SomeOrder(keys - {key});
      order := order + [key];
    }
  }
}
