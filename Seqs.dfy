/**
 * The array transforms the store is built from: `filter`, `find` and the
 * replace-by-id `map`, over entities identified by a string id.
 */
module Seqs {
  import opened CareTypes

  /** `s.filter(keep)`: the elements satisfying `keep`, each with its multiplicity, nothing else. */
  function Filter<T(!new)>(s: seq<T>, keep: T -> bool): (r: seq<T>)
    ensures |r| <= |s|
    ensures forall i :: 0 <= i < |r| ==> keep(r[i])
    ensures forall x {:trigger multiset(r)[x]} :: multiset(r)[x] == if keep(x) then multiset(s)[x] else 0
    ensures (forall i :: 0 <= i < |s| ==> keep(s[i])) ==> r == s
  {
    if s == [] then []
    else
      assert s == [s[0]] + s[1..];
      (if keep(s[0]) then [s[0]] else []) + Filter(s[1..], keep)
  }

  /** Filtering distributes over concatenation, so the survivors keep their relative order. */
  lemma {:induction false} FilterAppend<T(!new)>(a: seq<T>, b: seq<T>, keep: T -> bool)
    ensures Filter(a + b, keep) == Filter(a, keep) + Filter(b, keep)
  {
    if a == [] {
      assert a + b == b;
    } else {
      assert (a + b)[1..] == a[1..] + b;
      FilterAppend(a[1..], b, keep);
    }
  }

  /** A kept element splits the filtered sequence into what was filtered before it and after it. */
  lemma {:induction false} FilterAround<T(!new)>(s: seq<T>, keep: T -> bool, i: nat)
    requires i < |s| && keep(s[i])
    ensures Filter(s, keep) == Filter(s[..i], keep) + [s[i]] + Filter(s[i + 1..], keep)
  {
    assert s == s[..i] + ([s[i]] + s[i + 1..]);
    assert [s[i]][1..] == [];
    FilterAppend([s[i]], s[i + 1..], keep);
    FilterAppend(s[..i], [s[i]] + s[i + 1..], keep);
  }

  /** Two kept elements appear in the filtered sequence in the order they had in `s`. */
  lemma {:induction false} FilterKeepsOrder<T(!new)>(s: seq<T>, keep: T -> bool, i: nat, j: nat)
    requires i < j < |s| && keep(s[i]) && keep(s[j])
    ensures Filter(s, keep)
         == Filter(s[..i], keep) + [s[i]] + Filter(s[i + 1..j], keep) + [s[j]] + Filter(s[j + 1..], keep)
  {
    FilterAround(s, keep, j);
    var front := s[..j];
    assert front[..i] == s[..i] && front[i + 1..] == s[i + 1..j] && front[i] == s[i];
    FilterAround(front, keep, i);
  }

  /** The index of the first element whose id is `id`, or `|s|` when there is none. */
  function FirstIndex<T>(s: seq<T>, idOf: T -> string, id: string): (k: nat)
    ensures k <= |s|
    ensures forall i :: 0 <= i < k ==> idOf(s[i]) != id
    ensures k < |s| ==> idOf(s[k]) == id
  {
    if s == [] || idOf(s[0]) == id then 0 else 1 + FirstIndex(s[1..], idOf, id)
  }

  /** `s.find(e => idOf(e) === id)`: the first element with that id, if any. */
  function FindById<T>(s: seq<T>, idOf: T -> string, id: string): (r: Option<T>)
    ensures r.None? <==> forall i :: 0 <= i < |s| ==> idOf(s[i]) != id
    ensures r.Some? ==> idOf(r.value) == id && r.value == s[FirstIndex(s, idOf, id)]
  {
    if s == [] then None
    else if idOf(s[0]) == id then Some(s[0])
    else FindById(s[1..], idOf, id)
  }

  /** `s.map(e => idOf(e) === id ? x : e)`: every element with that id replaced by `x`, the rest kept in place. */
  function ReplaceById<T>(s: seq<T>, idOf: T -> string, id: string, x: T): (r: seq<T>)
    ensures |r| == |s|
    ensures forall i :: 0 <= i < |s| ==> r[i] == if idOf(s[i]) == id then x else s[i]
  {
    if s == [] then [] else [if idOf(s[0]) == id then x else s[0]] + ReplaceById(s[1..], idOf, id, x)
  }

  /** The test `e => idOf(e) !== id`. */
  function IdIsNot<T>(idOf: T -> string, id: string): T -> bool
  {
    e => idOf(e) != id
  }

  /** The test `e => idOf(e) === id`. */
  function IdIs<T>(idOf: T -> string, id: string): T -> bool
  {
    e => idOf(e) == id
  }

  /** `s.filter(e => idOf(e) !== id)`: exactly the elements with that id are gone. */
  function RemoveById<T(!new)>(s: seq<T>, idOf: T -> string, id: string): (r: seq<T>)
    ensures forall i :: 0 <= i < |r| ==> idOf(r[i]) != id
    ensures forall x {:trigger multiset(r)[x]} :: multiset(r)[x] == if idOf(x) != id then multiset(s)[x] else 0
    ensures (forall i :: 0 <= i < |s| ==> idOf(s[i]) != id) ==> r == s
  {
    Filter(s, IdIsNot(idOf, id))
  }

  /** Removing by id distributes over concatenation. */
  lemma RemoveByIdAppend<T(!new)>(a: seq<T>, b: seq<T>, idOf: T -> string, id: string)
    ensures RemoveById(a + b, idOf, id) == RemoveById(a, idOf, id) + RemoveById(b, idOf, id)
  {
    FilterAppend(a, b, IdIsNot(idOf, id));
  }

  /** Two elements that survive the removal keep their relative order. */
  lemma RemoveByIdKeepsOrder<T(!new)>(s: seq<T>, idOf: T -> string, id: string, i: nat, j: nat)
    requires i < j < |s| && idOf(s[i]) != id && idOf(s[j]) != id
    ensures RemoveById(s, idOf, id)
         == RemoveById(s[..i], idOf, id) + [s[i]] + RemoveById(s[i + 1..j], idOf, id) + [s[j]]
            + RemoveById(s[j + 1..], idOf, id)
  {
    FilterKeepsOrder(s, IdIsNot(idOf, id), i, j);
  }

  /** `s.filter(e => idOf(e) === id)`: exactly the elements with that id. */
  function SelectById<T(!new)>(s: seq<T>, idOf: T -> string, id: string): (r: seq<T>)
    ensures forall i :: 0 <= i < |r| ==> idOf(r[i]) == id
    ensures forall x {:trigger multiset(r)[x]} :: multiset(r)[x] == if idOf(x) == id then multiset(s)[x] else 0
    ensures (forall i :: 0 <= i < |s| ==> idOf(s[i]) == id) ==> r == s
  {
    Filter(s, IdIs(idOf, id))
  }

  /** Selecting by id distributes over concatenation. */
  lemma SelectByIdAppend<T(!new)>(a: seq<T>, b: seq<T>, idOf: T -> string, id: string)
    ensures SelectById(a + b, idOf, id) == SelectById(a, idOf, id) + SelectById(b, idOf, id)
  {
    FilterAppend(a, b, IdIs(idOf, id));
  }

  /** Two selected elements keep their relative order. */
  lemma SelectByIdKeepsOrder<T(!new)>(s: seq<T>, idOf: T -> string, id: string, i: nat, j: nat)
    requires i < j < |s| && idOf(s[i]) == id && idOf(s[j]) == id
    ensures SelectById(s, idOf, id)
         == SelectById(s[..i], idOf, id) + [s[i]] + SelectById(s[i + 1..j], idOf, id) + [s[j]]
            + SelectById(s[j + 1..], idOf, id)
  {
    FilterKeepsOrder(s, IdIs(idOf, id), i, j);
  }

  /** The set of ids of the elements of `s`. */
  function Ids<T>(s: seq<T>, idOf: T -> string): set<string>
  {
    set i | 0 <= i < |s| :: idOf(s[i])
  }
}
