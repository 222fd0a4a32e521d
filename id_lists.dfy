/**
 * Lists of records addressed by a string id: the `filter(x => x.id !== id)`
 * and `map(x => x.id === id ? replacement : x)` idioms the resume builder and
 * the notification list both use, with the id field passed as `idOf`.
 */
module IdLists {
  import opened Seqs

  /** The ids of the records, in list order. */
  function Ids<T>(xs: seq<T>, idOf: T -> string): (r: seq<string>)
    ensures |r| == |xs|
    ensures forall i :: 0 <= i < |xs| ==> r[i] == idOf(xs[i])
  {
    if xs == [] then [] else [idOf(xs[0])] + Ids(xs[1..], idOf)
  }

  /** No two records share an id. */
  predicate UniqueIds<T>(xs: seq<T>, idOf: T -> string) {
    forall i, j :: 0 <= i < j < |xs| ==> idOf(xs[i]) != idOf(xs[j])
  }

  /** `filter(x => x.id !== id)`: every record with that id is dropped, the others keep their order. */
  function RemoveId<T(==,!new)>(xs: seq<T>, idOf: T -> string, id: string): (r: seq<T>)
    ensures forall x :: x in r <==> x in xs && idOf(x) != id
    ensures Subsequence(r, xs)
    ensures |r| <= |xs|
  {
    if xs == [] then []
    else
      var rest := RemoveId(xs[1..], idOf, id);
      if idOf(xs[0]) != id then [xs[0]] + rest
      else
        assert rest != [] ==> rest[0] != xs[0];
        rest
  }

  /** Removing an id no record carries changes nothing. */
  lemma {:induction false} RemoveAbsentId<T(!new)>(xs: seq<T>, idOf: T -> string, id: string)
    requires id !in Ids(xs, idOf)
    ensures RemoveId(xs, idOf, id) == xs
  {
    if xs != [] {
      assert Ids(xs[1..], idOf) == Ids(xs, idOf)[1..];
      RemoveAbsentId(xs[1..], idOf, id);
    }
  }

  /** Removal works piecewise on a concatenation. */
  lemma {:induction false} RemoveIdConcat<T(!new)>(xs: seq<T>, ys: seq<T>, idOf: T -> string, id: string)
    ensures RemoveId(xs + ys, idOf, id) == RemoveId(xs, idOf, id) + RemoveId(ys, idOf, id)
  {
    if xs != [] {
      assert (xs + ys)[1..] == xs[1..] + ys;
      RemoveIdConcat(xs[1..], ys, idOf, id);
    } else {
      assert xs + ys == ys;
    }
  }

  /** Appending a record under a fresh id and then removing that id restores the list. */
  lemma AppendThenRemove<T(!new)>(xs: seq<T>, y: T, idOf: T -> string)
    requires idOf(y) !in Ids(xs, idOf)
    ensures RemoveId(xs + [y], idOf, idOf(y)) == xs
  {
    RemoveIdConcat(xs, [y], idOf, idOf(y));
    RemoveAbsentId(xs, idOf, idOf(y));
  }

  /** Removal never introduces a shared id. */
  lemma {:induction false} RemoveIdKeepsUnique<T(!new)>(xs: seq<T>, idOf: T -> string, id: string)
    requires UniqueIds(xs, idOf)
    ensures UniqueIds(RemoveId(xs, idOf, id), idOf)
  {
    if xs != [] {
      var rest := RemoveId(xs[1..], idOf, id);
      assert UniqueIds(xs[1..], idOf) by {
        forall i, j | 0 <= i < j < |xs[1..]| ensures idOf(xs[1..][i]) != idOf(xs[1..][j]) {
          assert xs[1..][i] == xs[i + 1] && xs[1..][j] == xs[j + 1];
        }
      }
      RemoveIdKeepsUnique(xs[1..], idOf, id);
      if idOf(xs[0]) != id {
        var r := [xs[0]] + rest;
        forall i, j | 0 <= i < j < |r| ensures idOf(r[i]) != idOf(r[j]) {
          if i == 0 {
            assert r[j] in xs[1..];
            var k :| 0 <= k < |xs[1..]| && xs[1..][k] == r[j];
            assert xs[k + 1] == r[j];
          } else {
            assert r[i] == rest[i - 1] && r[j] == rest[j - 1];
          }
        }
      }
    }
  }

  /** Appending a record under an id not yet in the list keeps the ids unique. */
  lemma AppendKeepsUnique<T>(xs: seq<T>, idOf: T -> string, y: T)
    requires UniqueIds(xs, idOf) && idOf(y) !in Ids(xs, idOf)
    ensures UniqueIds(xs + [y], idOf)
  {
    var r := xs + [y];
    forall i, j | 0 <= i < j < |r| ensures idOf(r[i]) != idOf(r[j]) {
      if j == |xs| {
        assert Ids(xs, idOf)[i] == idOf(xs[i]);
      }
    }
  }

  /** `map(x => x.id === id ? y : x)`: each record with that id becomes `y`, every other stays put. */
  function ReplaceId<T>(xs: seq<T>, idOf: T -> string, id: string, y: T): (r: seq<T>)
    ensures |r| == |xs|
    ensures forall i :: 0 <= i < |xs| ==> r[i] == (if idOf(xs[i]) == id then y else xs[i])
  {
    if xs == [] then [] else [if idOf(xs[0]) == id then y else xs[0]] + ReplaceId(xs[1..], idOf, id, y)
  }

  /** A replacement that keeps the id leaves the id list, and so its uniqueness, as it was. */
  lemma ReplaceIdKeepsIds<T>(xs: seq<T>, idOf: T -> string, y: T)
    ensures Ids(ReplaceId(xs, idOf, idOf(y), y), idOf) == Ids(xs, idOf)
    ensures UniqueIds(xs, idOf) ==> UniqueIds(ReplaceId(xs, idOf, idOf(y), y), idOf)
  {
    var r := ReplaceId(xs, idOf, idOf(y), y);
    assert forall i :: 0 <= i < |xs| ==> idOf(r[i]) == idOf(xs[i]);
  }

  /**
   * With unique ids, replacing the id of the record at `k` is a point update at
   * `k`: nothing else changes.
   */
  lemma ReplaceIdIsPointUpdate<T>(xs: seq<T>, idOf: T -> string, k: nat, y: T)
    requires UniqueIds(xs, idOf) && k < |xs|
    ensures ReplaceId(xs, idOf, idOf(xs[k]), y) == xs[k := y]
  {
    var r := ReplaceId(xs, idOf, idOf(xs[k]), y);
    forall i | 0 <= i < |xs| ensures r[i] == xs[k := y][i] {
      if i != k {
        if i < k { assert idOf(xs[i]) != idOf(xs[k]); }
        else { assert idOf(xs[k]) != idOf(xs[i]); }
      }
    }
  }
}
