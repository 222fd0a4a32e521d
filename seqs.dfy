/**
 * Sequence operations that the keyword scorer and the list editors are built
 * from: JavaScript's `indexOf`, the "keep the first occurrence" filter, the
 * iteration order of a `Set` built from an array, `join` and `filter`.
 */
module Seqs {

  /** No element occurs twice. */
  ghost predicate Distinct<T>(xs: seq<T>) {
    forall i, j :: 0 <= i < j < |xs| ==> xs[i] != xs[j]
  }

  /** A duplicate-free list has as many elements as its set of values. */
  lemma {:induction false} DistinctSize<T>(xs: seq<T>)
    requires Distinct(xs)
    ensures |set x | x in xs| == |xs|
  {
    if xs != [] {
      assert Distinct(xs[1..]) by {
        forall i, j | 0 <= i < j < |xs[1..]| ensures xs[1..][i] != xs[1..][j] {
          assert xs[1..][i] == xs[i + 1] && xs[1..][j] == xs[j + 1];
        }
      }
      DistinctSize(xs[1..]);
      assert xs[0] !in xs[1..];
      assert (set x | x in xs) == {xs[0]} + (set x | x in xs[1..]);
    }
  }

  /**
   * `a` can be obtained from `b` by deleting elements, keeping the order of the
   * rest (greedy matching decides this exactly).
   */
  predicate Subsequence<T(==)>(a: seq<T>, b: seq<T>)
    decreases |b|
  {
    if a == [] then true
    else if b == [] then false
    else if a[0] == b[0] then Subsequence(a[1..], b[1..])
    else Subsequence(a, b[1..])
  }

  /** Appending to the larger list keeps a subsequence. */
  lemma {:induction false} SubsequenceSnocRight<T>(a: seq<T>, b: seq<T>, x: T)
    requires Subsequence(a, b)
    ensures Subsequence(a, b + [x])
    decreases |b|
  {
    if a != [] {
      assert (b + [x])[0] == b[0] && (b + [x])[1..] == b[1..] + [x];
      if a[0] == b[0] {
        SubsequenceSnocRight(a[1..], b[1..], x);
      } else {
        SubsequenceSnocRight(a, b[1..], x);
      }
    }
  }

  /** Appending the same element to both lists keeps a subsequence. */
  lemma {:induction false} SubsequenceSnoc<T>(a: seq<T>, b: seq<T>, x: T)
    requires Subsequence(a, b)
    ensures Subsequence(a + [x], b + [x])
    decreases |b|
  {
    var a', b' := a + [x], b + [x];
    if b == [] {
      assert a == [] && a' == b';
      assert a'[1..] == [] && b'[1..] == [];
    } else {
      assert b'[0] == b[0] && b'[1..] == b[1..] + [x];
      if a == [] {
        if b[0] != x {
          assert Subsequence([], b[1..]);
          SubsequenceSnoc([], b[1..], x);
          assert [] + [x] == a';
        } else {
          assert a'[1..] == [];
        }
      } else {
        assert a'[0] == a[0] && a'[1..] == a[1..] + [x];
        if a[0] == b[0] {
          SubsequenceSnoc(a[1..], b[1..], x);
        } else {
          SubsequenceSnoc(a, b[1..], x);
        }
      }
    }
  }

  /** The entries `keep` accepts, in list order. */
  function Filter<T(!new)>(xs: seq<T>, keep: T -> bool): (r: seq<T>)
    ensures forall x :: x in r <==> x in xs && keep(x)
    ensures Subsequence(r, xs)
    ensures forall x :: multiset(r)[x] == if keep(x) then multiset(xs)[x] else 0
  {
    if xs == [] then []
    else
      var init, last := xs[..|xs| - 1], xs[|xs| - 1];
      var rest := Filter(init, keep);
      assert xs == init + [last];
      if keep(last) then
        SubsequenceSnoc(rest, init, last);
        rest + [last]
      else
        SubsequenceSnocRight(rest, init, last);
        rest
  }

  /** `Array.prototype.indexOf`: the index of the first occurrence, or -1. */
  function IndexOf<T(==)>(xs: seq<T>, x: T): (r: int)
    ensures -1 <= r < |xs|
    ensures r == -1 <==> x !in xs
    ensures 0 <= r ==> xs[r] == x && x !in xs[..r]
  {
    if xs == [] then -1
    else if xs[0] == x then 0
    else
      var k := IndexOf(xs[1..], x);
      if k == -1 then -1
      else
        assert xs[..k + 1] == [xs[0]] + xs[1..][..k];
        k + 1
  }

  /**
   * The elements `xs[i]`, `k <= i`, that are the first occurrence of their value:
   * `filter((w, i, arr) => arr.indexOf(w) === i)` started at index `k`.
   */
  function FirstOccurrencesFrom<T(==,!new)>(xs: seq<T>, k: nat): (r: seq<T>)
    requires k <= |xs|
    decreases |xs| - k
    ensures forall x :: x in r <==> x in xs && k <= IndexOf(xs, x)
    ensures forall i, j :: 0 <= i < j < |r| ==> IndexOf(xs, r[i]) < IndexOf(xs, r[j])
  {
    if k == |xs| then []
    else
      var rest := FirstOccurrencesFrom(xs, k + 1);
      if IndexOf(xs, xs[k]) == k then [xs[k]] + rest else rest
  }

  /**
   * De-duplication keeping each value at its first occurrence. This is also the
   * iteration order of `new Set(xs)`, which is insertion order.
   */
  function KeepFirst<T(==,!new)>(xs: seq<T>): (r: seq<T>)
    ensures Distinct(r)
    ensures forall x :: x in r <==> x in xs
    ensures forall i, j :: 0 <= i < j < |r| ==> IndexOf(xs, r[i]) < IndexOf(xs, r[j])
  {
    FirstOccurrencesFrom(xs, 0)
  }

  /** In a sequence without duplicates every element is its own first occurrence. */
  lemma IndexOfDistinct<T>(xs: seq<T>, k: nat)
    requires Distinct(xs) && k < |xs|
    ensures IndexOf(xs, xs[k]) == k
  {
    var p := IndexOf(xs, xs[k]);
    assert xs[p] == xs[k];
  }

  /** On a sequence without duplicates the first-occurrence filter keeps everything. */
  lemma {:induction false} FirstOccurrencesOfDistinct<T(!new)>(xs: seq<T>, k: nat)
    requires Distinct(xs) && k <= |xs|
    decreases |xs| - k
    ensures FirstOccurrencesFrom(xs, k) == xs[k..]
  {
    if k < |xs| {
      IndexOfDistinct(xs, k);
      calc {
        FirstOccurrencesFrom(xs, k);
        [xs[k]] + FirstOccurrencesFrom(xs, k + 1);
        { FirstOccurrencesOfDistinct(xs, k + 1); }
        [xs[k]] + xs[k + 1..];
        xs[k..];
      }
    }
  }

  /** `[...new Set(xs)]` is `xs` itself when `xs` has no duplicates. */
  lemma KeepFirstOfDistinct<T(!new)>(xs: seq<T>)
    requires Distinct(xs)
    ensures KeepFirst(xs) == xs
  {
    FirstOccurrencesOfDistinct(xs, 0);
  }

  /** De-duplicating twice is de-duplicating once. */
  lemma KeepFirstIdempotent<T(!new)>(xs: seq<T>)
    ensures KeepFirst(KeepFirst(xs)) == KeepFirst(xs)
  {
    KeepFirstOfDistinct(KeepFirst(xs));
  }

  /** Appending an element leaves the first occurrences of earlier values where they were. */
  lemma IndexOfSnoc<T>(xs: seq<T>, x: T, y: T)
    ensures y in xs ==> IndexOf(xs + [x], y) == IndexOf(xs, y)
    ensures y !in xs && y == x ==> IndexOf(xs + [x], y) == |xs|
  {
    var ys := xs + [x];
    if y in xs {
      var p := IndexOf(xs, y);
      assert ys[p] == y;
      assert ys[..p] == xs[..p];
    } else if y == x {
      assert ys[|xs|] == y;
      assert ys[..|xs|] == xs;
    }
  }

  /** The summed lengths of the strings. */
  function TotalLength(xs: seq<string>): nat {
    if xs == [] then 0 else |xs[0]| + TotalLength(xs[1..])
  }

  /** `Array.prototype.join(sep)`. */
  function Join(xs: seq<string>, sep: string): (r: string)
    ensures xs == [] ==> r == ""
    ensures xs != [] ==> |r| == TotalLength(xs) + (|xs| - 1) * |sep|
    ensures xs != [] ==> r[..|xs[0]|] == xs[0]
  {
    if xs == [] then ""
    else if |xs| == 1 then xs[0]
    else
      var rest := Join(xs[1..], sep);
      assert |rest| == TotalLength(xs[1..]) + (|xs| - 2) * |sep|;
      assert (|xs| - 1) * |sep| == (|xs| - 2) * |sep| + |sep|;
      xs[0] + sep + rest
  }

  /** Joining one more item appends the separator and that item. */
  lemma {:induction false} JoinSnoc(xs: seq<string>, y: string, sep: string)
    requires xs != []
    ensures Join(xs + [y], sep) == Join(xs, sep) + sep + y
  {
    var ys := xs + [y];
    assert ys[0] == xs[0] && ys[1..] == xs[1..] + [y];
    if |xs| > 1 {
      JoinSnoc(xs[1..], y, sep);
      calc {
        Join(ys, sep);
        xs[0] + sep + Join(xs[1..] + [y], sep);
        xs[0] + sep + (Join(xs[1..], sep) + sep + y);
        { SeqAssoc(xs[0] + sep, Join(xs[1..], sep), sep + y); }
        (xs[0] + sep + Join(xs[1..], sep)) + sep + y;
      }
    } else {
      assert ys[1..] == [y];
    }
  }

  /** Concatenation is associative. */
  lemma SeqAssoc<T>(a: seq<T>, b: seq<T>, c: seq<T>)
    ensures a + (b + c) == (a + b) + c
  {
  }

  /**
   * `s.split(", ")`: the pieces between the occurrences of ", ", found left to
   * right without overlap.
   */
  function SplitAtCommaSpace(s: string): (r: seq<string>)
    ensures |r| >= 1
  {
    if s == [] then [""]
    else if |s| >= 2 && s[0] == ',' && s[1] == ' ' then [""] + SplitAtCommaSpace(s[2..])
    else
      var rest := SplitAtCommaSpace(s[1..]);
      [[s[0]] + rest[0]] + rest[1..]
  }

  /** A comma-free prefix joins the first piece. */
  lemma {:induction false} SplitAtCommaSpacePrefix(w: string, t: string)
    requires ',' !in w
    ensures var r := SplitAtCommaSpace(t);
            SplitAtCommaSpace(w + t) == [w + r[0]] + r[1..]
  {
    if w != [] {
      var s := w + t;
      assert s[0] == w[0] && s[1..] == w[1..] + t;
      assert ',' !in w[1..] by { assert forall k :: 0 <= k < |w[1..]| ==> w[1..][k] == w[k + 1]; }
      SplitAtCommaSpacePrefix(w[1..], t);
      assert [w[0]] + (w[1..] + SplitAtCommaSpace(t)[0]) == w + SplitAtCommaSpace(t)[0];
    } else {
      var r := SplitAtCommaSpace(t);
      assert w + t == t && w + r[0] == r[0];
      assert [r[0]] + r[1..] == r;
    }
  }

  /** A comma-free word, ", " and a rest: the word is the first piece. */
  lemma SplitAtCommaSpaceCons(w: string, t: string)
    requires ',' !in w
    ensures SplitAtCommaSpace(w + ", " + t) == [w] + SplitAtCommaSpace(t)
  {
    var t' := ", " + t;
    assert t'[0] == ',' && t'[1] == ' ' && t'[2..] == t;
    assert SplitAtCommaSpace(t') == [""] + SplitAtCommaSpace(t);
    SplitAtCommaSpacePrefix(w, t');
    assert w + "" == w;
    assert w + ", " + t == w + t';
  }

  lemma JoinCons(x: string, xs: seq<string>, sep: string)
    requires xs != []
    ensures Join([x] + xs, sep) == x + sep + Join(xs, sep)
  {
    assert ([x] + xs)[1..] == xs;
  }

  /** Splitting at ", " undoes joining with ", " when no item holds a comma. */
  lemma {:induction false} SplitJoinCommaSpace(xs: seq<string>)
    requires xs != []
    requires forall x :: x in xs ==> ',' !in x
    ensures SplitAtCommaSpace(Join(xs, ", ")) == xs
  {
    assert xs[0] in xs;
    if |xs| == 1 {
      SplitAtCommaSpacePrefix(xs[0], "");
      assert xs[0] + "" == xs[0];
    } else {
      assert forall x :: x in xs[1..] ==> x in xs;
      SplitJoinCommaSpace(xs[1..]);
      assert [xs[0]] + xs[1..] == xs;
      JoinCons(xs[0], xs[1..], ", ");
      SplitAtCommaSpaceCons(xs[0], Join(xs[1..], ", "));
    }
  }

  /** `xs.slice(0, n)`. */
  function Take<T>(xs: seq<T>, n: nat): (r: seq<T>)
    ensures |r| == if n < |xs| then n else |xs|
    ensures r == xs[..|r|]
  {
    if n < |xs| then xs[..n] else xs
  }
}
