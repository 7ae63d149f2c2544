/** The array operations the portal applies to its lists: `filter`,
    `find` (as the index of the first match) and the count of a filter,
    with the order facts the store and the filters rely on. */
module Lists {
  import opened Wrappers

  /** `xs.filter(keep)`. */
  function Filter<T>(xs: seq<T>, keep: T -> bool): (r: seq<T>)
    ensures |r| <= |xs|
    ensures forall i :: 0 <= i < |r| ==> keep(r[i])
  {
    if xs == [] then [] else (if keep(xs[0]) then [xs[0]] else []) + Filter(xs[1..], keep)
  }

  /** `xs` is `ys` with some elements dropped, order kept. */
  predicate IsSubseq<T(==)>(xs: seq<T>, ys: seq<T>)
    decreases |ys|
  {
    xs == [] ||
    (ys != [] && ((xs[0] == ys[0] && IsSubseq(xs[1..], ys[1..])) || IsSubseq(xs, ys[1..])))
  }

  /** The index of the first element satisfying `p`, as `find` locates it. */
  function FindFirst<T>(xs: seq<T>, p: T -> bool): (r: Option<nat>)
    ensures r.None? ==> forall i :: 0 <= i < |xs| ==> !p(xs[i])
    ensures r.Some? ==> r.value < |xs| && p(xs[r.value])
    ensures r.Some? ==> forall i :: 0 <= i < r.value ==> !p(xs[i])
  {
    if xs == [] then None
    else if p(xs[0]) then Some(0)
    else
      match FindFirst(xs[1..], p)
      case None => None
      case Some(k) => Some(k + 1)
  }

  /** The filter keeps exactly the elements satisfying `keep`. */
  lemma {:induction false} FilterMembers<T>(xs: seq<T>, keep: T -> bool)
    ensures forall x :: x in Filter(xs, keep) <==> x in xs && keep(x)
  {
    if xs != [] {
      FilterMembers(xs[1..], keep);
      assert xs == [xs[0]] + xs[1..];
    }
  }

  /** The filter keeps the relative order of what it keeps. */
  lemma {:induction false} FilterOrdered<T>(xs: seq<T>, keep: T -> bool)
    ensures IsSubseq(Filter(xs, keep), xs)
  {
    if xs != [] {
      FilterOrdered(xs[1..], keep);
      var rest := Filter(xs[1..], keep);
      if keep(xs[0]) {
        assert ([xs[0]] + rest)[1..] == rest;
      } else {
        assert Filter(xs, keep) == rest;
      }
    }
  }

  /** A filter that keeps every element changes nothing. */
  lemma {:induction false} FilterKeepsAll<T>(xs: seq<T>, keep: T -> bool)
    requires forall i :: 0 <= i < |xs| ==> keep(xs[i])
    ensures Filter(xs, keep) == xs
  {
    if xs != [] {
      FilterKeepsAll(xs[1..], keep);
    }
  }

  /** Filtering distributes over concatenation. */
  lemma {:induction false} FilterAppend<T>(xs: seq<T>, ys: seq<T>, keep: T -> bool)
    ensures Filter(xs + ys, keep) == Filter(xs, keep) + Filter(ys, keep)
  {
    if xs == [] {
      assert xs + ys == ys;
    } else {
      assert (xs + ys)[0] == xs[0];
      assert (xs + ys)[1..] == xs[1..] + ys;
      FilterAppend(xs[1..], ys, keep);
    }
  }

  /** The number of elements satisfying `p`, `xs.filter(p).length`. */
  function Count<T>(xs: seq<T>, p: T -> bool): (r: nat)
    ensures r <= |xs|
  {
    |Filter(xs, p)|
  }

  /** Putting one element in front raises the count by one exactly when
      the element is counted. */
  lemma CountPrepend<T>(x: T, xs: seq<T>, p: T -> bool)
    ensures Count([x] + xs, p) == Count(xs, p) + (if p(x) then 1 else 0)
  {
    assert ([x] + xs)[1..] == xs;
  }

  /** The pieces of the elements joined in order, as a loop that appends
      `piece(x)` for each `x` builds it. */
  function ConcatMap<T, U>(xs: seq<T>, piece: T -> seq<U>): seq<U>
  {
    if xs == [] then [] else ConcatMap(xs[..|xs| - 1], piece) + piece(xs[|xs| - 1])
  }

  /** Joining two lists joins their pieces. */
  lemma {:induction false} ConcatMapAppend<T, U>(xs: seq<T>, ys: seq<T>, piece: T -> seq<U>)
    ensures ConcatMap(xs + ys, piece) == ConcatMap(xs, piece) + ConcatMap(ys, piece)
    decreases |ys|
  {
    if ys == [] {
      assert xs + ys == xs;
    } else {
      var zs := xs + ys;
      assert zs[..|zs| - 1] == xs + ys[..|ys| - 1];
      ConcatMapAppend(xs, ys[..|ys| - 1], piece);
    }
  }

  /** Element `i`'s piece sits between the pieces before it and those after. */
  lemma {:induction false} ConcatMapAt<T, U>(xs: seq<T>, i: nat, piece: T -> seq<U>)
    requires i < |xs|
    ensures ConcatMap(xs, piece) == ConcatMap(xs[..i], piece) + piece(xs[i]) + ConcatMap(xs[i + 1..], piece)
    decreases |xs|
  {
    var n := |xs|;
    var init := xs[..n - 1];
    if i == n - 1 {
      assert xs[i + 1..] == [];
    } else {
      ConcatMapAt(init, i, piece);
      assert init[..i] == xs[..i];
      assert init[i + 1..] == xs[i + 1..n - 1];
      var rest := xs[i + 1..];
      assert rest[..|rest| - 1] == xs[i + 1..n - 1];
      assert rest[|rest| - 1] == xs[n - 1];
    }
  }

  // ---------------------------------------------------------------------
  // A stable sort
  // ---------------------------------------------------------------------

  /** Of any two elements one may stand before the other. */
  ghost predicate Total<T(!new)>(le: (T, T) -> bool)
  {
    forall a, b :: le(a, b) || le(b, a)
  }

  /** Every neighbouring pair is in order. */
  predicate Sorted<T>(xs: seq<T>, le: (T, T) -> bool)
  {
    forall i :: 0 <= i < |xs| - 1 ==> le(xs[i], xs[i + 1])
  }

  /** `x` placed before the first element it may precede: before the
      elements it ties with, after those that must precede it. */
  function Insert<T>(x: T, ys: seq<T>, le: (T, T) -> bool): seq<T>
  {
    if ys == [] || le(x, ys[0]) then [x] + ys else [ys[0]] + Insert(x, ys[1..], le)
  }

  /** Insertion sort from the back: each element goes in front of the
      sorted rest, ahead of the later elements it ties with. */
  function InsertionSort<T>(xs: seq<T>, le: (T, T) -> bool): seq<T>
  {
    if xs == [] then [] else Insert(xs[0], InsertionSort(xs[1..], le), le)
  }

  lemma {:induction false} InsertPermutes<T>(x: T, ys: seq<T>, le: (T, T) -> bool)
    ensures multiset(Insert(x, ys, le)) == multiset(ys) + multiset{x}
    ensures |Insert(x, ys, le)| == |ys| + 1
  {
    if ys != [] && !le(x, ys[0]) {
      InsertPermutes(x, ys[1..], le);
      assert ys == [ys[0]] + ys[1..];
    }
  }

  lemma {:induction false} InsertHead<T>(x: T, ys: seq<T>, le: (T, T) -> bool)
    ensures Insert(x, ys, le) != []
    ensures Insert(x, ys, le)[0] == x || (ys != [] && Insert(x, ys, le)[0] == ys[0])
  {
  }

  lemma {:induction false} InsertSorted<T(!new)>(x: T, ys: seq<T>, le: (T, T) -> bool)
    requires Total(le) && Sorted(ys, le)
    ensures Sorted(Insert(x, ys, le), le)
  {
    if ys == [] || le(x, ys[0]) {
      var r := [x] + ys;
      forall i | 0 <= i < |r| - 1 ensures le(r[i], r[i + 1]) {
        if i > 0 {
          assert r[i] == ys[i - 1] && r[i + 1] == ys[i];
        }
      }
    } else {
      var tail := ys[1..];
      assert Sorted(tail, le) by {
        forall i | 0 <= i < |tail| - 1 ensures le(tail[i], tail[i + 1]) {
          assert tail[i] == ys[i + 1] && tail[i + 1] == ys[i + 2];
        }
      }
      InsertSorted(x, tail, le);
      InsertHead(x, tail, le);
      var rest := Insert(x, tail, le);
      var r := [ys[0]] + rest;
      assert le(ys[0], x);
      forall i | 0 <= i < |r| - 1 ensures le(r[i], r[i + 1]) {
        if i == 0 {
          if rest[0] != x {
            assert rest[0] == ys[1];
          }
        } else {
          assert r[i] == rest[i - 1] && r[i + 1] == rest[i];
        }
      }
    }
  }

  /** The sort is a permutation of its input, in order. */
  lemma {:induction false} InsertionSortLaws<T(!new)>(xs: seq<T>, le: (T, T) -> bool)
    requires Total(le)
    ensures multiset(InsertionSort(xs, le)) == multiset(xs)
    ensures |InsertionSort(xs, le)| == |xs|
    ensures Sorted(InsertionSort(xs, le), le)
  {
    if xs != [] {
      InsertionSortLaws(xs[1..], le);
      InsertPermutes(xs[0], InsertionSort(xs[1..], le), le);
      InsertSorted(xs[0], InsertionSort(xs[1..], le), le);
      assert xs == [xs[0]] + xs[1..];
    }
  }

  /** `le` chains: a ≤ b and b ≤ c give a ≤ c. */
  ghost predicate Transitive<T(!new)>(le: (T, T) -> bool)
  {
    forall a, b, c :: le(a, b) && le(b, c) ==> le(a, c)
  }

  /** The elements that tie with `k` both ways. */
  function TieWith<T>(le: (T, T) -> bool, k: T): T -> bool
  {
    (y: T) => le(y, k) && le(k, y)
  }

  /** Inserting `x` keeps the elements of each tie class, `x` included,
      in the order of `[x] + ys`. */
  lemma {:induction false} InsertKeepsTies<T(!new)>(x: T, ys: seq<T>, le: (T, T) -> bool, k: T)
    requires Transitive(le)
    ensures Filter(Insert(x, ys, le), TieWith(le, k)) == Filter([x] + ys, TieWith(le, k))
  {
    var p := TieWith(le, k);
    if ys != [] && !le(x, ys[0]) {
      var y, tail := ys[0], ys[1..];
      var rest := Insert(x, tail, le);
      InsertKeepsTies(x, tail, le, k);
      assert Insert(x, ys, le) == [y] + rest;
      FilterAppend([y], rest, p);
      FilterAppend([x], tail, p);
      assert [x] + ys == ([x] + [y]) + tail;
      FilterAppend([x] + [y], tail, p);
      assert !(p(x) && p(y));
      SwapUntied(x, y, p);
    }
  }

  /** Two elements of which at most one is kept filter the same in
      either order. */
  lemma SwapUntied<T>(a: T, b: T, p: T -> bool)
    requires !(p(a) && p(b))
    ensures Filter([a] + [b], p) == Filter([b], p) + Filter([a], p)
  {
    FilterAppend([a], [b], p);
  }

  /** The sort is stable: of the elements that tie with any `k`, the
      earlier in the input comes earlier in the output. */
  lemma {:induction false} InsertionSortStable<T(!new)>(xs: seq<T>, le: (T, T) -> bool, k: T)
    requires Transitive(le)
    ensures Filter(InsertionSort(xs, le), TieWith(le, k)) == Filter(xs, TieWith(le, k))
  {
    if xs != [] {
      var p := TieWith(le, k);
      var sorted := InsertionSort(xs[1..], le);
      InsertionSortStable(xs[1..], le, k);
      InsertKeepsTies(xs[0], sorted, le, k);
      FilterAppend([xs[0]], sorted, p);
      FilterAppend([xs[0]], xs[1..], p);
      assert xs == [xs[0]] + xs[1..];
    }
  }
}
