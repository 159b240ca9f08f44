/** Database tables as sequences of rows: the row sums, filters and row-wise
    updates the rest of the model reads its tables with. */
module Tables {
  datatype Option<+T> = None | Some(value: T) {
    function GetOr(default: T): T {
      match this
      case None => default
      case Some(v) => v
    }
  }

  datatype Result<+T, +E> = Ok(value: T) | Err(error: E)

  function Max(a: int, b: int): int { if a >= b then a else b }

  /** Checks are made in order: the answer is that of the first one that fails, if one does. */
  predicate FirstFailing<F(==)>(answer: Option<F>, checks: seq<(bool, F)>) {
    match answer
    case None => forall k :: 0 <= k < |checks| ==> !checks[k].0
    case Some(f) =>
      exists k :: 0 <= k < |checks| && checks[k].0 && checks[k].1 == f && forall j :: 0 <= j < k ==> !checks[j].0
  }

  /** Two lists of checks made one after the other. */
  lemma CheckedBefore<F>(answer: Option<F>, first: seq<(bool, F)>, second: seq<(bool, F)>)
    requires if exists k :: 0 <= k < |first| && first[k].0 then answer.Some? && FirstFailing(answer, first)
             else FirstFailing(answer, second)
    ensures FirstFailing(answer, first + second)
  {
    var all := first + second;
    if answer.Some? {
      if exists k :: 0 <= k < |first| && first[k].0 {
        var k :| 0 <= k < |first| && first[k].0 && first[k].1 == answer.value && forall j :: 0 <= j < k ==> !first[j].0;
        assert all[k] == first[k];
      } else {
        var k :| 0 <= k < |second| && second[k].0 && second[k].1 == answer.value
                 && forall j :: 0 <= j < k ==> !second[j].0;
        assert all[|first| + k] == second[k];
      }
    }
  }

  function Failed<T, E>(r: Result<T, E>): Option<E> {
    match r
    case Ok(_) => None
    case Err(e) => Some(e)
  }

  // --- Aggregates -------------------------------------------------------

  /** SELECT SUM(w) over the table. */
  function Sum<T>(rows: seq<T>, w: T -> int): int {
    if rows == [] then 0 else Sum(rows[..|rows| - 1], w) + w(rows[|rows| - 1])
  }

  /** The rows that satisfy `keep`, in table order. */
  function Filter<T>(rows: seq<T>, keep: T -> bool): seq<T> {
    if rows == [] then []
    else
      var front := Filter(rows[..|rows| - 1], keep);
      if keep(rows[|rows| - 1]) then front + [rows[|rows| - 1]] else front
  }

  /** UPDATE of every row by `f`. */
  function MapRows<T, U>(rows: seq<T>, f: T -> U): (out: seq<U>)
    ensures |out| == |rows|
    ensures forall i :: 0 <= i < |rows| ==> out[i] == f(rows[i])
  {
    seq(|rows|, i requires 0 <= i < |rows| => f(rows[i]))
  }

  lemma SumAppend<T>(rows: seq<T>, x: T, w: T -> int)
    ensures Sum(rows + [x], w) == Sum(rows, w) + w(x)
  {
    assert (rows + [x])[..|rows|] == rows;
  }

  lemma {:induction false} SumConcat<T>(a: seq<T>, b: seq<T>, w: T -> int)
    ensures Sum(a + b, w) == Sum(a, w) + Sum(b, w)
  {
    if b == [] {
      assert a + b == a;
    } else {
      var init, last := b[..|b| - 1], b[|b| - 1];
      assert a + b == (a + init) + [last] && b == init + [last];
      SumConcat(a, init, w);
      SumAppend(a + init, last, w);
    }
  }

  /** Two tables with row-wise equal weights have equal sums. */
  lemma {:induction false} SumSame<T, U>(a: seq<T>, w: T -> int, b: seq<U>, v: U -> int)
    requires |a| == |b|
    requires forall i :: 0 <= i < |a| ==> w(a[i]) == v(b[i])
    ensures Sum(a, w) == Sum(b, v)
  {
    if a != [] {
      SumSame(a[..|a| - 1], w, b[..|b| - 1], v);
    }
  }

  /** Row-wise differences add up. */
  lemma {:induction false} SumSplit<T, U, V>(a: seq<T>, w: T -> int, b: seq<U>, v: U -> int, c: seq<V>, u: V -> int)
    requires |a| == |b| == |c|
    requires forall i :: 0 <= i < |a| ==> w(a[i]) == v(b[i]) + u(c[i])
    ensures Sum(a, w) == Sum(b, v) + Sum(c, u)
  {
    if a != [] {
      SumSplit(a[..|a| - 1], w, b[..|b| - 1], v, c[..|c| - 1], u);
    }
  }

  lemma {:induction false} SumLeq<T, U>(a: seq<T>, w: T -> int, b: seq<U>, v: U -> int)
    requires |a| == |b|
    requires forall i :: 0 <= i < |a| ==> w(a[i]) <= v(b[i])
    ensures Sum(a, w) <= Sum(b, v)
  {
    if a != [] {
      SumLeq(a[..|a| - 1], w, b[..|b| - 1], v);
    }
  }

  lemma {:induction false} SumZero<T>(rows: seq<T>, w: T -> int)
    requires forall i :: 0 <= i < |rows| ==> w(rows[i]) == 0
    ensures Sum(rows, w) == 0
  {
    if rows != [] { SumZero(rows[..|rows| - 1], w); }
  }

  lemma {:induction false} SumConst<T>(rows: seq<T>, w: T -> int, c: int)
    requires forall i :: 0 <= i < |rows| ==> w(rows[i]) == c
    ensures Sum(rows, w) == c * |rows|
  {
    if rows != [] { SumConst(rows[..|rows| - 1], w, c); }
  }

  /** A sum of non-negative weights is at least each of them. */
  lemma {:induction false} SumAtLeast<T>(rows: seq<T>, w: T -> int, i: nat)
    requires i < |rows|
    requires forall j :: 0 <= j < |rows| ==> w(rows[j]) >= 0
    ensures Sum(rows, w) >= w(rows[i]) >= 0
  {
    var init := rows[..|rows| - 1];
    SumNonNegative(init, w);
    if i < |init| {
      assert init[i] == rows[i];
      SumAtLeast(init, w, i);
    }
  }

  lemma {:induction false} SumNonNegative<T>(rows: seq<T>, w: T -> int)
    requires forall j :: 0 <= j < |rows| ==> w(rows[j]) >= 0
    ensures Sum(rows, w) >= 0
  {
    if rows != [] { SumNonNegative(rows[..|rows| - 1], w); }
  }

  /** Replacing one row moves the sum by the difference of the two weights. */
  lemma {:induction false} SumUpdate<T>(rows: seq<T>, w: T -> int, i: nat, x: T)
    requires i < |rows|
    ensures Sum(rows[i := x], w) == Sum(rows, w) - w(rows[i]) + w(x)
  {
    var n := |rows| - 1;
    if i == n {
      assert rows[i := x][..n] == rows[..n];
    } else {
      assert rows[i := x][..n] == rows[..n][i := x];
      SumUpdate(rows[..n], w, i, x);
    }
  }

  /** Deleting rows drops exactly their weights: summing `w` over the rows that
      stay is summing, over all of them, a `v` that is 0 on the deleted ones. */
  lemma {:induction false} SumFilter<T>(rows: seq<T>, keep: T -> bool, w: T -> int, v: T -> int)
    requires forall i :: 0 <= i < |rows| ==> v(rows[i]) == if keep(rows[i]) then w(rows[i]) else 0
    ensures Sum(Filter(rows, keep), w) == Sum(rows, v)
  {
    if rows != [] {
      var init := rows[..|rows| - 1];
      SumFilter(init, keep, w, v);
      SumAppend(Filter(init, keep), rows[|rows| - 1], w);
    }
  }

  /** Deleting rows of non-negative weight never raises a sum. */
  lemma SumFilterLeq<T>(rows: seq<T>, keep: T -> bool, w: T -> int)
    requires forall i :: 0 <= i < |rows| ==> w(rows[i]) >= 0
    ensures Sum(Filter(rows, keep), w) <= Sum(rows, w)
  {
    var v := (x: T) => if keep(x) then w(x) else 0;
    SumFilter(rows, keep, w, v);
    SumLeq(rows, v, rows, w);
  }

  /** Deleting a row lowers the sum by at least its weight. */
  lemma SumDelete<T>(rows: seq<T>, keep: T -> bool, w: T -> int, x: T)
    requires forall i :: 0 <= i < |rows| ==> w(rows[i]) >= 0
    requires x in rows && !keep(x)
    ensures Sum(Filter(rows, keep), w) + w(x) <= Sum(rows, w)
  {
    var v, u := (y: T) => if keep(y) then w(y) else 0, (y: T) => if keep(y) then 0 else w(y);
    SumFilter(rows, keep, w, v);
    SumSplit(rows, w, rows, v, rows, u);
    var i :| 0 <= i < |rows| && rows[i] == x;
    SumAtLeast(rows, u, i);
  }

  lemma {:induction false} FilterMember<T>(rows: seq<T>, keep: T -> bool, x: T)
    ensures x in Filter(rows, keep) <==> x in rows && keep(x)
  {
    if rows != [] {
      var init := rows[..|rows| - 1];
      FilterMember(init, keep, x);
      assert rows == init + [rows[|rows| - 1]];
    }
  }

  lemma FilterMembers<T(!new)>(rows: seq<T>, keep: T -> bool)
    ensures forall x :: x in Filter(rows, keep) <==> x in rows && keep(x)
  {
    forall x ensures x in Filter(rows, keep) <==> x in rows && keep(x) { FilterMember(rows, keep, x); }
  }

  lemma {:induction false} FilterKeepsAll<T>(rows: seq<T>, keep: T -> bool)
    requires forall i :: 0 <= i < |rows| ==> keep(rows[i])
    ensures Filter(rows, keep) == rows
  {
    if rows != [] { FilterKeepsAll(rows[..|rows| - 1], keep); }
  }

  lemma {:induction false} FilterConcat<T>(a: seq<T>, b: seq<T>, keep: T -> bool)
    ensures Filter(a + b, keep) == Filter(a, keep) + Filter(b, keep)
  {
    if b == [] {
      assert a + b == a;
    } else {
      var init := b[..|b| - 1];
      assert (a + b)[..|a + b| - 1] == a + init;
      FilterConcat(a, init, keep);
    }
  }

  lemma {:induction false} FilterNone<T>(rows: seq<T>, keep: T -> bool)
    requires forall i :: 0 <= i < |rows| ==> !keep(rows[i])
    ensures Filter(rows, keep) == []
  {
    if rows != [] { FilterNone(rows[..|rows| - 1], keep); }
  }

  /** Rows a filter keeps come from the table, any two of them in table order. */
  lemma {:induction false} FilterPair<T>(rows: seq<T>, keep: T -> bool, i: nat, j: nat) returns (a: nat, b: nat)
    requires i < j < |Filter(rows, keep)|
    ensures a < b < |rows| && rows[a] == Filter(rows, keep)[i] && rows[b] == Filter(rows, keep)[j]
  {
    var init := rows[..|rows| - 1];
    if j < |Filter(init, keep)| {
      a, b := FilterPair(init, keep, i, j);
    } else {
      FilterMember(init, keep, Filter(init, keep)[i]);
      a :| a < |init| && init[a] == Filter(init, keep)[i];
      b := |rows| - 1;
    }
  }

  // --- Keyed sums -------------------------------------------------------

  /** SUM over an id range. */
  function SumTo(n: nat, f: nat -> int): int {
    if n == 0 then 0 else SumTo(n - 1, f) + f(n - 1)
  }

  lemma {:induction false} SumToSplit(n: nat, f: nat -> int, g: nat -> int, h: nat -> int)
    requires forall i: nat :: i < n ==> f(i) == g(i) + h(i)
    ensures SumTo(n, f) == SumTo(n, g) + SumTo(n, h)
  {
    if n > 0 { SumToSplit(n - 1, f, g, h); }
  }

  lemma {:induction false} SumToSpike(n: nat, f: nat -> int, k: nat, c: int)
    requires forall i: nat :: i < n ==> f(i) == if i == k then c else 0
    ensures SumTo(n, f) == if k < n then c else 0
  {
    if n > 0 { SumToSpike(n - 1, f, k, c); }
  }

  /** Weights of the rows whose key is `k`. */
  function Keyed<T>(key: T -> nat, w: T -> int, k: nat): T -> int {
    (x: T) => if key(x) == k then w(x) else 0
  }

  /** The per-key sums of a table. */
  function GroupSum<T>(rows: seq<T>, key: T -> nat, w: T -> int): nat -> int {
    (k: nat) => Sum(rows, Keyed(key, w, k))
  }

  /** GROUP BY loses nothing: per-key sums over all keys add up to the whole. */
  lemma {:induction false} SumByKey<T>(rows: seq<T>, key: T -> nat, w: T -> int, n: nat)
    requires forall i :: 0 <= i < |rows| ==> key(rows[i]) < n
    ensures SumTo(n, GroupSum(rows, key, w)) == Sum(rows, w)
  {
    var f := GroupSum(rows, key, w);
    if rows == [] {
      SumToSpike(n, f, n, 0);
    } else {
      var init, last := rows[..|rows| - 1], rows[|rows| - 1];
      SumByKey(init, key, w, n);
      var h := (k: nat) => if k == key(last) then w(last) else 0;
      SumToSplit(n, f, GroupSum(init, key, w), h);
      SumToSpike(n, h, key(last), w(last));
    }
  }
}
