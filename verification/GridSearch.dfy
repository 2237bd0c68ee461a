/** The deterministic adversary's grid and the first-hit search over it (oat/adversaries/deterministic.py:22-66,
    oat/pipeline.py:36-71). */
module GridSearch {
  import opened Wrappers
  import opened Rb001
  import opened AxisOrder

  // ----- the product of the axes -----

  function Extended<T>(prefixes: seq<seq<T>>, pool: seq<T>): seq<seq<T>> {
    if prefixes == [] then []
    else Extended(prefixes[..|prefixes| - 1], pool) + EachAppended(prefixes[|prefixes| - 1], pool)
  }

  function EachAppended<T>(prefix: seq<T>, pool: seq<T>): (r: seq<seq<T>>)
    ensures |r| == |pool| && forall i :: 0 <= i < |pool| ==> r[i] == prefix + [pool[i]]
  {
    seq(|pool|, i requires 0 <= i < |pool| => prefix + [pool[i]])
  }

  /** `itertools.product`: nested loops, the last axis innermost. */
  function Product<T>(axes: seq<seq<T>>): seq<seq<T>> {
    if axes == [] then [[]] else Extended(Product(axes[..|axes| - 1]), axes[|axes| - 1])
  }

  ghost function Size<T>(axes: seq<seq<T>>): nat {
    if axes == [] then 1 else Size(axes[..|axes| - 1]) * |axes[|axes| - 1]|
  }

  ghost predicate NoEmptyAxis<T>(axes: seq<seq<T>>) {
    forall k :: 0 <= k < |axes| ==> axes[k] != []
  }

  /** The mixed-radix digits of `i`, last digit fastest. */
  ghost function Digits<T>(axes: seq<seq<T>>, i: nat): (ds: seq<nat>)
    requires NoEmptyAxis(axes)
    ensures |ds| == |axes| && forall k :: 0 <= k < |axes| ==> ds[k] < |axes[k]|
  {
    if axes == [] then []
    else
      var n := |axes[|axes| - 1]|;
      Digits(axes[..|axes| - 1], i / n) + [i % n]
  }

  ghost function Pick<T>(axes: seq<seq<T>>, ds: seq<nat>): seq<T>
    requires |ds| == |axes| && forall k :: 0 <= k < |axes| ==> ds[k] < |axes[k]|
  {
    seq(|axes|, k requires 0 <= k < |axes| => axes[k][ds[k]])
  }

  lemma Scale(a: nat, b: nat, n: nat)
    requires a <= b
    ensures a * n <= b * n
  {
    assert b * n == a * n + (b - a) * n;
  }

  /** Quotients and remainders are in order when the numbers are. */
  lemma QuotientsInOrder(p: nat, a: nat, q: nat, b: nat, n: nat)
    requires a < n && b < n && p * n + a <= q * n + b
    ensures p < q || (p == q && a <= b)
    ensures p == q && p * n + a < q * n + b ==> a < b
  {
    assert (q + 1) * n == q * n + n;
    if q < p {
      Scale(q + 1, p, n);
    }
  }

  lemma Division(q: nat, n: nat, r: nat)
    requires r < n
    ensures (q * n + r) / n == q && (q * n + r) % n == r
  {
    var x := q * n + r;
    DivisionAddsUp(x, n);
    QuotientsInOrder(x / n, x % n, q, r, n);
    QuotientsInOrder(q, r, x / n, x % n, n);
  }

  lemma QuotientOfIndex(i: nat, n: nat, size: nat)
    requires n > 0 && i < size * n
    ensures i / n < size
  {
    DivisionAddsUp(i, n);
    QuotientBelow(i / n, i % n, n, size);
  }

  lemma QuotientBelow(q: nat, r: nat, n: nat, size: nat)
    requires q * n + r < size * n
    ensures q < size
  {
    if size <= q {
      Scale(size, q, n);
    }
  }

  lemma DivisionAddsUp(x: nat, n: nat)
    requires n > 0
    ensures (x / n) * n + x % n == x && x % n < n
  {
  }

  lemma {:induction false} ExtendedAt<T>(prefixes: seq<seq<T>>, pool: seq<T>)
    requires pool != []
    ensures |Extended(prefixes, pool)| == |prefixes| * |pool|
    ensures forall i :: 0 <= i < |prefixes| * |pool| ==>
      0 <= i / |pool| < |prefixes| && Extended(prefixes, pool)[i] == prefixes[i / |pool|] + [pool[i % |pool|]]
  {
    if prefixes == [] {
    } else {
      var front, n := prefixes[..|prefixes| - 1], |pool|;
      ExtendedAt(front, pool);
      assert |prefixes| * n == |front| * n + n;
      forall i | 0 <= i < |prefixes| * n
        ensures 0 <= i / n < |prefixes|
        ensures Extended(prefixes, pool)[i] == prefixes[i / n] + [pool[i % n]]
      {
        if i >= |front| * n {
          Division(|front|, n, i - |front| * n);
        }
      }
    }
  }

  /** Every combination sits at the index its digits spell, and there are no others. */
  lemma {:induction false} ProductIsMixedRadix<T>(axes: seq<seq<T>>)
    requires NoEmptyAxis(axes)
    ensures |Product(axes)| == Size(axes) > 0
    ensures forall i :: 0 <= i < Size(axes) ==> Product(axes)[i] == Pick(axes, Digits(axes, i))
  {
    if axes == [] {
    } else {
      var front, pool := axes[..|axes| - 1], axes[|axes| - 1];
      ProductIsMixedRadix(front);
      ExtendedAt(Product(front), pool);
      forall i | 0 <= i < Size(axes) ensures Product(axes)[i] == Pick(axes, Digits(axes, i)) {
        PickLast(axes, i);
      }
    }
  }

  lemma PickLast<T>(axes: seq<seq<T>>, i: nat)
    requires NoEmptyAxis(axes) && axes != []
    ensures var front, pool := axes[..|axes| - 1], axes[|axes| - 1];
      Pick(axes, Digits(axes, i)) == Pick(front, Digits(front, i / |pool|)) + [pool[i % |pool|]]
  {
  }

  ghost function Rank<T>(axes: seq<seq<T>>, ds: seq<nat>): nat
    requires |ds| == |axes|
  {
    if axes == [] then 0
    else Rank(axes[..|axes| - 1], ds[..|ds| - 1]) * |axes[|axes| - 1]| + ds[|ds| - 1]
  }

  ghost predicate InRange<T>(axes: seq<seq<T>>, ds: seq<nat>) {
    |ds| == |axes| && forall k :: 0 <= k < |axes| ==> ds[k] < |axes[k]|
  }

  /** None missed: every tuple of digits has an index. */
  lemma {:induction false} EveryPointHasAnIndex<T>(axes: seq<seq<T>>, ds: seq<nat>)
    requires NoEmptyAxis(axes) && InRange(axes, ds)
    ensures Rank(axes, ds) < Size(axes) && Digits(axes, Rank(axes, ds)) == ds
  {
    if axes == [] {
    } else {
      var front, pool := axes[..|axes| - 1], axes[|axes| - 1];
      var before, last := ds[..|ds| - 1], ds[|ds| - 1];
      EveryPointHasAnIndex(front, before);
      var q := Rank(front, before);
      assert Rank(axes, ds) == q * |pool| + last;
      Composed(q, |pool|, last, Size(front));
      assert Digits(axes, Rank(axes, ds)) == Digits(front, q) + [last];
      assert ds == before + [last];
    }
  }

  lemma Composed(q: nat, n: nat, r: nat, size: nat)
    requires q < size && r < n
    ensures q * n + r < size * n && (q * n + r) / n == q && (q * n + r) % n == r
  {
    Division(q, n, r);
    Scale(q + 1, size, n);
    assert (q + 1) * n == q * n + n;
  }

  lemma LastDigit<T>(axes: seq<seq<T>>, i: nat)
    requires NoEmptyAxis(axes) && axes != []
    ensures var front, n, ds := axes[..|axes| - 1], |axes[|axes| - 1]|, Digits(axes, i);
      && ds == Digits(front, i / n) + [i % n]
      && ds[..|ds| - 1] == Digits(front, i / n) && ds[|ds| - 1] == i % n
  {
  }

  /** None repeated: the digits of an index give the index back. */
  lemma {:induction false} IndicesAreDistinct<T>(axes: seq<seq<T>>, i: nat)
    requires NoEmptyAxis(axes) && i < Size(axes)
    ensures Rank(axes, Digits(axes, i)) == i
  {
    if axes == [] {
    } else {
      var front, n := axes[..|axes| - 1], |axes[|axes| - 1]|;
      QuotientOfIndex(i, n, Size(front));
      IndicesAreDistinct(front, i / n);
      LastDigit(axes, i);
      DivisionAddsUp(i, n);
    }
  }

  ghost predicate Before(a: seq<nat>, b: seq<nat>) {
    exists k :: 0 <= k < |a| && k < |b| && a[..k] == b[..k] && a[k] < b[k]
  }

  /** The enumeration is in lexicographic order of the digits. */
  lemma EnumerationIsOrdered<T>(axes: seq<seq<T>>, i: nat, j: nat)
    requires NoEmptyAxis(axes) && i < j < Size(axes)
    ensures Before(Digits(axes, i), Digits(axes, j))
  {
    IndicesAreDistinct(axes, i);
    IndicesAreDistinct(axes, j);
    RankOrdersDigits(axes, Digits(axes, i), Digits(axes, j));
  }

  lemma {:induction false} RankOrdersDigits<T>(axes: seq<seq<T>>, ds: seq<nat>, es: seq<nat>)
    requires NoEmptyAxis(axes) && InRange(axes, ds) && InRange(axes, es) && Rank(axes, ds) < Rank(axes, es)
    ensures Before(ds, es)
  {
    if axes == [] {
    } else {
      var front, n := axes[..|axes| - 1], |axes[|axes| - 1]|;
      var a, x, b, y := ds[..|ds| - 1], ds[|ds| - 1], es[..|es| - 1], es[|es| - 1];
      QuotientsInOrder(Rank(front, a), x, Rank(front, b), y, n);
      if Rank(front, a) < Rank(front, b) {
        RankOrdersDigits(front, a, b);
      } else {
        RankIsInjective(front, a, b);
      }
      LastDigitBreaksTies(a, x, b, y);
      assert ds == a + [x] && es == b + [y];
    }
  }

  lemma RankIsInjective<T>(axes: seq<seq<T>>, ds: seq<nat>, es: seq<nat>)
    requires NoEmptyAxis(axes) && InRange(axes, ds) && InRange(axes, es) && Rank(axes, ds) == Rank(axes, es)
    ensures ds == es
  {
    EveryPointHasAnIndex(axes, ds);
    EveryPointHasAnIndex(axes, es);
  }

  lemma LastDigitBreaksTies(a: seq<nat>, x: nat, b: seq<nat>, y: nat)
    requires |a| == |b| && (Before(a, b) || (a == b && x < y))
    ensures Before(a + [x], b + [y])
  {
    var longer, other := a + [x], b + [y];
    if Before(a, b) {
      var k :| 0 <= k < |a| && k < |b| && a[..k] == b[..k] && a[k] < b[k];
      assert longer[..k] == a[..k] && other[..k] == b[..k];
      assert longer[k] < other[k];
    } else {
      assert longer[..|a|] == a && other[..|a|] == b;
      assert longer[|a|] < other[|a|];
    }
  }

  // ----- the adversary -----

  /** The dimensions in the order of their sorted names. */
  const NAMES: seq<string> := [
    "check_tick", "commit_offset", "duplicate_request", "propagation_delay", "retry_index", "revocation_tick"
  ]

  const DEFAULTS: seq<seq<int>> := [[10], [1], [0], [0], [0], [20]]

  /** What a search space holds under a name: a list of integers, or something else. */
  datatype Listed = NotAList | Listed(values: seq<int>)

  function ValuesOf(space: map<string, Listed>, k: nat): Listed
    requires k < 6
  {
    if NAMES[k] in space then space[NAMES[k]] else Listed(DEFAULTS[k])
  }

  /** The axes of a search space, each in the order of its values' printed forms; None when one is empty or no list. */
  function Axes(space: map<string, Listed>): (r: Option<seq<seq<int>>>)
    ensures r.Some? ==> |r.value| == 6 && NoEmptyAxis(r.value)
    ensures r.Some? ==>
      forall k :: 0 <= k < 6 ==> ValuesOf(space, k).Listed? && r.value[k] == SortByText(ValuesOf(space, k).values)
    ensures r.None? <==> exists k :: 0 <= k < 6 && ValuesOf(space, k) in {NotAList, Listed([])}
  {
    if exists k :: 0 <= k < 6 && ValuesOf(space, k) in {NotAList, Listed([])} then None
    else
      var axes := seq(6, k requires 0 <= k < 6 && ValuesOf(space, k).Listed? => SortByText(ValuesOf(space, k).values));
      assert NoEmptyAxis(axes) by {
        forall k | 0 <= k < 6 ensures axes[k] != [] {
          SortByTextSorts(ValuesOf(space, k).values);
        }
      }
      Some(axes)
  }

  /** Enumeration does not depend on the order in which a list was written. */
  lemma AxesIgnoreListing(space: map<string, Listed>, k: nat, values: seq<int>)
    requires k < 6 && ValuesOf(space, k).Listed? && multiset(values) == multiset(ValuesOf(space, k).values)
    ensures Axes(space[NAMES[k] := Listed(values)]) == Axes(space)
  {
    var other := space[NAMES[k] := Listed(values)];
    NamesDiffer(k);
    assert ValuesOf(other, k) == Listed(values);
    ListingOrderDoesNotMatter(values, ValuesOf(space, k).values);
    assert |values| == |multiset(values)| == |multiset(ValuesOf(space, k).values)| == |ValuesOf(space, k).values|;
    SameAxes(space, other);
  }

  /** Equally long lists with equal sorted values give equal axes. */
  lemma SameAxes(space: map<string, Listed>, other: map<string, Listed>)
    requires forall j :: 0 <= j < 6 ==>
      || ValuesOf(other, j) == ValuesOf(space, j)
      || (ValuesOf(space, j).Listed? && ValuesOf(other, j).Listed?
          && |ValuesOf(space, j).values| == |ValuesOf(other, j).values|
          && SortByText(ValuesOf(space, j).values) == SortByText(ValuesOf(other, j).values))
    ensures Axes(other) == Axes(space)
  {
    assert forall j :: 0 <= j < 6 ==>
      (ValuesOf(other, j) in {NotAList, Listed([])} <==> ValuesOf(space, j) in {NotAList, Listed([])});
    if Axes(space).Some? {
      assert Axes(other).value == Axes(space).value;
    }
  }

  lemma NamesDiffer(k: nat)
    requires k < 6
    ensures forall j :: 0 <= j < 6 && j != k ==> NAMES[j] != NAMES[k]
  {
    assert NAMES[0][1] == 'h' && NAMES[1][1] == 'o' && NAMES[2][1] == 'u' && NAMES[3][1] == 'r';
    assert |NAMES[4]| == 11 && |NAMES[5]| == 15;
    assert |NAMES[0]| == 10 && |NAMES[1]| == 13 && |NAMES[2]| == 17 && |NAMES[3]| == 17;
  }

  function PointOf(values: seq<int>): Variation
    requires |values| == 6
  {
    Variation(values[0], values[5], values[5] + values[1], values[3], values[4], values[2] != 0)
  }

  /** How many candidates come out: the cap is looked at only after a candidate has been handed over. */
  function Emitted(total: nat, cap: int): nat {
    var most := if cap < 1 then 1 else cap;
    if total < most then total else most
  }

  ghost function GridPoint(axes: seq<seq<int>>, i: nat): Variation
    requires |axes| == 6 && NoEmptyAxis(axes)
  {
    PointOf(Pick(axes, Digits(axes, i)))
  }

  /** What the adversary proposes: the points of the grid in mixed-radix order, up to the cap. */
  ghost function Grid(axes: seq<seq<int>>, cap: int): (points: seq<Variation>)
    requires |axes| == 6 && NoEmptyAxis(axes)
    ensures |points| == Emitted(Size(axes), cap)
    ensures forall i :: 0 <= i < |points| ==> points[i] == GridPoint(axes, i)
  {
    seq(Emitted(Size(axes), cap), i requires i >= 0 => GridPoint(axes, i))
  }

  /** What the adversary makes of a value of axis `k`: the duplicate-request axis is read as a truth value. */
  function Read(k: nat, value: int): int {
    if k == 2 && value != 0 then 1 else value
  }

  ghost predicate NoRepeats(k: nat, axis: seq<int>) {
    forall x, y :: 0 <= x < y < |axis| ==> Read(k, axis[x]) != Read(k, axis[y])
  }

  ghost predicate AxesDistinct(axes: seq<seq<int>>) {
    forall k :: 0 <= k < |axes| ==> NoRepeats(k, axes[k])
  }

  /** Two points are the same exactly when they read the same on every axis. */
  lemma SamePointIff(u: seq<int>, v: seq<int>)
    requires |u| == 6 && |v| == 6
    ensures PointOf(u) == PointOf(v) <==> forall k :: 0 <= k < 6 ==> Read(k, u[k]) == Read(k, v[k])
  {
    if PointOf(u) == PointOf(v) {
      assert u[0] == v[0] && u[5] == v[5] && u[1] == v[1] && u[3] == v[3] && u[4] == v[4];
      assert Read(2, u[2]) == Read(2, v[2]);
    } else {
      assert Read(0, u[0]) != Read(0, v[0]) || Read(1, u[1]) != Read(1, v[1]) || Read(2, u[2]) != Read(2, v[2])
        || Read(3, u[3]) != Read(3, v[3]) || Read(4, u[4]) != Read(4, v[4]) || Read(5, u[5]) != Read(5, v[5]);
    }
  }

  /** Places `x` and `y` of axis `k` read the same. */
  predicate Repeats(axes: seq<seq<int>>, k: nat, x: nat, y: nat) {
    k < |axes| && x < y < |axes[k]| && Read(k, axes[k][x]) == Read(k, axes[k][y])
  }

  /** Place `v` on axis `k`, the first place on every other. */
  function Only(k: nat, v: nat): (ds: seq<nat>)
    requires k < 6
    ensures |ds| == 6
  {
    [0, 0, 0, 0, 0, 0][k := v]
  }

  /** The index at which place `v` of axis `k` is first used. */
  ghost function FirstUse(axes: seq<seq<int>>, k: nat, v: nat): nat
    requires |axes| == 6 && k < 6
  {
    Rank(axes, Only(k, v))
  }

  lemma {:induction false} RankIsMonotone<T>(axes: seq<seq<T>>, ds: seq<nat>, es: seq<nat>)
    requires |ds| == |es| == |axes| && forall k :: 0 <= k < |ds| ==> ds[k] <= es[k]
    ensures Rank(axes, ds) <= Rank(axes, es)
  {
    if axes == [] {
    } else {
      var front, n := axes[..|axes| - 1], |axes[|axes| - 1]|;
      var before, after := ds[..|ds| - 1], es[..|es| - 1];
      RankIsMonotone(front, before, after);
      Scale(Rank(front, before), Rank(front, after), n);
    }
  }

  /** A point that comes back does so with a repeated value whose first use is no later. */
  lemma RepeatedPointRepeatsAValue(axes: seq<seq<int>>, i: nat, j: nat) returns (k: nat, x: nat, y: nat)
    requires |axes| == 6 && NoEmptyAxis(axes) && i < j < Size(axes) && GridPoint(axes, i) == GridPoint(axes, j)
    ensures Repeats(axes, k, x, y) && FirstUse(axes, k, y) <= j
  {
    var ds, es := Digits(axes, i), Digits(axes, j);
    EnumerationIsOrdered(axes, i, j);
    k :| 0 <= k < |ds| && k < |es| && ds[..k] == es[..k] && ds[k] < es[k];
    x, y := ds[k], es[k];
    SamePointIff(Pick(axes, ds), Pick(axes, es));
    assert Read(k, Pick(axes, ds)[k]) == Read(k, Pick(axes, es)[k]);
    RankIsMonotone(axes, Only(k, y), es);
    IndicesAreDistinct(axes, j);
  }

  /** A repeated value is one point at two indices: the first uses of its two places. */
  lemma RepeatedValueRepeatsAPoint(axes: seq<seq<int>>, k: nat, x: nat, y: nat)
    requires |axes| == 6 && NoEmptyAxis(axes) && Repeats(axes, k, x, y)
    ensures FirstUse(axes, k, x) < FirstUse(axes, k, y) < Size(axes)
    ensures GridPoint(axes, FirstUse(axes, k, x)) == GridPoint(axes, FirstUse(axes, k, y))
  {
    var ds, es := Only(k, x), Only(k, y);
    EveryPointHasAnIndex(axes, ds);
    EveryPointHasAnIndex(axes, es);
    assert ds[k] != es[k];
    RankIsMonotone(axes, ds, es);
    PlacesReadTheSame(axes, k, x, y);
  }

  lemma PlacesReadTheSame(axes: seq<seq<int>>, k: nat, x: nat, y: nat)
    requires |axes| == 6 && NoEmptyAxis(axes) && Repeats(axes, k, x, y)
    ensures PointOf(Pick(axes, Only(k, x))) == PointOf(Pick(axes, Only(k, y)))
  {
    var u, v := Pick(axes, Only(k, x)), Pick(axes, Only(k, y));
    forall j | 0 <= j < 6 ensures Read(j, u[j]) == Read(j, v[j]) {
      assert j != k ==> Only(k, x)[j] == Only(k, y)[j];
    }
    SamePointIff(u, v);
  }

  /** Among the first `m` points none comes twice. */
  ghost predicate DistinctBelow(axes: seq<seq<int>>, m: nat)
    requires |axes| == 6 && NoEmptyAxis(axes)
  {
    forall i, j :: 0 <= i < j < m ==> GridPoint(axes, i) != GridPoint(axes, j)
  }

  lemma DistinctBelowIff(axes: seq<seq<int>>, m: nat)
    requires |axes| == 6 && NoEmptyAxis(axes) && m <= Size(axes)
    ensures DistinctBelow(axes, m) <==> forall k, x, y :: Repeats(axes, k, x, y) ==> m <= FirstUse(axes, k, y)
  {
    if forall k, x, y :: Repeats(axes, k, x, y) ==> m <= FirstUse(axes, k, y) {
      forall i, j | 0 <= i < j < m ensures GridPoint(axes, i) != GridPoint(axes, j) {
        if GridPoint(axes, i) == GridPoint(axes, j) {
          var k, x, y := RepeatedPointRepeatsAValue(axes, i, j);
          assert false;
        }
      }
    } else {
      var k, x, y :| Repeats(axes, k, x, y) && FirstUse(axes, k, y) < m;
      RepeatedValueRepeatsAPoint(axes, k, x, y);
    }
  }

  /** No candidate is proposed twice exactly when the cap cuts off every repeated value before its first use. */
  lemma ProposalsAreDistinctIff(axes: seq<seq<int>>, cap: int)
    requires |axes| == 6 && NoEmptyAxis(axes)
    ensures var points := Grid(axes, cap);
      (forall i, j :: 0 <= i < j < |points| ==> points[i] != points[j]) <==>
      forall k, x, y :: Repeats(axes, k, x, y) ==> |points| <= FirstUse(axes, k, y)
  {
    DistinctBelowIff(axes, |Grid(axes, cap)|);
  }

  /** On the whole grid no point comes twice exactly when no axis repeats a value. */
  lemma PointsAreDistinctIff(axes: seq<seq<int>>)
    requires |axes| == 6 && NoEmptyAxis(axes)
    ensures DistinctBelow(axes, Size(axes)) <==> AxesDistinct(axes)
  {
    DistinctBelowIff(axes, Size(axes));
    if AxesDistinct(axes) {
      forall k: nat, x: nat, y: nat ensures !Repeats(axes, k, x, y) {
        assert k < |axes| ==> NoRepeats(k, axes[k]);
      }
    } else {
      var k :| 0 <= k < 6 && !NoRepeats(k, axes[k]);
      var x, y :| 0 <= x < y < |axes[k]| && Read(k, axes[k][x]) == Read(k, axes[k][y]);
      assert Repeats(axes, k, x, y);
      RepeatedValueRepeatsAPoint(axes, k, x, y);
    }
  }

  /** The whole grid goes out in order, up to the cap. */
  method Propose(axes: seq<seq<int>>, cap: int) returns (points: seq<Variation>)
    requires |axes| == 6 && NoEmptyAxis(axes)
    ensures points == Grid(axes, cap) != []
  {
    CombinationsAreGridPoints(axes);
    points := Yield(Product(axes), cap);
    assert |points| == |Grid(axes, cap)|;
  }

  /** Hands over one candidate after the other, and looks at the cap after each. */
  method Yield(combinations: seq<seq<int>>, cap: int) returns (points: seq<Variation>)
    requires forall i :: 0 <= i < |combinations| ==> |combinations[i]| == 6
    ensures |points| == Emitted(|combinations|, cap)
    ensures forall i :: 0 <= i < |points| ==> points[i] == PointOf(combinations[i])
  {
    points := [];
    var emitted := 0;
    while emitted < |combinations|
      invariant |points| == emitted <= |combinations|
      invariant emitted > 0 ==> emitted < cap
      invariant forall i :: 0 <= i < emitted ==> points[i] == PointOf(combinations[i])
    {
      var combination := combinations[emitted];
      points := points + [PointOf(combination)];
      emitted := emitted + 1;
      if emitted >= cap {
        return;
      }
    }
  }

  lemma CombinationsAreGridPoints(axes: seq<seq<int>>)
    requires |axes| == 6 && NoEmptyAxis(axes)
    ensures |Product(axes)| == Size(axes) > 0
    ensures forall i :: 0 <= i < Size(axes) ==>
      |Product(axes)[i]| == 6 && PointOf(Product(axes)[i]) == GridPoint(axes, i)
  {
    ProductIsMixedRadix(axes);
  }

  // ----- the search -----

  datatype Entry = Entry(index: nat, variation: Variation, effective: Status, counterexample: bool)

  datatype Found = Found(trace: Trace, evaluation: Evaluation, index: nat, transcript: seq<Entry>)

  ghost predicate Transcribes(s: Scenario, vs: seq<Variation>, transcript: seq<Entry>) {
    && |transcript| <= |vs|
    && forall i :: 0 <= i < |transcript| ==>
         transcript[i] == Entry(i, vs[i], EffectiveStatus(s.authority, vs[i].revocationTick, CommitTick(vs[i])),
                                Crosses(s, vs[i]))
  }

  /** The first candidate that crosses, with the transcript up to it; or candidate 0 and the whole transcript. */
  ghost predicate FirstHit(s: Scenario, vs: seq<Variation>, f: Found) {
    && f.index < |vs|
    && TraceOf(s, vs[f.index], f.trace)
    && Evaluate(f.trace) == Some(f.evaluation)
    && f.evaluation.Counterexample() == Crosses(s, vs[f.index])
    && Transcribes(s, vs, f.transcript)
    && (if exists i :: 0 <= i < |vs| && Crosses(s, vs[i]) then
          Crosses(s, vs[f.index]) && (forall i :: 0 <= i < f.index ==> !Crosses(s, vs[i]))
          && |f.transcript| == f.index + 1
        else f.index == 0 && |f.transcript| == |vs|)
  }

  /** None stands for the error of an adversary without candidates. */
  method Search(s: Scenario, vs: seq<Variation>) returns (r: Option<Found>)
    ensures r.None? <==> vs == []
    ensures r.Some? ==> FirstHit(s, vs, r.value)
  {
    var first: Option<Found> := None;
    var transcript: seq<Entry> := [];
    for index := 0 to |vs|
      invariant |transcript| == index && Transcribes(s, vs, transcript)
      invariant forall i :: 0 <= i < index ==> !Crosses(s, vs[i])
      invariant first.None? <==> index == 0
      invariant first.Some? ==>
        && first.value.index == 0 && TraceOf(s, vs[0], first.value.trace)
        && Evaluate(first.value.trace) == Some(first.value.evaluation) && !first.value.evaluation.Counterexample()
    {
      var v := vs[index];
      var trace := Execute(s, v);
      EvaluationMeans(s, v, trace);
      var evaluation := Evaluate(trace).value;
      transcript := transcript + [Entry(index, v, trace.effectiveAtCommit, evaluation.Counterexample())];
      if first.None? {
        first := Some(Found(trace, evaluation, index, []));
      }
      if evaluation.Counterexample() {
        return Some(Found(trace, evaluation, index, transcript));
      }
    }
    r := if first.None? then None else Some(first.value.(transcript := transcript));
  }

  /** A whole search of a scenario's space, in terms of ticks and digits alone. */
  method SearchScenario(s: Scenario, space: map<string, Listed>, cap: int) returns (r: Option<Found>)
    ensures r.None? <==> Axes(space).None?
    ensures r.Some? ==> FirstHit(s, Grid(Axes(space).value, cap), r.value)
    ensures r.Some? ==> FromSpace(space, r.value.trace.variation)
    ensures r.Some? ==> forall i :: 0 <= i < |r.value.transcript| ==> FromSpace(space, r.value.transcript[i].variation)
    ensures r.Some? && cap >= Size(Axes(space).value) ==>
      (r.value.evaluation.Counterexample() <==> exists v :: FromSpace(space, v) && Crosses(s, v))
  {
    var axes := Axes(space);
    if axes.None? {
      return None;
    }
    var points := Propose(axes.value, cap);
    r := Search(s, points);
    FoundIsOfSpace(s, space, cap, r.value);
  }

  lemma FoundIsOfSpace(s: Scenario, space: map<string, Listed>, cap: int, f: Found)
    requires Axes(space).Some? && FirstHit(s, Grid(Axes(space).value, cap), f)
    ensures FromSpace(space, f.trace.variation)
    ensures forall i :: 0 <= i < |f.transcript| ==> FromSpace(space, f.transcript[i].variation)
    ensures cap >= Size(Axes(space).value) ==>
      (f.evaluation.Counterexample() <==> exists v :: FromSpace(space, v) && Crosses(s, v))
  {
    var points := Grid(Axes(space).value, cap);
    GridIsOfSpace(space, cap);
    assert points[f.index] in points;
    forall i | 0 <= i < |f.transcript| ensures FromSpace(space, f.transcript[i].variation) {
      assert points[i] in points;
    }
    if cap >= Size(Axes(space).value) {
      UncappedSearchIsComplete(s, space, cap);
      HitMeansCounterexample(s, points, f);
    }
  }

  lemma HitMeansCounterexample(s: Scenario, points: seq<Variation>, f: Found)
    requires FirstHit(s, points, f)
    ensures f.evaluation.Counterexample() <==> exists i :: 0 <= i < |points| && Crosses(s, points[i])
  {
  }

  // ----- the grid, name by name -----

  /** `v` is a value that the space lists under `name`, or the default when it lists none. */
  ghost predicate Under(space: map<string, Listed>, name: string, default: int, v: int) {
    if name in space then space[name].Listed? && v in space[name].values else v == default
  }

  /** Every field of the variation is a choice under the name it goes by; the commit comes by its offset from the
      revocation, and the duplicate request by the truth of a value. */
  ghost predicate FromSpace(space: map<string, Listed>, v: Variation) {
    && Under(space, "check_tick", 10, v.checkTick)
    && Under(space, "revocation_tick", 20, v.revocationTick)
    && Under(space, "commit_offset", 1, v.commitTick - v.revocationTick)
    && Under(space, "propagation_delay", 0, v.propagationDelay)
    && Under(space, "retry_index", 0, v.retryIndex)
    && exists d :: Under(space, "duplicate_request", 0, d) && v.duplicateRequest == (d != 0)
  }

  /** The axes in the order of the names, each with the values listed under its name. */
  lemma AxesByName(space: map<string, Listed>, x: int)
    requires Axes(space).Some?
    ensures var axes := Axes(space).value;
      && (x in axes[0] <==> Under(space, "check_tick", 10, x))
      && (x in axes[1] <==> Under(space, "commit_offset", 1, x))
      && (x in axes[2] <==> Under(space, "duplicate_request", 0, x))
      && (x in axes[3] <==> Under(space, "propagation_delay", 0, x))
      && (x in axes[4] <==> Under(space, "retry_index", 0, x))
      && (x in axes[5] <==> Under(space, "revocation_tick", 20, x))
  {
    forall k | 0 <= k < 6 ensures x in Axes(space).value[k] <==> x in ValuesOf(space, k).values {
      SortingKeepsValues(ValuesOf(space, k).values, x);
    }
  }

  lemma SortingKeepsValues(values: seq<int>, x: int)
    ensures x in SortByText(values) <==> x in values
  {
    SortByTextSorts(values);
    assert x in SortByText(values) <==> x in multiset(SortByText(values));
    assert x in values <==> x in multiset(values);
  }

  /** Names are enumerated in their own order, the last one fastest. */
  lemma NamesAreSorted(i: nat, j: nat)
    requires i <= j < 6
    ensures TextLe(NAMES[i], NAMES[j])
  {
    if i == j {
      TextLeIsAnOrder(NAMES[i], NAMES[i], NAMES[i]);
    } else {
      NamesInOrder();
      var k := j - 1;
      NamesAreSorted(i, k);
      TextLeIsAnOrder(NAMES[i], NAMES[k], NAMES[j]);
    }
  }

  lemma NamesInOrder()
    ensures forall k :: 0 <= k < 5 ==> TextLe(NAMES[k], NAMES[k + 1])
  {
    assert TextLe("check_tick"[1..], "commit_offset"[1..]);
  }

  /** Everything on the grid is from the space. */
  lemma PointIsOfSpace(space: map<string, Listed>, i: nat)
    requires Axes(space).Some? && i < Size(Axes(space).value)
    ensures FromSpace(space, GridPoint(Axes(space).value, i))
  {
    var axes := Axes(space).value;
    var values := Pick(axes, Digits(axes, i));
    forall k | 0 <= k < 6 ensures values[k] in axes[k] {
    }
    AxesByName(space, values[0]);
    AxesByName(space, values[1]);
    AxesByName(space, values[2]);
    AxesByName(space, values[3]);
    AxesByName(space, values[4]);
    AxesByName(space, values[5]);
    assert Under(space, "duplicate_request", 0, values[2]);
  }

  lemma GridIsOfSpace(space: map<string, Listed>, cap: int)
    requires Axes(space).Some?
    ensures forall v :: v in Grid(Axes(space).value, cap) ==> FromSpace(space, v)
  {
    var points := Grid(Axes(space).value, cap);
    forall i | 0 <= i < |points| ensures FromSpace(space, points[i]) {
      PointIsOfSpace(space, i);
    }
  }

  /** A choice of one value on every axis is picked at some index. */
  lemma PickAnything(axes: seq<seq<int>>, values: seq<int>) returns (i: nat)
    requires |axes| == |values| == 6 && NoEmptyAxis(axes) && forall k :: 0 <= k < 6 ==> values[k] in axes[k]
    ensures i < Size(axes) && Pick(axes, Digits(axes, i)) == values
  {
    var ds: seq<nat> := [];
    for k := 0 to 6
      invariant |ds| == k && forall j :: 0 <= j < k ==> ds[j] < |axes[j]| && axes[j][ds[j]] == values[j]
    {
      var place := PlaceOf(axes[k], values[k]);
      ds := ds + [place];
    }
    EveryPointHasAnIndex(axes, ds);
    i := Rank(axes, ds);
    assert Pick(axes, ds) == values;
  }

  /** The values that a variation of the space takes on the axes. */
  lemma ChoiceOnAxes(space: map<string, Listed>, v: Variation) returns (values: seq<int>)
    requires Axes(space).Some? && FromSpace(space, v)
    ensures |values| == 6 && PointOf(values) == v
    ensures forall k :: 0 <= k < 6 ==> values[k] in Axes(space).value[k]
  {
    var d :| Under(space, "duplicate_request", 0, d) && v.duplicateRequest == (d != 0);
    AxesByName(space, v.checkTick);
    AxesByName(space, v.commitTick - v.revocationTick);
    AxesByName(space, d);
    AxesByName(space, v.propagationDelay);
    AxesByName(space, v.retryIndex);
    AxesByName(space, v.revocationTick);
    values :=
      [v.checkTick, v.commitTick - v.revocationTick, d, v.propagationDelay, v.retryIndex, v.revocationTick];
  }

  /** Every choice of named values is on the grid, at an index. */
  lemma ChoiceIsOnGrid(space: map<string, Listed>, v: Variation) returns (i: nat)
    requires Axes(space).Some? && FromSpace(space, v)
    ensures i < Size(Axes(space).value) && GridPoint(Axes(space).value, i) == v
  {
    var values := ChoiceOnAxes(space, v);
    i := PickAnything(Axes(space).value, values);
  }

  /** Uncapped, the search decides the whole space: some candidate crosses exactly when some choice of named values
      does. */
  lemma UncappedSearchIsComplete(s: Scenario, space: map<string, Listed>, cap: int)
    requires Axes(space).Some? && cap >= Size(Axes(space).value)
    ensures var points := Grid(Axes(space).value, cap);
      (exists i :: 0 <= i < |points| && Crosses(s, points[i])) <==> exists v :: FromSpace(space, v) && Crosses(s, v)
  {
    var points := Grid(Axes(space).value, cap);
    if v :| FromSpace(space, v) && Crosses(s, v) {
      var i := ChoiceIsOnGrid(space, v);
      assert points[i] == v;
    }
    if i :| 0 <= i < |points| && Crosses(s, points[i]) {
      PointIsOfSpace(space, i);
    }
  }
}
