/** The order in which the adversary takes the values of an axis: by their printed form
    (oat/adversaries/deterministic.py:41-49), so that the order of listing does not matter. */
module AxisOrder {
  import opened Wrappers

  /** `repr` of an integer. */
  function Repr(v: int): string {
    if v < 0 then "-" + Decimal(-v) else Decimal(v)
  }

  predicate TextLe(a: string, b: string) {
    a == "" || (b != "" && (a[0] < b[0] || (a[0] == b[0] && TextLe(a[1..], b[1..]))))
  }

  predicate Le(x: int, y: int) {
    TextLe(Repr(x), Repr(y))
  }

  function Insert(sorted: seq<int>, v: int): seq<int> {
    if sorted == [] || Le(sorted[|sorted| - 1], v) then sorted + [v]
    else Insert(sorted[..|sorted| - 1], v) + [sorted[|sorted| - 1]]
  }

  /** `sorted(values, key=repr)`. */
  function SortByText(values: seq<int>): seq<int> {
    if values == [] then [] else Insert(SortByText(values[..|values| - 1]), values[|values| - 1])
  }

  // ----- the order on texts -----

  lemma {:induction false} TextLeIsAnOrder(a: string, b: string, c: string)
    ensures TextLe(a, b) || TextLe(b, a)
    ensures TextLe(a, b) && TextLe(b, a) ==> a == b
    ensures TextLe(a, b) && TextLe(b, c) ==> TextLe(a, c)
  {
    if a == "" || b == "" {
    } else {
      TextLeIsAnOrder(a[1..], b[1..], if c == "" then "" else c[1..]);
      assert a == [a[0]] + a[1..] && b == [b[0]] + b[1..];
    }
  }

  lemma {:induction false} DecimalIsInjective(m: nat, n: nat)
    requires Decimal(m) == Decimal(n)
    ensures m == n
  {
    DigitsDiffer(m % 10, n % 10);
    assert Decimal(m)[|Decimal(m)| - 1] == "0123456789"[m % 10];
    assert Decimal(n)[|Decimal(n)| - 1] == "0123456789"[n % 10];
    if m < 10 || n < 10 {
      assert |Decimal(m / 10)| > 0 && |Decimal(n / 10)| > 0;
    } else {
      assert Decimal(m)[..|Decimal(m)| - 1] == Decimal(m / 10) && Decimal(n)[..|Decimal(n)| - 1] == Decimal(n / 10);
      DecimalIsInjective(m / 10, n / 10);
    }
  }

  lemma DigitsDiffer(i: nat, j: nat)
    requires i < 10 && j < 10
    ensures "0123456789"[i] == "0123456789"[j] <==> i == j
  {
    DigitCode(i);
    DigitCode(j);
  }

  lemma DigitCode(i: nat)
    requires i < 10
    ensures "0123456789"[i] as int == '0' as int + i
  {
  }

  lemma {:induction false} DecimalStartsWithADigit(n: nat)
    ensures Decimal(n) != "" && Decimal(n)[0] != '-'
  {
    DigitCode(n % 10);
    if n < 10 {
    } else {
      DecimalStartsWithADigit(n / 10);
    }
  }

  lemma LeIsAnOrder(x: int, y: int, z: int)
    ensures Le(x, y) || Le(y, x)
    ensures Le(x, y) && Le(y, x) ==> x == y
    ensures Le(x, y) && Le(y, z) ==> Le(x, z)
  {
    TextLeIsAnOrder(Repr(x), Repr(y), Repr(z));
    if Repr(x) == Repr(y) {
      ReprIsInjective(x, y);
    }
  }

  lemma ReprIsInjective(x: int, y: int)
    requires Repr(x) == Repr(y)
    ensures x == y
  {
    DecimalStartsWithADigit(if x < 0 then -x else x);
    DecimalStartsWithADigit(if y < 0 then -y else y);
    if x < 0 {
      assert Repr(x)[0] == '-' && Repr(x)[1..] == Decimal(-x) && Repr(y)[1..] == Decimal(-y);
      DecimalIsInjective(-x, -y);
    } else {
      DecimalIsInjective(x, y);
    }
  }

  // ----- sorting -----

  ghost predicate Sorted(s: seq<int>) {
    forall i, j :: 0 <= i < j < |s| ==> Le(s[i], s[j])
  }

  lemma SplitLast(s: seq<int>)
    requires s != []
    ensures multiset(s) == multiset(s[..|s| - 1]) + multiset{s[|s| - 1]}
    ensures multiset(s[..|s| - 1]) == multiset(s) - multiset{s[|s| - 1]}
  {
    assert s == s[..|s| - 1] + [s[|s| - 1]];
  }

  lemma {:induction false} InsertAdds(sorted: seq<int>, v: int)
    ensures multiset(Insert(sorted, v)) == multiset(sorted) + multiset{v}
    ensures forall x :: x in Insert(sorted, v) ==> x in sorted || x == v
  {
    if sorted == [] || Le(sorted[|sorted| - 1], v) {
    } else {
      InsertAdds(sorted[..|sorted| - 1], v);
      SplitLast(sorted);
    }
  }

  lemma {:induction false} InsertSorts(sorted: seq<int>, v: int)
    requires Sorted(sorted)
    ensures Sorted(Insert(sorted, v))
  {
    if sorted == [] || Le(sorted[|sorted| - 1], v) {
      GreatestGoesLast(sorted, v);
    } else {
      var front, last := sorted[..|sorted| - 1], sorted[|sorted| - 1];
      InsertSorts(front, v);
      InsertAdds(front, v);
      LeIsAnOrder(v, last, last);
      AppendSorts(Insert(front, v), last);
    }
  }

  lemma GreatestGoesLast(sorted: seq<int>, v: int)
    requires Sorted(sorted) && (sorted == [] || Le(sorted[|sorted| - 1], v))
    ensures Sorted(sorted + [v])
  {
    forall x | x in sorted ensures Le(x, v) {
      LastIsGreatest(sorted, x);
      LeIsAnOrder(x, sorted[|sorted| - 1], v);
    }
    AppendSorts(sorted, v);
  }

  lemma AppendSorts(s: seq<int>, last: int)
    requires Sorted(s) && forall x :: x in s ==> Le(x, last)
    ensures Sorted(s + [last])
  {
  }

  lemma {:induction false} SortByTextSorts(values: seq<int>)
    ensures Sorted(SortByText(values)) && multiset(SortByText(values)) == multiset(values)
  {
    if values == [] {
    } else {
      var front, last := values[..|values| - 1], values[|values| - 1];
      SortByTextSorts(front);
      InsertSorts(SortByText(front), last);
      InsertAdds(SortByText(front), last);
      SplitLast(values);
    }
  }

  /** There is one sorted listing of given values. */
  lemma {:induction false} SortedIsUnique(s: seq<int>, t: seq<int>)
    requires Sorted(s) && Sorted(t) && multiset(s) == multiset(t)
    ensures s == t
  {
    SameLength(s, t);
    if s == [] {
    } else {
      var n := |s| - 1;
      SameLast(s, t);
      FrontIsSorted(s);
      FrontIsSorted(t);
      SortedIsUnique(s[..n], t[..n]);
      SameFrontAndLast(s, t);
    }
  }

  lemma SameLength(s: seq<int>, t: seq<int>)
    requires multiset(s) == multiset(t)
    ensures |s| == |t|
  {
    assert |s| == |multiset(s)| == |multiset(t)| == |t|;
  }

  lemma FrontIsSorted(s: seq<int>)
    requires Sorted(s) && s != []
    ensures Sorted(s[..|s| - 1])
  {
  }

  lemma SameFrontAndLast(s: seq<int>, t: seq<int>)
    requires |s| == |t| > 0 && s[..|s| - 1] == t[..|t| - 1] && s[|s| - 1] == t[|t| - 1]
    ensures s == t
  {
    assert s == s[..|s| - 1] + [s[|s| - 1]] && t == t[..|t| - 1] + [t[|t| - 1]];
  }

  lemma SameLast(s: seq<int>, t: seq<int>)
    requires Sorted(s) && Sorted(t) && multiset(s) == multiset(t) && |s| == |t| > 0
    ensures s[|s| - 1] == t[|t| - 1] && multiset(s[..|s| - 1]) == multiset(t[..|t| - 1])
  {
    var x, y := s[|s| - 1], t[|t| - 1];
    assert x in multiset(s) && y in multiset(t);
    LastIsGreatest(s, y);
    LastIsGreatest(t, x);
    LeIsAnOrder(x, y, y);
    SplitLast(s);
    SplitLast(t);
  }

  lemma LastIsGreatest(s: seq<int>, v: int)
    requires Sorted(s) && v in multiset(s)
    ensures Le(v, s[|s| - 1])
  {
    var i :| 0 <= i < |s| && s[i] == v;
    LeIsAnOrder(v, v, v);
  }

  /** The order of listing does not matter. */
  lemma ListingOrderDoesNotMatter(values: seq<int>, others: seq<int>)
    requires multiset(values) == multiset(others)
    ensures SortByText(values) == SortByText(others)
  {
    SortByTextSorts(values);
    SortByTextSorts(others);
    SortedIsUnique(SortByText(values), SortByText(others));
  }
}
