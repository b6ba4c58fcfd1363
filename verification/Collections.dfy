/** Finite-collection vocabulary shared by the other modules: sequences that
    enumerate a set, sums over maps, rounding up, and the one sequence that
    lists a set in a strict total order. */
module Collections {

  // ---------- Enumerations ----------

  ghost predicate NoDuplicates<T>(q: seq<T>) {
    forall i, j :: 0 <= i < j < |q| ==> q[i] != q[j]
  }

  /** q lists every element of s exactly once, in some order. */
  ghost predicate Enumerates<T>(q: seq<T>, s: set<T>) {
    && NoDuplicates(q)
    && (forall x | x in q :: x in s)
    && (forall x | x in s :: x in q)
  }

  lemma NoDuplicatesAppend<T>(q: seq<T>, x: T)
    requires NoDuplicates(q) && x !in q
    ensures NoDuplicates(q + [x])
  {
  }

  lemma EnumerationSize<T>(q: seq<T>, s: set<T>)
    requires Enumerates(q, s)
    ensures |q| == |s|
  {
    if q == [] {
      assert s == {};
    } else {
      var last := q[|q| - 1];
      var front := q[..|q| - 1];
      assert q == front + [last];
      assert Enumerates(front, s - {last}) by {
        assert forall x | x in front :: x in q;
        forall x | x in s - {last} ensures x in front {
          assert x in q;
        }
      }
      EnumerationSize(front, s - {last});
    }
  }

  lemma EnumeratesAppend<T>(q: seq<T>, s: set<T>, x: T)
    requires Enumerates(q, s)
    requires x !in s
    ensures Enumerates(q + [x], s + {x})
  {
    assert forall y :: y in q + [x] <==> y in q || y == x;
  }

  lemma EnumeratesConcat<T>(q: seq<T>, s: set<T>, q': seq<T>, s': set<T>)
    requires Enumerates(q, s) && Enumerates(q', s')
    requires s !! s'
    ensures Enumerates(q + q', s + s')
  {
    assert forall y :: y in q + q' <==> y in q || y in q';
    forall i, j | 0 <= i < j < |q + q'| ensures (q + q')[i] != (q + q')[j] {
      if i < |q| <= j {
        assert (q + q')[i] in s && (q + q')[j] in s';
      }
    }
  }

  lemma EnumerationExists<T>(s: set<T>) returns (q: seq<T>)
    ensures Enumerates(q, s)
  {
    q := [];
    var rest := s;
    while rest != {}
      invariant rest <= s && Enumerates(q, s - rest)
    {
      var x :| x in rest;
      EnumeratesAppend(q, s - rest, x);
      assert s - (rest - {x}) == (s - rest) + {x};
      q, rest := q + [x], rest - {x};
    }
    assert s - rest == s;
  }

  // ---------- Sums over maps ----------

  /** The sum of w(v) over all entries of m. */
  ghost function MapSum<K, V>(m: map<K, V>, w: V -> int): int
    decreases |m|
  {
    if m == map[] then 0
    else
      var k :| k in m;
      assert (m - {k}).Keys == m.Keys - {k};
      w(m[k]) + MapSum(m - {k}, w)
  }

  lemma {:induction false} MapSumTake<K, V>(m: map<K, V>, w: V -> int, k: K)
    requires k in m
    ensures MapSum(m, w) == w(m[k]) + MapSum(m - {k}, w)
    decreases |m|
  {
    var j :| j in m && MapSum(m, w) == w(m[j]) + MapSum(m - {j}, w);
    if j != k {
      assert (m - {j}).Keys == m.Keys - {j};
      assert (m - {k}).Keys == m.Keys - {k};
      MapSumTake(m - {j}, w, k);
      MapSumTake(m - {k}, w, j);
      assert (m - {j}) - {k} == (m - {k}) - {j};
    }
  }

  lemma MapSumPut<K, V>(m: map<K, V>, w: V -> int, k: K, v: V)
    ensures MapSum(m[k := v], w) == MapSum(m - {k}, w) + w(v)
    ensures k !in m ==> MapSum(m[k := v], w) == MapSum(m, w) + w(v)
    ensures k in m ==> MapSum(m[k := v], w) == MapSum(m, w) - w(m[k]) + w(v)
  {
    MapSumTake(m[k := v], w, k);
    assert m[k := v] - {k} == m - {k};
    if k in m {
      MapSumTake(m, w, k);
    } else {
      assert m - {k} == m;
    }
  }

  lemma {:induction false} MapSumNonNegative<K, V>(m: map<K, V>, w: V -> int)
    requires forall k | k in m :: w(m[k]) >= 0
    ensures MapSum(m, w) >= 0
    ensures forall k | k in m :: w(m[k]) <= MapSum(m, w)
    decreases |m|
  {
    forall k | k in m ensures 0 <= w(m[k]) <= MapSum(m, w) {
      MapSumTake(m, w, k);
      assert (m - {k}).Keys == m.Keys - {k};
      MapSumNonNegative(m - {k}, w);
    }
    if m != map[] {
      var k :| k in m;
    }
  }

  lemma {:induction false} MapSumZero<K, V>(m: map<K, V>, w: V -> int)
    requires forall k | k in m :: w(m[k]) == 0
    ensures MapSum(m, w) == 0
    decreases |m|
  {
    if m != map[] {
      var k :| k in m;
      MapSumTake(m, w, k);
      assert (m - {k}).Keys == m.Keys - {k};
      MapSumZero(m - {k}, w);
    }
  }

  /** Entry by entry comparison lifts to sums. */
  lemma {:induction false} MapSumCompare<K, V>(m: map<K, V>, w: V -> int, m': map<K, V>, w': V -> int)
    requires m.Keys == m'.Keys
    requires forall k | k in m :: w(m[k]) <= w'(m'[k])
    ensures MapSum(m, w) <= MapSum(m', w')
    decreases |m|
  {
    if m == map[] {
      assert m' == map[];
    } else {
      var k :| k in m;
      MapSumTake(m, w, k);
      MapSumTake(m', w', k);
      assert (m - {k}).Keys == m.Keys - {k} == (m' - {k}).Keys;
      MapSumCompare(m - {k}, w, m' - {k}, w');
    }
  }

  lemma {:induction false} MapSumAdds<K, V>(m: map<K, V>, v: V -> int, w: V -> int, sum: V -> int)
    requires forall k | k in m :: v(m[k]) + w(m[k]) == sum(m[k])
    ensures MapSum(m, v) + MapSum(m, w) == MapSum(m, sum)
    decreases |m|
  {
    if m != map[] {
      var k :| k in m;
      MapSumTake(m, v, k);
      MapSumTake(m, w, k);
      MapSumTake(m, sum, k);
      assert (m - {k}).Keys == m.Keys - {k};
      MapSumAdds(m - {k}, v, w, sum);
    }
  }

  // ---------- Rounding up ----------

  /** a / b rounded up. */
  function CeilDiv(a: nat, b: nat): nat
    requires b > 0
  {
    if a == 0 then 0 else if a <= b then 1 else 1 + CeilDiv(a - b, b)
  }

  /** CeilDiv is the least integer whose product with b covers a. */
  lemma {:induction false} CeilDivLeast(a: nat, b: nat, q: nat)
    requires b > 0
    ensures CeilDiv(a, b) <= q <==> a <= q * b
  {
    if a > b {
      if q == 0 {
        assert CeilDiv(a, b) >= 1;
      } else {
        CeilDivLeast(a - b, b, q - 1);
        assert (q - 1) * b == q * b - b;
      }
    } else if a > 0 && q >= 1 {
      assert q * b >= b;
    }
  }

  lemma CeilDivMonotone(a: nat, b: nat, a': nat, b': nat)
    requires 0 < b' <= b && a <= a'
    ensures CeilDiv(a, b) <= CeilDiv(a', b')
  {
    var q := CeilDiv(a', b');
    CeilDivLeast(a', b', q);
    assert q * b' <= q * b;
    CeilDivLeast(a, b, q);
  }

  // ---------- Strict total orders ----------

  ghost predicate StrictTotalOrder<T>(s: set<T>, less: (T, T) -> bool) {
    && (forall x | x in s :: !less(x, x))
    && (forall x, y | x in s && y in s && x != y :: less(x, y) || less(y, x))
    && (forall x, y, z | x in s && y in s && z in s && less(x, y) && less(y, z) :: less(x, z))
  }

  ghost predicate Ascending<T>(q: seq<T>, less: (T, T) -> bool) {
    forall i, j :: 0 <= i < j < |q| ==> less(q[i], q[j])
  }

  ghost predicate IsLeast<T>(m: T, s: set<T>, less: (T, T) -> bool) {
    m in s && forall x | x in s && x != m :: less(m, x)
  }

  lemma {:induction false} LeastExists<T>(s: set<T>, less: (T, T) -> bool)
    requires s != {} && StrictTotalOrder(s, less)
    ensures exists m :: IsLeast(m, s, less)
  {
    var x :| x in s;
    var rest := s - {x};
    if rest == {} {
      assert s == {x};
      assert IsLeast(x, s, less);
    } else {
      LeastExists(rest, less);
      var m :| IsLeast(m, rest, less);
      assert IsLeast(if less(x, m) then x else m, s, less);
    }
  }

  ghost function Least<T>(s: set<T>, less: (T, T) -> bool): (m: T)
    requires s != {} && StrictTotalOrder(s, less)
    ensures IsLeast(m, s, less)
  {
    LeastExists(s, less);
    var m :| IsLeast(m, s, less);
    m
  }

  /** The listing of s in ascending order. */
  ghost function Ranked<T>(s: set<T>, less: (T, T) -> bool): seq<T>
    requires StrictTotalOrder(s, less)
  {
    if s == {} then []
    else
      var m := Least(s, less);
      [m] + Ranked(s - {m}, less)
  }

  lemma EnumeratesTail<T>(q: seq<T>, s: set<T>)
    requires Enumerates(q, s) && q != []
    ensures Enumerates(q[1..], s - {q[0]})
  {
    assert q == [q[0]] + q[1..];
    assert forall x | x in q[1..] :: x in q;
    forall x | x in s - {q[0]} ensures x in q[1..] {
      assert x in q;
    }
  }

  /** Every ascending enumeration of s is the ranking: the order in which the
      elements were first collected leaves no trace. */
  lemma {:induction false} AscendingIsRanked<T>(q: seq<T>, s: set<T>, less: (T, T) -> bool)
    requires StrictTotalOrder(s, less)
    requires Enumerates(q, s) && Ascending(q, less)
    ensures q == Ranked(s, less)
    decreases s
  {
    if q == [] {
      assert s == {};
    } else {
      assert q[0] in s;
      var m := Least(s, less);
      var i :| 0 <= i < |q| && q[i] == m;
      EnumeratesTail(q, s);
      AscendingIsRanked(q[1..], s - {m}, less);
    }
  }

  lemma EnumeratesPrepend<T>(x: T, q: seq<T>, s: set<T>)
    requires Enumerates(q, s) && x !in s
    ensures Enumerates([x] + q, {x} + s)
  {
    assert forall i | 0 <= i < |q| :: q[i] in s;
    assert ([x] + q)[0] == x;
    assert forall y | y in q :: y in [x] + q;
  }

  lemma {:induction false} RankedAscends<T>(s: set<T>, less: (T, T) -> bool)
    requires StrictTotalOrder(s, less)
    ensures Enumerates(Ranked(s, less), s) && Ascending(Ranked(s, less), less)
    decreases s
  {
    if s != {} {
      var m := Least(s, less);
      var tail := Ranked(s - {m}, less);
      RankedAscends(s - {m}, less);
      EnumeratesPrepend(m, tail, s - {m});
      assert s == {m} + (s - {m});
      assert forall i | 0 <= i < |tail| :: tail[i] in s - {m};
    }
  }

  lemma AscendingHasNoDuplicates<T>(q: seq<T>, s: set<T>, less: (T, T) -> bool)
    requires StrictTotalOrder(s, less) && Ascending(q, less)
    requires forall x | x in q :: x in s
    ensures NoDuplicates(q)
  {
    forall i, j | 0 <= i < j < |q| ensures q[i] != q[j] {
      assert less(q[i], q[j]) && q[i] in s;
    }
  }

  function InsertAt<T>(q: seq<T>, k: nat, x: T): seq<T>
    requires k <= |q|
  {
    q[..k] + [x] + q[k..]
  }

  lemma InsertAtElements<T>(q: seq<T>, k: nat, x: T)
    requires k <= |q|
    ensures forall y | y in InsertAt(q, k, x) :: y in q || y == x
    ensures x in InsertAt(q, k, x) && forall y | y in q :: y in InsertAt(q, k, x)
  {
    assert q == q[..k] + q[k..];
    assert InsertAt(q, k, x)[k] == x;
    assert forall y | y in q :: y in q[..k] || y in q[k..];
  }

  lemma InsertAtAscends<T>(q: seq<T>, k: nat, x: T, s: set<T>, less: (T, T) -> bool)
    requires k <= |q| && Ascending(q, less)
    requires StrictTotalOrder(s, less) && x in s && forall y | y in q :: y in s
    requires k > 0 ==> less(q[k - 1], x)
    requires k < |q| ==> less(x, q[k])
    ensures Ascending(InsertAt(q, k, x), less)
  {
    var r := InsertAt(q, k, x);
    assert forall i | 0 <= i < k :: r[i] == q[i];
    assert forall i | k < i < |r| :: r[i] == q[i - 1];
    forall i | 0 <= i < |q| ensures if i < k then less(q[i], x) else less(x, q[i]) {
      assert q[i] in s;
      if i < k {
        assert q[k - 1] in s;
        assert i < k - 1 ==> less(q[i], q[k - 1]);
      } else {
        assert q[k] in s;
        assert k < i ==> less(q[k], q[i]);
      }
    }
  }

  /** Where x goes: after everything not greater than it. */
  method Slot<T>(sorted: seq<T>, x: T, less: (T, T) -> bool) returns (k: nat)
    ensures k <= |sorted|
    ensures k < |sorted| ==> less(x, sorted[k])
    ensures k > 0 ==> !less(x, sorted[k - 1])
  {
    k := |sorted|;
    while k > 0 && less(x, sorted[k - 1])
      invariant k <= |sorted|
      invariant k < |sorted| ==> less(x, sorted[k])
    {
      k := k - 1;
    }
  }

  /** Part of an enumeration, sorted so far. */
  ghost predicate SortedPart<T>(sorted: seq<T>, part: seq<T>, less: (T, T) -> bool) {
    && Ascending(sorted, less)
    && (forall x | x in sorted :: x in part)
    && (forall x | x in part :: x in sorted)
  }

  lemma SortedPartGrows<T>(sorted: seq<T>, part: seq<T>, x: T, k: nat, s: set<T>, less: (T, T) -> bool)
    requires SortedPart(sorted, part, less) && StrictTotalOrder(s, less)
    requires x in s && x !in part && forall y | y in part :: y in s
    requires k <= |sorted|
    requires k < |sorted| ==> less(x, sorted[k])
    requires k > 0 ==> !less(x, sorted[k - 1])
    ensures SortedPart(InsertAt(sorted, k, x), part + [x], less)
  {
    assert k > 0 ==> sorted[k - 1] in sorted;
    InsertAtAscends(sorted, k, x, s, less);
    InsertAtElements(sorted, k, x);
  }

  /** Sorts by insertion. Under a strict total order there is only one sorted
      sequence, so the algorithm used does not matter. */
  method SortBy<T>(q: seq<T>, ghost s: set<T>, less: (T, T) -> bool) returns (sorted: seq<T>)
    requires Enumerates(q, s) && StrictTotalOrder(s, less)
    ensures sorted == Ranked(s, less)
  {
    sorted := [];
    for i := 0 to |q|
      invariant SortedPart(sorted, q[..i], less)
    {
      var k := Slot(sorted, q[i], less);
      assert forall y | y in q[..i] :: y in q;
      SortedPartGrows(sorted, q[..i], q[i], k, s, less);
      assert q[..i + 1] == q[..i] + [q[i]];
      sorted := InsertAt(sorted, k, q[i]);
    }
    assert q[..|q|] == q;
    AscendingHasNoDuplicates(sorted, s, less);
    AscendingIsRanked(sorted, s, less);
  }

  ghost predicate NotAfter<T>(less: (T, T) -> bool, x: T, y: T) {
    !less(y, x)
  }

  /** A strict order in which ties are allowed and tie with everything alike. */
  ghost predicate StrictWeakOrder<T(!new)>(less: (T, T) -> bool) {
    && (forall x, y {:trigger NotAfter(less, x, y)} :: less(x, y) ==> NotAfter(less, x, y))
    && (forall x, y, z {:trigger NotAfter(less, x, y), NotAfter(less, y, z)} ::
          NotAfter(less, x, y) && NotAfter(less, y, z) ==> NotAfter(less, x, z))
  }

  ghost predicate InOrder<T>(q: seq<T>, less: (T, T) -> bool) {
    forall i, j :: 0 <= i < j < |q| ==> NotAfter(less, q[i], q[j])
  }

  lemma InsertAtInOrder<T(!new)>(q: seq<T>, k: nat, x: T, less: (T, T) -> bool)
    requires k <= |q| && InOrder(q, less) && StrictWeakOrder(less)
    requires k > 0 ==> !less(x, q[k - 1])
    requires k < |q| ==> less(x, q[k])
    ensures InOrder(InsertAt(q, k, x), less)
  {
    var r := InsertAt(q, k, x);
    assert forall i | 0 <= i < k :: r[i] == q[i];
    assert forall i | k < i < |r| :: r[i] == q[i - 1];
    forall i | 0 <= i < k ensures NotAfter(less, q[i], x) {
      assert NotAfter(less, q[k - 1], x);
      assert i < k - 1 ==> NotAfter(less, q[i], q[k - 1]);
    }
    forall i | k <= i < |q| ensures NotAfter(less, x, q[i]) {
      assert NotAfter(less, x, q[k]);
      assert k < i ==> NotAfter(less, q[k], q[i]);
    }
  }

  lemma InsertAtMultiset<T>(q: seq<T>, k: nat, x: T)
    requires k <= |q|
    ensures multiset(InsertAt(q, k, x)) == multiset(q) + multiset{x}
  {
    assert q == q[..k] + q[k..];
  }

  /** Inserts x after everything not greater than it. */
  method Insert<T(!new)>(sorted: seq<T>, x: T, less: (T, T) -> bool) returns (r: seq<T>)
    requires StrictWeakOrder(less) && InOrder(sorted, less)
    ensures InOrder(r, less) && multiset(r) == multiset(sorted) + multiset{x}
  {
    var k := Slot(sorted, x, less);
    InsertAtInOrder(sorted, k, x, less);
    InsertAtMultiset(sorted, k, x);
    r := InsertAt(sorted, k, x);
  }

  /** Sorts with ties in any order. */
  method SortWeakly<T(!new)>(q: seq<T>, less: (T, T) -> bool) returns (sorted: seq<T>)
    requires StrictWeakOrder(less)
    ensures multiset(sorted) == multiset(q)
    ensures InOrder(sorted, less)
  {
    sorted := [];
    for i := 0 to |q|
      invariant multiset(sorted) == multiset(q[..i])
      invariant InOrder(sorted, less)
    {
      assert q[..i + 1] == q[..i] + [q[i]];
      sorted := Insert(sorted, q[i], less);
    }
    assert q[..|q|] == q;
  }

  // ---------- Lexicographic order on identifiers ----------

  /** The order the engines use on identifiers: code point by code point, a
      proper prefix first. */
  predicate LexLess(a: string, b: string) {
    if b == "" then false
    else if a == "" then true
    else if a[0] != b[0] then a[0] < b[0]
    else LexLess(a[1..], b[1..])
  }

  /** a is a proper prefix of b, or smaller at the first place where they differ. */
  ghost predicate SmallerAt(a: string, b: string, k: nat) {
    && k <= |a| && k < |b| && a[..k] == b[..k]
    && (k == |a| || a[k] < b[k])
  }

  lemma {:induction false} LexLessIff(a: string, b: string)
    ensures LexLess(a, b) <==> exists k: nat :: SmallerAt(a, b, k)
  {
    if a == "" || b == "" || a[0] != b[0] {
      assert SmallerAt(a, b, 0) <==> LexLess(a, b);
      forall k: nat | SmallerAt(a, b, k) ensures k == 0 {
        SmallerStarts(a, b, k);
      }
    } else {
      LexLessIff(a[1..], b[1..]);
      forall k: nat ensures SmallerAt(a[1..], b[1..], k) <==> SmallerAt(a, b, k + 1) {
        SmallerShifts(a, b, k);
      }
      if k: nat :| SmallerAt(a, b, k) {
        assert k > 0 && SmallerAt(a[1..], b[1..], k - 1);
      }
    }
  }

  lemma SmallerStarts(a: string, b: string, k: nat)
    requires SmallerAt(a, b, k)
    ensures k > 0 ==> a != "" && b != "" && a[0] == b[0]
  {
    if k > 0 {
      assert a[0] == a[..k][0] == b[..k][0] == b[0];
    }
  }

  lemma SmallerShifts(a: string, b: string, k: nat)
    requires a != "" && b != "" && a[0] == b[0]
    ensures SmallerAt(a[1..], b[1..], k) <==> SmallerAt(a, b, k + 1)
  {
    if k <= |a| - 1 && k <= |b| - 1 {
      assert a[..k + 1] == [a[0]] + a[1..][..k] && b[..k + 1] == [b[0]] + b[1..][..k];
    }
  }

  lemma LexIrreflexive(a: string)
    ensures !LexLess(a, a)
  {
    if a != "" {
      LexIrreflexive(a[1..]);
    }
  }

  lemma {:induction false} LexTotal(a: string, b: string)
    ensures a != b ==> LexLess(a, b) || LexLess(b, a)
  {
    if a != "" && b != "" && a[0] == b[0] {
      LexTotal(a[1..], b[1..]);
      assert a == [a[0]] + a[1..] && b == [b[0]] + b[1..];
    }
  }

  lemma {:induction false} LexTransitive(a: string, b: string, c: string)
    requires LexLess(a, b) && LexLess(b, c)
    ensures LexLess(a, c)
  {
    if a != "" && a[0] == b[0] && b[0] == c[0] {
      LexTransitive(a[1..], b[1..], c[1..]);
    }
  }
}
