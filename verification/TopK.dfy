/** The append, sort and truncate loop both queues use to find the next keys.

    `less` is the comparison handed to Go's `sort.Slice`: a strict weak order, possibly with ties.
    `sort.Slice` is not stable, so with ties it may return any arrangement that respects `less`. */
module TopK {

  ghost predicate StrictWeakOrder<T(!new)>(less: (T, T) -> bool) {
    && (forall x :: !less(x, x))
    && (forall x, y, z :: less(x, y) && less(y, z) ==> less(x, z))
    && (forall x, y, z :: less(x, z) ==> less(x, y) || less(y, z))
  }

  /** No two members of `s` tie. */
  ghost predicate TotalOn<T(!new)>(less: (T, T) -> bool, s: set<T>) {
    forall x, y | x in s && y in s && x != y :: less(x, y) || less(y, x)
  }

  ghost predicate SortedBy<T(!new)>(less: (T, T) -> bool, s: seq<T>) {
    forall i, j | 0 <= i < j < |s| :: !less(s[j], s[i])
  }

  ghost predicate Distinct<T(!new)>(s: seq<T>) {
    forall i, j | 0 <= i < j < |s| :: s[i] != s[j]
  }

  ghost function Elements<T>(s: seq<T>): set<T> {
    set x | x in s
  }

  function Min(a: nat, b: nat): nat {
    if a < b then a else b
  }

  /** `r` is an admissible answer to "the first `k` of `s`": sorted, as long as it can be, and no
      member left out comes before a member taken. */
  ghost predicate IsTop<T(!new)>(less: (T, T) -> bool, s: set<T>, k: nat, r: seq<T>) {
    && Distinct(r)
    && Elements(r) <= s
    && |r| == Min(k, |s|)
    && SortedBy(less, r)
    && forall x, y | x in r && y in s - Elements(r) :: !less(y, x)
  }

  /** `sort.Slice(s, less)`: some sorted arrangement of the same members. */
  method SortSlice<T(!new)>(s: seq<T>, less: (T, T) -> bool) returns (r: seq<T>)
    requires StrictWeakOrder(less)
    ensures multiset(r) == multiset(s) && SortedBy(less, r)
  {
    r := [];
    for i := 0 to |s|
      invariant multiset(r) == multiset(s[..i]) && SortedBy(less, r)
    {
      var at := 0;
      while at < |r| && !less(s[i], r[at])
        invariant 0 <= at <= |r|
        invariant forall j | 0 <= j < at :: !less(s[i], r[j])
      {
        at := at + 1;
      }
      InsertSorted(less, r, at, s[i]);
      assert r == r[..at] + r[at..];
      assert s[..i + 1] == s[..i] + [s[i]];
      r := r[..at] + [s[i]] + r[at..];
    }
    assert s[..|s|] == s;
  }

  lemma InsertSorted<T(!new)>(less: (T, T) -> bool, r: seq<T>, at: nat, x: T)
    requires StrictWeakOrder(less) && SortedBy(less, r) && at <= |r|
    requires forall j | 0 <= j < at :: !less(x, r[j])
    requires at < |r| ==> less(x, r[at])
    ensures SortedBy(less, r[..at] + [x] + r[at..])
  {
    if at < |r| {
      assert forall j | at <= j < |r| :: !less(r[j], r[at]) || j == at;
      assert forall j | at <= j < |r| :: less(x, r[j]);
    }
  }

  /** One turn of the loop: append, sort, truncate. */
  method Admit<T(!new)>(ghost seen: set<T>, qd: seq<T>, x: T, limit: nat, less: (T, T) -> bool) returns (r: seq<T>)
    requires StrictWeakOrder(less) && IsTop(less, seen, limit, qd) && x !in seen
    ensures IsTop(less, seen + {x}, limit, r)
  {
    var longer := qd + [x];
    r := SortSlice(longer, less);
    SameMembers(longer, r);
    DistinctElements(longer);
    ghost var sorted := r;
    if |r| > limit {
      r := r[..limit];
    }
    AdmitTop(less, seen, limit, qd, x, sorted);
    assert |sorted| <= limit ==> sorted[..Min(limit, |sorted|)] == sorted;
  }

  lemma AppendDistinct<T(!new)>(s: seq<T>, x: T)
    requires Distinct(s) && x !in Elements(s)
    ensures Distinct(s + [x]) && Elements(s + [x]) == Elements(s) + {x}
  {
  }

  lemma {:induction false} DistinctElements<T(!new)>(s: seq<T>)
    requires Distinct(s)
    ensures |Elements(s)| == |s|
  {
    if s != [] {
      var t, x := s[..|s| - 1], s[|s| - 1];
      DistinctElements(t);
      assert s == t + [x];
      assert Elements(s) == Elements(t) + {x} && x !in Elements(t);
    }
  }

  /** Rearranging distinct members leaves them distinct. */
  lemma SameMembers<T(!new)>(s: seq<T>, r: seq<T>)
    requires Distinct(s) && multiset(r) == multiset(s)
    ensures Distinct(r) && Elements(r) == Elements(s) && |r| == |s|
  {
    assert |r| == |multiset(r)| && |s| == |multiset(s)|;
    forall x
      ensures x in r <==> x in s
    {
      assert x in r <==> x in multiset(r);
      assert x in s <==> x in multiset(s);
    }
    forall i, j | 0 <= i < j < |r|
      ensures r[i] != r[j]
    {
      if r[i] == r[j] {
        Twice(r, i, j);
        OnlyOnce(s, r[i]);
      }
    }
  }

  lemma Twice<T>(r: seq<T>, i: nat, j: nat)
    requires i < j < |r| && r[i] == r[j]
    ensures multiset(r)[r[i]] >= 2
  {
    assert r == r[..i] + [r[i]] + r[i + 1..j] + [r[j]] + r[j + 1..];
  }

  lemma {:induction false} OnlyOnce<T(!new)>(s: seq<T>, x: T)
    requires Distinct(s)
    ensures multiset(s)[x] <= 1
  {
    if s != [] {
      OnlyOnce(s[1..], x);
      assert s == [s[0]] + s[1..];
      if s[0] == x {
        assert x !in s[1..];
      }
    }
  }

  lemma AdmitTop<T(!new)>(less: (T, T) -> bool, seen: set<T>, limit: nat, qd: seq<T>, x: T, sorted: seq<T>)
    requires StrictWeakOrder(less) && IsTop(less, seen, limit, qd) && x !in seen
    requires Distinct(sorted) && Elements(sorted) == Elements(qd + [x]) && |sorted| == |qd| + 1
    requires SortedBy(less, sorted)
    ensures IsTop(less, seen + {x}, limit, sorted[..Min(limit, |sorted|)])
  {
    assert |seen + {x}| == |seen| + 1;
    assert Elements(sorted) == Elements(qd) + {x};
    if |qd| < limit {
      DistinctElements(qd);
      SubsetSameSize(Elements(qd), seen);
      assert sorted[..Min(limit, |sorted|)] == sorted;
    } else {
      DropLast(less, seen, limit, qd, x, sorted);
    }
  }

  /** The list was full: the last of the longer list goes, and beats nothing that stays. */
  lemma DropLast<T(!new)>(less: (T, T) -> bool, seen: set<T>, limit: nat, qd: seq<T>, x: T, sorted: seq<T>)
    requires StrictWeakOrder(less) && IsTop(less, seen, limit, qd) && x !in seen && |qd| == limit
    requires Distinct(sorted) && Elements(sorted) == Elements(qd) + {x} && |sorted| == limit + 1
    requires SortedBy(less, sorted)
    ensures IsTop(less, seen + {x}, limit, sorted[..limit])
  {
    var r, last := sorted[..limit], sorted[limit];
    assert sorted == r + [last];
    assert Elements(sorted) == Elements(r) + {last};
    assert |seen + {x}| == |seen| + 1;
    forall a, y | a in r && y in (seen + {x}) - Elements(r)
      ensures !less(y, a)
    {
      var i :| 0 <= i < limit && r[i] == a;
      assert sorted[i] == a && !less(sorted[limit], sorted[i]);
      if y != last {
        LeftOutStaysOut(less, seen, limit, qd, x, a, last, y);
      }
    }
  }

  lemma LeftOutStaysOut<T(!new)>(less: (T, T) -> bool, seen: set<T>, limit: nat, qd: seq<T>, x: T, a: T, last: T, y: T)
    requires StrictWeakOrder(less) && IsTop(less, seen, limit, qd)
    requires y in seen - Elements(qd)
    requires a in Elements(qd) + {x} && last in Elements(qd) + {x} && a != last && !less(last, a)
    ensures !less(y, a)
  {
    if a == x {
      assert last in qd && !less(y, last);
      assert less(y, a) ==> less(y, last) || less(last, a);
    } else {
      assert a in qd;
    }
  }

  lemma SubsetSameSize<T>(a: set<T>, b: set<T>)
    requires a <= b && |a| >= |b|
    ensures a == b
  {
    if b - a != {} {
      var x :| x in b - a;
      assert a <= b - {x};
      SubsetCardinality(a, b - {x});
    }
  }

  lemma {:induction false} SubsetCardinality<T>(a: set<T>, b: set<T>)
    requires a <= b
    ensures |a| <= |b|
  {
    if a != {} {
      var x :| x in a;
      SubsetCardinality(a - {x}, b - {x});
    }
  }

  /** Without ties the answer is unique and is a prefix of the full ranking, whatever order the
      members were read in. */
  lemma {:induction false} TopIsPrefixOfRanking<T(!new)>(less: (T, T) -> bool, s: set<T>, k: nat, r: seq<T>,
                                                         full: seq<T>)
    requires StrictWeakOrder(less) && TotalOn(less, s)
    requires IsTop(less, s, k, r) && IsTop(less, s, |s|, full)
    ensures r == full[..Min(k, |s|)]
  {
    if r != [] {
      DistinctElements(full);
      SubsetSameSize(Elements(full), s);
      FirstIsLeast(less, s, k, r);
      FirstIsLeast(less, s, |s|, full);
      assert full[0] in s && r[0] in s;
      assert r[0] == full[0];
      TailIsTop(less, s, k, r);
      TailIsTop(less, s, |s|, full);
      TopIsPrefixOfRanking(less, s - {r[0]}, k - 1, r[1..], full[1..]);
      assert r == [r[0]] + r[1..];
      assert full[..Min(k, |s|)] == [full[0]] + full[1..][..Min(k, |s|) - 1];
    }
  }

  lemma FirstIsLeast<T(!new)>(less: (T, T) -> bool, s: set<T>, k: nat, r: seq<T>)
    requires IsTop(less, s, k, r) && r != [] && StrictWeakOrder(less)
    ensures forall y | y in s :: !less(y, r[0])
  {
    forall y | y in s
      ensures !less(y, r[0])
    {
      if y in r {
        var i :| 0 <= i < |r| && r[i] == y;
      }
    }
  }

  lemma TailIsTop<T(!new)>(less: (T, T) -> bool, s: set<T>, k: nat, r: seq<T>)
    requires IsTop(less, s, k, r) && r != []
    ensures k > 0 && IsTop(less, s - {r[0]}, k - 1, r[1..])
  {
    var t := r[1..];
    assert forall x | x in t :: x in r && x != r[0] by {
      forall x | x in t ensures x in r && x != r[0] {
        var i :| 0 <= i < |t| && t[i] == x;
        assert r[i + 1] == x;
      }
    }
    assert Elements(r) == Elements(t) + {r[0]} by {
      assert r == [r[0]] + t;
    }
  }

  lemma {:induction false} LeastExists<T(!new)>(less: (T, T) -> bool, s: set<T>) returns (m: T)
    requires StrictWeakOrder(less) && s != {}
    ensures m in s && forall y | y in s :: !less(y, m)
  {
    var x :| x in s;
    if s == {x} {
      m := x;
    } else {
      assert s == (s - {x}) + {x};
      var n := LeastExists(less, s - {x});
      if less(x, n) {
        m := x;
      } else {
        m := n;
      }
    }
  }

  /** Every finite set has a full ranking. */
  lemma {:induction false} RankingExists<T(!new)>(less: (T, T) -> bool, s: set<T>) returns (full: seq<T>)
    requires StrictWeakOrder(less)
    ensures IsTop(less, s, |s|, full)
  {
    if s == {} {
      full := [];
    } else {
      var m := LeastExists(less, s);
      var rest := RankingExists(less, s - {m});
      full := [m] + rest;
      DistinctElements(rest);
      SubsetSameSize(Elements(rest), s - {m});
      assert Elements(full) == {m} + Elements(rest);
    }
  }

  /** A newcomer that comes before no one goes to the end of the ranking. */
  lemma NewcomerRanksLast<T(!new)>(less: (T, T) -> bool, s: set<T>, full: seq<T>, x: T)
    requires IsTop(less, s, |s|, full) && x !in s && forall y | y in s :: !less(x, y)
    ensures IsTop(less, s + {x}, |s| + 1, full + [x])
  {
    assert |s + {x}| == |s| + 1;
    DistinctElements(full);
    SubsetSameSize(Elements(full), s);
    AppendDistinct(full, x);
    assert forall i | 0 <= i < |full| :: full[i] in s;
  }

  /** Whoever leaves, the others keep their order. */
  lemma LeaverLeavesRanking<T(!new)>(less: (T, T) -> bool, s: set<T>, full: seq<T>, i: nat)
    requires IsTop(less, s, |s|, full) && i < |full|
    ensures IsTop(less, s - {full[i]}, |s| - 1, full[..i] + full[i + 1..])
  {
    DistinctElements(full);
    SubsetSameSize(Elements(full), s);
    var r := full[..i] + full[i + 1..];
    assert forall j | 0 <= j < |r| :: r[j] == (if j < i then full[j] else full[j + 1]) && r[j] in s && r[j] != full[i];
    assert full[i] in s;
    DistinctElements(r);
    assert Elements(r) <= s - {full[i]};
    SubsetSameSize(Elements(r), s - {full[i]});
  }

  /** A ranking without ties is unique. */
  lemma RankingIsUnique<T(!new)>(less: (T, T) -> bool, s: set<T>, a: seq<T>, b: seq<T>)
    requires StrictWeakOrder(less) && TotalOn(less, s) && IsTop(less, s, |s|, a) && IsTop(less, s, |s|, b)
    ensures a == b
  {
    TopIsPrefixOfRanking(less, s, |s|, a, b);
  }

  /** A newcomer takes a place somewhere in the ranking, and the others keep their order. */
  lemma NewcomerTakesPlace<T(!new)>(less: (T, T) -> bool, s: set<T>, full: seq<T>, x: T) returns (at: nat)
    requires StrictWeakOrder(less) && IsTop(less, s, |s|, full) && x !in s
    ensures at <= |full| && IsTop(less, s + {x}, |s + {x}|, full[..at] + [x] + full[at..])
  {
    at := 0;
    while at < |full| && !less(x, full[at])
      invariant at <= |full|
      invariant forall j | 0 <= j < at :: !less(x, full[j])
    {
      at := at + 1;
    }
    InsertSorted(less, full, at, x);
    assert |s + {x}| == |s| + 1;
    DistinctElements(full);
    SubsetSameSize(Elements(full), s);
    InsertedElements(full, at, x);
  }

  /** A member that is replaced takes another place, and the others keep their order. */
  lemma MemberMoves<T(!new)>(less: (T, T) -> bool, s: set<T>, full: seq<T>, i: nat, x: T)
    returns (rest: seq<T>, at: nat)
    requires StrictWeakOrder(less) && IsTop(less, s, |s|, full) && i < |full| && full[i] in s && x !in s - {full[i]}
    ensures rest == full[..i] + full[i + 1..] && at <= |rest|
    ensures var t := s - {full[i]} + {x}; IsTop(less, t, |t|, rest[..at] + [x] + rest[at..])
  {
    hide IsTop, StrictWeakOrder;
    LeaverLeavesRanking(less, s, full, i);
    rest := full[..i] + full[i + 1..];
    assert |s - {full[i]}| == |s| - 1;
    at := NewcomerTakesPlace(less, s - {full[i]}, rest, x);
  }

  lemma InsertedElements<T(!new)>(full: seq<T>, at: nat, x: T)
    requires at <= |full| && Distinct(full) && x !in full
    ensures Distinct(full[..at] + [x] + full[at..])
    ensures Elements(full[..at] + [x] + full[at..]) == Elements(full) + {x}
  {
    var r := full[..at] + [x] + full[at..];
    assert full == full[..at] + full[at..];
    assert forall i | 0 <= i < |r| :: r[i] == (if i < at then full[i] else if i == at then x else full[i - 1]);
    forall i, j | 0 <= i < j < |r|
      ensures r[i] != r[j]
    {
      if i != at && j != at {
        assert full[if i < at then i else i - 1] != full[if j < at then j else j - 1];
      }
    }
  }
}
