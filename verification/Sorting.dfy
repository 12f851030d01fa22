/** Python's `sorted` over a set of pairwise comparable elements, and the
    "keep the first k" cut that the source takes of such a list.

    Every order here is strict and total, so the sorted listing of a set is unique.
 */
module Sorting {

  ghost predicate StrictTotal<T(!new)>(less: (T, T) -> bool) {
    && (forall x :: !less(x, x))
    && (forall x, y, z :: less(x, y) && less(y, z) ==> less(x, z))
    && (forall x, y :: x == y || less(x, y) || less(y, x))
  }

  ghost predicate StrictOrder<T(!new)>(less: (T, T) -> bool) {
    && (forall x :: !less(x, x))
    && (forall x, y, z :: less(x, y) && less(y, z) ==> less(x, z))
  }

  predicate Ascending<T(==)>(s: seq<T>, less: (T, T) -> bool) {
    forall i, j :: 0 <= i < j < |s| ==> less(s[i], s[j])
  }

  function Elements<T>(s: seq<T>): set<T> {
    set x | x in s
  }

  lemma {:induction false} LeastExists<T(!new)>(s: set<T>, less: (T, T) -> bool)
    requires StrictTotal(less) && s != {}
    ensures exists x :: x in s && forall y | y in s :: y == x || less(x, y)
  {
    var x :| x in s;
    if s != {x} {
      LeastExists(s - {x}, less);
      var m :| m in s - {x} && forall y | y in s - {x} :: y == m || less(m, y);
      LeastOfTwo(s, x, m, less);
    } else {
      assert x in s && forall y | y in s :: y == x || less(x, y);
    }
  }

  lemma LeastOfTwo<T(!new)>(s: set<T>, x: T, m: T, less: (T, T) -> bool)
    requires StrictTotal(less) && x in s && m in s && m != x && forall y | y in s - {x} :: y == m || less(m, y)
    ensures exists l :: l in s && forall y | y in s :: y == l || less(l, y)
  {
    if less(m, x) {
      forall y | y in s ensures y == m || less(m, y) { assert y == x || y in s - {x}; }
    } else {
      assert less(x, m);
      forall y | y in s ensures y == x || less(x, y) { assert y == x || y == m || less(m, y); }
    }
  }

  function Least<T(!new)>(s: set<T>, less: (T, T) -> bool): (x: T)
    requires StrictTotal(less) && s != {}
    ensures x in s && forall y | y in s :: y == x || less(x, y)
  {
    LeastExists(s, less);
    var x :| x in s && forall y | y in s :: y == x || less(x, y);
    x
  }

  /** The ascending listing of a finite set. */
  function Sort<T(!new)>(s: set<T>, less: (T, T) -> bool): (r: seq<T>)
    requires StrictTotal(less)
    ensures Ascending(r, less) && Elements(r) == s && |r| == |s|
  {
    if s == {} then [] else
      var x := Least(s, less);
      var rest := Sort(s - {x}, less);
      assert forall y :: y in [x] + rest <==> y == x || y in Elements(rest);
      [x] + rest
  }

  /** A set has one ascending listing: whoever produced it, it is `Sort`. */
  lemma {:induction false} AscendingUnique<T(!new)>(a: seq<T>, b: seq<T>, less: (T, T) -> bool)
    requires StrictOrder(less) && Ascending(a, less) && Ascending(b, less)
    requires Elements(a) == Elements(b)
    ensures a == b
  {
    assert forall i | 0 <= i < |a| :: a[i] in Elements(b);
    assert forall i | 0 <= i < |b| :: b[i] in Elements(a);
    if a != [] {
      if b != [] {
        assert a[0] == b[0];
        assert Elements(a[1..]) == Elements(a) - {a[0]};
        assert Elements(b[1..]) == Elements(b) - {b[0]};
        AscendingUnique(a[1..], b[1..], less);
        assert a == [a[0]] + a[1..] && b == [b[0]] + b[1..];
      }
    }
  }

  lemma AscendingInjective<T(!new)>(s: seq<T>, i: nat, j: nat, less: (T, T) -> bool)
    requires StrictOrder(less) && Ascending(s, less) && i < |s| && j < |s|
    ensures s[i] == s[j] ==> i == j
  {
    assert i < j ==> less(s[i], s[j]);
    assert j < i ==> less(s[j], s[i]);
  }

  lemma {:induction false} ElementsSize<T(!new)>(a: seq<T>, less: (T, T) -> bool)
    requires StrictTotal(less) && Ascending(a, less)
    ensures |Elements(a)| == |a|
  {
    if a != [] {
      var last := |a| - 1;
      ElementsSize(a[..last], less);
      assert Elements(a) == Elements(a[..last]) + {a[last]};
    }
  }

  /** The members of `s` that come before `x`. */
  function Before<T>(s: set<T>, x: T, less: (T, T) -> bool): set<T> {
    set y | y in s && less(y, x)
  }

  /** The first k members of `s`: those with fewer than k members before them. */
  function First<T>(s: set<T>, k: nat, less: (T, T) -> bool): set<T> {
    set x | x in s && |Before(s, x, less)| < k
  }

  lemma BeforeInListing<T(!new)>(c: seq<T>, i: nat, less: (T, T) -> bool)
    requires StrictTotal(less) && Ascending(c, less) && i < |c|
    ensures Before(Elements(c), c[i], less) == Elements(c[..i])
    ensures |Before(Elements(c), c[i], less)| == i
  {
    ElementsSize(c[..i], less);
    assert Before(Elements(c), c[i], less) == Elements(c[..i]);
  }

  /** Cutting a listing after k entries leaves the first k members of the set. */
  lemma FirstIsPrefix<T(!new)>(c: seq<T>, k: nat, less: (T, T) -> bool)
    requires StrictTotal(less) && Ascending(c, less)
    ensures var cut := if k < |c| then k else |c|;
            First(Elements(c), k, less) == Elements(c[..cut]) && |Elements(c[..cut])| == cut
  {
    var cut := if k < |c| then k else |c|;
    ElementsSize(c[..cut], less);
    forall x | x in First(Elements(c), k, less)
      ensures x in Elements(c[..cut])
    {
      var i :| 0 <= i < |c| && c[i] == x;
      BeforeInListing(c, i, less);
      assert c[..cut][i] == x;
    }
    forall x | x in Elements(c[..cut])
      ensures x in First(Elements(c), k, less)
    {
      var i :| 0 <= i < cut && c[..cut][i] == x;
      BeforeInListing(c, i, less);
    }
  }

  lemma FirstSize<T(!new)>(s: set<T>, k: nat, less: (T, T) -> bool)
    requires StrictTotal(less)
    ensures |First(s, k, less)| == if k < |s| then k else |s|
  {
    FirstIsPrefix(Sort(s, less), k, less);
  }

  /** Whatever stands before a kept member is kept too. */
  lemma FirstIsInitial<T(!new)>(s: set<T>, k: nat, x: T, y: T, less: (T, T) -> bool)
    requires StrictTotal(less) && x in First(s, k, less) && y in s && less(y, x)
    ensures y in First(s, k, less)
  {
    SubsetSize(Before(s, y, less), Before(s, x, less));
  }

  lemma {:induction false} SubsetSize<T>(a: set<T>, b: set<T>)
    requires a <= b
    ensures |a| <= |b|
    ensures |a| == |b| ==> a == b
  {
    assert b == a + (b - a);
    assert |b| == |a| + |b - a|;
  }

  /** Cutting twice, with a newcomer in between, is the same as cutting once at the end. */
  lemma FirstAbsorbsFirst<T(!new)>(s: set<T>, n: T, k: nat, less: (T, T) -> bool)
    requires StrictTotal(less)
    ensures First(First(s, k, less) + {n}, k, less) == First(s + {n}, k, less)
  {
    var t := First(s, k, less);
    forall x | x in s + {n}
      ensures x in First(t + {n}, k, less) <==> x in First(s + {n}, k, less)
    {
      SubsetSize(Before(t + {n}, x, less), Before(s + {n}, x, less));
      if x == n {
        RankOfNewcomer(s, n, k, less);
      } else if x in t {
        forall y | y in s && less(y, x) ensures y in t { FirstIsInitial(s, k, x, y, less); }
        assert Before(t + {n}, x, less) == Before(s + {n}, x, less);
      } else {
        SubsetSize(Before(s, x, less), Before(s + {n}, x, less));
      }
    }
  }

  /** A newcomer that precedes everyone takes one place; the rest of the cut is shared. */
  lemma FirstWithLeader<T(!new)>(s: set<T>, n: T, k: nat, less: (T, T) -> bool)
    requires StrictTotal(less) && k >= 1 && forall x | x in s :: less(n, x)
    ensures First(First(s, k - 1, less) + {n}, k, less) == First(s + {n}, k, less)
  {
    hide StrictTotal;
    var t := First(s, k - 1, less);
    forall x | x in s ensures x in First(t + {n}, k, less) <==> x in First(s + {n}, k, less) {
      RankBehindLeader(s, n, k, x, less);
    }
    NobodyLeads(s, n, less);
    NobodyLeads(t, n, less);
  }

  lemma NobodyLeads<T(!new)>(s: set<T>, n: T, less: (T, T) -> bool)
    requires StrictTotal(less) && forall x | x in s :: less(n, x)
    ensures Before(s + {n}, n, less) == {} && n !in s
  {
    assert !less(n, n);
  }

  lemma RankBehindLeader<T(!new)>(s: set<T>, n: T, k: nat, x: T, less: (T, T) -> bool)
    requires StrictTotal(less) && k >= 1 && x in s && forall y | y in s :: less(n, y)
    ensures x in First(First(s, k - 1, less) + {n}, k, less) <==> x in First(s + {n}, k, less)
  {
    var t := First(s, k - 1, less);
    NobodyLeads(s, n, less);
    assert Before(s + {n}, x, less) == Before(s, x, less) + {n};
    assert |Before(s + {n}, x, less)| == |Before(s, x, less)| + 1;
    if x in t {
      forall y | y in s && less(y, x) ensures y in t { FirstIsInitial(s, k - 1, x, y, less); }
      assert Before(t + {n}, x, less) == Before(s + {n}, x, less);
    }
  }

  lemma RankOfNewcomer<T(!new)>(s: set<T>, n: T, k: nat, less: (T, T) -> bool)
    requires StrictTotal(less)
    ensures |Before(First(s, k, less) + {n}, n, less)| < k <==> |Before(s + {n}, n, less)| < k
  {
    var t := First(s, k, less);
    var a := Before(s, n, less);
    assert Before(s + {n}, n, less) == a;
    assert Before(t + {n}, n, less) == t * a;
    SubsetSize(t * a, a);
    if |a| < k {
      forall y | y in a ensures y in t {
        assert Before(s, y, less) <= a;
        SubsetSize(Before(s, y, less), a);
      }
      assert t * a == a;
    } else {
      FirstSize(s, k, less);
      SubsetSize(a, s);
      forall y | y in t ensures y in a {
        if y !in a {
          assert a <= Before(s, y, less);
          SubsetSize(a, Before(s, y, less));
        }
      }
      assert t * a == t;
    }
  }
}
