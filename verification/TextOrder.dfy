/** Code-point order on text, the order Python's `sorted` uses for `str`. */
module TextOrder {
  import opened Sorting

  predicate Less(a: string, b: string) {
    b != "" && (a == "" || a[0] < b[0] || (a[0] == b[0] && Less(a[1..], b[1..])))
  }

  /** A text comes first if it is the other's beginning, or smaller where they first differ. */
  lemma {:induction false} LessExactly(a: string, b: string)
    ensures Less(a, b) <==> exists k :: 0 <= k < |b| && k <= |a| && a[..k] == b[..k] && (k == |a| || a[k] < b[k])
  {
    if a != "" && b != "" && a[0] == b[0] {
      LessExactly(a[1..], b[1..]);
      if k :| 0 <= k < |b[1..]| && k <= |a[1..]| && a[1..][..k] == b[1..][..k] && (k == |a[1..]| || a[1..][k] < b[1..][k]) {
        assert a[..k + 1] == [a[0]] + a[1..][..k] && b[..k + 1] == [b[0]] + b[1..][..k];
      }
      if k :| 0 <= k < |b| && k <= |a| && a[..k] == b[..k] && (k == |a| || a[k] < b[k]) {
        assert a[1..][..k - 1] == a[..k][1..] && b[1..][..k - 1] == b[..k][1..];
      }
    } else if b != "" && (a == "" || a[0] < b[0]) {
      assert a[..0] == b[..0];
    } else {
      forall k | 0 < k <= |a| && k <= |b| ensures a[..k] == b[..k] ==> a[0] == b[0] { SameHead(a, b, k); }
    }
  }

  lemma SameHead(a: string, b: string, k: nat)
    requires 0 < k <= |a| && k <= |b|
    ensures a[..k] == b[..k] ==> a[0] == b[0]
  {
    assert a[..k][0] == a[0] && b[..k][0] == b[0];
  }

  lemma {:induction false} LessIrreflexive(a: string)
    ensures !Less(a, a)
  {
    if a != "" { LessIrreflexive(a[1..]); }
  }

  lemma {:induction false} LessTransitive(a: string, b: string, c: string)
    requires Less(a, b) && Less(b, c)
    ensures Less(a, c)
  {
    if a != "" && a[0] == b[0] && b[0] == c[0] {
      LessTransitive(a[1..], b[1..], c[1..]);
    }
  }

  lemma {:induction false} LessTotal(a: string, b: string)
    ensures a == b || Less(a, b) || Less(b, a)
  {
    if a != "" && b != "" && a[0] == b[0] {
      LessTotal(a[1..], b[1..]);
      if a[1..] == b[1..] { assert a == [a[0]] + a[1..] && b == [b[0]] + b[1..]; }
    }
  }

  lemma TextIsOrdered()
    ensures StrictTotal(Less)
  {
    forall a ensures !Less(a, a) { LessIrreflexive(a); }
    forall a, b, c | Less(a, b) && Less(b, c) ensures Less(a, c) { LessTransitive(a, b, c); }
    forall a, b ensures a == b || Less(a, b) || Less(b, a) { LessTotal(a, b); }
  }

  /** `sorted(s)` for a set of text. */
  function SortText(s: set<string>): (r: seq<string>)
    ensures Ascending(r, Less) && Elements(r) == s && |r| == |s|
  {
    TextIsOrdered();
    Sort(s, Less)
  }

  lemma SortTextUnique(r: seq<string>, s: set<string>)
    requires Ascending(r, Less) && Elements(r) == s
    ensures r == SortText(s)
  {
    TextIsOrdered();
    AscendingUnique(r, SortText(s), Less);
  }

  /** Text that follows everything in a set goes to the end of its listing. */
  lemma SortTextAppend(s: set<string>, x: string)
    requires forall y | y in s :: Less(y, x)
    ensures SortText(s + {x}) == SortText(s) + [x]
  {
    hide Less, SortText;
    var r := SortText(s) + [x];
    forall i | 0 <= i < |SortText(s)| ensures Less(SortText(s)[i], x) { assert SortText(s)[i] in Elements(SortText(s)); }
    assert Elements(r) == Elements(SortText(s)) + {x};
    SortTextUnique(r, s + {x});
  }

  // ------------------------------------------------------------------ sorted(..., key=...)

  predicate OrderedBy<T>(s: seq<T>, key: T -> string) {
    forall i, j | 0 <= i < j < |s| :: !Less(key(s[j]), key(s[i]))
  }

  /** Puts x behind everything whose key does not come after its own. */
  function InsertBy<T>(s: seq<T>, x: T, key: T -> string): seq<T> {
    if s != [] && Less(key(x), key(s[|s| - 1])) then InsertBy(s[..|s| - 1], x, key) + [s[|s| - 1]] else s + [x]
  }

  /** Python's stable `sorted(s, key=key)`. */
  function SortBy<T>(s: seq<T>, key: T -> string): seq<T> {
    if s == [] then [] else InsertBy(SortBy(s[..|s| - 1], key), s[|s| - 1], key)
  }

  lemma {:induction false} InsertByKeeps<T>(s: seq<T>, x: T, key: T -> string)
    ensures multiset(InsertBy(s, x, key)) == multiset(s) + multiset{x}
  {
    if s != [] && Less(key(x), key(s[|s| - 1])) {
      InsertByKeeps(s[..|s| - 1], x, key);
      assert s == s[..|s| - 1] + [s[|s| - 1]];
    }
  }

  lemma {:induction false} SortByKeeps<T>(s: seq<T>, key: T -> string)
    ensures multiset(SortBy(s, key)) == multiset(s) && |SortBy(s, key)| == |s|
  {
    hide InsertBy, Less;
    if s != [] {
      var n := |s| - 1;
      var front := SortBy(s[..n], key);
      SortByKeeps(s[..n], key);
      InsertByKeeps(front, s[n], key);
      assert s == s[..n] + [s[n]];
      assert multiset(s) == multiset(s[..n]) + multiset{s[n]};
      SameSize(InsertBy(front, s[n], key), s);
    }
  }

  lemma SameSize<T>(a: seq<T>, b: seq<T>)
    requires multiset(a) == multiset(b)
    ensures |a| == |b|
  {
    assert |multiset(a)| == |a| && |multiset(b)| == |b|;
  }

  lemma SortByElements<T(!new)>(s: seq<T>, key: T -> string)
    ensures Elements(SortBy(s, key)) == Elements(s)
  {
    SortByKeeps(s, key);
    hide SortBy;
    forall x ensures x in Elements(SortBy(s, key)) <==> x in Elements(s) {
      assert x in multiset(SortBy(s, key)) <==> x in multiset(s);
    }
  }

  lemma InsertByMembers<T>(s: seq<T>, x: T, key: T -> string, i: nat)
    requires i < |InsertBy(s, x, key)|
    ensures InsertBy(s, x, key)[i] == x || InsertBy(s, x, key)[i] in s
  {
    hide InsertBy;
    InsertByKeeps(s, x, key);
    assert InsertBy(s, x, key)[i] in multiset(InsertBy(s, x, key));
  }

  lemma {:induction false} InsertByOrders<T>(s: seq<T>, x: T, key: T -> string)
    requires OrderedBy(s, key)
    ensures OrderedBy(InsertBy(s, x, key), key)
  {
    hide Less;
    TextIsOrdered();
    if s != [] && Less(key(x), key(s[|s| - 1])) {
      var n := |s| - 1;
      InsertByOrders(s[..n], x, key);
      var r := InsertBy(s[..n], x, key);
      forall i | 0 <= i < |r| ensures !Less(key(s[n]), key(r[i])) {
        InsertByMembers(s[..n], x, key, i);
        if r[i] != x { var k :| 0 <= k < n && s[k] == r[i]; }
      }
    }
  }

  lemma {:induction false} SortByOrders<T>(s: seq<T>, key: T -> string)
    ensures OrderedBy(SortBy(s, key), key)
  {
    if s != [] {
      SortByOrders(s[..|s| - 1], key);
      InsertByOrders(SortBy(s[..|s| - 1], key), s[|s| - 1], key);
    }
  }

  /** Sorting what is sorted changes nothing. */
  lemma {:induction false} SortByFixes<T>(s: seq<T>, key: T -> string)
    requires OrderedBy(s, key)
    ensures SortBy(s, key) == s
  {
    if s != [] {
      var n := |s| - 1;
      SortByFixes(s[..n], key);
      assert s == s[..n] + [s[n]];
    }
  }
}
