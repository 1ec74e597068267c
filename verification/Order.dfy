/**
 Orders on strings and on tuples of strings, and what sort.Slice and sort.Strings promise:
 some arrangement of the input in which no element precedes a lesser one. Elements that
 compare equal may come out in any order, so the only general facts are Sorted and the
 multiset; SortedUnique says when that pins the arrangement down.
 */
module Order {

  ghost predicate StrictTotal<T(!new)>(less: (T, T) -> bool) {
    && (forall x :: !less(x, x))
    && (forall x, y, z :: less(x, y) && less(y, z) ==> less(x, z))
    && (forall x, y :: x == y || less(x, y) || less(y, x))
  }

  // Asymmetric, and "not less" is transitive: enough for sorting to make sense.
  ghost predicate StrictWeak<T(!new)>(less: (T, T) -> bool) {
    && (forall x, y :: less(x, y) ==> !less(y, x))
    && (forall x, y, z :: !less(x, y) && !less(y, z) ==> !less(x, z))
  }

  predicate Sorted<T>(s: seq<T>, less: (T, T) -> bool) {
    forall i, j :: 0 <= i < j < |s| ==> !less(s[j], s[i])
  }

  /** Lexicographic order */

  predicate LexLess<T(==)>(a: seq<T>, b: seq<T>, less: (T, T) -> bool) {
    if |a| == 0 then |b| > 0
    else if |b| == 0 then false
    else if a[0] == b[0] then LexLess(a[1..], b[1..], less)
    else less(a[0], b[0])
  }

  lemma {:induction false} LexIrreflexive<T(!new)>(a: seq<T>, less: (T, T) -> bool)
    requires StrictTotal(less)
    ensures !LexLess(a, a, less)
  {
    if a != [] { LexIrreflexive(a[1..], less); }
  }

  lemma {:induction false} LexTransitive<T(!new)>(a: seq<T>, b: seq<T>, c: seq<T>, less: (T, T) -> bool)
    requires StrictTotal(less) && LexLess(a, b, less) && LexLess(b, c, less)
    ensures LexLess(a, c, less)
  {
    if a != [] && b != [] && c != [] {
      if a[0] == b[0] == c[0] { LexTransitive(a[1..], b[1..], c[1..], less); }
    }
  }

  lemma {:induction false} LexConnected<T(!new)>(a: seq<T>, b: seq<T>, less: (T, T) -> bool)
    requires StrictTotal(less)
    ensures a == b || LexLess(a, b, less) || LexLess(b, a, less)
  {
    if a != [] && b != [] && a[0] == b[0] {
      LexConnected(a[1..], b[1..], less);
      assert a == [a[0]] + a[1..] && b == [b[0]] + b[1..];
    }
  }

  predicate CharLess(a: char, b: char) { a < b }

  predicate StringLess(a: string, b: string) { LexLess(a, b, CharLess) }

  // The comparison of the multi-key sorts: first differing key decides.
  predicate KeysLess(a: seq<string>, b: seq<string>) { LexLess(a, b, StringLess) }

  lemma StringsAreOrdered()
    ensures StrictTotal(StringLess)
  {
    forall x, y ensures !StringLess(x, x) && (x == y || StringLess(x, y) || StringLess(y, x)) {
      LexIrreflexive(x, CharLess);
      LexConnected(x, y, CharLess);
    }
    forall x, y, z | StringLess(x, y) && StringLess(y, z) ensures StringLess(x, z) {
      LexTransitive(x, y, z, CharLess);
    }
  }

  lemma KeysAreOrdered()
    ensures StrictTotal(KeysLess)
  {
    StringsAreOrdered();
    forall x, y ensures !KeysLess(x, x) && (x == y || KeysLess(x, y) || KeysLess(y, x)) {
      LexIrreflexive(x, StringLess);
      LexConnected(x, y, StringLess);
    }
    forall x, y, z | KeysLess(x, y) && KeysLess(y, z) ensures KeysLess(x, z) {
      LexTransitive(x, y, z, StringLess);
    }
  }

  lemma TotalIsWeak<T(!new)>(less: (T, T) -> bool)
    requires StrictTotal(less)
    ensures StrictWeak(less)
  {
  }

  /** Sorting */

  function Insert<T>(x: T, s: seq<T>, less: (T, T) -> bool): seq<T> {
    if s == [] then [x]
    else if less(s[0], x) then [s[0]] + Insert(x, s[1..], less)
    else [x] + s
  }

  function Sort<T>(s: seq<T>, less: (T, T) -> bool): seq<T> {
    if s == [] then [] else Insert(s[0], Sort(s[1..], less), less)
  }

  lemma {:induction false} InsertKeeps<T>(x: T, s: seq<T>, less: (T, T) -> bool)
    ensures multiset(Insert(x, s, less)) == multiset{x} + multiset(s)
  {
    if s != [] && less(s[0], x) {
      InsertKeeps(x, s[1..], less);
      assert s == [s[0]] + s[1..];
    }
  }

  lemma SortedCons<T>(x: T, s: seq<T>, less: (T, T) -> bool)
    requires Sorted(s, less) && forall y :: y in multiset(s) ==> !less(y, x)
    ensures Sorted([x] + s, less)
  {
    var t := [x] + s;
    forall i, j | 0 <= i < j < |t| ensures !less(t[j], t[i]) {
      assert t[j] == s[j - 1] && s[j - 1] in multiset(s);
    }
  }

  lemma SortedTail<T>(s: seq<T>, less: (T, T) -> bool)
    requires Sorted(s, less) && s != []
    ensures Sorted(s[1..], less)
    ensures multiset(s) == multiset{s[0]} + multiset(s[1..])
    ensures forall y :: y in multiset(s[1..]) ==> !less(y, s[0])
  {
    assert s == [s[0]] + s[1..];
    forall y | y in multiset(s[1..]) ensures !less(y, s[0]) {
      var j :| 0 <= j < |s[1..]| && s[1..][j] == y;
      assert s[j + 1] == y;
    }
  }

  lemma {:induction false} InsertSorts<T(!new)>(x: T, s: seq<T>, less: (T, T) -> bool)
    requires StrictWeak(less) && Sorted(s, less)
    ensures Sorted(Insert(x, s, less), less)
  {
    if s == [] {
    } else {
      SortedTail(s, less);
      if less(s[0], x) {
        InsertSorts(x, s[1..], less);
        InsertKeeps(x, s[1..], less);
        SortedCons(s[0], Insert(x, s[1..], less), less);
      } else {
        SortedCons(x, s, less);
      }
    }
  }

  lemma {:induction false} SortSorts<T(!new)>(s: seq<T>, less: (T, T) -> bool)
    requires StrictWeak(less)
    ensures Sorted(Sort(s, less), less)
    ensures multiset(Sort(s, less)) == multiset(s)
  {
    if s != [] {
      SortSorts(s[1..], less);
      InsertSorts(s[0], Sort(s[1..], less), less);
      InsertKeeps(s[0], Sort(s[1..], less), less);
      assert s == [s[0]] + s[1..];
    }
  }

  // The comparison tells any two different elements of m apart.
  ghost predicate Separates<T(!new)>(m: multiset<T>, less: (T, T) -> bool) {
    forall x, y :: x in m && y in m && x != y ==> less(x, y) || less(y, x)
  }

  lemma FewerSeparates<T(!new)>(m: multiset<T>, n: multiset<T>, less: (T, T) -> bool)
    requires Separates(m, less) && n <= m
    ensures Separates(n, less)
  {
    assert forall x :: x in n ==> x in m;
  }

  lemma SameHead<T(!new)>(a: seq<T>, b: seq<T>, less: (T, T) -> bool)
    requires Sorted(a, less) && Sorted(b, less) && a != [] && b != []
    requires multiset(a) == multiset(b) && Separates(multiset(a), less)
    ensures a[0] == b[0]
    ensures multiset(a[1..]) == multiset(b[1..]) && Separates(multiset(a[1..]), less)
    ensures Sorted(a[1..], less) && Sorted(b[1..], less)
  {
    SortedTail(a, less);
    SortedTail(b, less);
    assert a[0] in multiset(a) && b[0] in multiset(b);
    assert a[0] == b[0];
    assert multiset(a[1..]) == multiset(a) - multiset{a[0]};
    assert multiset(b[1..]) == multiset(b) - multiset{b[0]};
    FewerSeparates(multiset(a), multiset(a[1..]), less);
  }

  // Then there is only one way to arrange them.
  lemma {:induction false} SortedUnique<T(!new)>(a: seq<T>, b: seq<T>, less: (T, T) -> bool)
    requires Sorted(a, less) && Sorted(b, less)
    requires multiset(a) == multiset(b) && Separates(multiset(a), less)
    ensures a == b
  {
    assert |a| == |multiset(a)| && |b| == |multiset(b)|;
    if a != [] {
      SameHead(a, b, less);
      SortedUnique(a[1..], b[1..], less);
      assert a == [a[0]] + a[1..] && b == [b[0]] + b[1..];
    }
  }

  /** Sets listed in order */

  lemma {:induction false} DistinctCount(s: seq<string>)
    requires forall i, j :: 0 <= i < j < |s| ==> s[i] != s[j]
    ensures |set x | x in s| == |s|
  {
    if s != [] {
      DistinctCount(s[1..]);
      assert s == [s[0]] + s[1..];
      assert (set x | x in s) == {s[0]} + set x | x in s[1..];
    }
  }

  lemma {:induction false} SubsetOfSameSize<T>(a: set<T>, b: set<T>)
    ensures a <= b && |a| == |b| ==> a == b
  {
    if a < b {
      var x :| x in b && x !in a;
      SubsetSize(a, b - {x});
    }
  }

  lemma {:induction false} SubsetSize<T>(a: set<T>, b: set<T>)
    requires a <= b
    ensures |a| <= |b|
  {
    if a != {} {
      var x :| x in a;
      SubsetSize(a - {x}, b - {x});
    }
  }

  // Ranging over a map's keys and sorting them.
  method SortedKeys(keys: set<string>) returns (ids: seq<string>)
    ensures Sorted(ids, StringLess)
    ensures forall x :: x in ids <==> x in keys
    ensures forall i, j :: 0 <= i < j < |ids| ==> ids[i] != ids[j]
    ensures |ids| == |keys|
  {
    var listed: seq<string>, left := [], keys;
    while left != {}
      invariant left <= keys
      invariant multiset(listed) == multiset(keys - left)
      decreases left
    {
      var k :| k in left;
      listed, left := listed + [k], left - {k};
      assert keys - left == keys - (left + {k}) + {k};
    }
    assert keys - left == keys;
    ids := Sort(listed, StringLess);
    StringsAreOrdered();
    TotalIsWeak(StringLess);
    SortSorts(listed, StringLess);
    OnceEach(ids, keys);
  }

  // The same where the order plays no part.
  method ListKeys(keys: set<string>) returns (ids: seq<string>)
    ensures forall x :: x in ids <==> x in keys
    ensures forall i, j :: 0 <= i < j < |ids| ==> ids[i] != ids[j]
    ensures |ids| == |keys|
  {
    ids := SortedKeys(keys);
  }

  lemma OnceEach(s: seq<string>, keys: set<string>)
    requires multiset(s) == multiset(keys)
    ensures forall x :: x in s <==> x in keys
    ensures forall i, j :: 0 <= i < j < |s| ==> s[i] != s[j]
    ensures |s| == |keys|
  {
    forall x ensures x in s <==> x in keys { assert x in multiset(s) <==> x in multiset(keys); }
    forall i, j | 0 <= i < j < |s| ensures s[i] != s[j] {
      assert s == s[..i] + [s[i]] + s[i + 1..j] + [s[j]] + s[j + 1..];
      assert multiset(keys)[s[i]] <= 1;
    }
    assert |multiset(s)| == |s| && |multiset(keys)| == |keys|;
  }

  lemma {:induction false} NoRepeats<T>(s: seq<T>)
    requires forall i, j :: 0 <= i < j < |s| ==> s[i] != s[j]
    ensures forall x :: multiset(s)[x] <= 1
  {
    if s != [] {
      NoRepeats(s[1..]);
      assert s == [s[0]] + s[1..];
      assert s[0] !in s[1..];
      assert s[0] !in multiset(s[1..]);
    }
  }
}
