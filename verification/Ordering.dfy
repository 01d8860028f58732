/** Comparison orders and sorting shared by the components: JavaScript's string
    order (character by character) and a sort by an arbitrary comparator. */
module Ordering {

  // ----- comparators -----

  ghost predicate TotalPreorder<T(!new)>(le: (T, T) -> bool) {
    && (forall x, y :: le(x, y) || le(y, x))
    && (forall x, y, z :: le(x, y) && le(y, z) ==> le(x, z))
  }

  ghost predicate TotalOrder<T(!new)>(le: (T, T) -> bool) {
    TotalPreorder(le) && forall x, y :: le(x, y) && le(y, x) ==> x == y
  }

  ghost predicate SortedBy<T>(le: (T, T) -> bool, s: seq<T>) {
    forall i, j :: 0 <= i < j < |s| ==> le(s[i], s[j])
  }

  predicate Distinct<T(==)>(s: seq<T>) {
    forall i, j :: 0 <= i < j < |s| ==> s[i] != s[j]
  }

  function Elements<T>(s: seq<T>): set<T> {
    set x | x in s
  }

  lemma ElementsOneMore<T>(s: seq<T>, i: nat)
    requires i < |s|
    ensures Elements(s[..i + 1]) == Elements(s[..i]) + {s[i]}
  {
  }

  // ----- counting -----

  lemma {:induction false} SubsetSize<T>(s: set<T>, t: set<T>)
    requires s <= t
    ensures |s| <= |t|
    ensures |s| == |t| ==> s == t
  {
    if s != {} {
      var x :| x in s;
      SubsetSize(s - {x}, t - {x});
    }
  }

  lemma {:induction false} DistinctLength<T>(s: seq<T>)
    requires Distinct(s)
    ensures |Elements(s)| == |s|
  {
    if s != [] {
      var n := |s| - 1;
      DistinctLength(s[..n]);
      assert Elements(s) == Elements(s[..n]) + {s[n]};
      assert s[n] !in Elements(s[..n]);
    }
  }

  lemma PermutationStaysDistinct<T>(s: seq<T>, t: seq<T>)
    requires Distinct(s) && multiset(s) == multiset(t)
    ensures Distinct(t)
  {
    forall i, j | 0 <= i < j < |t| ensures t[i] != t[j] {
      if t[i] == t[j] {
        CountAtLeastTwo(t, i, j);
        DistinctCountsOnce(s, t[i]);
      }
    }
  }

  lemma {:induction false} DistinctCountsOnce<T>(s: seq<T>, x: T)
    requires Distinct(s)
    ensures multiset(s)[x] <= 1
  {
    if s != [] {
      var n := |s| - 1;
      DistinctCountsOnce(s[..n], x);
      assert s == s[..n] + [s[n]];
      if s[n] == x {
        assert x !in s[..n];
      }
    }
  }

  lemma CountAtLeastTwo<T>(t: seq<T>, i: nat, j: nat)
    requires i < j < |t| && t[i] == t[j]
    ensures multiset(t)[t[i]] >= 2
  {
    assert t == t[..j] + [t[j]] + t[j + 1..];
    assert t[..j][i] in t[..j];
  }

  // ----- the string order -----

  // JavaScript compares UTF-16 units, which is the same order on strings of the basic plane; the
  // hashes, ids and canonical texts sorted here are such strings.

  predicate LexLe(a: string, b: string) {
    if a == "" then true
    else if b == "" then false
    else if a[0] != b[0] then a[0] < b[0]
    else LexLe(a[1..], b[1..])
  }

  lemma {:induction false} LexTotal(a: string, b: string)
    ensures LexLe(a, b) || LexLe(b, a)
  {
    if a != "" && b != "" && a[0] == b[0] {
      LexTotal(a[1..], b[1..]);
    }
  }

  lemma {:induction false} LexAntisymmetric(a: string, b: string)
    requires LexLe(a, b) && LexLe(b, a)
    ensures a == b
  {
    if a != "" && b != "" && a[0] == b[0] {
      LexAntisymmetric(a[1..], b[1..]);
      assert a == [a[0]] + a[1..] && b == [b[0]] + b[1..];
    }
  }

  lemma {:induction false} LexTransitive(a: string, b: string, c: string)
    requires LexLe(a, b) && LexLe(b, c)
    ensures LexLe(a, c)
  {
    if a != "" && b != "" && c != "" && a[0] == b[0] && b[0] == c[0] {
      LexTransitive(a[1..], b[1..], c[1..]);
    }
  }

  lemma LexIsTotalOrder()
    ensures TotalOrder(LexLe)
  {
    forall a, b ensures LexLe(a, b) || LexLe(b, a) { LexTotal(a, b); }
    forall a, b | LexLe(a, b) && LexLe(b, a) ensures a == b { LexAntisymmetric(a, b); }
    forall a, b, c | LexLe(a, b) && LexLe(b, c) ensures LexLe(a, c) { LexTransitive(a, b, c); }
  }

  /** One text before another: a proper beginning of it, or smaller where they first differ. */
  ghost predicate TextBefore(a: string, b: string) {
    a < b || exists k: nat :: Splits(a, b, k) && a[k] < b[k]
  }

  /** The texts agree up to `k`. */
  predicate Splits(a: string, b: string, k: nat) {
    k < |a| && k < |b| && a[..k] == b[..k]
  }

  lemma SplitsShareTheirStart(a: string, b: string, k: nat)
    requires Splits(a, b, k)
    ensures k > 0 ==> a[0] == b[0]
  {
    assert k > 0 ==> a[..k][0] == b[..k][0];
  }

  lemma {:induction false} LexLeIsTextOrder(a: string, b: string)
    ensures LexLe(a, b) <==> a == b || TextBefore(a, b)
  {
    if a == "" || b == "" {
      assert a == "" && b != "" ==> a < b;
    } else if a[0] != b[0] {
      assert Splits(a, b, 0);
      forall k: nat | Splits(a, b, k) ensures k == 0 {
        SplitsShareTheirStart(a, b, k);
      }
    } else {
      LexLeIsTextOrder(a[1..], b[1..]);
      TailsKeepOrder(a, b);
    }
  }

  /** Strictly: what comes before does not come after. */
  lemma TextOrderIsStrict(a: string, b: string)
    ensures TextBefore(a, b) <==> LexLe(a, b) && !LexLe(b, a)
  {
    LexLeIsTextOrder(a, b);
    if TextBefore(a, b) && LexLe(b, a) {
      LexAntisymmetric(a, b);
      NotBeforeItself(a);
    }
    LexTotal(a, a);
  }

  lemma NotBeforeItself(s: string)
    ensures !TextBefore(s, s)
  {
  }

  lemma TailsKeepOrder(a: string, b: string)
    requires a != "" && b != "" && a[0] == b[0]
    ensures TextBefore(a, b) <==> TextBefore(a[1..], b[1..])
    ensures a == b <==> a[1..] == b[1..]
  {
    var c, d := a[1..], b[1..];
    assert a == [a[0]] + c && b == [b[0]] + d;
    assert a < b <==> c < d;
    if k: nat :| Splits(a, b, k) && a[k] < b[k] {
      assert c[..k - 1] == a[..k][1..] && d[..k - 1] == b[..k][1..];
      assert Splits(c, d, k - 1) && c[k - 1] < d[k - 1];
    }
    if k: nat :| Splits(c, d, k) && c[k] < d[k] {
      assert a[..k + 1] == [a[0]] + c[..k] && b[..k + 1] == [b[0]] + d[..k];
      assert Splits(a, b, k + 1) && a[k + 1] < b[k + 1];
    }
  }

  // ----- sorting -----

  function Insert<T>(le: (T, T) -> bool, x: T, s: seq<T>): seq<T> {
    if s == [] || (le(x, s[0]) && !le(s[0], x)) then [x] + s
    else [s[0]] + Insert(le, x, s[1..])
  }

  /** `Array.prototype.sort` with a comparator: stable, so an element goes after its equals. */
  function Sort<T>(le: (T, T) -> bool, s: seq<T>): seq<T> {
    if s == [] then [] else Insert(le, s[|s| - 1], Sort(le, s[..|s| - 1]))
  }

  lemma MultisetOfCons<T>(x: T, s: seq<T>)
    ensures multiset([x] + s) == multiset{x} + multiset(s)
  {
  }

  lemma MultisetOfInit<T>(s: seq<T>)
    requires s != []
    ensures multiset(s) == multiset(s[..|s| - 1]) + multiset{s[|s| - 1]}
  {
    assert s == s[..|s| - 1] + [s[|s| - 1]];
  }

  lemma MultisetOfTail<T>(s: seq<T>)
    requires s != []
    ensures multiset(s) == multiset{s[0]} + multiset(s[1..])
  {
    MultisetOfCons(s[0], s[1..]);
    assert s == [s[0]] + s[1..];
  }

  lemma {:induction false} InsertIsPermutation<T>(le: (T, T) -> bool, x: T, s: seq<T>)
    ensures multiset(Insert(le, x, s)) == multiset{x} + multiset(s)
  {
    if s == [] || (le(x, s[0]) && !le(s[0], x)) {
      MultisetOfCons(x, s);
    } else {
      InsertIsPermutation(le, x, s[1..]);
      MultisetOfCons(s[0], Insert(le, x, s[1..]));
      MultisetOfTail(s);
    }
  }

  lemma {:induction false} SortIsPermutation<T>(le: (T, T) -> bool, s: seq<T>)
    ensures multiset(Sort(le, s)) == multiset(s)
  {
    if s != [] {
      var init, last := s[..|s| - 1], s[|s| - 1];
      SortIsPermutation(le, init);
      InsertIsPermutation(le, last, Sort(le, init));
      MultisetOfInit(s);
    }
  }

  lemma {:induction false} InsertIsSorted<T(!new)>(le: (T, T) -> bool, x: T, s: seq<T>)
    requires TotalPreorder(le) && SortedBy(le, s)
    ensures SortedBy(le, Insert(le, x, s))
  {
    if s == [] || (le(x, s[0]) && !le(s[0], x)) {
    } else {
      InsertIsSorted(le, x, s[1..]);
      var r := Insert(le, x, s[1..]);
      InsertIsPermutation(le, x, s[1..]);
      forall j | 0 <= j < |r| ensures le(s[0], r[j]) {
        assert r[j] in multiset(r);
        if r[j] != x {
          assert r[j] in s[1..];
          var k :| 0 <= k < |s[1..]| && s[1..][k] == r[j];
          assert s[k + 1] == r[j];
        }
      }
    }
  }

  lemma {:induction false} SortIsSorted<T(!new)>(le: (T, T) -> bool, s: seq<T>)
    requires TotalPreorder(le)
    ensures SortedBy(le, Sort(le, s))
  {
    if s != [] {
      SortIsSorted(le, s[..|s| - 1]);
      InsertIsSorted(le, s[|s| - 1], Sort(le, s[..|s| - 1]));
    }
  }

  /** The elements of `s` that tie with `x`, in their order. */
  function Ties<T>(le: (T, T) -> bool, x: T, s: seq<T>): seq<T> {
    if s == [] then []
    else (if le(x, s[0]) && le(s[0], x) then [s[0]] else []) + Ties(le, x, s[1..])
  }

  lemma {:induction false} TiesJoin<T>(le: (T, T) -> bool, x: T, s: seq<T>, t: seq<T>)
    ensures Ties(le, x, s + t) == Ties(le, x, s) + Ties(le, x, t)
  {
    if s == [] {
      assert s + t == t;
    } else {
      TiesJoin(le, x, s[1..], t);
      assert (s + t)[1..] == s[1..] + t;
    }
  }

  lemma {:induction false} NoTies<T>(le: (T, T) -> bool, x: T, s: seq<T>)
    requires forall i :: 0 <= i < |s| ==> !le(s[i], x)
    ensures Ties(le, x, s) == []
  {
    if s != [] {
      NoTies(le, x, s[1..]);
    }
  }

  lemma AllBeyond<T(!new)>(le: (T, T) -> bool, y: T, s: seq<T>, x: T)
    requires TotalPreorder(le) && SortedBy(le, s) && (s != [] ==> !le(s[0], y)) && le(x, y)
    ensures forall i :: 0 <= i < |s| ==> !le(s[i], x)
  {
  }

  /** An element goes after its equals. */
  lemma {:induction false} InsertIsStable<T(!new)>(le: (T, T) -> bool, y: T, s: seq<T>, x: T)
    requires TotalPreorder(le) && SortedBy(le, s)
    ensures Ties(le, x, Insert(le, y, s)) == Ties(le, x, s) + Ties(le, x, [y])
  {
    if s == [] || (le(y, s[0]) && !le(s[0], y)) {
      TiesJoin(le, x, [y], s);
      if Ties(le, x, [y]) != [] {
        AllBeyond(le, y, s, x);
        NoTies(le, x, s);
      }
    } else {
      InsertIsStable(le, y, s[1..], x);
      TiesJoin(le, x, [s[0]], s[1..]);
      TiesJoin(le, x, [s[0]], Insert(le, y, s[1..]));
      assert [s[0]] + s[1..] == s;
    }
  }

  /** Sorting keeps the order of elements that tie. */
  lemma {:induction false} SortIsStable<T(!new)>(le: (T, T) -> bool, s: seq<T>, x: T)
    requires TotalPreorder(le)
    ensures Ties(le, x, Sort(le, s)) == Ties(le, x, s)
  {
    if s != [] {
      var init, last := s[..|s| - 1], s[|s| - 1];
      SortIsStable(le, init, x);
      SortIsSorted(le, init);
      InsertIsStable(le, last, Sort(le, init), x);
      TiesJoin(le, x, init, [last]);
      assert init + [last] == s;
    }
  }

  ghost predicate AntisymmetricOn<T>(le: (T, T) -> bool, s: seq<T>) {
    forall x, y :: x in s && y in s && le(x, y) && le(y, x) ==> x == y
  }

  /** Two sorted arrangements of one multiset are the same sequence once no two
      different elements compare equal. */
  lemma {:induction false} SortedArrangementIsUnique<T(!new)>(le: (T, T) -> bool, s: seq<T>, t: seq<T>)
    requires TotalPreorder(le) && SortedBy(le, s) && SortedBy(le, t)
    requires multiset(s) == multiset(t)
    requires AntisymmetricOn(le, s)
    ensures s == t
  {
    assert |s| == |multiset(s)| == |multiset(t)| == |t|;
    if s != [] {
      SameHead(le, s, t);
      SameTails(s, t);
      SortedArrangementIsUnique(le, s[1..], t[1..]);
      assert s == [s[0]] + s[1..] && t == [t[0]] + t[1..];
    }
  }

  lemma SameTails<T>(s: seq<T>, t: seq<T>)
    requires s != [] && t != [] && s[0] == t[0] && multiset(s) == multiset(t)
    ensures multiset(s[1..]) == multiset(t[1..])
  {
    MultisetOfTail(s);
    MultisetOfTail(t);
    assert multiset(s[1..]) == multiset(s) - multiset{s[0]};
    assert multiset(t[1..]) == multiset(t) - multiset{t[0]};
  }

  lemma SameHead<T(!new)>(le: (T, T) -> bool, s: seq<T>, t: seq<T>)
    requires s != [] && t != []
    requires TotalPreorder(le) && SortedBy(le, s) && SortedBy(le, t)
    requires multiset(s) == multiset(t)
    requires AntisymmetricOn(le, s)
    ensures s[0] == t[0]
  {
    assert s[0] in multiset(t) && t[0] in multiset(s);
    var i :| 0 <= i < |t| && t[i] == s[0];
    var j :| 0 <= j < |s| && s[j] == t[0];
    assert le(s[0], s[j]) && le(t[0], t[i]);
  }
}
