/** The standard library's stable sort, as far as the modules here rely on it. */
module Sorting {
  /** `le` orders every pair, with ties allowed. */
  ghost predicate TotalPreorder<T(!new)>(le: (T, T) -> bool) {
    && (forall x, y :: le(x, y) || le(y, x))
    && (forall x, y, z :: le(x, y) && le(y, z) ==> le(x, z))
  }

  ghost predicate Sorted<T>(s: seq<T>, le: (T, T) -> bool) {
    forall i, j :: 0 <= i < j < |s| ==> le(s[i], s[j])
  }

  function Insert<T>(x: T, s: seq<T>, le: (T, T) -> bool): (r: seq<T>)
    ensures multiset(r) == multiset([x] + s)
  {
    if s == [] then [x]
    else if le(x, s[0]) then [x] + s
    else
      assert multiset([x] + s) == multiset([s[0]]) + multiset([x] + s[1..]) by {
        assert s == [s[0]] + s[1..];
      }
      [s[0]] + Insert(x, s[1..], le)
  }

  /** Stable: an element is inserted before the first one it does not exceed. */
  function Sort<T>(s: seq<T>, le: (T, T) -> bool): (r: seq<T>)
    ensures multiset(r) == multiset(s)
  {
    if s == [] then []
    else
      assert s == [s[0]] + s[1..];
      Insert(s[0], Sort(s[1..], le), le)
  }

  lemma {:induction false} InsertSorted<T(!new)>(x: T, s: seq<T>, le: (T, T) -> bool)
    requires TotalPreorder(le) && Sorted(s, le)
    ensures Sorted(Insert(x, s, le), le)
  {
    if s != [] && !le(x, s[0]) {
      InsertSorted(x, s[1..], le);
      var rest := Insert(x, s[1..], le);
      forall j | 0 <= j < |rest| ensures le(s[0], rest[j]) {
        assert rest[j] in multiset(rest);
        assert rest[j] in multiset([x] + s[1..]);
      }
    }
  }

  lemma {:induction false} SortSorts<T(!new)>(s: seq<T>, le: (T, T) -> bool)
    requires TotalPreorder(le)
    ensures Sorted(Sort(s, le), le)
  {
    if s != [] {
      SortSorts(s[1..], le);
      InsertSorted(s[0], Sort(s[1..], le), le);
    }
  }

  /** Those that tie with `x`, in order. */
  ghost function Tied<T>(s: seq<T>, x: T, le: (T, T) -> bool): seq<T> {
    if s == [] then [] else (if le(x, s[0]) && le(s[0], x) then [s[0]] else []) + Tied(s[1..], x, le)
  }

  /** Nothing `y` has to go behind can tie with `x` as `y` does. */
  ghost predicate OneTies<T>(y: T, s: seq<T>, x: T, le: (T, T) -> bool) {
    forall i :: 0 <= i < |s| && !le(y, s[i]) ==> !(le(y, x) && le(x, s[i]))
  }

  lemma OneTiesAlways<T(!new)>(y: T, s: seq<T>, x: T, le: (T, T) -> bool)
    requires TotalPreorder(le)
    ensures OneTies(y, s, x, le)
  {
  }

  lemma Exchange<T>(a: seq<T>, b: seq<T>, c: seq<T>)
    requires a == [] || b == []
    ensures a + (b + c) == b + (a + c)
  {
  }

  ghost function IfTied<T>(y: T, x: T, le: (T, T) -> bool): seq<T> {
    if le(x, y) && le(y, x) then [y] else []
  }

  lemma TiedHead<T>(y: T, s: seq<T>, x: T, le: (T, T) -> bool)
    ensures Tied([y] + s, x, le) == IfTied(y, x, le) + Tied(s, x, le)
  {
    assert ([y] + s)[1..] == s;
  }

  lemma {:induction false} InsertTies<T(!new)>(y: T, s: seq<T>, x: T, le: (T, T) -> bool)
    requires OneTies(y, s, x, le)
    ensures Tied(Insert(y, s, le), x, le) == IfTied(y, x, le) + Tied(s, x, le)
  {
    if s == [] || le(y, s[0]) {
      TiedHead(y, s, x, le);
      assert [y] + s == Insert(y, s, le);
    } else {
      InsertTies(y, s[1..], x, le);
      TiedHead(s[0], Insert(y, s[1..], le), x, le);
      Exchange(IfTied(s[0], x, le), IfTied(y, x, le), Tied(s[1..], x, le));
    }
  }

  /** The sort is stable: what ties keeps its order. */
  lemma {:induction false} SortIsStable<T(!new)>(s: seq<T>, x: T, le: (T, T) -> bool)
    requires TotalPreorder(le)
    ensures Tied(Sort(s, le), x, le) == Tied(s, x, le)
  {
    if s != [] {
      SortIsStable(s[1..], x, le);
      OneTiesAlways(s[0], Sort(s[1..], le), x, le);
      InsertTies(s[0], Sort(s[1..], le), x, le);
    }
  }

  lemma TailMultiset<T>(s: seq<T>)
    requires s != []
    ensures multiset(s[1..]) == multiset(s) - multiset{s[0]}
  {
    assert s == [s[0]] + s[1..];
  }

  lemma SameMembers<T>(s: seq<T>, t: seq<T>)
    requires multiset(s) == multiset(t)
    ensures |s| == |t|
    ensures forall x :: x in s <==> x in t
  {
    assert |multiset(s)| == |s| && |multiset(t)| == |t|;
    forall x ensures x in s <==> x in t {
      assert x in s <==> x in multiset(s);
      assert x in t <==> x in multiset(t);
    }
  }

  lemma {:induction false} DistinctIsOnce<T>(s: seq<T>)
    requires forall i, j :: 0 <= i < j < |s| ==> s[i] != s[j]
    ensures forall x :: multiset(s)[x] <= 1
  {
    if s != [] {
      DistinctIsOnce(s[1..]);
      TailMultiset(s);
      assert s[0] !in s[1..];
      assert multiset(s[1..])[s[0]] == 0;
      forall x ensures multiset(s)[x] <= 1 {
        assert multiset(s[1..])[x] <= 1;
      }
    }
  }

  lemma OnceIsDistinct<T>(s: seq<T>, i: nat, j: nat)
    requires i < j < |s| && multiset(s)[s[j]] <= 1
    ensures s[i] != s[j]
  {
    assert s == s[..j] + [s[j]] + s[j + 1..];
    assert s[j] !in s[..j];
    assert s[..j][i] == s[i];
  }

  /** A strict order leaves one arrangement of a set. */
  lemma {:induction false} OneArrangement<T(!new)>(s: seq<T>, t: seq<T>, before: (T, T) -> bool)
    requires forall x, y :: before(x, y) ==> !before(y, x)
    requires forall i, j :: 0 <= i < j < |s| ==> before(s[i], s[j])
    requires forall i, j :: 0 <= i < j < |t| ==> before(t[i], t[j])
    requires forall x :: x in s <==> x in t
    ensures s == t
  {
    if t != [] {
      assert t[0] in t;
    }
    if s != [] {
      assert s[0] in s && s[0] in t;
      assert t[0] in t && t[0] in s;
      assert s[0] == t[0];
      forall x ensures x in s[1..] <==> x in t[1..] {
        assert x in s <==> x == s[0] || x in s[1..];
        assert x in t <==> x == t[0] || x in t[1..];
        assert s[0] !in s[1..] && t[0] !in t[1..];
      }
      OneArrangement(s[1..], t[1..], before);
      assert s == [s[0]] + s[1..] && t == [t[0]] + t[1..];
    }
  }

  // ---------------------------------------------------------------------
  // Strings as the standard library orders them
  // ---------------------------------------------------------------------

  predicate Leq(a: string, b: string) {
    a == "" || (b != "" && (a[0] < b[0] || (a[0] == b[0] && Leq(a[1..], b[1..]))))
  }

  /** A string is before what it begins, and else the first difference decides. */
  ghost predicate FirstLess(a: string, b: string, k: nat) {
    k < |a| && k < |b| && a[..k] == b[..k] && a[k] < b[k]
  }

  lemma {:induction false} LeqMeans(a: string, b: string)
    ensures Leq(a, b) <==> a <= b || exists k: nat :: FirstLess(a, b, k)
  {
    if a != "" && b != "" {
      LeqMeans(a[1..], b[1..]);
      forall k: nat ensures FirstLess(a, b, k) && k > 0 ==> a[0] == b[0] {
        assert FirstLess(a, b, k) && k > 0 ==> a[..k][0] == b[..k][0];
      }
      assert a == [a[0]] + a[1..] && b == [b[0]] + b[1..];
      if a[0] == b[0] {
        if k: nat :| FirstLess(a, b, k) {
          assert a[1..][..k - 1] == a[..k][1..] && b[1..][..k - 1] == b[..k][1..];
          assert FirstLess(a[1..], b[1..], k - 1);
        }
        if k: nat :| FirstLess(a[1..], b[1..], k) {
          assert a[..k + 1] == [a[0]] + a[1..][..k] && b[..k + 1] == [b[0]] + b[1..][..k];
          assert FirstLess(a, b, k + 1);
        }
        assert a <= b <==> a[1..] <= b[1..];
      } else if a[0] < b[0] {
        assert FirstLess(a, b, 0);
      }
    }
  }

  lemma {:induction false} LeqTotal(a: string, b: string)
    ensures Leq(a, b) || Leq(b, a)
    ensures Leq(a, b) && Leq(b, a) ==> a == b
  {
    if a != "" && b != "" {
      LeqTotal(a[1..], b[1..]);
      assert a == [a[0]] + a[1..] && b == [b[0]] + b[1..];
    }
  }

  lemma {:induction false} LeqTransitive(a: string, b: string, c: string)
    requires Leq(a, b) && Leq(b, c)
    ensures Leq(a, c)
  {
    if a != "" && a[0] == b[0] && b[0] == c[0] {
      LeqTransitive(a[1..], b[1..], c[1..]);
    }
  }

  lemma LeqIsAnOrder()
    ensures TotalPreorder(Leq)
  {
    forall x, y ensures Leq(x, y) || Leq(y, x) {
      LeqTotal(x, y);
    }
    forall x, y, z | Leq(x, y) && Leq(y, z) ensures Leq(x, z) {
      LeqTransitive(x, y, z);
    }
  }
}
