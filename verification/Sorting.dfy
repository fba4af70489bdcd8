/** Go's sort.Strings and sort.Slice-by-string, as a stable insertion sort on a string key. */
module Sorting {

  /** Byte-wise string order. */
  predicate AtMost(a: string, b: string) {
    a == [] || (b != [] && (a[0] < b[0] || (a[0] == b[0] && AtMost(a[1..], b[1..]))))
  }

  lemma HeadsDiffer(a: string, b: string)
    requires a != [] && b != [] && a[0] != b[0]
    ensures !(a <= b) && forall i | 0 < i < |a| && i < |b| :: a[..i] != b[..i]
  {
    forall i | 0 < i < |a| && i < |b| ensures a[..i] != b[..i] {
      assert a[..i][0] != b[..i][0];
    }
  }

  /** What comes first: a prefix of the other, or the smaller byte where they first differ. */
  lemma {:induction false} AtMostExactly(a: string, b: string)
    ensures AtMost(a, b) <==> a <= b || exists i :: 0 <= i < |a| && i < |b| && a[..i] == b[..i] && a[i] < b[i]
  {
    if a != [] && b != [] && a[0] == b[0] {
      AtMostExactly(a[1..], b[1..]);
      assert a == [a[0]] + a[1..] && b == [b[0]] + b[1..];
      if i :| 0 <= i < |a[1..]| && i < |b[1..]| && a[1..][..i] == b[1..][..i] && a[1..][i] < b[1..][i] {
        assert a[..i + 1] == [a[0]] + a[1..][..i] && b[..i + 1] == [b[0]] + b[1..][..i];
      }
      if i :| 0 <= i < |a| && i < |b| && a[..i] == b[..i] && a[i] < b[i] {
        assert i > 0;
        assert a[1..][..i - 1] == a[..i][1..] && b[1..][..i - 1] == b[..i][1..];
      }
    } else if a != [] && b != [] {
      HeadsDiffer(a, b);
      assert a[0] < b[0] ==> a[..0] == b[..0];
    }
  }

  function Insert<T>(x: T, q: seq<T>, key: T -> string): (r: seq<T>)
    ensures multiset(r) == multiset{x} + multiset(q)
  {
    if q == [] then [x]
    else if AtMost(key(x), key(q[0])) then [x] + q
    else
      assert q == [q[0]] + q[1..];
      [q[0]] + Insert(x, q[1..], key)
  }

  /** A rearrangement of q. */
  function SortBy<T>(q: seq<T>, key: T -> string): (r: seq<T>)
    ensures multiset(r) == multiset(q)
  {
    if q == [] then []
    else
      assert q == [q[0]] + q[1..];
      Insert(q[0], SortBy(q[1..], key), key)
  }

  function SortStrings(q: seq<string>): (r: seq<string>)
    ensures multiset(r) == multiset(q)
  {
    SortBy(q, (s: string) => s)
  }

  lemma SortedSame<T>(q: seq<T>, key: T -> string, x: T)
    ensures x in SortBy(q, key) <==> x in q
  {
    assert x in multiset(q) <==> x in q;
    assert x in multiset(SortBy(q, key)) <==> x in SortBy(q, key);
  }

  lemma SortedStringsSame(q: seq<string>)
    ensures forall x :: x in SortStrings(q) <==> x in q
  {
    forall x ensures x in SortStrings(q) <==> x in q {
      SortedSame(q, (s: string) => s, x);
    }
  }

  // ---- The result is in order ----

  ghost predicate Ordered<T>(q: seq<T>, key: T -> string) {
    forall i, j | 0 <= i < j < |q| :: AtMost(key(q[i]), key(q[j]))
  }

  lemma {:induction false} Total(a: string, b: string)
    ensures AtMost(a, b) || AtMost(b, a)
  {
    if a != [] && b != [] {
      Total(a[1..], b[1..]);
    }
  }

  lemma {:induction false} Transitive(a: string, b: string, c: string)
    requires AtMost(a, b) && AtMost(b, c)
    ensures AtMost(a, c)
  {
    if a != [] && a[0] == b[0] == c[0] {
      Transitive(a[1..], b[1..], c[1..]);
    }
  }

  lemma {:induction false} Antisymmetric(a: string, b: string)
    requires AtMost(a, b) && AtMost(b, a)
    ensures a == b
  {
    if a != [] && b != [] {
      Antisymmetric(a[1..], b[1..]);
      assert a == [a[0]] + a[1..] && b == [b[0]] + b[1..];
    }
  }

  lemma {:induction false} InsertOrdered<T>(x: T, q: seq<T>, key: T -> string)
    requires Ordered(q, key)
    ensures Ordered(Insert(x, q, key), key)
  {
    hide AtMost;
    var r := Insert(x, q, key);
    if q != [] {
      Total(key(x), key(q[0]));
      if AtMost(key(x), key(q[0])) {
        forall j | 0 <= j < |q| ensures AtMost(key(x), key(q[j])) {
          if j > 0 {
            Transitive(key(x), key(q[0]), key(q[j]));
          }
        }
      } else {
        InsertOrdered(x, q[1..], key);
        var rest := Insert(x, q[1..], key);
        forall j | 0 <= j < |rest| ensures AtMost(key(q[0]), key(rest[j])) {
          assert rest[j] in multiset(rest);
          assert rest[j] == x || rest[j] in q[1..];
        }
      }
    }
  }

  lemma {:induction false} SortByOrdered<T>(q: seq<T>, key: T -> string)
    ensures Ordered(SortBy(q, key), key)
  {
    if q != [] {
      SortByOrdered(q[1..], key);
      InsertOrdered(q[0], SortBy(q[1..], key), key);
    }
  }

  lemma TailsAgree<T>(p: seq<T>, q: seq<T>)
    requires p != [] && q != [] && p[0] == q[0] && multiset(p) == multiset(q)
    ensures multiset(p[1..]) == multiset(q[1..])
  {
    assert p == [p[0]] + p[1..] && q == [q[0]] + q[1..];
    assert multiset(p[1..]) == multiset(p) - multiset{p[0]};
    assert multiset(q[1..]) == multiset(q) - multiset{q[0]};
  }

  lemma HeadsAgree(p: seq<string>, q: seq<string>)
    requires Ordered(p, (s: string) => s) && Ordered(q, (s: string) => s) && p != [] && multiset(p) == multiset(q)
    ensures q != [] && p[0] == q[0]
  {
    hide AtMost;
    assert p[0] in multiset(q);
    var i :| 0 <= i < |q| && q[i] == p[0];
    assert q[0] in multiset(p);
    var j :| 0 <= j < |p| && p[j] == q[0];
    if i > 0 && j > 0 {
      Antisymmetric(p[0], q[0]);
    }
  }

  lemma {:induction false} OrderedUnique(p: seq<string>, q: seq<string>)
    requires Ordered(p, (s: string) => s) && Ordered(q, (s: string) => s) && multiset(p) == multiset(q)
    ensures p == q
  {
    hide AtMost;
    if p != [] {
      HeadsAgree(p, q);
      TailsAgree(p, q);
      OrderedUnique(p[1..], q[1..]);
      assert p == [p[0]] + p[1..] && q == [q[0]] + q[1..];
    }
  }

  /** Sorting forgets the order of the list. */
  lemma SortedAlike(p: seq<string>, q: seq<string>)
    requires multiset(p) == multiset(q)
    ensures SortStrings(p) == SortStrings(q)
  {
    SortByOrdered(p, (s: string) => s);
    SortByOrdered(q, (s: string) => s);
    OrderedUnique(SortStrings(p), SortStrings(q));
  }

  /** A list in strict order is determined by its elements. */
  ghost predicate Ascending(q: seq<string>) {
    forall i, j | 0 <= i < j < |q| :: AtMost(q[i], q[j]) && q[i] != q[j]
  }

  lemma {:induction false} AscendingUnique(p: seq<string>, q: seq<string>)
    requires Ascending(p) && Ascending(q) && forall x :: x in p <==> x in q
    ensures p == q
  {
    hide AtMost;
    if p != [] || q != [] {
      var x := if p != [] then p[0] else q[0];
      assert x in p || x in q;
      assert |p| > 0 && |q| > 0 && p[0] in p && q[0] in q;
      var i :| 0 <= i < |q| && q[i] == p[0];
      var j :| 0 <= j < |p| && p[j] == q[0];
      if i > 0 && j > 0 {
        Antisymmetric(p[0], q[0]);
      }
      assert p[0] == q[0];
      forall x ensures x in p[1..] <==> x in q[1..] {
        assert x in p <==> x == p[0] || x in p[1..];
        assert x in q <==> x == q[0] || x in q[1..];
      }
      AscendingUnique(p[1..], q[1..]);
      assert p == [p[0]] + p[1..] && q == [q[0]] + q[1..];
    }
  }

  lemma SortedAscending(q: seq<string>)
    requires forall i, j | 0 <= i < j < |q| :: q[i] != q[j]
    ensures Ascending(SortStrings(q))
  {
    SortByOrdered(q, (s: string) => s);
    var r := SortStrings(q);
    forall i, j | 0 <= i < j < |r| ensures r[i] != r[j] {
      if r[i] == r[j] {
        TwiceInMultiset(r, i, j);
        OnceInMultiset(q, r[i]);
      }
    }
  }

  lemma TwiceInMultiset(r: seq<string>, i: nat, j: nat)
    requires i < j < |r| && r[i] == r[j]
    ensures multiset(r)[r[i]] >= 2
  {
    assert r == r[..j] + [r[j]] + r[j + 1..];
    assert r[i] in r[..j];
  }

  lemma {:induction false} OnceInMultiset(q: seq<string>, x: string)
    requires forall i, j | 0 <= i < j < |q| :: q[i] != q[j]
    ensures multiset(q)[x] <= 1
  {
    if q != [] {
      OnceInMultiset(q[1..], x);
      assert q == [q[0]] + q[1..];
      assert forall k | 0 <= k < |q[1..]| :: q[1..][k] == q[k + 1] != q[0];
      assert q[0] !in q[1..];
    }
  }
}
