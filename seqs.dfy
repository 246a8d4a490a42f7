/** Option, and the generic table operations the ORM performs for the handlers:
    filtering by a predicate, ordering newest first, taking a prefix, finding
    the first match, and deleting by key. */
module Seqs {

  datatype Option<+T> = None | Some(value: T)

  /** The rows of `s` that satisfy `p`, in table order (a `where` clause). */
  function Filter<T(!new)>(s: seq<T>, p: T -> bool): (r: seq<T>)
    ensures forall x :: x in r <==> x in s && p(x)
    ensures forall x :: multiset(r)[x] == if p(x) then multiset(s)[x] else 0
    ensures |r| <= |s|
  {
    if s == [] then []
    else
      assert s == [s[0]] + s[1..];
      if p(s[0]) then [s[0]] + Filter(s[1..], p) else Filter(s[1..], p)
  }

  /** Filtering a table with one more row at its end. */
  lemma {:induction false} FilterAppend<T(!new)>(s: seq<T>, x: T, p: T -> bool)
    ensures Filter(s + [x], p) == Filter(s, p) + (if p(x) then [x] else [])
  {
    FilterConcat(s, [x], p);
    assert Filter([x], p) == if p(x) then [x] else [] by {
      assert [x][0] == x && [x][1..] == [];
    }
  }

  /** A `where` clause distributes over concatenated tables. */
  lemma {:induction false} FilterConcat<T(!new)>(a: seq<T>, b: seq<T>, p: T -> bool)
    ensures Filter(a + b, p) == Filter(a, p) + Filter(b, p)
  {
    if a == [] {
      assert a + b == b;
    } else {
      assert (a + b)[0] == a[0];
      assert (a + b)[1..] == a[1..] + b;
      FilterConcat(a[1..], b, p);
    }
  }

  /** Every element is at least as recent as every element after it
      (`orderBy: { <field>: 'desc' }`). */
  predicate NewestFirst<T>(s: seq<T>, at: T -> int) {
    forall i, j :: 0 <= i < j < |s| ==> at(s[i]) >= at(s[j])
  }

  /** Inserts `x` into a newest-first sequence before the first element that
      is not newer than it. */
  function InsertDesc<T(!new)>(x: T, s: seq<T>, at: T -> int): (r: seq<T>)
    ensures multiset(r) == multiset(s) + multiset{x}
    ensures |r| == |s| + 1
  {
    if s == [] || at(x) >= at(s[0]) then [x] + s
    else
      assert s == [s[0]] + s[1..];
      [s[0]] + InsertDesc(x, s[1..], at)
  }

  /** Inserting into a newest-first sequence keeps it newest first. */
  lemma {:induction false} InsertDescSorted<T(!new)>(x: T, s: seq<T>, at: T -> int)
    requires NewestFirst(s, at)
    ensures NewestFirst(InsertDesc(x, s, at), at)
  {
    if s != [] && at(x) < at(s[0]) {
      var t := s[1..];
      assert NewestFirst(t, at) by {
        forall i, j | 0 <= i < j < |t| ensures at(t[i]) >= at(t[j]) {
          assert t[i] == s[i + 1] && t[j] == s[j + 1];
        }
      }
      InsertDescSorted(x, t, at);
      var rest := InsertDesc(x, t, at);
      forall y | y in rest ensures at(y) <= at(s[0]) {
        assert y in multiset(rest);
        if y != x {
          assert y in multiset(t);
          var k :| 0 <= k < |t| && t[k] == y;
          assert s[k + 1] == y;
        }
      }
      var r := [s[0]] + rest;
      forall i, j | 0 <= i < j < |r| ensures at(r[i]) >= at(r[j]) {
        assert r[j] == rest[j - 1];
        if i > 0 {
          assert r[i] == rest[i - 1];
        }
      }
    }
  }

  /** Insertion sort, newest first: the ordering the ORM applies to a query. */
  function SortDesc<T(!new)>(s: seq<T>, at: T -> int): (r: seq<T>)
    ensures multiset(r) == multiset(s)
    ensures |r| == |s|
    ensures NewestFirst(r, at)
  {
    if s == [] then []
    else
      assert s == [s[0]] + s[1..];
      var t := SortDesc(s[1..], at);
      InsertDescSorted(s[0], t, at);
      InsertDesc(s[0], t, at)
  }

  /** Sorting keeps exactly the rows it was given. */
  lemma SortDescMembers<T(!new)>(s: seq<T>, at: T -> int)
    ensures forall y :: y in SortDesc(s, at) <==> y in s
  {
    var r := SortDesc(s, at);
    forall y ensures y in r <==> y in s {
      assert y in r <==> y in multiset(r);
      assert y in s <==> y in multiset(s);
    }
  }

  /** The newest row (`findFirst` with `orderBy: { <field>: 'desc' }`). */
  function Newest<T(!new)>(s: seq<T>, at: T -> int): (r: Option<T>)
    ensures r.None? <==> s == []
    ensures r.Some? ==> r.value in s && forall y :: y in s ==> at(y) <= at(r.value)
  {
    var sorted := SortDesc(s, at);
    SortDescMembers(s, at);
    if sorted == [] then None
    else
      assert forall y :: y in sorted ==> at(y) <= at(sorted[0]) by {
        forall y | y in sorted ensures at(y) <= at(sorted[0]) {
          var k :| 0 <= k < |sorted| && sorted[k] == y;
          assert k == 0 || at(sorted[0]) >= at(sorted[k]);
        }
      }
      Some(sorted[0])
  }

  /** A query with a `where` predicate and a newest-first order: exactly the
      matching rows, newest first. */
  function FindMany<T(!new)>(s: seq<T>, p: T -> bool, at: T -> int): (r: seq<T>)
    ensures forall x :: x in r <==> x in s && p(x)
    ensures forall x :: multiset(r)[x] == if p(x) then multiset(s)[x] else 0
    ensures NewestFirst(r, at)
  {
    var m := Filter(s, p);
    SortDescMembers(m, at);
    SortDesc(m, at)
  }

  /** The first element of `s` satisfying `p` (`findFirst` / `findUnique`). */
  function FindFirst<T(!new)>(s: seq<T>, p: T -> bool): (r: Option<T>)
    ensures r.Some? ==> r.value in s && p(r.value)
    ensures r.None? <==> forall x :: x in s ==> !p(x)
  {
    if s == [] then None
    else if p(s[0]) then Some(s[0])
    else FindFirst(s[1..], p)
  }

  /** The index of the first element whose key is `id`. */
  function IndexOfKey<T, K(==)>(s: seq<T>, key: T -> K, id: K): (r: Option<nat>)
    ensures r.Some? ==> r.value < |s| && key(s[r.value]) == id
    ensures r.Some? ==> forall i :: 0 <= i < r.value ==> key(s[i]) != id
    ensures r.None? <==> forall i :: 0 <= i < |s| ==> key(s[i]) != id
  {
    if s == [] then None
    else if key(s[0]) == id then Some(0)
    else match IndexOfKey(s[1..], key, id)
      case None => None
      case Some(k) => Some(k + 1)
  }

  /** `s` without the rows whose key is `id` (`delete({ where: { id } })`). */
  function Without<T(!new), K(==)>(s: seq<T>, key: T -> K, id: K): (r: seq<T>)
    ensures forall x :: x in r <==> x in s && key(x) != id
    ensures forall x :: multiset(r)[x] == if key(x) == id then 0 else multiset(s)[x]
  {
    if s == [] then []
    else
      assert s == [s[0]] + s[1..];
      if key(s[0]) == id then Without(s[1..], key, id) else [s[0]] + Without(s[1..], key, id)
  }

  /** No two positions of `s` carry the same key (a primary key or a unique
      constraint). */
  ghost predicate KeysUnique<T, K>(s: seq<T>, key: T -> K) {
    forall i, j :: 0 <= i < |s| && 0 <= j < |s| && i != j ==> key(s[i]) != key(s[j])
  }

  /** Every key in `s` is below `bound`. */
  ghost predicate KeysBelow<T>(s: seq<T>, key: T -> nat, bound: nat) {
    forall x :: x in s ==> key(x) < bound
  }

  /** The first `n` rows (`take: n`). */
  function Take<T>(s: seq<T>, n: nat): (r: seq<T>)
    ensures |r| == if |s| < n then |s| else n
    ensures r == s[..|r|]
  {
    if |s| < n then s else s[..n]
  }

  /** A prefix of a newest-first sequence is newest first. */
  lemma TakeNewestFirst<T>(s: seq<T>, at: T -> int, n: nat)
    requires NewestFirst(s, at)
    ensures NewestFirst(Take(s, n), at)
  {
  }

  /** A prefix holds each row at most as often as the whole sequence. */
  lemma TakeSubMultiset<T>(s: seq<T>, n: nat)
    ensures multiset(Take(s, n)) <= multiset(s)
  {
    var r := Take(s, n);
    assert s == r + s[|r|..];
  }

  /** A query holds each row at most as often as the table. */
  lemma FindManySubMultiset<T(!new)>(s: seq<T>, p: T -> bool, at: T -> int)
    ensures multiset(FindMany(s, p, at)) <= multiset(s)
  {
    var r := FindMany(s, p, at);
    assert forall x :: multiset(r)[x] <= multiset(s)[x];
  }

  /** A row of a newest-first sequence that `Take` leaves out is no newer
      than any row it keeps, and it is left out only when the prefix is full. */
  lemma TakeOmitsOlder<T>(s: seq<T>, at: T -> int, n: nat, x: T)
    requires NewestFirst(s, at) && x in s && x !in Take(s, n)
    ensures |Take(s, n)| == n
    ensures forall b :: b in Take(s, n) ==> at(x) <= at(b)
  {
  }

  /** Some row of `s` has key `id`. */
  ghost predicate HasKey<T, K>(s: seq<T>, key: T -> K, id: K) {
    exists i :: 0 <= i < |s| && key(s[i]) == id
  }

  /** Removing the rows with one key from a table with unique keys keeps keys
      unique. */
  lemma {:induction false} WithoutUnique<T(!new), K>(s: seq<T>, key: T -> K, id: K)
    requires KeysUnique(s, key)
    ensures KeysUnique(Without(s, key, id), key)
  {
    if s != [] {
      var t := s[1..];
      assert KeysUnique(t, key) by {
        forall i, j | 0 <= i < |t| && 0 <= j < |t| && i != j ensures key(t[i]) != key(t[j]) {
          assert t[i] == s[i + 1] && t[j] == s[j + 1];
        }
      }
      WithoutUnique(t, key, id);
      if key(s[0]) != id {
        var w := Without(t, key, id);
        forall y | y in t ensures key(y) != key(s[0]) {
          var m :| 0 <= m < |t| && t[m] == y;
          assert t[m] == s[m + 1];
        }
        forall k | 0 <= k < |w| ensures key(w[k]) != key(s[0]) {
          assert w[k] in w;
        }
        var r := [s[0]] + w;
        forall i, j | 0 <= i < |r| && 0 <= j < |r| && i != j ensures key(r[i]) != key(r[j]) {
          if i == 0 {
            assert r[j] == w[j - 1];
          } else if j == 0 {
            assert r[i] == w[i - 1];
          } else {
            assert r[i] == w[i - 1] && r[j] == w[j - 1];
          }
        }
      }
    }
  }

  /** In a table with unique keys, deleting a present key removes exactly one
      row, and deleting an absent key removes none. */
  lemma {:induction false} WithoutCount<T(!new), K>(s: seq<T>, key: T -> K, id: K)
    requires KeysUnique(s, key)
    ensures |Without(s, key, id)| == if HasKey(s, key, id) then |s| - 1 else |s|
  {
    if s != [] {
      var t := s[1..];
      assert KeysUnique(t, key) by {
        forall i, j | 0 <= i < |t| && 0 <= j < |t| && i != j ensures key(t[i]) != key(t[j]) {
          assert t[i] == s[i + 1] && t[j] == s[j + 1];
        }
      }
      WithoutCount(t, key, id);
      if key(s[0]) == id {
        assert HasKey(s, key, id);
        assert !HasKey(t, key, id) by {
          forall i | 0 <= i < |t| ensures key(t[i]) != id {
            assert t[i] == s[i + 1];
          }
        }
      } else {
        assert HasKey(s, key, id) <==> HasKey(t, key, id) by {
          if HasKey(s, key, id) {
            var i :| 0 <= i < |s| && key(s[i]) == id;
            assert t[i - 1] == s[i];
          }
          if HasKey(t, key, id) {
            var i :| 0 <= i < |t| && key(t[i]) == id;
            assert s[i + 1] == t[i];
          }
        }
      }
    }
  }

  /** Replacing one row by a row with the same key keeps keys unique. */
  lemma ReplaceUnique<T, K>(s: seq<T>, key: T -> K, k: nat, x: T)
    requires KeysUnique(s, key) && k < |s| && key(x) == key(s[k])
    ensures KeysUnique(s[k := x], key)
  {
  }
}
