/** Facts about duplicate-free sequences. */
module Collections {

  predicate Distinct<T(==)>(s: seq<T>) {
    forall i, j | 0 <= i < j < |s| :: s[i] != s[j]
  }

  lemma {:induction false} CountsOnce<T>(s: seq<T>, x: T)
    requires Distinct(s)
    ensures multiset(s)[x] <= 1
  {
    if s != [] {
      assert s == s[..|s| - 1] + [s[|s| - 1]];
      CountsOnce(s[..|s| - 1], x);
    }
  }

  lemma CountsTwice<T>(s: seq<T>, i: nat, j: nat)
    requires i < j < |s| && s[i] == s[j]
    ensures multiset(s)[s[i]] >= 2
  {
    assert s == s[..j] + s[j..];
    assert s[..j][i] == s[i] && s[j..][0] == s[i];
    assert s[i] in multiset(s[..j]) && s[i] in multiset(s[j..]);
  }

  lemma PermutedStaysDistinct<T>(a: seq<T>, b: seq<T>)
    requires Distinct(a) && multiset(a) == multiset(b)
    ensures Distinct(b)
  {
    forall i, j | 0 <= i < j < |b| ensures b[i] != b[j] {
      CountsOnce(a, b[i]);
      if b[i] == b[j] {
        CountsTwice(b, i, j);
      }
    }
  }

  lemma {:induction false} DistinctFits<T>(s: seq<T>, bound: set<T>)
    requires Distinct(s) && forall x | x in s :: x in bound
    ensures |s| <= |bound|
  {
    if s != [] {
      var last := s[|s| - 1];
      assert last in s;
      forall x | x in s[..|s| - 1] ensures x in bound - {last} {
        assert x in s;
      }
      DistinctFits(s[..|s| - 1], bound - {last});
    }
  }

  /** Where x first occurs. */
  function IndexIn<T(==)>(s: seq<T>, x: T): (i: nat)
    requires x in s
    ensures i < |s| && s[i] == x && forall j | 0 <= j < i :: s[j] != x
  {
    if s[0] == x then 0 else 1 + IndexIn(s[1..], x)
  }

  lemma IndexOf<T>(s: seq<T>, i: nat)
    requires i < |s| && forall j | 0 <= j < i :: s[j] != s[i]
    ensures IndexIn(s, s[i]) == i
  {
    var k := IndexIn(s, s[i]);
    assert s[k] == s[i];
  }

  lemma IndexInLonger<T>(s: seq<T>, t: seq<T>, x: T)
    requires x in s && s <= t
    ensures x in t && IndexIn(t, x) == IndexIn(s, x)
  {
    var k := IndexIn(s, x);
    assert forall j | 0 <= j <= k :: t[j] == s[j];
    IndexOf(t, k);
  }

  // ----- sorting by a key -----

  predicate Ascends<T>(key: T -> int, s: seq<T>) {
    forall i, j | 0 <= i < j < |s| :: key(s[i]) <= key(s[j])
  }

  function Inserted<T>(key: T -> int, x: T, s: seq<T>): seq<T> {
    if s == [] || key(x) <= key(s[0]) then [x] + s else [s[0]] + Inserted(key, x, s[1..])
  }

  /** list.sort(key=...). */
  function SortedBy<T>(key: T -> int, s: seq<T>): seq<T> {
    if s == [] then [] else Inserted(key, s[0], SortedBy(key, s[1..]))
  }

  lemma {:induction false} InsertedElements<T>(key: T -> int, x: T, s: seq<T>)
    ensures multiset(Inserted(key, x, s)) == multiset(s) + multiset{x}
  {
    if s != [] {
      InsertedElements(key, x, s[1..]);
      assert s == [s[0]] + s[1..];
    }
  }

  lemma {:induction false} InsertedAscends<T>(key: T -> int, x: T, s: seq<T>)
    requires Ascends(key, s)
    ensures Ascends(key, Inserted(key, x, s))
  {
    if s != [] && key(x) > key(s[0]) {
      InsertedAscends(key, x, s[1..]);
      InsertedElements(key, x, s[1..]);
      var rest := Inserted(key, x, s[1..]);
      forall i | 0 <= i < |rest| ensures key(s[0]) <= key(rest[i]) {
        assert rest[i] in multiset(s[1..]) + multiset{x};
        assert rest[i] in s[1..] || rest[i] == x;
      }
    }
  }

  lemma {:induction false} SortedByFacts<T>(key: T -> int, s: seq<T>)
    ensures multiset(SortedBy(key, s)) == multiset(s) && Ascends(key, SortedBy(key, s))
  {
    if s != [] {
      SortedByFacts(key, s[1..]);
      InsertedElements(key, s[0], SortedBy(key, s[1..]));
      InsertedAscends(key, s[0], SortedBy(key, s[1..]));
      assert s == [s[0]] + s[1..];
    }
  }
}
