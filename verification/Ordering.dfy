/**
 The stable sort that Python's `sorted` and a database's ORDER BY perform, on keys of three integers.
 */
module Ordering {

  datatype Key = Key(major: int, middle: int, minor: int)

  predicate Before(a: Key, b: Key) {
    || a.major < b.major
    || (a.major == b.major && a.middle < b.middle)
    || (a.major == b.major && a.middle == b.middle && a.minor < b.minor)
  }

  /** Puts `x` behind everything that does not have to come after it. */
  function Place<T>(key: T -> Key, s: seq<T>, x: T): seq<T> {
    if s != [] && Before(key(x), key(s[|s| - 1])) then Place(key, s[..|s| - 1], x) + [s[|s| - 1]]
    else s + [x]
  }

  function Sort<T>(key: T -> Key, s: seq<T>): seq<T> {
    if s == [] then [] else Place(key, Sort(key, s[..|s| - 1]), s[|s| - 1])
  }

  ghost predicate Ordered<T>(key: T -> Key, s: seq<T>) {
    forall i, j :: 0 <= i < j < |s| ==> !Before(key(s[j]), key(s[i]))
  }

  /** The elements with exactly this key, in the order they stand. */
  function WithKey<T>(key: T -> Key, k: Key, s: seq<T>): seq<T> {
    if s == [] then []
    else WithKey(key, k, s[..|s| - 1]) + (if key(s[|s| - 1]) == k then [s[|s| - 1]] else [])
  }

  lemma {:induction false} PlacePermutes<T>(key: T -> Key, s: seq<T>, x: T)
    ensures multiset(Place(key, s, x)) == multiset(s) + multiset{x}
  {
    if s != [] && Before(key(x), key(s[|s| - 1])) {
      PlacePermutes(key, s[..|s| - 1], x);
      assert s == s[..|s| - 1] + [s[|s| - 1]];
    }
  }

  lemma {:induction false} SortPermutes<T>(key: T -> Key, s: seq<T>)
    ensures multiset(Sort(key, s)) == multiset(s)
    ensures |Sort(key, s)| == |s|
  {
    if s != [] {
      SortPermutes(key, s[..|s| - 1]);
      PlacePermutes(key, Sort(key, s[..|s| - 1]), s[|s| - 1]);
      assert s == s[..|s| - 1] + [s[|s| - 1]];
    }
    assert |multiset(Sort(key, s))| == |multiset(s)|;
  }

  lemma SortKeepsMembers<T>(key: T -> Key, s: seq<T>, x: T)
    ensures x in Sort(key, s) <==> x in s
  {
    SortPermutes(key, s);
    assert x in s <==> x in multiset(s);
    assert x in Sort(key, s) <==> x in multiset(Sort(key, s));
  }

  lemma {:induction false} PlaceKeepsOrder<T>(key: T -> Key, s: seq<T>, x: T)
    requires Ordered(key, s)
    ensures Ordered(key, Place(key, s, x))
  {
    if s != [] && Before(key(x), key(s[|s| - 1])) {
      var rest, last := s[..|s| - 1], s[|s| - 1];
      PlaceKeepsOrder(key, rest, x);
      PlacePermutes(key, rest, x);
      forall i | 0 <= i < |Place(key, rest, x)| ensures !Before(key(last), key(Place(key, rest, x)[i])) {
        var y := Place(key, rest, x)[i];
        assert y in multiset(Place(key, rest, x));
        assert y in multiset(rest) || y == x;
      }
    }
  }

  lemma {:induction false} SortOrders<T>(key: T -> Key, s: seq<T>)
    ensures Ordered(key, Sort(key, s))
  {
    if s != [] {
      SortOrders(key, s[..|s| - 1]);
      PlaceKeepsOrder(key, Sort(key, s[..|s| - 1]), s[|s| - 1]);
    }
  }

  lemma {:induction false} WithKeyAppend<T>(key: T -> Key, k: Key, s: seq<T>, x: T)
    ensures WithKey(key, k, s + [x]) == WithKey(key, k, s) + (if key(x) == k then [x] else [])
  {
    assert (s + [x])[..|s|] == s;
  }

  lemma {:induction false} WithKeyMember<T>(key: T -> Key, k: Key, s: seq<T>, x: T)
    ensures x in WithKey(key, k, s) <==> x in s && key(x) == k
  {
    if s != [] {
      WithKeyMember(key, k, s[..|s| - 1], x);
    }
  }

  lemma {:induction false} PlaceIsStable<T>(key: T -> Key, k: Key, s: seq<T>, x: T)
    requires Ordered(key, s)
    ensures WithKey(key, k, Place(key, s, x)) == WithKey(key, k, s) + (if key(x) == k then [x] else [])
  {
    if s != [] && Before(key(x), key(s[|s| - 1])) {
      PlaceIsStable(key, k, s[..|s| - 1], x);
      WithKeyAppend(key, k, Place(key, s[..|s| - 1], x), s[|s| - 1]);
    } else {
      WithKeyAppend(key, k, s, x);
    }
  }

  /** Elements with equal keys keep the order they came in. */
  lemma {:induction false} SortIsStable<T>(key: T -> Key, k: Key, s: seq<T>)
    ensures WithKey(key, k, Sort(key, s)) == WithKey(key, k, s)
  {
    if s != [] {
      SortIsStable(key, k, s[..|s| - 1]);
      SortOrders(key, s[..|s| - 1]);
      PlaceIsStable(key, k, Sort(key, s[..|s| - 1]), s[|s| - 1]);
    }
  }

  predicate SameWithKey<T(==)>(key: T -> Key, k: Key, a: seq<T>, b: seq<T>) {
    WithKey(key, k, a) == WithKey(key, k, b)
  }

  lemma SameWithoutTheLast<T>(key: T -> Key, k: Key, a: seq<T>, b: seq<T>)
    requires a != [] && b != [] && key(a[|a| - 1]) == key(b[|b| - 1])
    requires SameWithKey(key, k, a, b)
    ensures SameWithKey(key, k, a[..|a| - 1], b[..|b| - 1])
    ensures key(a[|a| - 1]) == k ==> a[|a| - 1] == b[|b| - 1]
  {
    var x, y := a[|a| - 1], b[|b| - 1];
    var before, after := WithKey(key, k, a[..|a| - 1]), WithKey(key, k, b[..|b| - 1]);
    if key(x) == k {
      assert WithKey(key, k, a) == before + [x] && WithKey(key, k, b) == after + [y];
      assert before == (before + [x])[..|before + [x]| - 1] == (after + [y])[..|after + [y]| - 1] == after;
      assert (before + [x])[|before|] == (after + [y])[|after|];
    } else {
      assert before == before + [] == WithKey(key, k, a) == WithKey(key, k, b) == after + [] == after;
    }
  }

  /** Order and stability leave one arrangement only. */
  lemma {:induction false} StableOrderIsUnique<T>(key: T -> Key, a: seq<T>, b: seq<T>)
    requires Ordered(key, a) && Ordered(key, b)
    requires forall k :: SameWithKey(key, k, a, b)
    ensures a == b
    decreases |a| + |b|
  {
    if a == [] || b == [] {
      if a != [] {
        assert SameWithKey(key, key(a[0]), a, b);
        WithKeyMember(key, key(a[0]), a, a[0]);
        WithKeyMember(key, key(a[0]), b, a[0]);
      }
      if b != [] {
        assert SameWithKey(key, key(b[0]), a, b);
        WithKeyMember(key, key(b[0]), a, b[0]);
        WithKeyMember(key, key(b[0]), b, b[0]);
      }
    } else {
      var x, y := a[|a| - 1], b[|b| - 1];
      assert SameWithKey(key, key(x), a, b) && SameWithKey(key, key(y), a, b);
      LastIsNotBefore(key, a, b);
      LastIsNotBefore(key, b, a);
      assert key(x) == key(y);
      var before, after := a[..|a| - 1], b[..|b| - 1];
      forall k: Key ensures SameWithKey(key, k, before, after) {
        SameWithoutTheLast(key, k, a, b);
      }
      SameWithoutTheLast(key, key(x), a, b);
      StableOrderIsUnique(key, before, after);
      assert a == before + [x] && b == after + [y];
    }
  }

  lemma LastIsNotBefore<T>(key: T -> Key, a: seq<T>, b: seq<T>)
    requires a != [] && b != [] && Ordered(key, b)
    requires WithKey(key, key(a[|a| - 1]), a) == WithKey(key, key(a[|a| - 1]), b)
    ensures !Before(key(b[|b| - 1]), key(a[|a| - 1]))
  {
    var x := a[|a| - 1];
    WithKeyMember(key, key(x), a, x);
    WithKeyMember(key, key(x), b, x);
    var i :| 0 <= i < |b| && b[i] == x;
  }

  ghost predicate Distinguishes<T(!new)>(key: T -> Key, s: seq<T>) {
    forall x, y :: x in s && y in s && key(x) == key(y) ==> x == y
  }

  lemma LastIsTheSame<T(!new)>(key: T -> Key, a: seq<T>, b: seq<T>)
    requires a != [] && b != [] && Ordered(key, a) && Ordered(key, b) && Distinguishes(key, a)
    requires multiset(a) == multiset(b)
    ensures a[|a| - 1] == b[|b| - 1]
  {
    var x, y := a[|a| - 1], b[|b| - 1];
    assert x in multiset(a) && y in multiset(b);
    assert x in multiset(b) && y in multiset(a);
    assert key(x) == key(y) by {
      var i :| 0 <= i < |b| && b[i] == x;
      var j :| 0 <= j < |a| && a[j] == y;
    }
  }

  lemma WithoutTheLast<T>(s: seq<T>)
    requires s != []
    ensures multiset(s[..|s| - 1]) == multiset(s) - multiset{s[|s| - 1]}
  {
    assert s == s[..|s| - 1] + [s[|s| - 1]];
  }

  lemma PrefixFacts<T(!new)>(key: T -> Key, a: seq<T>)
    requires a != [] && Ordered(key, a) && Distinguishes(key, a)
    ensures Ordered(key, a[..|a| - 1]) && Distinguishes(key, a[..|a| - 1])
  {
    var before := a[..|a| - 1];
    assert forall x :: x in before ==> x in a;
  }

  lemma SameLength<T>(a: seq<T>, b: seq<T>)
    requires multiset(a) == multiset(b)
    ensures |a| == |b|
  {
    assert |a| == |multiset(a)| && |b| == |multiset(b)|;
  }

  lemma SamePrefixes<T(!new)>(key: T -> Key, a: seq<T>, b: seq<T>)
    requires a != [] && b != [] && Ordered(key, a) && Ordered(key, b) && Distinguishes(key, a)
    requires multiset(a) == multiset(b)
    ensures a[|a| - 1] == b[|b| - 1] && multiset(a[..|a| - 1]) == multiset(b[..|b| - 1])
  {
    LastIsTheSame(key, a, b);
    WithoutTheLast(a);
    WithoutTheLast(b);
  }

  lemma {:induction false} OrderIsUnique<T(!new)>(key: T -> Key, a: seq<T>, b: seq<T>)
    requires Ordered(key, a) && Ordered(key, b) && Distinguishes(key, a) && Distinguishes(key, b)
    requires multiset(a) == multiset(b)
    ensures a == b
    decreases |a|
  {
    SameLength(a, b);
    if a != [] {
      SamePrefixes(key, a, b);
      PrefixFacts(key, a);
      PrefixFacts(key, b);
      OrderIsUnique(key, a[..|a| - 1], b[..|b| - 1]);
      assert a == a[..|a| - 1] + [a[|a| - 1]] && b == b[..|b| - 1] + [b[|b| - 1]];
    }
  }

  lemma PermutationDistinguishes<T(!new)>(key: T -> Key, a: seq<T>, b: seq<T>)
    requires Distinguishes(key, a) && multiset(a) == multiset(b)
    ensures Distinguishes(key, b)
  {
    forall x, y | x in b && y in b && key(x) == key(y) ensures x == y {
      PermutationKeepsMembers(a, b, x);
      PermutationKeepsMembers(a, b, y);
    }
  }

  /** When keys tell the elements apart, what comes out does not depend on the order that went in. */
  lemma PermutedSortsAgree<T(!new)>(key: T -> Key, a: seq<T>, b: seq<T>)
    requires Distinguishes(key, a) && multiset(a) == multiset(b)
    ensures Sort(key, a) == Sort(key, b)
  {
    SortOrders(key, a);
    SortOrders(key, b);
    SortPermutes(key, a);
    SortPermutes(key, b);
    PermutationDistinguishes(key, a, Sort(key, a));
    PermutationDistinguishes(key, a, Sort(key, b));
    OrderIsUnique(key, Sort(key, a), Sort(key, b));
  }

  // ---------------------------------------------------------------- sequences without repeats

  ghost predicate NoRepeats<T>(s: seq<T>) {
    forall i, j :: 0 <= i < j < |s| ==> s[i] != s[j]
  }

  lemma {:induction false} CountOfDistinct<T>(s: seq<T>, x: T)
    requires NoRepeats(s)
    ensures multiset(s)[x] == if x in s then 1 else 0
  {
    if s != [] {
      var before := s[..|s| - 1];
      CountOfDistinct(before, x);
      assert s == before + [s[|s| - 1]];
    }
  }

  lemma {:induction false} RepeatIsCountedTwice<T>(s: seq<T>, i: nat, j: nat)
    requires i < j < |s| && s[i] == s[j]
    ensures multiset(s)[s[i]] >= 2
  {
    var before, after := s[..j], s[j..];
    assert s == before + after && before[i] == s[i] && after[0] == s[j];
    assert s[i] in before && s[i] in after;
    assert multiset(s) == multiset(before) + multiset(after);
  }

  lemma SameMembersSameCounts<T(!new)>(a: seq<T>, b: seq<T>)
    requires NoRepeats(a) && NoRepeats(b)
    requires forall x :: x in a <==> x in b
    ensures multiset(a) == multiset(b)
  {
    forall x: T ensures multiset(a)[x] == multiset(b)[x] {
      CountOfDistinct(a, x);
      CountOfDistinct(b, x);
    }
  }

  lemma PermutationKeepsDistinct<T>(a: seq<T>, b: seq<T>)
    requires NoRepeats(a) && multiset(a) == multiset(b)
    ensures NoRepeats(b)
  {
    forall i: nat, j: nat | i < j < |b| ensures b[i] != b[j] {
      if b[i] == b[j] {
        RepeatIsCountedTwice(b, i, j);
        CountOfDistinct(a, b[i]);
      }
    }
  }

  lemma JoinedDoNotRepeat<T>(a: seq<T>, b: seq<T>)
    requires NoRepeats(a) && NoRepeats(b) && forall x :: x in a ==> x !in b
    ensures NoRepeats(a + b)
  {
    forall i, j | 0 <= i < j < |a + b| ensures (a + b)[i] != (a + b)[j] {
      if i < |a| <= j {
        assert (a + b)[i] in a && (a + b)[j] in b;
      }
    }
  }

  lemma PermutationKeepsMembers<T>(a: seq<T>, b: seq<T>, x: T)
    requires multiset(a) == multiset(b)
    ensures x in a <==> x in b
  {
    assert x in a <==> x in multiset(a);
    assert x in b <==> x in multiset(b);
  }

  ghost predicate StrictlyOrdered<T>(key: T -> Key, s: seq<T>) {
    forall i, j :: 0 <= i < j < |s| ==> Before(key(s[i]), key(s[j]))
  }

  /** Telling the elements apart and not repeating any makes the order strict. */
  lemma DistinctKeysAreStrict<T(!new)>(key: T -> Key, s: seq<T>)
    requires Distinguishes(key, s) && NoRepeats(s)
    ensures StrictlyOrdered(key, Sort(key, s))
  {
    var sorted := Sort(key, s);
    SortPermutes(key, s);
    SortOrders(key, s);
    PermutationKeepsDistinct(s, sorted);
    forall i, j | 0 <= i < j < |sorted| ensures Before(key(sorted[i]), key(sorted[j])) {
      PermutationKeepsMembers(s, sorted, sorted[i]);
      PermutationKeepsMembers(s, sorted, sorted[j]);
      assert !Before(key(sorted[j]), key(sorted[i]));
      assert sorted[i] != sorted[j];
    }
  }
}
