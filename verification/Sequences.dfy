/** Sorting and flattening, the list operations the planners are written with. */
module Sequences {

  /** Concatenation of all parts. */
  function Flatten<T>(parts: seq<seq<T>>): seq<T> {
    if parts == [] then [] else parts[0] + Flatten(parts[1..])
  }

  lemma {:induction false} FlattenAppend<T>(left: seq<seq<T>>, right: seq<seq<T>>)
    ensures Flatten(left + right) == Flatten(left) + Flatten(right)
  {
    if left == [] {
      assert left + right == right;
    } else {
      FlattenAppend(left[1..], right);
      assert (left + right)[0] == left[0] && (left + right)[1..] == left[1..] + right;
      assert left[0] + (Flatten(left[1..]) + Flatten(right)) == left[0] + Flatten(left[1..]) + Flatten(right);
    }
  }

  lemma FlattenOne<T>(part: seq<T>)
    ensures Flatten([part]) == part
  {
    assert [part][1..] == [];
  }

  lemma FlattenSnoc<T>(parts: seq<seq<T>>, part: seq<T>)
    ensures Flatten(parts + [part]) == Flatten(parts) + part
  {
    FlattenAppend(parts, [part]);
    FlattenOne(part);
  }

  /** Replacing one part changes the multiset of elements by that part only. */
  lemma {:induction false} FlattenUpdate<T>(parts: seq<seq<T>>, i: nat, part: seq<T>)
    requires i < |parts|
    ensures multiset(Flatten(parts[i := part])) + multiset(parts[i])
         == multiset(Flatten(parts)) + multiset(part)
  {
    var updated := parts[i := part];
    var head, tail := multiset(parts[0]), multiset(Flatten(parts[1..]));
    assert multiset(Flatten(parts)) == head + tail;
    if i == 0 {
      assert Flatten(updated) == part + Flatten(parts[1..]) by {
        assert updated[1..] == parts[1..];
      }
      assert multiset(Flatten(updated)) == multiset(part) + tail;
    } else {
      var tail' := multiset(Flatten(updated[1..]));
      assert multiset(Flatten(updated)) == head + tail' by {
        assert updated[0] == parts[0];
      }
      assert tail' + multiset(parts[i]) == tail + multiset(part) by {
        assert updated[1..] == parts[1..][i - 1 := part];
        FlattenUpdate(parts[1..], i - 1, part);
      }
      assert head + (tail' + multiset(parts[i])) == head + (tail + multiset(part));
      assert head + tail' + multiset(parts[i]) == head + (tail' + multiset(parts[i]));
      assert head + tail + multiset(part) == head + (tail + multiset(part));
    }
  }

  lemma {:induction false} FlattenMember<T>(parts: seq<seq<T>>, x: T) returns (part: nat, index: nat)
    requires x in Flatten(parts)
    ensures part < |parts| && index < |parts[part]| && parts[part][index] == x
  {
    if x in parts[0] {
      part := 0;
      index :| index < |parts[0]| && parts[0][index] == x;
    } else {
      part, index := FlattenMember(parts[1..], x);
      part := part + 1;
    }
  }

  lemma {:induction false} MemberOfFlatten<T>(parts: seq<seq<T>>, part: nat, x: T)
    requires part < |parts| && x in parts[part]
    ensures x in Flatten(parts)
  {
    if part != 0 {
      MemberOfFlatten(parts[1..], part - 1, x);
    }
  }

  ghost predicate Ascending<T>(s: seq<T>, key: T -> int) {
    forall i, j :: 0 <= i < j < |s| ==> key(s[i]) <= key(s[j])
  }

  /** Inserts `x` behind every element whose key is not larger. */
  function InsertByKey<T>(s: seq<T>, x: T, key: T -> int): (r: seq<T>)
    ensures multiset(r) == multiset(s) + multiset{x}
    ensures |r| == |s| + 1
  {
    if s == [] then [x]
    else
      var last := |s| - 1;
      assert s == s[..last] + [s[last]];
      if key(s[last]) <= key(x) then s + [x]
      else InsertByKey(s[..last], x, key) + [s[last]]
  }

  lemma {:induction false} InsertKeepsOrder<T>(s: seq<T>, x: T, key: T -> int)
    requires Ascending(s, key)
    ensures Ascending(InsertByKey(s, x, key), key)
  {
    if s != [] && key(s[|s| - 1]) > key(x) {
      var front, top := s[..|s| - 1], s[|s| - 1];
      InsertKeepsOrder(front, x, key);
      var inner := InsertByKey(front, x, key);
      forall i | 0 <= i < |inner|
        ensures key(inner[i]) <= key(top)
      {
        assert inner[i] in multiset(inner);
        assert inner[i] == x || inner[i] in front;
      }
    }
  }

  /** Python's `sorted(s, key=key)`: ascending by key, equal keys in their old order. */
  function SortByKey<T>(s: seq<T>, key: T -> int): (r: seq<T>)
    ensures multiset(r) == multiset(s)
    ensures |r| == |s|
  {
    if s == [] then []
    else
      var last := |s| - 1;
      assert s == s[..last] + [s[last]];
      InsertByKey(SortByKey(s[..last], key), s[last], key)
  }

  lemma {:induction false} SortIsAscending<T>(s: seq<T>, key: T -> int)
    ensures Ascending(SortByKey(s, key), key)
  {
    if s != [] {
      SortIsAscending(s[..|s| - 1], key);
      InsertKeepsOrder(SortByKey(s[..|s| - 1], key), s[|s| - 1], key);
    }
  }

  // ----- sums and distinctness that do not depend on order -----

  function RemoveAt<T>(s: seq<T>, i: nat): seq<T>
    requires i < |s|
  {
    s[..i] + s[i + 1..]
  }

  function SumBy<T>(s: seq<T>, f: T -> nat): nat {
    if s == [] then 0 else f(s[0]) + SumBy(s[1..], f)
  }

  lemma {:induction false} SumByJoin<T>(a: seq<T>, b: seq<T>, f: T -> nat)
    ensures SumBy(a + b, f) == SumBy(a, f) + SumBy(b, f)
  {
    if a == [] {
      assert a + b == b;
    } else {
      SumByJoin(a[1..], b, f);
      assert (a + b)[1..] == a[1..] + b;
    }
  }

  lemma SumBySnoc<T>(s: seq<T>, x: T, f: T -> nat)
    ensures SumBy(s + [x], f) == SumBy(s, f) + f(x)
  {
    SumByJoin(s, [x], f);
    assert [x][1..] == [];
  }

  lemma SumByRemoveAt<T>(s: seq<T>, i: nat, f: T -> nat)
    requires i < |s|
    ensures SumBy(RemoveAt(s, i), f) + f(s[i]) == SumBy(s, f)
  {
    SumByJoin(s[..i], s[i + 1..], f);
    SumByJoin(s[..i], s[i..], f);
    assert s[..i] + s[i..] == s && s[i..][0] == s[i] && s[i..][1..] == s[i + 1..];
  }

  lemma RemoveAtMultiset<T>(s: seq<T>, i: nat)
    requires i < |s|
    ensures multiset(RemoveAt(s, i)) + multiset{s[i]} == multiset(s)
  {
    assert s == s[..i] + ([s[i]] + s[i + 1..]);
  }

  lemma SameRest<T>(a: multiset<T>, b: multiset<T>, x: T)
    requires a + multiset{x} == b + multiset{x}
    ensures a == b
  {
    forall y
      ensures a[y] == b[y]
    {
      assert (a + multiset{x})[y] == (b + multiset{x})[y];
    }
  }

  lemma {:induction false} SumByPermutation<T>(a: seq<T>, b: seq<T>, f: T -> nat)
    requires multiset(a) == multiset(b)
    ensures SumBy(a, f) == SumBy(b, f)
    decreases |a|
  {
    if a == [] {
      assert |multiset(b)| == |b|;
    } else {
      var last := |a| - 1;
      assert a == a[..last] + [a[last]];
      assert a[last] in multiset(b);
      var i :| 0 <= i < |b| && b[i] == a[last];
      SumByRemoveAt(b, i, f);
      RemoveAtMultiset(b, i);
      SameRest(multiset(a[..last]), multiset(RemoveAt(b, i)), a[last]);
      SumByPermutation(a[..last], RemoveAt(b, i), f);
      SumBySnoc(a[..last], a[last], f);
    }
  }

  ghost predicate DistinctBy<T, K>(s: seq<T>, key: T -> K) {
    forall i, j :: 0 <= i < j < |s| ==> key(s[i]) != key(s[j])
  }

  /** Distinct keys stay distinct, and the same elements are there, in any other order. */
  lemma DistinctPermutation<T, K>(a: seq<T>, b: seq<T>, key: T -> K)
    requires multiset(a) == multiset(b) && DistinctBy(a, key)
    ensures DistinctBy(b, key)
  {
    forall i, j | 0 <= i < j < |b|
      ensures key(b[i]) != key(b[j])
    {
      assert b[i] in multiset(a) && b[j] in multiset(a);
      var k :| 0 <= k < |a| && a[k] == b[i];
      var l :| 0 <= l < |a| && a[l] == b[j];
      if k == l {
        TwiceInMultiset(b, i, j);
        OnceInMultiset(a, k, key);
      }
    }
  }

  lemma TwiceInMultiset<T>(s: seq<T>, i: nat, j: nat)
    requires i < j < |s| && s[i] == s[j]
    ensures multiset(s)[s[i]] >= 2
  {
    assert s == s[..j] + [s[j]] + s[j + 1..];
    assert s[i] in s[..j];
  }

  lemma OnceInMultiset<T, K>(s: seq<T>, k: nat, key: T -> K)
    requires k < |s| && DistinctBy(s, key)
    ensures multiset(s)[s[k]] == 1
  {
    assert s == s[..k] + [s[k]] + s[k + 1..];
    assert s[k] !in s[..k] && s[k] !in s[k + 1..];
  }

  lemma SameMembers<T>(a: seq<T>, b: seq<T>)
    requires multiset(a) == multiset(b)
    ensures forall x :: x in a <==> x in b
  {
    assert forall x :: x in a <==> x in multiset(a);
  }

  /** Some of the elements, in their order. */
  ghost predicate IsSubsequence<T>(kept: seq<T>, all: seq<T>)
    decreases |all|
  {
    if all == [] then kept == []
    else
      IsSubsequence(kept, all[..|all| - 1])
      || (kept != [] && kept[|kept| - 1] == all[|all| - 1] && IsSubsequence(kept[..|kept| - 1], all[..|all| - 1]))
  }
}
