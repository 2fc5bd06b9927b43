/** The list queries the stores and view models build on, each stated once
    over a predicate or a key: LINQ's Where, Count, FirstOrDefault and Max,
    and List.FindIndex. */
module Seqs {
  import opened Text

  /** Where: the elements that satisfy `p`, in their original order. */
  function Filter<T>(s: seq<T>, p: T -> bool): (r: seq<T>)
    ensures |r| <= |s|
    ensures forall i :: 0 <= i < |r| ==> r[i] in s && p(r[i])
    ensures forall i :: 0 <= i < |s| && p(s[i]) ==> s[i] in r
    decreases |s|
  {
    if |s| == 0 then []
    else
      var init := s[..|s| - 1];
      assert s == init + [s[|s| - 1]];
      Filter(init, p) + (if p(s[|s| - 1]) then [s[|s| - 1]] else [])
  }

  /** Filtering a longer prefix adds the next element exactly when it
      satisfies `p`; this is the step of every rebuild loop. */
  lemma FilterSnoc<T>(s: seq<T>, i: nat, p: T -> bool)
    requires i < |s|
    ensures Filter(s[..i + 1], p) == Filter(s[..i], p) + (if p(s[i]) then [s[i]] else [])
  {
    assert s[..i + 1][..i] == s[..i];
  }

  /** Filter keeps every satisfying element as often as it occurs, and
      drops every other one. */
  lemma {:induction false} FilterMultiset<T>(s: seq<T>, p: T -> bool)
    ensures forall x :: multiset(Filter(s, p))[x] == if p(x) then multiset(s)[x] else 0
    decreases |s|
  {
    if |s| > 0 {
      var init := s[..|s| - 1];
      assert s == init + [s[|s| - 1]];
      FilterMultiset(init, p);
    }
  }

  /** Filtering by a predicate and by its negation splits the sequence:
      together the two results hold every element exactly once. */
  lemma FilterPartition<T>(s: seq<T>, p: T -> bool, q: T -> bool)
    requires forall x :: q(x) == !p(x)
    ensures multiset(Filter(s, p)) + multiset(Filter(s, q)) == multiset(s)
    ensures |Filter(s, p)| + |Filter(s, q)| == |s|
  {
    FilterMultiset(s, p);
    FilterMultiset(s, q);
    var m := multiset(Filter(s, p)) + multiset(Filter(s, q));
    assert forall x :: m[x] == multiset(s)[x];
    assert m == multiset(s);
    assert |m| == |multiset(s)|;
  }

  /** Count(p): how many elements satisfy `p`. */
  function Count<T>(s: seq<T>, p: T -> bool): (n: nat)
    ensures n <= |s|
    ensures n == 0 <==> forall i :: 0 <= i < |s| ==> !p(s[i])
  {
    if |s| == 0 then 0
    else (if p(s[0]) then 1 else 0) + Count(s[1..], p)
  }

  /** Counting the elements that satisfy `p` is the length of their Where. */
  lemma {:induction false} CountIsFilterLength<T>(s: seq<T>, p: T -> bool)
    ensures Count(s, p) == |Filter(s, p)|
    decreases |s|
  {
    if |s| > 0 {
      CountIsFilterLength(s[1..], p);
      FilterPrepend(s[0], s[1..], p);
      assert s == [s[0]] + s[1..];
    }
  }

  /** Filtering a sequence with one element in front. */
  lemma {:induction false} FilterPrepend<T>(x: T, s: seq<T>, p: T -> bool)
    ensures Filter([x] + s, p) == (if p(x) then [x] else []) + Filter(s, p)
    decreases |s|
  {
    var xs := [x] + s;
    if |s| > 0 {
      var init := s[..|s| - 1];
      assert xs[..|xs| - 1] == [x] + init;
      FilterPrepend(x, init, p);
    } else {
      assert xs[..|xs| - 1] == [];
    }
  }

  /** FindIndex: the position of the first element satisfying `p`, or -1
      when there is none. */
  function FirstIndex<T>(s: seq<T>, p: T -> bool): (i: int)
    ensures -1 <= i < |s|
    ensures i == -1 <==> forall j :: 0 <= j < |s| ==> !p(s[j])
    ensures i >= 0 ==> p(s[i]) && forall j :: 0 <= j < i ==> !p(s[j])
  {
    if |s| == 0 then -1
    else if p(s[0]) then 0
    else
      var k := FirstIndex(s[1..], p);
      if k == -1 then -1 else k + 1
  }

  /** FirstOrDefault: the first element satisfying `p`, or None. */
  function First<T>(s: seq<T>, p: T -> bool): (r: Option<T>)
    ensures r == None <==> forall j :: 0 <= j < |s| ==> !p(s[j])
    ensures r != None ==>
      exists i :: 0 <= i < |s| && s[i] == r.value && p(s[i]) && forall j :: 0 <= j < i ==> !p(s[j])
  {
    var i := FirstIndex(s, p);
    if i == -1 then None else Some(s[i])
  }

  /** Replacing an element by one that still satisfies `p` leaves the first
      match where it was. */
  lemma FirstIndexAfterReplace<T>(s: seq<T>, p: T -> bool, x: T)
    requires FirstIndex(s, p) >= 0 && p(x)
    ensures FirstIndex(s[FirstIndex(s, p) := x], p) == FirstIndex(s, p)
  {
    var i := FirstIndex(s, p);
    var t := s[i := x];
    var k := FirstIndex(t, p);
    assert p(t[i]);
    assert forall j :: 0 <= j < i ==> t[j] == s[j];
  }

  /** The first position satisfying `p` is the one FirstIndex reports. */
  lemma FirstIndexIs<T>(s: seq<T>, p: T -> bool, i: nat)
    requires i < |s| && p(s[i])
    requires forall j :: 0 <= j < i ==> !p(s[j])
    ensures FirstIndex(s, p) == i
  {
  }

  /** Max(key): the largest key in a non-empty sequence. */
  function MaxKey<T>(s: seq<T>, key: T -> int): (m: int)
    requires |s| > 0
    ensures forall i :: 0 <= i < |s| ==> key(s[i]) <= m
    ensures exists i :: 0 <= i < |s| && key(s[i]) == m
  {
    if |s| == 1 then key(s[0])
    else
      var rest := MaxKey(s[1..], key);
      assert forall i :: 1 <= i < |s| ==> key(s[i]) == key(s[1..][i - 1]);
      if key(s[0]) >= rest then key(s[0]) else rest
  }

  /** The identifier rule shared by the stores: one more than the largest
      key, or 1 when the sequence is empty. It exceeds every key present. */
  function NextId<T>(s: seq<T>, key: T -> int): (n: int)
    ensures forall i :: 0 <= i < |s| ==> key(s[i]) < n
    ensures |s| == 0 ==> n == 1
    ensures |s| > 0 ==> exists i :: 0 <= i < |s| && key(s[i]) == n - 1
  {
    if |s| > 0 then MaxKey(s, key) + 1 else 1
  }

  /** List.RemoveAt: the sequence without the element at `i`. */
  function RemoveAt<T>(s: seq<T>, i: nat): (r: seq<T>)
    requires i < |s|
    ensures |r| == |s| - 1
    ensures forall j :: 0 <= j < i ==> r[j] == s[j]
    ensures forall j :: i <= j < |r| ==> r[j] == s[j + 1]
    ensures multiset(r) + multiset{s[i]} == multiset(s)
  {
    assert s == s[..i] + [s[i]] + s[i + 1..];
    s[..i] + s[i + 1..]
  }
}
