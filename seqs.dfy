/** Sequence operations shared by the editor and the preview: `Array.prototype.filter`
    and the two `splice` calls that move one element. */
module Seqs {

  /** The elements of `s` that `keep` accepts, in their original order. */
  function Filter<T>(s: seq<T>, keep: T -> bool): (r: seq<T>)
    ensures |r| <= |s|
  {
    if s == [] then [] else (if keep(s[0]) then [s[0]] else []) + Filter(s[1..], keep)
  }

  /** The filter keeps exactly the elements the test accepts. */
  lemma {:induction false} FilterMembers<T>(s: seq<T>, keep: T -> bool)
    ensures forall i :: 0 <= i < |Filter(s, keep)| ==> Filter(s, keep)[i] in s && keep(Filter(s, keep)[i])
    ensures forall i :: 0 <= i < |s| && keep(s[i]) ==> s[i] in Filter(s, keep)
  {
    if s != [] {
      FilterMembers(s[1..], keep);
      var head := if keep(s[0]) then [s[0]] else [];
      assert Filter(s, keep) == head + Filter(s[1..], keep);
      forall i | 0 <= i < |s| && keep(s[i])
        ensures s[i] in Filter(s, keep)
      {
        if i > 0 {
          assert s[i] == s[1..][i - 1];
        }
      }
    }
  }

  /** Filtering distributes over concatenation: whatever comes earlier in the input
      comes earlier in the output, so relative order is kept. */
  lemma {:induction false} FilterAppend<T>(a: seq<T>, b: seq<T>, keep: T -> bool)
    ensures Filter(a + b, keep) == Filter(a, keep) + Filter(b, keep)
  {
    if a == [] {
      assert a + b == b;
    } else {
      var head := if keep(a[0]) then [a[0]] else [];
      calc {
        Filter(a + b, keep);
        { assert (a + b)[0] == a[0]; }
        head + Filter((a + b)[1..], keep);
        { assert (a + b)[1..] == a[1..] + b; }
        head + Filter(a[1..] + b, keep);
        { FilterAppend(a[1..], b, keep); }
        head + (Filter(a[1..], keep) + Filter(b, keep));
        Filter(a, keep) + Filter(b, keep);
      }
    }
  }

  /** A filter that rejects nothing returns its input. */
  lemma {:induction false} FilterKeepsAll<T>(s: seq<T>, keep: T -> bool)
    requires forall i :: 0 <= i < |s| ==> keep(s[i])
    ensures Filter(s, keep) == s
  {
    if s != [] {
      FilterKeepsAll(s[1..], keep);
    }
  }

  /** A filter that rejects exactly the element at `k` removes that element only. */
  lemma {:induction false} FilterRejectsOne<T>(s: seq<T>, k: nat, keep: T -> bool)
    requires k < |s| && !keep(s[k])
    requires forall i :: 0 <= i < |s| && i != k ==> keep(s[i])
    ensures Filter(s, keep) == RemoveAt(s, k)
  {
    if k == 0 {
      FilterKeepsAll(s[1..], keep);
    } else {
      FilterRejectsOne(s[1..], k - 1, keep);
      assert s[..k] == [s[0]] + s[1..][..k - 1];
      assert s[k + 1..] == s[1..][k..];
    }
  }

  /** Filtering twice with the same test is filtering once. */
  lemma FilterIdempotent<T>(s: seq<T>, keep: T -> bool)
    ensures Filter(Filter(s, keep), keep) == Filter(s, keep)
  {
    FilterMembers(s, keep);
    FilterKeepsAll(Filter(s, keep), keep);
  }

  /** The elements kept by one test and the elements kept by its negation together are
      exactly the input. */
  lemma {:induction false} FilterPartition<T>(s: seq<T>, keep: T -> bool, reject: T -> bool)
    requires forall i :: 0 <= i < |s| ==> reject(s[i]) == !keep(s[i])
    ensures multiset(Filter(s, keep)) + multiset(Filter(s, reject)) == multiset(s)
    ensures |Filter(s, keep)| + |Filter(s, reject)| == |s|
  {
    if s != [] {
      FilterPartition(s[1..], keep, reject);
      assert s == [s[0]] + s[1..];
    }
  }

  /** JavaScript `splice(i, 1)`: the sequence without its element at `i`. */
  function RemoveAt<T>(s: seq<T>, i: nat): (r: seq<T>)
    requires i < |s|
    ensures |r| == |s| - 1
    ensures forall k :: 0 <= k < |r| ==> r[k] == if k < i then s[k] else s[k + 1]
  {
    s[..i] + s[i + 1..]
  }

  /** JavaScript `splice(j, 0, x)`: `x` inserted so that it lands at index `j`. */
  function InsertAt<T>(s: seq<T>, j: nat, x: T): (r: seq<T>)
    requires j <= |s|
    ensures |r| == |s| + 1 && r[j] == x
    ensures forall k :: 0 <= k < |r| && k != j ==> r[k] == if k < j then s[k] else s[k - 1]
  {
    s[..j] + [x] + s[j..]
  }

  /** `a.splice(i, 1)` on the array prefix `a[..a.Length]`: the elements after `i` shift one
      place left; the last slot keeps its old value and is no longer part of the list. */
  method SpliceOut<T>(a: array<T>, i: nat)
    requires i < a.Length
    modifies a
    ensures a[..a.Length - 1] == RemoveAt(old(a[..]), i)
  {
    var k := i;
    while k < a.Length - 1
      invariant i <= k <= a.Length - 1
      invariant forall m :: 0 <= m < i ==> a[m] == old(a[m])
      invariant forall m :: i <= m < k ==> a[m] == old(a[m + 1])
      invariant forall m :: k <= m < a.Length ==> a[m] == old(a[m])
    {
      a[k] := a[k + 1];
      k := k + 1;
    }
    assert forall m :: 0 <= m < a.Length - 1 ==> a[..a.Length - 1][m] == RemoveAt(old(a[..]), i)[m];
  }

  /** `a.splice(j, 0, x)` on the list held in `a[..len]`: the elements from `j` on shift one
      place right into the spare slot at `len` and `x` takes index `j`. */
  method SpliceIn<T>(a: array<T>, len: nat, j: nat, x: T)
    requires j <= len < a.Length
    modifies a
    ensures a[..len + 1] == InsertAt(old(a[..len]), j, x)
    ensures a[len + 1..] == old(a[len + 1..])
  {
    var k := len;
    while k > j
      invariant j <= k <= len
      invariant forall m :: 0 <= m < k ==> a[m] == old(a[m])
      invariant forall m :: k < m <= len ==> a[m] == old(a[m - 1])
      invariant forall m :: len < m < a.Length ==> a[m] == old(a[m])
    {
      a[k] := a[k - 1];
      k := k - 1;
    }
    a[j] := x;
    assert forall m :: 0 <= m < len + 1 ==> a[..len + 1][m] == InsertAt(old(a[..len]), j, x)[m];
  }

  /** The element at `from` taken out and put back in at `to`. */
  function Move<T>(s: seq<T>, from: nat, to: nat): seq<T>
    requires from < |s| && to < |s|
  {
    InsertAt(RemoveAt(s, from), to, s[from])
  }

  /** Where the element at index `k` of a moved sequence came from. */
  function MoveSource(from: nat, to: nat, k: nat): nat {
    if k == to then from
    else if from < to && from <= k < to then k + 1
    else if to < from && to < k <= from then k - 1
    else k
  }

  /** Element by element: the moved element lands at `to`, the ones between shift by one
      towards `from`, and the rest stay put. */
  lemma MoveAt<T>(s: seq<T>, from: nat, to: nat)
    requires from < |s| && to < |s|
    ensures |Move(s, from, to)| == |s|
    ensures forall k :: 0 <= k < |s| ==> MoveSource(from, to, k) < |s| && Move(s, from, to)[k] == s[MoveSource(from, to, k)]
  {
  }

  /** Two different positions of a moved sequence come from two different positions. */
  lemma MoveSourceInjective(from: nat, to: nat, k1: nat, k2: nat)
    requires k1 != k2
    ensures MoveSource(from, to, k1) != MoveSource(from, to, k2)
  {
  }

  /** A move is a permutation. */
  lemma MovePermutes<T>(s: seq<T>, from: nat, to: nat)
    requires from < |s| && to < |s|
    ensures multiset(Move(s, from, to)) == multiset(s)
  {
    var x, rest := s[from], s[..from] + s[from + 1..];
    calc {
      multiset(Move(s, from, to));
      multiset(rest[..to] + [x] + rest[to..]);
      multiset(rest[..to]) + multiset([x]) + multiset(rest[to..]);
      { assert rest == rest[..to] + rest[to..]; }
      multiset(rest) + multiset([x]);
      multiset(s[..from]) + multiset(s[from + 1..]) + multiset([x]);
      { assert s == s[..from] + [x] + s[from + 1..]; }
      multiset(s);
    }
  }

  /** Taking the moved element back out of its destination leaves the other elements
      exactly as they were after taking it out of its source: their relative order is kept. */
  lemma MoveKeepsOthersInOrder<T>(s: seq<T>, from: nat, to: nat)
    requires from < |s| && to < |s|
    ensures Move(s, from, to)[to] == s[from]
    ensures RemoveAt(Move(s, from, to), to) == RemoveAt(s, from)
  {
    var m := Move(s, from, to);
    assert RemoveAt(m, to) == m[..to] + m[to + 1..];
    assert m == RemoveAt(s, from)[..to] + [s[from]] + RemoveAt(s, from)[to..];
  }

  /** Moving an element onto its own position changes nothing. */
  lemma MoveToSelf<T>(s: seq<T>, i: nat)
    requires i < |s|
    ensures Move(s, i, i) == s
  {
    assert s == s[..i] + [s[i]] + s[i + 1..];
  }

  /** Moving back from `to` to `from` undoes a move. */
  lemma MoveUndo<T>(s: seq<T>, from: nat, to: nat)
    requires from < |s| && to < |s|
    ensures Move(Move(s, from, to), to, from) == s
  {
    var m := Move(s, from, to);
    MoveKeepsOthersInOrder(s, from, to);
    assert RemoveAt(m, to) == RemoveAt(s, from);
    assert s == s[..from] + [s[from]] + s[from + 1..];
  }
}
