/**
 * The `Vec` and `String` primitives the kanban code relies on (`insert`, `remove`,
 * `swap`, and a sum of lengths), stated once over sequences.
 */
module Seqs {

  /** `v.insert(i, x)`: `x` lands at index `i`, later elements shift right. */
  function InsertAt<T>(s: seq<T>, i: nat, x: T): (r: seq<T>)
    requires i <= |s|
    ensures |r| == |s| + 1 && r[i] == x
    ensures forall k :: 0 <= k < i ==> r[k] == s[k]
    ensures forall k :: i < k < |r| ==> r[k] == s[k - 1]
    ensures multiset(r) == multiset(s) + multiset{x}
  {
    assert s == s[..i] + s[i..];
    s[..i] + [x] + s[i..]
  }

  /** `v.remove(i)` without its result: element `i` leaves, later elements shift left. */
  function RemoveAt<T>(s: seq<T>, i: nat): (r: seq<T>)
    requires i < |s|
    ensures |r| == |s| - 1
    ensures forall k :: 0 <= k < i ==> r[k] == s[k]
    ensures forall k :: i <= k < |r| ==> r[k] == s[k + 1]
    ensures multiset(r) == multiset(s) - multiset{s[i]}
  {
    assert s == s[..i] + [s[i]] + s[i + 1..];
    s[..i] + s[i + 1..]
  }

  /** `v.swap(i, j)`. */
  function Swapped<T>(s: seq<T>, i: nat, j: nat): (r: seq<T>)
    requires i < |s| && j < |s|
    ensures |r| == |s| && r[i] == s[j] && r[j] == s[i]
    ensures forall k :: 0 <= k < |s| && k != i && k != j ==> r[k] == s[k]
  {
    s[i := s[j]][j := s[i]]
  }

  /** Removing what was just inserted at the same index gives the original back. */
  lemma RemoveAfterInsert<T>(s: seq<T>, i: nat, x: T)
    requires i <= |s|
    ensures RemoveAt(InsertAt(s, i, x), i) == s
  {
    var r := RemoveAt(InsertAt(s, i, x), i);
    assert |r| == |s|;
    forall k | 0 <= k < |s| ensures r[k] == s[k] {
      if k >= i {
        assert r[k] == InsertAt(s, i, x)[k + 1];
      }
    }
  }

  /** Inserting the removed element back at its index gives the original back. */
  lemma InsertAfterRemove<T>(s: seq<T>, i: nat)
    requires i < |s|
    ensures InsertAt(RemoveAt(s, i), i, s[i]) == s
  {
    var r := InsertAt(RemoveAt(s, i), i, s[i]);
    forall k | 0 <= k < |s| ensures r[k] == s[k] {
      if k > i {
        assert r[k] == RemoveAt(s, i)[k - 1];
      }
    }
  }

  /** A swap is its own inverse. */
  lemma SwapInvolutive<T>(s: seq<T>, i: nat, j: nat)
    requires i < |s| && j < |s|
    ensures Swapped(Swapped(s, i, j), i, j) == s
  {
  }

  /** A swap only reorders: the multiset of elements is unchanged. */
  lemma SwapPermutes<T>(s: seq<T>, i: nat, j: nat)
    requires i < |s| && j < |s|
    ensures multiset(Swapped(s, i, j)) == multiset(s)
  {
    if i != j {
      var t := s[i := s[j]];
      assert multiset(t) == multiset(s) - multiset{s[i]} + multiset{s[j]};
      assert multiset(t[j := s[i]]) == multiset(t) - multiset{t[j]} + multiset{s[i]};
    }
  }

  function Sum(s: seq<nat>): nat
  {
    if s == [] then 0 else s[0] + Sum(s[1..])
  }

  /** Replacing one entry changes the sum by exactly the difference. */
  lemma {:induction false} SumUpdate(s: seq<nat>, i: nat, v: nat)
    requires i < |s|
    ensures Sum(s[i := v]) + s[i] == Sum(s) + v
  {
    if i > 0 {
      assert s[i := v][1..] == s[1..][i - 1 := v];
      SumUpdate(s[1..], i - 1, v);
    } else {
      assert s[i := v][1..] == s[1..];
    }
  }

  /** Moving one unit from entry `a` to a different entry `b` keeps the sum. */
  lemma SumTransfer(s: seq<nat>, a: nat, b: nat)
    requires a < |s| && b < |s| && a != b && s[a] >= 1
    ensures Sum(s[a := s[a] - 1][b := s[b] + 1]) == Sum(s)
  {
    SumUpdate(s, a, s[a] - 1);
    SumUpdate(s[a := s[a] - 1], b, s[b] + 1);
  }

  /**
   * The same fact for two snapshots: `after` differs from `before` only by one unit
   * moved from `a` to `b`.
   */
  lemma TransferKeepsSum(before: seq<nat>, after: seq<nat>, a: nat, b: nat)
    requires |after| == |before| && a < |before| && b < |before| && a != b
    requires after[a] + 1 == before[a] && after[b] == before[b] + 1
    requires forall j :: 0 <= j < |before| && j != a && j != b ==> after[j] == before[j]
    ensures Sum(after) == Sum(before)
  {
    assert after == before[a := before[a] - 1][b := before[b] + 1];
    SumTransfer(before, a, b);
  }
}
