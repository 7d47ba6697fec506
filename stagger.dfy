/**
 * Stagger animation for grid items: within each container, the item at
 * index i gets an animation delay of i times the increment, in milliseconds.
 * Each container's items are an array of delay slots, in document order.
 */
module Stagger {

  /** The increment used when the caller gives none, in milliseconds. */
  const DefaultIncrement: int := 100

  /** The delays of a container of `n` items. */
  function Delays(n: nat, increment: int): (r: seq<int>)
    ensures |r| == n
  {
    if n == 0 then [] else Delays(n - 1, increment) + [(n - 1) * increment]
  }

  lemma {:induction false} DelayAt(n: nat, increment: int, i: nat)
    requires i < n
    ensures Delays(n, increment)[i] == i * increment
  {
    if i < n - 1 {
      DelayAt(n - 1, increment, i);
    }
  }

  /** Every call on the page uses the default: the item at index i waits
      i × 100 ms. */
  lemma DefaultDelayAt(n: nat, i: nat)
    requires i < n
    ensures Delays(n, DefaultIncrement)[i] == i * 100
  {
    DelayAt(n, DefaultIncrement, i);
  }

  /** The first item starts at once, and with a positive increment the delays
      strictly increase with the index, one increment apart. */
  lemma DelaysIncrease(n: nat, increment: int, i: nat, j: nat)
    requires increment > 0
    requires i < j < n
    ensures Delays(n, increment)[0] == 0
    ensures Delays(n, increment)[i] < Delays(n, increment)[j]
    ensures Delays(n, increment)[i + 1] - Delays(n, increment)[i] == increment
  {
    DelayAt(n, increment, 0);
    DelayAt(n, increment, i);
    DelayAt(n, increment, i + 1);
    DelayAt(n, increment, j);
    assert j * increment - i * increment == (j - i) * increment;
  }

  /** Sets the delay of every item of one container from its index. */
  method StaggerItems(items: array<int>, increment: int)
    modifies items
    ensures items[..] == Delays(items.Length, increment)
  {
    for i := 0 to items.Length
      invariant forall k | 0 <= k < i :: items[k] == k * increment
    {
      items[i] := i * increment;
    }
    forall k | 0 <= k < items.Length
      ensures items[..][k] == Delays(items.Length, increment)[k]
    {
      DelayAt(items.Length, increment, k);
    }
  }

  /** Staggers every container in turn; the index restarts at 0 in each. */
  method AddStaggerAnimation(containers: seq<array<int>>, increment: int)
    modifies set c | c in containers
    ensures forall c | c in containers :: c[..] == Delays(c.Length, increment)
  {
    for ci := 0 to |containers|
      invariant forall k | 0 <= k < ci :: containers[k][..] == Delays(containers[k].Length, increment)
    {
      StaggerItems(containers[ci], increment);
    }
  }
}
