/** The doubly linked ring of buffers: head, then the buffers from most to least recently used. */
module BufRing {

  // The ring once round, from the head back to it.
  function Round(order: seq<nat>, head: nat): (c: seq<nat>)
    ensures |c| == |order| + 2 && c[0] == head && c[|order| + 1] == head
    ensures forall i :: 0 <= i < |order| ==> c[i + 1] == order[i]
  {
    seq(|order| + 2, i requires 0 <= i < |order| + 2 => if i == 0 || i == |order| + 1 then head else order[i - 1])
  }

  predicate Linked(c: seq<nat>, next: seq<nat>, prev: seq<nat>, i: nat)
    requires i + 1 < |c|
  {
    c[i] < |next| && next[c[i]] == c[i + 1] && c[i + 1] < |prev| && prev[c[i + 1]] == c[i]
  }

  // No buffer twice, and none is the head.
  predicate Distinct(order: seq<nat>, head: nat) {
    && (forall i :: 0 <= i < |order| ==> order[i] < head)
    && (forall i, j :: 0 <= i < j < |order| ==> order[i] != order[j])
  }

  predicate Ring(order: seq<nat>, head: nat, next: seq<nat>, prev: seq<nat>) {
    && Distinct(order, head) && |next| == head + 1 == |prev|
    && forall i :: 0 <= i <= |order| ==> Linked(Round(order, head), next, prev, i)
  }

  // The two directions undo each other on every member of the ring.
  lemma Inverse(order: seq<nat>, head: nat, next: seq<nat>, prev: seq<nat>, b: nat)
    requires Ring(order, head, next, prev) && (b in order || b == head)
    ensures next[b] <= head && prev[b] <= head && prev[next[b]] == b && next[prev[b]] == b
  {
    var c := Round(order, head);
    if b == head {
      assert Linked(c, next, prev, 0) && Linked(c, next, prev, |order|);
    } else {
      var i :| 0 <= i < |order| && order[i] == b;
      assert Linked(c, next, prev, i) && Linked(c, next, prev, i + 1);
    }
  }

  // ---------------------------------------------------------------- insertion and removal

  // Buffer b put in after the head.
  function NextFront(next: seq<nat>, head: nat, b: nat): (r: seq<nat>)
    requires b < head < |next|
  {
    next[b := next[head]][head := b]
  }

  function PrevFront(next: seq<nat>, prev: seq<nat>, head: nat, b: nat): (r: seq<nat>)
    requires b < head < |next| && head < |prev| && next[head] < |prev|
  {
    prev[b := head][next[head] := b]
  }

  lemma FrontOk(order: seq<nat>, head: nat, next: seq<nat>, prev: seq<nat>, b: nat)
    requires Ring(order, head, next, prev) && b < head && b !in order
    ensures next[head] <= head
    ensures Ring([b] + order, head, NextFront(next, head, b), PrevFront(next, prev, head, b))
  {
    var c, d := Round(order, head), Round([b] + order, head);
    assert Linked(c, next, prev, 0);
    assert next[head] == c[1] != b;
    forall i | 1 <= i < |d| ensures d[i] == if i == 1 then b else c[i - 1] {
    }
    var nx, pv := NextFront(next, head, b), PrevFront(next, prev, head, b);
    forall i | 0 <= i <= |order| + 1 ensures Linked(d, nx, pv, i) {
      if i >= 2 {
        assert Linked(c, next, prev, i - 1);
      }
    }
  }

  // The buffer at place k taken out.
  function Without(order: seq<nat>, k: nat): (r: seq<nat>)
    requires k < |order|
    ensures |r| == |order| - 1 && forall i :: 0 <= i < |r| ==> r[i] == order[if i < k then i else i + 1]
  {
    seq(|order| - 1, i requires 0 <= i < |order| - 1 => order[if i < k then i else i + 1])
  }

  // The round meets nothing twice, but for the head at its two ends.
  lemma RoundApart(order: seq<nat>, head: nat, i: nat, j: nat)
    requires Distinct(order, head) && i < j <= |order| + 1 && (i, j) != (0, |order| + 1)
    ensures Round(order, head)[i] != Round(order, head)[j]
  {
    var c := Round(order, head);
    assert 1 <= i ==> c[i] == order[i - 1];
    assert j <= |order| ==> c[j] == order[j - 1];
  }

  // Going past c[k + 1], the links elsewhere stay.
  lemma Bypass(c: seq<nat>, next: seq<nat>, prev: seq<nat>, k: nat, i: nat, d: seq<nat>)
    requires k + 2 < |c| && i + 2 < |c| && i + 1 < |d|
    requires c[k] < |next| && c[k + 2] < |prev|
    requires d[i] == c[if i <= k then i else i + 1] && d[i + 1] == c[if i < k then i + 1 else i + 2]
    requires i < k ==> Linked(c, next, prev, i) && c[i] != c[k] && c[i + 1] != c[k + 2]
    requires i > k ==> Linked(c, next, prev, i + 1) && c[k] != c[i + 1] && c[k + 2] != c[i + 2]
    ensures Linked(d, next[c[k] := c[k + 2]], prev[c[k + 2] := c[k]], i)
  {
  }

  lemma RoundWithout(order: seq<nat>, head: nat, k: nat, i: nat)
    requires k < |order| && i <= |order|
    ensures Round(Without(order, k), head)[i] == Round(order, head)[if i <= k then i else i + 1]
  {
    var r := Without(order, k);
    assert 1 <= i < |order| ==> r[i - 1] == order[if i - 1 < k then i - 1 else i];
  }

  lemma OutLinked(order: seq<nat>, head: nat, next: seq<nat>, prev: seq<nat>, k: nat, i: nat, c: seq<nat>, d: seq<nat>)
    requires Ring(order, head, next, prev) && k < |order| && i < |order| && c == Round(order, head) && i + 1 < |d|
    requires d[i] == c[if i <= k then i else i + 1] && d[i + 1] == c[if i < k then i + 1 else i + 2]
    ensures c[k] <= head && c[k + 2] <= head && next[c[k + 1]] == c[k + 2] && prev[c[k + 1]] == c[k]
    ensures Linked(d, next[c[k] := c[k + 2]], prev[c[k + 2] := c[k]], i)
  {
    assert Linked(c, next, prev, k) && Linked(c, next, prev, k + 1);
    if i < k {
      RoundApart(order, head, i, k);
      RoundApart(order, head, i + 1, k + 2);
    } else if i > k {
      RoundApart(order, head, k, i + 1);
      RoundApart(order, head, k + 2, i + 2);
    }
    Bypass(c, next, prev, k, i, d);
  }

  lemma OutOk(order: seq<nat>, head: nat, next: seq<nat>, prev: seq<nat>, k: nat)
    requires Ring(order, head, next, prev) && k < |order|
    ensures next[order[k]] <= head && prev[order[k]] <= head && order[k] !in Without(order, k)
    ensures var b := order[k]; Ring(Without(order, k), head, next[prev[b] := next[b]], prev[next[b] := prev[b]])
  {
    var c, d := Round(order, head), Round(Without(order, k), head);
    var b := order[k];
    assert Linked(c, next, prev, k) && Linked(c, next, prev, k + 1);
    var nx, pv := next[prev[b] := next[b]], prev[next[b] := prev[b]];
    forall i | 0 <= i < |order| ensures Linked(d, nx, pv, i) {
      RoundWithout(order, head, k, i);
      RoundWithout(order, head, k, i + 1);
      OutLinked(order, head, next, prev, k, i, c, d);
    }
  }
}
