/** The list of buffers in order of use: prev and next links through NBUF buffers and a head. */
module BufRing {

  const NBUF: nat := 30

  /** The list head's place in the link arrays. */
  const HEAD: nat := NBUF

  /** The node at position i of the ring: the head before the first buffer and after the last. */
  function NodeAt(order: seq<nat>, i: int): nat
    requires -1 <= i <= |order|
  {
    if i == -1 || i == |order| then HEAD else order[i]
  }

  ghost predicate Distinct(order: seq<nat>) {
    && (forall i :: 0 <= i < |order| ==> order[i] < NBUF)
    && forall i, j :: 0 <= i < j < |order| ==> order[i] != order[j]
  }

  ghost predicate LinkedAt(next: seq<nat>, prev: seq<nat>, order: seq<nat>, i: int)
    requires |next| == |prev| == NBUF + 1 && Distinct(order) && -1 <= i < |order|
  {
    next[NodeAt(order, i)] == NodeAt(order, i + 1) && prev[NodeAt(order, i + 1)] == NodeAt(order, i)
  }

  /** next leads from the head through order and back to the head, and prev the other way round. */
  ghost predicate Linked(next: seq<nat>, prev: seq<nat>, order: seq<nat>) {
    && |next| == |prev| == NBUF + 1 && Distinct(order)
    && forall i :: -1 <= i < |order| ==> LinkedAt(next, prev, order, i)
  }

  function Without(order: seq<nat>, k: nat): seq<nat>
    requires k < |order|
  {
    order[..k] + order[k + 1..]
  }

  /** b->next->prev = b->prev and b->prev->next = b->next take b out. */
  lemma Unlinked(next: seq<nat>, prev: seq<nat>, order: seq<nat>, k: nat)
    requires Linked(next, prev, order) && k < |order|
    ensures var b := order[k];
            && next[b] <= NBUF && prev[b] <= NBUF
            && Linked(next[prev[b] := next[b]], prev[next[b] := prev[b]], Without(order, k))
  {
    var b := order[k];
    assert LinkedAt(next, prev, order, k) && LinkedAt(next, prev, order, k - 1);
    var next', prev', r := next[prev[b] := next[b]], prev[next[b] := prev[b]], Without(order, k);
    forall i | -1 <= i < |r| ensures LinkedAt(next', prev', r, i) {
      assert LinkedAt(next, prev, order, if i < k then i else i + 1);
    }
  }

  /** b, outside the list, goes in behind the head. */
  lemma LinkedFirst(next: seq<nat>, prev: seq<nat>, order: seq<nat>, b: nat)
    requires Linked(next, prev, order) && b < NBUF && b !in order
    ensures next[HEAD] <= NBUF
    ensures Linked(next[b := next[HEAD]][HEAD := b], prev[b := HEAD][next[HEAD] := b], [b] + order)
  {
    assert LinkedAt(next, prev, order, -1);
    var next', prev', r := next[b := next[HEAD]][HEAD := b], prev[b := HEAD][next[HEAD] := b], [b] + order;
    forall i | -1 <= i < |r| ensures LinkedAt(next', prev', r, i) {
      if i >= 1 {
        assert LinkedAt(next, prev, order, i - 1);
        assert r[i] == order[i - 1];
      }
    }
  }

  /** Moving a buffer to the front loses none. */
  lemma SameBuffers(order: seq<nat>, k: nat, b: nat)
    requires Distinct(order) && k < |order|
    ensures order[k] !in Without(order, k)
    ensures b in [order[k]] + Without(order, k) <==> b in order
  {
    if b in order {
      var i :| 0 <= i < |order| && order[i] == b;
      if i < k {
        assert Without(order, k)[i] == b;
      } else if i > k {
        assert Without(order, k)[i - 1] == b;
      }
    }
  }
}
