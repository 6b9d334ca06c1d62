/**
 * What `processTransactions` does with the batches of a non-empty capture:
 * dispatch every batch in order, recording cancellations on the transactions,
 * and only then, if anything was cancelled, restore the cancelled transactions
 * from the last batch to the first and, within a batch, from its last
 * transaction to its first.
 */
module Processing {
  import opened Wrappers
  import opened Seqs
  import opened Transactions

  /**
   * What the event manager and the deciders decide while batches are dispatched:
   * `eventCancelled(b)` says whether the posted event of `b` came back cancelled,
   * and `forceCancel(b, eventCancelled)` is the set of transactions the decider's
   * markCancelledTransactions cancels in addition.
   */
  datatype DispatchHooks = DispatchHooks(
    eventCancelled: Batch -> bool,
    forceCancel: (Batch, bool) -> set<Handle>)

  /** The arena with every transaction of `hs` marked cancelled. */
  function Cancel<T>(nodes: seq<Node<T>>, hs: set<Handle>): (r: seq<Node<T>>)
    ensures SameShape(nodes, r)
    ensures forall h :: 0 <= h < |nodes| ==>
      r[h].cancelled == (nodes[h].cancelled || h in hs) && r[h].payload == nodes[h].payload
  {
    seq(|nodes|, h requires 0 <= h < |nodes| => if h in hs then nodes[h].(cancelled := true) else nodes[h])
  }

  /** isParentOrDeciderCancelled: the batch's parent transaction or its decider is already cancelled. */
  function ParentOrDeciderCancelled<T>(nodes: seq<Node<T>>, b: Batch): (r: bool)
    requires b.decider < |nodes| && (b.parent.Some? ==> b.parent.value < |nodes|)
    ensures r <==> (b.parent.Some? && nodes[b.parent.value].cancelled) || nodes[b.decider].cancelled
  {
    (b.parent.Some? && nodes[b.parent.value].cancelled) || nodes[b.decider].cancelled
  }

  /** The arena after dispatching, whether anything was cancelled, and the batches whose events were posted. */
  datatype Dispatched<T> = Dispatched(nodes: seq<Node<T>>, cancelledAny: bool, posted: seq<Batch>)

  /** The set of transactions of a batch. */
  function MemberSet(b: Batch): set<Handle>
  {
    set x | x in b.members
  }

  /** Cancellation only ever goes from false to true. */
  ghost predicate OnlyMoreCancelled<T>(a: seq<Node<T>>, b: seq<Node<T>>)
    requires |a| == |b|
  {
    forall h :: 0 <= h < |a| ==> a[h].cancelled ==> b[h].cancelled
  }

  /** One iteration of the dispatch loop over the batches. */
  function Step<T>(nodes: seq<Node<T>>, b: Batch, dh: DispatchHooks): (r: Dispatched<T>)
    requires BatchWithin(b, |nodes|)
    ensures SameShape(nodes, r.nodes) && OnlyMoreCancelled(nodes, r.nodes)
    ensures forall h :: 0 <= h < |nodes| && h !in b.members ==> r.nodes[h] == nodes[h]
    ensures ParentOrDeciderCancelled(nodes, b) ==>
      && r.posted == [] && r.cancelledAny
      && forall j :: 0 <= j < |b.members| ==> r.nodes[b.members[j]].cancelled
    ensures !ParentOrDeciderCancelled(nodes, b) ==> r.posted == [b]
    ensures !ParentOrDeciderCancelled(nodes, b) && dh.eventCancelled(b) ==>
      r.cancelledAny && forall j :: 0 <= j < |b.members| ==> r.nodes[b.members[j]].cancelled
    ensures r.cancelledAny ==> exists j :: 0 <= j < |b.members| && r.nodes[b.members[j]].cancelled
    ensures !r.cancelledAny ==> r.nodes == nodes
  {
    var all := MemberSet(b);
    CancelAllMembers(nodes, b);
    if ParentOrDeciderCancelled(nodes, b) then
      assert Cancel(nodes, all)[b.members[0]].cancelled;
      Dispatched(Cancel(nodes, all), true, [])
    else
      var ev := dh.eventCancelled(b);
      var n1 := if ev then Cancel(nodes, all) else nodes;
      var forced := all * dh.forceCancel(b, ev);
      CancelSomeMembers(n1, b, forced);
      Dispatched(Cancel(n1, forced), ev || forced != {}, [b])
  }

  /** Cancelling a batch's member set cancels each of its transactions. */
  lemma {:induction false} CancelAllMembers<T>(nodes: seq<Node<T>>, b: Batch)
    requires BatchWithin(b, |nodes|)
    ensures forall j :: 0 <= j < |b.members| ==> Cancel(nodes, MemberSet(b))[b.members[j]].cancelled
  {
    forall j | 0 <= j < |b.members| ensures Cancel(nodes, MemberSet(b))[b.members[j]].cancelled {
      assert b.members[j] in MemberSet(b);
    }
  }

  /**
   * Cancelling some of a batch's transactions leaves one of them cancelled when
   * the set is non-empty or its first transaction already was, and changes
   * nothing when the set is empty.
   */
  lemma {:induction false} CancelSomeMembers<T>(nodes: seq<Node<T>>, b: Batch, hs: set<Handle>)
    requires BatchWithin(b, |nodes|) && hs <= MemberSet(b)
    ensures hs != {} || nodes[b.members[0]].cancelled ==>
      exists j :: 0 <= j < |b.members| && Cancel(nodes, hs)[b.members[j]].cancelled
    ensures hs == {} ==> Cancel(nodes, hs) == nodes
  {
    var r := Cancel(nodes, hs);
    if hs != {} {
      var x :| x in hs;
      var j :| 0 <= j < |b.members| && b.members[j] == x;
      assert r[b.members[j]].cancelled;
    } else if nodes[b.members[0]].cancelled {
      assert r[b.members[0]].cancelled;
    }
    if hs == {} {
      assert forall h :: 0 <= h < |nodes| ==> r[h] == nodes[h];
    }
  }

  /** The dispatch loop over `bs`, in order (a left fold of `Step`). */
  function DispatchAll<T>(nodes: seq<Node<T>>, bs: seq<Batch>, dh: DispatchHooks): (r: Dispatched<T>)
    requires BatchesWithin(bs, |nodes|)
    ensures SameShape(nodes, r.nodes) && OnlyMoreCancelled(nodes, r.nodes)
    ensures !r.cancelledAny ==> r.nodes == nodes
    decreases |bs|
  {
    if bs == [] then Dispatched(nodes, false, [])
    else
      var prev := DispatchAll(nodes, bs[..|bs| - 1], dh);
      var s := Step(prev.nodes, bs[|bs| - 1], dh);
      Dispatched(s.nodes, prev.cancelledAny || s.cancelledAny, prev.posted + s.posted)
  }

  /** Dispatching one more batch: the step runs on the arena the earlier batches left. */
  lemma {:induction false} DispatchAllStep<T>(nodes: seq<Node<T>>, bs: seq<Batch>, k: nat, dh: DispatchHooks)
    requires BatchesWithin(bs, |nodes|) && k < |bs|
    ensures BatchesWithin(bs[..k], |nodes|) && BatchesWithin(bs[..k + 1], |nodes|)
    ensures |DispatchAll(nodes, bs[..k], dh).nodes| == |nodes| && BatchWithin(bs[k], |nodes|)
    ensures var prev := DispatchAll(nodes, bs[..k], dh);
      var s := Step(prev.nodes, bs[k], dh);
      DispatchAll(nodes, bs[..k + 1], dh) == Dispatched(s.nodes, prev.cancelledAny || s.cancelledAny, prev.posted + s.posted)
  {
    assert bs[..k + 1][..k] == bs[..k] && bs[..k + 1][k] == bs[k];
  }

  /** Whether a transaction is marked cancelled in `nodes`. */
  function IsCancelled<T>(nodes: seq<Node<T>>): Handle -> bool
  {
    (h: Handle) => h < |nodes| && nodes[h].cancelled
  }

  /** The restore calls for one batch: its cancelled transactions, last first. */
  function RestoreMembers<T>(nodes: seq<Node<T>>, ms: seq<Handle>): seq<Handle>
    requires forall j :: 0 <= j < |ms| ==> ms[j] < |nodes|
  {
    if ms == [] then []
    else
      (if nodes[ms[|ms| - 1]].cancelled then [ms[|ms| - 1]] else [])
        + RestoreMembers(nodes, ms[..|ms| - 1])
  }

  /** One more transaction of the batch, counted from its end, for the rollback loop. */
  lemma {:induction false} RestoreMembersStep<T>(nodes: seq<Node<T>>, ms: seq<Handle>, j: nat)
    requires 0 < j <= |ms|
    requires forall i :: 0 <= i < |ms| ==> ms[i] < |nodes|
    ensures RestoreMembers(nodes, ms[..j]) ==
      (if nodes[ms[j - 1]].cancelled then [ms[j - 1]] else []) + RestoreMembers(nodes, ms[..j - 1])
  {
    assert ms[..j][..j - 1] == ms[..j - 1];
  }

  /** The restore calls of the rollback: batches last first, each through `RestoreMembers`. */
  function RestoreTrace<T>(nodes: seq<Node<T>>, bs: seq<Batch>): seq<Handle>
    requires BatchesWithin(bs, |nodes|)
  {
    if bs == [] then []
    else RestoreMembers(nodes, bs[|bs| - 1].members) + RestoreTrace(nodes, bs[..|bs| - 1])
  }

  /** The outcome of processTransactions on a non-empty capture. */
  datatype Processed<T> = Processed(nodes: seq<Node<T>>, committed: bool, restored: seq<Handle>, posted: seq<Batch>)

  /** Dispatch everything, then roll back only if something was cancelled; the result says whether nothing was. */
  function Process<T>(nodes: seq<Node<T>>, bs: seq<Batch>, dh: DispatchHooks): Processed<T>
    requires BatchesWithin(bs, |nodes|)
  {
    var d := DispatchAll(nodes, bs, dh);
    Processed(d.nodes, !d.cancelledAny, if d.cancelledAny then RestoreTrace(d.nodes, bs) else [], d.posted)
  }

  lemma {:induction false} RestoreMembersIsReversedFilter<T>(nodes: seq<Node<T>>, ms: seq<Handle>)
    requires forall j :: 0 <= j < |ms| ==> ms[j] < |nodes|
    ensures RestoreMembers(nodes, ms) == Filter(Reverse(ms), IsCancelled(nodes))
    decreases |ms|
  {
    if ms != [] {
      var last := ms[|ms| - 1];
      var init := ms[..|ms| - 1];
      RestoreMembersIsReversedFilter(nodes, init);
      ReverseLast(ms);
      FilterAppend([last], Reverse(init), IsCancelled(nodes));
      assert Filter([last], IsCancelled(nodes)) == (if nodes[last].cancelled then [last] else []) by {
        assert [last][1..] == [];
      }
    }
  }

  lemma {:induction false} MembersOfPrefix(bs: seq<Batch>)
    requires bs != []
    ensures Flatten(MembersOf(bs)) == Flatten(MembersOf(bs[..|bs| - 1])) + bs[|bs| - 1].members
  {
    FlattenLast(MembersOf(bs));
    assert MembersOf(bs)[..|bs| - 1] == MembersOf(bs[..|bs| - 1]);
  }

  /**
   * The rollback is the whole batched sequence read backwards, keeping the
   * cancelled transactions: restore visits later transactions before earlier ones.
   */
  lemma {:induction false} RestoreTraceIsReversedFilter<T>(nodes: seq<Node<T>>, bs: seq<Batch>)
    requires BatchesWithin(bs, |nodes|)
    ensures RestoreTrace(nodes, bs) == Filter(Reverse(Flatten(MembersOf(bs))), IsCancelled(nodes))
    decreases |bs|
  {
    if bs != [] {
      var init := bs[..|bs| - 1];
      var ms := bs[|bs| - 1].members;
      assert BatchesWithin(init, |nodes|);
      RestoreTraceIsReversedFilter(nodes, init);
      RestoreMembersIsReversedFilter(nodes, ms);
      MembersOfPrefix(bs);
      ReverseAppend(Flatten(MembersOf(init)), ms);
      FilterAppend(Reverse(ms), Reverse(Flatten(MembersOf(init))), IsCancelled(nodes));
    }
  }

  /** A transaction is restored exactly when it belongs to some batch and ended up cancelled. */
  lemma {:induction false} RestoredAreTheCancelled<T>(nodes: seq<Node<T>>, bs: seq<Batch>, h: Handle)
    requires BatchesWithin(bs, |nodes|)
    ensures h in RestoreTrace(nodes, bs) <==>
      h in Flatten(MembersOf(bs)) && h < |nodes| && nodes[h].cancelled
  {
    RestoreTraceIsReversedFilter(nodes, bs);
    FilterMembership(Reverse(Flatten(MembersOf(bs))), IsCancelled(nodes), h);
    ReverseMembership(Flatten(MembersOf(bs)), h);
  }

  /**
   * Rollback order: when `a` was batched before `b` and both are cancelled,
   * `b` is restored strictly before `a`.
   */
  lemma {:induction false} LaterRestoredFirst<T>(nodes: seq<Node<T>>, bs: seq<Batch>,
                              x: seq<Handle>, a: Handle, y: seq<Handle>, b: Handle, z: seq<Handle>)
    requires BatchesWithin(bs, |nodes|)
    requires Flatten(MembersOf(bs)) == x + [a] + y + [b] + z
    requires IsCancelled(nodes)(a) && IsCancelled(nodes)(b)
    ensures exists p, q, r :: RestoreTrace(nodes, bs) == p + [b] + q + [a] + r
  {
    var keep := IsCancelled(nodes);
    RestoreTraceIsReversedFilter(nodes, bs);
    ReversedFilterOrder(x, a, y, b, z, keep);
    var p, q, r := Filter(Reverse(z), keep), Filter(Reverse(y), keep), Filter(Reverse(x), keep);
    assert RestoreTrace(nodes, bs) == p + [b] + q + [a] + r;
  }

  /** If anything was cancelled while dispatching, some batched transaction is marked cancelled. */
  lemma {:induction false} CancelledAnyLeavesAMark<T>(nodes: seq<Node<T>>, bs: seq<Batch>, dh: DispatchHooks)
    requires BatchesWithin(bs, |nodes|)
    ensures var d := DispatchAll(nodes, bs, dh);
      d.cancelledAny ==> exists h :: h in Flatten(MembersOf(bs)) && IsCancelled(d.nodes)(h)
    decreases |bs|
  {
    if bs != [] {
      var init := bs[..|bs| - 1];
      var last := bs[|bs| - 1];
      assert BatchesWithin(init, |nodes|);
      CancelledAnyLeavesAMark(nodes, init, dh);
      MembersOfPrefix(bs);
      var prev := DispatchAll(nodes, init, dh);
      var s := Step(prev.nodes, last, dh);
      if s.cancelledAny {
        var j :| 0 <= j < |last.members| && s.nodes[last.members[j]].cancelled;
        assert last.members[j] in Flatten(MembersOf(bs));
      } else if prev.cancelledAny {
        var h :| h in Flatten(MembersOf(init)) && IsCancelled(prev.nodes)(h);
        assert h in Flatten(MembersOf(bs));
      }
    }
  }

  /**
   * processTransactions reports success exactly when no restore ran: a rollback
   * happens only after a cancellation, and every cancellation gets rolled back.
   */
  lemma {:induction false} CommittedIffNothingRestored<T>(nodes: seq<Node<T>>, bs: seq<Batch>, dh: DispatchHooks)
    requires BatchesWithin(bs, |nodes|)
    ensures var r := Process(nodes, bs, dh); r.committed <==> r.restored == []
  {
    var d := DispatchAll(nodes, bs, dh);
    if d.cancelledAny {
      CancelledAnyLeavesAMark(nodes, bs, dh);
      var h :| h in Flatten(MembersOf(bs)) && IsCancelled(d.nodes)(h);
      RestoredAreTheCancelled(d.nodes, bs, h);
    }
  }

  /**
   * With no cancellation anywhere (no transaction cancelled beforehand, no event
   * cancelled, nothing force-cancelled), every batch is posted in order, nothing
   * changes, nothing is restored and processing commits.
   */
  lemma {:induction false} NoCancellationPostsEverything<T>(nodes: seq<Node<T>>, bs: seq<Batch>, dh: DispatchHooks)
    requires BatchesWithin(bs, |nodes|)
    requires forall h :: 0 <= h < |nodes| ==> !nodes[h].cancelled
    requires forall b :: !dh.eventCancelled(b)
    requires forall b, e :: dh.forceCancel(b, e) == {}
    ensures Process(nodes, bs, dh) == Processed(nodes, true, [], bs)
  {
    NothingCancelledDispatch(nodes, bs, dh);
  }

  /** The dispatch loop on its own, when nothing gets cancelled. */
  lemma {:induction false} NothingCancelledDispatch<T>(nodes: seq<Node<T>>, bs: seq<Batch>, dh: DispatchHooks)
    requires BatchesWithin(bs, |nodes|)
    requires forall h :: 0 <= h < |nodes| ==> !nodes[h].cancelled
    requires forall b :: !dh.eventCancelled(b)
    requires forall b, e :: dh.forceCancel(b, e) == {}
    ensures DispatchAll(nodes, bs, dh) == Dispatched(nodes, false, bs)
    decreases |bs|
  {
    if bs != [] {
      var k := |bs| - 1;
      assert bs[..k + 1] == bs;
      NothingCancelledDispatch(nodes, bs[..k], dh);
      QuietDispatchStep(nodes, bs, k, dh);
    }
  }

  /** A quiet dispatch stays quiet for one more batch. */
  lemma {:induction false} QuietDispatchStep<T>(nodes: seq<Node<T>>, bs: seq<Batch>, k: nat, dh: DispatchHooks)
    requires BatchesWithin(bs, |nodes|) && k < |bs| && BatchesWithin(bs[..k], |nodes|)
    requires forall h :: 0 <= h < |nodes| ==> !nodes[h].cancelled
    requires forall b :: !dh.eventCancelled(b)
    requires forall b, e :: dh.forceCancel(b, e) == {}
    requires DispatchAll(nodes, bs[..k], dh) == Dispatched(nodes, false, bs[..k])
    ensures BatchesWithin(bs[..k + 1], |nodes|)
    ensures DispatchAll(nodes, bs[..k + 1], dh) == Dispatched(nodes, false, bs[..k + 1])
  {
    DispatchAllStep(nodes, bs, k, dh);
    QuietStep(nodes, bs[k], dh);
    PrefixSnoc(bs, k);
  }

  /** With nothing cancelled yet and quiet hooks, a batch is posted and nothing changes. */
  lemma {:induction false} QuietStep<T>(nodes: seq<Node<T>>, b: Batch, dh: DispatchHooks)
    requires BatchWithin(b, |nodes|)
    requires forall h :: 0 <= h < |nodes| ==> !nodes[h].cancelled
    requires forall b :: !dh.eventCancelled(b)
    requires forall b, e :: dh.forceCancel(b, e) == {}
    ensures Step(nodes, b, dh) == Dispatched(nodes, false, [b])
  {
    assert !ParentOrDeciderCancelled(nodes, b);
    assert !dh.eventCancelled(b) && dh.forceCancel(b, false) == {};
  }
}
