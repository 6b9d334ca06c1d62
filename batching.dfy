/**
 * What `batchTransactions` computes, as functions over a chain of handles.
 *
 * A chain is split into runs: a run starts at its decider and ends either just
 * before a transaction the decider wants to restart on, or at a transaction that
 * closes it (it has primary children, is unbatchable, or is the last of the
 * chain). Each run becomes at most one event (the kind may decline), followed
 * depth-first by the batches of every side-effect chain of every transaction in it.
 */
module Batching {
  import opened Wrappers
  import opened Seqs
  import opened Transactions

  /**
   * The kind-specific decisions batching asks of transactions:
   * `restarts(decider, t)` is decider.shouldBuildEventAndRestartBatch(t),
   * `hasPrimaryChildren` and `unbatchable` are the two closing tests, and
   * `generates(decider, parent, members)` says whether generateEvent returns an event.
   */
  datatype BatchHooks = BatchHooks(
    restarts: (Handle, Handle) -> bool,
    hasPrimaryChildren: Handle -> bool,
    unbatchable: Handle -> bool,
    generates: (Handle, Option<Handle>, seq<Handle>) -> bool)

  /** A restart decision does not advance the walk, so a decider restarting on itself would never terminate. */
  ghost predicate NeverRestartsOnItself(hooks: BatchHooks)
  {
    forall x :: !hooks.restarts(x, x)
  }

  /** The transaction closes the current run whatever the decider says, except for being last. */
  predicate Closer(hooks: BatchHooks, x: Handle)
  {
    hooks.hasPrimaryChildren(x) || hooks.unbatchable(x)
  }

  /** The transaction at position `i` closes its run, including itself. */
  predicate Closes(c: seq<Handle>, hooks: BatchHooks, i: nat)
    requires i < |c|
  {
    Closer(hooks, c[i]) || i == |c| - 1
  }

  /** One run of a chain: its transactions, in order, and the transaction that generates its event. */
  datatype Run = Run(members: seq<Handle>, decider: Handle)

  /** The position, from `i` on, where the run decided by `c[d]` stops: a restart or a closing transaction. */
  function RunEnd(c: seq<Handle>, hooks: BatchHooks, d: nat, i: nat): (e: nat)
    requires d <= i < |c|
    ensures i <= e < |c|
    ensures hooks.restarts(c[d], c[e]) || Closes(c, hooks, e)
    ensures forall j :: i <= j < e ==> !hooks.restarts(c[d], c[j]) && !Closes(c, hooks, j)
    decreases |c| - i
  {
    if hooks.restarts(c[d], c[i]) || Closes(c, hooks, i) then i
    else RunEnd(c, hooks, d, i + 1)
  }

  /** Where the run decided by `c[d]` stops, and where the next run (with the next decider) starts. */
  function NextStart(c: seq<Handle>, hooks: BatchHooks, d: nat): (n: nat)
    requires d < |c| && NeverRestartsOnItself(hooks)
    ensures d < n <= |c|
  {
    var e := RunEnd(c, hooks, d, d);
    if hooks.restarts(c[d], c[e]) then e else e + 1
  }

  /**
   * The run decided by `c[d]`: on a restart at `c[e]` it is `c[d..e]` and `c[d]`
   * generates its event; when `c[e]` closes it, it is `c[d..e+1]` and `c[e]` does.
   */
  function FirstRun(c: seq<Handle>, hooks: BatchHooks, d: nat): (r: Run)
    requires d < |c| && NeverRestartsOnItself(hooks)
    ensures r.members == c[d..NextStart(c, hooks, d)]
    ensures r.decider in r.members
  {
    var e := RunEnd(c, hooks, d, d);
    if hooks.restarts(c[d], c[e]) then Run(c[d..e], c[d]) else Run(c[d..e + 1], c[e])
  }

  /** The runs of `c[d..]`, the decider being `c[d]` at the start. */
  function Runs(c: seq<Handle>, hooks: BatchHooks, d: nat): (rs: seq<Run>)
    requires d <= |c|
    requires NeverRestartsOnItself(hooks)
    ensures forall k :: 0 <= k < |rs| ==> rs[k].members != [] && rs[k].decider in rs[k].members
    decreases |c| - d
  {
    if d == |c| then []
    else [FirstRun(c, hooks, d)] + Runs(c, hooks, NextStart(c, hooks, d))
  }

  /** The transactions of each run. */
  function RunMembers(rs: seq<Run>): (ms: seq<seq<Handle>>)
    ensures |ms| == |rs| && forall k :: 0 <= k < |rs| ==> ms[k] == rs[k].members
  {
    if rs == [] then [] else [rs[0].members] + RunMembers(rs[1..])
  }

  /** Splitting loses, duplicates and reorders nothing: the runs concatenate back to the chain. */
  lemma {:induction false} RunsFlatten(c: seq<Handle>, hooks: BatchHooks, d: nat)
    requires d <= |c| && NeverRestartsOnItself(hooks)
    ensures Flatten(RunMembers(Runs(c, hooks, d))) == c[d..]
    decreases |c| - d
  {
    if d < |c| {
      var next := NextStart(c, hooks, d);
      var r := FirstRun(c, hooks, d);
      var rest := Runs(c, hooks, next);
      RunsFlatten(c, hooks, next);
      assert Runs(c, hooks, d) == [r] + rest;
      assert ([r] + rest)[1..] == rest;
      assert RunMembers([r] + rest) == [r.members] + RunMembers(rest);
      assert ([r.members] + RunMembers(rest))[1..] == RunMembers(rest);
      assert Flatten([r.members] + RunMembers(rest)) == r.members + Flatten(RunMembers(rest));
      SliceSplit(c, d, next);
    }
  }

  /**
   * The shape of run `k`: no transaction but the last closes it; its first
   * transaction (the decider while it grew) restarts on none of the others; its
   * event comes from its last transaction when that one closed it (a closer, or
   * the last run) and from its first transaction otherwise; and a run that no
   * transaction closed ended because the decider restarts on the next run's first.
   */
  ghost predicate RunShaped(rs: seq<Run>, hooks: BatchHooks, k: nat)
    requires k < |rs|
    requires forall i :: 0 <= i < |rs| ==> rs[i].members != []
  {
    var m := rs[k].members;
    var last := m[|m| - 1];
    && (forall j :: 0 <= j < |m| - 1 ==> !Closer(hooks, m[j]))
    && (forall j :: 0 < j < |m| ==> !hooks.restarts(m[0], m[j]))
    && rs[k].decider == (if Closer(hooks, last) || k == |rs| - 1 then last else m[0])
    && (k + 1 < |rs| && !Closer(hooks, last) ==> hooks.restarts(m[0], rs[k + 1].members[0]))
  }

  lemma {:induction false} RunsShape(c: seq<Handle>, hooks: BatchHooks, d: nat)
    requires d <= |c| && NeverRestartsOnItself(hooks)
    ensures forall k :: 0 <= k < |Runs(c, hooks, d)| ==> RunShaped(Runs(c, hooks, d), hooks, k)
    decreases |c| - d
  {
    if d < |c| {
      var next := NextStart(c, hooks, d);
      RunsShape(c, hooks, next);
      FirstRunShaped(c, hooks, d);
      RunsStartAt(c, hooks, next);
      assert Runs(c, hooks, d) == [FirstRun(c, hooks, d)] + Runs(c, hooks, next);
      ConsShaped(FirstRun(c, hooks, d), Runs(c, hooks, next), hooks);
    }
  }

  /** The runs of `c[d..]` are none exactly at the end of the chain, and otherwise start with `c[d]`. */
  lemma {:induction false} RunsStartAt(c: seq<Handle>, hooks: BatchHooks, d: nat)
    requires d <= |c| && NeverRestartsOnItself(hooks)
    ensures Runs(c, hooks, d) == [] <==> d == |c|
    ensures d < |c| ==> Runs(c, hooks, d)[0].members[0] == c[d]
  {
    if d < |c| {
      assert Runs(c, hooks, d)[0] == FirstRun(c, hooks, d);
    }
  }

  /** The shape of the run decided by `c[d]`, stated against the position where the next run starts. */
  lemma {:induction false} FirstRunShaped(c: seq<Handle>, hooks: BatchHooks, d: nat)
    requires d < |c| && NeverRestartsOnItself(hooks)
    ensures var r := FirstRun(c, hooks, d);
      var m := r.members;
      var next := NextStart(c, hooks, d);
      && (forall j :: 0 <= j < |m| - 1 ==> !Closer(hooks, m[j]))
      && (forall j :: 0 < j < |m| ==> !hooks.restarts(m[0], m[j]))
      && r.decider == (if Closer(hooks, m[|m| - 1]) || next == |c| then m[|m| - 1] else m[0])
      && (next < |c| && !Closer(hooks, m[|m| - 1]) ==> hooks.restarts(m[0], c[next]))
  {
    var e := RunEnd(c, hooks, d, d);
    var next := NextStart(c, hooks, d);
    var m := FirstRun(c, hooks, d).members;
    assert forall j :: 0 <= j < |m| ==> m[j] == c[d + j];
    assert forall j :: 0 <= j < |m| - 1 ==> !Closer(hooks, m[j]) by {
      forall j | 0 <= j < |m| - 1 ensures !Closer(hooks, m[j]) {
        assert !Closes(c, hooks, d + j);
      }
    }
    if hooks.restarts(c[d], c[e]) {
      assert !Closes(c, hooks, e - 1);
    } else if !Closer(hooks, c[e]) {
      assert e == |c| - 1;
    }
  }

  /** A run shaped against the runs after it, before runs that are all shaped, gives runs that are all shaped. */
  lemma {:induction false} ConsShaped(r: Run, rest: seq<Run>, hooks: BatchHooks)
    requires r.members != [] && forall k :: 0 <= k < |rest| ==> rest[k].members != []
    requires forall k :: 0 <= k < |rest| ==> RunShaped(rest, hooks, k)
    requires var m := r.members;
      && (forall j :: 0 <= j < |m| - 1 ==> !Closer(hooks, m[j]))
      && (forall j :: 0 < j < |m| ==> !hooks.restarts(m[0], m[j]))
      && r.decider == (if Closer(hooks, m[|m| - 1]) || rest == [] then m[|m| - 1] else m[0])
      && (rest != [] && !Closer(hooks, m[|m| - 1]) ==> hooks.restarts(m[0], rest[0].members[0]))
    ensures forall k :: 0 <= k < 1 + |rest| ==> RunShaped([r] + rest, hooks, k)
  {
    var rs := [r] + rest;
    assert RunShaped(rs, hooks, 0);
    forall k | 1 <= k < |rs| ensures RunShaped(rs, hooks, k) {
      assert RunShaped(rest, hooks, k - 1);
      assert rs[k] == rest[k - 1];
      assert k + 1 < |rs| ==> rs[k + 1] == rest[k];
    }
  }

  /** With a decider that starts a new batch for every other transaction, every transaction is a batch of its own. */
  lemma {:induction false} AlwaysRestartingGivesSingletons(c: seq<Handle>, hooks: BatchHooks, d: nat)
    requires d <= |c| && NeverRestartsOnItself(hooks) && Increasing(c)
    requires forall x, y :: x != y ==> hooks.restarts(x, y)
    ensures |Runs(c, hooks, d)| == |c| - d
    ensures forall k :: 0 <= k < |c| - d ==> Runs(c, hooks, d)[k] == Run([c[d + k]], c[d + k])
    decreases |c| - d
  {
    if d < |c| {
      SingletonFirstRun(c, hooks, d);
      AlwaysRestartingGivesSingletons(c, hooks, d + 1);
      var rest := Runs(c, hooks, d + 1);
      assert Runs(c, hooks, d) == [Run([c[d]], c[d])] + rest;
      ConsSingletons(Runs(c, hooks, d), rest, c, d);
    }
  }

  /** A singleton run of `c[d]` before the singleton runs of `c[d+1..]` gives the singleton runs of `c[d..]`. */
  lemma {:induction false} ConsSingletons(rs: seq<Run>, rest: seq<Run>, c: seq<Handle>, d: nat)
    requires d < |c| && rs == [Run([c[d]], c[d])] + rest && |rest| == |c| - (d + 1)
    requires forall k :: 0 <= k < |c| - (d + 1) ==> rest[k] == Run([c[d + 1 + k]], c[d + 1 + k])
    ensures |rs| == |c| - d
    ensures forall k :: 0 <= k < |c| - d ==> rs[k] == Run([c[d + k]], c[d + k])
  {
    forall k | 0 <= k < |c| - d
      ensures rs[k] == Run([c[d + k]], c[d + k])
    {
      if k > 0 {
        assert rs[k] == rest[k - 1];
      }
    }
  }

  /** Under such a decider the run starting at `c[d]` holds `c[d]` alone. */
  lemma {:induction false} SingletonFirstRun(c: seq<Handle>, hooks: BatchHooks, d: nat)
    requires d < |c| && NeverRestartsOnItself(hooks) && Increasing(c)
    requires forall x, y :: x != y ==> hooks.restarts(x, y)
    ensures NextStart(c, hooks, d) == d + 1 && FirstRun(c, hooks, d) == Run([c[d]], c[d])
  {
    var e := RunEnd(c, hooks, d, d);
    if e > d {
      assert c[d] < c[d + 1];
      assert hooks.restarts(c[d], c[d + 1]);
      assert e == d + 1;
      assert c[d..e] == [c[d]];
    } else {
      assert c[d..e + 1] == [c[d]];
    }
  }

  lemma {:induction false} RunEndIsLast(c: seq<Handle>, hooks: BatchHooks, d: nat, i: nat)
    requires d <= i < |c|
    requires forall x, y :: !hooks.restarts(x, y)
    requires forall j :: 0 <= j < |c| ==> !Closer(hooks, c[j])
    ensures RunEnd(c, hooks, d, i) == |c| - 1
    decreases |c| - i
  {
    if i < |c| - 1 {
      RunEndIsLast(c, hooks, d, i + 1);
    }
  }

  /** A decider that never restarts, over transactions that never close early, batches the whole chain at once. */
  lemma {:induction false} NeverRestartingGivesOneRun(c: seq<Handle>, hooks: BatchHooks)
    requires c != []
    requires forall x, y :: !hooks.restarts(x, y)
    requires forall j :: 0 <= j < |c| ==> !Closer(hooks, c[j])
    ensures Runs(c, hooks, 0) == [Run(c, c[|c| - 1])]
  {
    RunEndIsLast(c, hooks, 0, 0);
    assert c[0..|c|] == c;
  }

  /** Every handle of `c` is allocated and at least `lo`. */
  ghost predicate Between(c: seq<Handle>, lo: nat, n: nat)
  {
    forall k :: 0 <= k < |c| ==> lo <= c[k] < n
  }

  /** Every run of `c[d..]` holds handles of `c[d..]` only. */
  lemma {:induction false} RunsBetween(c: seq<Handle>, hooks: BatchHooks, d: nat, lo: nat, n: nat)
    requires d <= |c| && NeverRestartsOnItself(hooks) && Between(c, lo, n)
    ensures forall k :: 0 <= k < |Runs(c, hooks, d)| ==> Between(Runs(c, hooks, d)[k].members, lo, n)
    decreases |c| - d
  {
    if d < |c| {
      var next := NextStart(c, hooks, d);
      RunsBetween(c, hooks, next, lo, n);
      assert Runs(c, hooks, d) == [FirstRun(c, hooks, d)] + Runs(c, hooks, next);
    }
  }

  /** The batches produced by batchTransactions(head of `c`, parent), in generation order. */
  function ChainBatches<T>(nodes: seq<Node<T>>, chains: seq<seq<Handle>>, c: seq<Handle>,
                           parent: Option<Handle>, hooks: BatchHooks, lo: nat): (bs: seq<Batch>)
    requires Nested(nodes, chains) && NeverRestartsOnItself(hooks)
    requires lo <= |nodes| && Between(c, lo, |nodes|)
    requires parent.Some? ==> parent.value < |nodes|
    ensures BatchesWithin(bs, |nodes|)
    ensures parent.Some? ==> forall k :: 0 <= k < |bs| ==> bs[k].parent.Some?
    decreases |nodes| - lo, 2, 0
  {
    RunsBetween(c, hooks, 0, lo, |nodes|);
    RunsBatches(nodes, chains, Runs(c, hooks, 0), parent, hooks, lo)
  }

  /** The batches of the runs `rs`, one run after the other. */
  function RunsBatches<T>(nodes: seq<Node<T>>, chains: seq<seq<Handle>>, rs: seq<Run>,
                          parent: Option<Handle>, hooks: BatchHooks, lo: nat): (bs: seq<Batch>)
    requires Nested(nodes, chains) && NeverRestartsOnItself(hooks)
    requires lo <= |nodes|
    requires forall k :: 0 <= k < |rs| ==>
      rs[k].members != [] && rs[k].decider < |nodes| && Between(rs[k].members, lo, |nodes|)
    requires parent.Some? ==> parent.value < |nodes|
    ensures BatchesWithin(bs, |nodes|)
    ensures parent.Some? ==> forall k :: 0 <= k < |bs| ==> bs[k].parent.Some?
    decreases |nodes| - lo, 1, |rs|
  {
    if rs == [] then []
    else RunBatches(nodes, chains, rs[0], parent, hooks, lo)
         + RunsBatches(nodes, chains, rs[1..], parent, hooks, lo)
  }

  /**
   * generateEventForTransaction(decider, parent, members): the run's own event when
   * the decider generates one, then the batches of the side effects of its members.
   */
  function RunBatches<T>(nodes: seq<Node<T>>, chains: seq<seq<Handle>>, r: Run,
                         parent: Option<Handle>, hooks: BatchHooks, lo: nat): (bs: seq<Batch>)
    requires Nested(nodes, chains) && NeverRestartsOnItself(hooks)
    requires lo <= |nodes|
    requires r.members != [] && r.decider < |nodes| && Between(r.members, lo, |nodes|)
    requires parent.Some? ==> parent.value < |nodes|
    ensures BatchesWithin(bs, |nodes|)
    ensures parent.Some? ==> forall k :: 0 <= k < |bs| ==> bs[k].parent.Some?
    decreases |nodes| - lo, 1, 0
  {
    (if hooks.generates(r.decider, parent, r.members) then [Batch(r.members, r.decider, parent)] else [])
      + NestedBatches(nodes, chains, r.members, r.decider, hooks, lo)
  }

  /** For each transaction of `ms` in order (the last one's batches come last), the batches of its side-effect chains, parented by `pointer`. */
  function NestedBatches<T>(nodes: seq<Node<T>>, chains: seq<seq<Handle>>, ms: seq<Handle>,
                            pointer: Handle, hooks: BatchHooks, lo: nat): (bs: seq<Batch>)
    requires Nested(nodes, chains) && NeverRestartsOnItself(hooks)
    requires lo <= |nodes| && pointer < |nodes| && Between(ms, lo, |nodes|)
    ensures BatchesWithin(bs, |nodes|)
    ensures forall k :: 0 <= k < |bs| ==> bs[k].parent.Some?
    decreases |nodes| - lo, 0, |ms|
  {
    if ms == [] then []
    else
      var t := ms[|ms| - 1];
      NestedBatches(nodes, chains, ms[..|ms| - 1], pointer, hooks, lo)
        + SideEffectBatches(nodes, chains, nodes[t].sideEffects, pointer, hooks, t + 1)
  }

  /** The batches of the side-effect chains `es` of one transaction, in order; chains without a head are skipped. */
  function SideEffectBatches<T>(nodes: seq<Node<T>>, chains: seq<seq<Handle>>, es: seq<nat>,
                                pointer: Handle, hooks: BatchHooks, lo: nat): (bs: seq<Batch>)
    requires Nested(nodes, chains) && NeverRestartsOnItself(hooks)
    requires lo <= |nodes| && pointer < |nodes|
    requires forall j :: 0 <= j < |es| ==> es[j] < |chains| && Between(chains[es[j]], lo, |nodes|)
    ensures BatchesWithin(bs, |nodes|)
    ensures forall k :: 0 <= k < |bs| ==> bs[k].parent.Some?
    decreases |nodes| - lo, 3, |es|
  {
    if es == [] then []
    else
      var e := es[|es| - 1];
      SideEffectBatches(nodes, chains, es[..|es| - 1], pointer, hooks, lo)
        + EffectBatches(nodes, chains, e, pointer, hooks, lo)
  }

  /** The batches of side effect `e`: none when it captured nothing, else those of its chain, parented by `pointer`. */
  function EffectBatches<T>(nodes: seq<Node<T>>, chains: seq<seq<Handle>>, e: nat,
                            pointer: Handle, hooks: BatchHooks, lo: nat): (bs: seq<Batch>)
    requires Nested(nodes, chains) && NeverRestartsOnItself(hooks)
    requires lo <= |nodes| && pointer < |nodes|
    requires e < |chains| && Between(chains[e], lo, |nodes|)
    ensures BatchesWithin(bs, |nodes|)
    ensures forall k :: 0 <= k < |bs| ==> bs[k].parent.Some?
    decreases |nodes| - lo, 2, 1
  {
    if chains[e] == [] then [] else ChainBatches(nodes, chains, chains[e], Some(pointer), hooks, lo)
  }

  /** One more side effect: its batches follow those of the side effects before it. */
  lemma {:induction false} SideEffectBatchesStep<T>(nodes: seq<Node<T>>, chains: seq<seq<Handle>>, es: seq<nat>, j: nat,
                                 pointer: Handle, hooks: BatchHooks, lo: nat)
    requires Nested(nodes, chains) && NeverRestartsOnItself(hooks)
    requires lo <= |nodes| && pointer < |nodes| && j < |es|
    requires forall i :: 0 <= i < |es| ==> es[i] < |chains| && Between(chains[es[i]], lo, |nodes|)
    ensures SideEffectBatches(nodes, chains, es[..j + 1], pointer, hooks, lo)
            == SideEffectBatches(nodes, chains, es[..j], pointer, hooks, lo)
               + EffectBatches(nodes, chains, es[j], pointer, hooks, lo)
  {
    assert es[..j + 1][..j] == es[..j];
  }

  /** The batches of the runs of `c[d..]`: what batchTransactions still produces once it reaches `c[d]` as decider. */
  function SuffixBatches<T>(nodes: seq<Node<T>>, chains: seq<seq<Handle>>, c: seq<Handle>,
                            parent: Option<Handle>, hooks: BatchHooks, lo: nat, d: nat): (bs: seq<Batch>)
    requires Nested(nodes, chains) && NeverRestartsOnItself(hooks)
    requires lo <= |nodes| && Between(c, lo, |nodes|) && d <= |c|
    requires parent.Some? ==> parent.value < |nodes|
    ensures d == 0 ==> bs == ChainBatches(nodes, chains, c, parent, hooks, lo)
    ensures d == |c| ==> bs == []
  {
    RunsBetween(c, hooks, d, lo, |nodes|);
    RunsBatches(nodes, chains, Runs(c, hooks, d), parent, hooks, lo)
  }

  /** Cutting the first run off `c[d..]`: its batches, then those of the rest. */
  lemma {:induction false} SuffixBatchesStep<T>(nodes: seq<Node<T>>, chains: seq<seq<Handle>>, c: seq<Handle>,
                             parent: Option<Handle>, hooks: BatchHooks, lo: nat, d: nat)
    requires Nested(nodes, chains) && NeverRestartsOnItself(hooks)
    requires lo <= |nodes| && Between(c, lo, |nodes|) && d < |c|
    requires parent.Some? ==> parent.value < |nodes|
    ensures && Between(FirstRun(c, hooks, d).members, lo, |nodes|)
            && c[d] < |nodes|
            && SuffixBatches(nodes, chains, c, parent, hooks, lo, d)
               == RunBatches(nodes, chains, FirstRun(c, hooks, d), parent, hooks, lo)
                  + SuffixBatches(nodes, chains, c, parent, hooks, lo, NextStart(c, hooks, d))
  {
    RunsBetween(c, hooks, d, lo, |nodes|);
    var rs := Runs(c, hooks, d);
    assert rs == [FirstRun(c, hooks, d)] + Runs(c, hooks, NextStart(c, hooks, d));
    assert rs[1..] == Runs(c, hooks, NextStart(c, hooks, d));
  }

  /** The step above, for a first run and next start already known. */
  lemma {:induction false} SuffixBatchesAt<T>(nodes: seq<Node<T>>, chains: seq<seq<Handle>>, c: seq<Handle>,
                                              parent: Option<Handle>, hooks: BatchHooks, lo: nat, d: nat,
                                              r: Run, next: nat)
    requires Nested(nodes, chains) && NeverRestartsOnItself(hooks)
    requires lo <= |nodes| && Between(c, lo, |nodes|) && d < |c|
    requires parent.Some? ==> parent.value < |nodes|
    requires r == FirstRun(c, hooks, d) && next == NextStart(c, hooks, d)
    ensures && Between(r.members, lo, |nodes|) && r.decider < |nodes| && next <= |c|
            && SuffixBatches(nodes, chains, c, parent, hooks, lo, d)
               == RunBatches(nodes, chains, r, parent, hooks, lo)
                  + SuffixBatches(nodes, chains, c, parent, hooks, lo, next)
  {
    SuffixBatchesStep(nodes, chains, c, parent, hooks, lo, d);
  }

  /** One more transaction of the chain: its side-effect batches follow those of the earlier ones. */
  lemma {:induction false} NestedBatchesStep<T>(nodes: seq<Node<T>>, chains: seq<seq<Handle>>, ms: seq<Handle>, k: nat,
                                                pointer: Handle, hooks: BatchHooks, lo: nat)
    requires Nested(nodes, chains) && NeverRestartsOnItself(hooks)
    requires lo <= |nodes| && pointer < |nodes| && Between(ms, lo, |nodes|) && k < |ms|
    ensures Between(ms[..k], lo, |nodes|) && Between(ms[..k + 1], lo, |nodes|)
    ensures NestedBatches(nodes, chains, ms[..k + 1], pointer, hooks, lo)
            == NestedBatches(nodes, chains, ms[..k], pointer, hooks, lo)
               + SideEffectBatches(nodes, chains, nodes[ms[k]].sideEffects, pointer, hooks, ms[k] + 1)
  {
    assert ms[..k + 1][..k] == ms[..k];
  }

  /** The side-effect batches of the first `d` transactions of `ms`. */
  ghost function NestedUpTo<T>(nodes: seq<Node<T>>, chains: seq<seq<Handle>>, ms: seq<Handle>,
                               pointer: Handle, hooks: BatchHooks, lo: nat, d: nat): seq<Batch>
    requires Nested(nodes, chains) && NeverRestartsOnItself(hooks)
    requires lo <= |nodes| && pointer < |nodes| && Between(ms, lo, |nodes|) && d <= |ms|
  {
    assert Between(ms[..d], lo, |nodes|);
    NestedBatches(nodes, chains, ms[..d], pointer, hooks, lo)
  }

  lemma {:induction false} NestedUpToStep<T>(nodes: seq<Node<T>>, chains: seq<seq<Handle>>, ms: seq<Handle>,
                                             pointer: Handle, hooks: BatchHooks, lo: nat, k: nat)
    requires Nested(nodes, chains) && NeverRestartsOnItself(hooks)
    requires lo <= |nodes| && pointer < |nodes| && Between(ms, lo, |nodes|) && k < |ms|
    ensures NestedUpTo(nodes, chains, ms, pointer, hooks, lo, k + 1)
            == NestedUpTo(nodes, chains, ms, pointer, hooks, lo, k)
               + SideEffectBatches(nodes, chains, nodes[ms[k]].sideEffects, pointer, hooks, ms[k] + 1)
  {
    NestedBatchesStep(nodes, chains, ms, k, pointer, hooks, lo);
  }

  /** A batch of the top-level chain (batchTransactions was called with a null parent). */
  predicate IsTopLevel(b: Batch)
  {
    b.parent.None?
  }

  /** When its decider generates, a top-level run yields exactly one top-level batch: its own. */
  lemma {:induction false} RunTopLevel<T>(nodes: seq<Node<T>>, chains: seq<seq<Handle>>, r: Run, hooks: BatchHooks, lo: nat)
    requires Nested(nodes, chains) && NeverRestartsOnItself(hooks)
    requires lo <= |nodes|
    requires r.members != [] && r.decider < |nodes| && Between(r.members, lo, |nodes|)
    requires hooks.generates(r.decider, None, r.members)
    ensures Filter(RunBatches(nodes, chains, r, None, hooks, lo), IsTopLevel) == [Batch(r.members, r.decider, None)]
  {
    var b := Batch(r.members, r.decider, None);
    var nested := NestedBatches(nodes, chains, r.members, r.decider, hooks, lo);
    assert RunBatches(nodes, chains, r, None, hooks, lo) == [b] + nested;
    FilterAppend([b], nested, IsTopLevel);
    FilterNone(nested, IsTopLevel);
    assert Filter([b], IsTopLevel) == [b] by {
      assert [b][1..] == [];
    }
  }

  lemma {:induction false} RunsTopLevel<T>(nodes: seq<Node<T>>, chains: seq<seq<Handle>>, rs: seq<Run>,
                                           hooks: BatchHooks, lo: nat)
    requires Nested(nodes, chains) && NeverRestartsOnItself(hooks)
    requires lo <= |nodes|
    requires forall k :: 0 <= k < |rs| ==>
      rs[k].members != [] && rs[k].decider < |nodes| && Between(rs[k].members, lo, |nodes|)
    requires forall d, p, ms :: hooks.generates(d, p, ms)
    ensures MembersOf(Filter(RunsBatches(nodes, chains, rs, None, hooks, lo), IsTopLevel)) == RunMembers(rs)
    decreases |rs|
  {
    if rs != [] {
      var r := rs[0];
      var first := RunBatches(nodes, chains, r, None, hooks, lo);
      var rest := RunsBatches(nodes, chains, rs[1..], None, hooks, lo);
      assert RunsBatches(nodes, chains, rs, None, hooks, lo) == first + rest;
      RunTopLevel(nodes, chains, r, hooks, lo);
      RunsTopLevel(nodes, chains, rs[1..], hooks, lo);
      TopLevelCons(rs, first, rest);
    }
  }

  /** The top-level members of a run's batches, then of the later runs' batches, are the members of all the runs. */
  lemma {:induction false} TopLevelCons(rs: seq<Run>, first: seq<Batch>, rest: seq<Batch>)
    requires rs != []
    requires Filter(first, IsTopLevel) == [Batch(rs[0].members, rs[0].decider, None)]
    requires MembersOf(Filter(rest, IsTopLevel)) == RunMembers(rs[1..])
    ensures MembersOf(Filter(first + rest, IsTopLevel)) == RunMembers(rs)
  {
    FilterAppend(first, rest, IsTopLevel);
    MembersOfCons(Batch(rs[0].members, rs[0].decider, None), Filter(rest, IsTopLevel));
  }

  /**
   * When every decider generates its event, the top-level batches, in order,
   * hold exactly the top-level chain: nested batches never interleave with it
   * out of order, and no top-level transaction is lost.
   */
  lemma {:induction false} TopLevelBatchesCoverChain<T>(nodes: seq<Node<T>>, chains: seq<seq<Handle>>, c: seq<Handle>,
                                     hooks: BatchHooks)
    requires Nested(nodes, chains) && NeverRestartsOnItself(hooks)
    requires Between(c, 0, |nodes|)
    requires forall d, p, ms :: hooks.generates(d, p, ms)
    ensures Flatten(MembersOf(Filter(ChainBatches(nodes, chains, c, None, hooks, 0), IsTopLevel))) == c
  {
    RunsBetween(c, hooks, 0, 0, |nodes|);
    RunsTopLevel(nodes, chains, Runs(c, hooks, 0), hooks, 0);
    RunsFlatten(c, hooks, 0);
  }
}
