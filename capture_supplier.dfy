/**
 * TransactionalCaptureSupplier: the per-phase recorder of world changes.
 *
 * The supplier owns the top-level chain of transactions (head and tail), the
 * side-effect chains opened under transactions, and the currently active side
 * effect. Kind-specific behaviour of a transaction (absorbing a newer one,
 * accepting a tile or crafting record, batching decisions) is supplied by the
 * caller as functions over payloads and handles.
 */
module CaptureSupplier {
  import opened Wrappers
  import opened Seqs
  import opened Transactions
  import opened Batching
  import opened Processing

  /** The exceptions the supplier throws. */
  datatype Failure = NullPointer | IllegalState(message: string)

  /**
   * What the `TransactionSink` default does when no captured transaction takes a
   * tile change: the transaction it hands to logTransaction, if any, with that
   * transaction's canBeAbsorbed answer, and the answer the default returns.
   */
  datatype SinkFallback<T> = SinkFallback(logs: Option<T>, canBeAbsorbed: bool, answer: bool)

  const CraftingNotNested: string := "Crafting must be nested in another event"
  const PreviewNotNested: string := "Preview must be nested in another event"

  /** The transaction attached to by pushEffect: the active side effect's tail, else the top-level tail. */
  function EffectParent(effects: seq<SideEffect>, effect: Option<nat>, topTail: Handle): Handle
  {
    if effect.Some? && effect.value < |effects| && effects[effect.value].tail.Some?
    then effects[effect.value].tail.value
    else topTail
  }

  /** Whether transaction `h` absorbs `tx` (`absorb(tx, p)` is the absorbing transaction's new payload). */
  function Absorbs<T>(nodes: seq<Node<T>>, tx: T, absorb: (T, T) -> Option<T>): Handle -> bool
  {
    (h: Handle) => h < |nodes| && absorb(tx, nodes[h].payload).Some?
  }

  /** Whether transaction `h` takes a tile-removal record (`accept(p, tile)` is its new payload). */
  function TakesRemoval<T, E>(nodes: seq<Node<T>>, tile: E, accept: (T, E) -> Option<T>): Handle -> bool
  {
    (h: Handle) => h < |nodes| && accept(nodes[h].payload, tile).Some?
  }

  /** The arena with transaction `h`'s payload replaced. */
  function WithPayload<T>(nodes: seq<Node<T>>, h: Handle, p: T): (r: seq<Node<T>>)
    requires h < |nodes|
    ensures SameShape(nodes, r)
  {
    nodes[h := nodes[h].(payload := p)]
  }

  /**
   * The side-effect chains searched by logTileRemoval below the tail: the side
   * effects at positions `k - 1` down to `lo`, each chain walked from its tail.
   */
  ghost function SearchOrder(chains: seq<seq<Handle>>, ses: seq<nat>, lo: nat, k: nat): seq<Handle>
    requires k <= |ses|
    requires forall j :: 0 <= j < |ses| ==> ses[j] < |chains|
    decreases k
  {
    if k <= lo then [] else Reverse(chains[ses[k - 1]]) + SearchOrder(chains, ses, lo, k - 1)
  }

  /**
   * The transactions logTileRemoval offers a removal to, in order: the tail, then
   * (when it has side effects) the side-effect chains newest first, each from its
   * tail, where the loop's iterator idiom stops before the oldest side effect.
   */
  ghost function RemovalCandidates<T>(nodes: seq<Node<T>>, chains: seq<seq<Handle>>, t: Handle): seq<Handle>
    requires t < |nodes|
    requires forall j :: 0 <= j < |nodes[t].sideEffects| ==> nodes[t].sideEffects[j] < |chains|
  {
    var ses := nodes[t].sideEffects;
    [t] + SearchOrder(chains, ses, 1, |ses|)
  }

  /**
   * Every transaction of every side effect of `t`: the tail, then the side-effect
   * chains newest first down to and including the oldest, each from its tail.
   */
  ghost function FullRemovalCandidates<T>(nodes: seq<Node<T>>, chains: seq<seq<Handle>>, t: Handle): seq<Handle>
    requires t < |nodes|
    requires forall j :: 0 <= j < |nodes[t].sideEffects| ==> nodes[t].sideEffects[j] < |chains|
  {
    var ses := nodes[t].sideEffects;
    [t] + SearchOrder(chains, ses, 0, |ses|)
  }

  /** A transaction is searched exactly when it belongs to one of the chains at positions `lo` to `k - 1`. */
  lemma {:induction false} SearchOrderMembership(chains: seq<seq<Handle>>, ses: seq<nat>, lo: nat, k: nat, x: Handle)
    requires k <= |ses|
    requires forall j :: 0 <= j < |ses| ==> ses[j] < |chains|
    ensures x in SearchOrder(chains, ses, lo, k) <==> exists j :: lo <= j < k && x in chains[ses[j]]
  {
    if x in SearchOrder(chains, ses, lo, k) {
      var j := SearchOrderWitness(chains, ses, lo, k, x);
    }
    if exists j :: lo <= j < k && x in chains[ses[j]] {
      var j :| lo <= j < k && x in chains[ses[j]];
      SearchOrderContains(chains, ses, lo, k, j, x);
    }
  }

  lemma {:induction false} SearchOrderContains(chains: seq<seq<Handle>>, ses: seq<nat>, lo: nat, k: nat, j: nat, x: Handle)
    requires k <= |ses|
    requires forall i :: 0 <= i < |ses| ==> ses[i] < |chains|
    requires lo <= j < k && x in chains[ses[j]]
    ensures x in SearchOrder(chains, ses, lo, k)
    decreases k
  {
    ReverseMembership(chains[ses[k - 1]], x);
    if j < k - 1 {
      SearchOrderContains(chains, ses, lo, k - 1, j, x);
    }
  }

  lemma {:induction false} SearchOrderWitness(chains: seq<seq<Handle>>, ses: seq<nat>, lo: nat, k: nat, x: Handle)
    returns (j: nat)
    requires k <= |ses|
    requires forall i :: 0 <= i < |ses| ==> ses[i] < |chains|
    requires x in SearchOrder(chains, ses, lo, k)
    ensures lo <= j < k && x in chains[ses[j]]
    decreases k
  {
    ReverseMembership(chains[ses[k - 1]], x);
    if x in chains[ses[k - 1]] {
      j := k - 1;
    } else {
      j := SearchOrderWitness(chains, ses, lo, k - 1, x);
    }
  }

  /**
   * As written, logTileRemoval never offers a removal to a transaction of the
   * oldest side effect of the tail: the iterator idiom of its loop takes the
   * next element before testing for one, so the last element it draws is
   * never processed.
   */
  lemma {:induction false} OldestSideEffectNeverSearched<T>(nodes: seq<Node<T>>, effects: seq<SideEffect>,
                                         head: Option<Handle>, tail: Option<Handle>, effect: Option<nat>,
                                         top: seq<Handle>, chains: seq<seq<Handle>>, owner: seq<int>,
                                         x: Handle)
    requires Wf(nodes, effects, head, tail, effect, top, chains, owner)
    requires tail.Some? && nodes[tail.value].sideEffects != []
    requires x in chains[nodes[tail.value].sideEffects[0]]
    ensures x !in RemovalCandidates(nodes, chains, tail.value)
  {
    var t := tail.value;
    var ses := nodes[t].sideEffects;
    var e0 := ses[0];
    assert Linked(nodes, owner, top, head, tail, -1);
    assert Linked(nodes, owner, chains[e0], effects[e0].head, effects[e0].tail, e0);
    assert owner[x] == e0 && owner[t] == -1;
    forall j | 1 <= j < |ses| ensures x !in chains[ses[j]] {
      assert Linked(nodes, owner, chains[ses[j]], effects[ses[j]].head, effects[ses[j]].tail, ses[j]);
      assert ses[0] < ses[j];
    }
    SearchOrderMembership(chains, ses, 1, |ses|, x);
  }

  /**
   * The intended search reaches every transaction of every side effect of the
   * tail, and differs from the search as written only by the oldest chain,
   * which it visits last.
   */
  lemma {:induction false} FullSearchReachesEverySideEffect<T>(nodes: seq<Node<T>>, chains: seq<seq<Handle>>, t: Handle,
                                            j: nat, x: Handle)
    requires t < |nodes|
    requires forall i :: 0 <= i < |nodes[t].sideEffects| ==> nodes[t].sideEffects[i] < |chains|
    requires j < |nodes[t].sideEffects| && x in chains[nodes[t].sideEffects[j]]
    ensures x in FullRemovalCandidates(nodes, chains, t)
    ensures var ses := nodes[t].sideEffects;
      FullRemovalCandidates(nodes, chains, t) == RemovalCandidates(nodes, chains, t) + Reverse(chains[ses[0]])
  {
    var ses := nodes[t].sideEffects;
    SearchOrderMembership(chains, ses, 0, |ses|, x);
    SearchOrderPeel(chains, ses, |ses|);
  }

  lemma {:induction false} SearchOrderPeel(chains: seq<seq<Handle>>, ses: seq<nat>, k: nat)
    requires 0 < k <= |ses|
    requires forall j :: 0 <= j < |ses| ==> ses[j] < |chains|
    ensures SearchOrder(chains, ses, 0, k) == SearchOrder(chains, ses, 1, k) + Reverse(chains[ses[0]])
    decreases k
  {
    if k > 1 {
      SearchOrderPeel(chains, ses, k - 1);
    }
  }

  /** `c` can be walked from `last` back to its head through the `previous` links. */
  ghost predicate BackLinked<T>(nodes: seq<Node<T>>, c: seq<Handle>, last: Option<Handle>)
  {
    && (forall k :: 0 <= k < |c| ==> c[k] < |nodes|)
    && last == (if c == [] then None else Some(c[|c| - 1]))
    && (c != [] ==> nodes[c[0]].previous == None)
    && (forall k :: 0 <= k < |c| - 1 ==> nodes[c[k + 1]].previous == Some(c[k]))
  }

  /**
   * The side-effect walk of logTileRemoval below the tail `t`: the side effects
   * newest first, where the iterator idiom stops before the oldest one, each
   * chain from its tail back; the first transaction that would take the removal.
   */
  method FindRemovalTaker<T, E>(nodes: seq<Node<T>>, effects: seq<SideEffect>, ghost chains: seq<seq<Handle>>,
                                t: Handle, tile: E, accept: (T, E) -> Option<T>)
    returns (found: Option<Handle>)
    requires t < |nodes| && |chains| == |effects|
    requires forall j :: 0 <= j < |nodes[t].sideEffects| ==> nodes[t].sideEffects[j] < |effects|
    requires forall e :: 0 <= e < |effects| ==> BackLinked(nodes, chains[e], effects[e].tail)
    ensures var ses := nodes[t].sideEffects;
      var order := SearchOrder(chains, ses, 1, |ses|);
      var k := FirstIndex(order, TakesRemoval(nodes, tile, accept));
      found == if k < |order| then Some(order[k]) else None
    ensures found.Some? ==> TakesRemoval(nodes, tile, accept)(found.value)
  {
    var ses := nodes[t].sideEffects;
    ghost var p := TakesRemoval(nodes, tile, accept);
    ghost var order := SearchOrder(chains, ses, 1, |ses|);
    if ses == [] {
      return None;
    }
    var k := |ses| - 1;
    var se := ses[k];
    while k > 0
      invariant 0 <= k < |ses| && se == ses[k]
      invariant FirstHit(order, p) == FirstHit(SearchOrder(chains, ses, 1, k + 1), p)
    {
      ghost var rev := Reverse(chains[se]);
      ghost var rest := SearchOrder(chains, ses, 1, k);
      assert SearchOrder(chains, ses, 1, k + 1) == rev + rest;
      FirstHitAppend(rev, rest, p);
      found := WalkChainBack(nodes, chains[se], effects[se].tail, tile, accept);
      if found.Some? {
        return;
      }
      k := k - 1;
      se := ses[k];
    }
    found := None;
  }

  /** The first element of `s` that satisfies `p`, if any. */
  function FirstHit<X>(s: seq<X>, p: X -> bool): (r: Option<X>)
    ensures r.Some? ==> r.value in s && p(r.value)
  {
    var k := FirstIndex(s, p);
    if k < |s| then Some(s[k]) else None
  }

  /** The first hit in `a + b` is the first hit in `a`, or failing that the first hit in `b`. */
  lemma {:induction false} FirstHitAppend<X>(a: seq<X>, b: seq<X>, p: X -> bool)
    ensures FirstHit(a + b, p) == if FirstHit(a, p).Some? then FirstHit(a, p) else FirstHit(b, p)
  {
    FirstIndexAppend(a, b, p);
    var k := FirstIndex(a + b, p);
    if FirstIndex(a, p) == |a| && k < |a + b| {
      assert (a + b)[k] == b[k - |a|];
    }
  }

  /** The inner walk: one side effect's chain from its tail back through the `previous` links. */
  method WalkChainBack<T, E>(nodes: seq<Node<T>>, ghost chain: seq<Handle>, last: Option<Handle>,
                             tile: E, accept: (T, E) -> Option<T>)
    returns (found: Option<Handle>)
    requires BackLinked(nodes, chain, last)
    ensures found == FirstHit(Reverse(chain), TakesRemoval(nodes, tile, accept))
  {
    ghost var p := TakesRemoval(nodes, tile, accept);
    ghost var m: nat := |chain|;
    assert chain[..m] == chain;
    var pointer := last;
    while pointer.Some?
      invariant m <= |chain|
      invariant pointer == if m > 0 then Some(chain[m - 1]) else None
      invariant FirstHit(Reverse(chain), p) == FirstHit(Reverse(chain[..m]), p)
      decreases m
    {
      var h := pointer.value;
      assert Reverse(chain[..m]) == [h] + Reverse(chain[..m - 1]) by {
        ReverseLast(chain[..m]);
        assert chain[..m][..m - 1] == chain[..m - 1];
      }
      FirstHitAppend([h], Reverse(chain[..m - 1]), p);
      if accept(nodes[h].payload, tile).Some? {
        return Some(h);
      }
      pointer := nodes[h].previous;
      m := m - 1;
    }
    assert chain[..m] == [];
    found := None;
  }

  /**
   * The removal search of logTileRemoval below the tail `t`: the tail first,
   * then the side-effect walk; the first candidate that takes the removal has
   * its payload replaced, and nothing changes when none does.
   */
  method OfferRemoval<T, E>(nodes: seq<Node<T>>, effects: seq<SideEffect>, ghost chains: seq<seq<Handle>>,
                            t: Handle, tile: E, accept: (T, E) -> Option<T>)
    returns (nodes': seq<Node<T>>, taken: bool)
    requires t < |nodes| && |chains| == |effects|
    requires forall j :: 0 <= j < |nodes[t].sideEffects| ==> nodes[t].sideEffects[j] < |effects|
    requires forall e :: 0 <= e < |effects| ==> BackLinked(nodes, chains[e], effects[e].tail)
    ensures SameShape(nodes, nodes')
    ensures var cs := RemovalCandidates(nodes, chains, t);
      var k := FirstIndex(cs, TakesRemoval(nodes, tile, accept));
      && (k < |cs| ==> taken && nodes' == WithPayload(nodes, cs[k], accept(nodes[cs[k]].payload, tile).value))
      && (k == |cs| ==> !taken && nodes' == nodes)
  {
    FirstCandidate(nodes, chains, t, tile, accept);
    var p := accept(nodes[t].payload, tile);
    if p.Some? {
      return WithPayload(nodes, t, p.value), true;
    }
    var found := FindRemovalTaker(nodes, effects, chains, t, tile, accept);
    if found.Some? {
      var h := found.value;
      return WithPayload(nodes, h, accept(nodes[h].payload, tile).value), true;
    }
    return nodes, false;
  }

  /** The tail is the first candidate; past it the search goes on in the side-effect walk's order. */
  lemma {:induction false} FirstCandidate<T, E>(nodes: seq<Node<T>>, chains: seq<seq<Handle>>, t: Handle, tile: E,
                             accept: (T, E) -> Option<T>)
    requires t < |nodes|
    requires forall j :: 0 <= j < |nodes[t].sideEffects| ==> nodes[t].sideEffects[j] < |chains|
    ensures var cs := RemovalCandidates(nodes, chains, t);
      var p := TakesRemoval(nodes, tile, accept);
      var order := SearchOrder(chains, nodes[t].sideEffects, 1, |nodes[t].sideEffects|);
      && cs == [t] + order
      && (p(t) ==> FirstIndex(cs, p) == 0)
      && (!p(t) ==> FirstIndex(cs, p) == 1 + FirstIndex(order, p))
  {
    var p := TakesRemoval(nodes, tile, accept);
    var order := SearchOrder(chains, nodes[t].sideEffects, 1, |nodes[t].sideEffects|);
    FirstIndexAppend([t], order, p);
    if !p(t) {
      FirstIndexIs([t], p, 1);
    }
  }

  lemma {:induction false} WfBackLinked<T>(nodes: seq<Node<T>>, effects: seq<SideEffect>,
                        head: Option<Handle>, tail: Option<Handle>, effect: Option<nat>,
                        top: seq<Handle>, chains: seq<seq<Handle>>, owner: seq<int>)
    requires Wf(nodes, effects, head, tail, effect, top, chains, owner)
    ensures tail.Some? ==>
              && tail.value < |nodes|
              && forall j :: 0 <= j < |nodes[tail.value].sideEffects| ==> nodes[tail.value].sideEffects[j] < |effects|
    ensures |chains| == |effects| && forall e :: 0 <= e < |effects| ==> BackLinked(nodes, chains[e], effects[e].tail)
  {
    forall e | 0 <= e < |effects| ensures BackLinked(nodes, chains[e], effects[e].tail) {
      assert Linked(nodes, owner, chains[e], effects[e].head, effects[e].tail, e);
    }
  }

  /** `c` can be walked from `first` to its end through the `next` links. */
  ghost predicate ForwardLinked<T>(nodes: seq<Node<T>>, c: seq<Handle>, first: Option<Handle>)
  {
    && (forall k :: 0 <= k < |c| ==> c[k] < |nodes|)
    && first == (if c == [] then None else Some(c[0]))
    && (c != [] ==> nodes[c[|c| - 1]].next == None)
    && (forall k {:trigger nodes[c[k]].next} :: 0 <= k < |c| - 1 ==> nodes[c[k]].next == Some(c[k + 1]))
  }

  /** Every side effect's chain can be walked from its head. */
  ghost predicate EffectsForwardLinked<T>(nodes: seq<Node<T>>, effects: seq<SideEffect>, chains: seq<seq<Handle>>)
  {
    |chains| == |effects| && forall e :: 0 <= e < |effects| ==> ForwardLinked(nodes, chains[e], effects[e].head)
  }

  lemma {:induction false} WfForwardLinked<T>(nodes: seq<Node<T>>, effects: seq<SideEffect>,
                           head: Option<Handle>, tail: Option<Handle>, effect: Option<nat>,
                           top: seq<Handle>, chains: seq<seq<Handle>>, owner: seq<int>)
    requires Wf(nodes, effects, head, tail, effect, top, chains, owner)
    ensures ForwardLinked(nodes, top, head) && EffectsForwardLinked(nodes, effects, chains)
    ensures Between(top, 0, |nodes|)
  {
    forall e | 0 <= e < |effects| ensures ForwardLinked(nodes, chains[e], effects[e].head) {
      assert Linked(nodes, owner, chains[e], effects[e].head, effects[e].tail, e);
    }
  }

  /**
   * Where batchTransactions stands in `c`: the pointer is at position `i`, the
   * accumulated transactions are `c[d..i]`, the decider (once chosen) is
   * `c[d]`, and nothing in `c[d..i]` restarted or closed the batch.
   */
  ghost predicate Cursor(c: seq<Handle>, hooks: BatchHooks, d: nat, i: nat, pointer: Option<Handle>,
                         accumulator: seq<Handle>, batchDecider: Option<Handle>)
  {
    && d <= i <= |c|
    && pointer == (if i < |c| then Some(c[i]) else None)
    && accumulator == c[d..i]
    && (batchDecider.None? ==> d == i)
    && (batchDecider.Some? ==> d < |c| && batchDecider.value == c[d])
    && (i == |c| ==> d == i)
    && (forall j :: d <= j < i ==> !hooks.restarts(c[d], c[j]) && !Closes(c, hooks, j))
  }

  /**
   * batchTransactions: walks the chain starting at `head` and cuts it into
   * batches as the decider and the closing transactions say, generating each
   * batch's event (and the batches of its side effects) as it is cut. The
   * result is exactly the batching specification of the chain.
   */
  method BatchTransactions<T>(nodes: seq<Node<T>>, effects: seq<SideEffect>, ghost chains: seq<seq<Handle>>,
                              head: Handle, parent: Option<Handle>, hooks: BatchHooks,
                              ghost c: seq<Handle>, ghost lo: nat)
    returns (bs: seq<Batch>)
    requires Nested(nodes, chains) && NeverRestartsOnItself(hooks) && EffectsForwardLinked(nodes, effects, chains)
    requires lo <= |nodes| && Between(c, lo, |nodes|) && ForwardLinked(nodes, c, Some(head))
    requires parent.Some? ==> parent.value < |nodes|
    ensures bs == ChainBatches(nodes, chains, c, parent, hooks, lo)
    decreases |nodes| - lo, 2, 0
  {
    ghost var table := SuffixTable(nodes, chains, c, parent, hooks, lo);
    bs := [];
    var pointer: Option<Handle> := Some(head);
    var accumulator: seq<Handle> := [];
    var batchDecider: Option<Handle> := None;
    ghost var i: nat := 0;
    ghost var d: nat := 0;
    while pointer.Some?
      invariant Cursor(c, hooks, d, i, pointer, accumulator, batchDecider)
      invariant table[0] == bs + table[d]
      decreases |c| - i, i - d
    {
      CursorDecide(c, hooks, d, i, pointer, accumulator, batchDecider);
      var current := pointer.value;
      NextOf(nodes, c, head, i);
      if batchDecider.None? {
        batchDecider := pointer;
      }
      if hooks.restarts(batchDecider.value, current) {
        var transactions := accumulator;
        accumulator := [];
        bs := CutAtRestart(nodes, effects, chains, parent, hooks, c, lo, d, i, transactions, batchDecider.value, bs, table);
        CursorRestart(c, hooks, d, i, transactions);
        batchDecider := Some(current);
        d := i;
      } else if hooks.hasPrimaryChildren(current) || hooks.unbatchable(current) || nodes[current].next.None? {
        CursorClose(c, hooks, d, i, accumulator);
        var transactions := accumulator + [current];
        bs := CutAtClose(nodes, effects, chains, parent, hooks, c, lo, d, i, accumulator, transactions, current, bs, table);
        accumulator := [];
        batchDecider := nodes[current].next;
        pointer := nodes[current].next;
        i := i + 1;
        d := i;
      } else {
        CursorExtend(c, hooks, d, i, accumulator);
        accumulator := accumulator + [current];
        pointer := nodes[current].next;
        i := i + 1;
      }
    }
    if accumulator != [] {
      // the last transaction of a chain always closes its batch, so nothing is left over
      assert false;
    }
  }

  /**
   * `table[d]` holds the batches the walk still produces once it reaches
   * `c[d]` as decider. The quantifier fires only on the specification's own
   * terms, so the walk's loop never unfolds the specification.
   */
  ghost predicate SuffixTableOf<T>(table: seq<seq<Batch>>, nodes: seq<Node<T>>, chains: seq<seq<Handle>>,
                                   c: seq<Handle>, parent: Option<Handle>, hooks: BatchHooks, lo: nat)
    requires Nested(nodes, chains) && NeverRestartsOnItself(hooks)
    requires lo <= |nodes| && Between(c, lo, |nodes|)
    requires parent.Some? ==> parent.value < |nodes|
  {
    && |table| == |c| + 1
    && forall d {:trigger SuffixBatches(nodes, chains, c, parent, hooks, lo, d)} :: 0 <= d <= |c| ==>
         table[d] == SuffixBatches(nodes, chains, c, parent, hooks, lo, d)
  }

  /** The table of what the walk still produces, from every position of `c`. */
  ghost method SuffixTable<T>(nodes: seq<Node<T>>, chains: seq<seq<Handle>>, c: seq<Handle>,
                              parent: Option<Handle>, hooks: BatchHooks, lo: nat)
    returns (table: seq<seq<Batch>>)
    requires Nested(nodes, chains) && NeverRestartsOnItself(hooks)
    requires lo <= |nodes| && Between(c, lo, |nodes|)
    requires parent.Some? ==> parent.value < |nodes|
    ensures SuffixTableOf(table, nodes, chains, c, parent, hooks, lo)
    ensures table[0] == ChainBatches(nodes, chains, c, parent, hooks, lo) && table[|c|] == []
  {
    table := seq(|c| + 1, d requires 0 <= d <= |c| => SuffixBatches(nodes, chains, c, parent, hooks, lo, d));
    assert table[0] == SuffixBatches(nodes, chains, c, parent, hooks, lo, 0);
    assert table[|c|] == SuffixBatches(nodes, chains, c, parent, hooks, lo, |c|);
  }

  /** `table[d]` holds the side-effect batches of the first `d` transactions of `ms`. */
  ghost predicate NestedTableOf<T>(table: seq<seq<Batch>>, nodes: seq<Node<T>>, chains: seq<seq<Handle>>,
                                   ms: seq<Handle>, pointer: Handle, hooks: BatchHooks, lo: nat)
    requires Nested(nodes, chains) && NeverRestartsOnItself(hooks)
    requires lo <= |nodes| && pointer < |nodes| && Between(ms, lo, |nodes|)
  {
    && |table| == |ms| + 1
    && forall d {:trigger NestedUpTo(nodes, chains, ms, pointer, hooks, lo, d)} :: 0 <= d <= |ms| ==>
         table[d] == NestedUpTo(nodes, chains, ms, pointer, hooks, lo, d)
  }

  /** The table of the side-effect batches of every prefix of `ms`. */
  ghost method NestedTable<T>(nodes: seq<Node<T>>, chains: seq<seq<Handle>>, ms: seq<Handle>,
                              pointer: Handle, hooks: BatchHooks, lo: nat)
    returns (table: seq<seq<Batch>>)
    requires Nested(nodes, chains) && NeverRestartsOnItself(hooks)
    requires lo <= |nodes| && pointer < |nodes| && Between(ms, lo, |nodes|)
    ensures NestedTableOf(table, nodes, chains, ms, pointer, hooks, lo)
    ensures table[0] == [] && table[|ms|] == NestedBatches(nodes, chains, ms, pointer, hooks, lo)
  {
    table := seq(|ms| + 1, d requires 0 <= d <= |ms| => NestedUpTo(nodes, chains, ms, pointer, hooks, lo, d));
    assert table[0] == NestedUpTo(nodes, chains, ms, pointer, hooks, lo, 0);
    assert table[|ms|] == NestedUpTo(nodes, chains, ms, pointer, hooks, lo, |ms|);
    assert ms[..|ms|] == ms;
  }

  lemma {:induction false} NestedTableStep<T>(table: seq<seq<Batch>>, nodes: seq<Node<T>>, chains: seq<seq<Handle>>,
                                              ms: seq<Handle>, pointer: Handle, hooks: BatchHooks, lo: nat, k: nat)
    requires Nested(nodes, chains) && NeverRestartsOnItself(hooks)
    requires lo <= |nodes| && pointer < |nodes| && Between(ms, lo, |nodes|) && k < |ms|
    requires NestedTableOf(table, nodes, chains, ms, pointer, hooks, lo)
    ensures table[k + 1] == table[k] + SideEffectBatches(nodes, chains, nodes[ms[k]].sideEffects, pointer, hooks, ms[k] + 1)
  {
    assert table[k] == NestedUpTo(nodes, chains, ms, pointer, hooks, lo, k);
    assert table[k + 1] == NestedUpTo(nodes, chains, ms, pointer, hooks, lo, k + 1);
    NestedUpToStep(nodes, chains, ms, pointer, hooks, lo, k);
  }

  /** At a transaction, the decider is `c[d]`, or will be once the pointer is taken as the new decider. */
  lemma {:induction false} CursorDecide(c: seq<Handle>, hooks: BatchHooks, d: nat, i: nat, pointer: Option<Handle>,
                     accumulator: seq<Handle>, batchDecider: Option<Handle>)
    requires Cursor(c, hooks, d, i, pointer, accumulator, batchDecider) && pointer.Some?
    ensures d <= i < |c| && pointer == Some(c[i])
    ensures batchDecider == Some(c[d]) || (batchDecider.None? && pointer == Some(c[d]))
    ensures Cursor(c, hooks, d, i, Some(c[i]), accumulator, Some(c[d]))
  {
  }

  /** A restart at `c[i]`: the walk goes on from `c[i]` with `c[i]` as decider and nothing accumulated. */
  lemma {:induction false} CursorRestart(c: seq<Handle>, hooks: BatchHooks, d: nat, i: nat, accumulator: seq<Handle>)
    requires d <= i < |c| && Cursor(c, hooks, d, i, Some(c[i]), accumulator, Some(c[d]))
    requires hooks.restarts(c[d], c[i])
    ensures Cursor(c, hooks, i, i, Some(c[i]), [], Some(c[i]))
  {
  }

  /** A transaction closing at `c[i]`: the walk goes on after it with no decider and nothing accumulated. */
  lemma {:induction false} CursorClose(c: seq<Handle>, hooks: BatchHooks, d: nat, i: nat, accumulator: seq<Handle>)
    requires d <= i < |c| && Cursor(c, hooks, d, i, Some(c[i]), accumulator, Some(c[d]))
    requires !hooks.restarts(c[d], c[i])
    ensures Closer(hooks, c[i]) || i == |c| - 1 ==> Closes(c, hooks, i)
    ensures var next := if i + 1 < |c| then Some(c[i + 1]) else None;
            Cursor(c, hooks, i + 1, i + 1, next, [], next)
  {
  }

  /** A transaction that neither restarts nor closes joins the batch. */
  lemma {:induction false} CursorExtend(c: seq<Handle>, hooks: BatchHooks, d: nat, i: nat, accumulator: seq<Handle>)
    requires d <= i < |c| && Cursor(c, hooks, d, i, Some(c[i]), accumulator, Some(c[d]))
    requires !hooks.restarts(c[d], c[i]) && !Closer(hooks, c[i]) && i + 1 < |c|
    ensures Cursor(c, hooks, d, i + 1, Some(c[i + 1]), accumulator + [c[i]], Some(c[d]))
  {
    assert c[d..i + 1] == c[d..i] + [c[i]];
  }

  /**
   * The cut of batchTransactions when the decider `c[d]` restarts on `c[i]`:
   * the accumulated `c[d..i]` becomes a batch decided by `c[d]`
   * (generateEventForTransaction), and the walk goes on from `c[i]`.
   */
  method CutAtRestart<T>(nodes: seq<Node<T>>, effects: seq<SideEffect>, ghost chains: seq<seq<Handle>>,
                         parent: Option<Handle>, hooks: BatchHooks, ghost c: seq<Handle>, ghost lo: nat,
                         ghost d: nat, ghost i: nat, transactions: seq<Handle>, decider: Handle,
                         bs: seq<Batch>, ghost table: seq<seq<Batch>>)
    returns (bs': seq<Batch>)
    requires Nested(nodes, chains) && NeverRestartsOnItself(hooks) && EffectsForwardLinked(nodes, effects, chains)
    requires lo <= |nodes| && Between(c, lo, |nodes|) && d <= i < |c|
    requires parent.Some? ==> parent.value < |nodes|
    requires Cursor(c, hooks, d, i, Some(c[i]), transactions, Some(c[d]))
    requires decider == c[d] && hooks.restarts(c[d], c[i])
    requires SuffixTableOf(table, nodes, chains, c, parent, hooks, lo)
    requires table[0] == bs + table[d]
    ensures table[0] == bs' + table[i]
    decreases |nodes| - lo, 1, 1
  {
    RestartCut(nodes, chains, c, parent, hooks, lo, d, i);
    var generated := GenerateEventForTransaction(nodes, effects, chains, decider, parent, transactions, hooks, lo);
    assert table[d] == SuffixBatches(nodes, chains, c, parent, hooks, lo, d);
    assert table[i] == SuffixBatches(nodes, chains, c, parent, hooks, lo, i);
    Regroup(table[0], bs, generated, table[i]);
    bs' := bs + generated;
  }

  /**
   * The cut of batchTransactions when `c[i]` closes the batch: the
   * accumulated `c[d..i]` and `c[i]` become a batch decided by `c[i]`, and the
   * walk goes on after it.
   */
  method CutAtClose<T>(nodes: seq<Node<T>>, effects: seq<SideEffect>, ghost chains: seq<seq<Handle>>,
                       parent: Option<Handle>, hooks: BatchHooks, ghost c: seq<Handle>, ghost lo: nat,
                       ghost d: nat, ghost i: nat, ghost accumulator: seq<Handle>, transactions: seq<Handle>,
                       current: Handle, bs: seq<Batch>, ghost table: seq<seq<Batch>>)
    returns (bs': seq<Batch>)
    requires Nested(nodes, chains) && NeverRestartsOnItself(hooks) && EffectsForwardLinked(nodes, effects, chains)
    requires lo <= |nodes| && Between(c, lo, |nodes|) && d <= i < |c|
    requires parent.Some? ==> parent.value < |nodes|
    requires Cursor(c, hooks, d, i, Some(c[i]), accumulator, Some(c[d]))
    requires current == c[i] && !hooks.restarts(c[d], c[i]) && Closes(c, hooks, i)
    requires transactions == accumulator + [c[i]]
    requires SuffixTableOf(table, nodes, chains, c, parent, hooks, lo)
    requires table[0] == bs + table[d]
    ensures table[0] == bs' + table[i + 1]
    decreases |nodes| - lo, 1, 1
  {
    CloseCut(nodes, chains, c, parent, hooks, lo, d, i);
    SliceSnoc(c, d, i);
    var generated := GenerateEventForTransaction(nodes, effects, chains, current, parent, transactions, hooks, lo);
    assert table[d] == SuffixBatches(nodes, chains, c, parent, hooks, lo, d);
    assert table[i + 1] == SuffixBatches(nodes, chains, c, parent, hooks, lo, i + 1);
    Regroup(table[0], bs, generated, table[i + 1]);
    bs' := bs + generated;
  }

  /** Proof helper: appending in two steps (the batches so far, the cut batch, then the rest of the walk). */
  lemma {:induction false} Regroup(all: seq<Batch>, bs: seq<Batch>, generated: seq<Batch>, rest: seq<Batch>)
    requires all == bs + (generated + rest)
    ensures all == (bs + generated) + rest
  {
    assert bs + (generated + rest) == (bs + generated) + rest;
  }

  /** Following `next` from the transaction at position `i` of a forward-linked chain. */
  lemma {:induction false} NextOf<T>(nodes: seq<Node<T>>, c: seq<Handle>, head: Handle, i: nat)
    requires ForwardLinked(nodes, c, Some(head)) && i < |c|
    ensures c[i] < |nodes|
    ensures nodes[c[i]].next == if i + 1 < |c| then Some(c[i + 1]) else None
  {
  }

  /** A restart at `c[i]` cuts `c[d..i]`, decided by `c[d]`, and the walk goes on with `c[i]` as decider. */
  lemma {:induction false} RestartCut<T>(nodes: seq<Node<T>>, chains: seq<seq<Handle>>, c: seq<Handle>,
                      parent: Option<Handle>, hooks: BatchHooks, lo: nat, d: nat, i: nat)
    requires Nested(nodes, chains) && NeverRestartsOnItself(hooks)
    requires lo <= |nodes| && Between(c, lo, |nodes|) && d < i < |c|
    requires parent.Some? ==> parent.value < |nodes|
    requires forall j :: d <= j < i ==> !hooks.restarts(c[d], c[j]) && !Closes(c, hooks, j)
    requires hooks.restarts(c[d], c[i])
    ensures && Between(c[d..i], lo, |nodes|) && c[d] < |nodes|
            && SuffixBatches(nodes, chains, c, parent, hooks, lo, d)
               == RunBatches(nodes, chains, Run(c[d..i], c[d]), parent, hooks, lo)
                  + SuffixBatches(nodes, chains, c, parent, hooks, lo, i)
  {
    NextRun(c, hooks, d, i);
    SuffixBatchesAt(nodes, chains, c, parent, hooks, lo, d, Run(c[d..i], c[d]), i);
  }

  /** A transaction closing at `c[i]` cuts `c[d..i+1]`, decided by `c[i]`, and the walk goes on after it. */
  lemma {:induction false} CloseCut<T>(nodes: seq<Node<T>>, chains: seq<seq<Handle>>, c: seq<Handle>,
                    parent: Option<Handle>, hooks: BatchHooks, lo: nat, d: nat, i: nat)
    requires Nested(nodes, chains) && NeverRestartsOnItself(hooks)
    requires lo <= |nodes| && Between(c, lo, |nodes|) && d <= i < |c|
    requires parent.Some? ==> parent.value < |nodes|
    requires forall j :: d <= j < i ==> !hooks.restarts(c[d], c[j]) && !Closes(c, hooks, j)
    requires !hooks.restarts(c[d], c[i]) && Closes(c, hooks, i)
    ensures && Between(c[d..i + 1], lo, |nodes|) && c[i] < |nodes|
            && SuffixBatches(nodes, chains, c, parent, hooks, lo, d)
               == RunBatches(nodes, chains, Run(c[d..i + 1], c[i]), parent, hooks, lo)
                  + SuffixBatches(nodes, chains, c, parent, hooks, lo, i + 1)
  {
    NextRun(c, hooks, d, i);
    SuffixBatchesAt(nodes, chains, c, parent, hooks, lo, d, Run(c[d..i + 1], c[i]), i + 1);
  }

  /** Proof helper: the accumulator plus the closing transaction is the slice up to and including it. */
  lemma {:induction false} SliceSnoc(c: seq<Handle>, d: nat, i: nat)
    requires d <= i < |c|
    ensures c[d..i] + [c[i]] == c[d..i + 1]
  {
    assert forall j :: 0 <= j < i - d ==> (c[d..i] + [c[i]])[j] == c[d..i + 1][j];
  }

  /**
   * The batch cut at position `i` of `c` when the run decided by `c[d]` runs
   * unstopped up to `i`: a restart there leaves `c[d..i]` decided by `c[d]`,
   * a closing transaction there ends `c[d..i+1]` decided by `c[i]`.
   */
  lemma {:induction false} NextRun(c: seq<Handle>, hooks: BatchHooks, d: nat, i: nat)
    requires d <= i < |c| && NeverRestartsOnItself(hooks)
    requires forall j :: d <= j < i ==> !hooks.restarts(c[d], c[j]) && !Closes(c, hooks, j)
    requires hooks.restarts(c[d], c[i]) || Closes(c, hooks, i)
    ensures hooks.restarts(c[d], c[i]) ==>
      FirstRun(c, hooks, d) == Run(c[d..i], c[d]) && NextStart(c, hooks, d) == i
    ensures !hooks.restarts(c[d], c[i]) ==>
      FirstRun(c, hooks, d) == Run(c[d..i + 1], c[i]) && NextStart(c, hooks, d) == i + 1
  {
    var e := RunEnd(c, hooks, d, d);
    assert e == i;
  }

  /**
   * generateEventForTransaction: the batch's own event when the decider
   * generates one, then, for each of its transactions in order, the batches of
   * each side effect that captured anything, parented by the decider.
   */
  method GenerateEventForTransaction<T>(nodes: seq<Node<T>>, effects: seq<SideEffect>, ghost chains: seq<seq<Handle>>,
                                        pointer: Handle, parent: Option<Handle>, transactions: seq<Handle>,
                                        hooks: BatchHooks, ghost lo: nat)
    returns (bs: seq<Batch>)
    requires Nested(nodes, chains) && NeverRestartsOnItself(hooks) && EffectsForwardLinked(nodes, effects, chains)
    requires lo <= |nodes| && pointer < |nodes|
    requires transactions != [] && Between(transactions, lo, |nodes|)
    requires parent.Some? ==> parent.value < |nodes|
    ensures bs == RunBatches(nodes, chains, Run(transactions, pointer), parent, hooks, lo)
    decreases |nodes| - lo, 1, 0
  {
    bs := if hooks.generates(pointer, parent, transactions) then [Batch(transactions, pointer, parent)] else [];
    ghost var own := bs;
    ghost var table := NestedTable(nodes, chains, transactions, pointer, hooks, lo);
    for k := 0 to |transactions|
      invariant bs == own + table[k]
    {
      var t := transactions[k];
      var nested := SideEffectsBatches(nodes, effects, chains, t, pointer, hooks);
      NestedTableStep(table, nodes, chains, transactions, pointer, hooks, lo, k);
      AppendAssoc(own, table[k], nested);
      bs := bs + nested;
    }
  }

  /** The inner loop of generateEventForTransaction: the batches of the side effects of transaction `t`. */
  method SideEffectsBatches<T>(nodes: seq<Node<T>>, effects: seq<SideEffect>, ghost chains: seq<seq<Handle>>,
                               t: Handle, pointer: Handle, hooks: BatchHooks)
    returns (bs: seq<Batch>)
    requires Nested(nodes, chains) && NeverRestartsOnItself(hooks) && EffectsForwardLinked(nodes, effects, chains)
    requires t < |nodes| && pointer < |nodes|
    ensures bs == SideEffectBatches(nodes, chains, nodes[t].sideEffects, pointer, hooks, t + 1)
    decreases |nodes| - (t + 1), 3, 0
  {
    var ses := nodes[t].sideEffects;
    assert forall i :: 0 <= i < |ses| ==> ses[i] < |chains| && Between(chains[ses[i]], t + 1, |nodes|);
    bs := [];
    for j := 0 to |ses|
      invariant bs == SideEffectBatches(nodes, chains, ses[..j], pointer, hooks, t + 1)
    {
      var e := ses[j];
      var nested := EffectBatchesOf(nodes, effects, chains, e, pointer, hooks, t + 1);
      SideEffectBatchesStep(nodes, chains, ses, j, pointer, hooks, t + 1);
      bs := bs + nested;
    }
    assert ses[..|ses|] == ses;
  }

  /** One iteration of that loop: the batches of side effect `e`, walked from its head when it captured anything. */
  method EffectBatchesOf<T>(nodes: seq<Node<T>>, effects: seq<SideEffect>, ghost chains: seq<seq<Handle>>,
                            e: nat, pointer: Handle, hooks: BatchHooks, ghost lo: nat)
    returns (bs: seq<Batch>)
    requires Nested(nodes, chains) && NeverRestartsOnItself(hooks) && EffectsForwardLinked(nodes, effects, chains)
    requires lo <= |nodes| && pointer < |nodes|
    requires e < |effects| && Between(chains[e], lo, |nodes|)
    ensures bs == EffectBatches(nodes, chains, e, pointer, hooks, lo)
    decreases |nodes| - lo, 2, 1
  {
    assert ForwardLinked(nodes, chains[e], effects[e].head);
    bs := [];
    if effects[e].head.Some? {
      bs := BatchTransactions(nodes, effects, chains, effects[e].head.value, Some(pointer), hooks, chains[e], lo);
    }
  }

  /**
   * The dispatch loop of processTransactions: each batch in order is either
   * cancelled outright (its parent or decider is already cancelled) or has its
   * event posted, after which the event's cancellation and the decider's
   * markCancelledTransactions may cancel some of its transactions.
   */
  method DispatchBatches<T>(nodes: seq<Node<T>>, bs: seq<Batch>, dh: DispatchHooks)
    returns (nodes': seq<Node<T>>, cancelledAny: bool, posted: seq<Batch>)
    requires BatchesWithin(bs, |nodes|)
    ensures DispatchAll(nodes, bs, dh) == Dispatched(nodes', cancelledAny, posted)
  {
    nodes' := nodes;
    cancelledAny := false;
    posted := [];
    for k := 0 to |bs|
      invariant BatchesWithin(bs[..k], |nodes|)
      invariant DispatchAll(nodes, bs[..k], dh) == Dispatched(nodes', cancelledAny, posted)
    {
      DispatchAllStep(nodes, bs, k, dh);
      var cancelled, more;
      nodes', cancelled, more := DispatchBatch(nodes', bs[k], dh);
      cancelledAny := cancelledAny || cancelled;
      posted := posted + more;
    }
    assert bs[..|bs|] == bs;
  }

  /** One iteration of the dispatch loop, on batch `b`. */
  method DispatchBatch<T>(nodes: seq<Node<T>>, b: Batch, dh: DispatchHooks)
    returns (nodes': seq<Node<T>>, cancelled: bool, posted: seq<Batch>)
    requires BatchWithin(b, |nodes|)
    ensures Step(nodes, b, dh) == Dispatched(nodes', cancelled, posted)
  {
    var members := MemberSet(b);
    if ParentOrDeciderCancelled(nodes, b) {
      return Cancel(nodes, members), true, [];
    }
    posted := [b];
    nodes' := nodes;
    cancelled := false;
    var eventCancelled := dh.eventCancelled(b);
    if eventCancelled {
      nodes' := Cancel(nodes', members);
      cancelled := true;
    }
    var forced := members * dh.forceCancel(b, eventCancelled);
    if forced != {} {
      cancelled := true;
    }
    nodes' := Cancel(nodes', forced);
  }

  /**
   * The rollback loop of processTransactions: batches from the last to the
   * first, each through `RestoreBatch`.
   */
  method RestoreCancelled<T>(nodes: seq<Node<T>>, bs: seq<Batch>) returns (restored: seq<Handle>)
    requires BatchesWithin(bs, |nodes|)
    ensures restored == RestoreTrace(nodes, bs)
  {
    restored := [];
    var k := |bs|;
    assert bs[..k] == bs;
    while k > 0
      invariant 0 <= k <= |bs| && BatchesWithin(bs[..k], |nodes|)
      invariant restored + RestoreTrace(nodes, bs[..k]) == RestoreTrace(nodes, bs)
    {
      assert BatchWithin(bs[k - 1], |nodes|);
      assert bs[..k][..k - 1] == bs[..k - 1];
      var more := RestoreBatch(nodes, bs[k - 1].members);
      ghost var rest := RestoreTrace(nodes, bs[..k - 1]);
      assert restored + (more + rest) == (restored + more) + rest;
      restored := restored + more;
      k := k - 1;
    }
  }

  /** The inner rollback loop: the transactions of one batch from the last to the first; each cancelled one is restored. */
  method RestoreBatch<T>(nodes: seq<Node<T>>, ms: seq<Handle>) returns (restored: seq<Handle>)
    requires forall j :: 0 <= j < |ms| ==> ms[j] < |nodes|
    ensures restored == RestoreMembers(nodes, ms)
  {
    restored := [];
    var j := |ms|;
    assert ms[..j] == ms;
    while j > 0
      invariant 0 <= j <= |ms|
      invariant restored + RestoreMembers(nodes, ms[..j]) == RestoreMembers(nodes, ms)
    {
      var t := ms[j - 1];
      RestoreMembersStep(nodes, ms, j);
      ghost var earlier := RestoreMembers(nodes, ms[..j - 1]);
      if nodes[t].cancelled {
        assert restored + ([t] + earlier) == (restored + [t]) + earlier;
        restored := restored + [t];
      } else {
        assert [] + earlier == earlier;
      }
      j := j - 1;
    }
  }

  /**
   * The body of processTransactions on a non-empty chain starting at `head`:
   * batch it, dispatch every batch, and restore the cancelled transactions
   * only if something was cancelled. Only cancellation flags change.
   */
  method ProcessChain<T>(nodes: seq<Node<T>>, effects: seq<SideEffect>, ghost chains: seq<seq<Handle>>,
                         head: Handle, ghost top: seq<Handle>, bh: BatchHooks, dh: DispatchHooks)
    returns (nodes': seq<Node<T>>, committed: bool, restored: seq<Handle>, posted: seq<Batch>)
    requires Nested(nodes, chains) && NeverRestartsOnItself(bh) && EffectsForwardLinked(nodes, effects, chains)
    requires Between(top, 0, |nodes|) && ForwardLinked(nodes, top, Some(head))
    ensures SameShape(nodes, nodes')
    ensures var p := Process(nodes, ChainBatches(nodes, chains, top, None, bh, 0), dh);
      nodes' == p.nodes && committed == p.committed && restored == p.restored && posted == p.posted
  {
    var batched := BatchTransactions(nodes, effects, chains, head, None, bh, top, 0);
    var cancelledAny;
    nodes', cancelledAny, posted := DispatchBatches(nodes, batched, dh);
    restored := [];
    if cancelledAny {
      restored := RestoreCancelled(nodes', batched);
    }
    committed := !cancelledAny;
  }

  class TransactionalCaptureSupplier<T> {
    var nodes: seq<Node<T>>
    var effects: seq<SideEffect>
    var head: Option<Handle>
    var tail: Option<Handle>
    var effect: Option<nat>
    /** The handles of the top-level chain, head first. */
    ghost var Top: seq<Handle>
    /** The handles of each side effect's chain, head first. */
    ghost var Chains: seq<seq<Handle>>
    /** The chain each transaction was appended to: -1 for the top level, else the side effect. */
    ghost var Owner: seq<int>

    ghost predicate Valid()
      reads this
    {
      Wf(nodes, effects, head, tail, effect, Top, Chains, Owner)
    }

    /** Only transactions' payloads and flags may have changed. */
    twostate predicate OnlyPayloadsChanged()
      reads this
    {
      && SameShape(old(nodes), nodes)
      && effects == old(effects) && head == old(head) && tail == old(tail) && effect == old(effect)
      && Top == old(Top) && Chains == old(Chains) && Owner == old(Owner)
    }

    constructor ()
      ensures Valid()
      ensures nodes == [] && effects == [] && head == None && tail == None && effect == None
      ensures Top == [] && Chains == []
    {
      nodes := [];
      effects := [];
      head := None;
      tail := None;
      effect := None;
      Top := [];
      Chains := [];
      Owner := [];
    }

    /** isEmpty: nothing was captured on the top-level chain. */
    function IsEmpty(): (r: bool)
      requires Valid()
      reads this
      ensures r <==> Top == []
      ensures r <==> tail == None
    {
      head == None
    }

    /**
     * pushEffect: opens side effect `kind` under the active side effect's tail,
     * or under the top-level tail when no side effect is active or the active one
     * is still empty, and makes it active. The top-level tail is dereferenced in
     * every case, so without one the call fails and changes nothing.
     */
    method PushEffect(kind: ProcessKind) returns (r: Result<Transactor, Failure>)
      requires Valid()
      modifies this
      ensures Valid()
      ensures old(tail).None? ==> r == Err(NullPointer) && unchanged(this)
      ensures old(tail).Some? ==>
        var m := |old(effects)|;
        var p := EffectParent(old(effects), old(effect), old(tail).value);
        && p < |old(nodes)|
        && r == Ok(Transactor(m, p, old(effect)))
        && effects == old(effects) + [SideEffect(kind, None, None)]
        && effect == Some(m)
        && nodes == old(nodes)[p := old(nodes)[p].(sideEffects := old(nodes)[p].sideEffects + [m])]
        && head == old(head) && tail == old(tail)
        && Top == old(Top) && Chains == old(Chains) + [[]] && Owner == old(Owner)
    {
      if tail.None? {
        return Err(NullPointer);
      }
      var parent := EffectParent(effects, effect, tail.value);
      assert parent < |nodes| by {
        if effect.Some? && effects[effect.value].tail.Some? {
          assert Linked(nodes, Owner, Chains[effect.value], effects[effect.value].head,
                        effects[effect.value].tail, effect.value);
        }
      }
      var m := |effects|;
      PushKeepsWf(nodes, effects, head, tail, effect, Top, Chains, Owner, parent, kind);
      r := Ok(Transactor(m, parent, effect));
      effect := Some(m);
      effects := effects + [SideEffect(kind, None, None)];
      nodes := nodes[parent := nodes[parent].(sideEffects := nodes[parent].sideEffects + [m])];
      Chains := Chains + [[]];
    }

    /** popEffect: the side effect that was active before the transactor's push is active again. */
    method PopEffect(t: Transactor)
      requires Valid()
      requires t.previousEffect.Some? ==> t.previousEffect.value < |effects|
      modifies this
      ensures Valid()
      ensures effect == t.previousEffect
      ensures nodes == old(nodes) && effects == old(effects) && head == old(head) && tail == old(tail)
      ensures Top == old(Top) && Chains == old(Chains) && Owner == old(Owner)
    {
      effect := t.previousEffect;
    }

    /**
     * The state change of logTransaction(tx): the first transaction of an empty
     * supplier becomes head and tail. Otherwise an absorbable transaction is
     * offered to `candidates` (the supplier's newest-first deep order) and the
     * first that absorbs it takes it; failing that it is appended to the active
     * side effect's chain, or to the top-level chain when none is active.
     */
    twostate predicate Logged(tx: T, canBeAbsorbed: bool, absorb: (T, T) -> Option<T>, candidates: seq<Handle>)
      requires old(Valid())
      requires forall j :: 0 <= j < |candidates| ==> candidates[j] < |old(nodes)|
      reads this
    {
      var k := FirstIndex(candidates, Absorbs(old(nodes), tx, absorb));
      var n := |old(nodes)|;
      && (old(head).None? ==>
            && nodes == old(nodes) + [Node(tx, None, None, false, [])]
            && head == Some(n) && tail == Some(n) && Top == [n]
            && effects == old(effects) && effect == old(effect) && Chains == old(Chains))
      && (old(head).Some? && canBeAbsorbed && k < |candidates| ==>
            && nodes == WithPayload(old(nodes), candidates[k], absorb(tx, old(nodes)[candidates[k]].payload).value)
            && effects == old(effects) && head == old(head) && tail == old(tail) && effect == old(effect)
            && Top == old(Top) && Chains == old(Chains))
      && (old(head).Some? && (!canBeAbsorbed || k == |candidates|) ==>
            && effect == old(effect) && head == old(head)
            && (old(effect).Some? ==>
                  var e := old(effect).value;
                  && nodes == LinkAfter(old(nodes), old(effects)[e].tail, tx)
                  && effects == old(effects)[e := old(effects)[e].(
                       head := if old(effects)[e].head.None? then Some(n) else old(effects)[e].head,
                       tail := Some(n))]
                  && Chains == old(Chains)[e := old(Chains)[e] + [n]]
                  && tail == old(tail) && Top == old(Top))
            && (old(effect).None? ==>
                  && nodes == LinkAfter(old(nodes), old(tail), tx)
                  && tail == Some(n) && Top == old(Top) + [n]
                  && effects == old(effects) && Chains == old(Chains)))
    }

    /** logTransaction: records `tx` as Logged states; `absorbedBy` is the candidate that absorbed it, if any. */
    method LogTransaction(tx: T, canBeAbsorbed: bool, absorb: (T, T) -> Option<T>, candidates: seq<Handle>)
      returns (absorbedBy: Option<Handle>)
      requires Valid()
      requires forall j :: 0 <= j < |candidates| ==> candidates[j] < |nodes|
      modifies this
      ensures Valid()
      ensures Logged(tx, canBeAbsorbed, absorb, candidates)
      ensures var k := FirstIndex(candidates, Absorbs(old(nodes), tx, absorb));
        absorbedBy == if old(head).Some? && canBeAbsorbed && k < |candidates| then Some(candidates[k]) else None
    {
      if head.None? {
        AppendTop(tx);
        return None;
      }
      if canBeAbsorbed {
        absorbedBy := OfferForAbsorption(tx, absorb, candidates);
        if absorbedBy.Some? {
          return;
        }
      }
      if effect.Some? {
        AppendToEffect(tx);
      } else {
        AppendTop(tx);
      }
      absorbedBy := None;
    }

    /** Links a new transaction after the top-level tail (making it the head too when the chain is empty). */
    method AppendTop(tx: T)
      requires Valid()
      modifies this
      ensures Valid()
      ensures var n := |old(nodes)|;
        && nodes == LinkAfter(old(nodes), old(tail), tx)
        && head == (if old(head).None? then Some(n) else old(head))
        && tail == Some(n) && Top == old(Top) + [n]
        && effects == old(effects) && effect == old(effect) && Chains == old(Chains)
    {
      var n := |nodes|;
      AppendTopKeepsWf(nodes, effects, head, tail, effect, Top, Chains, Owner, tx);
      nodes := LinkAfter(nodes, tail, tx);
      if head.None? {
        head := Some(n);
      }
      tail := Some(n);
      Top := Top + [n];
      Owner := Owner + [-1];
    }

    /** addChild on the active side effect: links a new transaction after the tail of its chain. */
    method AppendToEffect(tx: T)
      requires Valid() && effect.Some?
      modifies this
      ensures Valid()
      ensures var n := |old(nodes)|;
        var e := old(effect).value;
        && nodes == LinkAfter(old(nodes), old(effects)[e].tail, tx)
        && effects == old(effects)[e := old(effects)[e].(
             head := if old(effects)[e].head.None? then Some(n) else old(effects)[e].head,
             tail := Some(n))]
        && Chains == old(Chains)[e := old(Chains)[e] + [n]]
        && head == old(head) && tail == old(tail) && effect == old(effect) && Top == old(Top)
    {
      var n := |nodes|;
      var e := effect.value;
      assert Linked(nodes, Owner, Chains[e], effects[e].head, effects[e].tail, e);
      AppendEffectKeepsWf(nodes, effects, head, tail, effect, Top, Chains, Owner, e, tx);
      nodes := LinkAfter(nodes, effects[e].tail, tx);
      effects := effects[e := effects[e].(head := if effects[e].head.None? then Some(n) else effects[e].head,
                                         tail := Some(n))];
      Chains := Chains[e := Chains[e] + [n]];
      Owner := Owner + [e];
    }

    /** The absorption loop: the first candidate that absorbs `tx` takes it. */
    method OfferForAbsorption(tx: T, absorb: (T, T) -> Option<T>, candidates: seq<Handle>)
      returns (absorbedBy: Option<Handle>)
      requires Valid()
      requires forall j :: 0 <= j < |candidates| ==> candidates[j] < |nodes|
      modifies this
      ensures Valid() && OnlyPayloadsChanged()
      ensures var k := FirstIndex(candidates, Absorbs(old(nodes), tx, absorb));
        && (k < |candidates| ==>
              && absorbedBy == Some(candidates[k])
              && nodes == WithPayload(old(nodes), candidates[k], absorb(tx, old(nodes)[candidates[k]].payload).value))
        && (k == |candidates| ==> absorbedBy == None && nodes == old(nodes))
    {
      var i := 0;
      while i < |candidates|
        invariant i <= |candidates|
        invariant forall j :: 0 <= j < i ==> !Absorbs(nodes, tx, absorb)(candidates[j])
      {
        var c := candidates[i];
        var p := absorb(tx, nodes[c].payload);
        if p.Some? {
          SameShapeKeepsWf(nodes, WithPayload(nodes, c, p.value), effects, head, tail, effect, Top, Chains, Owner);
          nodes := WithPayload(nodes, c, p.value);
          return Some(c);
        }
        i := i + 1;
      }
      absorbedBy := None;
    }
  
    /** The sink's default ran: it logged its transaction, if any, as Logged states, and returned its answer. */
    twostate predicate FellBack(fallback: SinkFallback<T>, absorb: (T, T) -> Option<T>, candidates: seq<Handle>,
                                recorded: bool)
      requires old(Valid())
      requires forall j :: 0 <= j < |candidates| ==> candidates[j] < |old(nodes)|
      reads this
    {
      && recorded == fallback.answer
      && (fallback.logs.None? ==>
            && nodes == old(nodes) && effects == old(effects) && head == old(head) && tail == old(tail)
            && effect == old(effect) && Top == old(Top) && Chains == old(Chains) && Owner == old(Owner))
      && (fallback.logs.Some? ==> Logged(fallback.logs.value, fallback.canBeAbsorbed, absorb, candidates))
    }

    /** The `TransactionSink` default of the tile log methods: logs the fallback's transaction, if any. */
    method FallBack(fallback: SinkFallback<T>, absorb: (T, T) -> Option<T>, candidates: seq<Handle>)
      returns (recorded: bool)
      requires Valid()
      requires forall j :: 0 <= j < |candidates| ==> candidates[j] < |nodes|
      modifies this
      ensures Valid()
      ensures FellBack(fallback, absorb, candidates, recorded)
    {
      if fallback.logs.Some? {
        var _ := LogTransaction(fallback.logs.value, fallback.canBeAbsorbed, absorb, candidates);
      }
      recorded := fallback.answer;
    }

    /**
     * logTileAddition: the tail takes the new tile entity if it accepts it;
     * otherwise the sink's default runs.
     */
    method LogTileAddition<E>(tileEntity: E, accept: (T, E) -> Option<T>,
                              fallback: SinkFallback<T>, absorb: (T, T) -> Option<T>, candidates: seq<Handle>)
      returns (recorded: bool)
      requires Valid()
      requires forall j :: 0 <= j < |candidates| ==> candidates[j] < |nodes|
      modifies this
      ensures Valid()
      ensures old(tail).Some? && accept(old(nodes)[old(tail).value].payload, tileEntity).Some? ==>
        var t := old(tail).value;
        && recorded && OnlyPayloadsChanged()
        && nodes == WithPayload(old(nodes), t, accept(old(nodes)[t].payload, tileEntity).value)
      ensures old(tail).None? || accept(old(nodes)[old(tail).value].payload, tileEntity).None? ==>
        FellBack(fallback, absorb, candidates, recorded)
    {
      if tail.Some? {
        recorded := OfferToTail(p => accept(p, tileEntity));
        if recorded {
          return;
        }
      }
      recorded := FallBack(fallback, absorb, candidates);
    }

    /** Offers a record to the tail; on acceptance the tail's payload becomes what `accept` returned. */
    method OfferToTail(accept: T -> Option<T>) returns (taken: bool)
      requires Valid() && tail.Some?
      modifies this
      ensures Valid() && OnlyPayloadsChanged()
      ensures var t := old(tail).value;
        && (taken <==> accept(old(nodes)[t].payload).Some?)
        && (taken ==> nodes == WithPayload(old(nodes), t, accept(old(nodes)[t].payload).value))
        && (!taken ==> nodes == old(nodes))
    {
      var t := tail.value;
      var p := accept(nodes[t].payload);
      if p.Some? {
        SameShapeKeepsWf(nodes, WithPayload(nodes, t, p.value), effects, head, tail, effect, Top, Chains, Owner);
        nodes := WithPayload(nodes, t, p.value);
        return true;
      }
      taken := false;
    }

    /**
     * logTileRemoval: nothing to record without a tile entity. Otherwise the
     * removal is offered to the tail, then to the transactions of the tail's
     * side-effect chains as the source's loop visits them; the first taker
     * records it, and failing all the sink's default runs.
     */
    method LogTileRemoval<E>(tileEntity: Option<E>, accept: (T, E) -> Option<T>,
                             fallback: SinkFallback<T>, absorb: (T, T) -> Option<T>, candidates: seq<Handle>)
      returns (recorded: bool)
      requires Valid()
      requires forall j :: 0 <= j < |candidates| ==> candidates[j] < |nodes|
      modifies this
      ensures Valid()
      ensures tileEntity.None? ==> !recorded && unchanged(this)
      ensures tileEntity.Some? && old(tail).None? ==> FellBack(fallback, absorb, candidates, recorded)
      ensures tileEntity.Some? && old(tail).Some? ==>
        var tile := tileEntity.value;
        var cs := RemovalCandidates(old(nodes), old(Chains), old(tail).value);
        var k := FirstIndex(cs, TakesRemoval(old(nodes), tile, accept));
        && (k < |cs| ==>
              && recorded && OnlyPayloadsChanged()
              && nodes == WithPayload(old(nodes), cs[k], accept(old(nodes)[cs[k]].payload, tile).value))
        && (k == |cs| ==> FellBack(fallback, absorb, candidates, recorded))
    {
      if tileEntity.None? {
        return false;
      }
      var tile := tileEntity.value;
      if tail.Some? {
        WfBackLinked(nodes, effects, head, tail, effect, Top, Chains, Owner);
        var processed, taken := OfferRemoval(nodes, effects, Chains, tail.value, tile, accept);
        if taken {
          SameShapeKeepsWf(nodes, processed, effects, head, tail, effect, Top, Chains, Owner);
          nodes := processed;
          return true;
        }
      }
      recorded := FallBack(fallback, absorb, candidates);
    }

    /**
     * logTileReplacement: nothing to record without a proposed tile entity;
     * otherwise the tail takes the replacement if it accepts it, and failing
     * that the sink's default runs.
     */
    method LogTileReplacement<E>(existing: Option<E>, proposed: Option<E>, accept: (T, Option<E>, E) -> Option<T>,
                                 fallback: SinkFallback<T>, absorb: (T, T) -> Option<T>, candidates: seq<Handle>)
      returns (recorded: bool)
      requires Valid()
      requires forall j :: 0 <= j < |candidates| ==> candidates[j] < |nodes|
      modifies this
      ensures Valid()
      ensures proposed.None? ==> !recorded && unchanged(this)
      ensures proposed.Some? && old(tail).Some?
              && accept(old(nodes)[old(tail).value].payload, existing, proposed.value).Some? ==>
        var t := old(tail).value;
        && recorded && OnlyPayloadsChanged()
        && nodes == WithPayload(old(nodes), t, accept(old(nodes)[t].payload, existing, proposed.value).value)
      ensures proposed.Some? && (old(tail).None?
              || accept(old(nodes)[old(tail).value].payload, existing, proposed.value).None?) ==>
        FellBack(fallback, absorb, candidates, recorded)
    {
      if proposed.None? {
        return false;
      }
      var tile := proposed.value;
      if tail.Some? {
        recorded := OfferToTail(p => accept(p, existing, tile));
        if recorded {
          return;
        }
      }
      recorded := FallBack(fallback, absorb, candidates);
    }

    /** logContainerSet: the tail, if any, records the container being set. */
    method LogContainerSet<P>(player: P, accept: (T, P) -> T)
      requires Valid()
      modifies this
      ensures Valid() && OnlyPayloadsChanged()
      ensures old(tail).Some? ==>
        var t := old(tail).value;
        nodes == WithPayload(old(nodes), t, accept(old(nodes)[t].payload, player))
      ensures old(tail).None? ==> nodes == old(nodes)
    {
      if tail.Some? {
        var t := tail.value;
        SameShapeKeepsWf(nodes, WithPayload(nodes, t, accept(nodes[t].payload, player)),
                         effects, head, tail, effect, Top, Chains, Owner);
        nodes := WithPayload(nodes, t, accept(nodes[t].payload, player));
      }
    }

    /** logCrafting: the tail must take the crafting record; otherwise crafting was not nested in another event. */
    method LogCrafting<C>(crafting: C, accept: (T, C) -> Option<T>) returns (r: Result<(), Failure>)
      requires Valid()
      modifies this
      ensures Valid() && OnlyPayloadsChanged()
      ensures r.Ok? <==> old(tail).Some? && accept(old(nodes)[old(tail).value].payload, crafting).Some?
      ensures r.Ok? ==>
        var t := old(tail).value;
        nodes == WithPayload(old(nodes), t, accept(old(nodes)[t].payload, crafting).value)
      ensures r.Err? ==> r.error == IllegalState(CraftingNotNested) && nodes == old(nodes)
    {
      if tail.Some? {
        var taken := OfferToTail(p => accept(p, crafting));
        if taken {
          return Ok(());
        }
      }
      r := Err(IllegalState(CraftingNotNested));
    }

    /** logCraftingPreview: as logCrafting, for the preview of a crafting result. */
    method LogCraftingPreview<C>(preview: C, accept: (T, C) -> Option<T>) returns (r: Result<(), Failure>)
      requires Valid()
      modifies this
      ensures Valid() && OnlyPayloadsChanged()
      ensures r.Ok? <==> old(tail).Some? && accept(old(nodes)[old(tail).value].payload, preview).Some?
      ensures r.Ok? ==>
        var t := old(tail).value;
        nodes == WithPayload(old(nodes), t, accept(old(nodes)[t].payload, preview).value)
      ensures r.Err? ==> r.error == IllegalState(PreviewNotNested) && nodes == old(nodes)
    {
      if tail.Some? {
        var taken := OfferToTail(p => accept(p, preview));
        if taken {
          return Ok(());
        }
      }
      r := Err(IllegalState(PreviewNotNested));
    }

    /**
     * ensureEntityDropTransactionEffect: if the tail takes the entity's drops,
     * there is nothing to open. Otherwise a snapshot transaction of the entity
     * is logged and an entity-drops side effect is pushed under it; with a tail
     * guaranteed by the logging, the push always succeeds.
     */
    method EnsureEntityDropTransactionEffect<E>(entity: E, acceptDrops: (T, E) -> Option<T>, snapshot: T,
                                                canBeAbsorbed: bool, absorb: (T, T) -> Option<T>,
                                                candidates: seq<Handle>)
      returns (r: Option<Transactor>)
      requires Valid()
      requires forall j :: 0 <= j < |candidates| ==> candidates[j] < |nodes|
      modifies this
      ensures Valid()
      ensures r.None? <==> old(tail).Some? && acceptDrops(old(nodes)[old(tail).value].payload, entity).Some?
      ensures r.None? ==>
        var t := old(tail).value;
        nodes == WithPayload(old(nodes), t, acceptDrops(old(nodes)[t].payload, entity).value)
        && OnlyPayloadsChanged()
      ensures r.Some? ==>
        && tail.Some?
        && r.value.effect == |effects| - 1
        && effects[|effects| - 1] == SideEffect(EntityPerformingDrops, None, None)
        && effect == Some(r.value.effect)
        && r.value.previousEffect == old(effect)
    {
      if tail.Some? {
        var taken := OfferToTail(p => acceptDrops(p, entity));
        if taken {
          return None;
        }
      }
      var _ := LogTransaction(snapshot, canBeAbsorbed, absorb, candidates);
      var pushed := PushEffect(EntityPerformingDrops);
      r := Some(pushed.value);
    }

    /**
     * completeBlockDrops: when the active side effect is the block-drops
     * preparation, closing the given transactor pops it.
     */
    method CompleteBlockDrops(context: Option<Transactor>)
      requires Valid()
      requires context.Some? && context.value.previousEffect.Some? ==>
        context.value.previousEffect.value < |effects|
      modifies this
      ensures Valid()
      ensures nodes == old(nodes) && effects == old(effects) && head == old(head) && tail == old(tail)
      ensures Top == old(Top) && Chains == old(Chains) && Owner == old(Owner)
      ensures effect == if old(effect).Some? && effects[old(effect).value].effect == PrepareBlockDrops
                           && context.Some?
                        then context.value.previousEffect
                        else old(effect)
    {
      if effect.Some? {
        if effects[effect.value].effect == PrepareBlockDrops {
          if context.Some? {
            PopEffect(context.value);
          }
        }
      }
    }

    /** clear: forgets every captured transaction and the active side effect. */
    method Clear()
      requires Valid()
      modifies this
      ensures Valid() && IsEmpty()
      ensures head == None && tail == None && effect == None && Top == []
      ensures nodes == old(nodes) && effects == old(effects) && Chains == old(Chains)
    {
      head := None;
      tail := None;
      effect := None;
      Top := [];
    }

    /** reset: the same end state as clear, reached by clearing only what is set. */
    method Reset()
      requires Valid()
      modifies this
      ensures Valid() && IsEmpty()
      ensures head == None && tail == None && effect == None && Top == []
      ensures nodes == old(nodes) && effects == old(effects) && Chains == old(Chains)
      ensures old(head).None? && old(effect).None? ==> unchanged(this)
    {
      if head.Some? {
        head := None;
        tail := None;
        Top := [];
      }
      if effect.Some? {
        effect := None;
      }
    }

    /**
     * processTransactions: without a captured transaction nothing happens and
     * the result is false. Otherwise the top-level chain is batched, every batch
     * dispatched in order, and, only if something was cancelled, the cancelled
     * transactions are restored, last first; the result is whether nothing was
     * cancelled. Only the transactions' cancellation flags change.
     */
    method ProcessTransactions(bh: BatchHooks, dh: DispatchHooks)
      returns (committed: bool, restored: seq<Handle>, posted: seq<Batch>)
      requires Valid() && NeverRestartsOnItself(bh)
      modifies this
      ensures Valid() && OnlyPayloadsChanged()
      ensures old(head).None? ==> !committed && restored == [] && posted == [] && nodes == old(nodes)
      ensures old(head).Some? ==>
        var p := Process(old(nodes), ChainBatches(old(nodes), Chains, Top, None, bh, 0), dh);
        nodes == p.nodes && committed == p.committed && restored == p.restored && posted == p.posted
    {
      if head.None? {
        return false, [], [];
      }
      WfForwardLinked(nodes, effects, head, tail, effect, Top, Chains, Owner);
      var processed;
      processed, committed, restored, posted := ProcessChain(nodes, effects, Chains, head.value, Top, bh, dh);
      ghost var before := nodes;
      nodes := processed;
      SameShapeKeepsWf(before, nodes, effects, head, tail, effect, Top, Chains, Owner);
    }
  }
}
