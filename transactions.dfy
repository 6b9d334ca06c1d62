/**
 * The records of the transaction engine and the shape invariant of its chains.
 *
 * The Java engine links `GameTransaction` objects with intrusive `previous`/`next`
 * references. Here the heap is an arena: a transaction is addressed by its index
 * (its handle) in a `seq<Node<T>>`, and handles are handed out in allocation order.
 * Every chain is described twice: by the links stored in the nodes, and by a ghost
 * sequence of handles; `Linked` ties the two together.
 */
module Transactions {
  import opened Wrappers
  import opened Seqs

  /** Index of a transaction in the arena. */
  type Handle = nat

  /**
   * A GameTransaction: its kind-specific payload, the intrusive links, the
   * cancellation flag and the side effects (indices of side-effect chains) it owns.
   */
  datatype Node<T> = Node(
    payload: T,
    previous: Option<Handle>,
    next: Option<Handle>,
    cancelled: bool,
    sideEffects: seq<nat>)

  /** The processing step a nested chain was opened for. */
  datatype ProcessKind = PrepareBlockDrops | EntityPerformingDrops | OtherProcess(id: nat)

  /** A ResultingTransactionBySideEffect: the step it records, and the head and tail of its own chain. */
  datatype SideEffect = SideEffect(effect: ProcessKind, head: Option<Handle>, tail: Option<Handle>)

  /**
   * The EffectTransactor handed out by pushEffect: the pushed side effect, the
   * transaction it was attached to and the side effect that was active before.
   */
  datatype Transactor = Transactor(effect: nat, parent: Handle, previousEffect: Option<nat>)

  /**
   * An EventByTransaction: the transactions of one generated event, the deciding
   * transaction that generated it and, for a nested chain, the parent transaction.
   */
  datatype Batch = Batch(members: seq<Handle>, decider: Handle, parent: Option<Handle>)

  /** The transactions of each batch. */
  function MembersOf(bs: seq<Batch>): (ms: seq<seq<Handle>>)
    ensures |ms| == |bs| && forall k :: 0 <= k < |bs| ==> ms[k] == bs[k].members
  {
    seq(|bs|, k requires 0 <= k < |bs| => bs[k].members)
  }

  lemma {:induction false} MembersOfCons(b: Batch, bs: seq<Batch>)
    ensures MembersOf([b] + bs) == [b.members] + MembersOf(bs)
  {
    var l, r := MembersOf([b] + bs), [b.members] + MembersOf(bs);
    forall k | 0 <= k < |l| ensures l[k] == r[k] {
      if k > 0 {
        assert ([b] + bs)[k] == bs[k - 1];
      }
    }
  }

  /** Every batch has transactions, and every handle it mentions is allocated. */
  ghost predicate BatchesWithin(bs: seq<Batch>, n: nat)
  {
    forall k :: 0 <= k < |bs| ==> BatchWithin(bs[k], n)
  }

  /** A batch has transactions, and every handle it mentions is below `n`. */
  ghost predicate BatchWithin(b: Batch, n: nat)
  {
    && b.members != []
    && (forall j :: 0 <= j < |b.members| ==> b.members[j] < n)
    && b.decider < n
    && (b.parent.Some? ==> b.parent.value < n)
  }


  /**
   * `c` is the chain whose head and tail references are `first` and `last`:
   * its transactions were appended with owner `o` (-1 for the top level, the
   * side-effect index otherwise), handles strictly increase along it, its ends
   * have null links and consecutive transactions point at each other.
   */
  ghost predicate Linked<T>(nodes: seq<Node<T>>, owner: seq<int>, c: seq<Handle>,
                            first: Option<Handle>, last: Option<Handle>, o: int)
  {
    && |owner| == |nodes|
    && (forall k :: 0 <= k < |c| ==> c[k] < |nodes| && owner[c[k]] == o)
    && Increasing(c)
    && (c == [] ==> first == None && last == None)
    && (c != [] ==> first == Some(c[0]) && last == Some(c[|c| - 1])
                    && nodes[c[0]].previous == None && nodes[c[|c| - 1]].next == None)
    && (forall k :: 0 <= k < |c| - 1 ==>
          nodes[c[k]].next == Some(c[k + 1]) && nodes[c[k + 1]].previous == Some(c[k]))
  }

  /**
   * Side effects name existing chains, and every transaction of a side-effect
   * chain was allocated after the transaction that owns the side effect.
   */
  ghost predicate Nested<T>(nodes: seq<Node<T>>, chains: seq<seq<Handle>>)
  {
    && (forall h, j :: 0 <= h < |nodes| && 0 <= j < |nodes[h].sideEffects| ==>
          nodes[h].sideEffects[j] < |chains|)
    && (forall h, j, k ::
          (0 <= h < |nodes| && 0 <= j < |nodes[h].sideEffects|
           && 0 <= k < |chains[nodes[h].sideEffects[j]]|) ==>
          h < chains[nodes[h].sideEffects[j]][k] < |nodes|)
  }

  /** The whole-supplier invariant over the arena, the side effects and the ghost chains. */
  ghost predicate Wf<T>(nodes: seq<Node<T>>, effects: seq<SideEffect>,
                        head: Option<Handle>, tail: Option<Handle>, effect: Option<nat>,
                        top: seq<Handle>, chains: seq<seq<Handle>>, owner: seq<int>)
  {
    && |chains| == |effects|
    && |owner| == |nodes|
    && Linked(nodes, owner, top, head, tail, -1)
    && (forall e :: 0 <= e < |effects| ==>
          Linked(nodes, owner, chains[e], effects[e].head, effects[e].tail, e))
    && (effect.Some? ==> effect.value < |effects|)
    && Nested(nodes, chains)
    && (forall h :: 0 <= h < |nodes| ==> Increasing(nodes[h].sideEffects))
  }

  /** Two arenas that differ at most in payloads and cancellation flags. */
  ghost predicate SameShape<T>(a: seq<Node<T>>, b: seq<Node<T>>)
  {
    && |a| == |b|
    && forall h :: 0 <= h < |a| ==>
         a[h].previous == b[h].previous && a[h].next == b[h].next
         && a[h].sideEffects == b[h].sideEffects
  }

  /** The arena after a fresh transaction carrying `tx` is linked after `last`. */
  function LinkAfter<T>(nodes: seq<Node<T>>, last: Option<Handle>, tx: T): (r: seq<Node<T>>)
    requires last.Some? ==> last.value < |nodes|
    ensures |r| == |nodes| + 1
    ensures r[|nodes|] == Node(tx, last, None, false, [])
    ensures last.Some? ==> r[last.value].next == Some(|nodes|)
    ensures forall h :: 0 <= h < |nodes| && Some(h) != last ==> r[h] == nodes[h]
    ensures forall h :: 0 <= h < |nodes| ==> r[h].sideEffects == nodes[h].sideEffects
  {
    (if last.Some? then nodes[last.value := nodes[last.value].(next := Some(|nodes|))] else nodes)
      + [Node(tx, last, None, false, [])]
  }

  lemma {:induction false} LinkedFrame<T>(nodes: seq<Node<T>>, owner: seq<int>, nodes': seq<Node<T>>, owner': seq<int>,
                       c: seq<Handle>, first: Option<Handle>, last: Option<Handle>, o: int)
    requires Linked(nodes, owner, c, first, last, o)
    requires |nodes| <= |nodes'| && |owner'| == |nodes'|
    requires forall k :: 0 <= k < |c| ==>
      nodes'[c[k]].previous == nodes[c[k]].previous && nodes'[c[k]].next == nodes[c[k]].next
      && owner'[c[k]] == owner[c[k]]
    ensures Linked(nodes', owner', c, first, last, o)
  {
  }

  lemma {:induction false} LinkedAppend<T>(nodes: seq<Node<T>>, owner: seq<int>, c: seq<Handle>,
                        first: Option<Handle>, last: Option<Handle>, o: int, tx: T)
    requires Linked(nodes, owner, c, first, last, o)
    ensures Linked(LinkAfter(nodes, last, tx), owner + [o], c + [|nodes|],
                   if c == [] then Some(|nodes|) else first, Some(|nodes|), o)
  {
    var n := |nodes|;
    var nodes' := LinkAfter(nodes, last, tx);
    var c' := c + [n];
    forall k | 0 <= k < |c'| - 1
      ensures nodes'[c'[k]].next == Some(c'[k + 1]) && nodes'[c'[k + 1]].previous == Some(c'[k])
    {
      if k < |c| - 1 {
        assert c[k] != c[|c| - 1];
      }
    }
  }

  /** A transaction linked after the top-level tail keeps the invariant and extends the top chain. */
  lemma {:induction false} AppendTopKeepsWf<T>(nodes: seq<Node<T>>, effects: seq<SideEffect>,
                            head: Option<Handle>, tail: Option<Handle>, effect: Option<nat>,
                            top: seq<Handle>, chains: seq<seq<Handle>>, owner: seq<int>, tx: T)
    requires Wf(nodes, effects, head, tail, effect, top, chains, owner)
    ensures tail.Some? ==> tail.value < |nodes|
    ensures Wf(LinkAfter(nodes, tail, tx), effects, if top == [] then Some(|nodes|) else head,
               Some(|nodes|), effect, top + [|nodes|], chains, owner + [-1])
  {
    var n := |nodes|;
    var nodes' := LinkAfter(nodes, tail, tx);
    var owner' := owner + [-1];
    LinkedAppend(nodes, owner, top, head, tail, -1, tx);
    OtherChainsStayLinked(nodes, owner, effects, chains, -1, nodes', owner');
    AppendKeepsSideEffects(nodes, chains, tail, tx);
  }

  /** Linking a fresh transaction, which has no side effects, keeps the side-effect structure. */
  lemma {:induction false} AppendKeepsSideEffects<T>(nodes: seq<Node<T>>, chains: seq<seq<Handle>>, last: Option<Handle>, tx: T)
    requires Nested(nodes, chains) && (forall h :: 0 <= h < |nodes| ==> Increasing(nodes[h].sideEffects))
    requires last.Some? ==> last.value < |nodes|
    ensures Nested(LinkAfter(nodes, last, tx), chains)
    ensures forall h :: 0 <= h < |nodes| + 1 ==> Increasing(LinkAfter(nodes, last, tx)[h].sideEffects)
  {
    var nodes' := LinkAfter(nodes, last, tx);
    forall h | 0 <= h < |nodes'| ensures Increasing(nodes'[h].sideEffects) {
      if h < |nodes| {
        assert nodes'[h].sideEffects == nodes[h].sideEffects;
      }
    }
  }

  /** A transaction linked after the tail of side effect `e` keeps the invariant and extends that chain. */
  lemma {:induction false} AppendEffectKeepsWf<T>(nodes: seq<Node<T>>, effects: seq<SideEffect>,
                               head: Option<Handle>, tail: Option<Handle>, effect: Option<nat>,
                               top: seq<Handle>, chains: seq<seq<Handle>>, owner: seq<int>,
                               e: nat, tx: T)
    requires Wf(nodes, effects, head, tail, effect, top, chains, owner)
    requires e < |effects|
    ensures effects[e].tail.Some? ==> effects[e].tail.value < |nodes|
    ensures Wf(LinkAfter(nodes, effects[e].tail, tx),
               effects[e := effects[e].(head := if chains[e] == [] then Some(|nodes|) else effects[e].head,
                                       tail := Some(|nodes|))],
               head, tail, effect, top, chains[e := chains[e] + [|nodes|]], owner + [e])
  {
    var n := |nodes|;
    var last := effects[e].tail;
    assert Linked(nodes, owner, chains[e], effects[e].head, last, e);
    var nodes' := LinkAfter(nodes, last, tx);
    var owner' := owner + [e];
    var effects' := effects[e := effects[e].(head := if chains[e] == [] then Some(n) else effects[e].head,
                                            tail := Some(n))];
    var chains' := chains[e := chains[e] + [n]];
    LinkedAppend(nodes, owner, chains[e], effects[e].head, last, e, tx);
    LinkedFrame(nodes, owner, nodes', owner', top, head, tail, -1);
    OtherChainsStayLinked(nodes, owner, effects, chains, e, nodes', owner');
    forall f | 0 <= f < |effects'|
      ensures Linked(nodes', owner', chains'[f], effects'[f].head, effects'[f].tail, f)
    {
      if f != e {
        assert chains'[f] == chains[f] && effects'[f] == effects[f];
      }
    }
    AppendKeepsNested(nodes, chains, last, tx, e);
    AppendKeepsSideEffects(nodes, chains, last, tx);
  }

  /** Relinking only transactions of chain `e` leaves every other side-effect chain linked as it was. */
  lemma {:induction false} OtherChainsStayLinked<T>(nodes: seq<Node<T>>, owner: seq<int>, effects: seq<SideEffect>,
                                 chains: seq<seq<Handle>>, e: int, nodes': seq<Node<T>>, owner': seq<int>)
    requires |chains| == |effects|
    requires forall f :: 0 <= f < |effects| ==>
      Linked(nodes, owner, chains[f], effects[f].head, effects[f].tail, f)
    requires |nodes| <= |nodes'| && |owner'| == |nodes'| && |owner| == |nodes|
    requires forall h :: 0 <= h < |nodes| && owner[h] != e ==>
      nodes'[h].previous == nodes[h].previous && nodes'[h].next == nodes[h].next && owner'[h] == owner[h]
    ensures forall f :: 0 <= f < |effects| && f != e ==>
      Linked(nodes', owner', chains[f], effects[f].head, effects[f].tail, f)
  {
    forall f | 0 <= f < |effects| && f != e
      ensures Linked(nodes', owner', chains[f], effects[f].head, effects[f].tail, f)
    {
      assert Linked(nodes, owner, chains[f], effects[f].head, effects[f].tail, f);
      LinkedFrame(nodes, owner, nodes', owner', chains[f], effects[f].head, effects[f].tail, f);
    }
  }

  /** Linking a fresh transaction into chain `e` keeps every chain's transactions after their owner. */
  lemma {:induction false} AppendKeepsNested<T>(nodes: seq<Node<T>>, chains: seq<seq<Handle>>, last: Option<Handle>, tx: T, e: nat)
    requires Nested(nodes, chains) && e < |chains|
    requires last.Some? ==> last.value < |nodes|
    ensures Nested(LinkAfter(nodes, last, tx), chains[e := chains[e] + [|nodes|]])
  {
    var n := |nodes|;
    var nodes' := LinkAfter(nodes, last, tx);
    var chains' := chains[e := chains[e] + [n]];
    forall h, j, k | 0 <= h < |nodes'| && 0 <= j < |nodes'[h].sideEffects|
        && 0 <= k < |chains'[nodes'[h].sideEffects[j]]|
      ensures h < chains'[nodes'[h].sideEffects[j]][k] < |nodes'|
    {
      assert h < n;
      var s := nodes[h].sideEffects[j];
      if s == e && k == |chains[e]| {
      } else {
        assert chains'[s][k] == chains[s][k];
      }
    }
  }

  /** Attaching a fresh, empty side effect to transaction `p` and activating it keeps the invariant. */
  lemma {:induction false} PushKeepsWf<T>(nodes: seq<Node<T>>, effects: seq<SideEffect>,
                       head: Option<Handle>, tail: Option<Handle>, effect: Option<nat>,
                       top: seq<Handle>, chains: seq<seq<Handle>>, owner: seq<int>,
                       p: Handle, kind: ProcessKind)
    requires Wf(nodes, effects, head, tail, effect, top, chains, owner)
    requires p < |nodes|
    ensures Wf(nodes[p := nodes[p].(sideEffects := nodes[p].sideEffects + [|effects|])],
               effects + [SideEffect(kind, None, None)], head, tail, Some(|effects|),
               top, chains + [[]], owner)
  {
    var m := |effects|;
    var nodes' := nodes[p := nodes[p].(sideEffects := nodes[p].sideEffects + [m])];
    var effects' := effects + [SideEffect(kind, None, None)];
    var chains' := chains + [[]];
    LinkedFrame(nodes, owner, nodes', owner, top, head, tail, -1);
    forall e | 0 <= e < |effects'|
      ensures Linked(nodes', owner, chains'[e], effects'[e].head, effects'[e].tail, e)
    {
      if e < m {
        assert Linked(nodes, owner, chains[e], effects[e].head, effects[e].tail, e);
        LinkedFrame(nodes, owner, nodes', owner, chains[e], effects[e].head, effects[e].tail, e);
      }
    }
    forall h, j, k | 0 <= h < |nodes'| && 0 <= j < |nodes'[h].sideEffects|
        && 0 <= k < |chains'[nodes'[h].sideEffects[j]]|
      ensures h < chains'[nodes'[h].sideEffects[j]][k] < |nodes'|
    {
      if h == p && j == |nodes[p].sideEffects| {
      } else {
        assert nodes'[h].sideEffects[j] == nodes[h].sideEffects[j];
      }
    }
    assert Increasing(nodes'[p].sideEffects) by {
      forall j, k | 0 <= j < k < |nodes'[p].sideEffects|
        ensures nodes'[p].sideEffects[j] < nodes'[p].sideEffects[k]
      {
        if k == |nodes[p].sideEffects| {
          assert nodes[p].sideEffects[j] < |chains|;
        }
      }
    }
  }

  /** Changing only payloads and cancellation flags keeps the invariant. */
  lemma {:induction false} SameShapeKeepsWf<T>(nodes: seq<Node<T>>, nodes': seq<Node<T>>, effects: seq<SideEffect>,
                            head: Option<Handle>, tail: Option<Handle>, effect: Option<nat>,
                            top: seq<Handle>, chains: seq<seq<Handle>>, owner: seq<int>)
    requires Wf(nodes, effects, head, tail, effect, top, chains, owner)
    requires SameShape(nodes, nodes')
    ensures Wf(nodes', effects, head, tail, effect, top, chains, owner)
  {
    LinkedFrame(nodes, owner, nodes', owner, top, head, tail, -1);
    forall e | 0 <= e < |effects|
      ensures Linked(nodes', owner, chains[e], effects[e].head, effects[e].tail, e)
    {
      assert Linked(nodes, owner, chains[e], effects[e].head, effects[e].tail, e);
      LinkedFrame(nodes, owner, nodes', owner, chains[e], effects[e].head, effects[e].tail, e);
    }
  }
}
