/** Small sequence vocabulary shared by the batching, processing and removal models. */
module Seqs {

  /** Concatenation of a sequence of sequences, in order. */
  function Flatten<X>(ss: seq<seq<X>>): seq<X>
  {
    if ss == [] then [] else ss[0] + Flatten(ss[1..])
  }

  /** The elements of `s`, last first. */
  function Reverse<X>(s: seq<X>): (r: seq<X>)
    ensures |r| == |s|
  {
    if s == [] then [] else Reverse(s[1..]) + [s[0]]
  }

  /** The elements of `s` that satisfy `p`, in their original order. */
  function Filter<X>(s: seq<X>, p: X -> bool): seq<X>
  {
    if s == [] then [] else (if p(s[0]) then [s[0]] else []) + Filter(s[1..], p)
  }

  /** The position of the first element of `s` that satisfies `p`, or `|s|` when none does. */
  function FirstIndex<X>(s: seq<X>, p: X -> bool): (r: nat)
    ensures r <= |s|
    ensures r < |s| ==> p(s[r])
    ensures forall j :: 0 <= j < r ==> !p(s[j])
  {
    if s == [] then 0
    else if p(s[0]) then 0
    else 1 + FirstIndex(s[1..], p)
  }

  /** A suffix splits at any later point into two adjacent slices. */
  lemma {:induction false} SliceSplit<X>(s: seq<X>, i: nat, j: nat)
    requires i <= j <= |s|
    ensures s[i..] == s[i..j] + s[j..]
  {
    assert forall k :: 0 <= k < |s| - i ==> s[i..][k] == (s[i..j] + s[j..])[k];
  }

  /** Proof helper: concatenation is associative, as a step the solver is handed explicitly. */
  lemma {:induction false} AppendAssoc<X>(a: seq<X>, b: seq<X>, c: seq<X>)
    ensures (a + b) + c == a + (b + c)
  {
  }

  /** Proof helper: a prefix grows by its next element. */
  lemma {:induction false} PrefixSnoc<X>(s: seq<X>, k: nat)
    requires k < |s|
    ensures s[..k] + [s[k]] == s[..k + 1]
  {
  }

  lemma {:induction false} FlattenAppend<X>(a: seq<seq<X>>, b: seq<seq<X>>)
    ensures Flatten(a + b) == Flatten(a) + Flatten(b)
  {
    if a == [] {
      assert a + b == b;
    } else {
      assert (a + b)[1..] == a[1..] + b;
      FlattenAppend(a[1..], b);
    }
  }

  lemma {:induction false} ReverseAppend<X>(a: seq<X>, b: seq<X>)
    ensures Reverse(a + b) == Reverse(b) + Reverse(a)
  {
    if a == [] {
      assert a + b == b;
    } else {
      assert (a + b)[1..] == a[1..] + b;
      ReverseAppend(a[1..], b);
    }
  }

  lemma {:induction false} FilterAppend<X>(a: seq<X>, b: seq<X>, p: X -> bool)
    ensures Filter(a + b, p) == Filter(a, p) + Filter(b, p)
  {
    if a == [] {
      assert a + b == b;
    } else {
      var h := if p(a[0]) then [a[0]] else [];
      assert (a + b)[0] == a[0] && (a + b)[1..] == a[1..] + b;
      FilterAppend(a[1..], b, p);
      calc {
        Filter(a + b, p);
        h + Filter(a[1..] + b, p);
        h + (Filter(a[1..], p) + Filter(b, p));
        (h + Filter(a[1..], p)) + Filter(b, p);
      }
    }
  }

  lemma {:induction false} FilterNone<X>(s: seq<X>, p: X -> bool)
    requires forall k :: 0 <= k < |s| ==> !p(s[k])
    ensures Filter(s, p) == []
  {
    if s != [] {
      FilterNone(s[1..], p);
    }
  }

  /** An element is kept by `Filter` exactly when it occurs in the input and satisfies the predicate. */
  lemma {:induction false} FilterMembership<X>(s: seq<X>, p: X -> bool, x: X)
    ensures x in Filter(s, p) <==> x in s && p(x)
  {
    if s != [] {
      FilterMembership(s[1..], p, x);
    }
  }

  lemma {:induction false} ReverseMembership<X>(s: seq<X>, x: X)
    ensures x in Reverse(s) <==> x in s
  {
    if s != [] {
      ReverseMembership(s[1..], x);
    }
  }

  /** Drops the last element: `Reverse` seen from the end of its input. */
  lemma {:induction false} ReverseLast<X>(s: seq<X>)
    requires s != []
    ensures Reverse(s) == [s[|s| - 1]] + Reverse(s[..|s| - 1])
  {
    assert s == s[..|s| - 1] + [s[|s| - 1]];
    ReverseAppend(s[..|s| - 1], [s[|s| - 1]]);
    assert Reverse([s[|s| - 1]]) == [s[|s| - 1]] by {
      assert [s[|s| - 1]][1..] == [];
    }
  }

  lemma {:induction false} FlattenLast<X>(ss: seq<seq<X>>)
    requires ss != []
    ensures Flatten(ss) == Flatten(ss[..|ss| - 1]) + ss[|ss| - 1]
  {
    assert ss == ss[..|ss| - 1] + [ss[|ss| - 1]];
    FlattenAppend(ss[..|ss| - 1], [ss[|ss| - 1]]);
    assert Flatten([ss[|ss| - 1]]) == ss[|ss| - 1] by {
      assert [ss[|ss| - 1]][1..] == [];
    }
  }

  lemma {:induction false} FlattenMembership<X>(ss: seq<seq<X>>, k: nat, x: X)
    requires k < |ss| && x in ss[k]
    ensures x in Flatten(ss)
  {
    if k > 0 {
      FlattenMembership(ss[1..], k - 1, x);
    }
  }

  /** Strictly increasing sequence of handles: no repetitions, so no cycles. */
  ghost predicate Increasing(s: seq<nat>)
  {
    forall j, k :: 0 <= j < k < |s| ==> s[j] < s[k]
  }

  /** Filtering the reversal of `u + [a] + v` around a kept `a`. */
  lemma {:induction false} ReversedFilterAround<X>(u: seq<X>, a: X, v: seq<X>, p: X -> bool)
    requires p(a)
    ensures Filter(Reverse(u + [a] + v), p) == Filter(Reverse(v), p) + [a] + Filter(Reverse(u), p)
  {
    ReverseAppend(u + [a], v);
    ReverseAppend(u, [a]);
    assert Reverse([a]) == [a] by { assert [a][1..] == []; }
    FilterAppend(Reverse(v), [a] + Reverse(u), p);
    FilterAppend([a], Reverse(u), p);
    assert Filter([a], p) == [a] by { assert [a][1..] == []; }
  }

  /** Of two kept elements, reversing then filtering puts the later one first. */
  lemma {:induction false} ReversedFilterOrder<X>(x: seq<X>, a: X, y: seq<X>, b: X, z: seq<X>, p: X -> bool)
    requires p(a) && p(b)
    ensures Filter(Reverse(x + [a] + y + [b] + z), p)
            == Filter(Reverse(z), p) + [b] + Filter(Reverse(y), p) + [a] + Filter(Reverse(x), p)
  {
    var u := x + [a] + y;
    assert x + [a] + y + [b] + z == u + [b] + z;
    ReversedFilterAround(u, b, z, p);
    ReversedFilterAround(x, a, y, p);
  }

  /** The first hit in `a + b` is the first hit in `a`, or else `|a|` past the first hit in `b`. */
  lemma {:induction false} FirstIndexAppend<X>(a: seq<X>, b: seq<X>, p: X -> bool)
    ensures FirstIndex(a + b, p) == if FirstIndex(a, p) < |a| then FirstIndex(a, p) else |a| + FirstIndex(b, p)
  {
    if a == [] {
      assert a + b == b;
    } else {
      assert (a + b)[1..] == a[1..] + b;
      if !p(a[0]) {
        FirstIndexAppend(a[1..], b, p);
      }
    }
  }

  /** `k` is the first hit when everything before it misses and it hits (or is the end). */
  lemma FirstIndexIs<X>(s: seq<X>, p: X -> bool, k: nat)
    requires k <= |s|
    requires forall j :: 0 <= j < k ==> !p(s[j])
    requires k < |s| ==> p(s[k])
    ensures FirstIndex(s, p) == k
  {
  }
}
