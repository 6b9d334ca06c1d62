/**
 * The side effect a block change runs while the world may be ticking its block
 * entities: when the world is in the middle of updating them, every pending
 * block entity proposed at the changed position is marked removed and dropped
 * from the pending list, and the block entity that was at the position is put
 * back on the world's block-entity list.
 */
module RemoveProposedTileEntitiesEffect {
  import opened Seqs

  datatype BlockPos = BlockPos(x: int, y: int, z: int)

  /** The two results this effect produces: stop the pipeline here, or let the next effect run. */
  datatype EffectResult = NullReturn | NullPass

  class BlockEntity {
    const pos: BlockPos
    var removed: bool

    constructor (pos: BlockPos)
      ensures this.pos == pos && !removed
    {
      this.pos := pos;
      removed := false;
    }

    /** setRemoved */
    method SetRemoved()
      modifies this
      ensures removed
    {
      removed := true;
    }
  }

  /** The parts of the server level the effect reads and changes. */
  class ServerLevel {
    var updatingBlockEntities: bool
    var pending: seq<BlockEntity>
    var blockEntityList: seq<BlockEntity>

    constructor (updating: bool, pending: seq<BlockEntity>, list: seq<BlockEntity>)
      ensures updatingBlockEntities == updating && this.pending == pending && blockEntityList == list
    {
      updatingBlockEntities := updating;
      this.pending := pending;
      blockEntityList := list;
    }
  }

  /** A block entity proposed somewhere other than `pos`. */
  function AwayFrom(pos: BlockPos): BlockEntity -> bool
  {
    (e: BlockEntity) => e.pos != pos
  }

  /** The pending list once the entries at `pos` are taken out, the others in their order. */
  function Kept(pending: seq<BlockEntity>, pos: BlockPos): seq<BlockEntity>
  {
    Filter(pending, AwayFrom(pos))
  }

  /** What the sweep leaves holds nothing at `pos`. */
  lemma {:induction false} KeptClearsPosition(pending: seq<BlockEntity>, pos: BlockPos)
    ensures forall k :: 0 <= k < |Kept(pending, pos)| ==> Kept(pending, pos)[k].pos != pos
  {
    forall k | 0 <= k < |Kept(pending, pos)| ensures Kept(pending, pos)[k].pos != pos {
      FilterMembership(pending, AwayFrom(pos), Kept(pending, pos)[k]);
    }
  }

  /** An entry survives the sweep exactly when it was pending and is not at `pos`. */
  lemma {:induction false} KeptMembership(pending: seq<BlockEntity>, pos: BlockPos, e: BlockEntity)
    ensures e in Kept(pending, pos) <==> e in pending && e.pos != pos
  {
    FilterMembership(pending, AwayFrom(pos), e);
  }

  /** With nothing pending at `pos`, the sweep keeps the whole list as it is. */
  lemma {:induction false} KeptNothingAt(pending: seq<BlockEntity>, pos: BlockPos)
    requires forall k :: 0 <= k < |pending| ==> pending[k].pos != pos
    ensures Kept(pending, pos) == pending
  {
    if pending != [] {
      KeptNothingAt(pending[1..], pos);
    }
  }

  /** Sweeping twice is sweeping once. */
  lemma {:induction false} KeptIdempotent(pending: seq<BlockEntity>, pos: BlockPos)
    ensures Kept(Kept(pending, pos), pos) == Kept(pending, pos)
  {
    KeptClearsPosition(pending, pos);
    KeptNothingAt(Kept(pending, pos), pos);
  }

  /** The sweep of a concatenation is the concatenation of the sweeps: it never reorders entries. */
  lemma {:induction false} KeptAppend(a: seq<BlockEntity>, b: seq<BlockEntity>, pos: BlockPos)
    ensures Kept(a + b, pos) == Kept(a, pos) + Kept(b, pos)
  {
    FilterAppend(a, b, AwayFrom(pos));
  }

  /**
   * processSideEffect: a missing or already removed block entity ends the
   * pipeline with nothing changed; outside block-entity updating the next
   * effect runs with nothing changed; during updating, the pending entries at
   * `pos` are marked removed and taken out in place, and the old block entity
   * is appended to the block-entity list.
   */
  method ProcessSideEffect(level: ServerLevel, tileEntity: BlockEntity?, pos: BlockPos) returns (r: EffectResult)
    modifies level, level.pending
    ensures tileEntity == null || old(tileEntity.removed) ==>
      r == NullReturn && unchanged(level) && unchanged(old(level.pending))
    ensures tileEntity != null && !old(tileEntity.removed) && !old(level.updatingBlockEntities) ==>
      r == NullPass && unchanged(level) && unchanged(old(level.pending))
    ensures tileEntity != null && !old(tileEntity.removed) && old(level.updatingBlockEntities) ==>
      && r == NullReturn
      && level.updatingBlockEntities
      && level.pending == Kept(old(level.pending), pos)
      && level.blockEntityList == old(level.blockEntityList) + [tileEntity]
      && forall e :: e in old(level.pending) ==> e.removed == (old(e.removed) || e.pos == pos)
  {
    if tileEntity == null || tileEntity.removed {
      return NullReturn;
    }
    if !level.updatingBlockEntities {
      return NullPass;
    }
    ghost var original := level.pending;
    var i := 0;
    ghost var j := 0;
    while i < |level.pending|
      invariant 0 <= i <= |level.pending| && 0 <= j <= |original|
      invariant level.pending[..i] == Kept(original[..j], pos)
      invariant level.pending[i..] == original[j..]
      invariant level.updatingBlockEntities && level.blockEntityList == old(level.blockEntityList)
      invariant forall k :: 0 <= k < |original| ==>
        original[k].removed == (old(original[k].removed) || (original[k].pos == pos && original[k] in original[..j]))
      decreases |level.pending| - i
    {
      var entry := level.pending[i];
      assert entry == original[j];
      assert original[..j + 1] == original[..j] + [entry];
      KeptAppend(original[..j], [entry], pos);
      assert Kept([entry], pos) == if entry.pos == pos then [] else [entry] by {
        assert [entry][1..] == [];
      }
      if entry.pos == pos {
        entry.SetRemoved();
        ghost var before := level.pending;
        level.pending := level.pending[..i] + level.pending[i + 1..];
        assert level.pending[..i] == before[..i] && level.pending[i..] == before[i + 1..];
      } else {
        i := i + 1;
      }
      j := j + 1;
    }
    assert original[..j] == original;
    level.blockEntityList := level.blockEntityList + [tileEntity];
    r := NullReturn;
  }
}
