/**
 * A holder of custom data keeps it in a root NBT compound; its own data lives
 * in a sub-compound under a fixed key, created on first access.
 */
module DataCompoundHolder {
  /** The key of the sub-compound holding this platform's own data. */
  const SpongeData: string := "SpongeData"
  /** The NBT type id of a compound tag. */
  const TagCompound: int := 10

  /** The NBT type id of a tag that is not a compound (end, numbers, strings, lists, arrays). */
  type OtherTagId = id: int | 0 <= id <= 12 && id != TagCompound witness 1

  /** An NBT tag: a compound, held by reference, or a tag of another type. */
  datatype Tag = Compound(compound: CompoundTag) | Other(id: OtherTagId)

  function TypeId(t: Tag): int
  {
    match t
    case Compound(_) => TagCompound
    case Other(id) => id
  }

  /** A mutable NBT compound: its tags by key. */
  class CompoundTag {
    var tags: map<string, Tag>

    constructor ()
      ensures tags == map[]
    {
      tags := map[];
    }

    /** hasKey(key, type): a tag of that type is stored under `key`. */
    function HasKey(key: string, typeId: int): (r: bool)
      reads this
      ensures r <==> key in tags && TypeId(tags[key]) == typeId
    {
      key in tags && TypeId(tags[key]) == typeId
    }

    /** setTag: `key` now holds `t`, replacing whatever was there; other keys keep their tags. */
    method SetTag(key: string, t: Tag)
      modifies this
      ensures tags == old(tags)[key := t]
    {
      tags := tags[key := t];
    }

    /** getCompoundTag: the compound stored under `key`, or a fresh empty one when there is none. */
    method GetCompoundTag(key: string) returns (c: CompoundTag)
      ensures HasKey(key, TagCompound) ==> tags[key] == Compound(c)
      ensures !HasKey(key, TagCompound) ==> fresh(c) && c.tags == map[]
    {
      if HasKey(key, TagCompound) {
        return tags[key].compound;
      }
      c := new CompoundTag();
    }
  }

  /**
   * The root's tags once a compound is guaranteed under `key`: kept as they are
   * when one is there, otherwise with `created` stored under `key` in place of
   * whatever was there.
   */
  function EnsureCompound(tags: map<string, Tag>, key: string, created: CompoundTag): (r: map<string, Tag>)
    ensures key in r && r[key].Compound?
    ensures key in tags && tags[key].Compound? ==> r == tags
    ensures !(key in tags && tags[key].Compound?) ==> r[key] == Compound(created)
    ensures forall k :: k != key ==> (k in r <==> k in tags) && (k in r ==> r[k] == tags[k])
  {
    if key in tags && TypeId(tags[key]) == TagCompound then tags else tags[key := Compound(created)]
  }

  /** Guaranteeing the compound a second time changes nothing, whatever fresh compound is offered. */
  lemma {:induction false} EnsureCompoundIdempotent(tags: map<string, Tag>, key: string, created: CompoundTag, other: CompoundTag)
    ensures EnsureCompound(EnsureCompound(tags, key, created), key, other) == EnsureCompound(tags, key, created)
  {
    var once := EnsureCompound(tags, key, created);
    assert TypeId(once[key]) == TagCompound;
  }

  /**
   * data$getSpongeCompound: stores a fresh empty compound under the key unless a
   * compound is already there, then returns the compound stored under it.
   */
  method GetSpongeCompound(root: CompoundTag) returns (c: CompoundTag)
    modifies root
    ensures root.tags == EnsureCompound(old(root.tags), SpongeData, c)
    ensures root.tags[SpongeData] == Compound(c)
    ensures old(root.HasKey(SpongeData, TagCompound)) ==> root.tags == old(root.tags)
    ensures !old(root.HasKey(SpongeData, TagCompound)) ==> fresh(c) && c.tags == map[]
  {
    if !root.HasKey(SpongeData, TagCompound) {
      var created := new CompoundTag();
      root.SetTag(SpongeData, Compound(created));
    }
    c := root.GetCompoundTag(SpongeData);
  }
}
