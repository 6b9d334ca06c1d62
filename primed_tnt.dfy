/**
 * The lit TNT entity's fuse and blast state: how many ticks of fuse remain
 * (`life`), how long a full fuse lasts, the blast radius, who lit it, and the
 * checks made when it primes and when it explodes.
 */
module PrimedTntMixin {
  import opened Wrappers

  /** A Java `int`. */
  newtype int32 = x: int | -0x8000_0000 <= x < 0x8000_0000

  /** Java `int` subtraction: the exact difference wrapped into 32 bits. */
  function Sub32(a: int32, b: int32): (r: int32)
    ensures -0x8000_0000 <= a as int - b as int < 0x8000_0000 ==> r as int == a as int - b as int
    ensures (r as int - (a as int - b as int)) % 0x1_0000_0000 == 0
  {
    var d := a as int - b as int;
    if d < -0x8000_0000 then (d + 0x1_0000_0000) as int32
    else if d >= 0x8000_0000 then (d - 0x1_0000_0000) as int32
    else d as int32
  }

  /** The radius a lit TNT explodes with unless told otherwise. */
  const DefaultExplosionRadius: int32 := 4
  /** The ticks of a full fuse unless told otherwise. */
  const DefaultFuseDuration: int32 := 80

  /** How an explosion treats blocks, in declaration order (the order the ordinals follow). */
  datatype BlockInteraction = NONE | BREAK | DESTROY

  function Ordinal(mode: BlockInteraction): nat
  {
    match mode
    case NONE => 0
    case BREAK => 1
    case DESTROY => 2
  }

  /** The parts of the explosion the TNT decides: its radius, the smoke and the block breaking. */
  datatype ExplosionSettings = ExplosionSettings(radius: int32, playSmoke: bool, breakBlocks: bool)

  /** What is on the cause stack when the prime event is posted: the detonator, if any, then the TNT. */
  datatype Cause<L> = Detonator(entity: L) | ThisTnt

  /** A lit TNT entity; `L` stands for the living entity that lit it. */
  class PrimedTnt<L> {
    var life: int32
    var removed: bool
    var detonator: Option<L>
    var explosionRadius: int32
    var fuseDuration: int32
    /** Whether the entity lives in a client-side level. */
    const isClientSide: bool

    constructor (life: int32, isClientSide: bool)
      ensures this.life == life && this.isClientSide == isClientSide && !removed && detonator.None?
      ensures explosionRadius == DefaultExplosionRadius && fuseDuration == DefaultFuseDuration
    {
      this.life := life;
      this.isClientSide := isClientSide;
      removed := false;
      detonator := Option.None;
      explosionRadius := DefaultExplosionRadius;
      fuseDuration := DefaultFuseDuration;
    }

    /** bridge$setDetonator */
    method SetDetonator(entity: L)
      modifies this
      ensures detonator == Some(entity)
      ensures life == old(life) && removed == old(removed)
      ensures explosionRadius == old(explosionRadius) && fuseDuration == old(fuseDuration)
    {
      detonator := Some(entity);
    }

    /** bridge$isExploding: the entity is gone and its fuse has run out. */
    function IsExploding(): (r: bool)
      reads this
      ensures r <==> removed && life <= 0
    {
      removed && life <= 0
    }

    /** bridge$getExplosionRadius: always present. */
    function GetExplosionRadius(): (r: Option<int32>)
      reads this
      ensures r.Some? && r.value == explosionRadius
    {
      Some(explosionRadius)
    }

    /** bridge$setExplosionRadius: no radius stands for the default one. */
    method SetExplosionRadius(radius: Option<int32>)
      modifies this
      ensures radius.None? ==> explosionRadius == DefaultExplosionRadius
      ensures radius.Some? ==> explosionRadius == radius.value
      ensures GetExplosionRadius().Some?
      ensures life == old(life) && removed == old(removed) && detonator == old(detonator)
      ensures fuseDuration == old(fuseDuration)
    {
      explosionRadius := if radius.None? then DefaultExplosionRadius else radius.value;
    }

    /** bridge$getFuseDuration */
    function GetFuseDuration(): (r: int32)
      reads this
      ensures r == fuseDuration
    {
      fuseDuration
    }

    /** bridge$setFuseDuration */
    method SetFuseDuration(ticks: int32)
      modifies this
      ensures GetFuseDuration() == ticks
      ensures life == old(life) && removed == old(removed) && detonator == old(detonator)
      ensures explosionRadius == old(explosionRadius)
    {
      fuseDuration := ticks;
    }

    /** bridge$getFuseTicksRemaining */
    function GetFuseTicksRemaining(): (r: int32)
      reads this
      ensures r == life
    {
      life
    }

    /** bridge$setFuseTicksRemaining */
    method SetFuseTicksRemaining(ticks: int32)
      modifies this
      ensures GetFuseTicksRemaining() == ticks
      ensures IsExploding() <==> removed && ticks <= 0
      ensures removed == old(removed) && detonator == old(detonator)
      ensures explosionRadius == old(explosionRadius) && fuseDuration == old(fuseDuration)
    {
      life := ticks;
    }

    /** The tick-end check of impl$updateTNTPushPrime: one tick into a full fuse, on the server. */
    predicate PrimesNow()
      reads this
    {
      life == Sub32(fuseDuration, 1) && !isClientSide
    }

    /**
     * impl$updateTNTPushPrime: when the TNT primes now, the prime event is
     * posted with the detonator (if any) and then the TNT on the cause stack;
     * otherwise nothing is posted. The entity's fields do not change.
     */
    method UpdatePushPrime() returns (posted: Option<seq<Cause<L>>>)
      ensures posted.Some? <==> !isClientSide && life == Sub32(fuseDuration, 1)
      ensures posted.Some? && detonator.None? ==> posted.value == [ThisTnt]
      ensures posted.Some? && detonator.Some? ==> posted.value == [Detonator(detonator.value), ThisTnt]
    {
      if PrimesNow() {
        var causes: seq<Cause<L>> := [];
        if detonator.Some? {
          causes := causes + [Detonator(detonator.value)];
        }
        causes := causes + [ThisTnt];
        return Some(causes);
      }
      return Option.None;
    }

    /** The settings impl$useSpongeExplosion builds for `mode`: the stored radius, smoke and breaking past NONE. */
    function Explosion(mode: BlockInteraction): (e: ExplosionSettings)
      reads this
      ensures e.radius == explosionRadius
      ensures e.playSmoke == e.breakBlocks
      ensures e.breakBlocks <==> mode != NONE
    {
      var pastNone := Ordinal(mode) > Ordinal(NONE);
      ExplosionSettings(explosionRadius, pastNone, pastNone)
    }
  }
}
