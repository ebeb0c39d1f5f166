/**
 The effect registry of the LED-strip simulator: the pixel count shared by
 every generator, colours and frames, the fifteen generator instances the
 program declares (each built lazily, on its first use), and the dispatch
 from a selection index to one of them.
 */
module Effects {

  /** Number of pixels on the simulated strip; every generator is built with it. */
  const COUNT: nat := 55

  /** Number of entries in the dispatch table (indices 0 to 14). */
  const REGISTRY_SIZE: nat := 15

  /** An 8-bit colour channel (the library's `u8`). */
  newtype Byte = x: int | 0 <= x < 256

  /** An sRGB colour with 8-bit channels. */
  datatype Color = Color(red: Byte, green: Byte, blue: Byte)

  /** One frame: the colour of every pixel, left to right. */
  type Frame = seq<Color>

  /**
   The fifteen generator instances. Twinkle and Sparkle are two instances
   of the same library type built with different parameters; each has its
   own state.
   */
  datatype EffectId =
    | Bounce | Rainbow | Breathe | Cycle | Fire | Meteor | RunningLights
    | Cylon | Timer | Twinkle | Sparkle | SnowSparkle | Wipe | Christmas
    | Collision

  /**
   The generators themselves, seen from outside: `frames(e, n)` is the frame
   that the `n`-th call (counting from 0) of `next()` on instance `e` returns.
   A total function stands for a generator that never runs out of frames.
   */
  type Generators = (EffectId, nat) -> Frame

  /** The library's promise: every frame has exactly one colour per pixel. */
  ghost predicate FixedLength(frames: Generators)
  {
    forall e: EffectId, n: nat :: |frames(e, n)| == COUNT
  }

  /**
   The dispatch of `get_effect`: indices 0 to 14 each name one instance,
   every other index falls back to Bounce.
   */
  function Resolve(i: nat): (e: EffectId)
  {
    match i
    case 0 => Bounce
    case 1 => Rainbow
    case 2 => Breathe
    case 3 => Cycle
    case 4 => Fire
    case 5 => Meteor
    case 6 => RunningLights
    case 7 => Cylon
    case 8 => Timer
    case 9 => Twinkle
    case 10 => Sparkle
    case 11 => SnowSparkle
    case 12 => Wipe
    case 13 => Christmas
    case 14 => Collision
    case _ => Bounce
  }

  /** The table entry of an instance: every instance has one, inside the table. */
  function Ordinal(e: EffectId): (i: nat)
    ensures i < REGISTRY_SIZE
    ensures Resolve(i) == e
  {
    match e
    case Bounce => 0
    case Rainbow => 1
    case Breathe => 2
    case Cycle => 3
    case Fire => 4
    case Meteor => 5
    case RunningLights => 6
    case Cylon => 7
    case Timer => 8
    case Twinkle => 9
    case Sparkle => 10
    case SnowSparkle => 11
    case Wipe => 12
    case Christmas => 13
    case Collision => 14
  }

  /** Inside the table, the entry of the resolved instance is the index itself. */
  lemma OrdinalOfResolve(i: nat)
    requires i < REGISTRY_SIZE
    ensures Ordinal(Resolve(i)) == i
  {
  }

  /** The fifteen table entries name fifteen different instances. */
  lemma ResolveInjective(i: nat, j: nat)
    requires i < REGISTRY_SIZE && j < REGISTRY_SIZE
    ensures Resolve(i) == Resolve(j) <==> i == j
  {
  }

  /** Every index past the table resolves to the instance of index 0. */
  lemma ResolveFallback(i: nat)
    requires i >= REGISTRY_SIZE
    ensures Resolve(i) == Resolve(0) == Bounce
  {
  }

  /** Bounce is reached from index 0 and from every index past the table, and from nothing else. */
  lemma ResolveBounce(i: nat)
    ensures Resolve(i) == Bounce <==> i == 0 || i >= REGISTRY_SIZE
  {
  }
}
