/** Entities of the FX effect chain: render-target handles, effect configuration
    entries, the fixed order of the FX shader programs, the sparse handler table,
    symbolic buffer contents and the events recorded for each GPU call. */
module FxTypes {

  datatype Option<+T> = None | Some(value: T)

  /** The three render targets a chain evaluation borrows. Identity is by handle. */
  datatype Buf = B1 | B2 | B3

  /** A floating-point value of the configuration, kept symbolic. */
  datatype Scalar =
    | Num(n: int)                        // an integer written in the pipeline, such as the 0 of an offset
    | Tag(id: nat)                       // a value configured on the effect (strength, offset, colour)
    | PerExtent(extent: int, v: Scalar)  // (2 / extent) * v, bloom's normalised offset

  /** Blur quality; the numeric values 0, 1 and 2 of the configuration. */
  datatype Quality = Low | Medium | High

  function QualityIndex(q: Quality): nat {
    match q
    case Low => 0
    case Medium => 1
    case High => 2
  }

  /** Dimensions handed to an effect helper's uniform binding, when it receives them. */
  datatype Dims = Unsized | Sized(width: int, height: int)

  /** One effect's typed parameters. The six single-pass kinds carry an opaque tag
      standing for the settings their helper object binds as uniforms. */
  datatype Effect =
    | Glow(settings: nat)
    | Shadow(settings: nat)
    | Pixelate(settings: nat)
    | Vignette(settings: nat)
    | Shine(settings: nat)
    | Blur(quality: Quality, strength: Scalar, glcolor: Scalar, x: Scalar, y: Scalar, steps: int)
    | Gradient(settings: nat)
    | Bloom(blurStrength: Scalar, strength: Scalar, glcolor: Scalar,
            offsetX: Scalar, offsetY: Scalar, steps: int)

  /** One entry of a sprite's `fx` list. */
  datatype FxConfig = FxConfig(active: bool, effect: Effect)

  /** The sprite being drawn; `fx` is None when the sprite has no effect list. */
  datatype Sprite = Sprite(fx: Option<seq<FxConfig>>)

  datatype Kind = Glow | Shadow | Pixelate | Vignette | Shine | Blur | Gradient | Bloom

  function KindOf(e: Effect): Kind {
    match e
    case Glow(_) => Kind.Glow
    case Shadow(_) => Kind.Shadow
    case Pixelate(_) => Kind.Pixelate
    case Vignette(_) => Kind.Vignette
    case Shine(_) => Kind.Shine
    case Blur(_, _, _, _, _, _) => Kind.Blur
    case Gradient(_) => Kind.Gradient
    case Bloom(_, _, _, _, _, _) => Kind.Bloom
  }

  /** The fragment programs of the FX pipeline. */
  datatype Frag =
    | GlowFrag | ShadowFrag | PixelateFrag | VignetteFrag | ShineFrag
    | BlurLowFrag | BlurMedFrag | BlurHighFrag | GradientFrag | BloomFrag

  /** The FX programs in the order the pipeline registers them; the kind constants
      index this list, and blur's three qualities occupy three consecutive places. */
  const FxShaders: seq<Frag> :=
    [GlowFrag, ShadowFrag, PixelateFrag, VignetteFrag, ShineFrag,
     BlurLowFrag, BlurMedFrag, BlurHighFrag, GradientFrag, BloomFrag]

  /** The program an effect is meant to run, stated independently of any index. */
  function ProgramFor(e: Effect): Frag {
    match e
    case Glow(_) => GlowFrag
    case Shadow(_) => ShadowFrag
    case Pixelate(_) => PixelateFrag
    case Vignette(_) => VignetteFrag
    case Shine(_) => ShineFrag
    case Blur(q, _, _, _, _, _) =>
      (match q case Low => BlurLowFrag case Medium => BlurMedFrag case High => BlurHighFrag)
    case Gradient(_) => GradientFrag
    case Bloom(_, _, _, _, _, _) => BloomFrag
  }

  /** The kind constant of the effect framework. `base` is the index of the first FX
      program in the pipeline's shader list (the programs of the base pipeline come
      first); each constant is `base` plus its kind's position in FxShaders, and so
      lies within the FX programs (SelectedSlot states which program it names). */
  function FxConst(base: nat, k: Kind): (c: nat)
    ensures base <= c < base + |FxShaders|
  {
    match k
    case Glow => base
    case Shadow => base + 1
    case Pixelate => base + 2
    case Vignette => base + 3
    case Shine => base + 4
    case Blur => base + 5
    case Gradient => base + 8
    case Bloom => base + 9
  }

  /** The `type` field of a configuration entry. */
  function TypeOf(base: nat, e: Effect): nat {
    FxConst(base, KindOf(e))
  }

  /** The slot of the blur program of quality `q`: the blur constant plus the quality. */
  function BlurSlot(base: nat, q: Quality): nat {
    FxConst(base, Kind.Blur) + QualityIndex(q)
  }

  /** The shader slot an effect's handler selects: the kind constant, plus the quality
      for blur. Whatever the base, that slot holds the effect's own program. */
  function SelectedSlot(base: nat, e: Effect): (slot: nat)
    ensures base <= slot < base + |FxShaders|
    ensures FxShaders[slot - base] == ProgramFor(e)
  {
    if e.Blur? then BlurSlot(base, e.quality)
    else FxConst(base, KindOf(e))
  }

  /** The handler routines of the pipeline. */
  datatype Handler =
    | GlowHandler | ShadowHandler | PixelateHandler | VignetteHandler
    | ShineHandler | BlurHandler | GradientHandler | BloomHandler

  function HandlerFor(k: Kind): Handler {
    match k
    case Glow => GlowHandler
    case Shadow => ShadowHandler
    case Pixelate => PixelateHandler
    case Vignette => VignetteHandler
    case Shine => ShineHandler
    case Blur => BlurHandler
    case Gradient => GradientHandler
    case Bloom => BloomHandler
  }

  /** The sparse handler table, keyed by kind constant: total over the kinds, and
      without entries for the slots of the medium and high blur programs. */
  function DispatchTable(base: nat): (table: map<int, Handler>)
    ensures forall k: Kind :: FxConst(base, k) in table && table[FxConst(base, k)] == HandlerFor(k)
    ensures forall c :: c in table ==> base <= c < base + |FxShaders|
    ensures base + 6 !in table && base + 7 !in table
  {
    map[FxConst(base, Kind.Glow) := GlowHandler,
        FxConst(base, Kind.Shadow) := ShadowHandler,
        FxConst(base, Kind.Pixelate) := PixelateHandler,
        FxConst(base, Kind.Vignette) := VignetteHandler,
        FxConst(base, Kind.Shine) := ShineHandler,
        FxConst(base, Kind.Blur) := BlurHandler,
        FxConst(base, Kind.Gradient) := GradientHandler,
        FxConst(base, Kind.Bloom) := BloomHandler]
  }

  /** A uniform value as the pipeline sets it; Preset stands for everything an effect
      helper's pre-render step binds. */
  datatype Value =
    | Int(i: int)
    | Float(f: Scalar)
    | Vec2(x: Scalar, y: Scalar)
    | Vec3(rgb: Scalar)
    | Preset(effect: Effect, dims: Dims)

  /** The uniform names the pipeline sets; Settings stands for the ones an effect
      helper's pre-render step binds. */
  datatype Name = MainSampler | Resolution | Strength | Color | Offset | Settings

  /** The uniform values set on one shader program, by name. */
  type Uniforms = map<Name, Value>

  /** Symbolic contents of a render target. */
  datatype Term =
    | Orig(buf: Buf)                                   // what the buffer held before modelling began
    | Pass(slot: int, uniforms: Uniforms, input: Term) // one draw of program `slot` over `input`
    | Blend(a: Term, b: Term, strength: Scalar)        // blendFrames of `a` and `b`

  /** A call into the graphics layer, in the order it is issued. */
  datatype Event =
    | ShaderSet(slot: int)
    | UniformSet(slot: int, name: Name, value: Value)
    | SettingsBound(slot: int, effect: Effect, dims: Dims)
    | Copied(source: Buf, target: Buf)
    | SpriteCopied(source: Buf, target: Buf)
    | FramesBlended(a: Buf, b: Buf, target: Buf, strength: Scalar)
    | Presented(buf: Buf)

  /** The number of draw passes (`copy` calls) in a trace. */
  function Passes(t: seq<Event>): nat {
    if t == [] then 0
    else Passes(t[..|t| - 1]) + (if t[|t| - 1].Copied? then 1 else 0)
  }

  function Max0(n: int): nat {
    if n < 0 then 0 else n
  }

  /** The number of passes an active entry issues. */
  function PassesOf(e: Effect): nat {
    if e.Blur? || e.Bloom? then 2 * Max0(e.steps) else 1
  }

  /** The number of passes a chain issues: the sum over its active entries. */
  function TotalPasses(fx: seq<FxConfig>): nat {
    if fx == [] then 0
    else TotalPasses(fx[..|fx| - 1]) + (if fx[|fx| - 1].active then PassesOf(fx[|fx| - 1].effect) else 0)
  }
}
