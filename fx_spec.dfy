/** The FX pipeline's behaviour as functions on an explicit state: the three buffer
    roles, the current shader, the uniforms of each program, the contents of each
    buffer and the trace of graphics calls. Each function models one routine of the
    pipeline, or one call into the graphics layer it relies on. */
module FxSpec {
  import opened FxTypes

  datatype State = State(
    source: Buf,
    target: Buf,
    swap: Buf,
    shader: int,
    uniforms: map<int, Uniforms>,
    contents: map<Buf, Term>,
    trace: seq<Event>)

  /** Every buffer has contents. */
  predicate Valid(s: State) {
    forall b: Buf :: b in s.contents
  }

  /** The three roles name three different buffers. */
  predicate Distinct(s: State) {
    s.source != s.target && s.target != s.swap && s.source != s.swap
  }

  /** The uniforms currently set on program `slot`. */
  function Store(s: State, slot: int): Uniforms {
    if slot in s.uniforms then s.uniforms[slot] else map[]
  }

  // ---- calls into the graphics layer ------------------------------------------

  /** setShader: make program `slot` current. No role and no buffer changes. */
  function SetShader(s: State, slot: int): (r: State)
    ensures r.source == s.source && r.target == s.target && r.swap == s.swap
    ensures r.contents == s.contents && r.uniforms == s.uniforms
  {
    s.(shader := slot, trace := s.trace + [ShaderSet(slot)])
  }

  /** set1i, set1f, set2f, set3fv: set one uniform of the current program. No role
      and no buffer changes. */
  function SetUniform(s: State, name: Name, v: Value): (r: State)
    ensures r.source == s.source && r.target == s.target && r.swap == s.swap
    ensures r.contents == s.contents && r.shader == s.shader
  {
    s.(uniforms := s.uniforms[s.shader := Store(s, s.shader)[name := v]],
       trace := s.trace + [UniformSet(s.shader, name, v)])
  }

  /** An effect helper's onPreRender: bind the effect's settings on program `slot`.
      No role and no buffer changes. */
  function PreRender(s: State, slot: int, e: Effect, dims: Dims): (r: State)
    ensures r.source == s.source && r.target == s.target && r.swap == s.swap
    ensures r.contents == s.contents && r.shader == s.shader
  {
    s.(uniforms := s.uniforms[slot := Store(s, slot)[Settings := Preset(e, dims)]],
       trace := s.trace + [SettingsBound(slot, e, dims)])
  }

  /** copy: one pass of the current program over `a`, drawn into `b`. Only `b`'s
      contents change. */
  function Copy(s: State, a: Buf, b: Buf): (r: State)
    requires Valid(s)
    ensures Valid(r)
    ensures r.source == s.source && r.target == s.target && r.swap == s.swap
    ensures r.shader == s.shader && r.uniforms == s.uniforms
    ensures forall c :: c != b ==> r.contents[c] == s.contents[c]
  {
    s.(contents := s.contents[b := Pass(s.shader, Store(s, s.shader), s.contents[a])],
       trace := s.trace + [Copied(a, b)])
  }

  /** copySprite: `b` receives the contents of `a`; nothing else changes. */
  function CopySprite(s: State, a: Buf, b: Buf): (r: State)
    requires Valid(s)
    ensures Valid(r)
    ensures r.source == s.source && r.target == s.target && r.swap == s.swap
    ensures r.shader == s.shader && r.uniforms == s.uniforms
    ensures r.contents[b] == s.contents[a]
    ensures forall c :: c != b ==> r.contents[c] == s.contents[c]
  {
    s.(contents := s.contents[b := s.contents[a]],
       trace := s.trace + [SpriteCopied(a, b)])
  }

  /** blendFrames: `t` receives the blend of `a` and `b` weighted by `w`; nothing
      else changes. */
  function BlendFrames(s: State, a: Buf, b: Buf, t: Buf, w: Scalar): (r: State)
    requires Valid(s)
    ensures Valid(r)
    ensures r.source == s.source && r.target == s.target && r.swap == s.swap
    ensures r.shader == s.shader && r.uniforms == s.uniforms
    ensures forall c :: c != t ==> r.contents[c] == s.contents[c]
  {
    s.(contents := s.contents[t := Blend(s.contents[a], s.contents[b], w)],
       trace := s.trace + [FramesBlended(a, b, t, w)])
  }

  /** drawToGame: present buffer `b` to the game. The pipeline's state is otherwise
      unchanged. */
  function DrawToGame(s: State, b: Buf): (r: State)
    ensures r.source == s.source && r.target == s.target && r.swap == s.swap
    ensures r.contents == s.contents && r.shader == s.shader && r.uniforms == s.uniforms
  {
    s.(trace := s.trace + [Presented(b)])
  }

  // ---- the pipeline's own routines -------------------------------------------

  /** runDraw: one pass of the current program from source into target, after which
      the two roles are exchanged. Only the old target's contents change. */
  function RunDraw(s: State): (r: State)
    requires Valid(s)
    ensures Valid(r)
    ensures r.source == s.target && r.target == s.source && r.swap == s.swap
    ensures r.contents[s.target] == Pass(s.shader, Store(s, s.shader), s.contents[s.source])
    ensures forall b :: b != s.target ==> r.contents[b] == s.contents[b]
    ensures r.shader == s.shader && r.uniforms == s.uniforms
    ensures r.trace == s.trace + [Copied(s.source, s.target)]
    ensures Distinct(s) ==> Distinct(r)
  {
    var c := Copy(s, s.source, s.target);
    c.(source := s.target, target := s.source)
  }

  /** The body of every single-pass handler: select program `slot`, let the effect's
      helper bind its uniforms, and run one pass. */
  function SinglePass(s: State, slot: int, e: Effect, dims: Dims): (r: State)
    requires Valid(s)
    ensures Valid(r)
  {
    RunDraw(PreRender(SetShader(s, slot), slot, e, dims))
  }

  function OnGlow(s: State, base: nat, e: Effect, width: int, height: int): (r: State)
    requires Valid(s)
    ensures Valid(r)
  {
    SinglePass(s, FxConst(base, Kind.Glow), e, Sized(width, height))
  }

  function OnShadow(s: State, base: nat, e: Effect): (r: State)
    requires Valid(s)
    ensures Valid(r)
  {
    SinglePass(s, FxConst(base, Kind.Shadow), e, Unsized)
  }

  function OnPixelate(s: State, base: nat, e: Effect, width: int, height: int): (r: State)
    requires Valid(s)
    ensures Valid(r)
  {
    SinglePass(s, FxConst(base, Kind.Pixelate), e, Sized(width, height))
  }

  function OnVignette(s: State, base: nat, e: Effect): (r: State)
    requires Valid(s)
    ensures Valid(r)
  {
    SinglePass(s, FxConst(base, Kind.Vignette), e, Unsized)
  }

  function OnShine(s: State, base: nat, e: Effect, width: int, height: int): (r: State)
    requires Valid(s)
    ensures Valid(r)
  {
    SinglePass(s, FxConst(base, Kind.Shine), e, Sized(width, height))
  }

  function OnGradient(s: State, base: nat, e: Effect): (r: State)
    requires Valid(s)
    ensures Valid(r)
  {
    SinglePass(s, FxConst(base, Kind.Gradient), e, Unsized)
  }

  /** One round of the loop blur and bloom share: set the offset to (x, 0) and run a
      pass, then set it to (0, y) and run a pass. */
  function Round(p: State, x: Scalar, y: Scalar): (r: State)
    requires Valid(p)
    ensures Valid(r)
  {
    RunDraw(SetUniform(RunDraw(SetUniform(p, Offset, Vec2(x, Num(0)))), Offset, Vec2(Num(0), y)))
  }

  /** `n` rounds of the loop blur and bloom share. */
  function SeparablePasses(s: State, x: Scalar, y: Scalar, n: nat): (r: State)
    requires Valid(s)
    ensures Valid(r)
    ensures r.source == s.source && r.target == s.target && r.swap == s.swap
    ensures r.shader == s.shader
    decreases n
  {
    if n == 0 then s else Round(SeparablePasses(s, x, y, n - 1), x, y)
  }

  /** The uniform setup of onBlur, before its loop. */
  function BlurSetup(s: State, base: nat, e: Effect, width: int, height: int): (r: State)
    requires Valid(s) && e.Blur?
    ensures Valid(r)
  {
    var s1 := SetShader(s, BlurSlot(base, e.quality));
    var s2 := SetUniform(s1, MainSampler, Int(0));
    var s3 := SetUniform(s2, Resolution, Vec2(Num(width), Num(height)));
    var s4 := SetUniform(s3, Strength, Float(e.strength));
    SetUniform(s4, Color, Vec3(e.glcolor))
  }

  /** onBlur: select the blur program of the configured quality, set its uniforms,
      then run `steps` rounds of separable passes. */
  function OnBlur(s: State, base: nat, e: Effect, width: int, height: int): (r: State)
    requires Valid(s) && e.Blur?
    ensures Valid(r)
  {
    SeparablePasses(BlurSetup(s, base, e, width, height), e.x, e.y, Max0(e.steps))
  }

  /** The snapshot and uniform setup of onBloom, before its loop. */
  function BloomSetup(s: State, base: nat, e: Effect): (r: State)
    requires Valid(s) && e.Bloom?
    ensures Valid(r)
  {
    var s1 := CopySprite(s, s.source, s.swap);
    var s2 := SetShader(s1, FxConst(base, Kind.Bloom));
    var s3 := SetUniform(s2, MainSampler, Int(0));
    var s4 := SetUniform(s3, Strength, Float(e.blurStrength));
    SetUniform(s4, Color, Vec3(e.glcolor))
  }

  /** onBloom: snapshot source into swap, run `steps` rounds of separable bloom
      passes with normalised offsets, blend swap and source into target, and copy
      target back into source. */
  function OnBloom(s: State, base: nat, e: Effect, width: int, height: int): (r: State)
    requires Valid(s) && e.Bloom?
    ensures Valid(r)
  {
    var s1 := BloomSetup(s, base, e);
    var s2 := SeparablePasses(s1, PerExtent(width, e.offsetX), PerExtent(height, e.offsetY), Max0(e.steps));
    var s3 := BlendFrames(s2, s2.swap, s2.source, s2.target, e.strength);
    CopySprite(s3, s3.target, s3.source)
  }

  /** Handler routine `h` applied to entry `e`; the table only ever hands an entry to
      the handler of its own kind. */
  function Handle(s: State, base: nat, h: Handler, e: Effect, width: int, height: int): (r: State)
    requires Valid(s) && h == HandlerFor(KindOf(e))
    ensures Valid(r)
  {
    match h
    case GlowHandler => OnGlow(s, base, e, width, height)
    case ShadowHandler => OnShadow(s, base, e)
    case PixelateHandler => OnPixelate(s, base, e, width, height)
    case VignetteHandler => OnVignette(s, base, e)
    case ShineHandler => OnShine(s, base, e, width, height)
    case BlurHandler => OnBlur(s, base, e, width, height)
    case GradientHandler => OnGradient(s, base, e)
    case BloomHandler => OnBloom(s, base, e, width, height)
  }

  /** Look the entry's kind constant up in the handler table and run that handler. */
  function Dispatch(s: State, base: nat, e: Effect, width: int, height: int): (r: State)
    requires Valid(s)
    ensures Valid(r)
  {
    Handle(s, base, DispatchTable(base)[TypeOf(base, e)], e, width, height)
  }

  /** The chain loop of onDraw: each active entry, in list order, through the table. */
  function Chain(s: State, base: nat, fx: seq<FxConfig>, width: int, height: int): (r: State)
    requires Valid(s)
    ensures Valid(r)
  {
    if fx == [] then s
    else
      var p := Chain(s, base, fx[..|fx| - 1], width, height);
      var c := fx[|fx| - 1];
      if c.active then Dispatch(p, base, c.effect, width, height) else p
  }

  /** onDraw: bind the roles to the three targets, run the sprite's effect list if it
      has one, and present whichever buffer then holds the source role. */
  function Draw(s: State, base: nat, target1: Buf, target2: Buf, target3: Buf,
                sprite: Option<Sprite>, width: int, height: int): (r: State)
    requires Valid(s)
    ensures Valid(r)
  {
    var s1 := s.(source := target1, target := target2, swap := target3);
    var s2 := if sprite.Some? && sprite.value.fx.Some?
              then Chain(s1, base, sprite.value.fx.value, width, height)
              else s1;
    DrawToGame(s2, s2.source)
  }
}
