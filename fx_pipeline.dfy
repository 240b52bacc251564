/** The FX pipeline as an object: the three buffer roles, the current shader, the
    uniforms, the buffer contents and the call trace are fields its routines update
    in place. Every routine is proved to leave the object in exactly the state the
    matching function of FxSpec computes from the state before the call. */
module FxPipeline {
  import opened FxTypes
  import FxSpec
  import FxProperties

  class FXPipeline {
    /** Index of the first FX program in the pipeline's shader list. */
    const base: nat
    /** The sparse handler table, keyed by kind constant. */
    var fxHandlers: map<int, Handler>
    var source: Buf
    var target: Buf
    var swap: Buf
    var shader: int
    var uniforms: map<int, Uniforms>
    var contents: map<Buf, Term>
    var trace: seq<Event>
    /** The sprite whose effect list the next onDraw runs. */
    var tempSprite: Option<Sprite>

    /** The object's state as a value. */
    function Snapshot(): FxSpec.State
      reads this
    {
      FxSpec.State(source, target, swap, shader, uniforms, contents, trace)
    }

    predicate Valid()
      reads this
    {
      FxSpec.Valid(Snapshot()) && fxHandlers == DispatchTable(base)
    }

    /** initialize: register the handlers in the table under their kind constants.
        The roles are only declared there; B1, B2 and B3 stand in until onDraw binds
        them. */
    constructor(base: nat, sprite: Option<Sprite>)
      ensures Valid()
      ensures this.base == base && tempSprite == sprite
      ensures fxHandlers == DispatchTable(base)
      ensures forall b: Buf :: contents[b] == Orig(b)
      ensures trace == [] && uniforms == map[]
    {
      this.base := base;
      var table: map<int, Handler> := map[];
      table := table[FxConst(base, Kind.Glow) := GlowHandler];
      table := table[FxConst(base, Kind.Shadow) := ShadowHandler];
      table := table[FxConst(base, Kind.Pixelate) := PixelateHandler];
      table := table[FxConst(base, Kind.Vignette) := VignetteHandler];
      table := table[FxConst(base, Kind.Shine) := ShineHandler];
      table := table[FxConst(base, Kind.Blur) := BlurHandler];
      table := table[FxConst(base, Kind.Gradient) := GradientHandler];
      table := table[FxConst(base, Kind.Bloom) := BloomHandler];
      fxHandlers := table;
      source, target, swap := B1, B2, B3;
      shader := base;
      uniforms := map[];
      contents := map b: Buf :: Orig(b);
      trace := [];
      tempSprite := sprite;
    }

    // ---- calls into the graphics layer ------------------------------------------

    method SetShader(slot: int)
      requires Valid()
      modifies this
      ensures Valid() && tempSprite == old(tempSprite)
      ensures Snapshot() == FxSpec.SetShader(old(Snapshot()), slot)
    {
      shader := slot;
      trace := trace + [ShaderSet(slot)];
    }

    /** Set one uniform of the current program; set1i, set1f, set2f and set3fv below
        differ only in the shape of the value. */
    method SetUniform(name: Name, v: Value)
      requires Valid()
      modifies this
      ensures Valid() && tempSprite == old(tempSprite)
      ensures Snapshot() == FxSpec.SetUniform(old(Snapshot()), name, v)
    {
      var u := if shader in uniforms then uniforms[shader] else map[];
      uniforms := uniforms[shader := u[name := v]];
      trace := trace + [UniformSet(shader, name, v)];
    }

    method Set1i(name: Name, i: int)
      requires Valid()
      modifies this
      ensures Valid() && tempSprite == old(tempSprite)
      ensures Snapshot() == FxSpec.SetUniform(old(Snapshot()), name, Int(i))
    {
      SetUniform(name, Int(i));
    }

    method Set1f(name: Name, f: Scalar)
      requires Valid()
      modifies this
      ensures Valid() && tempSprite == old(tempSprite)
      ensures Snapshot() == FxSpec.SetUniform(old(Snapshot()), name, Float(f))
    {
      SetUniform(name, Float(f));
    }

    method Set2f(name: Name, x: Scalar, y: Scalar)
      requires Valid()
      modifies this
      ensures Valid() && tempSprite == old(tempSprite)
      ensures Snapshot() == FxSpec.SetUniform(old(Snapshot()), name, Vec2(x, y))
    {
      SetUniform(name, Vec2(x, y));
    }

    method Set3fv(name: Name, c: Scalar)
      requires Valid()
      modifies this
      ensures Valid() && tempSprite == old(tempSprite)
      ensures Snapshot() == FxSpec.SetUniform(old(Snapshot()), name, Vec3(c))
    {
      SetUniform(name, Vec3(c));
    }

    /** An effect helper's onPreRender, binding the effect's settings on `slot`. */
    method PreRender(slot: int, e: Effect, dims: Dims)
      requires Valid()
      modifies this
      ensures Valid() && tempSprite == old(tempSprite)
      ensures Snapshot() == FxSpec.PreRender(old(Snapshot()), slot, e, dims)
    {
      var u := if slot in uniforms then uniforms[slot] else map[];
      uniforms := uniforms[slot := u[Settings := Preset(e, dims)]];
      trace := trace + [SettingsBound(slot, e, dims)];
    }

    method Copy(a: Buf, b: Buf)
      requires Valid()
      modifies this
      ensures Valid() && tempSprite == old(tempSprite)
      ensures Snapshot() == FxSpec.Copy(old(Snapshot()), a, b)
    {
      var u := if shader in uniforms then uniforms[shader] else map[];
      contents := contents[b := Pass(shader, u, contents[a])];
      trace := trace + [Copied(a, b)];
    }

    method CopySprite(a: Buf, b: Buf)
      requires Valid()
      modifies this
      ensures Valid() && tempSprite == old(tempSprite)
      ensures Snapshot() == FxSpec.CopySprite(old(Snapshot()), a, b)
    {
      contents := contents[b := contents[a]];
      trace := trace + [SpriteCopied(a, b)];
    }

    method BlendFrames(a: Buf, b: Buf, t: Buf, w: Scalar)
      requires Valid()
      modifies this
      ensures Valid() && tempSprite == old(tempSprite)
      ensures Snapshot() == FxSpec.BlendFrames(old(Snapshot()), a, b, t, w)
    {
      contents := contents[t := Blend(contents[a], contents[b], w)];
      trace := trace + [FramesBlended(a, b, t, w)];
    }

    method DrawToGame(b: Buf)
      requires Valid()
      modifies this
      ensures Valid() && tempSprite == old(tempSprite)
      ensures Snapshot() == FxSpec.DrawToGame(old(Snapshot()), b)
    {
      trace := trace + [Presented(b)];
    }

    // ---- the pipeline's own routines ---------------------------------------------

    method RunDraw()
      requires Valid()
      modifies this
      ensures Valid() && tempSprite == old(tempSprite)
      ensures Snapshot() == FxSpec.RunDraw(old(Snapshot()))
    {
      var s, t := source, target;
      Copy(s, t);
      source := t;
      target := s;
    }

    method OnGlow(e: Effect, width: int, height: int)
      requires Valid()
      modifies this
      ensures Valid() && tempSprite == old(tempSprite)
      ensures Snapshot() == FxSpec.OnGlow(old(Snapshot()), base, e, width, height)
    {
      var slot := FxConst(base, Kind.Glow);
      SetShader(slot);
      PreRender(slot, e, Sized(width, height));
      RunDraw();
    }

    method OnShadow(e: Effect)
      requires Valid()
      modifies this
      ensures Valid() && tempSprite == old(tempSprite)
      ensures Snapshot() == FxSpec.OnShadow(old(Snapshot()), base, e)
    {
      var slot := FxConst(base, Kind.Shadow);
      SetShader(slot);
      PreRender(slot, e, Unsized);
      RunDraw();
    }

    method OnPixelate(e: Effect, width: int, height: int)
      requires Valid()
      modifies this
      ensures Valid() && tempSprite == old(tempSprite)
      ensures Snapshot() == FxSpec.OnPixelate(old(Snapshot()), base, e, width, height)
    {
      var slot := FxConst(base, Kind.Pixelate);
      SetShader(slot);
      PreRender(slot, e, Sized(width, height));
      RunDraw();
    }

    method OnVignette(e: Effect)
      requires Valid()
      modifies this
      ensures Valid() && tempSprite == old(tempSprite)
      ensures Snapshot() == FxSpec.OnVignette(old(Snapshot()), base, e)
    {
      var slot := FxConst(base, Kind.Vignette);
      SetShader(slot);
      PreRender(slot, e, Unsized);
      RunDraw();
    }

    method OnShine(e: Effect, width: int, height: int)
      requires Valid()
      modifies this
      ensures Valid() && tempSprite == old(tempSprite)
      ensures Snapshot() == FxSpec.OnShine(old(Snapshot()), base, e, width, height)
    {
      var slot := FxConst(base, Kind.Shine);
      SetShader(slot);
      PreRender(slot, e, Sized(width, height));
      RunDraw();
    }

    method OnGradient(e: Effect)
      requires Valid()
      modifies this
      ensures Valid() && tempSprite == old(tempSprite)
      ensures Snapshot() == FxSpec.OnGradient(old(Snapshot()), base, e)
    {
      var slot := FxConst(base, Kind.Gradient);
      SetShader(slot);
      PreRender(slot, e, Unsized);
      RunDraw();
    }

    /** The loop blur and bloom share: `steps` rounds of a pass at offset (x, 0) and a
        pass at offset (0, y); no round runs when `steps` is not positive. */
    method SeparableLoop(x: Scalar, y: Scalar, steps: int)
      requires Valid()
      modifies this
      ensures Valid() && tempSprite == old(tempSprite)
      ensures Snapshot() == FxSpec.SeparablePasses(old(Snapshot()), x, y, Max0(steps))
    {
      ghost var s0 := Snapshot();
      assert s0 == old(Snapshot());
      var i := 0;
      while i < steps
        invariant 0 <= i <= Max0(steps)
        invariant Valid() && tempSprite == old(tempSprite)
        invariant Snapshot() == FxSpec.SeparablePasses(s0, x, y, i)
      {
        Set2f(Offset, x, Num(0));
        RunDraw();
        Set2f(Offset, Num(0), y);
        RunDraw();
        FxProperties.SeparableStep(s0, x, y, i);
        i := i + 1;
      }
      assert i == Max0(steps);
    }

    /** The uniform setup of onBlur, before its loop. */
    method BlurSetup(e: Effect, width: int, height: int)
      requires Valid() && e.Blur?
      modifies this
      ensures Valid() && tempSprite == old(tempSprite)
      ensures Snapshot() == FxSpec.BlurSetup(old(Snapshot()), base, e, width, height)
    {
      var slot := BlurSlot(base, e.quality);
      SetShader(slot);
      Set1i(MainSampler, 0);
      Set2f(Resolution, Num(width), Num(height));
      Set1f(Strength, e.strength);
      Set3fv(Color, e.glcolor);
    }

    method OnBlur(e: Effect, width: int, height: int)
      requires Valid() && e.Blur?
      modifies this
      ensures Valid() && tempSprite == old(tempSprite)
      ensures Snapshot() == FxSpec.OnBlur(old(Snapshot()), base, e, width, height)
    {
      BlurSetup(e, width, height);
      SeparableLoop(e.x, e.y, e.steps);
    }

    /** The snapshot and uniform setup of onBloom, before its loop. */
    method BloomSetup(e: Effect)
      requires Valid() && e.Bloom?
      modifies this
      ensures Valid() && tempSprite == old(tempSprite)
      ensures Snapshot() == FxSpec.BloomSetup(old(Snapshot()), base, e)
    {
      CopySprite(source, swap);
      SetShader(FxConst(base, Kind.Bloom));
      Set1i(MainSampler, 0);
      Set1f(Strength, e.blurStrength);
      Set3fv(Color, e.glcolor);
    }

    method OnBloom(e: Effect, width: int, height: int)
      requires Valid() && e.Bloom?
      modifies this
      ensures Valid() && tempSprite == old(tempSprite)
      ensures Snapshot() == FxSpec.OnBloom(old(Snapshot()), base, e, width, height)
    {
      BloomSetup(e);
      SeparableLoop(PerExtent(width, e.offsetX), PerExtent(height, e.offsetY), e.steps);
      BlendFrames(swap, source, target, e.strength);
      CopySprite(target, source);
    }

    /** Look the entry's kind constant up in the handler table and run that handler. */
    method CallHandler(e: Effect, width: int, height: int)
      requires Valid()
      modifies this
      ensures Valid() && tempSprite == old(tempSprite)
      ensures Snapshot() == FxSpec.Dispatch(old(Snapshot()), base, e, width, height)
    {
      var h := fxHandlers[TypeOf(base, e)];
      assert h == HandlerFor(KindOf(e));
      match h
      case GlowHandler => OnGlow(e, width, height);
      case ShadowHandler => OnShadow(e);
      case PixelateHandler => OnPixelate(e, width, height);
      case VignetteHandler => OnVignette(e);
      case ShineHandler => OnShine(e, width, height);
      case BlurHandler => OnBlur(e, width, height);
      case GradientHandler => OnGradient(e);
      case BloomHandler => OnBloom(e, width, height);
    }

    /** The chain loop of onDraw: each active entry of `fx`, in order, through the
        handler table. */
    method ChainLoop(fx: seq<FxConfig>, width: int, height: int)
      requires Valid()
      modifies this
      ensures Valid() && tempSprite == old(tempSprite)
      ensures Snapshot() == FxSpec.Chain(old(Snapshot()), base, fx, width, height)
    {
      ghost var s0 := Snapshot();
      var i := 0;
      while i < |fx|
        invariant 0 <= i <= |fx|
        invariant Valid() && tempSprite == old(tempSprite)
        invariant Snapshot() == FxSpec.Chain(s0, base, fx[..i], width, height)
      {
        var config := fx[i];
        if config.active {
          CallHandler(config.effect, width, height);
        }
        FxProperties.ChainStep(s0, base, fx, i, width, height);
        i := i + 1;
      }
      assert fx[..|fx|] == fx;
    }

    /** onDraw: bind the roles, run the sprite's effect list if it has one, then
        present the source. `width` and `height` are those of target1. */
    method OnDraw(target1: Buf, target2: Buf, target3: Buf, width: int, height: int)
      requires Valid()
      modifies this
      ensures Valid() && tempSprite == old(tempSprite)
      ensures Snapshot()
              == FxSpec.Draw(old(Snapshot()), base, target1, target2, target3, tempSprite, width, height)
    {
      ghost var s0 := Snapshot();
      source, target, swap := target1, target2, target3;
      ghost var s1 := Snapshot();
      assert s1 == s0.(source := target1, target := target2, swap := target3);
      var sprite := tempSprite;
      if sprite.Some? && sprite.value.fx.Some? {
        ChainLoop(sprite.value.fx.value, width, height);
      }
      ghost var s2 := Snapshot();
      assert s2 == if sprite.Some? && sprite.value.fx.Some?
                   then FxSpec.Chain(s1, base, sprite.value.fx.value, width, height) else s1;
      DrawToGame(source);
    }
  }
}
