/** What the FX pipeline's routines guarantee: pass counts, the order of passes and
    their offsets, which program runs, where each role ends up, and how the chain
    composes. */
module FxProperties {
  import opened FxTypes
  import opened FxSpec

  // ---- reference definitions ---------------------------------------------------

  /** `block` repeated `n` times. */
  function Repeat(block: seq<Event>, n: nat): seq<Event> {
    if n == 0 then [] else Repeat(block, n - 1) + block
  }

  /** One round of a separable loop on program `slot` that starts with source `a` and
      target `b`: a pass at offset (x, 0) from `a` into `b`, then one at (0, y) back. */
  function SeparableRound(slot: int, x: Scalar, y: Scalar, a: Buf, b: Buf): seq<Event> {
    [UniformSet(slot, Offset, Vec2(x, Num(0))), Copied(a, b),
     UniformSet(slot, Offset, Vec2(Num(0), y)), Copied(b, a)]
  }

  /** The image `n` separable rounds make of `t`: each round one pass with uniforms
      `uh`, then one with `uv`. */
  function Separated(slot: int, uh: Uniforms, uv: Uniforms, n: nat, t: Term): Term {
    if n == 0 then t else Pass(slot, uv, Pass(slot, uh, Separated(slot, uh, uv, n - 1, t)))
  }

  /** The uniform values blur sets before its loop, on top of `u`. */
  function BlurUniforms(u: Uniforms, e: Effect, width: int, height: int): Uniforms
    requires e.Blur?
  {
    u[MainSampler := Int(0)][Resolution := Vec2(Num(width), Num(height))]
     [Strength := Float(e.strength)][Color := Vec3(e.glcolor)]
  }

  /** The uniform values bloom sets before its loop, on top of `u`. */
  function BloomUniforms(u: Uniforms, e: Effect): Uniforms
    requires e.Bloom?
  {
    u[MainSampler := Int(0)][Strength := Float(e.blurStrength)][Color := Vec3(e.glcolor)]
  }

  /** Whether an effect helper's pre-render step receives the pass dimensions. */
  function DimsFor(e: Effect, width: int, height: int): Dims {
    if e.Glow? || e.Pixelate? || e.Shine? then Sized(width, height) else Unsized
  }

  /** The buffer handed to drawToGame: the argument of the trace's last event. */
  function Output(r: State): Option<Buf> {
    if r.trace != [] && r.trace[|r.trace| - 1].Presented? then Some(r.trace[|r.trace| - 1].buf)
    else None
  }

  // ---- counting passes ---------------------------------------------------------

  lemma PassesSnoc(t: seq<Event>, e: Event)
    ensures Passes(t + [e]) == Passes(t) + (if e.Copied? then 1 else 0)
  {
    assert (t + [e])[..|t|] == t;
  }

  lemma {:induction false} PassesAppend(a: seq<Event>, b: seq<Event>)
    ensures Passes(a + b) == Passes(a) + Passes(b)
    decreases |b|
  {
    if b == [] {
      assert a + b == a;
    } else {
      var b' := b[..|b| - 1];
      assert a + b == (a + b') + [b[|b| - 1]];
      PassesAppend(a, b');
      PassesSnoc(a + b', b[|b| - 1]);
      PassesSnoc(b', b[|b| - 1]);
      assert b == b' + [b[|b| - 1]];
    }
  }

  lemma {:induction false} PassesRepeat(block: seq<Event>, n: nat)
    ensures Passes(Repeat(block, n)) == n * Passes(block)
  {
    if n > 0 {
      var m := n - 1;
      PassesRepeat(block, m);
      PassesAppend(Repeat(block, m), block);
      assert Repeat(block, n) == Repeat(block, m) + block;
      MulSucc(m, Passes(block));
    }
  }

  lemma MulSucc(m: nat, k: int)
    ensures (m + 1) * k == m * k + k
  {
  }

  /** Each separable round issues exactly two passes, so `n` rounds issue 2n. */
  lemma SeparableRoundsPasses(slot: int, x: Scalar, y: Scalar, a: Buf, b: Buf, n: nat)
    ensures Passes(Repeat(SeparableRound(slot, x, y, a, b), n)) == 2 * n
  {
    var r := SeparableRound(slot, x, y, a, b);
    PassesSnoc([], r[0]);
    assert [] + [r[0]] == [r[0]];
    PassesSnoc([r[0]], r[1]);
    assert [r[0]] + [r[1]] == [r[0], r[1]];
    PassesSnoc([r[0], r[1]], r[2]);
    assert [r[0], r[1]] + [r[2]] == [r[0], r[1], r[2]];
    PassesSnoc([r[0], r[1], r[2]], r[3]);
    assert r == [r[0], r[1], r[2]] + [r[3]];
    PassesRepeat(r, n);
  }

  /** Setting uniforms, selecting programs and blending issue no pass. */
  lemma NoPasses(t: seq<Event>, extra: seq<Event>)
    requires forall i :: 0 <= i < |extra| ==> !extra[i].Copied?
    ensures Passes(t + extra) == Passes(t)
    decreases |extra|
  {
    if extra != [] {
      var init := extra[..|extra| - 1];
      NoPasses(t, init);
      assert t + extra == (t + init) + [extra[|extra| - 1]];
      PassesSnoc(t + init, extra[|extra| - 1]);
    } else {
      assert t + extra == t;
    }
  }

  // ---- shader slots --------------------------------------------------------------

  /** Blur's three qualities select three consecutive, distinct programs from the blur
      constant on; effects select the same slot exactly when they run the same program. */
  lemma {:induction false} SlotsIdentifyPrograms(base: nat, e1: Effect, e2: Effect)
    ensures e1.Blur? ==> SelectedSlot(base, e1) == FxConst(base, Kind.Blur) + QualityIndex(e1.quality)
    ensures SelectedSlot(base, e1) == SelectedSlot(base, e2) <==> ProgramFor(e1) == ProgramFor(e2)
    ensures e1.Blur? && e2.Blur? ==>
              (SelectedSlot(base, e1) == SelectedSlot(base, e2) <==> e1.quality == e2.quality)
  {
    var i1, i2 := SelectedSlot(base, e1) - base, SelectedSlot(base, e2) - base;
    assert FxShaders[i1] == ProgramFor(e1) && FxShaders[i2] == ProgramFor(e2);
    if ProgramFor(e1) == ProgramFor(e2) {
      assert forall i, j :: 0 <= i < j < |FxShaders| ==> FxShaders[i] != FxShaders[j];
    }
  }

  // ---- one round of ping-pong ------------------------------------------------------

  /** Setting a key twice keeps the second value only. */
  lemma Overwrite<K, V>(m: map<K, V>, k: K, a: V, b: V)
    ensures m[k := a][k := b] == m[k := b]
  {
  }

  /** One round leaves the current program's offset at (0, y) and nothing else set. */
  lemma RoundUniforms(p: State, x: Scalar, y: Scalar)
    requires Valid(p)
    ensures Round(p, x, y).uniforms
            == p.uniforms[p.shader := Store(p, p.shader)[Offset := Vec2(Num(0), y)]]
  {
    var p1 := SetUniform(p, Offset, Vec2(x, Num(0)));
    var p2 := RunDraw(p1);
    assert Store(p2, p.shader) == Store(p, p.shader)[Offset := Vec2(x, Num(0))];
    assert Store(p2, p.shader)[Offset := Vec2(Num(0), y)] == Store(p, p.shader)[Offset := Vec2(Num(0), y)];
  }

  /** One round: a horizontal pass into target, then a vertical pass back into source. */
  lemma RoundContents(p: State, x: Scalar, y: Scalar)
    requires Valid(p)
    ensures var r := Round(p, x, y);
      var uh := Store(p, p.shader)[Offset := Vec2(x, Num(0))];
      var uv := Store(p, p.shader)[Offset := Vec2(Num(0), y)];
      && r.contents[p.source] == Pass(p.shader, uv, Pass(p.shader, uh, p.contents[p.source]))
      && (p.source != p.target ==> r.contents[p.target] == Pass(p.shader, uh, p.contents[p.source]))
      && (forall b :: b != p.source && b != p.target ==> r.contents[b] == p.contents[b])
  {
    var p1 := SetUniform(p, Offset, Vec2(x, Num(0)));
    var p2 := RunDraw(p1);
    var p3 := SetUniform(p2, Offset, Vec2(Num(0), y));
    assert Store(p1, p.shader) == Store(p, p.shader)[Offset := Vec2(x, Num(0))];
    assert Store(p3, p.shader) == Store(p, p.shader)[Offset := Vec2(Num(0), y)];
  }

  /** After `n` rounds of separable passes the current program's offset uniform is
      (0, y), and no other program's uniforms have changed. */
  lemma {:induction false} SeparableUniforms(s: State, x: Scalar, y: Scalar, n: nat)
    requires Valid(s)
    ensures var r := SeparablePasses(s, x, y, n);
      r.uniforms == (if n == 0 then s.uniforms
                     else s.uniforms[s.shader := Store(s, s.shader)[Offset := Vec2(Num(0), y)]])
  {
    if n > 0 {
      var m := n - 1;
      SeparableUniforms(s, x, y, m);
      SeparableStep(s, x, y, m);
      var p := SeparablePasses(s, x, y, m);
      RoundUniforms(p, x, y);
      var u := Store(s, s.shader);
      var uv := u[Offset := Vec2(Num(0), y)];
      if m > 0 {
        assert p.uniforms == s.uniforms[s.shader := uv];
        assert p.uniforms[s.shader] == uv;
        Overwrite(u, Offset, Vec2(Num(0), y), Vec2(Num(0), y));
        Overwrite(s.uniforms, s.shader, uv, uv);
      }
    }
  }

  lemma RepeatSnoc(t: seq<Event>, block: seq<Event>, m: nat)
    ensures t + Repeat(block, m) + block == t + Repeat(block, m + 1)
  {
  }

  /** Round m + 1 of the separable loop runs on the state round m left. */
  lemma SeparableStep(s: State, x: Scalar, y: Scalar, m: nat)
    requires Valid(s)
    ensures SeparablePasses(s, x, y, m + 1) == Round(SeparablePasses(s, x, y, m), x, y)
  {
    var n := m + 1;
    assert n - 1 == m;
  }

  /** Round m + 1 appends one SeparableRound to the trace. */
  lemma SeparableRoundTrace(s: State, x: Scalar, y: Scalar, m: nat)
    requires Valid(s)
    ensures SeparablePasses(s, x, y, m + 1).trace
            == SeparablePasses(s, x, y, m).trace + SeparableRound(s.shader, x, y, s.source, s.target)
  {
    var p := SeparablePasses(s, x, y, m);
    var h := RunDraw(SetUniform(p, Offset, Vec2(x, Num(0))));
    var v := RunDraw(SetUniform(h, Offset, Vec2(Num(0), y)));
    assert SeparablePasses(s, x, y, m + 1) == v;
    var e1, e2 := UniformSet(s.shader, Offset, Vec2(x, Num(0))), Copied(s.source, s.target);
    var e3, e4 := UniformSet(s.shader, Offset, Vec2(Num(0), y)), Copied(s.target, s.source);
    assert v.trace == p.trace + [e1] + [e2] + [e3] + [e4];
    assert p.trace + [e1] + [e2] + [e3] + [e4] == p.trace + [e1, e2, e3, e4];
  }

  /** `n` rounds of separable passes append exactly `n` rounds to the trace: offset
      (x, 0) and a pass from source into target, then offset (0, y) and a pass back. */
  lemma {:induction false} SeparableTrace(s: State, x: Scalar, y: Scalar, n: nat)
    requires Valid(s)
    ensures SeparablePasses(s, x, y, n).trace
            == s.trace + Repeat(SeparableRound(s.shader, x, y, s.source, s.target), n)
  {
    if n > 0 {
      var m := n - 1;
      SeparableTrace(s, x, y, m);
      SeparableRoundTrace(s, x, y, m);
      RepeatSnoc(s.trace, SeparableRound(s.shader, x, y, s.source, s.target), m);
    } else {
      assert s.trace + [] == s.trace;
    }
  }

  /** After `n` rounds source holds its old image after `n` horizontal-then-vertical
      pairs of passes; target holds the last horizontal pass; nothing else changes. */
  lemma {:induction false} SeparableContents(s: State, x: Scalar, y: Scalar, n: nat)
    requires Valid(s)
    ensures var r := SeparablePasses(s, x, y, n);
      var uh := Store(s, s.shader)[Offset := Vec2(x, Num(0))];
      var uv := Store(s, s.shader)[Offset := Vec2(Num(0), y)];
      && r.contents[s.source] == Separated(s.shader, uh, uv, n, s.contents[s.source])
      && (0 < n && s.source != s.target ==>
            r.contents[s.target] == Pass(s.shader, uh, Separated(s.shader, uh, uv, n - 1, s.contents[s.source])))
      && (forall b :: b != s.source && b != s.target ==> r.contents[b] == s.contents[b])
  {
    if n > 0 {
      SeparableContents(s, x, y, n - 1);
      SeparableUniforms(s, x, y, n - 1);
      SeparableStep(s, x, y, n - 1);
      var p := SeparablePasses(s, x, y, n - 1);
      RoundContents(p, x, y);
      var u := Store(s, s.shader);
      if n > 1 {
        assert Store(p, s.shader) == u[Offset := Vec2(Num(0), y)];
        Overwrite(u, Offset, Vec2(Num(0), y), Vec2(x, Num(0)));
        Overwrite(u, Offset, Vec2(Num(0), y), Vec2(Num(0), y));
      }
    }
  }

  // ---- the handlers ------------------------------------------------------------------

  /** The single-pass body: select program `slot`, bind the effect's settings on it,
      and run exactly one pass from source into target, exchanging the two roles. */
  lemma SinglePassEffect(s: State, slot: int, e: Effect, dims: Dims)
    requires Valid(s)
    ensures var r := SinglePass(s, slot, e, dims);
      && r.source == s.target && r.target == s.source && r.swap == s.swap
      && r.shader == slot
      && r.trace == s.trace + [ShaderSet(slot), SettingsBound(slot, e, dims), Copied(s.source, s.target)]
      && r.contents == s.contents[s.target := Pass(slot, Store(s, slot)[Settings := Preset(e, dims)], s.contents[s.source])]
  {
    var s2 := PreRender(SetShader(s, slot), slot, e, dims);
    assert Store(s2, slot) == Store(s, slot)[Settings := Preset(e, dims)];
  }

  /** The table sends each single-pass kind to the handler that runs its own program,
      handing the pass size to exactly the helpers that take it. */
  lemma DispatchSingle(s: State, base: nat, e: Effect, width: int, height: int)
    requires Valid(s) && !e.Blur? && !e.Bloom?
    ensures Dispatch(s, base, e, width, height) == SinglePass(s, SelectedSlot(base, e), e, DimsFor(e, width, height))
  {
    DispatchHandles(s, base, e, width, height);
    assert SelectedSlot(base, e) == FxConst(base, KindOf(e));
    if e.Glow? || e.Pixelate? || e.Shine? {
      HandleSized(s, base, e, width, height);
    } else {
      HandleUnsized(s, base, e, width, height);
    }
  }

  /** Glow, pixelate and shine: one pass, with the pass size handed to the helper. */
  lemma HandleSized(s: State, base: nat, e: Effect, width: int, height: int)
    requires Valid(s) && (e.Glow? || e.Pixelate? || e.Shine?)
    ensures Handle(s, base, HandlerFor(KindOf(e)), e, width, height)
         == SinglePass(s, FxConst(base, KindOf(e)), e, Sized(width, height))
  {
    match e
    case Glow(_) => assert KindOf(e) == Kind.Glow;
    case Pixelate(_) => assert KindOf(e) == Kind.Pixelate;
    case Shine(_) => assert KindOf(e) == Kind.Shine;
  }

  /** Shadow, vignette and gradient: one pass, the helper receiving no size. */
  lemma HandleUnsized(s: State, base: nat, e: Effect, width: int, height: int)
    requires Valid(s) && (e.Shadow? || e.Vignette? || e.Gradient?)
    ensures Handle(s, base, HandlerFor(KindOf(e)), e, width, height)
         == SinglePass(s, FxConst(base, KindOf(e)), e, Unsized)
  {
    match e
    case Shadow(_) => assert KindOf(e) == Kind.Shadow;
    case Vignette(_) => assert KindOf(e) == Kind.Vignette;
    case Gradient(_) => assert KindOf(e) == Kind.Gradient;
  }

  /** The table hands every entry to the handler of its own kind. */
  lemma DispatchHandles(s: State, base: nat, e: Effect, width: int, height: int)
    requires Valid(s)
    ensures Dispatch(s, base, e, width, height) == Handle(s, base, HandlerFor(KindOf(e)), e, width, height)
  {
    assert DispatchTable(base)[TypeOf(base, e)] == HandlerFor(KindOf(e));
  }

  /** The table sends blur entries to onBlur. */
  lemma DispatchBlur(s: State, base: nat, e: Effect, width: int, height: int)
    requires Valid(s) && e.Blur?
    ensures Dispatch(s, base, e, width, height) == OnBlur(s, base, e, width, height)
  {
    HandleBlur(s, base, e, width, height);
    DispatchHandles(s, base, e, width, height);
  }

  /** The table sends bloom entries to onBloom. */
  lemma DispatchBloom(s: State, base: nat, e: Effect, width: int, height: int)
    requires Valid(s) && e.Bloom?
    ensures Dispatch(s, base, e, width, height) == OnBloom(s, base, e, width, height)
  {
    HandleBloom(s, base, e, width, height);
    DispatchHandles(s, base, e, width, height);
  }

  lemma HandleBlur(s: State, base: nat, e: Effect, width: int, height: int)
    requires Valid(s) && e.Blur?
    ensures KindOf(e) == Kind.Blur && HandlerFor(KindOf(e)) == BlurHandler
    ensures Handle(s, base, BlurHandler, e, width, height) == OnBlur(s, base, e, width, height)
  {
  }

  lemma HandleBloom(s: State, base: nat, e: Effect, width: int, height: int)
    requires Valid(s) && e.Bloom?
    ensures KindOf(e) == Kind.Bloom && HandlerFor(KindOf(e)) == BloomHandler
    ensures Handle(s, base, BloomHandler, e, width, height) == OnBloom(s, base, e, width, height)
  {
  }

  /** Each single-pass kind (glow, shadow, pixelate, vignette, shine, gradient) selects
      its own program and runs exactly one pass, after which source and target are
      exchanged. */
  lemma SinglePassDispatch(s: State, base: nat, e: Effect, width: int, height: int)
    requires Valid(s) && !e.Blur? && !e.Bloom?
    ensures var r := Dispatch(s, base, e, width, height);
      var slot := SelectedSlot(base, e);
      var dims := DimsFor(e, width, height);
      && r.source == s.target && r.target == s.source && r.swap == s.swap
      && r.shader == slot
      && r.trace == s.trace + [ShaderSet(slot), SettingsBound(slot, e, dims), Copied(s.source, s.target)]
      && Passes(r.trace) == Passes(s.trace) + 1
      && r.contents == s.contents[s.target := Pass(slot, Store(s, slot)[Settings := Preset(e, dims)], s.contents[s.source])]
  {
    var slot := SelectedSlot(base, e);
    var dims := DimsFor(e, width, height);
    DispatchSingle(s, base, e, width, height);
    SinglePassEffect(s, slot, e, dims);
    NoPasses(s.trace, [ShaderSet(slot), SettingsBound(slot, e, dims)]);
    assert s.trace + [ShaderSet(slot), SettingsBound(slot, e, dims), Copied(s.source, s.target)]
        == (s.trace + [ShaderSet(slot), SettingsBound(slot, e, dims)]) + [Copied(s.source, s.target)];
    PassesSnoc(s.trace + [ShaderSet(slot), SettingsBound(slot, e, dims)], Copied(s.source, s.target));
  }

  /** The events onBlur issues before its loop. */
  function BlurSetupEvents(slot: int, e: Effect, width: int, height: int): seq<Event>
    requires e.Blur?
  {
    [ShaderSet(slot),
     UniformSet(slot, MainSampler, Int(0)),
     UniformSet(slot, Resolution, Vec2(Num(width), Num(height))),
     UniformSet(slot, Strength, Float(e.strength)),
     UniformSet(slot, Color, Vec3(e.glcolor))]
  }

  /** onBlur selects program BLUR + quality, issues 2 * max(0, steps) passes with
      offsets alternating (x, 0) and (0, y), and leaves every role where it was. */
  lemma OnBlurEffect(s: State, base: nat, e: Effect, width: int, height: int)
    requires Valid(s) && e.Blur?
    ensures var r := OnBlur(s, base, e, width, height);
      var slot := SelectedSlot(base, e);
      && r.source == s.source && r.target == s.target && r.swap == s.swap
      && r.shader == slot
      && r.trace == s.trace + BlurSetupEvents(slot, e, width, height)
                    + Repeat(SeparableRound(slot, e.x, e.y, s.source, s.target), Max0(e.steps))
      && Passes(r.trace) == Passes(s.trace) + 2 * Max0(e.steps)
  {
    var slot := SelectedSlot(base, e);
    var n := Max0(e.steps);
    var p := BlurSetup(s, base, e, width, height);
    var setup := BlurSetupEvents(slot, e, width, height);
    assert p.trace == s.trace + setup;
    SeparableTrace(p, e.x, e.y, n);
    var rounds := Repeat(SeparableRound(slot, e.x, e.y, s.source, s.target), n);
    NoPasses(s.trace, setup);
    PassesAppend(s.trace + setup, rounds);
    SeparableRoundsPasses(slot, e.x, e.y, s.source, s.target, n);
  }

  /** After onBlur source holds its old image after max(0, steps) horizontal-then-
      vertical pairs of blur passes; swap is untouched. */
  lemma OnBlurContents(s: State, base: nat, e: Effect, width: int, height: int)
    requires Valid(s) && e.Blur?
    ensures var r := OnBlur(s, base, e, width, height);
      var slot := SelectedSlot(base, e);
      var u := BlurUniforms(Store(s, slot), e, width, height);
      var uh := u[Offset := Vec2(e.x, Num(0))];
      var uv := u[Offset := Vec2(Num(0), e.y)];
      && r.contents[s.source] == Separated(slot, uh, uv, Max0(e.steps), s.contents[s.source])
      && (forall b :: b != s.source && b != s.target ==> r.contents[b] == s.contents[b])
  {
    var slot := SelectedSlot(base, e);
    var p := BlurSetup(s, base, e, width, height);
    assert Store(p, slot) == BlurUniforms(Store(s, slot), e, width, height);
    assert p.contents == s.contents;
    SeparableContents(p, e.x, e.y, Max0(e.steps));
  }

  /** The events onBloom issues before its loop, its snapshot first. */
  function BloomSetupEvents(s: State, slot: int, e: Effect): seq<Event>
    requires e.Bloom?
  {
    [SpriteCopied(s.source, s.swap),
     ShaderSet(slot),
     UniformSet(slot, MainSampler, Int(0)),
     UniformSet(slot, Strength, Float(e.blurStrength)),
     UniformSet(slot, Color, Vec3(e.glcolor))]
  }

  /** The events onBloom issues after its loop: the blend, then the copy back. */
  function BloomFinishEvents(s: State, e: Effect): seq<Event>
    requires e.Bloom?
  {
    [FramesBlended(s.swap, s.source, s.target, e.strength), SpriteCopied(s.target, s.source)]
  }

  /** onBloom leaves every role where it was and issues 2 * max(0, steps) bloom passes
      between its snapshot and its blend. */
  lemma OnBloomTrace(s: State, base: nat, e: Effect, width: int, height: int)
    requires Valid(s) && e.Bloom?
    ensures var r := OnBloom(s, base, e, width, height);
      var slot := SelectedSlot(base, e);
      var x, y := PerExtent(width, e.offsetX), PerExtent(height, e.offsetY);
      && r.source == s.source && r.target == s.target && r.swap == s.swap
      && r.shader == slot
      && r.trace == s.trace + BloomSetupEvents(s, slot, e)
                    + Repeat(SeparableRound(slot, x, y, s.source, s.target), Max0(e.steps))
                    + BloomFinishEvents(s, e)
      && Passes(r.trace) == Passes(s.trace) + 2 * Max0(e.steps)
  {
    var slot := SelectedSlot(base, e);
    var x, y := PerExtent(width, e.offsetX), PerExtent(height, e.offsetY);
    var n := Max0(e.steps);
    var p := BloomSetup(s, base, e);
    var setup := BloomSetupEvents(s, slot, e);
    var finish := BloomFinishEvents(s, e);
    assert p.trace == s.trace + setup;
    SeparableTrace(p, x, y, n);
    var rounds := Repeat(SeparableRound(slot, x, y, s.source, s.target), n);
    var q := SeparablePasses(p, x, y, n);
    assert q.trace == s.trace + setup + rounds;
    assert OnBloom(s, base, e, width, height).trace == s.trace + setup + rounds + finish;
    NoPasses(s.trace, setup);
    PassesAppend(s.trace + setup, rounds);
    NoPasses(s.trace + setup + rounds, finish);
    SeparableRoundsPasses(slot, x, y, s.source, s.target, n);
  }

  /** With distinct roles, after onBloom swap still holds the pre-bloom image, and
      source and target hold its blend with the bloomed image. */
  lemma OnBloomContents(s: State, base: nat, e: Effect, width: int, height: int)
    requires Valid(s) && Distinct(s) && e.Bloom?
    ensures var r := OnBloom(s, base, e, width, height);
      var slot := SelectedSlot(base, e);
      var x, y := PerExtent(width, e.offsetX), PerExtent(height, e.offsetY);
      var u := BloomUniforms(Store(s, slot), e);
      var uh := u[Offset := Vec2(x, Num(0))];
      var uv := u[Offset := Vec2(Num(0), y)];
      var pre := s.contents[s.source];
      && r.contents[s.swap] == pre
      && r.contents[s.source] == Blend(pre, Separated(slot, uh, uv, Max0(e.steps), pre), e.strength)
      && r.contents[s.target] == r.contents[s.source]
  {
    var slot := SelectedSlot(base, e);
    var x, y := PerExtent(width, e.offsetX), PerExtent(height, e.offsetY);
    var n := Max0(e.steps);
    var p := BloomSetup(s, base, e);
    assert Store(p, slot) == BloomUniforms(Store(s, slot), e);
    assert p.contents == s.contents[s.swap := s.contents[s.source]];
    SeparableContents(p, x, y, n);
  }

  /** Bloom without steps still snapshots and blends: the result is the pre-bloom
      image blended with itself, however the roles alias. */
  lemma BloomWithoutSteps(s: State, base: nat, e: Effect, width: int, height: int)
    requires Valid(s) && e.Bloom? && e.steps <= 0
    ensures var r := OnBloom(s, base, e, width, height);
      && r.contents[s.source] == Blend(s.contents[s.source], s.contents[s.source], e.strength)
      && Passes(r.trace) == Passes(s.trace)
  {
    OnBloomTrace(s, base, e, width, height);
    var p := BloomSetup(s, base, e);
    assert p.contents == s.contents[s.swap := s.contents[s.source]];
    assert Max0(e.steps) == 0;
    assert SeparablePasses(p, PerExtent(width, e.offsetX), PerExtent(height, e.offsetY), 0) == p;
  }

  /** After `n` passes the roles source and target are exchanged exactly when `n` is
      odd, and swap has not moved. */
  predicate RolesAfter(s: State, r: State, n: nat) {
    && r.swap == s.swap
    && if n % 2 == 0 then r.source == s.source && r.target == s.target
       else r.source == s.target && r.target == s.source
  }

  /** After `n` passes: source and target exchanged exactly when `n` is odd, swap in
      place, `n` more passes in the trace, and the earlier trace kept as a prefix. */
  predicate Progress(s: State, r: State, n: nat) {
    && RolesAfter(s, r, n)
    && Passes(r.trace) == Passes(s.trace) + n
    && s.trace <= r.trace
  }

  // Parity facts, proved away from the pipeline's terms, where they are cheap.
  lemma Even(k: nat)
    ensures (2 * k) % 2 == 0
  {
  }

  lemma Odd(k: nat)
    ensures (2 * k + 1) % 2 == 1
  {
  }

  /** `a` is a prefix of `a + b`, with the right operand grouped. */
  lemma PrefixOfAppend(a: seq<Event>, b: seq<Event>)
    ensures a <= a + b
  {
    assert (a + b)[..|a|] == a;
  }

  /** `a` is a prefix of `a + b + c` and of `a + b + c + d`, grouped to the left. */
  lemma PrefixOfAppend3(a: seq<Event>, b: seq<Event>, c: seq<Event>, d: seq<Event>)
    ensures a <= a + b + c && a <= a + b + c + d
  {
    assert (a + b + c)[..|a|] == (a + b)[..|a|] == a;
    assert (a + b + c + d)[..|a|] == (a + b + c)[..|a|];
  }

  /** No pass is no progress. */
  lemma NoProgress(s: State)
    ensures Progress(s, s, 0)
  {
  }

  /** Progress composes: `n` passes then `m` passes are `n + m` passes, and role
      exchanges never make distinct roles collide. */
  lemma ProgressCompose(s: State, p: State, r: State, n: nat, m: nat, k: nat)
    requires Progress(s, p, n) && Progress(p, r, m) && k == n + m
    ensures Progress(s, r, k)
    ensures Distinct(s) ==> Distinct(r)
  {
    assert (n + m) % 2 == 0 <==> (n % 2 == 0 <==> m % 2 == 0);
    assert r.trace[..|s.trace|] == p.trace[..|s.trace|];
  }

  /** A single-pass handler makes one pass of progress. */
  lemma SinglePassProgress(s: State, base: nat, e: Effect, width: int, height: int)
    requires Valid(s) && !e.Blur? && !e.Bloom?
    ensures var r := Dispatch(s, base, e, width, height);
      Progress(s, r, 1) && r.shader == SelectedSlot(base, e)
  {
    SinglePassDispatch(s, base, e, width, height);
    var slot := SelectedSlot(base, e);
    var dims := DimsFor(e, width, height);
    PrefixOfAppend(s.trace, [ShaderSet(slot), SettingsBound(slot, e, dims), Copied(s.source, s.target)]);
    Odd(0);
  }

  /** Blur and bloom make 2 * max(0, steps) passes of progress. */
  lemma MultiPassProgress(s: State, base: nat, e: Effect, width: int, height: int)
    requires Valid(s) && (e.Blur? || e.Bloom?)
    ensures var r := Dispatch(s, base, e, width, height);
      Progress(s, r, PassesOf(e)) && r.shader == SelectedSlot(base, e)
  {
    var slot := SelectedSlot(base, e);
    assert PassesOf(e) == 2 * Max0(e.steps);
    Even(Max0(e.steps));
    if e.Blur? {
      DispatchBlur(s, base, e, width, height);
      OnBlurEffect(s, base, e, width, height);
      PrefixOfAppend3(s.trace, BlurSetupEvents(slot, e, width, height),
                      Repeat(SeparableRound(slot, e.x, e.y, s.source, s.target), Max0(e.steps)), []);
    } else {
      DispatchBloom(s, base, e, width, height);
      OnBloomTrace(s, base, e, width, height);
      var x, y := PerExtent(width, e.offsetX), PerExtent(height, e.offsetY);
      PrefixOfAppend3(s.trace, BloomSetupEvents(s, slot, e),
                      Repeat(SeparableRound(slot, x, y, s.source, s.target), Max0(e.steps)),
                      BloomFinishEvents(s, e));
    }
  }

  /** Any handler: the number of passes is PassesOf(effect), the roles are exchanged
      exactly when that number is odd, swap stays, the program run is the effect's own,
      and the trace only grows. */
  lemma DispatchEffect(s: State, base: nat, e: Effect, width: int, height: int)
    requires Valid(s)
    ensures var r := Dispatch(s, base, e, width, height);
      && Progress(s, r, PassesOf(e))
      && r.shader == SelectedSlot(base, e)
  {
    if e.Blur? || e.Bloom? {
      MultiPassProgress(s, base, e, width, height);
    } else {
      assert PassesOf(e) == 1;
      SinglePassProgress(s, base, e, width, height);
    }
  }

  // ---- the chain -------------------------------------------------------------

  /** The chain issues TotalPasses(fx) passes; source and target are exchanged exactly
      when that number is odd; swap stays; distinct roles stay distinct. */
  lemma {:induction false} ChainEffect(s: State, base: nat, fx: seq<FxConfig>, width: int, height: int)
    requires Valid(s)
    ensures var r := Chain(s, base, fx, width, height);
      && Progress(s, r, TotalPasses(fx))
      && (Distinct(s) ==> Distinct(r))
    decreases |fx|
  {
    if fx == [] {
      NoProgress(s);
    } else {
      var init := fx[..|fx| - 1];
      ChainEffect(s, base, init, width, height);
      var p := Chain(s, base, init, width, height);
      var c := fx[|fx| - 1];
      var r := Chain(s, base, fx, width, height);
      if c.active {
        assert r == Dispatch(p, base, c.effect, width, height);
        assert TotalPasses(fx) == TotalPasses(init) + PassesOf(c.effect);
        DispatchEffect(p, base, c.effect, width, height);
        ProgressCompose(s, p, r, TotalPasses(init), PassesOf(c.effect), TotalPasses(fx));
      } else {
        assert r == p;
        assert TotalPasses(fx) == TotalPasses(init);
        NoProgress(p);
        ProgressCompose(s, p, r, TotalPasses(init), 0, TotalPasses(fx));
      }
    }
  }

  /** Entry i of the chain runs on the state entries 0 .. i - 1 left. */
  lemma ChainStep(s: State, base: nat, fx: seq<FxConfig>, i: nat, width: int, height: int)
    requires Valid(s) && i < |fx|
    ensures var p := Chain(s, base, fx[..i], width, height);
      Chain(s, base, fx[..i + 1], width, height)
        == if fx[i].active then Dispatch(p, base, fx[i].effect, width, height) else p
  {
    assert fx[..i + 1][..i] == fx[..i];
    assert fx[..i + 1][i] == fx[i];
  }

  /** Effects compose left to right: running a list is running its first part to
      completion and then its second part from that result. */
  lemma {:induction false} ChainAppend(s: State, base: nat, a: seq<FxConfig>, b: seq<FxConfig>, width: int, height: int)
    requires Valid(s)
    ensures Chain(s, base, a + b, width, height) == Chain(Chain(s, base, a, width, height), base, b, width, height)
    decreases |b|
  {
    if b == [] {
      assert a + b == a;
    } else {
      var b' := b[..|b| - 1];
      assert (a + b)[..|a + b| - 1] == a + b';
      assert (a + b)[|a + b| - 1] == b[|b| - 1];
      ChainAppend(s, base, a, b', width, height);
    }
  }

  /** A list of inactive entries does nothing at all. */
  lemma {:induction false} ChainInactive(s: State, base: nat, fx: seq<FxConfig>, width: int, height: int)
    requires Valid(s)
    requires forall i :: 0 <= i < |fx| ==> !fx[i].active
    ensures Chain(s, base, fx, width, height) == s
    decreases |fx|
  {
    if fx != [] {
      ChainInactive(s, base, fx[..|fx| - 1], width, height);
    }
  }

  /** Inserting an inactive entry anywhere changes nothing; an active one runs its
      handler on exactly the state its predecessors produced. */
  lemma ChainEntry(s: State, base: nat, a: seq<FxConfig>, c: FxConfig, b: seq<FxConfig>, width: int, height: int)
    requires Valid(s)
    ensures var before := Chain(s, base, a, width, height);
      Chain(s, base, a + [c] + b, width, height)
        == Chain(if c.active then Dispatch(before, base, c.effect, width, height) else before, base, b, width, height)
    ensures !c.active ==> Chain(s, base, a + [c] + b, width, height) == Chain(s, base, a + b, width, height)
  {
    ChainAppend(s, base, a + [c], b, width, height);
    ChainAppend(s, base, a, [c], width, height);
    assert [c][..0] == [];
    ChainAppend(s, base, a, b, width, height);
  }

  /** Distinct roles stay distinct after every entry of the chain. */
  lemma ChainPrefixesDistinct(s: State, base: nat, fx: seq<FxConfig>, width: int, height: int)
    requires Valid(s) && Distinct(s)
    ensures forall k :: 0 <= k <= |fx| ==> Distinct(Chain(s, base, fx[..k], width, height))
  {
    forall k | 0 <= k <= |fx|
      ensures Distinct(Chain(s, base, fx[..k], width, height))
    {
      ChainEffect(s, base, fx[..k], width, height);
    }
  }

  // ---- onDraw --------------------------------------------------------------------------

  /** The number of passes onDraw runs for a sprite. */
  function SpritePasses(sprite: Option<Sprite>): nat {
    if sprite.Some? && sprite.value.fx.Some? then TotalPasses(sprite.value.fx.value) else 0
  }

  /** Presenting the source after `n` passes from the roles onDraw binds. */
  lemma Present(s1: State, s2: State, n: nat, target1: Buf, target2: Buf, target3: Buf)
    requires s1.source == target1 && s1.target == target2 && s1.swap == target3
    requires Progress(s1, s2, n) && (Distinct(s1) ==> Distinct(s2))
    ensures var r := DrawToGame(s2, s2.source);
      && Passes(r.trace) == Passes(s1.trace) + n
      && Output(r) == Some(r.source)
      && r.source == (if n % 2 == 0 then target1 else target2)
      && r.swap == target3
      && (target1 != target2 ==> (r.source == target1 <==> n % 2 == 0))
      && (target1 != target2 && target2 != target3 && target1 != target3 ==> Distinct(r))
  {
    PassesSnoc(s2.trace, Presented(s2.source));
  }

  /** onDraw issues SpritePasses passes and presents one buffer: target1 when that
      number is even, target2 when it is odd. Distinct targets keep distinct roles. */
  lemma DrawEffect(s: State, base: nat, target1: Buf, target2: Buf, target3: Buf,
                   sprite: Option<Sprite>, width: int, height: int)
    requires Valid(s)
    ensures var r := Draw(s, base, target1, target2, target3, sprite, width, height);
      && Passes(r.trace) == Passes(s.trace) + SpritePasses(sprite)
      && Output(r) == Some(r.source)
      && r.source == (if SpritePasses(sprite) % 2 == 0 then target1 else target2)
      && r.swap == target3
      && (target1 != target2 ==> (r.source == target1 <==> SpritePasses(sprite) % 2 == 0))
      && (target1 != target2 && target2 != target3 && target1 != target3 ==> Distinct(r))
  {
    var s1 := s.(source := target1, target := target2, swap := target3);
    var s2 := if sprite.Some? && sprite.value.fx.Some?
              then Chain(s1, base, sprite.value.fx.value, width, height)
              else s1;
    if sprite.Some? && sprite.value.fx.Some? {
      ChainEffect(s1, base, sprite.value.fx.value, width, height);
    } else {
      NoProgress(s1);
    }
    Present(s1, s2, SpritePasses(sprite), target1, target2, target3);
  }

  /** With no sprite, no effect list, or only inactive entries, onDraw issues no pass,
      changes no buffer, and presents target1. */
  lemma DrawWithoutEffects(s: State, base: nat, target1: Buf, target2: Buf, target3: Buf,
                           sprite: Option<Sprite>, width: int, height: int)
    requires Valid(s)
    requires sprite.Some? && sprite.value.fx.Some? ==>
               forall i :: 0 <= i < |sprite.value.fx.value| ==> !sprite.value.fx.value[i].active
    ensures var r := Draw(s, base, target1, target2, target3, sprite, width, height);
      && r.trace == s.trace + [Presented(target1)]
      && r.contents == s.contents
      && r.source == target1
  {
    if sprite.Some? && sprite.value.fx.Some? {
      var s1 := s.(source := target1, target := target2, swap := target3);
      ChainInactive(s1, base, sprite.value.fx.value, width, height);
    }
  }

  /** A pixelate entry followed by a two-step low-quality blur: five passes in all, the
      odd count leaving the image in target2, which is presented. */
  lemma PixelateThenBlur(s: State, base: nat, target1: Buf, target2: Buf, target3: Buf,
                         pixelate: nat, strength: Scalar, color: Scalar, x: Scalar, y: Scalar)
    requires Valid(s)
    ensures var fx := [FxConfig(true, Effect.Pixelate(pixelate)),
                       FxConfig(true, Effect.Blur(Low, strength, color, x, y, 2))];
      var r := Draw(s, base, target1, target2, target3, Some(Sprite(Some(fx))), 64, 64);
      && Passes(r.trace) == Passes(s.trace) + 5
      && Output(r) == Some(target2)
  {
    var fx := [FxConfig(true, Effect.Pixelate(pixelate)),
               FxConfig(true, Effect.Blur(Low, strength, color, x, y, 2))];
    assert fx[..1] == [fx[0]] && [fx[0]][..0] == [];
    assert TotalPasses([fx[0]]) == 1;
    assert PassesOf(fx[1].effect) == 4;
    assert TotalPasses(fx) == 5;
    Odd(2);
    DrawEffect(s, base, target1, target2, target3, Some(Sprite(Some(fx))), 64, 64);
  }
}
