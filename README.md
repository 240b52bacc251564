# Phaser FX pipeline: the effect chain, verified

This project models the effect-chain orchestrator of Phaser's WebGL `FXPipeline`
(`src/renderer/webgl/pipelines/FXPipeline.js`) and proves properties of it. When a
sprite with an `fx` list is drawn, the pipeline borrows three render targets and binds
them to the roles `source`, `target` and `swap`. It then walks the list in order. The
sparse handler table sends each active entry to its effect's handler:

- Glow, shadow, pixelate, vignette, shine and gradient select their own shader program,
  let their helper bind its uniforms, and run one pass (`runDraw`). A pass draws
  `source` into `target` and then exchanges the two roles.
- Blur selects one of three programs by quality and sets its uniforms. It then runs
  `steps` rounds of two passes each: offset `(x, 0)`, then `(0, y)`.
- Bloom first snapshots `source` into `swap`. It runs the same separable rounds with
  the bloom program and offsets scaled by `2 / width` and `2 / height`, blends `swap`
  and `source` into `target`, and copies `target` back into `source`.

Finally `drawToGame` presents whichever buffer then holds the `source` role.

The project has four modules:

- `FxTypes` (`fx_types.dfy`): buffer handles, effect entries as a sum type, the fixed
  order of the FX programs, the kind constants, the handler table, symbolic buffer
  contents and the events of the call trace.
- `FxSpec` (`fx_spec.dfy`): a pure state machine. The state is the three roles, the
  current program, the uniforms set on each program, the symbolic contents of each
  buffer, and the trace of graphics calls. There is one function per routine of the
  pipeline. Five more stand for the graphics calls it makes (`setShader`, `copy`,
  `copySprite`, `blendFrames`, `drawToGame`). `SetUniform` stands for the four
  uniform setters, and `PreRender` for an effect helper's `onPreRender`.
- `FxProperties` (`fx_properties.dfy`): lemmas about those functions. They cover pass
  counts, pass order and offsets, which program runs, where each role ends up, what
  each buffer holds, and how the chain composes.
- `FxPipeline` (`fx_pipeline.dfy`): the class `FXPipeline`. Its fields are updated in
  place as in the source, its loops carry invariants, and every method is proved to
  leave the object in exactly the state the matching `FxSpec` function computes.

The kind constants of the effect framework are not part of this model. `FxConst(base, k)`
puts each kind at `base` plus its position in the fixed program order. `base` is the
index of the first FX program in the pipeline's shader list, and every result holds
for every `base`.

Three facts about the code that shape the model:

- The loops `i < steps` (FXPipeline.js:200 and :237) run no round when `steps` is not
  positive, so the model counts `max(0, steps)` rounds.
- Bloom with no steps still blends the snapshot with itself (:246). The model keeps
  that blend as a term (`BloomWithoutSteps`), because whether blending an image with
  itself returns it depends on the blend shader, whose code is not shown.
- The code never checks that the three targets are distinct (:89-91). The model proves
  the roles stay distinct whenever the three targets handed to `onDraw` are distinct.

## Model

| member | source | states |
|---|---|---|
| FxTypes.SelectedSlot | src/renderer/webgl/pipelines/FXPipeline.js:45-57 | the slot a handler selects lies within the ten FX programs, and that program in the fixed order is the effect's own fragment program (blur: the one of its quality) |
| FxTypes.DispatchTable | src/renderer/webgl/pipelines/FXPipeline.js:70-80 | the table maps every kind constant to that kind's handler, has keys only among the FX slots, and has no entry at the medium and high blur slots |
| FxTypes.FxConst | src/renderer/webgl/pipelines/FXPipeline.js:45-57 | every kind constant lies among the ten FX programs that follow `base` in the shader list; SelectedSlot and SlotsIdentifyPrograms state that it names its kind's own program |
| FxProperties.SlotsIdentifyPrograms | src/renderer/webgl/pipelines/FXPipeline.js:45-57 | blur selects `BLUR + quality`; two effects select the same slot exactly when they run the same program, so the three qualities give three distinct slots |
| FxSpec.SetShader | src/renderer/webgl/pipelines/FXPipeline.js:132 | selecting a program changes no role, no buffer contents and no uniform; its event is no pass (NoPasses) |
| FxSpec.SetUniform | src/renderer/webgl/pipelines/FXPipeline.js:191-194 | setting a uniform changes no role, no buffer contents and not the current program; its event is no pass (NoPasses) |
| FxSpec.PreRender | src/renderer/webgl/pipelines/FXPipeline.js:134 | the helper's pre-render step changes no role, no buffer contents and not the current program |
| FxSpec.Copy | src/renderer/webgl/pipelines/FXPipeline.js:122 | a copy keeps every buffer defined and changes only the destination's contents, never a role, the program or a uniform |
| FxSpec.CopySprite | src/renderer/webgl/pipelines/FXPipeline.js:225 | the destination receives exactly the source's contents; no other buffer, role, program or uniform changes |
| FxSpec.BlendFrames | src/renderer/webgl/pipelines/FXPipeline.js:246 | only the destination's contents change; roles, program and uniforms are kept |
| FxSpec.DrawToGame | src/renderer/webgl/pipelines/FXPipeline.js:114 | presenting a buffer changes no role, buffer contents, program or uniform; the buffer is the one Output reads back (Present) |
| FxSpec.RunDraw | src/renderer/webgl/pipelines/FXPipeline.js:117-126 | one pass of the current program from source into target, recorded as one copy event; source and target exchanged; swap, program, uniforms and every other buffer unchanged; distinct roles stay distinct |
| FxSpec.SinglePass | src/renderer/webgl/pipelines/FXPipeline.js:128-137 | keeps every buffer defined; its events, its program and its effect on roles and contents are stated by SinglePassEffect |
| FxSpec.OnGlow | src/renderer/webgl/pipelines/FXPipeline.js:128-137 | keeps every buffer defined; DispatchSingle and SinglePassDispatch state that it selects the glow slot, hands the pass size to its helper and makes one pass |
| FxSpec.OnShadow | src/renderer/webgl/pipelines/FXPipeline.js:139-148 | keeps every buffer defined; DispatchSingle and SinglePassDispatch state that it selects the shadow slot, hands its helper no size and makes one pass |
| FxSpec.OnPixelate | src/renderer/webgl/pipelines/FXPipeline.js:150-159 | keeps every buffer defined; DispatchSingle and SinglePassDispatch state that it selects the pixelate slot, hands the pass size to its helper and makes one pass |
| FxSpec.OnVignette | src/renderer/webgl/pipelines/FXPipeline.js:161-170 | keeps every buffer defined; DispatchSingle and SinglePassDispatch state that it selects the vignette slot, hands its helper no size and makes one pass |
| FxSpec.OnShine | src/renderer/webgl/pipelines/FXPipeline.js:172-181 | keeps every buffer defined; DispatchSingle and SinglePassDispatch state that it selects the shine slot, hands the pass size to its helper and makes one pass |
| FxSpec.OnGradient | src/renderer/webgl/pipelines/FXPipeline.js:210-219 | keeps every buffer defined; DispatchSingle and SinglePassDispatch state that it selects the gradient slot, hands its helper no size and makes one pass |
| FxProperties.SinglePassEffect | src/renderer/webgl/pipelines/FXPipeline.js:128-137 | the single-pass body selects the program, binds the helper's settings on it, and makes one pass that replaces only the target's contents, after which roles are exchanged |
| FxProperties.DispatchSingle | src/renderer/webgl/pipelines/FXPipeline.js:128-181 | the table sends each single-pass kind to the handler of its own program; glow, pixelate and shine hand the pass size to their helper, while shadow, vignette and gradient do not |
| FxProperties.SinglePassDispatch | src/renderer/webgl/pipelines/FXPipeline.js:210-219 | any single-pass entry, gradient included, selects its own slot, issues exactly the events select, bind settings and one pass, makes one pass in all, exchanges source and target, and changes only the old target's contents |
| FxProperties.DispatchHandles | src/renderer/webgl/pipelines/FXPipeline.js:109 | looking an entry's kind constant up in the table and calling the result runs the handler of the entry's own kind |
| FxProperties.DispatchBlur | src/renderer/webgl/pipelines/FXPipeline.js:78 | a blur entry is dispatched to onBlur |
| FxProperties.DispatchBloom | src/renderer/webgl/pipelines/FXPipeline.js:80 | a bloom entry is dispatched to onBloom |
| FxSpec.Handle | src/renderer/webgl/pipelines/FXPipeline.js:128-248 | running the handler of the entry's own kind keeps every buffer defined; DispatchHandles, DispatchSingle, DispatchBlur and DispatchBloom state which routine that is |
| FxSpec.Dispatch | src/renderer/webgl/pipelines/FXPipeline.js:109 | dispatching an entry keeps every buffer defined; DispatchEffect states its pass count, program and roles |
| FxSpec.SeparablePasses | src/renderer/webgl/pipelines/FXPipeline.js:200-207 | any number of separable rounds leaves source, target, swap and the current program where they were |
| FxSpec.Round | src/renderer/webgl/pipelines/FXPipeline.js:202-206 | one round keeps every buffer defined; SeparableRoundTrace, RoundUniforms and RoundContents state its events, its offsets and what each buffer holds after it |
| FxProperties.SeparableRoundTrace | src/renderer/webgl/pipelines/FXPipeline.js:202-206 | the round after m rounds appends exactly offset (x, 0), a pass from source to target, offset (0, y) and a pass back, with the roles as they were at the start |
| FxProperties.RoundUniforms | src/renderer/webgl/pipelines/FXPipeline.js:202-205 | after one round the current program's offset is (0, y) and no other uniform has changed |
| FxProperties.RoundContents | src/renderer/webgl/pipelines/FXPipeline.js:202-206 | after one round source holds its image after a horizontal then a vertical pass; when source and target are distinct, target holds the horizontal pass; every other buffer is untouched |
| FxProperties.SeparableTrace | src/renderer/webgl/pipelines/FXPipeline.js:200-207 | n rounds append exactly n copies of the round: offset (x, 0), pass source to target, offset (0, y), pass back |
| FxProperties.SeparableUniforms | src/renderer/webgl/pipelines/FXPipeline.js:202-205 | after at least one round, the current program's offset is (0, y); no other uniform of any program has changed |
| FxProperties.SeparableContents | src/renderer/webgl/pipelines/FXPipeline.js:200-207 | after n rounds, source holds its old image after n horizontal-then-vertical pairs of passes, target holds the last horizontal pass, and the third buffer is untouched |
| FxProperties.SeparableRoundsPasses | src/renderer/webgl/pipelines/FXPipeline.js:200-207 | n separable rounds contain exactly 2n passes |
| FxProperties.PassesRepeat | src/renderer/webgl/pipelines/FXPipeline.js:200-207 | a helper about `Passes`, which counts the `copy` calls of :122 in a trace: a block of events repeated n times, as the loop repeats its round, contains n times the block's passes |
| FxProperties.PassesAppend | src/renderer/webgl/pipelines/FXPipeline.js:122 | a helper about `Passes`, which counts the `copy` calls of this line in a trace: the count of a concatenated trace is the sum of the parts' counts |
| FxProperties.NoPasses | src/renderer/webgl/pipelines/FXPipeline.js:189-194 | a helper about `Passes`, which counts the `copy` calls of :122 in a trace: events other than copies, such as the uniform uploads of these lines, program selection, snapshots and blends, add no pass |
| FxSpec.BlurSetup | src/renderer/webgl/pipelines/FXPipeline.js:185-194 | keeps every buffer defined; OnBlurEffect and OnBlurContents state the program it selects and the uniforms it sets |
| FxSpec.OnBlur | src/renderer/webgl/pipelines/FXPipeline.js:183-208 | keeps every buffer defined; OnBlurEffect and OnBlurContents state its events, passes, roles and contents |
| FxProperties.OnBlurEffect | src/renderer/webgl/pipelines/FXPipeline.js:183-208 | blur selects program BLUR + quality; it issues the five setup events and then max(0, steps) rounds with offsets alternating (x, 0) and (0, y); it makes 2 * max(0, steps) passes; and it leaves every role on the handle it started on |
| FxProperties.OnBlurContents | src/renderer/webgl/pipelines/FXPipeline.js:189-207 | after blur, source holds its old image after max(0, steps) pairs of passes with the blur uniforms and the two offsets, and every buffer other than source and target is untouched (swap, when the roles are distinct) |
| FxSpec.BloomSetup | src/renderer/webgl/pipelines/FXPipeline.js:223-231 | keeps every buffer defined; OnBloomTrace and OnBloomContents state its snapshot, program and uniforms |
| FxSpec.OnBloom | src/renderer/webgl/pipelines/FXPipeline.js:221-248 | keeps every buffer defined; OnBloomTrace, OnBloomContents and BloomWithoutSteps state its events, passes, roles and contents |
| FxProperties.OnBloomTrace | src/renderer/webgl/pipelines/FXPipeline.js:221-248 | bloom issues, in order: the snapshot of source into swap, the program and uniform setup, max(0, steps) rounds at the normalised offsets, the blend of swap and source into target, and the copy of target into source; it makes 2 * max(0, steps) passes, and every role ends on the handle it started on |
| FxProperties.OnBloomContents | src/renderer/webgl/pipelines/FXPipeline.js:225-247 | with distinct roles, after bloom swap still holds the pre-bloom image, source holds the blend of that image with its bloomed version weighted by strength, and target holds the same blend |
| FxProperties.BloomWithoutSteps | src/renderer/webgl/pipelines/FXPipeline.js:237-247 | bloom with no steps makes no pass, yet source ends as the pre-bloom image blended with itself, whether or not the roles alias |
| FxProperties.ProgressCompose | src/renderer/webgl/pipelines/FXPipeline.js:117-126 | n passes followed by m passes are n + m passes, with roles exchanged exactly when n + m is odd and the earlier trace kept as a prefix; distinct roles stay distinct |
| FxProperties.DispatchEffect | src/renderer/webgl/pipelines/FXPipeline.js:109 | any active entry makes PassesOf(effect) passes (1, or 2 * max(0, steps) for blur and bloom), runs its own program, exchanges source and target exactly when that count is odd, keeps swap and only extends the trace |
| FxSpec.Chain | src/renderer/webgl/pipelines/FXPipeline.js:103-111 | the chain keeps every buffer defined; ChainEffect, ChainAppend, ChainEntry and ChainInactive state what it does |
| FxProperties.ChainEffect | src/renderer/webgl/pipelines/FXPipeline.js:103-111 | the chain makes the sum over active entries of their pass counts, exchanges source and target exactly when that sum is odd, keeps swap, and keeps distinct roles distinct |
| FxProperties.ChainAppend | src/renderer/webgl/pipelines/FXPipeline.js:103-111 | running a list is running its first part and then its second part from that result, so entries take effect strictly in list order |
| FxProperties.ChainInactive | src/renderer/webgl/pipelines/FXPipeline.js:107 | a list of inactive entries changes nothing, the trace included |
| FxProperties.ChainEntry | src/renderer/webgl/pipelines/FXPipeline.js:105-110 | an entry anywhere in the list runs on the state its predecessors left, and inserting an inactive entry changes nothing |
| FxProperties.ChainPrefixesDistinct | src/renderer/webgl/pipelines/FXPipeline.js:89-91 | distinct roles stay pairwise distinct after every prefix of the chain |
| FxSpec.Draw | src/renderer/webgl/pipelines/FXPipeline.js:87-115 | onDraw keeps every buffer defined; DrawEffect and DrawWithoutEffects state which buffer it presents and how many passes it makes |
| FxProperties.Present | src/renderer/webgl/pipelines/FXPipeline.js:114 | after n passes from the roles onDraw binds, presenting the source adds no pass and presents the last event's buffer, which is target1 when n is even and target2 when n is odd; distinct targets give distinct roles |
| FxProperties.DrawEffect | src/renderer/webgl/pipelines/FXPipeline.js:87-115 | onDraw issues SpritePasses(sprite) passes and presents the source buffer; that buffer is target1 exactly when the count is even (target2 otherwise); swap ends on target3; distinct targets keep the roles distinct |
| FxProperties.DrawWithoutEffects | src/renderer/webgl/pipelines/FXPipeline.js:96-114 | with no sprite, no effect list or only inactive entries, the trace gains only the presentation of target1 and no buffer changes |
| FxProperties.PixelateThenBlur | src/renderer/webgl/pipelines/FXPipeline.js:87-208 | a pixelate entry followed by a two-step blur makes five passes, and target2 is presented |
| FxPipeline.FXPipeline.constructor | src/renderer/webgl/pipelines/FXPipeline.js:70-80 | the handler table is built entry by entry and equals DispatchTable(base); the trace starts empty |
| FxPipeline.FXPipeline.Copy | src/renderer/webgl/pipelines/FXPipeline.js:122 | the object's state becomes FxSpec.Copy of the old state: one pass of the current program from a into b |
| FxPipeline.FXPipeline.CopySprite | src/renderer/webgl/pipelines/FXPipeline.js:225 | the state becomes FxSpec.CopySprite of the old state: b receives a's contents |
| FxPipeline.FXPipeline.BlendFrames | src/renderer/webgl/pipelines/FXPipeline.js:246 | the state becomes FxSpec.BlendFrames of the old state: t receives the blend of a and b |
| FxPipeline.FXPipeline.SetShader | src/renderer/webgl/pipelines/FXPipeline.js:132 | the state becomes FxSpec.SetShader of the old state: slot is current, one event recorded |
| FxPipeline.FXPipeline.SetUniform | src/renderer/webgl/pipelines/FXPipeline.js:191-194 | the state becomes FxSpec.SetUniform of the old state: one uniform of the current program set |
| FxPipeline.FXPipeline.Set1i | src/renderer/webgl/pipelines/FXPipeline.js:191 | the state becomes FxSpec.SetUniform of the old state with an integer value |
| FxPipeline.FXPipeline.Set2f | src/renderer/webgl/pipelines/FXPipeline.js:192 | the state becomes FxSpec.SetUniform of the old state with a pair of values |
| FxPipeline.FXPipeline.Set1f | src/renderer/webgl/pipelines/FXPipeline.js:193 | the state becomes FxSpec.SetUniform of the old state with one value |
| FxPipeline.FXPipeline.Set3fv | src/renderer/webgl/pipelines/FXPipeline.js:194 | the state becomes FxSpec.SetUniform of the old state with a colour vector |
| FxPipeline.FXPipeline.PreRender | src/renderer/webgl/pipelines/FXPipeline.js:134 | the state becomes FxSpec.PreRender of the old state: the helper's settings bound on the slot |
| FxPipeline.FXPipeline.DrawToGame | src/renderer/webgl/pipelines/FXPipeline.js:114 | the state becomes FxSpec.DrawToGame of the old state: the buffer's presentation recorded |
| FxPipeline.FXPipeline.RunDraw | src/renderer/webgl/pipelines/FXPipeline.js:117-126 | the fields become FxSpec.RunDraw of the old state (see that row); the handler table and sprite are kept |
| FxPipeline.FXPipeline.OnGlow | src/renderer/webgl/pipelines/FXPipeline.js:128-137 | the state becomes FxSpec.OnGlow of the old state |
| FxPipeline.FXPipeline.OnShadow | src/renderer/webgl/pipelines/FXPipeline.js:139-148 | the state becomes FxSpec.OnShadow of the old state |
| FxPipeline.FXPipeline.OnPixelate | src/renderer/webgl/pipelines/FXPipeline.js:150-159 | the state becomes FxSpec.OnPixelate of the old state |
| FxPipeline.FXPipeline.OnVignette | src/renderer/webgl/pipelines/FXPipeline.js:161-170 | the state becomes FxSpec.OnVignette of the old state |
| FxPipeline.FXPipeline.OnShine | src/renderer/webgl/pipelines/FXPipeline.js:172-181 | the state becomes FxSpec.OnShine of the old state |
| FxPipeline.FXPipeline.OnGradient | src/renderer/webgl/pipelines/FXPipeline.js:210-219 | the state becomes FxSpec.OnGradient of the old state |
| FxPipeline.FXPipeline.SeparableLoop | src/renderer/webgl/pipelines/FXPipeline.js:200-207 | the loop of blur and bloom leaves the state FxSpec.SeparablePasses of the old state with max(0, steps) rounds; its invariant ties each iteration count to that many rounds |
| FxPipeline.FXPipeline.BlurSetup | src/renderer/webgl/pipelines/FXPipeline.js:185-194 | the program selection and four uniform uploads of onBlur leave the state FxSpec.BlurSetup of the old state |
| FxPipeline.FXPipeline.OnBlur | src/renderer/webgl/pipelines/FXPipeline.js:183-208 | the state becomes FxSpec.OnBlur of the old state |
| FxPipeline.FXPipeline.BloomSetup | src/renderer/webgl/pipelines/FXPipeline.js:223-231 | the snapshot, program selection and three uniform uploads of onBloom leave the state FxSpec.BloomSetup of the old state |
| FxPipeline.FXPipeline.OnBloom | src/renderer/webgl/pipelines/FXPipeline.js:221-248 | the state becomes FxSpec.OnBloom of the old state |
| FxPipeline.FXPipeline.CallHandler | src/renderer/webgl/pipelines/FXPipeline.js:109 | calling the handler found in the table under the entry's kind constant leaves the state FxSpec.Dispatch of the old state |
| FxPipeline.FXPipeline.ChainLoop | src/renderer/webgl/pipelines/FXPipeline.js:103-111 | the loop over the list leaves the state FxSpec.Chain of the old state; its invariant ties each index to the chain over that prefix |
| FxPipeline.FXPipeline.OnDraw | src/renderer/webgl/pipelines/FXPipeline.js:87-115 | binding the roles, running the sprite's list and presenting the source leave the state FxSpec.Draw of the old state, so DrawEffect and DrawWithoutEffects hold of the object |

## Left out

- WebGL itself: shader compilation, program binding and uniform uploads are trace events with the obvious effect on the modelled uniforms. The `PreFXPipeline` base class and its bodies of `copy`, `copySprite`, `blendFrames`, `drawToGame`, `setShader` and `set1i`/`set1f`/`set2f`/`set3fv` are not part of this model; their meaning is read off the call sites.
- Whether `copySprite` and `blendFrames` change the current program or its uniforms: their bodies are not shown, and the model lets them change only buffer contents.
- The effect helpers' `onPreRender` (lines 134, 145, 156, 167, 178, 216): their code is not shown. Each is one opaque `Settings` uniform, recording the effect entry and whether the pass size was handed over. Creating the helpers (lines 63-68) is left out with them.
- Floating point: strengths, colours, offsets and blend weights are symbolic `Scalar` values, and bloom's `(2 / width) * offset` is the symbolic `PerExtent(width, offset)`. Pixel contents are symbolic terms, and no blend arithmetic is modelled.
- The concrete `FX_CONST` values: they are not shown, so the kind constants are `base` plus the kind's position in the fixed program order, for an arbitrary `base`.
- `GetFastValue` on a missing key, and an unknown `type` in the sparse table: the entry's typed parameters make both impossible in the model, where the JavaScript would read `undefined` or throw.
- Blur `quality` outside 0, 1 and 2: quality is the three-valued `Quality`, so `BLUR + quality` cannot index past the blur programs.
- Non-integer `steps`: for a fractional value the loop `i < steps` runs `max(0, ceil(steps))` rounds; the model takes `steps` as an integer.
- `onDraw` reads `width` and `height` from `target1`. The model takes them as parameters of `OnDraw`, because buffer dimensions are not modelled.
- `tempSprite` is set by the base class's batching, which is not part of this model; the constructor takes it as a parameter. The roles before the first `onDraw` and the initial current program are placeholders (`B1`, `B2`, `B3` and `base`).
- FxProperties.OnBloomContents: states bloom's final buffer contents only when source, target and swap are distinct. With aliased roles the snapshot is overwritten by the passes, and the source promises nothing for that case.
- FxProperties.SeparableContents: states the target's final contents only when source and target are distinct, for the same reason.
- FxProperties.RoundContents: states the target's contents after one round only when source and target are distinct; when they alias, that one buffer holds the vertical pass, which the statement about source already gives.
- FxProperties.OnBlurContents: states that swap is untouched only when it differs from source and target; an aliased swap takes part in the passes.
