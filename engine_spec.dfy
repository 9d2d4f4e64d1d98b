/**
 * What the command engine does, as functions of the observable state: the
 * results pending in the Writer, the must-validate flags kept by Resources,
 * and the calls made so far to the device and to Resources, oldest first.
 * `k` is always the command index that errors are tagged with.
 */
module EngineSpec {
  import opened ComposerTypes
  import opened Dispatch

  datatype EngineState = EngineState(
    results: seq<Payload>,
    mustValidate: map<Display, bool>,
    halCalls: seq<HalCall>,
    resourceCalls: seq<ResourceCall>)

  /** Resources' must-validate flag for a display (unset counts as clear). */
  predicate MustValidate(s: EngineState, display: Display)
  {
    display in s.mustValidate && s.mustValidate[display]
  }

  /** `r` extends `s`: results and both call logs only grow at the end, and
      must-validate flags are only ever cleared. */
  ghost predicate Grows(s: EngineState, r: EngineState)
  {
    && s.results <= r.results
    && s.halCalls <= r.halCalls
    && s.resourceCalls <= r.resourceCalls
    && forall d :: MustValidate(r, d) ==> MustValidate(s, d)
  }

  /** Every error appended between `s` and `r` carries command index k. */
  ghost predicate TaggedWith(s: EngineState, r: EngineState, k: int)
  {
    forall i :: |s.results| <= i < |r.results| && r.results[i].Error? ==> r.results[i].index == k
  }

  /** No error was appended between `s` and `r`. */
  ghost predicate Silent(s: EngineState, r: EngineState)
  {
    forall i :: |s.results| <= i < |r.results| ==> !r.results[i].Error?
  }

  ghost predicate Advances(s: EngineState, r: EngineState, k: int)
  {
    Grows(s, r) && TaggedWith(s, r, k)
  }

  /** The payloads appended between `s` and `r`. */
  function Appended(s: EngineState, r: EngineState): seq<Payload>
    requires |s.results| <= |r.results|
  {
    r.results[|s.results|..]
  }

  /** The device's answer to call `c` after the calls logged in `s`. */
  function Reply(env: Env, s: EngineState, c: HalCall): HalReply
  {
    env.hal(s.halCalls, c)
  }

  function Called(s: EngineState, c: HalCall): EngineState
  {
    s.(halCalls := s.halCalls + [c])
  }

  function Recorded(s: EngineState, ps: seq<Payload>): EngineState
  {
    s.(results := s.results + ps)
  }

  /** The shared setter pattern: one device call; an error tagged k when
      its status is non-zero, nothing otherwise. */
  function SimpleSet(env: Env, s: EngineState, k: int, c: HalCall): (r: EngineState)
    ensures Advances(s, r, k)
    ensures r.halCalls == s.halCalls + [c]
    ensures r.mustValidate == s.mustValidate && r.resourceCalls == s.resourceCalls
  {
    var status := Reply(env, s, c).status;
    if status != StatusNone then Recorded(Called(s, c), [Error(k, status)]) else Called(s, c)
  }

  /** Where an ordinary buffer setter passes the resolved handle on. */
  datatype BufferTarget =
    | ClientTargetOf(display: Display, fence: Fence, dataspace: int, damage: seq<Option<Rect>>)
    | OutputBufferOf(display: Display, fence: Fence)
    | LayerBufferOf(display: Display, layer: Layer, fence: Fence)

  function TargetCall(t: BufferTarget, handle: BufferHandle): HalCall
  {
    match t
    case ClientTargetOf(d, fence, dataspace, damage) => SetClientTarget(d, handle, fence, dataspace, damage)
    case OutputBufferOf(d, fence) => SetOutputBuffer(d, handle, fence)
    case LayerBufferOf(d, l, fence) => SetLayerBuffer(d, l, handle, fence)
  }

  /** Answer of Resources to request `rc` after the requests logged in `s`. */
  function Resolve(env: Env, s: EngineState, rc: ResourceCall): Resolution
  {
    env.resources(s.resourceCalls, rc)
  }

  function Requested(s: EngineState, rc: ResourceCall): EngineState
  {
    s.(resourceCalls := s.resourceCalls + [rc])
  }

  /** Ordinary buffer setter: resolve, then on success call the device with
      the resolved handle; a failed resolution is reported in its place. */
  function ResolveThenSet(env: Env, s: EngineState, k: int, rc: ResourceCall, t: BufferTarget): (r: EngineState)
    ensures Advances(s, r, k)
    ensures r.resourceCalls == s.resourceCalls + [rc]
    ensures r.mustValidate == s.mustValidate
  {
    var res := Resolve(env, s, rc);
    if res.status == StatusNone then SimpleSet(env, Requested(s, rc), k, TargetCall(t, res.handle))
    else Recorded(Requested(s, rc), [Error(k, res.status)])
  }

  /** Sideband-stream setter: the device is called only when resolution
      returns non-zero, and the final status decides the error. */
  function SidebandSet(env: Env, s: EngineState, k: int, display: Display, layer: Layer, stream: WireHandle): (r: EngineState)
    ensures Advances(s, r, k)
    ensures r.resourceCalls == s.resourceCalls + [GetLayerSidebandStream(display, layer, stream)]
    ensures r.mustValidate == s.mustValidate
  {
    var rc := GetLayerSidebandStream(display, layer, stream);
    var res := Resolve(env, s, rc);
    if res.status != StatusNone then SimpleSet(env, Requested(s, rc), k, SetLayerSidebandStream(display, layer, res.handle))
    else Requested(s, rc)
  }

  /** The resolution request of a buffer descriptor: the cache is asked for
      when no raw handle is supplied. */
  function LayerBufferRequest(display: Display, layer: Layer, b: Buffer): ResourceCall
  {
    GetLayerBuffer(display, layer, b.slot, b.handle.None?, b.handle)
  }

  function ClientTargetRequest(display: Display, b: Buffer): ResourceCall
  {
    GetDisplayClientTarget(display, b.slot, b.handle.None?, b.handle)
  }

  function OutputBufferRequest(display: Display, b: Buffer): ResourceCall
  {
    GetDisplayOutputBuffer(display, b.slot, b.handle.None?, b.handle)
  }

  /** One layer setter. */
  function RunLayerStep(env: Env, s: EngineState, k: int, display: Display, layer: Layer, step: LayerStep): (r: EngineState)
    ensures Advances(s, r, k)
  {
    match step
    case LayerCursorPosition(p) => SimpleSet(env, s, k, SetLayerCursorPosition(display, layer, p.x, p.y))
    case LayerBuffer(b) => ResolveThenSet(env, s, k, LayerBufferRequest(display, layer, b), LayerBufferOf(display, layer, b.fence))
    case LayerSurfaceDamage(d) => SimpleSet(env, s, k, SetLayerSurfaceDamage(display, layer, d))
    case LayerBlendMode(m) => SimpleSet(env, s, k, SetLayerBlendMode(display, layer, m))
    case LayerColor(c) => SimpleSet(env, s, k, SetLayerColor(display, layer, c))
    case LayerComposition(c) => SimpleSet(env, s, k, SetLayerCompositionType(display, layer, c))
    case LayerDataspace(d) => SimpleSet(env, s, k, SetLayerDataspace(display, layer, d))
    case LayerDisplayFrame(f) => SimpleSet(env, s, k, SetLayerDisplayFrame(display, layer, f))
    case LayerPlaneAlpha(a) => SimpleSet(env, s, k, SetLayerPlaneAlpha(display, layer, a))
    case LayerSidebandStream(h) => SidebandSet(env, s, k, display, layer, h)
    case LayerSourceCrop(c) => SimpleSet(env, s, k, SetLayerSourceCrop(display, layer, c))
    case LayerTransform(t) => SimpleSet(env, s, k, SetLayerTransform(display, layer, t))
    case LayerVisibleRegion(v) => SimpleSet(env, s, k, SetLayerVisibleRegion(display, layer, v))
    case LayerZOrder(z) => SimpleSet(env, s, k, SetLayerZOrder(display, layer, z))
    case LayerColorTransform(m) => SimpleSet(env, s, k, SetLayerColorTransform(display, layer, m))
    case LayerPerFrameMetadata(m) => SimpleSet(env, s, k, SetLayerPerFrameMetadata(display, layer, m))
    case LayerPerFrameMetadataBlobs(b) => SimpleSet(env, s, k, SetLayerPerFrameMetadataBlobs(display, layer, b))
  }

  /** Internal validate: one device call, the display's must-validate flag
      cleared whatever the status, then either the two result lists or one
      error. Returns the device status. */
  function ValidateInternal(env: Env, s: EngineState, k: int, display: Display): (r: (EngineState, int))
    ensures Advances(s, r.0, k)
    ensures r.1 == Reply(env, s, ValidateDisplay(display)).status
    ensures !MustValidate(r.0, display)
    ensures r.0.halCalls == s.halCalls + [ValidateDisplay(display)] && r.0.resourceCalls == s.resourceCalls
  {
    var reply := Reply(env, s, ValidateDisplay(display));
    var s1 := Called(s, ValidateDisplay(display)).(mustValidate := s.mustValidate[display := false]);
    if reply.status == StatusNone || reply.status == StatusHasChanges then
      (Recorded(s1, [ChangedCompositionTypes(display, reply.changedLayers, reply.compositionTypes),
                     DisplayRequests(display, reply.displayRequestMask, reply.requestedLayers, reply.requestMasks)]),
       reply.status)
    else
      (Recorded(s1, [Error(k, reply.status)]), reply.status)
  }

  /** The expected-present-time hint; its status is ignored. */
  function SetPresentTime(s: EngineState, display: Display, time: Option<Timestamp>): (r: EngineState)
    ensures r.halCalls == s.halCalls + [SetExpectedPresentTime(display, time)]
    ensures r.results == s.results && r.mustValidate == s.mustValidate && r.resourceCalls == s.resourceCalls
  {
    Called(s, SetExpectedPresentTime(display, time))
  }

  /** The validate command: the hint, then internal validate. */
  function Validate(env: Env, s: EngineState, k: int, display: Display, time: Option<Timestamp>): (r: EngineState)
    ensures Advances(s, r, k)
  {
    ValidateInternal(env, SetPresentTime(s, display, time), k, display).0
  }

  /** Present: one device call; on success a present fence (unless it is -1)
      and the release fences; on failure nothing, not even an error. */
  function Present(env: Env, s: EngineState, display: Display): (r: (EngineState, int))
    ensures Grows(s, r.0) && Silent(s, r.0)
    ensures r.1 == Reply(env, s, PresentDisplay(display)).status
    ensures r.0.halCalls == s.halCalls + [PresentDisplay(display)]
    ensures r.0.mustValidate == s.mustValidate && r.0.resourceCalls == s.resourceCalls
  {
    var reply := Reply(env, s, PresentDisplay(display));
    var s1 := Called(s, PresentDisplay(display));
    if reply.status == StatusNone then (Recorded(s1, PresentPayloads(display, reply)), reply.status)
    else (s1, reply.status)
  }

  /** What a successful present writes: the present fence (unless it is -1),
      then the release fences. */
  function PresentPayloads(display: Display, reply: HalReply): (ps: seq<Payload>)
    ensures 1 <= |ps| <= 2 && ps[|ps| - 1] == ReleaseFences(display, reply.releasedLayers, reply.releaseFences)
    ensures |ps| == 2 <==> reply.presentFence != NoFence
    ensures forall i :: 0 <= i < |ps| ==> !ps[i].Error? && !ps[i].PresentOrValidateResult?
  {
    (if reply.presentFence != NoFence then [PresentFence(display, reply.presentFence)] else []) +
    [ReleaseFences(display, reply.releasedLayers, reply.releaseFences)]
  }

  /** The client-composition query: true only when it succeeds and says so. */
  function ClientComposition(env: Env, s: EngineState, display: Display): (r: (EngineState, bool))
    ensures r.0 == Called(s, GetHasClientComposition(display))
  {
    var reply := Reply(env, s, GetHasClientComposition(display));
    (Called(s, GetHasClientComposition(display)), reply.status == StatusNone && reply.hasClientComposition)
  }

  /** The present-or-validate fast path: present as is, unless Resources
      says the display must be validated first (that counts as the present
      failing with NOT_VALIDATED); on failure fall back to validation. */
  function PresentOrValidate(env: Env, s: EngineState, k: int, display: Display, time: Option<Timestamp>): (r: EngineState)
    ensures Advances(s, r, k)
  {
    var s1 := SetPresentTime(s, display, time);
    if MustValidate(s1, display) then Fallback(env, s1, k, display)
    else
      var (s2, presentErr) := Present(env, s1, display);
      if presentErr == StatusNone then Recorded(s2, [PresentOrValidateResult(display, Presented)])
      else Fallback(env, s2, k, display)
  }

  /** Validation after a refused present: a failed validation ends the
      command; HAS_CHANGES means the frame cannot be presented directly. */
  function Fallback(env: Env, s: EngineState, k: int, display: Display): (r: EngineState)
    ensures Advances(s, r, k)
  {
    var (s3, validateErr) := ValidateInternal(env, s, k, display);
    if validateErr != StatusNone && validateErr != StatusHasChanges then s3
    else if validateErr == StatusHasChanges then Recorded(s3, [PresentOrValidateResult(display, Validated)])
    else AfterCleanValidate(env, s3, k, display)
  }

  /** After a validation that returned NONE: if the frame needs client
      composition the outcome is Validated; otherwise accept the changes and
      present again, and report Presented only if that present succeeds. */
  function AfterCleanValidate(env: Env, s: EngineState, k: int, display: Display): (r: EngineState)
    ensures Advances(s, r, k)
  {
    var (s4, cannotPresentDirectly) := ClientComposition(env, s, display);
    if cannotPresentDirectly then Recorded(s4, [PresentOrValidateResult(display, Validated)])
    else
      var s5 := SimpleSet(env, s4, k, AcceptDisplayChanges(display));
      var (s6, retryErr) := Present(env, s5, display);
      if retryErr == StatusNone then Recorded(s6, [PresentOrValidateResult(display, Presented)]) else s6
  }

  /** One display-level invocation. */
  function RunDisplayStep(env: Env, s: EngineState, k: int, display: Display, step: DisplayStep): (r: EngineState)
    ensures Advances(s, r, k)
  {
    match step
    case DisplayColorTransform(m) => SimpleSet(env, s, k, SetColorTransform(display, m))
    case DisplayClientTarget(ct) =>
      ResolveThenSet(env, s, k, ClientTargetRequest(display, ct.buffer),
                     ClientTargetOf(display, ct.buffer.fence, ct.dataspace, ct.damage))
    case DisplayOutputBuffer(b) => ResolveThenSet(env, s, k, OutputBufferRequest(display, b), OutputBufferOf(display, b.fence))
    case DisplayBrightness(v) => SimpleSet(env, s, k, SetDisplayBrightness(display, v))
    case DisplayValidate(time) => Validate(env, s, k, display, time)
    case DisplayAcceptChanges => SimpleSet(env, s, k, AcceptDisplayChanges(display))
    case DisplayPresent => Present(env, s, display).0
    case DisplayPresentOrValidate(time) => PresentOrValidate(env, s, k, display, time)
  }

  /** The steps of one layer command, first step first. */
  function RunLayerSteps(env: Env, s: EngineState, k: int, display: Display, layer: Layer, steps: seq<LayerStep>): (r: EngineState)
    decreases |steps|
    ensures Advances(s, r, k)
  {
    if steps == [] then s
    else RunLayerSteps(env, RunLayerStep(env, s, k, display, layer, steps[0]), k, display, layer, steps[1..])
  }

  function RunDisplaySteps(env: Env, s: EngineState, k: int, display: Display, steps: seq<DisplayStep>): (r: EngineState)
    decreases |steps|
    ensures Advances(s, r, k)
  {
    if steps == [] then s
    else RunDisplaySteps(env, RunDisplayStep(env, s, k, display, steps[0]), k, display, steps[1..])
  }

  /** One layer command: its present fields, in the fixed order. */
  function RunLayerCommand(env: Env, s: EngineState, k: int, display: Display, lc: LayerCommand): (r: EngineState)
    ensures Advances(s, r, k)
  {
    RunLayerSteps(env, s, k, display, lc.layer, LayerSteps(lc))
  }

  /** The layer commands of a display command, in listed order. */
  function RunLayerCommands(env: Env, s: EngineState, k: int, display: Display, lcs: seq<LayerCommand>): (r: EngineState)
    decreases |lcs|
    ensures Advances(s, r, k)
  {
    if lcs == [] then s
    else RunLayerCommand(env, RunLayerCommands(env, s, k, display, lcs[..|lcs| - 1]), k, display, lcs[|lcs| - 1])
  }

  /** One display command: all its layer commands, then its own fields. */
  function RunDisplayCommand(env: Env, s: EngineState, k: int, cmd: DisplayCommand): (r: EngineState)
    ensures Advances(s, r, k)
  {
    RunDisplaySteps(env, RunLayerCommands(env, s, k, cmd.display, cmd.layers), k, cmd.display, DisplaySteps(cmd))
  }

  /** A batch: display command i is run with command index i. */
  function Batch(env: Env, s: EngineState, cmds: seq<DisplayCommand>): (r: EngineState)
    decreases |cmds|
    ensures Grows(s, r)
    ensures forall i :: |s.results| <= i < |r.results| && r.results[i].Error? ==> 0 <= r.results[i].index < |cmds|
  {
    if cmds == [] then s
    else
      var n := |cmds| - 1;
      RunDisplayCommand(env, Batch(env, s, cmds[..n]), n, cmds[n])
  }

  /** The batch through command i is the batch before it, then command i,
      whose errors all carry index i. */
  lemma BatchThenCommand(env: Env, s: EngineState, cmds: seq<DisplayCommand>, i: nat)
    requires i < |cmds|
    ensures Batch(env, s, cmds[..i + 1]) == RunDisplayCommand(env, Batch(env, s, cmds[..i]), i, cmds[i])
    ensures TaggedWith(Batch(env, s, cmds[..i]), Batch(env, s, cmds[..i + 1]), i)
  {
    assert cmds[..i + 1][..i] == cmds[..i];
  }

  /** The layer commands through i are those before it, then command i. */
  lemma LayerCommandsThenOne(env: Env, s: EngineState, k: int, display: Display, lcs: seq<LayerCommand>, i: nat)
    requires i < |lcs|
    ensures RunLayerCommands(env, s, k, display, lcs[..i + 1])
         == RunLayerCommand(env, RunLayerCommands(env, s, k, display, lcs[..i]), k, display, lcs[i])
  {
    assert lcs[..i + 1][..i] == lcs[..i];
  }
}
