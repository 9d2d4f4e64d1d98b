/**
 * Properties of the command engine's behaviour: how failures are reported,
 * which device calls each setter makes, the present-or-validate fast path,
 * and what a whole batch guarantees about its result payloads.
 */
module EngineProperties {
  import opened ComposerTypes
  import opened Dispatch
  import opened EngineSpec

  // ---------------------------------------------------------------- setters

  /** A setter writes exactly one error, with the device's status and the
      current command index, when the call fails, and nothing when it
      succeeds. */
  lemma SetterReportsOnlyFailure(env: Env, s: EngineState, k: int, c: HalCall)
    ensures Reply(env, s, c).status == StatusNone ==> SimpleSet(env, s, k, c).results == s.results
    ensures Reply(env, s, c).status != StatusNone ==>
      SimpleSet(env, s, k, c).results == s.results + [Error(k, Reply(env, s, c).status)]
  {
  }

  /** A buffer setter calls the device only after a successful resolution,
      and then with the resolved handle, writing an error exactly when that
      call fails; a failed resolution is reported with the resolution's
      status and the device is not called. No flag changes either way. */
  lemma BufferSetterGatedByResolution(env: Env, s: EngineState, k: int, rc: ResourceCall, t: BufferTarget)
    ensures var res := Resolve(env, s, rc);
      res.status != StatusNone ==>
        && ResolveThenSet(env, s, k, rc, t).halCalls == s.halCalls
        && ResolveThenSet(env, s, k, rc, t).results == s.results + [Error(k, res.status)]
    ensures var res := Resolve(env, s, rc);
      var st := env.hal(s.halCalls, TargetCall(t, res.handle)).status;
      res.status == StatusNone ==>
        && ResolveThenSet(env, s, k, rc, t).halCalls == s.halCalls + [TargetCall(t, res.handle)]
        && ResolveThenSet(env, s, k, rc, t).results == s.results + (if st != StatusNone then [Error(k, st)] else [])
    ensures ResolveThenSet(env, s, k, rc, t).mustValidate == s.mustValidate
  {
  }

  /** The cache is consulted exactly when the descriptor carries no handle,
      and the slot is passed through, for all three kinds of buffer. */
  lemma CacheUsedIffNoHandle(display: Display, layer: Layer, b: Buffer)
    ensures LayerBufferRequest(display, layer, b).useCache <==> b.handle.None?
    ensures ClientTargetRequest(display, b).useCache <==> b.handle.None?
    ensures OutputBufferRequest(display, b).useCache <==> b.handle.None?
    ensures LayerBufferRequest(display, layer, b).slot == b.slot
    ensures ClientTargetRequest(display, b).slot == b.slot == OutputBufferRequest(display, b).slot
  {
  }

  /** The sideband setter as written: the device is called only when
      resolution reports a non-zero status, and an error is written only
      when that device call fails as well, with the device's status. No flag
      changes either way. */
  lemma SidebandPolarity(env: Env, s: EngineState, k: int, display: Display, layer: Layer, stream: WireHandle)
    ensures var res := Resolve(env, s, GetLayerSidebandStream(display, layer, stream));
      res.status == StatusNone ==>
        && SidebandSet(env, s, k, display, layer, stream).halCalls == s.halCalls
        && SidebandSet(env, s, k, display, layer, stream).results == s.results
    ensures var res := Resolve(env, s, GetLayerSidebandStream(display, layer, stream));
      var st := env.hal(s.halCalls, SetLayerSidebandStream(display, layer, res.handle)).status;
      res.status != StatusNone ==>
        && SidebandSet(env, s, k, display, layer, stream).halCalls ==
             s.halCalls + [SetLayerSidebandStream(display, layer, res.handle)]
        && SidebandSet(env, s, k, display, layer, stream).results ==
             s.results + (if st != StatusNone then [Error(k, st)] else [])
    ensures SidebandSet(env, s, k, display, layer, stream).mustValidate == s.mustValidate
  {
  }

  // ---------------------------------------------------------- validate/present

  /** Internal validate writes the composition changes and the display
      requests, in that order, exactly when the status is NONE or
      HAS_CHANGES, and a single error otherwise. */
  lemma ValidateReports(env: Env, s: EngineState, k: int, display: Display)
    ensures var reply := Reply(env, s, ValidateDisplay(display));
      Appended(s, ValidateInternal(env, s, k, display).0) ==
        if reply.status == StatusNone || reply.status == StatusHasChanges then
          [ChangedCompositionTypes(display, reply.changedLayers, reply.compositionTypes),
           DisplayRequests(display, reply.displayRequestMask, reply.requestedLayers, reply.requestMasks)]
        else [Error(k, reply.status)]
    ensures ValidateInternal(env, s, k, display).0.mustValidate == s.mustValidate[display := false]
  {
  }

  /** The validate command sends the expected-present-time hint first, then
      validates. */
  lemma ValidateSendsHintFirst(env: Env, s: EngineState, k: int, display: Display, time: Option<Timestamp>)
    ensures Validate(env, s, k, display, time).halCalls ==
      s.halCalls + [SetExpectedPresentTime(display, time), ValidateDisplay(display)]
    ensures !MustValidate(Validate(env, s, k, display, time), display)
  {
  }

  /** Present writes the present fence (only when there is one) and then the
      release fences on success, and nothing at all on failure. */
  lemma PresentReports(env: Env, s: EngineState, display: Display)
    ensures var reply := Reply(env, s, PresentDisplay(display));
      Appended(s, Present(env, s, display).0) ==
        if reply.status != StatusNone then []
        else if reply.presentFence == NoFence then [ReleaseFences(display, reply.releasedLayers, reply.releaseFences)]
        else [PresentFence(display, reply.presentFence), ReleaseFences(display, reply.releasedLayers, reply.releaseFences)]
  {
  }

  // ------------------------------------------------------------------ batches

  /** The errors written between `s` and `r` have non-decreasing indices. */
  ghost predicate ErrorsInOrder(s: EngineState, r: EngineState)
  {
    forall i, j :: |s.results| <= i < j < |r.results| && r.results[i].Error? && r.results[j].Error? ==>
      r.results[i].index <= r.results[j].index
  }

  lemma ErrorsInOrderExtend(s: EngineState, m: EngineState, r: EngineState, n: int)
    requires s.results <= m.results <= r.results
    requires ErrorsInOrder(s, m)
    requires forall i :: |s.results| <= i < |m.results| && m.results[i].Error? ==> m.results[i].index < n
    requires TaggedWith(m, r, n)
    ensures ErrorsInOrder(s, r)
  {
    forall i, j | |s.results| <= i < j < |r.results| && r.results[i].Error? && r.results[j].Error?
      ensures r.results[i].index <= r.results[j].index
    {
      if j < |m.results| {
        assert r.results[i] == m.results[i] && r.results[j] == m.results[j];
      } else if i < |m.results| {
        assert r.results[i] == m.results[i];
      }
    }
  }

  /** Errors appear in the result in command order: each is tagged with the
      index of the display command that caused it, and indices never go
      back. */
  lemma {:induction false} BatchErrorsInCommandOrder(env: Env, s: EngineState, cmds: seq<DisplayCommand>)
    decreases |cmds|
    ensures ErrorsInOrder(s, Batch(env, s, cmds))
  {
    if cmds != [] {
      var n := |cmds| - 1;
      BatchErrorsInCommandOrder(env, s, cmds[..n]);
      BatchThenCommand(env, s, cmds, n);
      assert cmds[..n + 1] == cmds;
      assert |cmds[..n]| == n;
      ErrorsInOrderExtend(s, Batch(env, s, cmds[..n]), Batch(env, s, cmds), n);
    }
  }

  /** A display command with nothing in it changes nothing. */
  lemma EmptyCommandHasNoEffect(env: Env, s: EngineState, k: int, cmd: DisplayCommand)
    requires IsEmpty(cmd)
    ensures RunDisplayCommand(env, s, k, cmd) == s
  {
    EmptyCommandDispatchesNothing(cmd);
  }

  /** A batch of empty display commands leaves the result and both call logs
      as they were. */
  lemma {:induction false} EmptyBatchHasNoEffect(env: Env, s: EngineState, cmds: seq<DisplayCommand>)
    requires forall i :: 0 <= i < |cmds| ==> IsEmpty(cmds[i])
    decreases |cmds|
    ensures Batch(env, s, cmds) == s
  {
    if cmds != [] {
      var n := |cmds| - 1;
      EmptyBatchHasNoEffect(env, s, cmds[..n]);
      EmptyCommandHasNoEffect(env, s, n, cmds[n]);
    }
  }

  /** One display command that only asks for validation, which the device
      accepts with no composition changes: the batch result is the empty
      change list followed by the display requests, and display 1 no longer
      needs validating. */
  lemma ValidateOnlyScenario(env: Env, s: EngineState)
    requires var v := env.hal(s.halCalls + [SetExpectedPresentTime(1, None)], ValidateDisplay(1));
      v.status == StatusNone && v.changedLayers == [] && v.compositionTypes == []
    ensures var cmd := DisplayCommand(1, [], None, None, None, None, true, false, false, false, None);
      var v := env.hal(s.halCalls + [SetExpectedPresentTime(1, None)], ValidateDisplay(1));
      && Batch(env, s, [cmd]).results ==
           s.results + [ChangedCompositionTypes(1, [], []),
                        DisplayRequests(1, v.displayRequestMask, v.requestedLayers, v.requestMasks)]
      && Batch(env, s, [cmd]).halCalls == s.halCalls + [SetExpectedPresentTime(1, None), ValidateDisplay(1)]
      && !MustValidate(Batch(env, s, [cmd]), 1)
  {
    var cmd := DisplayCommand(1, [], None, None, None, None, true, false, false, false, None);
    var r := Validate(env, s, 0, 1, None);
    OneDisplayField(cmd, 4);
    assert RunDisplaySteps(env, s, 0, 1, [DisplayValidate(None)]) == RunDisplaySteps(env, r, 0, 1, []) by {
      assert [DisplayValidate(None)][1..] == [];
    }
    assert Batch(env, s, [cmd]) == RunDisplayCommand(env, s, 0, cmd) by {
      assert [cmd][..0] == [];
    }
  }

  /** One display command whose only layer sets plane alpha, refused by the
      device with code 3: the batch result is the single error (0, 3). */
  lemma PlaneAlphaErrorScenario(env: Env, s: EngineState, alpha: FloatBits)
    requires env.hal(s.halCalls, SetLayerPlaneAlpha(1, 7, alpha)).status == 3
    ensures var lc := LayerCommand(7, None, None, None, None, None, None, None, None, Some(alpha),
                                   None, None, None, None, None, None, None, None, None);
      var cmd := DisplayCommand(1, [lc], None, None, None, None, false, false, false, false, None);
      && Batch(env, s, [cmd]).results == s.results + [Error(0, 3)]
      && Batch(env, s, [cmd]).halCalls == s.halCalls + [SetLayerPlaneAlpha(1, 7, alpha)]
  {
    var lc := LayerCommand(7, None, None, None, None, None, None, None, None, Some(alpha),
                           None, None, None, None, None, None, None, None, None);
    var cmd := DisplayCommand(1, [lc], None, None, None, None, false, false, false, false, None);
    var r := SimpleSet(env, s, 0, SetLayerPlaneAlpha(1, 7, alpha));
    OneLayerField(lc, 8);
    assert RunLayerCommand(env, s, 0, 1, lc) == r by {
      assert [LayerPlaneAlpha(alpha)][1..] == [];
      assert RunLayerStep(env, s, 0, 1, 7, LayerPlaneAlpha(alpha)) == r;
      assert RunLayerSteps(env, s, 0, 1, 7, [LayerPlaneAlpha(alpha)]) == RunLayerSteps(env, r, 0, 1, 7, []);
    }
    assert RunLayerCommands(env, s, 0, 1, [lc]) == r by {
      assert [lc][..0] == [];
    }
    assert DisplaySteps(cmd) == [];
    assert Batch(env, s, [cmd]) == RunDisplayCommand(env, s, 0, cmd) by {
      assert [cmd][..0] == [];
    }
  }

  /** whitePointNits is carried in the command but has no effect. */
  lemma WhitePointNitsHasNoEffect(env: Env, s: EngineState, k: int, display: Display, lc: LayerCommand, nits: Option<FloatBits>)
    ensures RunLayerCommand(env, s, k, display, lc.(whitePointNits := nits)) == RunLayerCommand(env, s, k, display, lc)
  {
    WhitePointNitsNeverDispatched(lc, nits);
  }

  // ------------------------------------------------------------------ scoping

  /** The layer setters of the device. */
  predicate IsLayerCall(c: HalCall)
  {
    || c.SetLayerCursorPosition? || c.SetLayerBuffer? || c.SetLayerSurfaceDamage?
    || c.SetLayerBlendMode? || c.SetLayerColor? || c.SetLayerCompositionType?
    || c.SetLayerDataspace? || c.SetLayerDisplayFrame? || c.SetLayerPlaneAlpha?
    || c.SetLayerSidebandStream? || c.SetLayerSourceCrop? || c.SetLayerTransform?
    || c.SetLayerVisibleRegion? || c.SetLayerZOrder? || c.SetLayerColorTransform?
    || c.SetLayerPerFrameMetadata? || c.SetLayerPerFrameMetadataBlobs?
  }

  predicate IsLayerRequest(rc: ResourceCall)
  {
    rc.GetLayerBuffer? || rc.GetLayerSidebandStream?
  }

  /** Between `s` and `r` only layer `layer` of `display` was touched: only
      its setters were called, only its buffers resolved, and no
      must-validate flag changed. */
  ghost predicate OnLayer(s: EngineState, r: EngineState, display: Display, layer: Layer)
  {
    && r.mustValidate == s.mustValidate
    && (forall j :: |s.halCalls| <= j < |r.halCalls| ==>
          IsLayerCall(r.halCalls[j]) && r.halCalls[j].display == display && r.halCalls[j].layer == layer)
    && (forall j :: |s.resourceCalls| <= j < |r.resourceCalls| ==>
          IsLayerRequest(r.resourceCalls[j]) && r.resourceCalls[j].display == display && r.resourceCalls[j].layer == layer)
  }

  /** Between `s` and `r` only layers of `display` were touched. */
  ghost predicate OnLayersOf(s: EngineState, r: EngineState, display: Display)
  {
    && r.mustValidate == s.mustValidate
    && (forall j :: |s.halCalls| <= j < |r.halCalls| ==>
          IsLayerCall(r.halCalls[j]) && r.halCalls[j].display == display)
    && (forall j :: |s.resourceCalls| <= j < |r.resourceCalls| ==>
          IsLayerRequest(r.resourceCalls[j]) && r.resourceCalls[j].display == display)
  }

  /** Between `s` and `r` only display-level calls for `display` were made,
      and no other display's must-validate flag changed. */
  ghost predicate OnDisplay(s: EngineState, r: EngineState, display: Display)
  {
    && (forall x :: x != display ==> MustValidate(r, x) == MustValidate(s, x))
    && (forall j :: |s.halCalls| <= j < |r.halCalls| ==>
          !IsLayerCall(r.halCalls[j]) && r.halCalls[j].display == display)
    && (forall j :: |s.resourceCalls| <= j < |r.resourceCalls| ==>
          !IsLayerRequest(r.resourceCalls[j]) && r.resourceCalls[j].display == display)
  }

  lemma OnLayerTrans(s: EngineState, m: EngineState, r: EngineState, display: Display, layer: Layer)
    requires Grows(s, m) && Grows(m, r) && OnLayer(s, m, display, layer) && OnLayer(m, r, display, layer)
    ensures OnLayer(s, r, display, layer)
  {
    forall j | |s.halCalls| <= j < |m.halCalls| ensures r.halCalls[j] == m.halCalls[j] {
    }
    forall j | |s.resourceCalls| <= j < |m.resourceCalls| ensures r.resourceCalls[j] == m.resourceCalls[j] {
    }
  }

  lemma OnLayersOfTrans(s: EngineState, m: EngineState, r: EngineState, display: Display)
    requires Grows(s, m) && Grows(m, r) && OnLayersOf(s, m, display) && OnLayersOf(m, r, display)
    ensures OnLayersOf(s, r, display)
  {
    forall j | |s.halCalls| <= j < |m.halCalls| ensures r.halCalls[j] == m.halCalls[j] {
    }
    forall j | |s.resourceCalls| <= j < |m.resourceCalls| ensures r.resourceCalls[j] == m.resourceCalls[j] {
    }
  }

  lemma OnDisplayTrans(s: EngineState, m: EngineState, r: EngineState, display: Display)
    requires Grows(s, m) && Grows(m, r) && OnDisplay(s, m, display) && OnDisplay(m, r, display)
    ensures OnDisplay(s, r, display)
  {
    forall j | |s.halCalls| <= j < |m.halCalls| ensures r.halCalls[j] == m.halCalls[j] {
    }
    forall j | |s.resourceCalls| <= j < |m.resourceCalls| ensures r.resourceCalls[j] == m.resourceCalls[j] {
    }
  }

  lemma LayerStepOnLayer(env: Env, s: EngineState, k: int, display: Display, layer: Layer, step: LayerStep)
    ensures OnLayer(s, RunLayerStep(env, s, k, display, layer, step), display, layer)
  {
  }

  lemma {:induction false} LayerStepsOnLayer(env: Env, s: EngineState, k: int, display: Display, layer: Layer, steps: seq<LayerStep>)
    decreases |steps|
    ensures OnLayer(s, RunLayerSteps(env, s, k, display, layer, steps), display, layer)
  {
    if steps != [] {
      var m := RunLayerStep(env, s, k, display, layer, steps[0]);
      LayerStepOnLayer(env, s, k, display, layer, steps[0]);
      LayerStepsOnLayer(env, m, k, display, layer, steps[1..]);
      OnLayerTrans(s, m, RunLayerSteps(env, s, k, display, layer, steps), display, layer);
    }
  }

  /** A layer command only calls the setters of its own layer, only
      resolves that layer's buffers, and leaves every must-validate flag
      alone. */
  lemma LayerCommandOnItsLayer(env: Env, s: EngineState, k: int, display: Display, lc: LayerCommand)
    ensures OnLayer(s, RunLayerCommand(env, s, k, display, lc), display, lc.layer)
  {
    LayerStepsOnLayer(env, s, k, display, lc.layer, LayerSteps(lc));
  }

  lemma {:induction false} LayerCommandsOnDisplay(env: Env, s: EngineState, k: int, display: Display, lcs: seq<LayerCommand>)
    decreases |lcs|
    ensures OnLayersOf(s, RunLayerCommands(env, s, k, display, lcs), display)
  {
    if lcs != [] {
      var n := |lcs| - 1;
      var m := RunLayerCommands(env, s, k, display, lcs[..n]);
      LayerCommandsOnDisplay(env, s, k, display, lcs[..n]);
      LayerCommandOnItsLayer(env, m, k, display, lcs[n]);
      OnLayersOfTrans(s, m, RunLayerCommands(env, s, k, display, lcs), display);
    }
  }

  lemma SetterOnDisplay(env: Env, s: EngineState, k: int, display: Display, c: HalCall)
    requires !IsLayerCall(c) && c.display == display
    ensures OnDisplay(s, SimpleSet(env, s, k, c), display)
  {
  }

  lemma BufferSetterOnDisplay(env: Env, s: EngineState, k: int, display: Display, rc: ResourceCall, t: BufferTarget)
    requires !IsLayerRequest(rc) && rc.display == display && !t.LayerBufferOf? && t.display == display
    ensures OnDisplay(s, ResolveThenSet(env, s, k, rc, t), display)
  {
  }

  lemma PresentOnDisplay(env: Env, s: EngineState, display: Display)
    ensures OnDisplay(s, Present(env, s, display).0, display)
  {
  }

  lemma ValidateOnDisplay(env: Env, s: EngineState, k: int, display: Display)
    ensures OnDisplay(s, ValidateInternal(env, s, k, display).0, display)
  {
  }

  lemma ValidateCommandOnDisplay(env: Env, s: EngineState, k: int, display: Display, time: Option<Timestamp>)
    ensures OnDisplay(s, Validate(env, s, k, display, time), display)
  {
    var s1 := SetPresentTime(s, display, time);
    ValidateOnDisplay(env, s1, k, display);
    OnDisplayTrans(s, s1, ValidateInternal(env, s1, k, display).0, display);
  }

  lemma AfterCleanValidateOnDisplay(env: Env, s: EngineState, k: int, display: Display)
    ensures OnDisplay(s, AfterCleanValidate(env, s, k, display), display)
  {
    var (s4, cannotPresentDirectly) := ClientComposition(env, s, display);
    if !cannotPresentDirectly {
      var s5 := SimpleSet(env, s4, k, AcceptDisplayChanges(display));
      SetterOnDisplay(env, s4, k, display, AcceptDisplayChanges(display));
      OnDisplayTrans(s, s4, s5, display);
      PresentOnDisplay(env, s5, display);
      var (s6, retryErr) := Present(env, s5, display);
      OnDisplayTrans(s, s5, s6, display);
    }
  }

  lemma FallbackOnDisplay(env: Env, s: EngineState, k: int, display: Display)
    ensures OnDisplay(s, Fallback(env, s, k, display), display)
  {
    var (s3, validateErr) := ValidateInternal(env, s, k, display);
    ValidateOnDisplay(env, s, k, display);
    if validateErr == StatusNone {
      AfterCleanValidateOnDisplay(env, s3, k, display);
      OnDisplayTrans(s, s3, Fallback(env, s, k, display), display);
    }
  }

  lemma PresentOrValidateOnDisplay(env: Env, s: EngineState, k: int, display: Display, time: Option<Timestamp>)
    ensures OnDisplay(s, PresentOrValidate(env, s, k, display, time), display)
  {
    var s1 := SetPresentTime(s, display, time);
    FallbackOnDisplay(env, s1, k, display);
    OnDisplayTrans(s, s1, Fallback(env, s1, k, display), display);
    if !MustValidate(s1, display) {
      var (s2, presentErr) := Present(env, s1, display);
      PresentOnDisplay(env, s1, display);
      OnDisplayTrans(s, s1, s2, display);
      FallbackOnDisplay(env, s2, k, display);
      OnDisplayTrans(s, s2, Fallback(env, s2, k, display), display);
    }
  }

  lemma DisplayStepOnDisplay(env: Env, s: EngineState, k: int, display: Display, step: DisplayStep)
    ensures OnDisplay(s, RunDisplayStep(env, s, k, display, step), display)
  {
    match step
    case DisplayColorTransform(m) => SetterOnDisplay(env, s, k, display, SetColorTransform(display, m));
    case DisplayClientTarget(ct) =>
      BufferSetterOnDisplay(env, s, k, display, ClientTargetRequest(display, ct.buffer),
                            ClientTargetOf(display, ct.buffer.fence, ct.dataspace, ct.damage));
    case DisplayOutputBuffer(b) =>
      BufferSetterOnDisplay(env, s, k, display, OutputBufferRequest(display, b), OutputBufferOf(display, b.fence));
    case DisplayBrightness(v) => SetterOnDisplay(env, s, k, display, SetDisplayBrightness(display, v));
    case DisplayValidate(time) => ValidateCommandOnDisplay(env, s, k, display, time);
    case DisplayAcceptChanges => SetterOnDisplay(env, s, k, display, AcceptDisplayChanges(display));
    case DisplayPresent => PresentOnDisplay(env, s, display);
    case DisplayPresentOrValidate(time) => PresentOrValidateOnDisplay(env, s, k, display, time);
  }

  lemma {:induction false} DisplayStepsOnDisplay(env: Env, s: EngineState, k: int, display: Display, steps: seq<DisplayStep>)
    decreases |steps|
    ensures OnDisplay(s, RunDisplaySteps(env, s, k, display, steps), display)
  {
    if steps != [] {
      var m := RunDisplayStep(env, s, k, display, steps[0]);
      DisplayStepOnDisplay(env, s, k, display, steps[0]);
      DisplayStepsOnDisplay(env, m, k, display, steps[1..]);
      OnDisplayTrans(s, m, RunDisplaySteps(env, s, k, display, steps), display);
    }
  }

  /** Layer calls before display-level calls, all on one display. */
  ghost predicate LayersThenDisplay(s: EngineState, r: EngineState, display: Display)
  {
    && (forall x :: x != display ==> MustValidate(r, x) == MustValidate(s, x))
    && (forall j :: |s.halCalls| <= j < |r.halCalls| ==> r.halCalls[j].display == display)
    && (forall j :: |s.resourceCalls| <= j < |r.resourceCalls| ==> r.resourceCalls[j].display == display)
    && (forall i, j :: |s.halCalls| <= i < j < |r.halCalls| && !IsLayerCall(r.halCalls[i]) ==> !IsLayerCall(r.halCalls[j]))
  }

  lemma LayersThenDisplayJoin(s: EngineState, m: EngineState, r: EngineState, display: Display)
    requires Grows(s, m) && Grows(m, r) && OnLayersOf(s, m, display) && OnDisplay(m, r, display)
    ensures LayersThenDisplay(s, r, display)
  {
    forall j | |s.halCalls| <= j < |m.halCalls| ensures r.halCalls[j] == m.halCalls[j] {
    }
    forall j | |s.resourceCalls| <= j < |m.resourceCalls| ensures r.resourceCalls[j] == m.resourceCalls[j] {
    }
  }

  /** A display command first runs all its layer setters and only then its
      display-level calls; every call concerns the command's display, and
      no other display's must-validate flag changes. */
  lemma DisplayCommandLayersFirst(env: Env, s: EngineState, k: int, cmd: DisplayCommand)
    ensures LayersThenDisplay(s, RunDisplayCommand(env, s, k, cmd), cmd.display)
  {
    var m := RunLayerCommands(env, s, k, cmd.display, cmd.layers);
    LayerCommandsOnDisplay(env, s, k, cmd.display, cmd.layers);
    DisplayStepsOnDisplay(env, m, k, cmd.display, DisplaySteps(cmd));
    LayersThenDisplayJoin(s, m, RunDisplayCommand(env, s, k, cmd), cmd.display);
  }
}
