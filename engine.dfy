/**
 * The command engine itself: an object holding the command index, the
 * Writer's pending results and its views of the two collaborators, whose
 * methods update that state step by step exactly as the engine does. Each
 * method is proved to leave the state the corresponding function of
 * EngineSpec describes.
 */
module ComposerCommandEngine {
  import opened ComposerTypes
  import opened Dispatch
  import opened EngineSpec

  /** One row of a dispatch table: run the setter if the field is present. */
  function RunLayerRow(env: Env, s: EngineState, k: int, display: Display, layer: Layer, step: Option<LayerStep>): EngineState
  {
    if step.Some? then RunLayerStep(env, s, k, display, layer, step.value) else s
  }

  function RunDisplayRow(env: Env, s: EngineState, k: int, display: Display, step: Option<DisplayStep>): EngineState
  {
    if step.Some? then RunDisplayStep(env, s, k, display, step.value) else s
  }

  /** Running the collected rows from n on is running row n, then the rest. */
  lemma LayerRowThenRest(env: Env, s: EngineState, k: int, display: Display, layer: Layer,
                         row: nat -> Option<LayerStep>, n: nat, rows: nat)
    requires n < rows
    ensures RunLayerSteps(env, s, k, display, layer, Collect(row, n, rows)) ==
      RunLayerSteps(env, RunLayerRow(env, s, k, display, layer, row(n)), k, display, layer, Collect(row, n + 1, rows))
  {
    var rest := Collect(row, n + 1, rows);
    if row(n).Some? {
      assert Collect(row, n, rows) == [row(n).value] + rest;
      assert ([row(n).value] + rest)[1..] == rest;
    } else {
      assert RowSteps(row, n) == [];
      assert Collect(row, n, rows) == [] + rest;
      assert [] + rest == rest;
    }
  }

  lemma DisplayRowThenRest(env: Env, s: EngineState, k: int, display: Display,
                           row: nat -> Option<DisplayStep>, n: nat, rows: nat)
    requires n < rows
    ensures RunDisplaySteps(env, s, k, display, Collect(row, n, rows)) ==
      RunDisplaySteps(env, RunDisplayRow(env, s, k, display, row(n)), k, display, Collect(row, n + 1, rows))
  {
    var rest := Collect(row, n + 1, rows);
    if row(n).Some? {
      assert Collect(row, n, rows) == [row(n).value] + rest;
      assert ([row(n).value] + rest)[1..] == rest;
    } else {
      assert RowSteps(row, n) == [];
      assert Collect(row, n, rows) == [] + rest;
      assert [] + rest == rest;
    }
  }

  /** Dispatching layer row n of `lc`, then the rows after it. */
  lemma LayerRowAt(env: Env, s: EngineState, k: int, display: Display, lc: LayerCommand, n: nat)
    requires n < LayerRows
    ensures RunLayerSteps(env, s, k, display, lc.layer, Collect(LayerTable(lc), n, LayerRows)) ==
      RunLayerSteps(env, RunLayerRow(env, s, k, display, lc.layer, LayerStepAt(lc, n)), k, display, lc.layer,
                    Collect(LayerTable(lc), n + 1, LayerRows))
  {
    LayerRowThenRest(env, s, k, display, lc.layer, LayerTable(lc), n, LayerRows);
    LayerTableRanked(lc);
  }

  /** Dispatching display row n of `cmd`, then the rows after it. */
  lemma DisplayRowAt(env: Env, s: EngineState, k: int, cmd: DisplayCommand, n: nat)
    requires n < DisplayRows
    ensures RunDisplaySteps(env, s, k, cmd.display, Collect(DisplayTable(cmd), n, DisplayRows)) ==
      RunDisplaySteps(env, RunDisplayRow(env, s, k, cmd.display, DisplayStepAt(cmd, n)), k, cmd.display,
                      Collect(DisplayTable(cmd), n + 1, DisplayRows))
  {
    DisplayRowThenRest(env, s, k, cmd.display, DisplayTable(cmd), n, DisplayRows);
    DisplayTableRanked(cmd);
  }

  /** The state after the first n rows of the layer table have run. */
  ghost function LayerTrace(env: Env, s: EngineState, k: int, display: Display, lc: LayerCommand, n: nat): EngineState
    decreases n
  {
    if n == 0 then s else RunLayerRow(env, LayerTrace(env, s, k, display, lc, n - 1), k, display, lc.layer, LayerStepAt(lc, n - 1))
  }

  /** Running rows n.. after the first n is running the whole command. */
  lemma {:induction false} LayerTraceRest(env: Env, s: EngineState, k: int, display: Display, lc: LayerCommand, n: nat)
    requires n <= LayerRows
    ensures RunLayerSteps(env, LayerTrace(env, s, k, display, lc, n), k, display, lc.layer, Collect(LayerTable(lc), n, LayerRows))
         == RunLayerCommand(env, s, k, display, lc)
    decreases n
  {
    if n > 0 {
      LayerTraceRest(env, s, k, display, lc, n - 1);
      LayerRowAt(env, LayerTrace(env, s, k, display, lc, n - 1), k, display, lc, n - 1);
    }
  }

  lemma LayerTraceComplete(env: Env, s: EngineState, k: int, display: Display, lc: LayerCommand)
    ensures LayerTrace(env, s, k, display, lc, LayerRows) == RunLayerCommand(env, s, k, display, lc)
  {
    LayerTraceRest(env, s, k, display, lc, LayerRows);
    assert Collect(LayerTable(lc), LayerRows, LayerRows) == [];
  }

  /** The state after the first n rows of the display table have run. */
  ghost function DisplayTrace(env: Env, s: EngineState, k: int, cmd: DisplayCommand, n: nat): EngineState
    decreases n
  {
    if n == 0 then s else RunDisplayRow(env, DisplayTrace(env, s, k, cmd, n - 1), k, cmd.display, DisplayStepAt(cmd, n - 1))
  }

  /** Running rows n.. after the first n is running all the display fields. */
  lemma {:induction false} DisplayTraceRest(env: Env, s: EngineState, k: int, cmd: DisplayCommand, n: nat)
    requires n <= DisplayRows
    ensures RunDisplaySteps(env, DisplayTrace(env, s, k, cmd, n), k, cmd.display, Collect(DisplayTable(cmd), n, DisplayRows))
         == RunDisplaySteps(env, s, k, cmd.display, DisplaySteps(cmd))
    decreases n
  {
    if n > 0 {
      DisplayTraceRest(env, s, k, cmd, n - 1);
      DisplayRowAt(env, DisplayTrace(env, s, k, cmd, n - 1), k, cmd, n - 1);
    }
  }

  lemma DisplayTraceComplete(env: Env, s: EngineState, k: int, cmd: DisplayCommand)
    ensures DisplayTrace(env, s, k, cmd, DisplayRows) == RunDisplaySteps(env, s, k, cmd.display, DisplaySteps(cmd))
  {
    DisplayTraceRest(env, s, k, cmd, DisplayRows);
    assert Collect(DisplayTable(cmd), DisplayRows, DisplayRows) == [];
  }

  class CommandEngine {
    /** The device and the buffer cache, as oracles. */
    const env: Env
    /** Position of the display command being processed (mCommandIndex). */
    var commandIndex: int
    /** The Writer's pending results. */
    var writer: seq<Payload>
    /** Resources' must-validate flags. */
    var mustValidate: map<Display, bool>
    /** Every device call so far, oldest first. */
    var halCalls: seq<HalCall>
    /** Every resolution request to Resources so far, oldest first. */
    var resourceCalls: seq<ResourceCall>

    function State(): EngineState
      reads this
    {
      EngineState(writer, mustValidate, halCalls, resourceCalls)
    }

    constructor (env: Env, mustValidate: map<Display, bool>)
      ensures this.env == env
      ensures State() == EngineState([], mustValidate, [], []) && commandIndex == 0
    {
      this.env := env;
      this.mustValidate := mustValidate;
      commandIndex := 0;
      writer := [];
      halCalls := [];
      resourceCalls := [];
    }

    /** A fresh Writer with nothing pending; always NO_ERROR (0). */
    method Init() returns (status: int)
      modifies this
      ensures status == 0
      ensures State() == old(State()).(results := []) && commandIndex == old(commandIndex)
    {
      writer := [];
      status := 0;
    }

    // -------------------------------------------------- collaborator calls

    method Hal(c: HalCall) returns (reply: HalReply)
      modifies this
      ensures reply == Reply(env, old(State()), c)
      ensures State() == Called(old(State()), c) && commandIndex == old(commandIndex)
    {
      reply := env.hal(halCalls, c);
      halCalls := halCalls + [c];
    }

    method Resources(rc: ResourceCall) returns (res: Resolution)
      modifies this
      ensures res == Resolve(env, old(State()), rc)
      ensures State() == Requested(old(State()), rc) && commandIndex == old(commandIndex)
    {
      res := env.resources(resourceCalls, rc);
      resourceCalls := resourceCalls + [rc];
    }

    method Write(p: Payload)
      modifies this
      ensures State() == Recorded(old(State()), [p]) && commandIndex == old(commandIndex)
    {
      writer := writer + [p];
    }

    method SetDisplayMustValidateState(display: Display, value: bool)
      modifies this
      ensures State() == old(State()).(mustValidate := old(mustValidate)[display := value])
      ensures commandIndex == old(commandIndex)
    {
      mustValidate := mustValidate[display := value];
    }

    // ------------------------------------------------------------- batch

    /** Runs a batch: command i is processed with command index i; the
        pending results are then drained and returned, with status 0. */
    method Execute(commands: seq<DisplayCommand>) returns (status: int, result: seq<Payload>)
      modifies this
      ensures status == 0
      ensures result == Batch(env, old(State()), commands).results
      ensures State() == Batch(env, old(State()), commands).(results := [])
      ensures commandIndex == |commands|
    {
      commandIndex := 0;
      ghost var s0 := State();
      for i := 0 to |commands|
        invariant commandIndex == i
        invariant State() == Batch(env, s0, commands[..i])
      {
        BatchThenCommand(env, s0, commands, i);
        DispatchDisplayCommand(commands[i]);
        commandIndex := commandIndex + 1;
      }
      assert commands[..|commands|] == commands;
      result := writer;
      writer := [];
      status := 0;
    }

    /** All layer commands in listed order, then the display fields in the
        fixed order. */
    method DispatchDisplayCommand(command: DisplayCommand)
      modifies this
      ensures State() == RunDisplayCommand(env, old(State()), commandIndex, command)
      ensures commandIndex == old(commandIndex)
    {
      ghost var s0 := State();
      var d := command.display;
      for i := 0 to |command.layers|
        invariant commandIndex == old(commandIndex)
        invariant State() == RunLayerCommands(env, s0, commandIndex, d, command.layers[..i])
      {
        LayerCommandsThenOne(env, s0, commandIndex, d, command.layers, i);
        DispatchLayerCommand(d, command.layers[i]);
      }
      assert command.layers[..|command.layers|] == command.layers;

      ghost var s1 := State();
      DispatchDisplayRow(command, 0);
      assert State() == DisplayTrace(env, s1, commandIndex, command, 1);
      DispatchDisplayRow(command, 1);
      assert State() == DisplayTrace(env, s1, commandIndex, command, 2);
      DispatchDisplayRow(command, 2);
      assert State() == DisplayTrace(env, s1, commandIndex, command, 3);
      DispatchDisplayRow(command, 3);
      assert State() == DisplayTrace(env, s1, commandIndex, command, 4);
      DispatchDisplayRow(command, 4);
      assert State() == DisplayTrace(env, s1, commandIndex, command, 5);
      DispatchDisplayRow(command, 5);
      assert State() == DisplayTrace(env, s1, commandIndex, command, 6);
      DispatchDisplayRow(command, 6);
      assert State() == DisplayTrace(env, s1, commandIndex, command, 7);
      DispatchDisplayRow(command, 7);
      assert State() == DisplayTrace(env, s1, commandIndex, command, 8);
      DisplayTraceComplete(env, s1, commandIndex, command);
    }

    /** Row n of the display table: the handler runs when its field is set. */
    method DispatchDisplayRow(command: DisplayCommand, n: nat)
      requires n < DisplayRows
      modifies this
      ensures State() == RunDisplayRow(env, old(State()), commandIndex, command.display, DisplayStepAt(command, n))
      ensures commandIndex == old(commandIndex)
    {
      var d := command.display;
      if n == 0 {
        if command.colorTransformMatrix.Some? {
          ExecuteSetColorTransform(d, command.colorTransformMatrix.value);
        }
      } else if n == 1 {
        if command.clientTarget.Some? {
          ExecuteSetClientTarget(d, command.clientTarget.value);
        }
      } else if n == 2 {
        if command.virtualDisplayOutputBuffer.Some? {
          ExecuteSetOutputBuffer(d, command.virtualDisplayOutputBuffer.value);
        }
      } else if n == 3 {
        if command.brightness.Some? {
          ExecuteSetDisplayBrightness(d, command.brightness.value);
        }
      } else if n == 4 {
        if command.validateDisplay {
          ExecuteValidateDisplay(d, command.expectedPresentTime);
        }
      } else if n == 5 {
        if command.acceptDisplayChanges {
          ExecuteAcceptDisplayChanges(d);
        }
      } else if n == 6 {
        if command.presentDisplay {
          var _ := ExecutePresentDisplay(d);
        }
      } else if n == 7 {
        if command.presentOrValidateDisplay {
          ExecutePresentOrValidateDisplay(d, command.expectedPresentTime);
        }
      }
    }

    /** The present fields of one layer command, in the fixed order;
        whitePointNits is not dispatched. */
    method DispatchLayerCommand(display: Display, command: LayerCommand)
      modifies this
      ensures State() == RunLayerCommand(env, old(State()), commandIndex, display, command)
      ensures commandIndex == old(commandIndex)
    {
      ghost var s0 := State();
      DispatchLayerRow(display, command, 0);
      assert State() == LayerTrace(env, s0, commandIndex, display, command, 1);
      DispatchLayerRow(display, command, 1);
      assert State() == LayerTrace(env, s0, commandIndex, display, command, 2);
      DispatchLayerRow(display, command, 2);
      assert State() == LayerTrace(env, s0, commandIndex, display, command, 3);
      DispatchLayerRow(display, command, 3);
      assert State() == LayerTrace(env, s0, commandIndex, display, command, 4);
      DispatchLayerRow(display, command, 4);
      assert State() == LayerTrace(env, s0, commandIndex, display, command, 5);
      DispatchLayerRow(display, command, 5);
      assert State() == LayerTrace(env, s0, commandIndex, display, command, 6);
      DispatchLayerRow(display, command, 6);
      assert State() == LayerTrace(env, s0, commandIndex, display, command, 7);
      DispatchLayerRow(display, command, 7);
      assert State() == LayerTrace(env, s0, commandIndex, display, command, 8);
      DispatchLayerRow(display, command, 8);
      assert State() == LayerTrace(env, s0, commandIndex, display, command, 9);
      DispatchLayerRow(display, command, 9);
      assert State() == LayerTrace(env, s0, commandIndex, display, command, 10);
      DispatchLayerRow(display, command, 10);
      assert State() == LayerTrace(env, s0, commandIndex, display, command, 11);
      DispatchLayerRow(display, command, 11);
      assert State() == LayerTrace(env, s0, commandIndex, display, command, 12);
      DispatchLayerRow(display, command, 12);
      assert State() == LayerTrace(env, s0, commandIndex, display, command, 13);
      DispatchLayerRow(display, command, 13);
      assert State() == LayerTrace(env, s0, commandIndex, display, command, 14);
      DispatchLayerRow(display, command, 14);
      assert State() == LayerTrace(env, s0, commandIndex, display, command, 15);
      DispatchLayerRow(display, command, 15);
      assert State() == LayerTrace(env, s0, commandIndex, display, command, 16);
      DispatchLayerRow(display, command, 16);
      assert State() == LayerTrace(env, s0, commandIndex, display, command, 17);
      LayerTraceComplete(env, s0, commandIndex, display, command);
    }

    /** Row n of the layer table: the setter runs when its field is present. */
    method DispatchLayerRow(display: Display, command: LayerCommand, n: nat)
      requires n < LayerRows
      modifies this
      ensures State() == RunLayerRow(env, old(State()), commandIndex, display, command.layer, LayerStepAt(command, n))
      ensures commandIndex == old(commandIndex)
    {
      var l := command.layer;
      if n == 0 {
        if command.cursorPosition.Some? {
          ExecuteSetLayerCursorPosition(display, l, command.cursorPosition.value);
        }
      } else if n == 1 {
        if command.buffer.Some? {
          ExecuteSetLayerBuffer(display, l, command.buffer.value);
        }
      } else if n == 2 {
        if command.damage.Some? {
          ExecuteSetLayerSurfaceDamage(display, l, command.damage.value);
        }
      } else if n == 3 {
        if command.blendMode.Some? {
          ExecuteSetLayerBlendMode(display, l, command.blendMode.value);
        }
      } else if n == 4 {
        if command.color.Some? {
          ExecuteSetLayerColor(display, l, command.color.value);
        }
      } else if n == 5 {
        if command.composition.Some? {
          ExecuteSetLayerComposition(display, l, command.composition.value);
        }
      } else if n == 6 {
        if command.dataspace.Some? {
          ExecuteSetLayerDataspace(display, l, command.dataspace.value);
        }
      } else if n == 7 {
        if command.displayFrame.Some? {
          ExecuteSetLayerDisplayFrame(display, l, command.displayFrame.value);
        }
      } else if n == 8 {
        if command.planeAlpha.Some? {
          ExecuteSetLayerPlaneAlpha(display, l, command.planeAlpha.value);
        }
      } else if n == 9 {
        if command.sidebandStream.Some? {
          ExecuteSetLayerSidebandStream(display, l, command.sidebandStream.value);
        }
      } else if n == 10 {
        if command.sourceCrop.Some? {
          ExecuteSetLayerSourceCrop(display, l, command.sourceCrop.value);
        }
      } else if n == 11 {
        if command.transform.Some? {
          ExecuteSetLayerTransform(display, l, command.transform.value);
        }
      } else if n == 12 {
        if command.visibleRegion.Some? {
          ExecuteSetLayerVisibleRegion(display, l, command.visibleRegion.value);
        }
      } else if n == 13 {
        if command.z.Some? {
          ExecuteSetLayerZOrder(display, l, command.z.value);
        }
      } else if n == 14 {
        if command.colorTransform.Some? {
          ExecuteSetLayerColorTransform(display, l, command.colorTransform.value);
        }
      } else if n == 15 {
        if command.perFrameMetadata.Some? {
          ExecuteSetLayerPerFrameMetadata(display, l, command.perFrameMetadata.value);
        }
      } else if n == 16 {
        if command.perFrameMetadataBlob.Some? {
          ExecuteSetLayerPerFrameMetadataBlobs(display, l, command.perFrameMetadataBlob.value);
        }
      }
    }

    // --------------------------------------------------------- lifecycle

    method ExecuteValidateDisplayInternal(display: Display) returns (err: int)
      modifies this
      ensures (State(), err) == ValidateInternal(env, old(State()), commandIndex, display)
      ensures commandIndex == old(commandIndex)
    {
      var reply := Hal(ValidateDisplay(display));
      SetDisplayMustValidateState(display, false);
      if reply.status == StatusNone || reply.status == StatusHasChanges {
        ghost var before := writer;
        var changed := ChangedCompositionTypes(display, reply.changedLayers, reply.compositionTypes);
        var requests := DisplayRequests(display, reply.displayRequestMask, reply.requestedLayers, reply.requestMasks);
        Write(changed);
        Write(requests);
        assert writer == before + [changed, requests];
      } else {
        Write(Error(commandIndex, reply.status));
      }
      err := reply.status;
    }

    /** The hint call; the device's answer is ignored. */
    method ExecuteSetExpectedPresentTimeInternal(display: Display, time: Option<Timestamp>)
      modifies this
      ensures State() == SetPresentTime(old(State()), display, time)
      ensures commandIndex == old(commandIndex)
    {
      var _ := Hal(SetExpectedPresentTime(display, time));
    }

    method ExecuteValidateDisplay(display: Display, time: Option<Timestamp>)
      modifies this
      ensures State() == Validate(env, old(State()), commandIndex, display, time)
      ensures commandIndex == old(commandIndex)
    {
      ExecuteSetExpectedPresentTimeInternal(display, time);
      var _ := ExecuteValidateDisplayInternal(display);
    }

    method ExecutePresentOrValidateDisplay(display: Display, time: Option<Timestamp>)
      modifies this
      ensures State() == PresentOrValidate(env, old(State()), commandIndex, display, time)
      ensures commandIndex == old(commandIndex)
    {
      ExecuteSetExpectedPresentTimeInternal(display, time);
      // A display Resources marks as stale counts as a refused present.
      var presentErr;
      if MustValidate(State(), display) {
        presentErr := StatusNotValidated;
      } else {
        presentErr := ExecutePresentDisplay(display);
      }
      if presentErr == StatusNone {
        Write(PresentOrValidateResult(display, Presented));
        return;
      }

      // Refused: validate; only NONE and HAS_CHANGES go on.
      var validateErr := ExecuteValidateDisplayInternal(display);
      if validateErr != StatusNone && validateErr != StatusHasChanges {
        return;
      }

      var cannotPresentDirectly := validateErr == StatusHasChanges;
      if !cannotPresentDirectly {
        var query := Hal(GetHasClientComposition(display));
        cannotPresentDirectly := query.status == StatusNone && query.hasClientComposition;
      }
      if cannotPresentDirectly {
        Write(PresentOrValidateResult(display, Validated));
        return;
      }

      // No client composition needed: accept the changes and retry.
      ExecuteAcceptDisplayChanges(display);
      presentErr := ExecutePresentDisplay(display);
      if presentErr == StatusNone {
        Write(PresentOrValidateResult(display, Presented));
      }
    }

    method ExecuteAcceptDisplayChanges(display: Display)
      modifies this
      ensures State() == SimpleSet(env, old(State()), commandIndex, AcceptDisplayChanges(display))
      ensures commandIndex == old(commandIndex)
    {
      CallAndReport(AcceptDisplayChanges(display));
    }

    method ExecutePresentDisplay(display: Display) returns (err: int)
      modifies this
      ensures (State(), err) == Present(env, old(State()), display)
      ensures commandIndex == old(commandIndex)
    {
      var reply := Hal(PresentDisplay(display));
      if reply.status == StatusNone {
        ghost var before := writer;
        ghost var fence: seq<Payload> := [];
        if reply.presentFence != NoFence {
          fence := [PresentFence(display, reply.presentFence)];
          Write(PresentFence(display, reply.presentFence));
        }
        var released := ReleaseFences(display, reply.releasedLayers, reply.releaseFences);
        Write(released);
        assert writer == before + (fence + [released]);
      }
      err := reply.status;
    }

    // ----------------------------------------------------------- setters

    /** The shared setter pattern: call the device, record its status as an
        error when it is non-zero. */
    method CallAndReport(c: HalCall)
      modifies this
      ensures State() == SimpleSet(env, old(State()), commandIndex, c)
      ensures commandIndex == old(commandIndex)
    {
      var reply := Hal(c);
      if reply.status != StatusNone {
        Write(Error(commandIndex, reply.status));
      }
    }

    method ExecuteSetColorTransform(display: Display, matrix: seq<FloatBits>)
      modifies this
      ensures State() == SimpleSet(env, old(State()), commandIndex, SetColorTransform(display, matrix))
      ensures commandIndex == old(commandIndex)
    {
      CallAndReport(SetColorTransform(display, matrix));
    }

    method ExecuteSetClientTarget(display: Display, command: ClientTarget)
      modifies this
      ensures State() == ResolveThenSet(env, old(State()), commandIndex, ClientTargetRequest(display, command.buffer),
                                        ClientTargetOf(display, command.buffer.fence, command.dataspace, command.damage))
      ensures commandIndex == old(commandIndex)
    {
      var useCache := command.buffer.handle.None?;
      var res := Resources(GetDisplayClientTarget(display, command.buffer.slot, useCache, command.buffer.handle));
      if res.status == StatusNone {
        CallAndReport(SetClientTarget(display, res.handle, command.buffer.fence, command.dataspace, command.damage));
      } else {
        Write(Error(commandIndex, res.status));
      }
    }

    method ExecuteSetOutputBuffer(display: Display, buffer: Buffer)
      modifies this
      ensures State() == ResolveThenSet(env, old(State()), commandIndex, OutputBufferRequest(display, buffer),
                                        OutputBufferOf(display, buffer.fence))
      ensures commandIndex == old(commandIndex)
    {
      var useCache := buffer.handle.None?;
      var res := Resources(GetDisplayOutputBuffer(display, buffer.slot, useCache, buffer.handle));
      if res.status == StatusNone {
        CallAndReport(SetOutputBuffer(display, res.handle, buffer.fence));
      } else {
        Write(Error(commandIndex, res.status));
      }
    }

    method ExecuteSetDisplayBrightness(display: Display, brightness: FloatBits)
      modifies this
      ensures State() == SimpleSet(env, old(State()), commandIndex, SetDisplayBrightness(display, brightness))
      ensures commandIndex == old(commandIndex)
    {
      CallAndReport(SetDisplayBrightness(display, brightness));
    }

    method ExecuteSetLayerCursorPosition(display: Display, layer: Layer, position: Point)
      modifies this
      ensures State() == SimpleSet(env, old(State()), commandIndex, SetLayerCursorPosition(display, layer, position.x, position.y))
      ensures commandIndex == old(commandIndex)
    {
      CallAndReport(SetLayerCursorPosition(display, layer, position.x, position.y));
    }

    method ExecuteSetLayerBuffer(display: Display, layer: Layer, buffer: Buffer)
      modifies this
      ensures State() == ResolveThenSet(env, old(State()), commandIndex, LayerBufferRequest(display, layer, buffer),
                                        LayerBufferOf(display, layer, buffer.fence))
      ensures commandIndex == old(commandIndex)
    {
      var useCache := buffer.handle.None?;
      var res := Resources(GetLayerBuffer(display, layer, buffer.slot, useCache, buffer.handle));
      if res.status == StatusNone {
        CallAndReport(SetLayerBuffer(display, layer, res.handle, buffer.fence));
      } else {
        Write(Error(commandIndex, res.status));
      }
    }

    method ExecuteSetLayerSurfaceDamage(display: Display, layer: Layer, damage: seq<Option<Rect>>)
      modifies this
      ensures State() == SimpleSet(env, old(State()), commandIndex, SetLayerSurfaceDamage(display, layer, damage))
      ensures commandIndex == old(commandIndex)
    {
      CallAndReport(SetLayerSurfaceDamage(display, layer, damage));
    }

    method ExecuteSetLayerBlendMode(display: Display, layer: Layer, blendMode: int)
      modifies this
      ensures State() == SimpleSet(env, old(State()), commandIndex, SetLayerBlendMode(display, layer, blendMode))
      ensures commandIndex == old(commandIndex)
    {
      CallAndReport(SetLayerBlendMode(display, layer, blendMode));
    }

    method ExecuteSetLayerColor(display: Display, layer: Layer, color: Color)
      modifies this
      ensures State() == SimpleSet(env, old(State()), commandIndex, SetLayerColor(display, layer, color))
      ensures commandIndex == old(commandIndex)
    {
      CallAndReport(SetLayerColor(display, layer, color));
    }

    method ExecuteSetLayerComposition(display: Display, layer: Layer, composition: int)
      modifies this
      ensures State() == SimpleSet(env, old(State()), commandIndex, SetLayerCompositionType(display, layer, composition))
      ensures commandIndex == old(commandIndex)
    {
      CallAndReport(SetLayerCompositionType(display, layer, composition));
    }

    method ExecuteSetLayerDataspace(display: Display, layer: Layer, dataspace: int)
      modifies this
      ensures State() == SimpleSet(env, old(State()), commandIndex, SetLayerDataspace(display, layer, dataspace))
      ensures commandIndex == old(commandIndex)
    {
      CallAndReport(SetLayerDataspace(display, layer, dataspace));
    }

    method ExecuteSetLayerDisplayFrame(display: Display, layer: Layer, frame: Rect)
      modifies this
      ensures State() == SimpleSet(env, old(State()), commandIndex, SetLayerDisplayFrame(display, layer, frame))
      ensures commandIndex == old(commandIndex)
    {
      CallAndReport(SetLayerDisplayFrame(display, layer, frame));
    }

    method ExecuteSetLayerPlaneAlpha(display: Display, layer: Layer, alpha: FloatBits)
      modifies this
      ensures State() == SimpleSet(env, old(State()), commandIndex, SetLayerPlaneAlpha(display, layer, alpha))
      ensures commandIndex == old(commandIndex)
    {
      CallAndReport(SetLayerPlaneAlpha(display, layer, alpha));
    }

    /** Inverted polarity, as written: the device is called only when the
        resolution fails, and the last status decides the error. */
    method ExecuteSetLayerSidebandStream(display: Display, layer: Layer, stream: WireHandle)
      modifies this
      ensures State() == SidebandSet(env, old(State()), commandIndex, display, layer, stream)
      ensures commandIndex == old(commandIndex)
    {
      var res := Resources(GetLayerSidebandStream(display, layer, stream));
      var err := res.status;
      if err != StatusNone {
        var reply := Hal(SetLayerSidebandStream(display, layer, res.handle));
        err := reply.status;
      }
      if err != StatusNone {
        Write(Error(commandIndex, err));
      }
    }

    method ExecuteSetLayerSourceCrop(display: Display, layer: Layer, crop: FRect)
      modifies this
      ensures State() == SimpleSet(env, old(State()), commandIndex, SetLayerSourceCrop(display, layer, crop))
      ensures commandIndex == old(commandIndex)
    {
      CallAndReport(SetLayerSourceCrop(display, layer, crop));
    }

    method ExecuteSetLayerTransform(display: Display, layer: Layer, transform: int)
      modifies this
      ensures State() == SimpleSet(env, old(State()), commandIndex, SetLayerTransform(display, layer, transform))
      ensures commandIndex == old(commandIndex)
    {
      CallAndReport(SetLayerTransform(display, layer, transform));
    }

    method ExecuteSetLayerVisibleRegion(display: Display, layer: Layer, region: seq<Option<Rect>>)
      modifies this
      ensures State() == SimpleSet(env, old(State()), commandIndex, SetLayerVisibleRegion(display, layer, region))
      ensures commandIndex == old(commandIndex)
    {
      CallAndReport(SetLayerVisibleRegion(display, layer, region));
    }

    method ExecuteSetLayerZOrder(display: Display, layer: Layer, z: int)
      modifies this
      ensures State() == SimpleSet(env, old(State()), commandIndex, SetLayerZOrder(display, layer, z))
      ensures commandIndex == old(commandIndex)
    {
      CallAndReport(SetLayerZOrder(display, layer, z));
    }

    method ExecuteSetLayerPerFrameMetadata(display: Display, layer: Layer, metadata: seq<Option<FrameMetadata>>)
      modifies this
      ensures State() == SimpleSet(env, old(State()), commandIndex, SetLayerPerFrameMetadata(display, layer, metadata))
      ensures commandIndex == old(commandIndex)
    {
      CallAndReport(SetLayerPerFrameMetadata(display, layer, metadata));
    }

    method ExecuteSetLayerColorTransform(display: Display, layer: Layer, matrix: seq<FloatBits>)
      modifies this
      ensures State() == SimpleSet(env, old(State()), commandIndex, SetLayerColorTransform(display, layer, matrix))
      ensures commandIndex == old(commandIndex)
    {
      CallAndReport(SetLayerColorTransform(display, layer, matrix));
    }

    method ExecuteSetLayerPerFrameMetadataBlobs(display: Display, layer: Layer, blobs: seq<Option<FrameMetadataBlob>>)
      modifies this
      ensures State() == SimpleSet(env, old(State()), commandIndex, SetLayerPerFrameMetadataBlobs(display, layer, blobs))
      ensures commandIndex == old(commandIndex)
    {
      CallAndReport(SetLayerPerFrameMetadataBlobs(display, layer, blobs));
    }
  }
}
