# Composer command engine — a Dafny model

This project models the command engine of the hardware composer service
(`ComposerCommandEngine`). For one frame, the engine receives a batch of
display commands. Each display command holds a list of layer commands and
a set of optional display-level fields. The engine dispatches every
present field to a setter on the hardware device ("Hal"). It resolves
buffers through the buffer cache ("Resources"). It collects errors,
composition changes, fences and present-or-validate outcomes in a result
accumulator ("Writer"). Finally it hands back the accumulated results.

The model has the same shape as the engine:

- `ComposerTypes` (`types.dfy`): the values that are exchanged.
  - The commands of a frame and the result payloads.
  - Every device call and every resolution request, with its arguments.
  - The two collaborators as deterministic oracles. An oracle maps the
    history of earlier calls plus the new call to a reply, so a stateful
    device or cache is covered.
- `Dispatch` (`dispatch.dfy`): the fixed dispatch order of the layer
  fields and the display fields.
  - Each field has a row in a rank table.
  - The steps of a command are proved to be exactly its present fields,
    each once, in table order.
- `EngineSpec` (`engine_spec.dfy`): one pure function per engine
  operation, over an `EngineState`.
  - The state holds the Writer's pending payloads, the must-validate
    flags, the log of device calls and the log of resolution requests.
- `ComposerCommandEngine` (`engine.dfy`): the engine itself.
  - `CommandEngine` is a class that holds the command index, the Writer's
    payloads, the flags and the two call logs.
  - Its methods update those fields step by step, as the engine does:
    loops over commands and layers, early returns in present-or-validate,
    and one `if` per dispatch macro.
  - Each method is proved to leave exactly the state that the matching
    `EngineSpec` function describes.
- `EngineProperties` (`properties.dfy`) and `PresentOrValidateProperties`
  (`present_or_validate.dfy`): what the engine promises, proved about
  those functions.
  - Error reporting, the buffer-resolution gate and the sideband polarity.
  - Validate and present.
  - Command-index tagging and dispatch scope.
  - The present-or-validate state machine.

Status constants: HWC2_ERROR_NONE is 0, HWC2_ERROR_HAS_CHANGES is 5,
EX_NOT_VALIDATED is 7, and "no present fence" is -1.

## Model

| member | source | states |
|---|---|---|
| ComposerCommandEngine.CommandEngine.Execute | base/hwc3/ComposerCommandEngine.cpp:64-74 | The index starts at 0 and is incremented once per display command, ending at the number of commands. The status is always 0. The result is exactly the pending payloads of the batch, and the pending list is empty afterwards. |
| ComposerCommandEngine.CommandEngine.DispatchDisplayCommand | base/hwc3/ComposerCommandEngine.cpp:76-91 | All layer commands run in listed order, then the display fields in the fixed order. The command index is unchanged. |
| ComposerCommandEngine.CommandEngine.DispatchDisplayRow | base/hwc3/ComposerCommandEngine.cpp:38-57 | One display dispatch macro: the handler runs only when its field or flag is set, with that field's data. |
| ComposerCommandEngine.CommandEngine.DispatchLayerCommand | base/hwc3/ComposerCommandEngine.cpp:93-113 | The present layer fields run in the fixed order of the seventeen macro lines. The result is the state described by `RunLayerCommand`. |
| ComposerCommandEngine.CommandEngine.DispatchLayerRow | base/hwc3/ComposerCommandEngine.cpp:31-36 | One layer dispatch macro: the setter runs only when its field is present, with the layer and the field's value. |
| ComposerCommandEngine.LayerTraceComplete | base/hwc3/ComposerCommandEngine.cpp:94-112 | Running the seventeen rows one after another equals running the collected steps of the layer command. |
| ComposerCommandEngine.DisplayTraceComplete | base/hwc3/ComposerCommandEngine.cpp:81-90 | Running the eight display rows one after another equals running the collected display steps. |
| ComposerCommandEngine.CommandEngine.Init | base/hwc3/ComposerCommandEngine.cpp:59-62 | A fresh Writer with nothing pending; NO_ERROR. |
| ComposerCommandEngine.CommandEngine.ExecuteValidateDisplayInternal | base/hwc3/ComposerCommandEngine.cpp:115-135 | One validate call. The flag is cleared before the status is looked at. Then either both lists or one error is written, and the device status is returned. |
| ComposerCommandEngine.CommandEngine.ExecuteSetExpectedPresentTimeInternal | base/hwc3/ComposerCommandEngine.cpp:189-192 | One hint call; its status is ignored and nothing is written. |
| ComposerCommandEngine.CommandEngine.ExecuteValidateDisplay | base/hwc3/ComposerCommandEngine.cpp:194-198 | The hint, then internal validate. |
| ComposerCommandEngine.CommandEngine.ExecutePresentOrValidateDisplay | base/hwc3/ComposerCommandEngine.cpp:209-239 | The present-or-validate state machine with its early returns. The query is made only when validation returned NONE. The resulting state is the one `PresentOrValidate` describes. |
| ComposerCommandEngine.CommandEngine.ExecuteAcceptDisplayChanges | base/hwc3/ComposerCommandEngine.cpp:241-247 | The shared setter pattern for accept. |
| ComposerCommandEngine.CommandEngine.ExecutePresentDisplay | base/hwc3/ComposerCommandEngine.cpp:249-260 | One present call. On success the fence is written unless it is -1, then the release fences. On failure nothing is written. The device status is returned. |
| ComposerCommandEngine.CommandEngine.CallAndReport | base/hwc3/ComposerCommandEngine.cpp:139-143 | One device call, then an error tagged with the current index exactly when the status is non-zero. |
| ComposerCommandEngine.CommandEngine.ExecuteSetColorTransform | base/hwc3/ComposerCommandEngine.cpp:137-144 | The shared setter pattern. |
| ComposerCommandEngine.CommandEngine.ExecuteSetClientTarget | base/hwc3/ComposerCommandEngine.cpp:146-166 | Resolve with useCache exactly when there is no handle. On resolution success call the device with the resolved handle, fence, dataspace and damage; otherwise write the resolution's error. |
| ComposerCommandEngine.CommandEngine.ExecuteSetOutputBuffer | base/hwc3/ComposerCommandEngine.cpp:168-187 | The same gate for the virtual display's output buffer. |
| ComposerCommandEngine.CommandEngine.ExecuteSetDisplayBrightness | base/hwc3/ComposerCommandEngine.cpp:200-207 | The shared setter pattern. |
| ComposerCommandEngine.CommandEngine.ExecuteSetLayerCursorPosition | base/hwc3/ComposerCommandEngine.cpp:262-269 | The shared setter pattern, passing x and y. |
| ComposerCommandEngine.CommandEngine.ExecuteSetLayerBuffer | base/hwc3/ComposerCommandEngine.cpp:271-291 | The resolution gate for a layer buffer. |
| ComposerCommandEngine.CommandEngine.ExecuteSetLayerSurfaceDamage | base/hwc3/ComposerCommandEngine.cpp:293-300 | The shared setter pattern. |
| ComposerCommandEngine.CommandEngine.ExecuteSetLayerBlendMode | base/hwc3/ComposerCommandEngine.cpp:302-309 | The shared setter pattern. |
| ComposerCommandEngine.CommandEngine.ExecuteSetLayerColor | base/hwc3/ComposerCommandEngine.cpp:311-318 | The shared setter pattern. |
| ComposerCommandEngine.CommandEngine.ExecuteSetLayerComposition | base/hwc3/ComposerCommandEngine.cpp:320-327 | The shared setter pattern. |
| ComposerCommandEngine.CommandEngine.ExecuteSetLayerDataspace | base/hwc3/ComposerCommandEngine.cpp:329-336 | The shared setter pattern. |
| ComposerCommandEngine.CommandEngine.ExecuteSetLayerDisplayFrame | base/hwc3/ComposerCommandEngine.cpp:338-345 | The shared setter pattern. |
| ComposerCommandEngine.CommandEngine.ExecuteSetLayerPlaneAlpha | base/hwc3/ComposerCommandEngine.cpp:347-354 | The shared setter pattern. |
| ComposerCommandEngine.CommandEngine.ExecuteSetLayerSidebandStream | base/hwc3/ComposerCommandEngine.cpp:356-371 | Inverted polarity, as written: the device is called only when resolution is non-zero, and the last status decides the error. |
| ComposerCommandEngine.CommandEngine.ExecuteSetLayerSourceCrop | base/hwc3/ComposerCommandEngine.cpp:373-380 | The shared setter pattern. |
| ComposerCommandEngine.CommandEngine.ExecuteSetLayerTransform | base/hwc3/ComposerCommandEngine.cpp:382-389 | The shared setter pattern. |
| ComposerCommandEngine.CommandEngine.ExecuteSetLayerVisibleRegion | base/hwc3/ComposerCommandEngine.cpp:391-398 | The shared setter pattern. |
| ComposerCommandEngine.CommandEngine.ExecuteSetLayerZOrder | base/hwc3/ComposerCommandEngine.cpp:400-407 | The shared setter pattern. |
| ComposerCommandEngine.CommandEngine.ExecuteSetLayerPerFrameMetadata | base/hwc3/ComposerCommandEngine.cpp:409-416 | The shared setter pattern. |
| ComposerCommandEngine.CommandEngine.ExecuteSetLayerColorTransform | base/hwc3/ComposerCommandEngine.cpp:418-425 | The shared setter pattern. |
| ComposerCommandEngine.CommandEngine.ExecuteSetLayerPerFrameMetadataBlobs | base/hwc3/ComposerCommandEngine.cpp:427-434 | The shared setter pattern. |
| Dispatch.LayerSteps | base/hwc3/ComposerCommandEngine.cpp:94-112 | Exactly the present layer fields, each once, each with its own value, in strictly increasing table order. |
| Dispatch.DisplaySteps | base/hwc3/ComposerCommandEngine.cpp:81-90 | Exactly the present display fields and set flags, each once, in the order color transform, client target, output buffer, brightness, validate, accept, present, present-or-validate. |
| Dispatch.LayerStepAt | base/hwc3/ComposerCommandEngine.cpp:94-112 | A step found in row n of the layer table has rank n, so the table follows the macro order; there are no rows from 17 on. Which field fills which row is the table itself; `CommandEngine.DispatchLayerRow` is proved to dispatch exactly row n. |
| Dispatch.DisplayStepAt | base/hwc3/ComposerCommandEngine.cpp:81-90 | A handler found in row n of the display table has rank n, so the table follows the macro order; there are no rows from 8 on. Which field fills which row is the table itself; `CommandEngine.DispatchDisplayRow` is proved to dispatch exactly row n. |
| Dispatch.WhitePointNitsNeverDispatched | base/hwc3/ComposerCommandEngine.cpp:109-110 | The layer steps do not depend on `whitePointNits`. |
| Dispatch.EmptyCommandDispatchesNothing | base/hwc3/ComposerCommandEngine.cpp:81-90 | A display command with no field set has no display steps. |
| Dispatch.OneLayerField | base/hwc3/ComposerCommandEngine.cpp:94-112 | A layer command with one present field dispatches exactly that setter. |
| Dispatch.OneDisplayField | base/hwc3/ComposerCommandEngine.cpp:81-90 | A display command with one field set runs exactly that handler. |
| Dispatch.CollectSorted | base/hwc3/ComposerCommandEngine.cpp:31-36 | The steps collected from a rank table have strictly increasing ranks. |
| Dispatch.CollectComplete | base/hwc3/ComposerCommandEngine.cpp:31-36 | Every present row is collected. |
| EngineSpec.SimpleSet | base/hwc3/ComposerCommandEngine.cpp:139-143 | The log grows by exactly the one call. Flags and resolution requests are untouched. Results only grow, and every new error is tagged with the index. |
| EngineSpec.ResolveThenSet | base/hwc3/ComposerCommandEngine.cpp:146-166 | Exactly one resolution request is added and no flag changes. Results only grow, with errors tagged by the index. What is written in each branch is stated by `BufferSetterGatedByResolution`. |
| EngineSpec.SidebandSet | base/hwc3/ComposerCommandEngine.cpp:356-371 | Exactly one resolution request is added and no flag changes. Results only grow, with errors tagged by the index. What is written in each branch is stated by `SidebandPolarity`. |
| EngineSpec.SetPresentTime | base/hwc3/ComposerCommandEngine.cpp:189-192 | Exactly one hint call is logged. Nothing is written, and flags and resolution requests are unchanged, whatever the device answers. |
| EngineSpec.Validate | base/hwc3/ComposerCommandEngine.cpp:194-198 | Results and logs only grow, errors carry the index, and flags are only cleared. The exact calls are stated by `ValidateSendsHintFirst`. |
| EngineSpec.PresentPayloads | base/hwc3/ComposerCommandEngine.cpp:253-257 | One or two payloads, ending with the release fences; two exactly when the present fence is not -1; never an error or an outcome. |
| EngineSpec.ClientComposition | base/hwc3/ComposerCommandEngine.cpp:224-227 | Exactly one query call is logged and nothing is written. Its answer is used only for the branch choice, as `AfterCleanValidateCalls` states. |
| EngineSpec.PresentOrValidate | base/hwc3/ComposerCommandEngine.cpp:209-239 | Results and logs only grow, every new error carries the index, and flags are only cleared. Its outcomes are stated by the `PresentOrValidateProperties` lemmas. |
| EngineSpec.Fallback | base/hwc3/ComposerCommandEngine.cpp:220-231 | Results and logs only grow, errors carry the index, and flags are only cleared. Its branches are stated by `FallbackOnValidateStatus` and `FallbackValidatesFirst`. |
| EngineSpec.AfterCleanValidate | base/hwc3/ComposerCommandEngine.cpp:224-238 | Results and logs only grow, errors carry the index, and flags are only cleared. Its branches are stated by `AfterCleanValidateCalls` and `RetryDecidesOutcome`. |
| EngineSpec.RunLayerStep | base/hwc3/ComposerCommandEngine.cpp:31-36 | One layer setter: results and logs only grow, errors carry the index, and flags are only cleared. Which setter each step calls is the function itself, matched by `CommandEngine.DispatchLayerRow`; `LayerStepOnLayer` and `LayerCommandOnItsLayer` state that the calls stay on that display and layer. |
| EngineSpec.RunDisplayStep | base/hwc3/ComposerCommandEngine.cpp:38-57 | One display-level handler: results and logs only grow, errors carry the index, and flags are only cleared. Which handler each step runs is the function itself, matched by `CommandEngine.DispatchDisplayRow`; `DisplayStepOnDisplay` and `DisplayStepsOnDisplay` state that the calls stay on that display. |
| EngineSpec.RunLayerCommand | base/hwc3/ComposerCommandEngine.cpp:93-113 | The layer command's collected steps in order. Results and logs only grow, and errors carry the index. The effect is independent of `whitePointNits` (`WhitePointNitsHasNoEffect`). |
| EngineSpec.RunLayerCommands | base/hwc3/ComposerCommandEngine.cpp:77-79 | The layer commands one after another, in listed order. Results and logs only grow, and errors carry the index. |
| EngineSpec.ValidateInternal | base/hwc3/ComposerCommandEngine.cpp:115-135 | The returned status is the device's. The display's flag is clear afterwards. Exactly one validate call is made and no resolution request. |
| EngineSpec.Present | base/hwc3/ComposerCommandEngine.cpp:249-260 | No error is ever written. The returned status is the device's. Exactly one present call is made, and flags and resolution requests are untouched. |
| EngineSpec.Batch | base/hwc3/ComposerCommandEngine.cpp:64-74 | Results and logs only grow, flags are only cleared, and every error index lies in [0, number of commands). |
| EngineSpec.BatchThenCommand | base/hwc3/ComposerCommandEngine.cpp:66-70 | The batch through command i is the batch before it followed by command i, and every error command i adds carries index i. |
| EngineSpec.RunDisplayCommand | base/hwc3/ComposerCommandEngine.cpp:76-91 | Every error one display command writes carries its index, results and logs only grow, and flags are only cleared. |
| EngineProperties.SetterReportsOnlyFailure | base/hwc3/ComposerCommandEngine.cpp:139-143 | Success writes nothing. Failure writes exactly `Error(k, status)`. |
| EngineProperties.BufferSetterGatedByResolution | base/hwc3/ComposerCommandEngine.cpp:153-165 | If resolution fails, the device is not called and exactly one error with the resolution status is written. If it succeeds, the device is called with the resolved handle, and an error with the device status is written exactly when that call fails. No flag changes either way. |
| EngineProperties.CacheUsedIffNoHandle | base/hwc3/ComposerCommandEngine.cpp:147-150 | For all three buffer kinds, the cache is used if and only if the handle is absent, and the slot is passed through. |
| EngineProperties.SidebandPolarity | base/hwc3/ComposerCommandEngine.cpp:362-370 | If resolution returns 0: no device call and no error. If it returns non-zero: exactly one device call with the resolved stream, and an error with the device status exactly when that call fails. No flag changes either way. |
| EngineProperties.ValidateReports | base/hwc3/ComposerCommandEngine.cpp:123-133 | On NONE or HAS_CHANGES: the change list, then the display requests. Otherwise one error and no lists. The flag is cleared in both cases. |
| EngineProperties.ValidateSendsHintFirst | base/hwc3/ComposerCommandEngine.cpp:194-198 | The calls are exactly the hint, then validate, and the flag is clear afterwards. |
| EngineProperties.PresentReports | base/hwc3/ComposerCommandEngine.cpp:253-258 | Failure writes nothing. Success writes the release fences, preceded by the present fence only when that is not -1. |
| EngineProperties.BatchErrorsInCommandOrder | base/hwc3/ComposerCommandEngine.cpp:66-70 | Error indices in a batch's result never decrease. |
| EngineProperties.EmptyCommandHasNoEffect | base/hwc3/ComposerCommandEngine.cpp:76-91 | A command with no layers and no fields leaves the state unchanged. |
| EngineProperties.EmptyBatchHasNoEffect | base/hwc3/ComposerCommandEngine.cpp:64-74 | A batch of such commands leaves the state unchanged. |
| EngineProperties.ValidateOnlyScenario | base/hwc3/ComposerCommandEngine.cpp:85-86 | A validate-only command accepted with no changes writes an empty change list, then the display requests, and clears the flag. |
| EngineProperties.PlaneAlphaErrorScenario | base/hwc3/ComposerCommandEngine.cpp:347-354 | A single plane-alpha layer refused with code 3 gives the result `Error(0, 3)`, after exactly one device call. |
| EngineProperties.WhitePointNitsHasNoEffect | base/hwc3/ComposerCommandEngine.cpp:109-110 | Changing `whitePointNits` has no effect on what a layer command does. |
| EngineProperties.LayerCommandOnItsLayer | base/hwc3/ComposerCommandEngine.cpp:93-113 | A layer command calls only layer setters of its own display and layer, resolves only that layer's buffers, and changes no flag. |
| EngineProperties.LayerCommandsOnDisplay | base/hwc3/ComposerCommandEngine.cpp:77-79 | The listed layer commands touch only layers of the command's display. |
| EngineProperties.DisplayStepsOnDisplay | base/hwc3/ComposerCommandEngine.cpp:81-90 | The display fields make only display-level calls for the command's display and change no other display's flag. |
| EngineProperties.DisplayCommandLayersFirst | base/hwc3/ComposerCommandEngine.cpp:76-91 | In one display command, no layer call comes after a display-level call. Every call is for the command's display, and no other display's flag changes. |
| PresentOrValidateProperties.PresentOrValidateSingleOutcome | base/hwc3/ComposerCommandEngine.cpp:209-239 | At most one outcome is written. It is the last payload, and it is for the command's display. |
| PresentOrValidateProperties.MustValidateSkipsPresent | base/hwc3/ComposerCommandEngine.cpp:213-214 | When the flag is set, the hint is directly followed by validate, with no present, and the flag is clear afterwards. |
| PresentOrValidateProperties.PresentOrValidateLeavesDisplayValidated | base/hwc3/ComposerCommandEngine.cpp:213-221 | A display that needed validation does not need it afterwards. |
| PresentOrValidateProperties.PresentedOnFirstTry | base/hwc3/ComposerCommandEngine.cpp:213-217 | No flag and an accepted present: the calls are exactly the hint and the present, the flags are unchanged, and the results are exactly the present's fence payloads followed by `Presented`, with no error. |
| PresentOrValidateProperties.RefusedPresentFallsBack | base/hwc3/ComposerCommandEngine.cpp:213-221 | Unless the first present succeeds, validation starts after the hint (and the refused present), with nothing written yet. |
| PresentOrValidateProperties.FallbackOnValidateStatus | base/hwc3/ComposerCommandEngine.cpp:221-231 | A failed validation ends with its error and no outcome. HAS_CHANGES ends with the two lists and `Validated`, with no query. |
| PresentOrValidateProperties.FallbackValidatesFirst | base/hwc3/ComposerCommandEngine.cpp:221 | The fallback's first device call is validate, it writes something, and it clears the flag. |
| PresentOrValidateProperties.PresentedOnlyAfterAcceptedPresent | base/hwc3/ComposerCommandEngine.cpp:215-238 | `Presented` is written only after a present of that display that the device accepted. |
| PresentOrValidateProperties.PresentOrValidateValidated | base/hwc3/ComposerCommandEngine.cpp:224-231 | `Validated` directly follows that validation's change list and requests. It comes with no accept and no second present, and the flag is clear. |
| PresentOrValidateProperties.NoOutcomeMeansFailure | base/hwc3/ComposerCommandEngine.cpp:221-238 | If no outcome is written, either an error was written or the last call was a refused present. |
| PresentOrValidateProperties.AfterCleanValidateCalls | base/hwc3/ComposerCommandEngine.cpp:224-238 | After a clean validate: if the query reports client composition, the query is followed by `Validated` and nothing else. Otherwise the calls are the query, accept and present. The results are the accept's error if it failed, then, only if the retried present succeeds, its fence payloads and `Presented`. |
| PresentOrValidateProperties.RetryDecidesOutcome | base/hwc3/ComposerCommandEngine.cpp:233-238 | Without client composition, the stage ends with `Presented` if and only if the retried present succeeds; when it fails, no outcome is written at all. |
| PresentOrValidateProperties.PresentOrValidateOrder | base/hwc3/ComposerCommandEngine.cpp:221-235 | The query comes only right after a validation that returned NONE. An accept comes only right after a query that found no client composition, and is directly followed by a present. |

## Left out

- The Hal, Resources and Writer implementations: Hal and Resources are oracles, the Writer is an append-only sequence. The model writes every payload the engine hands over. If the Writer drops empty lists (an empty display-request list, say), that is outside the model.
- Resources changing must-validate flags by itself: only the engine's own `setDisplayMustValidateState` changes them here.
- Native-handle conversion (`makeFromAidl`) and buffer releasers (`createReleaser`): the wire handle is passed to the resolution request as is, and acquisition and release are not recorded.
- Fence and file-descriptor lifetimes: a fence is an integer, and only the comparison with -1 is kept.
- Floating-point values (colour matrices, brightness, plane alpha, source crop): opaque bit patterns passed through unchanged.
- Logging (`LOG(ERROR)`): it has no effect on results.
- `init`'s NO_MEMORY branch: it is about allocation failure. `CommandEngine.Init` always succeeds.
- ComposerCommandEngine.CommandEngine.Execute: the 32-bit `mCommandIndex` is an unbounded integer, so wrap-around after 2^31 commands is not modelled.
- The validate `displayRequestMask` is `uint32_t` in the engine; the model carries the device's integer unchanged.
- `clientTargetProperty`, which validate fills in, is not written anywhere by the engine, so it is not modelled.
- The parcelable wrappers (blend mode, composition, dataspace, plane alpha, transform, z order, brightness) are flattened to the value the engine extracts and passes on.
- EngineProperties.SidebandPolarity: it states the sideband setter as written, with the device called only after a non-zero resolution status. The Resources return convention is not part of this model, so the model states no intended polarity.
- PresentOrValidateProperties.AfterCleanValidateCalls: when the query status is non-zero, its `hasClientComposition` output is ignored, as in the engine; the model does not say what the device puts there.
