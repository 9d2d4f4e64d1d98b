/**
 * Values exchanged by the composer command engine: the commands of one frame,
 * the payloads of the result batch, and the calls made across the two
 * boundaries the engine talks to -- the hardware device ("Hal") and the
 * buffer cache ("Resources").
 *
 * Floating-point values (colour matrices, plane alpha, brightness, source
 * crop) are never inspected by the engine; they are carried as opaque bit
 * patterns. Fences are file descriptors and are kept as integers, with -1
 * meaning "no fence".
 */
module ComposerTypes {

  datatype Option<+T> = None | Some(value: T)

  type Display = int
  type Layer = int
  /** A sync fence file descriptor; `NoFence` (-1) stands for none. */
  type Fence = int
  /** Bit pattern of a float that is passed through unchanged. */
  type FloatBits = int
  /** A native handle as it arrives on the wire. */
  type WireHandle = int
  /** A device-usable buffer handle, resolved by Resources. */
  type BufferHandle = int
  /** A monotonic-clock timestamp. */
  type Timestamp = int

  /** HWC2_ERROR_NONE: the device call succeeded. */
  const StatusNone: int := 0
  /** HWC2_ERROR_HAS_CHANGES: validate wants composition changes accepted. */
  const StatusHasChanges: int := 5
  /** IComposerClient::EX_NOT_VALIDATED: present refused before validation. */
  const StatusNotValidated: int := 7
  /** The value of a present fence that carries no fence. */
  const NoFence: Fence := -1

  datatype Point = Point(x: int, y: int)
  datatype Rect = Rect(left: int, top: int, right: int, bottom: int)
  datatype FRect = FRect(left: FloatBits, top: FloatBits, right: FloatBits, bottom: FloatBits)
  datatype Color = Color(r: FloatBits, g: FloatBits, b: FloatBits, a: FloatBits)
  datatype FrameMetadata = FrameMetadata(key: int, value: FloatBits)
  datatype FrameMetadataBlob = FrameMetadataBlob(key: int, blob: seq<int>)

  /** A buffer descriptor: a cache slot, an optional raw handle (absent: reuse
      the handle cached in the slot) and an acquire fence. */
  datatype Buffer = Buffer(slot: int, handle: Option<WireHandle>, fence: Fence)

  datatype ClientTarget = ClientTarget(buffer: Buffer, dataspace: int, damage: seq<Option<Rect>>)

  /** The per-layer part of a display command. Every optional field means
      "change this property this frame". */
  datatype LayerCommand = LayerCommand(
    layer: Layer,
    cursorPosition: Option<Point>,
    buffer: Option<Buffer>,
    damage: Option<seq<Option<Rect>>>,
    blendMode: Option<int>,
    color: Option<Color>,
    composition: Option<int>,
    dataspace: Option<int>,
    displayFrame: Option<Rect>,
    planeAlpha: Option<FloatBits>,
    sidebandStream: Option<WireHandle>,
    sourceCrop: Option<FRect>,
    transform: Option<int>,
    visibleRegion: Option<seq<Option<Rect>>>,
    z: Option<int>,
    colorTransform: Option<seq<FloatBits>>,
    whitePointNits: Option<FloatBits>,
    perFrameMetadata: Option<seq<Option<FrameMetadata>>>,
    perFrameMetadataBlob: Option<seq<Option<FrameMetadataBlob>>>)

  /** One display's commands for the frame: property setters, lifecycle
      triggers (the four flags) and the layer commands. */
  datatype DisplayCommand = DisplayCommand(
    display: Display,
    layers: seq<LayerCommand>,
    colorTransformMatrix: Option<seq<FloatBits>>,
    brightness: Option<FloatBits>,
    clientTarget: Option<ClientTarget>,
    virtualDisplayOutputBuffer: Option<Buffer>,
    validateDisplay: bool,
    acceptDisplayChanges: bool,
    presentDisplay: bool,
    presentOrValidateDisplay: bool,
    expectedPresentTime: Option<Timestamp>)

  datatype Outcome = Validated | Presented

  /** One entry of the result batch, as handed to the Writer. */
  datatype Payload =
    | Error(index: int, code: int)
    | ChangedCompositionTypes(display: Display, layers: seq<Layer>, types: seq<int>)
    | DisplayRequests(display: Display, mask: int, layers: seq<Layer>, masks: seq<int>)
    | PresentFence(display: Display, fence: Fence)
    | ReleaseFences(display: Display, layers: seq<Layer>, fences: seq<Fence>)
    | PresentOrValidateResult(display: Display, result: Outcome)

  /** One call into the hardware device, with its arguments. */
  datatype HalCall =
    | SetColorTransform(display: Display, matrix: seq<FloatBits>)
    | SetClientTarget(display: Display, target: BufferHandle, fence: Fence, dataspace: int, damage: seq<Option<Rect>>)
    | SetOutputBuffer(display: Display, buffer: BufferHandle, fence: Fence)
    | SetDisplayBrightness(display: Display, brightness: FloatBits)
    | SetExpectedPresentTime(display: Display, time: Option<Timestamp>)
    | ValidateDisplay(display: Display)
    | AcceptDisplayChanges(display: Display)
    | PresentDisplay(display: Display)
    | GetHasClientComposition(display: Display)
    | SetLayerCursorPosition(display: Display, layer: Layer, x: int, y: int)
    | SetLayerBuffer(display: Display, layer: Layer, buffer: BufferHandle, fence: Fence)
    | SetLayerSurfaceDamage(display: Display, layer: Layer, damage: seq<Option<Rect>>)
    | SetLayerBlendMode(display: Display, layer: Layer, blendMode: int)
    | SetLayerColor(display: Display, layer: Layer, color: Color)
    | SetLayerCompositionType(display: Display, layer: Layer, composition: int)
    | SetLayerDataspace(display: Display, layer: Layer, dataspace: int)
    | SetLayerDisplayFrame(display: Display, layer: Layer, frame: Rect)
    | SetLayerPlaneAlpha(display: Display, layer: Layer, alpha: FloatBits)
    | SetLayerSidebandStream(display: Display, layer: Layer, stream: BufferHandle)
    | SetLayerSourceCrop(display: Display, layer: Layer, crop: FRect)
    | SetLayerTransform(display: Display, layer: Layer, transform: int)
    | SetLayerVisibleRegion(display: Display, layer: Layer, region: seq<Option<Rect>>)
    | SetLayerZOrder(display: Display, layer: Layer, z: int)
    | SetLayerColorTransform(display: Display, layer: Layer, matrix: seq<FloatBits>)
    | SetLayerPerFrameMetadata(display: Display, layer: Layer, metadata: seq<Option<FrameMetadata>>)
    | SetLayerPerFrameMetadataBlobs(display: Display, layer: Layer, blobs: seq<Option<FrameMetadataBlob>>)

  /** What the device answers to a call: a status and every out-parameter any
      call can fill in. Each call reads only the outputs that belong to it:
      validate the composition changes and requests, present the fences,
      getHasClientComposition the flag. */
  datatype HalReply = HalReply(
    status: int,
    changedLayers: seq<Layer>,
    compositionTypes: seq<int>,
    displayRequestMask: int,
    requestedLayers: seq<Layer>,
    requestMasks: seq<int>,
    presentFence: Fence,
    releasedLayers: seq<Layer>,
    releaseFences: seq<Fence>,
    hasClientComposition: bool)

  /** One buffer resolution request to Resources. `useCache` asks for the
      handle cached in `slot`; otherwise `handle` is imported into the slot. */
  datatype ResourceCall =
    | GetDisplayClientTarget(display: Display, slot: int, useCache: bool, handle: Option<WireHandle>)
    | GetDisplayOutputBuffer(display: Display, slot: int, useCache: bool, handle: Option<WireHandle>)
    | GetLayerBuffer(display: Display, layer: Layer, slot: int, useCache: bool, handle: Option<WireHandle>)
    | GetLayerSidebandStream(display: Display, layer: Layer, stream: WireHandle)

  datatype Resolution = Resolution(status: int, handle: BufferHandle)

  /** The two collaborators as deterministic oracles: each answer may depend
      on everything that was asked before, so a stateful device or cache is
      covered. */
  datatype Env = Env(
    hal: (seq<HalCall>, HalCall) -> HalReply,
    resources: (seq<ResourceCall>, ResourceCall) -> Resolution)
}
