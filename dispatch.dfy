/**
 * The dispatch tables of the command engine. A display command is turned
 * into an ordered list of setter invocations: one per present field, in a
 * fixed order. The order is given by a rank: `LayerStepAt(lc, n)` is the
 * n-th row of the layer table (is the n-th field present, and which setter
 * does it go to), `DisplayStepAt(cmd, n)` the same for display fields.
 */
module Dispatch {
  import opened ComposerTypes

  /** A layer setter invocation with its argument (one executeSetLayer* call). */
  datatype LayerStep =
    | LayerCursorPosition(position: Point)
    | LayerBuffer(buffer: Buffer)
    | LayerSurfaceDamage(damage: seq<Option<Rect>>)
    | LayerBlendMode(blendMode: int)
    | LayerColor(color: Color)
    | LayerComposition(composition: int)
    | LayerDataspace(dataspace: int)
    | LayerDisplayFrame(frame: Rect)
    | LayerPlaneAlpha(alpha: FloatBits)
    | LayerSidebandStream(stream: WireHandle)
    | LayerSourceCrop(crop: FRect)
    | LayerTransform(transform: int)
    | LayerVisibleRegion(region: seq<Option<Rect>>)
    | LayerZOrder(z: int)
    | LayerColorTransform(matrix: seq<FloatBits>)
    | LayerPerFrameMetadata(metadata: seq<Option<FrameMetadata>>)
    | LayerPerFrameMetadataBlobs(blobs: seq<Option<FrameMetadataBlob>>)

  /** A display-level invocation (one execute* call of the display dispatcher). */
  datatype DisplayStep =
    | DisplayColorTransform(matrix: seq<FloatBits>)
    | DisplayClientTarget(target: ClientTarget)
    | DisplayOutputBuffer(buffer: Buffer)
    | DisplayBrightness(brightness: FloatBits)
    | DisplayValidate(time: Option<Timestamp>)
    | DisplayAcceptChanges
    | DisplayPresent
    | DisplayPresentOrValidate(time: Option<Timestamp>)

  /** Number of rows in the layer table (whitePointNits has none). */
  const LayerRows: nat := 17
  /** Number of rows in the display table. */
  const DisplayRows: nat := 8

  /** Position of a layer setter in the fixed dispatch order. */
  function LayerRank(s: LayerStep): (r: nat)
    ensures r < LayerRows
  {
    match s
    case LayerCursorPosition(_) => 0
    case LayerBuffer(_) => 1
    case LayerSurfaceDamage(_) => 2
    case LayerBlendMode(_) => 3
    case LayerColor(_) => 4
    case LayerComposition(_) => 5
    case LayerDataspace(_) => 6
    case LayerDisplayFrame(_) => 7
    case LayerPlaneAlpha(_) => 8
    case LayerSidebandStream(_) => 9
    case LayerSourceCrop(_) => 10
    case LayerTransform(_) => 11
    case LayerVisibleRegion(_) => 12
    case LayerZOrder(_) => 13
    case LayerColorTransform(_) => 14
    case LayerPerFrameMetadata(_) => 15
    case LayerPerFrameMetadataBlobs(_) => 16
  }

  /** Position of a display-level invocation in the fixed dispatch order. */
  function DisplayRank(s: DisplayStep): (r: nat)
    ensures r < DisplayRows
  {
    match s
    case DisplayColorTransform(_) => 0
    case DisplayClientTarget(_) => 1
    case DisplayOutputBuffer(_) => 2
    case DisplayBrightness(_) => 3
    case DisplayValidate(_) => 4
    case DisplayAcceptChanges => 5
    case DisplayPresent => 6
    case DisplayPresentOrValidate(_) => 7
  }

  /** Row n of the layer table: the setter the n-th field dispatches to, if
      that field is present in the command. */
  function LayerStepAt(lc: LayerCommand, n: nat): (r: Option<LayerStep>)
    ensures r.Some? ==> LayerRank(r.value) == n
    ensures n >= LayerRows ==> r.None?
  {
    match n
    case 0 => if lc.cursorPosition.Some? then Some(LayerCursorPosition(lc.cursorPosition.value)) else None
    case 1 => if lc.buffer.Some? then Some(LayerBuffer(lc.buffer.value)) else None
    case 2 => if lc.damage.Some? then Some(LayerSurfaceDamage(lc.damage.value)) else None
    case 3 => if lc.blendMode.Some? then Some(LayerBlendMode(lc.blendMode.value)) else None
    case 4 => if lc.color.Some? then Some(LayerColor(lc.color.value)) else None
    case 5 => if lc.composition.Some? then Some(LayerComposition(lc.composition.value)) else None
    case 6 => if lc.dataspace.Some? then Some(LayerDataspace(lc.dataspace.value)) else None
    case 7 => if lc.displayFrame.Some? then Some(LayerDisplayFrame(lc.displayFrame.value)) else None
    case 8 => if lc.planeAlpha.Some? then Some(LayerPlaneAlpha(lc.planeAlpha.value)) else None
    case 9 => if lc.sidebandStream.Some? then Some(LayerSidebandStream(lc.sidebandStream.value)) else None
    case 10 => if lc.sourceCrop.Some? then Some(LayerSourceCrop(lc.sourceCrop.value)) else None
    case 11 => if lc.transform.Some? then Some(LayerTransform(lc.transform.value)) else None
    case 12 => if lc.visibleRegion.Some? then Some(LayerVisibleRegion(lc.visibleRegion.value)) else None
    case 13 => if lc.z.Some? then Some(LayerZOrder(lc.z.value)) else None
    case 14 => if lc.colorTransform.Some? then Some(LayerColorTransform(lc.colorTransform.value)) else None
    case 15 => if lc.perFrameMetadata.Some? then Some(LayerPerFrameMetadata(lc.perFrameMetadata.value)) else None
    case 16 => if lc.perFrameMetadataBlob.Some? then Some(LayerPerFrameMetadataBlobs(lc.perFrameMetadataBlob.value)) else None
    case _ => None
  }

  /** Row n of the display table. The lifecycle triggers carry the command's
      expected present time where the dispatcher passes it on. */
  function DisplayStepAt(cmd: DisplayCommand, n: nat): (r: Option<DisplayStep>)
    ensures r.Some? ==> DisplayRank(r.value) == n
    ensures n >= DisplayRows ==> r.None?
  {
    match n
    case 0 => if cmd.colorTransformMatrix.Some? then Some(DisplayColorTransform(cmd.colorTransformMatrix.value)) else None
    case 1 => if cmd.clientTarget.Some? then Some(DisplayClientTarget(cmd.clientTarget.value)) else None
    case 2 => if cmd.virtualDisplayOutputBuffer.Some? then Some(DisplayOutputBuffer(cmd.virtualDisplayOutputBuffer.value)) else None
    case 3 => if cmd.brightness.Some? then Some(DisplayBrightness(cmd.brightness.value)) else None
    case 4 => if cmd.validateDisplay then Some(DisplayValidate(cmd.expectedPresentTime)) else None
    case 5 => if cmd.acceptDisplayChanges then Some(DisplayAcceptChanges) else None
    case 6 => if cmd.presentDisplay then Some(DisplayPresent) else None
    case 7 => if cmd.presentOrValidateDisplay then Some(DisplayPresentOrValidate(cmd.expectedPresentTime)) else None
    case _ => None
  }

  /** The rows n..rows-1 of a dispatch table that are present, in table order. */
  function Collect<S>(row: nat -> Option<S>, n: nat, rows: nat): seq<S>
    decreases rows - n
  {
    if n >= rows then []
    else RowSteps(row, n) + Collect(row, n + 1, rows)
  }

  /** Row n as a sequence of at most one step. */
  function RowSteps<S>(row: nat -> Option<S>, n: nat): (r: seq<S>)
    ensures |r| <= 1
    ensures forall i :: 0 <= i < |r| ==> row(n) == Some(r[i])
    ensures row(n).Some? ==> r == [row(n).value]
  {
    match row(n) case Some(s) => [s] case None => []
  }

  /** Every step a table row holds carries that row's rank. */
  ghost predicate Ranked<S>(row: nat -> Option<S>, rank: S -> nat)
  {
    forall n :: row(n).Some? ==> rank(row(n).value) == n
  }

  /** Every collected step comes from a present row of the collected range. */
  lemma {:induction false} CollectSound<S>(row: nat -> Option<S>, rank: S -> nat, n: nat, rows: nat)
    requires Ranked(row, rank)
    decreases rows - n
    ensures forall i :: 0 <= i < |Collect(row, n, rows)| ==>
      && n <= rank(Collect(row, n, rows)[i]) < rows
      && row(rank(Collect(row, n, rows)[i])) == Some(Collect(row, n, rows)[i])
  {
    if n < rows {
      CollectSound(row, rank, n + 1, rows);
      var head, tail := RowSteps(row, n), Collect(row, n + 1, rows);
      forall i | 0 <= i < |head + tail|
        ensures n <= rank((head + tail)[i]) < rows && row(rank((head + tail)[i])) == Some((head + tail)[i])
      {
        if i < |head| {
          assert (head + tail)[i] == head[i] && row(n) == Some(head[i]);
        } else {
          assert (head + tail)[i] == tail[i - |head|];
        }
      }
    }
  }

  /** Collected steps have strictly increasing ranks: each row at most once,
      in table order. */
  lemma {:induction false} CollectSorted<S>(row: nat -> Option<S>, rank: S -> nat, n: nat, rows: nat)
    requires Ranked(row, rank)
    decreases rows - n
    ensures forall i, j :: 0 <= i < j < |Collect(row, n, rows)| ==>
      rank(Collect(row, n, rows)[i]) < rank(Collect(row, n, rows)[j])
  {
    if n < rows {
      CollectSorted(row, rank, n + 1, rows);
      CollectSound(row, rank, n + 1, rows);
      var head, tail := RowSteps(row, n), Collect(row, n + 1, rows);
      var r := head + tail;
      forall i, j | 0 <= i < j < |r| ensures rank(r[i]) < rank(r[j]) {
        assert r[j] == tail[j - |head|];
        if i < |head| {
          assert r[i] == head[i] && row(n) == Some(head[i]);
        } else {
          assert r[i] == tail[i - |head|];
        }
      }
    }
  }

  /** Every present row of the collected range is collected. */
  lemma {:induction false} CollectComplete<S>(row: nat -> Option<S>, n: nat, rows: nat)
    requires forall m :: rows <= m ==> row(m).None?
    decreases rows - n
    ensures forall m :: n <= m && row(m).Some? ==> row(m).value in Collect(row, n, rows)
  {
    if n < rows {
      CollectComplete(row, n + 1, rows);
      assert Collect(row, n, rows) == RowSteps(row, n) + Collect(row, n + 1, rows);
    }
  }

  /** The layer table of one command, as a function from rank to row. */
  function LayerTable(lc: LayerCommand): nat -> Option<LayerStep>
  {
    (n: nat) => LayerStepAt(lc, n)
  }

  lemma LayerTableRanked(lc: LayerCommand)
    ensures Ranked(LayerTable(lc), LayerRank)
    ensures forall m :: LayerRows <= m ==> LayerTable(lc)(m).None?
    ensures forall m {:trigger LayerStepAt(lc, m)} :: LayerStepAt(lc, m) == LayerTable(lc)(m)
  {
    forall n: nat | LayerTable(lc)(n).Some? ensures LayerRank(LayerTable(lc)(n).value) == n {
      assert LayerTable(lc)(n) == LayerStepAt(lc, n);
    }
    forall m: nat | LayerRows <= m ensures LayerTable(lc)(m).None? {
      assert LayerTable(lc)(m) == LayerStepAt(lc, m);
    }
  }

  /** The setters one layer command dispatches to: exactly the present
      fields, each once, each with its own value, in the fixed order. */
  function LayerSteps(lc: LayerCommand): (r: seq<LayerStep>)
    ensures forall i :: 0 <= i < |r| ==> LayerStepAt(lc, LayerRank(r[i])) == Some(r[i])
    ensures forall i, j :: 0 <= i < j < |r| ==> LayerRank(r[i]) < LayerRank(r[j])
    ensures forall m :: LayerStepAt(lc, m).Some? ==> LayerStepAt(lc, m).value in r
  {
    var row := LayerTable(lc);
    LayerTableRanked(lc);
    CollectSound(row, LayerRank, 0, LayerRows);
    CollectSorted(row, LayerRank, 0, LayerRows);
    CollectComplete(row, 0, LayerRows);
    Collect(row, 0, LayerRows)
  }

  /** The display table of one command, as a function from rank to row. */
  function DisplayTable(cmd: DisplayCommand): nat -> Option<DisplayStep>
  {
    (n: nat) => DisplayStepAt(cmd, n)
  }

  lemma DisplayTableRanked(cmd: DisplayCommand)
    ensures Ranked(DisplayTable(cmd), DisplayRank)
    ensures forall m :: DisplayRows <= m ==> DisplayTable(cmd)(m).None?
    ensures forall m {:trigger DisplayStepAt(cmd, m)} :: DisplayStepAt(cmd, m) == DisplayTable(cmd)(m)
  {
    forall n: nat | DisplayTable(cmd)(n).Some? ensures DisplayRank(DisplayTable(cmd)(n).value) == n {
      assert DisplayTable(cmd)(n) == DisplayStepAt(cmd, n);
    }
    forall m: nat | DisplayRows <= m ensures DisplayTable(cmd)(m).None? {
      assert DisplayTable(cmd)(m) == DisplayStepAt(cmd, m);
    }
  }

  /** The display-level invocations of one display command: exactly the
      present fields, each once, in the fixed order. */
  function DisplaySteps(cmd: DisplayCommand): (r: seq<DisplayStep>)
    ensures forall i :: 0 <= i < |r| ==> DisplayStepAt(cmd, DisplayRank(r[i])) == Some(r[i])
    ensures forall i, j :: 0 <= i < j < |r| ==> DisplayRank(r[i]) < DisplayRank(r[j])
    ensures forall m :: DisplayStepAt(cmd, m).Some? ==> DisplayStepAt(cmd, m).value in r
  {
    var row := DisplayTable(cmd);
    DisplayTableRanked(cmd);
    CollectSound(row, DisplayRank, 0, DisplayRows);
    CollectSorted(row, DisplayRank, 0, DisplayRows);
    CollectComplete(row, 0, DisplayRows);
    Collect(row, 0, DisplayRows)
  }

  /** The whitePointNits field is never dispatched: the layer steps do not
      depend on it. */
  lemma WhitePointNitsNeverDispatched(lc: LayerCommand, nits: Option<FloatBits>)
    ensures LayerSteps(lc.(whitePointNits := nits)) == LayerSteps(lc)
  {
    var lc' := lc.(whitePointNits := nits);
    CollectSameRows(LayerTable(lc'), LayerTable(lc), 0, LayerRows);
  }

  /** Tables that agree on every row collect the same steps. */
  lemma {:induction false} CollectSameRows<S>(row: nat -> Option<S>, row': nat -> Option<S>, n: nat, rows: nat)
    requires forall m :: row(m) == row'(m)
    decreases rows - n
    ensures Collect(row, n, rows) == Collect(row', n, rows)
  {
    if n < rows {
      CollectSameRows(row, row', n + 1, rows);
      assert RowSteps(row, n) == RowSteps(row', n);
    }
  }

  /** A range with no present row collects nothing. */
  lemma {:induction false} CollectNone<S>(row: nat -> Option<S>, n: nat, rows: nat)
    requires forall m :: n <= m < rows ==> row(m).None?
    decreases rows - n
    ensures Collect(row, n, rows) == []
  {
    if n < rows {
      CollectNone(row, n + 1, rows);
      assert RowSteps(row, n) == [];
    }
  }

  /** A range with a single present row collects just that row's step. */
  lemma {:induction false} CollectSingle<S>(row: nat -> Option<S>, n: nat, k: nat, rows: nat)
    requires n <= k < rows && row(k).Some?
    requires forall m :: n <= m < rows && m != k ==> row(m).None?
    decreases k - n
    ensures Collect(row, n, rows) == [row(k).value]
  {
    if n < k {
      CollectSingle(row, n + 1, k, rows);
      assert RowSteps(row, n) == [];
    } else {
      CollectNone(row, n + 1, rows);
      assert Collect(row, n, rows) == [row(k).value] + [];
    }
  }

  /** A layer command whose one present field sits in row k dispatches
      exactly that setter. */
  lemma OneLayerField(lc: LayerCommand, k: nat)
    requires k < LayerRows && LayerStepAt(lc, k).Some?
    requires forall m: nat :: m < LayerRows && m != k ==> LayerStepAt(lc, m).None?
    ensures LayerSteps(lc) == [LayerStepAt(lc, k).value]
  {
    LayerTableRanked(lc);
    CollectSingle(LayerTable(lc), 0, k, LayerRows);
  }

  /** A display command whose one present field sits in row k runs exactly
      that handler. */
  lemma OneDisplayField(cmd: DisplayCommand, k: nat)
    requires k < DisplayRows && DisplayStepAt(cmd, k).Some?
    requires forall m: nat :: m < DisplayRows && m != k ==> DisplayStepAt(cmd, m).None?
    ensures DisplaySteps(cmd) == [DisplayStepAt(cmd, k).value]
  {
    DisplayTableRanked(cmd);
    CollectSingle(DisplayTable(cmd), 0, k, DisplayRows);
  }

  /** A display command with no field present and no layers dispatches nothing. */
  predicate IsEmpty(cmd: DisplayCommand)
  {
    && cmd.layers == []
    && cmd.colorTransformMatrix.None? && cmd.brightness.None?
    && cmd.clientTarget.None? && cmd.virtualDisplayOutputBuffer.None?
    && !cmd.validateDisplay && !cmd.acceptDisplayChanges
    && !cmd.presentDisplay && !cmd.presentOrValidateDisplay
  }

  lemma EmptyCommandDispatchesNothing(cmd: DisplayCommand)
    requires IsEmpty(cmd)
    ensures DisplaySteps(cmd) == []
  {
  }
}
