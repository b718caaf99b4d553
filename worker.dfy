/** The single-threaded reconstruction worker of the JPEG decoder.

    A `WorkerContext` keeps one slot per component: a write offset, the plane
    being reconstructed, the component descriptor and its quantization table.
    `ProcessMessage` drives a slot through three messages: `Start` sizes and
    zero-fills the plane, `AppendRow` turns one MCU row of coefficient blocks
    into samples at the offset and advances it, `GetResult` swaps the plane out
    to the caller.

    The functions `Begin`, `Append` and `Extract` specify one slot's reaction to
    each message, and `Process` the whole context's; the methods of
    `WorkerContext` are proved to change the context's state exactly as
    `Process` says. A failed `assert!`, `unwrap` or index in the source aborts
    the decoder; here it is the outcome `Panicked` with the fault that caused
    it, and the state is left as it was. */
module SyncWorker {
  import opened Idct
  import opened BlockGeometry

  /** The decoder's bound on the number of components of a frame. */
  const MaxComponents: nat := 4

  type U8 = n: int | 0 <= n < 0x100

  datatype Option<T> = None | Some(value: T)

  datatype Dimensions = Dimensions(width: U16, height: U16)

  /** The fields of the parser's component descriptor that the worker reads:
      the plane's size in blocks and the number of block rows per MCU row. */
  datatype Component = Component(blockSize: Dimensions, verticalSamplingFactor: U8)

  /** Payload of `Start`. */
  datatype RowData = RowData(index: nat, component: Component, quantizationTable: QuantizationTable)

  /** The messages; `GetResult` carries the caller's vector in, and the outcome
      `Returned` carries it back out after the swap. */
  datatype WorkerMsg =
    | Start(data: RowData)
    | AppendRow(index: nat, coefficients: seq<Coefficient>)
    | GetResult(index: nat, destination: seq<Byte>)

  datatype Fault =
    | IndexOutOfRange     // a component index not below MaxComponents
    | BufferNotEmpty      // Start on a slot whose plane was not taken out
    | NotStarted          // AppendRow on a slot with no descriptor or table
    | RowLengthMismatch   // AppendRow with a row that is not block_count * 64 coefficients
    | StripeOutOfBounds   // AppendRow whose blocks reach past the end of the plane

  datatype Outcome = Completed | Returned(destination: seq<Byte>) | Panicked(fault: Fault)

  datatype Result<T> = Ok(value: T) | Err(fault: Fault)

  /** One component's state: the entries at its index of the context's four fields. */
  datatype Slot = Slot(offset: nat, buffer: seq<Byte>, component: Option<Component>, table: Option<QuantizationTable>)

  const EmptySlot := Slot(0, [], None, None)

  /** Bytes of a component's finished plane. */
  function PlaneLength(c: Component): nat
  {
    c.blockSize.width * c.blockSize.height * 64
  }

  /** Coefficients in one MCU row of the component, which is also the number
      of plane bytes that row covers. */
  function RowLength(c: Component): nat
  {
    StripeLength(c.blockSize.width, c.verticalSamplingFactor)
  }

  /** `Vec::resize`: truncate, or extend with copies of `fill`. */
  function Resize(v: seq<Byte>, n: nat, fill: Byte): (r: seq<Byte>)
    ensures |r| == n
    ensures forall k :: 0 <= k < n && k < |v| ==> r[k] == v[k]
    ensures forall k :: |v| <= k < n ==> r[k] == fill
  {
    if n <= |v| then v[..n] else v + seq(n - |v|, _ => fill)
  }

  // ---------------------------------------------------------------------------
  // Specification of one slot

  /** `Start`: refused unless the plane is empty; otherwise the offset restarts,
      the plane is resized to the component's size and the descriptor and table
      are stored. */
  function Begin(s: Slot, c: Component, t: QuantizationTable): Result<Slot>
  {
    if s.buffer != [] then Err(BufferNotEmpty)
    else Ok(Slot(0, Resize(s.buffer, PlaneLength(c), 0), Some(c), Some(t)))
  }

  /** The sample that an MCU row places on byte `p` of its stripe: sample
      `StripeSample` of the transform of block `StripeBlock`. */
  function SampleAt(offset: nat, width: nat, vsf: nat, coefficients: seq<Coefficient>,
                    table: QuantizationTable, idct: BlockTransform, p: nat): Byte
    requires width > 0 && |coefficients| == StripeLength(width, vsf)
    requires offset <= p < offset + |coefficients|
  {
    StripePositionIsTarget(offset, width, vsf, p);
    var i := StripeBlock(offset, width, p);
    idct(coefficients[i * 64 .. i * 64 + 64], table)[StripeSample(offset, width, p)]
  }

  /** The plane after an MCU row is reconstructed into the stripe at `offset`:
      every byte of the stripe holds the sample that lands on it, every other
      byte is as it was. */
  function RowWritten(plane: seq<Byte>, offset: nat, width: nat, vsf: nat, coefficients: seq<Coefficient>,
                      table: QuantizationTable, idct: BlockTransform): seq<Byte>
    requires |coefficients| == StripeLength(width, vsf)
    requires BlockCount(width, vsf) == 0 || offset + |coefficients| <= |plane|
  {
    seq(|plane|, p requires 0 <= p < |plane| =>
          if width > 0 && offset <= p < offset + |coefficients|
          then SampleAt(offset, width, vsf, coefficients, table, idct, p)
          else plane[p])
  }

  /** `AppendRow`: refused on a slot never started, on a row of the wrong
      length, and on a stripe that does not fit in the plane; otherwise the
      row is reconstructed at the offset and the offset advances past it. */
  function Append(s: Slot, coefficients: seq<Coefficient>, idct: BlockTransform): Result<Slot>
  {
    if s.component.None? || s.table.None? then Err(NotStarted)
    else
      var c := s.component.value;
      var width, vsf := c.blockSize.width, c.verticalSamplingFactor;
      if |coefficients| != RowLength(c) then Err(RowLengthMismatch)
      else if BlockCount(width, vsf) > 0 && s.offset + |coefficients| > |s.buffer| then Err(StripeOutOfBounds)
      else
        Ok(s.(offset := s.offset + |coefficients|,
              buffer := RowWritten(s.buffer, s.offset, width, vsf, coefficients, s.table.value, idct)))
  }

  /** `GetResult`: the slot's plane and the caller's vector trade places. */
  function Extract(s: Slot, destination: seq<Byte>): (Slot, seq<Byte>)
  {
    (s.(buffer := destination), s.buffer)
  }

  // ---------------------------------------------------------------------------
  // Specification of the context

  datatype Step = Step(slots: seq<Slot>, outcome: Outcome)

  function MsgIndex(msg: WorkerMsg): nat
  {
    match msg
    case Start(data) => data.index
    case AppendRow(index, _) => index
    case GetResult(index, _) => index
  }

  function StartStep(slots: seq<Slot>, data: RowData): Step
    requires |slots| == MaxComponents
  {
    if data.index >= MaxComponents then Step(slots, Panicked(IndexOutOfRange))
    else match Begin(slots[data.index], data.component, data.quantizationTable)
      case Ok(s) => Step(slots[data.index := s], Completed)
      case Err(f) => Step(slots, Panicked(f))
  }

  function AppendStep(slots: seq<Slot>, index: nat, coefficients: seq<Coefficient>, idct: BlockTransform): Step
    requires |slots| == MaxComponents
  {
    if index >= MaxComponents then Step(slots, Panicked(IndexOutOfRange))
    else match Append(slots[index], coefficients, idct)
      case Ok(s) => Step(slots[index := s], Completed)
      case Err(f) => Step(slots, Panicked(f))
  }

  function GetResultStep(slots: seq<Slot>, index: nat, destination: seq<Byte>): Step
    requires |slots| == MaxComponents
  {
    if index >= MaxComponents then Step(slots, Panicked(IndexOutOfRange))
    else
      var (s, taken) := Extract(slots[index], destination);
      Step(slots[index := s], Returned(taken))
  }

  /** `process_message`: a message changes at most the slot it names, and a
      message that panics changes nothing. */
  function Process(slots: seq<Slot>, msg: WorkerMsg, idct: BlockTransform): (r: Step)
    requires |slots| == MaxComponents
    ensures |r.slots| == MaxComponents
    ensures forall j :: 0 <= j < MaxComponents && j != MsgIndex(msg) ==> r.slots[j] == slots[j]
    ensures r.outcome.Panicked? ==> r.slots == slots
    ensures MsgIndex(msg) >= MaxComponents ==> r.outcome == Panicked(IndexOutOfRange)
  {
    match msg
    case Start(data) => StartStep(slots, data)
    case AppendRow(index, coefficients) => AppendStep(slots, index, coefficients, idct)
    case GetResult(index, destination) => GetResultStep(slots, index, destination)
  }

  // ---------------------------------------------------------------------------
  // The loop of `AppendRow`

  /** The blocks of an MCU row are transformed one after the other, block `i`
      into the 8x8 region at block row `i / width` and block column
      `i % width` of the stripe at `offset`. */
  method ReconstructRow(plane: seq<Byte>, offset: nat, width: nat, vsf: nat, coefficients: seq<Coefficient>,
                        table: QuantizationTable, idct: BlockTransform) returns (r: seq<Byte>)
    requires |coefficients| == BlockCount(width, vsf) * 64
    requires BlockCount(width, vsf) == 0 || offset + |coefficients| <= |plane|
    ensures r == RowWritten(plane, offset, width, vsf, coefficients, table, idct)
  {
    var blockCount := width * vsf;
    var lineStride := width * 8;
    r := plane;
    for i := 0 to blockCount
      invariant |r| == |plane|
      invariant forall p :: 0 <= p < |plane| ==>
                  r[p] == if width > 0 && offset <= p < offset + |coefficients| && StripeBlock(offset, width, p) < i
                          then SampleAt(offset, width, vsf, coefficients, table, idct, p)
                          else plane[p]
    {
      var x := (i % width) * 8;
      var y := (i / width) * 8;
      var start := offset + y * lineStride + x;
      assert start == BlockStart(offset, width, i);
      BlockTargetInStripe(offset, width, vsf, i, 63);
      var samples := idct(coefficients[i * 64 .. (i + 1) * 64], table);
      ghost var before := r;
      r := WriteBlock(r, start, lineStride, samples);
      forall p | 0 <= p < |plane|
        ensures r[p] == if offset <= p < offset + |coefficients| && StripeBlock(offset, width, p) < i + 1
                        then SampleAt(offset, width, vsf, coefficients, table, idct, p)
                        else plane[p]
      {
        BlockRegionInStripe(offset, width, vsf, i, p);
        if InRegion(p, start, lineStride) {
          RegionIsTarget(p, start, lineStride);
        }
      }
    }
    forall p | 0 <= p < |plane|
      ensures r[p] == RowWritten(plane, offset, width, vsf, coefficients, table, idct)[p]
    {
      if width > 0 && offset <= p < offset + |coefficients| {
        StripePositionIsTarget(offset, width, vsf, p);
      }
    }
  }

  // ---------------------------------------------------------------------------
  // The worker

  /** Zips the context's four per-component fields into slots. */
  function SlotsOf(offsets: seq<nat>, results: seq<seq<Byte>>, components: seq<Option<Component>>,
                   tables: seq<Option<QuantizationTable>>): seq<Slot>
    requires |results| == |offsets| && |components| == |offsets| && |tables| == |offsets|
  {
    seq(|offsets|, k requires 0 <= k < |offsets| => Slot(offsets[k], results[k], components[k], tables[k]))
  }

  class WorkerContext {
    var offsets: array<nat>
    var results: array<seq<Byte>>
    var components: array<Option<Component>>
    var quantizationTables: array<Option<QuantizationTable>>

    ghost predicate Valid()
      reads this
    {
      offsets.Length == MaxComponents && results.Length == MaxComponents &&
      components.Length == MaxComponents && quantizationTables.Length == MaxComponents
    }

    /** The abstract state: one slot per component index. */
    ghost function Slots(): seq<Slot>
      reads this, offsets, results, components, quantizationTables
      requires Valid()
    {
      SlotsOf(offsets[..], results[..], components[..], quantizationTables[..])
    }

    /** `WorkerContext::new`: every slot empty. */
    constructor ()
      ensures Valid() && fresh(offsets) && fresh(results) && fresh(components) && fresh(quantizationTables)
      ensures Slots() == seq(MaxComponents, _ => EmptySlot)
    {
      offsets := new nat[MaxComponents](_ => 0);
      results := new seq<Byte>[MaxComponents](_ => []);
      components := new Option<Component>[MaxComponents](_ => None);
      quantizationTables := new Option<QuantizationTable>[MaxComponents](_ => None);
    }

    method Start(data: RowData) returns (outcome: Outcome)
      requires Valid()
      modifies offsets, results, components, quantizationTables
      ensures Valid()
      ensures Step(Slots(), outcome) == StartStep(old(Slots()), data)
    {
      var index := data.index;
      if index >= MaxComponents {
        return Panicked(IndexOutOfRange);
      }
      if results[index] != [] {
        return Panicked(BufferNotEmpty);
      }
      offsets[index] := 0;
      results[index] := Resize(results[index], PlaneLength(data.component), 0);
      components[index] := Some(data.component);
      quantizationTables[index] := Some(data.quantizationTable);
      outcome := Completed;
    }

    method AppendRow(index: nat, coefficients: seq<Coefficient>, idct: BlockTransform) returns (outcome: Outcome)
      requires Valid()
      modifies offsets, results
      ensures Valid()
      ensures Step(Slots(), outcome) == AppendStep(old(Slots()), index, coefficients, idct)
    {
      if index >= MaxComponents {
        return Panicked(IndexOutOfRange);
      }
      if components[index].None? || quantizationTables[index].None? {
        return Panicked(NotStarted);
      }
      var component := components[index].value;
      var table := quantizationTables[index].value;
      var blockCount := component.blockSize.width * component.verticalSamplingFactor;
      if |coefficients| != blockCount * 64 {
        return Panicked(RowLengthMismatch);
      }
      if blockCount > 0 && offsets[index] + |coefficients| > |results[index]| {
        return Panicked(StripeOutOfBounds);
      }
      results[index] := ReconstructRow(results[index], offsets[index], component.blockSize.width,
                                       component.verticalSamplingFactor, coefficients, table, idct);
      offsets[index] := offsets[index] + |coefficients|;
      outcome := Completed;
    }

    method GetResult(index: nat, destination: seq<Byte>) returns (outcome: Outcome)
      requires Valid()
      modifies results
      ensures Valid()
      ensures Step(Slots(), outcome) == GetResultStep(old(Slots()), index, destination)
    {
      if index >= MaxComponents {
        return Panicked(IndexOutOfRange);
      }
      var taken;
      results[index], taken := destination, results[index];
      outcome := Returned(taken);
    }

    /** `process_message`. */
    method ProcessMessage(msg: WorkerMsg, idct: BlockTransform) returns (outcome: Outcome)
      requires Valid()
      modifies offsets, results, components, quantizationTables
      ensures Valid()
      ensures Step(Slots(), outcome) == Process(old(Slots()), msg, idct)
    {
      match msg
      case Start(data) =>
        outcome := Start(data);
      case AppendRow(index, coefficients) =>
        outcome := AppendRow(index, coefficients, idct);
      case GetResult(index, destination) =>
        outcome := GetResult(index, destination);
    }
  }
}
