/** What a caller of the worker can rely on across several messages: the life
    of one slot from `Start` through its `AppendRow`s to `GetResult`, and a
    concrete run of the whole context. */
module WorkerProtocol {
  import opened Arith
  import opened Idct
  import opened BlockGeometry
  import opened SyncWorker

  /** `Start` is accepted exactly on a slot whose plane is empty; it leaves the
      offset at 0 and a zero-filled plane of width*8 by height*8 bytes, and
      stores the descriptor and the table. */
  lemma StartPlane(s: Slot, c: Component, t: QuantizationTable)
    ensures Begin(s, c, t).Ok? <==> s.buffer == []
    ensures Begin(s, c, t).Ok? ==>
              Begin(s, c, t).value.offset == 0 &&
              |Begin(s, c, t).value.buffer| == (c.blockSize.width * 8) * (c.blockSize.height * 8) &&
              (forall k :: 0 <= k < |Begin(s, c, t).value.buffer| ==> Begin(s, c, t).value.buffer[k] == 0) &&
              Begin(s, c, t).value.component == Some(c) && Begin(s, c, t).value.table == Some(t)
  {
    var w: nat, h: nat := c.blockSize.width, c.blockSize.height;
    assert w * h * 64 == (w * 8) * (h * 8);
  }

  /** `AppendRow` is accepted exactly on a started slot, with a row of
      `RowLength` coefficients whose stripe fits in the plane; it then advances
      the offset by the row's length and changes no byte outside the stripe. */
  lemma AppendRowEffect(s: Slot, coefficients: seq<Coefficient>, idct: BlockTransform)
    ensures Append(s, coefficients, idct).Ok? <==>
              s.component.Some? && s.table.Some? &&
              |coefficients| == RowLength(s.component.value) &&
              (|coefficients| == 0 || s.offset + |coefficients| <= |s.buffer|)
    ensures Append(s, coefficients, idct).Ok? ==>
              Append(s, coefficients, idct).value.offset == s.offset + |coefficients| &&
              |Append(s, coefficients, idct).value.buffer| == |s.buffer| &&
              Append(s, coefficients, idct).value.component == s.component &&
              Append(s, coefficients, idct).value.table == s.table &&
              forall p :: 0 <= p < |s.buffer| && !(s.offset <= p < s.offset + |coefficients|) ==>
                Append(s, coefficients, idct).value.buffer[p] == s.buffer[p]
  {
  }

  /** Sample `j` of block `i` of an appended row is the byte of the plane at
      `offset + (i / width) * 8 * line_stride + (i % width) * 8`, plus `j / 8`
      lines and `j % 8` columns. */
  lemma RowPlacesBlocks(plane: seq<Byte>, offset: nat, width: nat, vsf: nat, coefficients: seq<Coefficient>,
                        table: QuantizationTable, idct: BlockTransform, i: nat, j: nat)
    requires width > 0 && |coefficients| == StripeLength(width, vsf) && offset + |coefficients| <= |plane|
    requires i < BlockCount(width, vsf) && j < 64
    ensures Target(BlockStart(offset, width, i), LineStride(width), j) < |plane|
    ensures RowWritten(plane, offset, width, vsf, coefficients, table, idct)
              [Target(BlockStart(offset, width, i), LineStride(width), j)]
         == idct(coefficients[i * 64 .. i * 64 + 64], table)[j]
  {
    BlockTargetInStripe(offset, width, vsf, i, j);
  }

  /** Several `AppendRow`s in a row, stopping at the first that panics. */
  function AppendAll(s: Slot, rows: seq<seq<Coefficient>>, idct: BlockTransform): Result<Slot>
    decreases |rows|
  {
    if rows == [] then Ok(s)
    else match Append(s, rows[0], idct)
      case Err(f) => Err(f)
      case Ok(next) => AppendAll(next, rows[1..], idct)
  }

  /** A run of `AppendRow`s never changes the plane's length. */
  lemma {:induction false} AppendAllKeepsLength(s: Slot, rows: seq<seq<Coefficient>>, idct: BlockTransform)
    requires AppendAll(s, rows, idct).Ok?
    ensures |AppendAll(s, rows, idct).value.buffer| == |s.buffer|
    decreases |rows|
  {
    if rows != [] {
      AppendRowEffect(s, rows[0], idct);
      AppendAllKeepsLength(Append(s, rows[0], idct).value, rows[1..], idct);
    }
  }

  /** Rows of the right length are all accepted exactly when their stripes fit
      in the plane one after the other; the offset then stands right after the
      last stripe, the bytes before the first stripe and after the last one are
      untouched, and the slot keeps its descriptor and table. */
  lemma {:induction false} AppendRun(s: Slot, rows: seq<seq<Coefficient>>, idct: BlockTransform)
    requires s.component.Some? && s.table.Some? && RowLength(s.component.value) > 0
    requires forall k :: 0 <= k < |rows| ==> |rows[k]| == RowLength(s.component.value)
    ensures AppendAll(s, rows, idct).Ok? <==>
              rows == [] || s.offset + |rows| * RowLength(s.component.value) <= |s.buffer|
    ensures !AppendAll(s, rows, idct).Ok? ==> AppendAll(s, rows, idct) == Err(StripeOutOfBounds)
    ensures AppendAll(s, rows, idct).Ok? ==>
              AppendAll(s, rows, idct).value.offset == s.offset + |rows| * RowLength(s.component.value) &&
              |AppendAll(s, rows, idct).value.buffer| == |s.buffer| &&
              AppendAll(s, rows, idct).value.component == s.component &&
              AppendAll(s, rows, idct).value.table == s.table &&
              (forall p :: 0 <= p < s.offset && p < |s.buffer| ==> AppendAll(s, rows, idct).value.buffer[p] == s.buffer[p]) &&
              (forall p :: AppendAll(s, rows, idct).value.offset <= p < |s.buffer| ==>
                 AppendAll(s, rows, idct).value.buffer[p] == s.buffer[p])
    decreases |rows|
  {
    var len := RowLength(s.component.value);
    if rows != [] {
      var rest := |rows[1..]| * len;
      assert |rows| * len == len + rest by {
        MulAddDistrib(|rows[1..]|, 1, len);
      }
      assert rest >= 0 by {
        MulLeIff(0, |rows[1..]|, len);
      }
      AppendRowEffect(s, rows[0], idct);
      if Append(s, rows[0], idct).Ok? {
        forall k | 0 <= k < |rows[1..]| ensures |rows[1..][k]| == len {
          assert rows[1..][k] == rows[k + 1];
        }
        AppendRun(Append(s, rows[0], idct).value, rows[1..], idct);
      }
    }
  }

  /** From a freshly started slot, rows of the right length are all accepted
      exactly when they number at most height / vsf; the offset reaches the end
      of the plane exactly when they number height / vsf, and every byte past
      the offset is still 0. */
  lemma FillPlane(s: Slot, c: Component, t: QuantizationTable, rows: seq<seq<Coefficient>>, idct: BlockTransform)
    requires s.buffer == [] && c.blockSize.width > 0 && c.verticalSamplingFactor > 0
    requires forall k :: 0 <= k < |rows| ==> |rows[k]| == RowLength(c)
    ensures Begin(s, c, t).Ok?
    ensures AppendAll(Begin(s, c, t).value, rows, idct).Ok? <==> |rows| * c.verticalSamplingFactor <= c.blockSize.height
    ensures AppendAll(Begin(s, c, t).value, rows, idct).Ok? ==>
              |AppendAll(Begin(s, c, t).value, rows, idct).value.buffer| == PlaneLength(c) &&
              ((AppendAll(Begin(s, c, t).value, rows, idct).value.offset == PlaneLength(c)) <==>
                 (|rows| * c.verticalSamplingFactor == c.blockSize.height)) &&
              forall p :: AppendAll(Begin(s, c, t).value, rows, idct).value.offset <= p
                            < |AppendAll(Begin(s, c, t).value, rows, idct).value.buffer| ==>
                AppendAll(Begin(s, c, t).value, rows, idct).value.buffer[p] == 0
  {
    var w: nat, h: nat, vsf: nat := c.blockSize.width, c.blockSize.height, c.verticalSamplingFactor;
    StartPlane(s, c, t);
    assert RowLength(c) > 0 by {
      MulAtLeast(vsf, w);
    }
    AppendRun(Begin(s, c, t).value, rows, idct);
    RowsInPlane(|rows|, w, h, vsf);
  }

  /** `n` stripes of a component fit in (fill) its plane exactly when `n`
      times the vertical sampling factor is at most (equals) the height in
      blocks. */
  lemma RowsInPlane(n: nat, w: nat, h: nat, vsf: nat)
    requires w > 0
    ensures n * (w * vsf * 64) <= w * h * 64 <==> n * vsf <= h
    ensures n * (w * vsf * 64) == w * h * 64 <==> n * vsf == h
  {
    assert n * (w * vsf * 64) == (n * vsf) * (w * 64);
    assert w * h * 64 == h * (w * 64);
    MulLeIff(n * vsf, h, w * 64);
    MulLeIff(h, n * vsf, w * 64);
  }

  /** A second `Start` on a slot whose non-empty plane was not taken out is
      refused, however many rows were appended in between; once `GetResult`
      has swapped in an empty vector, `Start` is accepted again. */
  lemma RestartNeedsGetResult(s: Slot, c: Component, t: QuantizationTable, rows: seq<seq<Coefficient>>,
                              idct: BlockTransform, c2: Component, t2: QuantizationTable)
    requires Begin(s, c, t).Ok? && PlaneLength(c) > 0
    requires AppendAll(Begin(s, c, t).value, rows, idct).Ok?
    ensures Begin(AppendAll(Begin(s, c, t).value, rows, idct).value, c2, t2) == Err(BufferNotEmpty)
    ensures Begin(Extract(AppendAll(Begin(s, c, t).value, rows, idct).value, []).0, c2, t2).Ok?
  {
    StartPlane(s, c, t);
    AppendAllKeepsLength(Begin(s, c, t).value, rows, idct);
  }

  /** `Start` twice on the same index without a `GetResult` in between: the
      second one panics and changes nothing. */
  lemma StartTwiceRejected(slots: seq<Slot>, data: RowData, data2: RowData, idct: BlockTransform)
    requires |slots| == MaxComponents
    requires Process(slots, Start(data), idct).outcome == Completed && PlaneLength(data.component) > 0
    requires data2.index == data.index
    ensures Process(Process(slots, Start(data), idct).slots, Start(data2), idct)
         == Step(Process(slots, Start(data), idct).slots, Panicked(BufferNotEmpty))
  {
    StartPlane(slots[data.index], data.component, data.quantizationTable);
  }

  /** `GetResult` is a swap: the caller receives the slot's plane and the slot
      keeps the caller's vector, with its offset, descriptor and table
      untouched; a second `GetResult` with an empty vector returns an empty
      plane. */
  lemma GetResultTwice(slots: seq<Slot>, index: nat, idct: BlockTransform)
    requires |slots| == MaxComponents && index < MaxComponents
    ensures Process(slots, GetResult(index, []), idct).outcome == Returned(slots[index].buffer)
    ensures Process(slots, GetResult(index, []), idct).slots[index] == slots[index].(buffer := [])
    ensures Process(Process(slots, GetResult(index, []), idct).slots, GetResult(index, []), idct).outcome
         == Returned([])
  {
  }

  /** The layout of one MCU row of a component two blocks wide with one block
      row per MCU row: block 0 fills columns 0 to 7 and block 1 columns 8 to 15
      of the first 8 lines. */
  lemma TwoBlockLayout(plane: seq<Byte>, row: seq<Coefficient>, table: QuantizationTable, idct: BlockTransform)
    requires |plane| == 128 && |row| == 128
    ensures |RowWritten(plane, 0, 2, 1, row, table, idct)| == 128
    ensures forall k :: 0 <= k < 8 ==> RowWritten(plane, 0, 2, 1, row, table, idct)[k] == idct(row[..64], table)[k]
    ensures forall k :: 8 <= k < 16 ==> RowWritten(plane, 0, 2, 1, row, table, idct)[k] == idct(row[64..], table)[k - 8]
    ensures forall k :: 16 <= k < 24 ==> RowWritten(plane, 0, 2, 1, row, table, idct)[k] == idct(row[..64], table)[k - 8]
  {
    var r := RowWritten(plane, 0, 2, 1, row, table, idct);
    assert row[0..64] == row[..64] && row[64..128] == row[64..];
    forall k | 0 <= k < 8 ensures r[k] == idct(row[..64], table)[k] {
      RowPlacesBlocks(plane, 0, 2, 1, row, table, idct, 0, k);
      FirstRowTargets(0, 2, 0, k);
    }
    forall k | 8 <= k < 16 ensures r[k] == idct(row[64..], table)[k - 8] {
      RowPlacesBlocks(plane, 0, 2, 1, row, table, idct, 1, k - 8);
      FirstRowTargets(0, 2, 1, k - 8);
    }
    forall k | 16 <= k < 24 ensures r[k] == idct(row[..64], table)[k - 8] {
      RowPlacesBlocks(plane, 0, 2, 1, row, table, idct, 0, k - 8);
      FirstRowTargets(0, 2, 0, k - 8);
    }
  }

  /** A plane two blocks wide and one block high, with one block row per MCU
      row: `Start` sizes it to 128 bytes, one `AppendRow` of 128 coefficients
      places block 0 at column 0 and block 1 at column 8 of a 16-byte line,
      the first `GetResult` hands out the 128-byte plane and a second one an
      empty vector. */
  method TwoBlockScenario(table: QuantizationTable, idct: BlockTransform, row: seq<Coefficient>)
    returns (first: seq<Byte>, second: seq<Byte>)
    requires |row| == 128
    ensures |first| == 128 && second == []
    ensures forall k :: 0 <= k < 8 ==> first[k] == idct(row[..64], table)[k]
    ensures forall k :: 8 <= k < 16 ==> first[k] == idct(row[64..], table)[k - 8]
    ensures forall k :: 16 <= k < 24 ==> first[k] == idct(row[..64], table)[k - 8]
  {
    var context := new WorkerContext();
    var c := Component(Dimensions(2, 1), 1);
    var o1 := context.ProcessMessage(Start(RowData(0, c, table)), idct);
    ghost var started := Slot(0, Resize([], 128, 0), Some(c), Some(table));
    assert o1 == Completed && context.Slots()[0] == started;
    var o2 := context.ProcessMessage(AppendRow(0, row), idct);
    ghost var plane := RowWritten(started.buffer, 0, 2, 1, row, table, idct);
    assert o2 == Completed && context.Slots()[0] == Slot(128, plane, Some(c), Some(table));
    var o3 := context.ProcessMessage(GetResult(0, []), idct);
    assert o3 == Returned(plane);
    var o4 := context.ProcessMessage(GetResult(0, []), idct);
    assert o4 == Returned([]);
    first := o3.destination;
    second := o4.destination;
    TwoBlockLayout(started.buffer, row, table, idct);
  }
}
