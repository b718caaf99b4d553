# Reconstruction worker of a JPEG decoder, in Dafny

This project models the single-threaded reconstruction worker of the
`jpeg-decoder` crate (`src/sync_worker.rs`). The worker turns the quantized DCT
coefficients of each component into that component's plane of 8-bit samples.

A `WorkerContext` keeps one slot per component index, up to `MAX_COMPONENTS`
(4). Each slot holds four things:

- a write offset;
- the plane being built (`Vec<u8>`);
- the component descriptor;
- the shared quantization table.

`process_message` handles three messages:

- `Start` checks that the slot's plane is empty. It then resets the offset,
  resizes the plane to `width * height * 64` zero bytes and stores the
  descriptor and the table.
- `AppendRow` takes one MCU row, which is `width * vertical_sampling_factor`
  blocks of 64 coefficients. It dequantizes and inverse-transforms block `i`
  into the 8x8 region at block row `i / width` and block column `i % width` of
  the stripe that starts at the offset. Each line of the plane is
  `width * 8` bytes. The offset then advances by the row's length.
- `GetResult` swaps the slot's plane with the caller's vector.

The model has five modules:

- `Arith`: helper facts about multiplication, division and remainder.
- `Idct`: the interface of the dequantize-and-IDCT primitive.
  - The primitive is a function parameter of type `BlockTransform`. It maps 64
    coefficients and a table to 64 samples.
  - `WriteBlock` is the primitive's effect on the plane: 8 lines of 8 bytes,
    one line stride apart.
- `BlockGeometry`: block addressing within a stripe. Its lemmas prove that the
  blocks of a row tile the row's stripe exactly.
  - Every sample of every block lands inside the stripe.
  - No two samples land on the same byte.
  - Every byte of the stripe receives a sample.
- `SyncWorker`: the slot state and the messages.
  - Pure specifications: `Begin`, `Append` and `Extract` for one slot, and
    `Process` for the whole context.
  - The class `WorkerContext` has the source's four fields as fixed-length
    arrays. Its methods are proved to change the state exactly as `Process`
    says.
  - The block loop of `AppendRow` is the method `ReconstructRow`. It is proved
    equal to `RowWritten`, a byte-by-byte description of the finished stripe.
- `WorkerProtocol`: properties of message sequences, and a concrete run with a
  plane two blocks wide.

Every `assert!`, `unwrap` and out-of-range index in the source aborts the
decoder. In the model each one is the outcome `Panicked(fault)`, and the state
is left unchanged. The slice `results[index][start..]` handed to the primitive
becomes the fault `StripeOutOfBounds`. It happens exactly when the row's stripe
does not fit in the plane (`StripeBoundIsExact`).

`GetResult` only swaps the plane. The offset, descriptor and table stay in the
slot. The slot is ready for a new `Start` only when the vector swapped in is
empty.

## Model

| member | source | states |
|---|---|---|
| `Idct.WriteBlock` | src/sync_worker.rs:60-63 | transforming one block writes its 64 samples at `start + (j / 8) * stride + j % 8`, keeps the plane's length and changes no byte outside the 8x8 strided region |
| `BlockGeometry.BlockTargetInStripe` | src/sync_worker.rs:52-63 | sample `j` of block `i < width * vsf`, written at `offset + y * line_stride + x` plus its line and column, lies in `[offset, offset + width * vsf * 64)` and maps back to block `i`, sample `j` |
| `BlockGeometry.StripePositionIsTarget` | src/sync_worker.rs:52-63 | every byte of the stripe is the target of a sample of a block `i < block_count` |
| `BlockGeometry.BlocksDisjoint` | src/sync_worker.rs:57-63 | two samples of a row that land on the same byte are the same sample of the same block |
| `BlockGeometry.BlockRegionInStripe` | src/sync_worker.rs:57-63 | the region written for block `i` is exactly the set of stripe bytes whose block is `i`, at the same sample index |
| `BlockGeometry.StripeBoundIsExact` | src/sync_worker.rs:63 | every write of every block stays below `n` iff `offset + width * vsf * 64 <= n` |
| `BlockGeometry.FirstRowTargets` | src/sync_worker.rs:58-59 | block `i` of the first block row starts `8 * i` bytes into the stripe, and its second line is one line stride further |
| `SyncWorker.Resize` | src/sync_worker.rs:43 | `Vec::resize` gives length `n`, keeps the first `min(len, n)` elements and fills the rest with `fill` |
| `SyncWorker.Process` | src/sync_worker.rs:36-72 | a message changes no slot other than the one it names; a panicking message changes nothing; an index of `MAX_COMPONENTS` or more panics |
| `SyncWorker.ReconstructRow` | src/sync_worker.rs:52-64 | the block loop yields exactly `RowWritten`: each stripe byte holds the sample of the block covering it, and every other byte is unchanged |
| `SyncWorker.WorkerContext.constructor` | src/sync_worker.rs:27-34 | `MAX_COMPONENTS` slots, each with offset 0, an empty plane and no descriptor or table |
| `SyncWorker.WorkerContext.Start` | src/sync_worker.rs:39-46 | the new slots are `StartStep` of the old ones: panic unless the plane is empty; otherwise set the offset to 0, resize the plane, store the descriptor and table |
| `SyncWorker.WorkerContext.AppendRow` | src/sync_worker.rs:47-67 | the new slots are `AppendStep` of the old ones: panic if not started, on a wrong row length or on an overrunning stripe; otherwise write the stripe and advance the offset by the row's length |
| `SyncWorker.WorkerContext.GetResult` | src/sync_worker.rs:68-70 | the new slots are `GetResultStep` of the old ones: the caller gets the slot's plane and the slot gets the caller's vector |
| `SyncWorker.WorkerContext.ProcessMessage` | src/sync_worker.rs:36-72 | the new slots and the outcome are `Process` of the old slots and the message |
| `WorkerProtocol.StartPlane` | src/sync_worker.rs:40-45 | `Start` is accepted iff the plane is empty; it then leaves offset 0 and a plane of `(width*8) * (height*8)` zero bytes, and stores the descriptor and table |
| `WorkerProtocol.AppendRowEffect` | src/sync_worker.rs:50-66 | `AppendRow` is accepted iff the slot was started, the row has `width * vsf * 64` coefficients and the stripe fits; it then adds the row's length to the offset, keeps the plane's length, descriptor and table, and changes no byte outside the stripe |
| `WorkerProtocol.RowPlacesBlocks` | src/sync_worker.rs:57-63 | after a row, the plane byte at block `i`'s start plus `j / 8` lines and `j % 8` columns holds sample `j` of block `i`'s transform |
| `WorkerProtocol.AppendAllKeepsLength` | src/sync_worker.rs:57-66 | no sequence of `AppendRow`s changes the plane's length |
| `WorkerProtocol.AppendRun` | src/sync_worker.rs:55-66 | rows of the right length are all accepted iff their stripes fit one after another; the offset then ends after the last stripe, and bytes before the first stripe and after the last are untouched |
| `WorkerProtocol.FillPlane` | src/sync_worker.rs:42-66 | after `Start`, `n` rows are accepted iff `n * vsf <= height`; the offset reaches the plane's end iff `n * vsf == height`; every byte past the offset is still 0 |
| `WorkerProtocol.RestartNeedsGetResult` | src/sync_worker.rs:39-69 | a second `Start` on a non-empty plane panics however many rows were appended in between; after `GetResult` swaps in an empty vector, `Start` is accepted |
| `WorkerProtocol.StartTwiceRejected` | src/sync_worker.rs:40 | on the whole context, a second `Start` at the same index panics with `BufferNotEmpty` and leaves every slot unchanged |
| `WorkerProtocol.GetResultTwice` | src/sync_worker.rs:68-70 | `GetResult` hands out the slot's plane and leaves offset, descriptor and table untouched; a second `GetResult` with an empty vector returns an empty plane |
| `WorkerProtocol.TwoBlockLayout` | src/sync_worker.rs:57-63 | for a component 2 blocks wide with 1 block row per MCU row, block 0 fills bytes 0-7 and 16-23, and block 1 fills bytes 8-15 |
| `WorkerProtocol.TwoBlockScenario` | src/sync_worker.rs:27-70 | a run of new, `Start`, one `AppendRow`, then two `GetResult`s returns a 128-byte plane laid out as above, then an empty vector |

## Left out

- The numerics of `dequantize_and_idct_block` (the `idct` module) are not part of this model. The transform is a parameter, and only where its 64 samples land is modelled. The model assumes the primitive writes all 64 samples; that assumption makes its out-of-range writes panic exactly when the stripe overruns the plane.
- The `Rc` sharing of quantization tables is left out: a table is an immutable 64-entry value.
- The lifetime of the caller's `&mut Vec<u8>` is left out. `GetResult` takes the caller's vector as a value and returns what the caller holds after the swap.
- Plane buffers are sequence values in the slots. The O(1) pointer swap of `mem::swap` and in-place writes through a slice are modelled by their effect on the contents.
- The parser's `Component` is reduced to `block_size` and `vertical_sampling_factor`. `MAX_COMPONENTS` (defined by the decoder module, which is not part of this model) is taken as 4.
- State after a panic is not modelled. The model leaves the context unchanged. The source aborts, and if a slice panic hits mid-row, the blocks before it have already been written.
- `usize` width is not modelled. Offsets and the products `width * height * 64` and `width * vsf * 64` are unbounded integers, so wrap-around or overflow panics of `+=` and `*` on a narrow `usize` are not captured.
- The threaded worker that sends the same messages over a channel is not part of this model.
