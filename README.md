# Suno FFI boundary — a Dafny model

This project models `suno_core/src/api.rs`, the C-callable boundary around Suno's speech-to-translation
pipeline. It has four entry points:

- `suno_init` builds a `TranslationPipeline` from two model paths and two language codes and installs it in
  the process-wide `PIPELINE` slot.
- `suno_process_audio` copies the caller's `FFIAudioChunk` into an owned `AudioChunk` and runs the installed
  pipeline on it. On success it hands two C strings and a confidence back through the caller's
  `FFITranslation` record.
- `suno_free_string` takes back a C string that was handed out.
- `suno_cleanup` empties the slot.

The pipeline is external. `TranslationPipeline::new` and `process_audio_sync` are function-valued parameters:
`Construct` and `Infer` in `ffi_types.dfy`. Each call can supply its own oracle, so a pipeline that answers
differently on different calls is covered.

Layout:

- `wrappers.dfy`: `Option` and `Result`.
- `ffi_types.dfy` (module `FfiTypes`): the C structs `FFIAudioChunk` and `FFITranslation`, the owned
  `AudioChunk` and `Translation`, the fixed-width integers, and the chunk copy `ToOwned`.
- `boundary_model.dfy` (module `BoundaryModel`): the boundary as a state machine over `State`, which holds the
  slot, the live C strings by address, and the allocator's next address. It has one step function per entry
  point. `Run` executes a sequence of calls, and the lemmas state what holds of any such sequence. `SlotAfter`
  is an independent definition of the slot, computed by reading the calls from the end ("last write wins").
- `api.dfy` (module `Api`): the class `Boundary`, with mutable fields for the slot and the string heap. Its
  methods `Init`, `Process`, `FreeString` and `Cleanup` write the state in place, and each is proved to
  produce exactly the state and status of its step function. `Process` also writes the caller's
  `FFITranslation` object and proves that it writes all three fields or none. `Session` is a client that
  runs init, process, both frees, cleanup and process again, using only the methods' contracts.

Outcomes are modelled as they are in the code:

- A call returns status `0` or `-1`, or it panics. A panic inside an `extern "C"` function aborts the
  process, and the model calls that outcome `Abort`.
- `suno_init` panics when an argument is not UTF-8, because it calls `to_str().unwrap()`.
- `suno_process_audio` panics when a result text contains a NUL, because it calls `CString::new(..).unwrap()`.
- These panics are not turned into `-1`; the model keeps them as `Abort`.
- The code passes the pipeline's confidence through unchanged, and so does the model: nothing bounds it.

Some inputs are undefined behaviour in Rust, and the model makes them preconditions:

- When the slot is ready, `audio_chunk` must be non-null and `length` must lie within the buffer.
- `result` must be non-null on the path that writes it.
- `suno_free_string` must get null or a string that is still live.

With an empty slot, `suno_process_audio` returns `-1` before it touches either pointer. So both pointers may
be null there, and `Session` uses this.

## Model

| member | source | states |
|---|---|---|
| `FfiTypes.ToOwned` | suno_core/src/api.rs:69-78 | the owned chunk has exactly `length` samples equal to the caller's in order, the caller's rate and channels, and timestamp zero |
| `BoundaryModel.InitStep` | suno_core/src/api.rs:36-53 | aborts iff some argument is not UTF-8; returns 0 iff construction succeeds, and then the slot holds the new pipeline and nothing else changes; returns -1 iff construction fails, and then the state, including any earlier pipeline, is unchanged |
| `BoundaryModel.ProcessStep` | suno_core/src/api.rs:58-96 | an empty slot gives -1, no write and no change; otherwise the current pipeline's answer on the copied chunk decides: failure gives -1 and no write; a NUL in either text gives an abort; success with NUL-free texts gives 0 (and only then) with two distinct, fresh, live handles holding the two texts and the confidence passed through; the slot is never changed |
| `BoundaryModel.FreeStep` | suno_core/src/api.rs:100-105 | null changes nothing; a live handle is removed, and every other string and the slot keep their values |
| `BoundaryModel.CleanupStep` | suno_core/src/api.rs:110-114 | the slot is empty afterwards, whatever it held; the strings are untouched |
| `BoundaryModel.RunSlot` | suno_core/src/api.rs:45-114 | after any sequence of calls, the slot is the one written last, by a succeeding init or by a cleanup, as `SlotAfter` defines it |
| `BoundaryModel.ProcessUsesLastInit` | suno_core/src/api.rs:45-82 | after a succeeding init followed by calls that do not write the slot, the slot holds that init's pipeline and a process call's status and outputs are that pipeline's answer on the copied chunk |
| `BoundaryModel.ProcessFailsAfterCleanup` | suno_core/src/api.rs:110-114 | after a cleanup and any calls without a succeeding init, the slot is empty and a process call returns -1, writes nothing and changes nothing |
| `BoundaryModel.CleanupsCollapse` | suno_core/src/api.rs:110-114 | any number of cleanups in a row is allowed and leaves the same state as one cleanup (idempotence) |
| `BoundaryModel.RunKeepsValid` | suno_core/src/api.rs:85-89 | across any run, every live string stays below the allocator's next address, so handles issued later are fresh |
| `BoundaryModel.LiveUntilFreed` | suno_core/src/api.rs:100-105 | a live string keeps its address and contents through any run that does not free that address |
| `BoundaryModel.DoubleFreeForbidden` | suno_core/src/api.rs:100-105 | freeing a live handle is allowed once; freeing it a second time breaks the caller contract |
| `Api.Boundary.constructor` | suno_core/src/api.rs:26 | the process starts with an empty slot and no strings handed out |
| `Api.Boundary.Init` | suno_core/src/api.rs:30-54 | status and new state are those of `InitStep`; the allocator invariant is kept |
| `Api.Boundary.IntoRaw` | suno_core/src/api.rs:88-89 | the string moves to a fresh address that was not live before; nothing else changes |
| `Api.Boundary.Process` | suno_core/src/api.rs:58-96 | status and new state are those of `ProcessStep`; on success all three fields of the caller's record are written with the handles and confidence, otherwise the record is untouched |
| `Api.Boundary.FreeString` | suno_core/src/api.rs:100-106 | the new state is that of `FreeStep` |
| `Api.Boundary.Cleanup` | suno_core/src/api.rs:110-114 | the new state is that of `CleanupStep` |
| `Api.Session` | suno_core/src/api.rs:45-114 | init with good arguments returns 0; the first process call returns -1 iff the pipeline fails on the copied chunk, and 0 iff it succeeds with NUL-free texts; after both frees and a cleanup, the next process call returns -1; an abort ends the session with no second call |

## Left out

- Pipeline internals: `TranslationPipeline::new` and `process_audio_sync` are in `crate::pipeline`, which is not
  part of this model. Both are oracle parameters, so no property depends on what they compute.
- Concurrency: `static mut PIPELINE` is read and written without synchronisation. The model treats calls as
  sequential. The `Arc` clone in `suno_process_audio` is a snapshot of the slot held for the duration of the
  call, and reference counts and the moment the old pipeline is dropped are not modelled.
- Raw pointers: `CStr::from_ptr` on a null argument and dangling or misaligned pointers are not represented.
  Init arguments and the chunk's `data` pointer are non-null by type. Chunk and result validity are preconditions, as described above.
- Byte encoding: a C string argument is either valid UTF-8 text or `NotUtf8`. No byte-level decoding is
  modelled.
- The allocator: `CString::into_raw` addresses come from a counter that the model exposes. A real allocator
  may reuse a freed address, and the model never does. The lemmas about runs rely only on a new address not
  being live.
- Floating point: samples and confidence are `f32` bit patterns (`bv32`), copied but never interpreted.
- Memory leaks: strings the caller never frees stay in the live map forever. The code has the same behaviour.
- The unused `tokio::sync::mpsc` import. `Duration` is modelled only as a seconds and nanoseconds pair, with
  `from_secs(0)` as `Duration(0, 0)`.
