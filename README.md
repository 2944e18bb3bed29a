# XIM reader cursor

A Dafny model of the byte-decoding cursor `Reader` of the `xim` crate, the
decoder used to parse messages of the X Input Method wire protocol. A reader
is a view of the unread part of an immutable message buffer (`b`) plus the
number of bytes consumed since the last 4-byte alignment point (`len`). It
hands out byte runs (`consume`) and single bytes (`u8`), skips padding to the
next 4-byte boundary relative to the last alignment point (`pad`), resets that
point (`clear_len`), reports how many bytes remain (`bytes_len`) and builds the
two decode errors, end of stream and invalid data.

Files:

- `reader.dfy`, module `XimReader`: the byte type, `ReadError`, `Result`, the
  padding formula `PadLen`, the reader's state as a value (`Cursor`, whose
  member functions give the meaning of each operation) and the class
  `Reader`, updated in place as the Rust struct is. Each `Reader` method states
  its new fields in terms of the old ones and is tied to the matching `Cursor`
  function. A ghost field `origin` records the buffer the reader was made
  over; `Valid()` keeps `b` a suffix of it, and each method either keeps `b`
  or replaces it by `old(b)[k..]`, which is what makes the reader only shrink.
- `readable.dfy`, module `XimReadable`: the `Readable` decode capability. A
  decoder is represented by the sequence of primitive reads it issues in
  declared order, stopping at the first error as `?` does (`ReadAll`). Lemmas
  state when such a decoder succeeds, that it consumes exactly the prefix it
  returns, that failure is always end of stream, and how alignment behaves
  after it.
- `examples.dfy`, module `ReaderExamples`: client methods on concrete buffers
  that derive the results of short read sequences from the `Reader`
  contracts alone.

Two behaviours of the code the model keeps:

- `u8` adds one to `len` before it tests for an empty stream. A failed `u8`
  therefore still counts a byte, while a failed `consume` changes nothing.
  `U8VersusConsumeOne` states where the two agree and this difference.
- `pad` slices the remaining bytes without a bounds check, so it panics when
  fewer than the padding bytes remain. The model makes this a precondition
  of `Pad`, not an error result.

## Model

| member | source | states |
|---|---|---|
| XimReader.PadLen | xim/src/reader.rs:69 | the pad count is below 4 and brings `len` to a multiple of 4, so it is the least such count; it is 0 exactly when `len` is already aligned |
| XimReader.Cursor.Consume | xim/src/reader.rs:41-51 | succeeds iff `n` bytes remain; then it returns `n` bytes which, followed by the new remaining bytes, make up the old ones, and `len` grows by `n`; otherwise it returns end of stream and the state is unchanged |
| XimReader.Cursor.U8 | xim/src/reader.rs:53-62 | `len` grows by one in every case; succeeds iff a byte remains, and then the returned byte followed by the new remaining bytes make up the old ones; on an empty stream it returns end of stream and the bytes are unchanged |
| XimReader.Cursor.Pad | xim/src/reader.rs:68-72 | given enough bytes, it drops fewer than 4 bytes from the front, the old `len` plus the dropped count is a multiple of 4, and `len` becomes 0 |
| XimReader.Cursor.ClearLen | xim/src/reader.rs:33-35 | the remaining bytes stay the same and `len` becomes 0 |
| XimReader.PadIdempotent | xim/src/reader.rs:68-72 | a second `pad` straight after a first one skips nothing and changes nothing |
| XimReader.PadWhenAligned | xim/src/reader.rs:69-71 | when `len` is a multiple of 4, `pad` can always proceed and only resets `len`, like `clear_len` |
| XimReader.U8VersusConsumeOne | xim/src/reader.rs:41-62 | `u8` and `consume(1)` succeed on the same states, return the same byte and leave the same state; on an empty stream both fail with end of stream but `u8` leaves `len` one higher |
| XimReader.Reader.constructor | xim/src/reader.rs:21-23 | a new reader's remaining bytes are exactly the buffer and `len` is 0 |
| XimReader.Reader.Eos | xim/src/reader.rs:25-27 | the error built is end of stream |
| XimReader.Reader.InvalidData | xim/src/reader.rs:29-31 | the error built is invalid data carrying the given label and rendered value |
| XimReader.Reader.ClearLen | xim/src/reader.rs:33-35 | sets `len` to 0 and keeps the remaining bytes and the reader's validity |
| XimReader.Reader.BytesLen | xim/src/reader.rs:37-39 | returns the remaining length, which is exactly the set of counts `consume` accepts, and never exceeds the original buffer's length |
| XimReader.Reader.Consume | xim/src/reader.rs:41-51 | succeeds iff `n` bytes remain; on success returns the first `n` remaining bytes, drops them and adds `n` to `len`; on failure returns end of stream and changes nothing; the reader stays a suffix view of its buffer |
| XimReader.Reader.U8 | xim/src/reader.rs:53-62 | adds one to `len` in every case; on a non-empty stream returns the first byte and drops it; on an empty one returns end of stream with the bytes unchanged |
| XimReader.Reader.Pad | xim/src/reader.rs:68-72 | requires the padding bytes to be present; drops `PadLen(len)` bytes, the old `len` plus the skipped count is a multiple of 4, and `len` becomes 0 |
| XimReadable.ReadAll | xim/src/reader.rs:75-77 | runs the reads in order and stops at the first error, as a `?`-chained `Readable::read` does; on success it returns one run per read, any error is end of stream, and the `ReadAll` lemmas give the rest of its meaning |
| XimReadable.ReadOne | xim/src/reader.rs:41-62 | one primitive read succeeds iff its width fits, then returns its width of bytes from the front and counts them; on failure it is end of stream with the bytes unchanged, `len` unchanged for `consume` and one higher for `u8` |
| XimReadable.ReadAllSucceedsIff | xim/src/reader.rs:75-77 | a decoder made of primitive reads in order succeeds iff the remaining bytes cover the total it asks for |
| XimReadable.ReadAllConsumesPrefix | xim/src/reader.rs:75-77 | on success it returns one run per read, each of that read's width, whose concatenation followed by the remaining bytes is the original input, and `len` grows by the total |
| XimReadable.ReadAllFailure | xim/src/reader.rs:75-77 | on failure the error is end of stream, the remaining bytes are still a suffix of the input and `len` has not decreased |
| XimReadable.AlignedReadsNeedNoPad | xim/src/reader.rs:68-72 | reads starting on an alignment point and totalling a multiple of 4 succeed when the bytes are there and leave a position where `pad` skips nothing |
| XimReadable.RelativeAlignment | xim/src/reader.rs:33-35 | after `clear_len`, the padding that follows a run of reads depends only on the total those reads consume |
| ReaderExamples.ByteThenEndOfStream | xim/src/reader.rs:53-62 | over `[0x2A]` `u8` returns 42 and leaves nothing; a second `u8` fails with end of stream and `len` is 2 |
| ReaderExamples.OverlongConsume | xim/src/reader.rs:41-51 | after one byte of `[7, 8, 9]`, `consume(3)` fails with end of stream, leaving 2 bytes and `len` 1 |
| ReaderExamples.PadAfterThreeBytes | xim/src/reader.rs:68-72 | after consuming 3 bytes, `pad` skips exactly 1 byte and a second `pad` skips none |
| ReaderExamples.ClearLenStartsSubStructure | xim/src/reader.rs:33-35 | after a 1-byte tag and `clear_len`, a 2-byte body is padded by 2 bytes, counted from the `clear_len` and not from the buffer start |

## Left out

- `u16` (xim/src/reader.rs:64-66) delegates to a `Readable` implementation for `u16` that is not part of this model, so neither its byte order nor the value it returns is modelled.
- The concrete `Readable` implementations and message types are not part of this model. `Readable` itself is a trait with one method; it is represented only by fixed sequences of primitive reads (`ReadAll`), so decoders whose later reads depend on values already read (a length field followed by that many bytes), decoders that raise invalid data, and decoders that call `pad` or `clear_len` inside a structure (`Read` has only `consume` and `u8` steps; `pad` and `clear_len` are covered on their own and in `AlignedReadsNeedNoPad` and `RelativeAlignment`) are not covered.
- `thiserror` derivation and `Display` messages of `ReadError`: formatting has no bearing on decoding.
- `invalid_data` takes any `ToString` value; the model takes the already rendered string.
- Rust lifetimes and zero-copy borrowing: slices are sequences; the ghost `origin` field records that the remaining bytes always stay a suffix of the buffer the reader was made over.
- `impl Into<usize>` for the length given to `consume` is modelled as `nat`.
- Overflow of `usize` in `len += ...`: `len` is an unbounded `nat`.
