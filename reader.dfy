/** The byte-decoding cursor of the XIM wire protocol: a view of the still
    unread bytes of an immutable message buffer, together with the number of
    bytes consumed since the last 4-byte alignment point. */
module XimReader {

  /** One byte of the message buffer (Rust `u8`). */
  newtype byte = x: int | 0 <= x < 0x100

  /** The closed set of decode errors. `ty` is the static name of the field
      or type being decoded; `item` is the textual rendering of the offending
      value, already produced by the caller. */
  datatype ReadError = EndOfStream | InvalidData(ty: string, item: string)

  datatype Result<T> = Ok(value: T) | Err(error: ReadError)

  /** `rest` is what remains of `whole` once some prefix of it has been read. */
  predicate IsSuffix(rest: seq<byte>, whole: seq<byte>) {
    |rest| <= |whole| && whole[|whole| - |rest|..] == rest
  }

  /** The number of bytes that `pad` skips when `len` bytes have been consumed
      since the last alignment point: the least count, below 4, that brings
      `len` to a multiple of 4. */
  function PadLen(len: nat): (p: nat)
    ensures p < 4 && (len + p) % 4 == 0
    ensures p == 0 <==> len % 4 == 0
  {
    (4 - len % 4) % 4
  }

  /** The outcome of one read: what it returns and the cursor it leaves. */
  datatype Step<T> = Step(result: Result<T>, next: Cursor)

  /** The state of a reader as a value: `b` is the unread part of the buffer
      and `len` the number of bytes counted since the last alignment point. */
  datatype Cursor = Cursor(b: seq<byte>, len: nat) {

    /** Splits off the next `n` bytes, or fails with nothing changed. */
    function Consume(n: nat): (r: Step<seq<byte>>)
      ensures r.result.Ok? <==> n <= |b|
      ensures r.result.Ok? ==>
                |r.result.value| == n && r.result.value + r.next.b == b && r.next.len == len + n
      ensures r.result.Err? ==> r.result.error == EndOfStream && r.next == this
    {
      if |b| >= n then Step(Ok(b[..n]), Cursor(b[n..], len + n))
      else Step(Err(EndOfStream), this)
    }

    /** Reads one byte. The count is bumped before the emptiness test, so a
        failed read still adds one to `len`. */
    function U8(): (r: Step<byte>)
      ensures r.next.len == len + 1
      ensures r.result.Ok? <==> b != []
      ensures r.result.Ok? ==> [r.result.value] + r.next.b == b
      ensures r.result.Err? ==> r.result.error == EndOfStream && r.next.b == b
    {
      var counted := len + 1;
      if b != [] then Step(Ok(b[0]), Cursor(b[1..], counted))
      else Step(Err(EndOfStream), Cursor(b, counted))
    }

    /** Skips to the next 4-byte boundary relative to the last alignment
        point and makes the new position the alignment point. The Rust `pad`
        slices without a bounds check (a panic), hence the precondition. */
    function Pad(): (r: Cursor)
      requires PadLen(len) <= |b|
      ensures r.len == 0 && IsSuffix(r.b, b)
      ensures |b| - |r.b| < 4 && (len + (|b| - |r.b|)) % 4 == 0
    {
      Cursor(b[PadLen(len)..], 0)
    }

    /** Marks the current position as the alignment point. */
    function ClearLen(): (r: Cursor)
      ensures r.b == b && r.len == 0
    {
      Cursor(b, 0)
    }
  }

  /** A second `pad` with no read in between skips nothing. */
  lemma PadIdempotent(c: Cursor)
    requires PadLen(c.len) <= |c.b|
    ensures PadLen(c.Pad().len) == 0
    ensures c.Pad().Pad() == c.Pad()
  {
  }

  /** When the count is already a multiple of 4, `pad` only resets it. */
  lemma PadWhenAligned(c: Cursor)
    requires c.len % 4 == 0
    ensures PadLen(c.len) <= |c.b|
    ensures c.Pad() == c.ClearLen()
  {
  }

  /** A byte read behaves as `consume(1)` returning the byte, except that on
      an empty stream it still counts one byte where `consume` counts none. */
  lemma U8VersusConsumeOne(c: Cursor)
    ensures c.U8().result.Ok? <==> c.Consume(1).result.Ok?
    ensures c.U8().result.Ok? ==>
              c.Consume(1).result.value == [c.U8().result.value] && c.U8().next == c.Consume(1).next
    ensures c.U8().result.Err? ==>
              c.Consume(1).result == Err(EndOfStream) && c.U8().result == Err(EndOfStream)
              && c.U8().next.b == c.Consume(1).next.b && c.U8().next.len == c.Consume(1).next.len + 1
  {
  }

  /** The reader itself, updated in place as the Rust `Reader` of the xim
      crate is. `origin` is the buffer the reader was created over: `Valid()`
      keeps `b` a suffix of it, and every method either keeps `b` or replaces
      it by `old(b)[k..]`, so the reader is a shrinking view, never a copy. */
  class Reader {
    var b: seq<byte>
    var len: nat
    ghost var origin: seq<byte>

    ghost predicate Valid()
      reads this
    {
      IsSuffix(b, origin)
    }

    /** The reader's state as a value. */
    function State(): Cursor
      reads this
    {
      Cursor(b, len)
    }

    /** A reader over `buf`, with nothing consumed yet. */
    constructor (buf: seq<byte>)
      ensures Valid() && origin == buf
      ensures b == buf && len == 0
    {
      b, len := buf, 0;
      origin := buf;
    }

    /** The end-of-stream error. */
    function Eos(): (e: ReadError)
      ensures e.EndOfStream?
    {
      EndOfStream
    }

    /** An invalid-data error carrying the field label and the rendered value. */
    function InvalidData(ty: string, item: string): (e: ReadError)
      ensures e.InvalidData? && e.ty == ty && e.item == item
    {
      ReadError.InvalidData(ty, item)
    }

    /** Makes the current position the alignment point. */
    method ClearLen()
      requires Valid()
      modifies this
      ensures Valid() && origin == old(origin)
      ensures b == old(b) && len == 0
      ensures State() == old(State()).ClearLen()
    {
      len := 0;
    }

    /** The number of unread bytes: exactly the largest count `consume` accepts. */
    function BytesLen(): (r: nat)
      reads this
      ensures r == |b|
      ensures forall n: nat :: State().Consume(n).result.Ok? <==> n <= r
      ensures Valid() ==> r <= |origin|
    {
      |b|
    }

    /** Returns the next `n` bytes and advances past them; on failure nothing
        changes. */
    method Consume(n: nat) returns (r: Result<seq<byte>>)
      requires Valid()
      modifies this
      ensures Valid() && origin == old(origin)
      ensures r.Ok? <==> n <= |old(b)|
      ensures r.Ok? ==> r.value == old(b)[..n] && b == old(b)[n..] && len == old(len) + n
      ensures r.Err? ==> r.error == EndOfStream && b == old(b) && len == old(len)
      ensures Step(r, State()) == old(State()).Consume(n)
    {
      if |b| >= n {
        var out, rest := b[..n], b[n..];
        b := rest;
        len := len + n;
        r := Ok(out);
      } else {
        r := Err(Eos());
      }
    }

    /** Returns the next byte. `len` grows by one whether or not a byte was
        there. */
    method U8() returns (r: Result<byte>)
      requires Valid()
      modifies this
      ensures Valid() && origin == old(origin)
      ensures len == old(len) + 1
      ensures r.Ok? <==> old(b) != []
      ensures r.Ok? ==> r.value == old(b)[0] && b == old(b)[1..]
      ensures r.Err? ==> r.error == EndOfStream && b == old(b)
      ensures Step(r, State()) == old(State()).U8()
    {
      len := len + 1;
      if b != [] {
        var first := b[0];
        b := b[1..];
        r := Ok(first);
      } else {
        r := Err(Eos());
      }
    }

    /** Skips to the next 4-byte boundary relative to the last alignment point
        and resets the count. Fewer remaining bytes than the padding is a fault
        of the caller. */
    method Pad()
      requires Valid()
      requires PadLen(len) <= |b|
      modifies this
      ensures Valid() && origin == old(origin)
      ensures len == 0
      ensures b == old(b)[PadLen(old(len))..]
      ensures (old(len) + (|old(b)| - |b|)) % 4 == 0 && |old(b)| - |b| < 4
      ensures State() == old(State()).Pad()
    {
      var p := (4 - len % 4) % 4;
      len := 0;
      b := b[p..];
    }
  }
}
