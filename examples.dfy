/** Clients of the imperative reader: what a caller can conclude from the
    method contracts alone, for a few concrete buffers. */
module ReaderExamples {
  import opened XimReader

  /** Over `[0x2A]` one byte read returns 42 and empties the reader; the next
      read fails with end of stream, yet is still counted. */
  method ByteThenEndOfStream() returns (first: Result<byte>, left: nat, second: Result<byte>, counted: nat)
    ensures first == Ok(42) && left == 0
    ensures second == Err(EndOfStream) && counted == 2
  {
    var r := new Reader([0x2A]);
    first := r.U8();
    left := r.BytesLen();
    second := r.U8();
    counted := r.len;
  }

  /** A `consume` that asks for more than remains fails and leaves the reader
      where it was. */
  method OverlongConsume() returns (res: Result<seq<byte>>, left: nat, counted: nat)
    ensures res == Err(EndOfStream) && left == 2 && counted == 1
  {
    var r := new Reader([7, 8, 9]);
    var _ := r.U8();
    res := r.Consume(3);
    left := r.BytesLen();
    counted := r.len;
  }

  /** After three bytes, `pad` skips exactly one; straight after that a
      second `pad` skips nothing. */
  method PadAfterThreeBytes() returns (field: Result<seq<byte>>, afterPad: seq<byte>, afterSecondPad: seq<byte>)
    ensures field == Ok([1, 2, 3])
    ensures afterPad == [5, 6] && afterSecondPad == [5, 6]
  {
    var buf: seq<byte> := [1, 2, 3, 0, 5, 6];
    assert buf[..3] == [1, 2, 3] && buf[3..] == [0, 5, 6];
    var r := new Reader(buf);
    field := r.Consume(3);
    assert r.b == [0, 5, 6] && r.len == 3 && PadLen(3) == 1;
    r.Pad();
    assert r.b == [0, 5, 6][1..];
    afterPad := r.b;
    r.Pad();
    afterSecondPad := r.b;
  }

  /** `clear_len` makes a new alignment origin inside a message: the padding
      after a sub-structure counts only the bytes read since. */
  method ClearLenStartsSubStructure() returns (tag: Result<byte>, body: Result<seq<byte>>, rest: seq<byte>)
    ensures tag == Ok(9) && body == Ok([1, 2])
    ensures rest == [3]
  {
    var buf: seq<byte> := [9, 1, 2, 0, 0, 3];
    assert buf[0] == 9 && buf[1..] == [1, 2, 0, 0, 3];
    assert buf[1..][..2] == [1, 2] && buf[1..][2..] == [0, 0, 3];
    var r := new Reader(buf);
    tag := r.U8();
    r.ClearLen();
    body := r.Consume(2);
    assert r.b == [0, 0, 3] && r.len == 2 && PadLen(2) == 2;
    r.Pad();
    assert r.b == [0, 0, 3][2..];
    rest := r.b;
  }
}
