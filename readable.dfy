/** The decode capability: a type that can read itself from a reader does so
    by issuing primitive reads in declared order and giving up at the first
    error, as a Rust `Readable::read` built with `?` does. A decoder's
    shape is modelled here as the sequence of primitive reads it issues. */
module XimReadable {
  import opened XimReader

  /** A primitive read: `consume(n)` or `u8`. */
  datatype Read = Bytes(n: nat) | Byte

  function Width(r: Read): nat {
    match r
    case Bytes(n) => n
    case Byte => 1
  }

  /** The number of bytes a sequence of reads asks for. */
  function Total(rs: seq<Read>): nat {
    if rs == [] then 0 else Width(rs[0]) + Total(rs[1..])
  }

  function Concat(parts: seq<seq<byte>>): seq<byte> {
    if parts == [] then [] else parts[0] + Concat(parts[1..])
  }

  /** One primitive read on a cursor; a byte is returned as a one-byte run. */
  function ReadOne(c: Cursor, r: Read): (s: Step<seq<byte>>)
    ensures s.result.Ok? <==> Width(r) <= |c.b|
    ensures s.result.Ok? ==>
              |s.result.value| == Width(r) && s.result.value + s.next.b == c.b
              && s.next.len == c.len + Width(r)
    ensures s.result.Err? ==>
              s.result.error == EndOfStream && s.next.b == c.b
              && s.next.len == c.len + (if r.Byte? then 1 else 0)
  {
    match r
    case Bytes(n) => c.Consume(n)
    case Byte =>
      var s := c.U8();
      Step(if s.result.Ok? then Ok([s.result.value]) else Err(s.result.error), s.next)
  }

  /** Runs the reads in order, stopping at the first error; on success there
      is one run per read, and the only error is end of stream. The
      `ReadAll` lemmas below give the rest of its meaning. */
  function ReadAll(c: Cursor, rs: seq<Read>): (r: Step<seq<seq<byte>>>)
    ensures r.result.Ok? ==> |r.result.value| == |rs|
    ensures r.result.Err? ==> r.result.error == EndOfStream
    decreases |rs|
  {
    if rs == [] then Step(Ok([]), c)
    else
      var first := ReadOne(c, rs[0]);
      if first.result.Err? then Step(Err(first.result.error), first.next)
      else
        var rest := ReadAll(first.next, rs[1..]);
        if rest.result.Err? then rest
        else Step(Ok([first.result.value] + rest.result.value), rest.next)
  }

  /** Helper: a suffix of a suffix is a suffix. */
  lemma SuffixTransitive(a: seq<byte>, b: seq<byte>, c: seq<byte>)
    requires IsSuffix(a, b) && IsSuffix(b, c)
    ensures IsSuffix(a, c)
  {
    assert c[|c| - |a|..] == c[|c| - |b|..][|b| - |a|..];
  }

  /** A decoder made of primitive reads succeeds exactly when the buffer
      holds all the bytes it asks for. */
  lemma {:induction false} ReadAllSucceedsIff(c: Cursor, rs: seq<Read>)
    ensures ReadAll(c, rs).result.Ok? <==> Total(rs) <= |c.b|
    decreases |rs|
  {
    if rs != [] {
      var first := ReadOne(c, rs[0]);
      if first.result.Ok? {
        ReadAllSucceedsIff(first.next, rs[1..]);
      }
    }
  }

  /** One step of `ReadAll` when the first read and the rest both succeed. */
  lemma ReadAllUnfoldOk(c: Cursor, rs: seq<Read>)
    requires rs != [] && ReadOne(c, rs[0]).result.Ok?
    requires ReadAll(ReadOne(c, rs[0]).next, rs[1..]).result.Ok?
    ensures ReadAll(c, rs) ==
              Step(Ok([ReadOne(c, rs[0]).result.value] + ReadAll(ReadOne(c, rs[0]).next, rs[1..]).result.value),
                   ReadAll(ReadOne(c, rs[0]).next, rs[1..]).next)
  {
  }

  /** Helper: one run per read, of that read's width, and the count. */
  lemma {:induction false} ReadAllWidths(c: Cursor, rs: seq<Read>)
    requires ReadAll(c, rs).result.Ok?
    ensures |ReadAll(c, rs).result.value| == |rs|
    ensures forall i :: 0 <= i < |rs| ==> |ReadAll(c, rs).result.value[i]| == Width(rs[i])
    ensures ReadAll(c, rs).next.len == c.len + Total(rs)
    decreases |rs|
  {
    if rs != [] {
      var first := ReadOne(c, rs[0]);
      var rest := ReadAll(first.next, rs[1..]);
      ReadAllWidths(first.next, rs[1..]);
      ReadAllUnfoldOk(c, rs);
      var all := [first.result.value] + rest.result.value;
      forall i | 0 <= i < |rs| ensures |all[i]| == Width(rs[i]) {
        if i > 0 { assert all[i] == rest.result.value[i - 1] && rs[i] == rs[1..][i - 1]; }
      }
    }
  }

  /** Helper: the returned runs followed by what is left give the input. */
  lemma {:induction false} ReadAllConcat(c: Cursor, rs: seq<Read>)
    requires ReadAll(c, rs).result.Ok?
    ensures Concat(ReadAll(c, rs).result.value) + ReadAll(c, rs).next.b == c.b
    decreases |rs|
  {
    if rs != [] {
      var first := ReadOne(c, rs[0]);
      var v := first.result.value;
      var rest := ReadAll(first.next, rs[1..]);
      ReadAllConcat(first.next, rs[1..]);
      ReadAllUnfoldOk(c, rs);
      ConcatCons(v, rest.result.value, rest.next.b);
    }
  }

  /** Helper: `Concat` of a run prepended to others. */
  lemma ConcatCons(v: seq<byte>, vs: seq<seq<byte>>, tail: seq<byte>)
    ensures Concat([v] + vs) + tail == v + (Concat(vs) + tail)
  {
    assert ([v] + vs)[0] == v && ([v] + vs)[1..] == vs;
  }

  /** On success it returns each read's bytes in order, consuming exactly
      them and counting them all toward the alignment count. */
  lemma ReadAllConsumesPrefix(c: Cursor, rs: seq<Read>)
    requires ReadAll(c, rs).result.Ok?
    ensures var vs := ReadAll(c, rs).result.value;
            |vs| == |rs| && (forall i :: 0 <= i < |rs| ==> |vs[i]| == Width(rs[i]))
            && Concat(vs) + ReadAll(c, rs).next.b == c.b
    ensures ReadAll(c, rs).next.len == c.len + Total(rs)
  {
    ReadAllWidths(c, rs);
    ReadAllConcat(c, rs);
  }

  /** A failure is always end of stream and never moves the cursor backwards. */
  lemma {:induction false} ReadAllFailure(c: Cursor, rs: seq<Read>)
    requires ReadAll(c, rs).result.Err?
    ensures ReadAll(c, rs).result.error == EndOfStream
    ensures IsSuffix(ReadAll(c, rs).next.b, c.b) && c.len <= ReadAll(c, rs).next.len
    decreases |rs|
  {
    var first := ReadOne(c, rs[0]);
    if first.result.Ok? {
      var v := first.result.value;
      assert IsSuffix(first.next.b, c.b) by {
        assert c.b[|c.b| - |first.next.b|..] == (v + first.next.b)[|v|..];
      }
      ReadAllFailure(first.next, rs[1..]);
      SuffixTransitive(ReadAll(first.next, rs[1..]).next.b, first.next.b, c.b);
    } else {
      assert c.b[|c.b| - |c.b|..] == c.b;
    }
  }

  /** Reads that start on an alignment point and cover a multiple of 4 bytes
      end on one too: the `pad` that follows skips nothing. */
  lemma AlignedReadsNeedNoPad(c: Cursor, rs: seq<Read>)
    requires c.len % 4 == 0 && Total(rs) % 4 == 0 && Total(rs) <= |c.b|
    ensures ReadAll(c, rs).result.Ok?
    ensures PadLen(ReadAll(c, rs).next.len) == 0
    ensures ReadAll(c, rs).next.Pad().b == ReadAll(c, rs).next.b
  {
    ReadAllSucceedsIff(c, rs);
    ReadAllConsumesPrefix(c, rs);
  }

  /** Alignment is relative: after `clear_len` the padding that follows a run
      of reads depends only on those reads, not on anything read before. */
  lemma RelativeAlignment(c: Cursor, rs: seq<Read>)
    requires Total(rs) <= |c.b|
    ensures ReadAll(c.ClearLen(), rs).result.Ok?
    ensures PadLen(ReadAll(c.ClearLen(), rs).next.len) == PadLen(Total(rs))
  {
    ReadAllSucceedsIff(c.ClearLen(), rs);
    ReadAllConsumesPrefix(c.ClearLen(), rs);
  }
}
