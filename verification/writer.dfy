/** Borsh serialization into an account's data, `value.serialize(&mut &mut
    data[..])`.  The encoding itself is not part of this model; what is
    modelled is how it reaches the buffer: Borsh hands it to the writer as a
    sequence of `write_all` chunks (a field may take several, as a `String`
    takes its length and then its bytes), and a `&mut [u8]` writer copies as
    many bytes as still fit, then reports `WriteZero` once it is full. */
module BorshWriter {
  import opened Solana

  function Min(a: nat, b: nat): nat {
    if a <= b then a else b
  }

  /** `buf` with `data` laid over it from position `pos`. */
  function Splice(buf: seq<byte>, pos: nat, data: seq<byte>): (r: seq<byte>)
    requires pos + |data| <= |buf|
    ensures |r| == |buf|
  {
    buf[..pos] + data + buf[pos + |data|..]
  }

  /** Laying nothing leaves the buffer as it was. */
  lemma SpliceEmpty(buf: seq<byte>, pos: nat)
    requires pos <= |buf|
    ensures Splice(buf, pos, []) == buf
  {
    assert buf[..pos] + [] + buf[pos..] == buf;
  }

  /** Laying `a` and then `b` right after it is laying `a + b`. */
  lemma SpliceTwice(buf: seq<byte>, pos: nat, a: seq<byte>, b: seq<byte>)
    requires pos + |a| + |b| <= |buf|
    ensures Splice(Splice(buf, pos, a), pos + |a|, b) == Splice(buf, pos, a + b)
  {
    var mid := Splice(buf, pos, a);
    assert mid[..pos + |a|] == buf[..pos] + a;
    assert mid[pos + |a| + |b|..] == buf[pos + |a| + |b|..];
  }

  /** A prefix of `a + b` that covers `a` is `a` followed by a prefix of `b`. */
  lemma PrefixOfConcat(a: seq<byte>, b: seq<byte>, m: nat)
    requires m <= |b|
    ensures a + b[..m] == (a + b)[..|a| + m]
  {
  }

  /** A `&mut [u8]` writer over `buf` that has advanced to `pos`; `ok` turns
      false once a write failed. */
  datatype Writer = Writer(buf: seq<byte>, pos: nat, ok: bool)

  /** How many bytes of `data` still fit behind the writer's cursor. */
  function Fit(w: Writer, data: seq<byte>): nat
    requires w.pos <= |w.buf|
  {
    Min(|data|, |w.buf| - w.pos)
  }

  /** `r` is the writer `w` after writing `data`: as much of `data` as fits
      has been laid over the buffer at the cursor, the cursor has advanced
      past it, and the write succeeded exactly when all of `data` fit. */
  predicate Wrote(w: Writer, data: seq<byte>, r: Writer)
    requires w.pos <= |w.buf|
  {
    && r.buf == Splice(w.buf, w.pos, data[..Fit(w, data)])
    && r.pos == w.pos + Fit(w, data)
    && (r.ok <==> |data| <= |w.buf| - w.pos)
  }

  /** Writing nothing changes nothing. */
  lemma WroteNothing(w: Writer)
    requires w.ok && w.pos <= |w.buf|
    ensures Wrote(w, [], w)
  {
    SpliceEmpty(w.buf, w.pos);
  }

  /** A write that fails at once leaves the buffer as it was. */
  lemma WroteZero(w: Writer, data: seq<byte>)
    requires w.pos == |w.buf| && data != []
    ensures Wrote(w, data, w.(ok := false))
  {
    SpliceEmpty(w.buf, w.pos);
  }

  /** Writing a part of the data that fits, then the rest, is writing it
      all. */
  lemma WroteInTwo(w: Writer, a: seq<byte>, b: seq<byte>, mid: Writer, r: Writer)
    requires w.pos + |a| <= |w.buf|
    requires mid == Writer(Splice(w.buf, w.pos, a), w.pos + |a|, true)
    requires Wrote(mid, b, r)
    ensures Wrote(w, a + b, r)
  {
    var m := Fit(mid, b);
    SpliceTwice(w.buf, w.pos, a, b[..m]);
    PrefixOfConcat(a, b, m);
  }

  /** A part that overflows the buffer leaves in it as much of the whole
      as fits, and fails. */
  lemma WroteOverflow(w: Writer, a: seq<byte>, b: seq<byte>, r: Writer)
    requires w.pos <= |w.buf| && |w.buf| - w.pos < |a|
    requires Wrote(w, a, r)
    ensures Wrote(w, a + b, r)
  {
    assert (a + b)[..|w.buf| - w.pos] == a[..|w.buf| - w.pos];
  }

  /** `write_all(data)` on a slice writer: as much of `data` as still fits
      is copied, and the call fails with `WriteZero` unless all of it fit.
      Written as the generic loop of `write`s, each copying what fits of the
      rest, where a `write` that copies nothing while data remains fails;
      on a slice the loop ends after at most two `write`s. */
  function WriteAll(w: Writer, data: seq<byte>): (r: Writer)
    requires w.ok && w.pos <= |w.buf|
    ensures |r.buf| == |w.buf|
    ensures Wrote(w, data, r)
    decreases |data|
  {
    if data == [] then
      WroteNothing(w);
      w
    else
      var n := Min(|data|, |w.buf| - w.pos);
      if n == 0 then
        WroteZero(w, data);
        w.(ok := false)
      else
        var next := Writer(Splice(w.buf, w.pos, data[..n]), w.pos + n, true);
        var r := WriteAll(next, data[n..]);
        WroteInTwo(w, data[..n], data[n..], next, r);
        assert data[..n] + data[n..] == data;
        r
  }

  /** The chunks one after another: the whole encoding. */
  function Flatten(chunks: seq<seq<byte>>): (r: seq<byte>)
    decreases |chunks|
  {
    if chunks == [] then [] else chunks[0] + Flatten(chunks[1..])
  }

  /** Borsh's derived `serialize`: each chunk of the encoding with
      `write_all`, in order, stopping at the first failure.  The buffer ends up holding
      as much of the whole encoding as fits, and the write succeeds exactly
      when all of it fits. */
  function WriteChunks(w: Writer, chunks: seq<seq<byte>>): (r: Writer)
    requires w.ok && w.pos <= |w.buf|
    ensures |r.buf| == |w.buf|
    ensures Wrote(w, Flatten(chunks), r)
    decreases |chunks|
  {
    if chunks == [] then
      WroteNothing(w);
      w
    else
      var first := WriteAll(w, chunks[0]);
      if !first.ok then
        WroteOverflow(w, chunks[0], Flatten(chunks[1..]), first);
        first
      else
        var r := WriteChunks(first, chunks[1..]);
        assert chunks[0][..|chunks[0]|] == chunks[0];
        WroteInTwo(w, chunks[0], Flatten(chunks[1..]), first, r);
        r
  }

  /** `serialize(&mut &mut data[..])` of a value whose encoding is written
      as `chunks`: the new contents of `data`, and `BorshIoError` when the
      encoding does not fit. */
  function Serialize(chunks: seq<seq<byte>>, data: seq<byte>): (r: (seq<byte>, Result<()>))
    ensures |r.0| == |data|
    ensures r.1.Ok? <==> |Flatten(chunks)| <= |data|
    ensures r.1.Err? ==> r.1.error == BorshIoError
    ensures r.1.Ok? ==> r.0 == Flatten(chunks) + data[|Flatten(chunks)|..]
    ensures r.1.Err? ==> r.0 == Flatten(chunks)[..|data|]
  {
    var encoded := Flatten(chunks);
    var w := WriteChunks(Writer(data, 0, true), chunks);
    var prefix := encoded[..Min(|encoded|, |data|)];
    assert w.buf == Splice(data, 0, prefix);
    assert data[..0] == [];
    assert w.buf == prefix + data[|prefix|..];
    assert w.ok ==> prefix == encoded;
    (w.buf, if w.ok then Ok(()) else Err(BorshIoError))
  }
}
