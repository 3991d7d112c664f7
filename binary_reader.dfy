/** The fixed-size record reader: `generic_read_binary`, `read_binary` and
    its `read_elt` body. The (already decompressed) input stream is a byte
    sequence; the external record type is a size `sz` and a decoder from one
    `sz`-byte chunk to a record. */
module BinaryReader {

  type Byte = bv8

  /** What one call of the body handed to `generic_read_binary` does with the
      bytes not yet consumed: it returns a truthy value after reading
      `consumed` bytes, returns a falsy value, or raises `struct.error`. */
  datatype Step<R> = Value(value: R, consumed: nat) | Falsy | StructError

  /** What the external record type makes of one full chunk: a record, a
      falsy record, or a `struct.error`. */
  datatype Decoded<R> = Record(record: R) | NoRecord | Malformed

  /** Every truthy value the body returns has consumed at least one byte
      and no more bytes than remained; a body without this property makes
      the source's `while True` loop run forever. */
  ghost predicate Advances<R>(body: seq<Byte> -> Step<R>)
  {
    forall s :: body(s).Value? ==> 0 < body(s).consumed <= |s|
  }

  /** The list `generic_read_binary` returns: the body's truthy values, in
      stream order, up to the first falsy value or `struct.error`. */
  function ReadAll<R>(stream: seq<Byte>, body: seq<Byte> -> Step<R>): seq<R>
    requires Advances(body)
    decreases |stream|
  {
    match body(stream)
    case Value(v, n) => [v] + ReadAll(stream[n..], body)
    case _ => []
  }

  /** Each value read consumes a byte at least, so there are never more
      values than bytes. */
  lemma {:induction false} ReadAllBound<R>(stream: seq<Byte>, body: seq<Byte> -> Step<R>)
    requires Advances(body)
    ensures |ReadAll(stream, body)| <= |stream|
    decreases |stream|
  {
    match body(stream)
    case Value(v, n) => ReadAllBound(stream[n..], body);
    case _ =>
  }

  /** `generic_read_binary`: call the body until it raises `struct.error`
      or returns a falsy value, appending every other result. */
  method GenericReadBinary<R>(stream: seq<Byte>, body: seq<Byte> -> Step<R>) returns (ret: seq<R>)
    requires Advances(body)
    ensures ret == ReadAll(stream, body)
  {
    ret := [];
    var pos := 0;
    while true
      invariant 0 <= pos <= |stream|
      invariant ret + ReadAll(stream[pos..], body) == ReadAll(stream, body)
      decreases |stream| - pos
    {
      var newData := body(stream[pos..]);
      match newData {
        case StructError =>
          break;
        case Falsy =>
          break;
        case Value(v, n) =>
          assert stream[pos..][n..] == stream[pos + n..];
          ret := ret + [v];
          pos := pos + n;
      }
    }
  }

  /** `read_elt`: read `sz` bytes into a fresh record. A short read, fewer
      than `sz` bytes or none at all, returns `None`; a full chunk yields
      whatever the record type makes of it. */
  function ReadElt<R>(sz: nat, decode: seq<Byte> -> Decoded<R>, rest: seq<Byte>): (r: Step<R>)
    requires sz > 0
    ensures |rest| < sz ==> r == Falsy
    ensures r.Value? ==> r.consumed == sz <= |rest|
  {
    if |rest| < sz then Falsy
    else
      match decode(rest[..sz])
      case Record(d) => Value(d, sz)
      case NoRecord => Falsy
      case Malformed => StructError
  }

  /** The body `read_binary` hands to `generic_read_binary`. */
  function ReadEltBody<R>(sz: nat, decode: seq<Byte> -> Decoded<R>): (body: seq<Byte> -> Step<R>)
    requires sz > 0
    ensures Advances(body)
  {
    s => ReadElt(sz, decode, s)
  }

  /** The consecutive `sz`-byte chunks of a stream; a shorter tail, empty
      or not, is not a chunk. */
  function Chunks(stream: seq<Byte>, sz: nat): seq<seq<Byte>>
    requires sz > 0
    decreases |stream|
  {
    if |stream| < sz then [] else [stream[..sz]] + Chunks(stream[sz..], sz)
  }

  /** The decoded records of the leading chunks, up to the first chunk the
      record type does not turn into a record. */
  function TakeRecords<R>(chunks: seq<seq<Byte>>, decode: seq<Byte> -> Decoded<R>): seq<R>
  {
    if chunks == [] then []
    else
      match decode(chunks[0])
      case Record(d) => [d] + TakeRecords(chunks[1..], decode)
      case _ => []
  }

  /** What `read_binary` returns, stated without the reading loop. */
  function ReadRecords<R>(stream: seq<Byte>, sz: nat, decode: seq<Byte> -> Decoded<R>): seq<R>
    requires sz > 0
  {
    TakeRecords(Chunks(stream, sz), decode)
  }

  /** `read_binary`: `generic_read_binary` with the `read_elt` body. */
  method ReadBinary<R>(stream: seq<Byte>, sz: nat, decode: seq<Byte> -> Decoded<R>) returns (ret: seq<R>)
    requires sz > 0
    ensures ret == ReadRecords(stream, sz, decode)
  {
    ret := GenericReadBinary(stream, ReadEltBody(sz, decode));
    ReadAllIsTakeRecords(stream, sz, decode);
  }

  /** Reading with the `read_elt` body decodes the stream chunk by chunk. */
  lemma {:induction false} ReadAllIsTakeRecords<R>(stream: seq<Byte>, sz: nat, decode: seq<Byte> -> Decoded<R>)
    requires sz > 0
    ensures ReadAll(stream, ReadEltBody(sz, decode)) == ReadRecords(stream, sz, decode)
    decreases |stream|
  {
    var body := ReadEltBody(sz, decode);
    if |stream| >= sz {
      assert body(stream) == ReadElt(sz, decode, stream);
      var cs := Chunks(stream, sz);
      assert cs[0] == stream[..sz] && cs[1..] == Chunks(stream[sz..], sz);
      ReadAllIsTakeRecords(stream[sz..], sz, decode);
    }
  }

  /** Prefix semantics: the records are those of the leading chunks, in
      order, and reading stops exactly at the first chunk that decodes to
      a falsy record or raises `struct.error`; that chunk and all later
      ones are dropped. */
  lemma {:induction false} TakeRecordsPrefix<R>(chunks: seq<seq<Byte>>, decode: seq<Byte> -> Decoded<R>)
    ensures |TakeRecords(chunks, decode)| <= |chunks|
    ensures forall i :: 0 <= i < |TakeRecords(chunks, decode)| ==>
              decode(chunks[i]) == Record(TakeRecords(chunks, decode)[i])
    ensures |TakeRecords(chunks, decode)| < |chunks| ==>
              !decode(chunks[|TakeRecords(chunks, decode)|]).Record?
  {
    if chunks != [] && decode(chunks[0]).Record? {
      TakeRecordsPrefix(chunks[1..], decode);
    }
  }

  /** The stream holds `|stream| / sz` whole chunks. */
  lemma {:induction false} ChunksCount(stream: seq<Byte>, sz: nat)
    requires sz > 0
    ensures |Chunks(stream, sz)| == |stream| / sz
    decreases |stream|
  {
    if |stream| < sz {
      DivIsZero(|stream|, sz);
    } else {
      ChunksCount(stream[sz..], sz);
      DivStep(|stream|, sz);
    }
  }

  /** Chunk `i` is the bytes `[i * sz, (i + 1) * sz)` of the stream. */
  lemma {:induction false} ChunkAt(stream: seq<Byte>, sz: nat, i: nat)
    requires sz > 0 && i < |Chunks(stream, sz)|
    ensures (i + 1) * sz <= |stream|
    ensures Chunks(stream, sz)[i] == stream[i * sz .. (i + 1) * sz]
    decreases i
  {
    if i > 0 {
      ChunkAt(stream[sz..], sz, i - 1);
      assert (i - 1) * sz + sz == i * sz;
      assert i * sz + sz == (i + 1) * sz;
      assert stream[sz..][(i - 1) * sz .. i * sz] == stream[i * sz .. (i + 1) * sz];
    }
  }

  /** Bytes after the last whole chunk are discarded. */
  lemma {:induction false} ChunksIgnoreTail(stream: seq<Byte>, tail: seq<Byte>, sz: nat)
    requires sz > 0 && |tail| < sz
    requires |stream| % sz == 0
    ensures Chunks(stream + tail, sz) == Chunks(stream, sz)
    decreases |stream|
  {
    if |stream| == 0 {
      assert stream + tail == tail;
    } else {
      ModStep(|stream|, sz);
      assert (stream + tail)[..sz] == stream[..sz];
      assert (stream + tail)[sz..] == stream[sz..] + tail;
      ChunksIgnoreTail(stream[sz..], tail, sz);
    }
  }

  /** Chunk count: with a record type that never fails, `read_binary`
      returns exactly `|stream| / sz` records, record `i` decoded from the
      bytes `[i * sz, (i + 1) * sz)`. */
  lemma ReadRecordsTotal<R>(stream: seq<Byte>, sz: nat, decode: seq<Byte> -> Decoded<R>)
    requires sz > 0
    requires forall c :: decode(c).Record?
    ensures |ReadRecords(stream, sz, decode)| == |stream| / sz
    ensures forall i :: 0 <= i < |stream| / sz ==>
              (i + 1) * sz <= |stream| &&
              ReadRecords(stream, sz, decode)[i] == decode(stream[i * sz .. (i + 1) * sz]).record
  {
    var cs := Chunks(stream, sz);
    TakeRecordsPrefix(cs, decode);
    ChunksCount(stream, sz);
    forall i | 0 <= i < |stream| / sz
      ensures (i + 1) * sz <= |stream|
      ensures ReadRecords(stream, sz, decode)[i] == decode(stream[i * sz .. (i + 1) * sz]).record
    {
      ChunkAt(stream, sz, i);
    }
  }

  // Facts about Euclidean division by a positive divisor.

  lemma MulAtLeast(k: int, b: int)
    requires k >= 1 && b > 0
    ensures k * b >= b
  {
    assert k * b == (k - 1) * b + b;
    if k > 1 {
      MulAtLeast(k - 1, b);
    }
  }

  /** Quotient and remainder are the only ones with `0 <= r < b`. */
  lemma DivUnique(a: int, b: int, q: int, r: int)
    requires b > 0 && 0 <= r < b && a == q * b + r
    ensures a / b == q && a % b == r
  {
    var q', r' := a / b, a % b;
    assert a == q' * b + r';
    assert (q' - q) * b == r - r';
    assert (q - q') * b == r' - r;
    if q' > q {
      MulAtLeast(q' - q, b);
      assert false;
    }
    if q' < q {
      MulAtLeast(q - q', b);
      assert false;
    }
  }

  lemma DivIsZero(a: nat, b: nat)
    requires 0 <= a < b
    ensures a / b == 0
  {
    DivUnique(a, b, 0, a);
  }

  lemma DivStep(a: nat, b: nat)
    requires 0 < b <= a
    ensures (a - b) / b + 1 == a / b
  {
    var q, r := (a - b) / b, (a - b) % b;
    assert a - b == q * b + r;
    assert a == (q + 1) * b + r;
    DivUnique(a, b, q + 1, r);
  }

  lemma ModStep(a: nat, b: nat)
    requires 0 < b && a % b == 0 && a > 0
    ensures b <= a && (a - b) % b == 0
  {
    var q := a / b;
    assert a == q * b;
    assert q <= 0 ==> q * b <= 0;
    MulAtLeast(q, b);
    assert a - b == (q - 1) * b + 0;
    DivUnique(a - b, b, q - 1, 0);
  }
}
