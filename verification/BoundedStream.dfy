/** Draining a child's output stream without retaining more than a cap. */
module BoundedStream {

  type Byte = bv8
  type Bytes = seq<Byte>

  const READ_SIZE := 64 * 1024

  datatype Outcome = Whole(content: Bytes) | LimitExceeded(limit: nat, captured: Bytes)

  function Cap(limitBytes: int): nat { if limitBytes > 0 then limitBytes else 0 }

  function Join(chunks: seq<Bytes>): Bytes
    decreases |chunks|
  {
    if chunks == [] then [] else Join(chunks[..|chunks| - 1]) + chunks[|chunks| - 1]
  }

  lemma JoinSnoc(chunks: seq<Bytes>, chunk: Bytes)
    ensures Join(chunks + [chunk]) == Join(chunks) + chunk
  {
    assert (chunks + [chunk])[..|chunks|] == chunks;
  }

  /** The reader of a pipe. `arrivals` says how many bytes are there at each read; any values are possible. */
  class StreamReader {
    const data: Bytes
    const arrivals: nat -> nat
    var pos: nat
    var turn: nat

    ghost predicate Valid()
      reads this
    {
      pos <= |data|
    }

    constructor (data: Bytes, arrivals: nat -> nat)
      ensures Valid() && this.data == data && this.arrivals == arrivals && pos == 0
    {
      this.data, this.arrivals, pos, turn := data, arrivals, 0, 0;
    }

    /** `read(n)` for a positive `n`: some of the next bytes, none only at the end of the stream. */
    method Read(n: nat) returns (chunk: Bytes)
      requires Valid() && n >= 1
      modifies this
      ensures Valid() && pos == old(pos) + |chunk| && chunk == data[old(pos)..pos]
      ensures |chunk| <= n && (chunk == [] <==> old(pos) == |data|)
    {
      var there := if arrivals(turn) == 0 then 1 else arrivals(turn);
      var size := if there <= n then there else n;
      size := if size <= |data| - pos then size else |data| - pos;
      chunk := data[pos..pos + size];
      pos := pos + size;
      turn := turn + 1;
    }
  }

  /**
   * `_read_bounded_stream`: the whole stream exactly if it fits under the cap,
   * and otherwise a failure with the first `cap` bytes, for any arrivals.
   * `peak` is the largest number of bytes ever retained.
   */
  method ReadBounded(stream: StreamReader?, limitBytes: int) returns (r: Outcome, ghost peak: nat)
    requires stream != null ==> stream.Valid() && stream.pos == 0
    modifies stream
    ensures stream == null ==> r == Whole([])
    ensures stream != null ==> (r.Whole? <==> |stream.data| <= Cap(limitBytes))
    ensures stream != null && r.Whole? ==> r.content == stream.data
    ensures stream != null && r.LimitExceeded? ==> r.limit == Cap(limitBytes) && r.captured == stream.data[..Cap(limitBytes)]
    ensures stream != null ==> stream.pos == if |stream.data| <= Cap(limitBytes) then |stream.data| else Cap(limitBytes) + 1
    ensures peak <= Cap(limitBytes)
  {
    peak := 0;
    if stream == null {
      return Whole([]), peak;
    }
    var cap := Cap(limitBytes);
    var chunks: seq<Bytes> := [];
    var retained := 0;
    while true
      invariant stream.Valid()
      invariant Join(chunks) == stream.data[..stream.pos] && retained == stream.pos
      invariant peak == retained <= cap
      decreases |stream.data| - stream.pos
    {
      var remaining := cap - retained;
      ghost var before := stream.pos;
      var chunk := stream.Read(if READ_SIZE <= remaining + 1 then READ_SIZE else remaining + 1);
      assert stream.data[..stream.pos] == stream.data[..before] + chunk;
      if chunk == [] {
        return Whole(Join(chunks)), peak;
      }
      if |chunk| > remaining {
        if remaining > 0 {
          JoinSnoc(chunks, chunk[..remaining]);
          chunks := chunks + [chunk[..remaining]];
        }
        peak := |Join(chunks)|;
        return LimitExceeded(cap, Join(chunks)), peak;
      }
      JoinSnoc(chunks, chunk);
      chunks := chunks + [chunk];
      retained := retained + |chunk|;
      peak := retained;
    }
  }
}
