/** The bounded tail of raw output kept for wait diagnostics. */
module RawTail {
  import opened Sequences
  import opened Octets

  const RAW_TAIL_CAP: nat := 2048

  /** The last `n` elements, or all of them when there are fewer. */
  function Last<T>(s: seq<T>, n: nat): seq<T> {
    if |s| <= n then s else s[|s| - n..]
  }

  lemma LastOfAppend<T>(stream: seq<T>, bytes: seq<T>, n: nat)
    ensures Last(Last(stream, n) + bytes, n) == Last(stream + bytes, n)
  {}

  class Tail {
    var bytes: Bytes

    constructor ()
      ensures bytes == []
    {
      bytes := [];
    }

    /** Append a chunk, dropping the oldest bytes first. */
    method Push(chunk: Bytes)
      requires |bytes| <= RAW_TAIL_CAP
      modifies this
      ensures bytes == Last(old(bytes) + chunk, RAW_TAIL_CAP)
      ensures |bytes| <= RAW_TAIL_CAP
    {
      if |chunk| >= RAW_TAIL_CAP {
        bytes := chunk[|chunk| - RAW_TAIL_CAP..];
        return;
      }
      ghost var was := bytes;
      while |bytes| + |chunk| > RAW_TAIL_CAP
        invariant |bytes| <= |was| && bytes == was[|was| - |bytes|..]
        invariant |bytes| + |chunk| >= RAW_TAIL_CAP || bytes == was
        decreases |bytes|
      {
        bytes := bytes[1..];
      }
      bytes := bytes + chunk;
    }
  }

  /** The bytes pushed so far. */
  function Stream(chunks: seq<Bytes>): Bytes {
    if chunks == [] then [] else Stream(chunks[..|chunks| - 1]) + chunks[|chunks| - 1]
  }

  /** What the tail holds once the chunks have been pushed one after another. */
  function TailAfter(chunks: seq<Bytes>): Bytes {
    if chunks == [] then []
    else Last(TailAfter(chunks[..|chunks| - 1]) + chunks[|chunks| - 1], RAW_TAIL_CAP)
  }

  /** However the output is cut into chunks, the tail is the last 2048 bytes of
      the stream (all of it while it is shorter). */
  lemma {:induction false} TailIsEndOfStream(chunks: seq<Bytes>)
    ensures TailAfter(chunks) == Last(Stream(chunks), RAW_TAIL_CAP)
  {
    if chunks != [] {
      var init := chunks[..|chunks| - 1];
      TailIsEndOfStream(init);
      LastOfAppend(Stream(init), chunks[|chunks| - 1], RAW_TAIL_CAP);
    }
  }

  /** Feeding chunks one after another into an empty tail, as the feeder does. */
  method FeedAll(chunks: seq<Bytes>) returns (tail: Tail)
    ensures tail.bytes == TailAfter(chunks) == Last(Stream(chunks), RAW_TAIL_CAP)
  {
    tail := new Tail();
    for k := 0 to |chunks|
      invariant |tail.bytes| <= RAW_TAIL_CAP && tail.bytes == TailAfter(chunks[..k])
      invariant fresh(tail)
    {
      Grow(chunks, k);
      SnocLast(chunks[..k], chunks[k]);
      tail.Push(chunks[k]);
    }
    assert chunks[..|chunks|] == chunks;
    TailIsEndOfStream(chunks);
  }
}
