/**
 * Abstract stand-ins for the java.io / java.net inputs of the downloader:
 * what a stream yields and how it ends. Nothing here performs I/O.
 */
module JavaIO {

  newtype byte = x: int | 0 <= x < 256

  /** How a stream ends once its data is exhausted: normally, or with an IOException. */
  datatype StreamEnd = EndOfStream | IOFailure

  /**
   * A text stream read with BufferedReader.readLine: the lines it returns, in
   * order, and what the next readLine does after them (return null, or throw).
   */
  datatype LineStream = LineStream(lines: seq<string>, end: StreamEnd)

  /**
   * A byte stream: the successive batches of bytes the source makes available,
   * and what happens once they are used up. A read takes at most as many bytes
   * as the caller's buffer holds; the rest of a batch stays for the next read.
   */
  datatype ByteStream = ByteStream(batches: seq<seq<byte>>, end: StreamEnd)

  /** The bytes of all chunks, in order. */
  function Concat(chunks: seq<seq<byte>>): seq<byte>
  {
    if chunks == [] then [] else chunks[0] + Concat(chunks[1..])
  }

  lemma {:induction false} ConcatAppend(chunks: seq<seq<byte>>, last: seq<byte>)
    ensures Concat(chunks + [last]) == Concat(chunks) + last
    decreases |chunks|
  {
    if chunks == [] {
      assert [] + [last] == [last];
    } else {
      assert (chunks + [last])[1..] == chunks[1..] + [last];
      ConcatAppend(chunks[1..], last);
    }
  }

  /** The batches left after a read took the first `n` bytes of the first batch. */
  function AfterRead(batches: seq<seq<byte>>, n: nat): seq<seq<byte>>
    requires batches != [] && n <= |batches[0]|
  {
    if n < |batches[0]| then [batches[0][n..]] + batches[1..] else batches[1..]
  }

  /** A read splits the stream's bytes into what it took and what is left, and the stream shrinks. */
  lemma ReadSplits(batches: seq<seq<byte>>, n: nat)
    requires batches != [] && n <= |batches[0]|
    requires n == 0 ==> batches[0] == []
    ensures Concat(batches) == batches[0][..n] + Concat(AfterRead(batches, n))
    ensures |Concat(AfterRead(batches, n))| < |Concat(batches)| ||
      (|Concat(AfterRead(batches, n))| == |Concat(batches)| && |AfterRead(batches, n)| < |batches|)
  {
    var batch, others := batches[0], batches[1..];
    assert Concat(batches) == batch + Concat(others);
    if n < |batch| {
      var rest := [batch[n..]] + others;
      assert rest[0] == batch[n..] && rest[1..] == others;
      assert Concat(rest) == batch[n..] + Concat(others);
      calc {
        Concat(batches);
        batch + Concat(others);
        { assert batch == batch[..n] + batch[n..]; }
        (batch[..n] + batch[n..]) + Concat(others);
        batch[..n] + (batch[n..] + Concat(others));
      }
    } else {
      assert batch[..n] == batch;
    }
  }
}
