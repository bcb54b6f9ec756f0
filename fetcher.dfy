/**
 * The fetch stage (Downloader.downloadFromSource): open the video source link,
 * create the output file and copy the stream into it through a 1024-byte buffer.
 */
module Fetcher {
  import opened JavaIO

  /** The size of dataBuffer, and the most bytes one read asks for. */
  const BufferSize: nat := 1024

  /**
   * The read/write loop: `read(dataBuffer, 0, 1024)` until it returns -1, each
   * time writing the bytes read. Returns the bytes written to the file, the
   * successive writes, and whether the loop ended without an IOException.
   */
  method CopyStream(source: ByteStream) returns (contents: seq<byte>, writes: seq<seq<byte>>, ok: bool)
    ensures contents == Concat(source.batches)
    ensures Concat(writes) == contents
    ensures forall k :: 0 <= k < |writes| ==> |writes[k]| <= BufferSize
    ensures ok <==> source.end == EndOfStream
  {
    var dataBuffer := new byte[BufferSize];
    var pending := source.batches;
    contents, writes := [], [];
    while pending != []
      invariant CopyState(Concat(source.batches), contents, writes, pending)
      decreases |Concat(pending)|, |pending|
    {
      // read: take at most BufferSize bytes of the next batch into the buffer
      var batch := pending[0];
      var byteCount := if |batch| < BufferSize then |batch| else BufferSize;
      forall j | 0 <= j < byteCount {
        dataBuffer[j] := batch[j];
      }
      // write: append the buffer's first byteCount bytes to the file
      var chunk := dataBuffer[..byteCount];
      assert chunk == batch[..byteCount];
      CopyStep(Concat(source.batches), contents, writes, pending, byteCount);
      contents := contents + chunk;
      writes := writes + [chunk];
      pending := AfterRead(pending, byteCount);
    }
    ok := source.end == EndOfStream;
  }

  /**
   * The copy loop's invariant: the bytes written so far followed by the bytes
   * still pending are the whole payload, and no write exceeded the buffer.
   */
  predicate CopyState(total: seq<byte>, contents: seq<byte>, writes: seq<seq<byte>>, pending: seq<seq<byte>>)
  {
    contents + Concat(pending) == total &&
    Concat(writes) == contents &&
    forall k :: 0 <= k < |writes| ==> |writes[k]| <= BufferSize
  }

  /** One read/write round keeps the invariant and consumes pending bytes. */
  lemma CopyStep(total: seq<byte>, contents: seq<byte>, writes: seq<seq<byte>>, pending: seq<seq<byte>>, n: nat)
    requires CopyState(total, contents, writes, pending)
    requires pending != [] && n == (if |pending[0]| < BufferSize then |pending[0]| else BufferSize)
    ensures CopyState(total, contents + pending[0][..n], writes + [pending[0][..n]], AfterRead(pending, n))
    ensures |Concat(AfterRead(pending, n))| < |Concat(pending)| ||
      (|Concat(AfterRead(pending, n))| == |Concat(pending)| && |AfterRead(pending, n)| < |pending|)
  {
    ReadSplits(pending, n);
    ConcatAppend(writes, pending[0][..n]);
  }

  /** What opening the video source link does: a MalformedURLException, an IOException, or a stream. */
  datatype AssetSource =
    | AssetMalformed
    | AssetOpenFailure
    | AssetOpened(stream: ByteStream)

  /** The output file as left on disk: not created, or created with the bytes written to it. */
  datatype SavedFile = NoFile | File(path: string, contents: seq<byte>)

  /** `String.format("%s.%s", fileName, fileExtension)`. */
  function FilePath(fileName: string, fileExtension: string): string
  {
    fileName + "." + fileExtension
  }

  /**
   * The value downloadFromSource gives the success flag: the link parses (and
   * `new URL("")` always throws a MalformedURLException), the stream opens, the
   * file is created and the copy loop ends without an IOException.
   */
  function FetchSucceeds(videoSourceLink: string, asset: AssetSource, fileCreatable: bool): bool
  {
    videoSourceLink != "" && asset.AssetOpened? && fileCreatable && asset.stream.end == EndOfStream
  }

  /**
   * The file downloadFromSource leaves: none when it fails before the
   * FileOutputStream exists, otherwise every byte the loop copied, even when
   * the loop itself ended with an IOException.
   */
  function FetchedFile(videoSourceLink: string, path: string, asset: AssetSource, fileCreatable: bool): SavedFile
  {
    if videoSourceLink == "" || !asset.AssetOpened? || !fileCreatable then NoFile
    else File(path, Concat(asset.stream.batches))
  }

  /** A successful fetch leaves the file at `path` holding every byte the source served, and nothing else. */
  lemma FetchSuccessSavesPayload(videoSourceLink: string, path: string, asset: AssetSource, fileCreatable: bool)
    requires FetchSucceeds(videoSourceLink, asset, fileCreatable)
    ensures asset.AssetOpened? && asset.stream.end == EndOfStream
    ensures FetchedFile(videoSourceLink, path, asset, fileCreatable) == File(path, Concat(asset.stream.batches))
  {
  }

  /** An empty link never downloads and never creates a file. */
  lemma EmptyLinkFails(path: string, asset: AssetSource, fileCreatable: bool)
    ensures !FetchSucceeds("", asset, fileCreatable)
    ensures FetchedFile("", path, asset, fileCreatable) == NoFile
  {
  }

  /** A stream that ends at once without an error still counts as a success, and leaves an empty file. */
  lemma EmptyPayloadSucceeds(videoSourceLink: string, path: string)
    requires videoSourceLink != ""
    ensures FetchSucceeds(videoSourceLink, AssetOpened(ByteStream([], EndOfStream)), true)
    ensures FetchedFile(videoSourceLink, path, AssetOpened(ByteStream([], EndOfStream)), true) == File(path, [])
  {
  }

  /**
   * An IOException in the copy loop reports failure but leaves the partial file
   * on disk, holding the bytes copied before it.
   */
  lemma FailedCopyLeavesPartialFile(videoSourceLink: string, path: string, batches: seq<seq<byte>>)
    requires videoSourceLink != ""
    ensures !FetchSucceeds(videoSourceLink, AssetOpened(ByteStream(batches, IOFailure)), true)
    ensures FetchedFile(videoSourceLink, path, AssetOpened(ByteStream(batches, IOFailure)), true) ==
      File(path, Concat(batches))
  {
  }
}
