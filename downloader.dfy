/**
 * The Downloader class: the success flag both stages write, and
 * formalDownload, which runs the resolve stage, draws a file name and runs the
 * fetch stage, in that order and unconditionally.
 */
module InstaDownloader {
  import opened JavaString
  import opened JavaIO
  import opened Occurrences
  import opened Resolver
  import opened Fetcher
  import opened FileNames

  /**
   * How formalDownload ends: it completes, having drawn a file name and left a
   * file (or none), or it is aborted by the StringIndexOutOfBoundsException
   * that getSourceURL lets escape.
   */
  datatype Pipeline = Completed(fileName: string, saved: SavedFile) | Aborted

  /** The success flag after formalDownload, given its value before it. */
  function FlagAfterDownload(source: PageSource, asset: AssetSource, fileCreatable: bool, previous: bool): bool
  {
    match SourceURL(source)
    case LinkOutOfBounds => previous
    case Resolved(link, _) => FetchSucceeds(link, asset, fileCreatable)
  }

  class Downloader {
    var downloadSuccess: bool

    /** A fresh downloader's flag has Java's default value, false. */
    constructor ()
      ensures !downloadSuccess
    {
      downloadSuccess := false;
    }

    /** getDownloadSuccess: the value the last stage to run gave the flag. */
    method GetDownloadSuccess() returns (success: bool)
      ensures success == downloadSuccess
    {
      success := downloadSuccess;
    }

    /** setDownloadSuccess. */
    method SetDownloadSuccess(downloadSuccess: bool)
      modifies this
      ensures this.downloadSuccess == downloadSuccess
    {
      this.downloadSuccess := downloadSuccess;
    }

    /**
     * getSourceURL: read the page line by line up to the first line carrying
     * the marker, cut the link out of it, and set the flag.
     */
    method GetSourceURL(source: PageSource) returns (r: Resolution)
      modifies this
      ensures r == SourceURL(source)
      ensures downloadSuccess == if r.Resolved? then r.success else old(downloadSuccess)
    {
      var linkInPageSource := "";
      if !source.Opened? {
        SetDownloadSuccess(false);
        return Resolved(linkInPageSource, false);
      }
      var page, closeFails := source.page, source.closeFails;
      var lines := page.lines;
      var n := 0;
      var found := false;
      while n < |lines|
        invariant 0 <= n <= |lines|
        invariant forall j :: 0 <= j < n ==> !Contains(lines[j], Marker)
      {
        var lineInPageSource := lines[n];
        if Contains(lineInPageSource, FullAttribute("meta property", "og:video")) {
          var videoIndexInit := GetSubstringIndex(3, Quote, lineInPageSource);
          videoIndexInit := videoIndexInit + 1;
          var videoIndexFinal := GetSubstringIndex(4, Quote, lineInPageSource);
          var link := Substring(lineInPageSource, videoIndexInit, videoIndexFinal);
          assert link == LinkBetween(lineInPageSource, videoIndexInit - 1, videoIndexFinal);
          assert link == ExtractLink(lineInPageSource);
          FindMarkerFirst(lines, n);
          if link.None? {
            MatchThrows(page, closeFails, n);
            return LinkOutOfBounds;
          }
          MatchResolves(page, closeFails, n);
          linkInPageSource := link.value;
          found := true;
          break;
        }
        n := n + 1;
      }
      if !found {
        FindMarkerFirst(lines, n);
        NoMatchResolves(page, closeFails);
      }
      if !found && page.end == IOFailure {
        SetDownloadSuccess(false);
        return Resolved(linkInPageSource, false);
      }
      if closeFails {
        SetDownloadSuccess(false);
      } else {
        SetDownloadSuccess(true);
      }
      r := Resolved(linkInPageSource, !closeFails);
    }

    /**
     * downloadFromSource: open the link, create `fileName.fileExtension`, copy
     * the stream into it, and set the flag.
     */
    method DownloadFromSource(videoSourceLink: string, fileName: string, fileExtension: string,
                              asset: AssetSource, fileCreatable: bool) returns (saved: SavedFile)
      modifies this
      ensures downloadSuccess == FetchSucceeds(videoSourceLink, asset, fileCreatable)
      ensures saved == FetchedFile(videoSourceLink, FilePath(fileName, fileExtension), asset, fileCreatable)
    {
      if videoSourceLink == "" || asset.AssetMalformed? || asset.AssetOpenFailure? || !fileCreatable {
        SetDownloadSuccess(false);
        return NoFile;
      }
      var contents, writes, ok := CopyStream(asset.stream);
      saved := File(FilePath(fileName, fileExtension), contents);
      if ok {
        SetDownloadSuccess(true);
      } else {
        SetDownloadSuccess(false);
      }
    }

    /**
     * formalDownload: resolve, draw a name, fetch. The fetch stage runs
     * whatever the resolve stage reported, so its flag is the one that stays.
     */
    method FormalDownload(source: PageSource, fileExtension: string, asset: AssetSource, fileCreatable: bool)
      returns (p: Pipeline)
      modifies this
      ensures downloadSuccess == FlagAfterDownload(source, asset, fileCreatable, old(downloadSuccess))
      ensures p.Aborted? <==> SourceURL(source).LinkOutOfBounds?
      ensures p.Completed? ==> IsGeneratedName(p.fileName)
      ensures p.Completed? ==>
        p.saved == FetchedFile(SourceURL(source).link, FilePath(p.fileName, fileExtension), asset, fileCreatable)
    {
      var sourceURL := GetSourceURL(source);
      if sourceURL.LinkOutOfBounds? {
        return Aborted;
      }
      var fileName := CreateFileName();
      var saved := DownloadFromSource(sourceURL.link, fileName, fileExtension, asset, fileCreatable);
      p := Completed(fileName, saved);
    }
  }

  /**
   * A download reported successful found the marker on an opened page and saved
   * every byte the video source served.
   */
  lemma SuccessMeansVideoSaved(source: PageSource, asset: AssetSource, fileCreatable: bool, previous: bool, path: string)
    requires !SourceURL(source).LinkOutOfBounds?
    requires FlagAfterDownload(source, asset, fileCreatable, previous)
    ensures source.Opened? && FindMarker(source.page.lines).Some?
    ensures asset.AssetOpened? && asset.stream.end == EndOfStream && fileCreatable
    ensures FetchedFile(SourceURL(source).link, path, asset, fileCreatable) == File(path, Concat(asset.stream.batches))
  {
    NonEmptyLinkFromMatch(source);
  }

  /**
   * With no matching line (or no page at all) the empty link flows into the
   * fetch stage, which fails on it: the flag ends false and no file is made.
   */
  lemma NoMarkerMeansFailure(source: PageSource, asset: AssetSource, fileCreatable: bool, previous: bool, path: string)
    requires !source.Opened? || FindMarker(source.page.lines).None?
    ensures !FlagAfterDownload(source, asset, fileCreatable, previous)
    ensures FetchedFile(SourceURL(source).link, path, asset, fileCreatable) == NoFile
  {
    NoMarkerGivesEmptyLink(source);
  }

  /** When getSourceURL throws, the flag keeps its previous value; that happens exactly on a three-quote match. */
  lemma AbortKeepsPreviousFlag(source: PageSource, asset: AssetSource, fileCreatable: bool, previous: bool)
    ensures SourceURL(source).LinkOutOfBounds? ==> FlagAfterDownload(source, asset, fileCreatable, previous) == previous
    ensures SourceURL(source).LinkOutOfBounds? <==>
      source.Opened? && FindMarker(source.page.lines).Some? &&
      Count(source.page.lines[FindMarker(source.page.lines).value], Quote) == 3
  {
    OutOfBoundsIffThreeQuotes(source);
  }

  /**
   * The resolve stage's failure is overwritten: when closing the page reader
   * throws after a link was found, getSourceURL reports failure, yet the fetch
   * stage still runs and the final flag is true.
   */
  lemma CloseFailureMasked(page: LineStream, i: nat, asset: AssetSource)
    requires FindMarker(page.lines) == Some(i) && Count(page.lines[i], Quote) >= 4
    requires Positions(page.lines[i], Quote)[2] + 1 < Positions(page.lines[i], Quote)[3]
    requires asset.AssetOpened? && asset.stream.end == EndOfStream
    ensures SourceURL(Opened(page, true)).Resolved? && !SourceURL(Opened(page, true)).success
    ensures FlagAfterDownload(Opened(page, true), asset, true, false)
  {
    MatchWithFourQuotes(page, true, i);
  }

  /**
   * End to end: a page whose first marker line is `...meta property="og:video"
   * content="URL"...`, with a video source that serves its bytes without error,
   * leaves the flag true and a file holding exactly those bytes.
   */
  lemma OgVideoPageDownloads(before: seq<string>, pre: string, url: string, post: string, after: seq<string>,
                             end: StreamEnd, closeFails: bool, asset: AssetSource, previous: bool, path: string)
    requires forall j :: 0 <= j < |before| ==> !Contains(before[j], Marker)
    requires Quote !in pre && Quote !in url && url != ""
    requires asset.AssetOpened? && asset.stream.end == EndOfStream
    ensures var source := Opened(LineStream(before + [OgVideoLine(pre, url, post)] + after, end), closeFails);
      SourceURL(source) == Resolved(url, !closeFails) &&
      FlagAfterDownload(source, asset, true, previous) &&
      FetchedFile(url, path, asset, true) == File(path, Concat(asset.stream.batches))
  {
    OgVideoPageResolves(before, pre, url, post, after, end, closeFails);
  }
}
