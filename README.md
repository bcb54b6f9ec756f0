# insta-vdl Downloader, modelled in Dafny

This project models the `Downloader` class of insta-vdl. The class turns a public Instagram video page
link into an `.mp4`-style file on disk, in two stages.

- **Resolve (`getSourceURL`).** Read the page line by line until the first line contains
  `meta property="og:video"`, the text `getFullAttribute` builds. Then cut the video source link out of
  that line, between the 3rd and 4th `"` characters. The character positions come from
  `getSubstringIndex`, which calls `indexOf` repeatedly.
- **Fetch (`downloadFromSource`).** Open the link and create `IVD_<12 random letters>.<extension>`
  (the name comes from `createFileName`). Copy the stream into the file through a 1024-byte buffer.

Both stages write a single `downloadSuccess` field, which `getDownloadSuccess` reads back.
`formalDownload` runs resolve, then name generation, then fetch.

Modules:

- `JavaString` models `indexOf`, `contains` and `substring`. The `None` result of `Substring` stands for
  the unchecked `StringIndexOutOfBoundsException`.
- `JavaIO` models the inputs as values. A line stream is its lines plus how the next `readLine` ends. A
  byte stream is the batches it makes available plus how the last read ends.
- `Occurrences` holds `getSubstringIndex`, as a loop method proved equal to the recursive function
  `SubstringIndex`. That function is then characterised against the list of positions of the character.
- `Resolver` holds the marker, the extraction and the model `SourceURL` of `getSourceURL`.
- `Fetcher` holds the buffered copy loop and the model of `downloadFromSource`.
- `FileNames` holds `createFileName`.
- `InstaDownloader` holds the `Downloader` class: the field, its accessor and mutator, and the three
  stage methods. Each method is proved against the functions above. The module ends with pipeline-level
  lemmas.

Behaviour of `Downloader.java` worth knowing, all proved here:

- **Repeated `indexOf` wraps around.** Let n be the number of quotes on a line. Round n+1 of
  `getSubstringIndex` returns -1 (line 215 searches past the last quote), round n+2 starts over at the
  first quote, and the rounds repeat with period n+1 (`SubstringIndexWraps`).
- **Four or more quotes.** Extraction takes the text strictly between the 3rd and 4th quote
  (`ExtractLinkCases`).
- **Exactly two quotes, the marker's own.** Round 3 is -1 and round 4 is the first quote. Extraction
  then succeeds and returns the text *before the first quote* (`ExtractWithTwoQuotes`).
- **Exactly three quotes.** Round 4 of `getSubstringIndex` is -1 (line 215), so the bounds at line 132
  are out of order. `substring` throws an exception that no `catch` handles, and `formalDownload` is
  cut short with the flag untouched (`OutOfBoundsIffThreeQuotes`, `AbortKeepsPreviousFlag`). The first
  quote comes back only at round n+2 = 5.
- **A matching line never has fewer than two quotes**, because the marker itself has two
  (`MatchedLineQuotes`).
- **The fetch stage runs even when the resolve stage failed** (line 34 passes whatever link
  `getSourceURL` returned). The flag after `formalDownload` is therefore the fetch stage's own. Resolve
  failures only show because they produce an empty link, and `new URL("")` always throws
  (`FlagAfterDownload`, `NoMarkerMeansFailure`).
- **A failed `close` can be masked.** A link can be found and then `bufferedReader.close()` (line 138)
  can throw. `getSourceURL` then reports failure but keeps the link, and the fetch can still succeed
  and set the flag to true (`CloseFailureMasked`).
- **No marker line.** The result is `("", true)` only when reading reaches the end of the stream
  without an `IOException` and `close` succeeds; otherwise it is `("", false)` (`ResolutionFlag`).
- **An empty payload.** A fetch whose stream ends at once without an error sets the flag to true and
  leaves an empty file (lines 80-89, `EmptyPayloadSucceeds`).

## Model

| member | source | states |
|---|---|---|
| JavaString.IndexOf | src/main/java/Downloader.java:215 | `indexOf(c, from)`: the first index at or after `from` holding `c`, with none in between, or -1 when no such index exists |
| JavaString.Contains | src/main/java/Downloader.java:126 | `s.contains(t)`: some index i with i + length(t) <= length(s) starts an occurrence of t |
| JavaString.Substring | src/main/java/Downloader.java:132 | `substring(b, e)` succeeds exactly when 0 <= b <= e <= length, and then returns the e - b characters from b; otherwise it throws (None) |
| Occurrences.PositionsFrom | src/main/java/Downloader.java:200-220 | the positions of `c` at or after `from`: each in range and holding `c`, each one larger than the one before |
| Occurrences.PositionsIncreasing | src/main/java/Downloader.java:200-220 | the list of positions is strictly increasing, for any two entries, not just neighbours |
| Occurrences.PositionsFromComplete | src/main/java/Downloader.java:215 | every index at or after `from` that holds `c` is in the list: no occurrence is skipped |
| Occurrences.IndexOfFirstPosition | src/main/java/Downloader.java:215 | one `indexOf` call returns the first remaining position, or -1 when none remains |
| Occurrences.PositionsAfterFirst | src/main/java/Downloader.java:215 | searching again one past the first position leaves exactly the remaining positions |
| Occurrences.SubstringIndex | src/main/java/Downloader.java:209-220 | the value after `occurrence` rounds is -1 or an index holding the character |
| Occurrences.RoundStep | src/main/java/Downloader.java:215 | while positions remain, one `indexOf` call returns the first of them, and the next search starts with exactly the rest |
| Occurrences.RemainingAfter | src/main/java/Downloader.java:213-216 | after k rounds, for k up to the count, the search from one past the current index finds exactly the occurrences after the k-th |
| Occurrences.SubstringIndexNth | src/main/java/Downloader.java:200-208 | for 1 <= k <= count, round k is the k-th occurrence, as documented, and leaves the occurrences after it still to be found |
| Occurrences.SubstringIndexPastLast | src/main/java/Downloader.java:213-216 | the round after the last occurrence returns -1 |
| Occurrences.SubstringIndexPeriodic | src/main/java/Downloader.java:213-216 | the rounds repeat with period count + 1: occurrence numbers past the count wrap around |
| Occurrences.SubstringIndexWraps | src/main/java/Downloader.java:209-220 | closed form for every occurrence number: -1 when k <= 0 or k is a multiple of count + 1, otherwise the (k mod (count + 1))-th occurrence |
| Occurrences.ThirdAndFourthRounds | src/main/java/Downloader.java:129-130 | rounds 3 and 4 by quote count: the 3rd and 4th occurrence (>= 4); the 3rd and -1 (3); -1 and the 1st (2); the 1st and -1 (1); -1 and -1 (0) |
| Occurrences.OccurrencesConsecutive | src/main/java/Downloader.java:215 | no occurrence of the character lies between two consecutive positions, or before the first |
| Occurrences.GetSubstringIndex | src/main/java/Downloader.java:209-220 | the loop returns `SubstringIndex(occurrence, c, s)`, which is -1 for occurrence <= 0 |
| Resolver.FullAttribute | src/main/java/Downloader.java:196-198 | `String.format("%s=\"%s\"", attribute, value)`: the attribute, `=`, then the value in double quotes |
| Resolver.MarkerLiteral | src/main/java/Downloader.java:196-198 | `getFullAttribute("meta property", "og:video")` is `meta property="og:video"`: 24 characters, with quotes at 14 and 23 |
| Resolver.MatchedLineQuotes | src/main/java/Downloader.java:126 | a line that contains the marker holds at least two quotes |
| Resolver.ExtractLink | src/main/java/Downloader.java:129-132 | the extraction from a matching line: `substring` from one past round 3 to round 4 of `getSubstringIndex` on quotes, or the exception it throws |
| Resolver.ExtractLinkCases | src/main/java/Downloader.java:128-132 | extraction by quote count: between the 3rd and 4th quote (>= 4); the text before the 1st quote (2); an exception (3, or <= 1) |
| Resolver.ExtractWithFourQuotes | src/main/java/Downloader.java:128-132 | on a line with at least four quotes, extraction returns the text strictly between the 3rd and 4th quote |
| Resolver.ExtractWithTwoQuotes | src/main/java/Downloader.java:128-132 | on a line with exactly two quotes, extraction returns the text before the 1st quote |
| Resolver.ExtractOutOfOrder | src/main/java/Downloader.java:128-132 | on a line with three quotes, or at most one, `substring` throws |
| Resolver.ExtractedLinkHasNoQuote | src/main/java/Downloader.java:128-132 | an extracted link never contains a quote |
| Resolver.MatchedLineThrowsIffThreeQuotes | src/main/java/Downloader.java:126-132 | on a line that contains the marker, `substring` throws if and only if the line has exactly three quotes |
| Resolver.OgVideoLineMatches | src/main/java/Downloader.java:126 | a line of the form `pre meta property="og:video" content="URL" post` contains the marker |
| Resolver.OgVideoLineExtracts | src/main/java/Downloader.java:128-132 | if `pre` and URL are free of quotes, extraction from such a line yields exactly URL |
| Resolver.QuoteLayout | src/main/java/Downloader.java:128 | in a line built as four quote-free pieces each followed by a quote, the first four quotes are the separators and the 4th piece lies between the 3rd and 4th |
| Resolver.SourceURL | src/main/java/Downloader.java:116-155 | the model of `getSourceURL`: "" with flag false when the URL is malformed or opening fails; the extraction from the first matching line with flag "close succeeded", or the escaping exception; with no match, "" with flag "no IOException while reading and close succeeded" |
| Resolver.OgVideoPageResolves | src/main/java/Downloader.java:125-139 | a page whose first marker line is `...og:video" content="URL"...` resolves to URL; the flag is true exactly when `close` succeeds |
| Resolver.FindMarker | src/main/java/Downloader.java:125-135 | finds the first line that contains the marker, with no earlier line containing it, or reports that no line does |
| Resolver.FindMarkerFirst | src/main/java/Downloader.java:125-135 | the first line that contains the marker is the one FindMarker returns; if there is none, it returns none |
| Resolver.ScanStopsAtFirstMatch | src/main/java/Downloader.java:133 | the lines after the first match, and how the stream ends, do not change the result |
| Resolver.ResolutionFlag | src/main/java/Downloader.java:137-152 | the resolve flag is true if and only if the page opened, `close` succeeded, and reading reached either a match or the end of the stream without an IOException |
| Resolver.NoMarkerGivesEmptyLink | src/main/java/Downloader.java:116-155 | with no matching line, or no page, the link is "" |
| Resolver.NonEmptyLinkFromMatch | src/main/java/Downloader.java:116-155 | a non-empty link comes only from a matching line of an opened page |
| Resolver.MatchResolves | src/main/java/Downloader.java:132-139 | a successful extraction from the first matching line is the returned link; the flag is true exactly when `close` succeeds |
| Resolver.MatchThrows | src/main/java/Downloader.java:126-133 | if `substring` throws on the first matching line, `getSourceURL` ends with the unchecked exception |
| Resolver.NoMatchResolves | src/main/java/Downloader.java:116-155 | with no matching line the link is "", and the flag is true exactly when reading ends without an IOException and `close` succeeds |
| Resolver.MatchWithFourQuotes | src/main/java/Downloader.java:128-139 | on a first matching line with at least four quotes, the returned link is the text between the 3rd and 4th quote; the flag is true exactly when `close` succeeds |
| Resolver.MatchedLinkHasNoQuote | src/main/java/Downloader.java:126-139 | a link taken from a matching line never contains a quote |
| Resolver.OutOfBoundsIffThreeQuotes | src/main/java/Downloader.java:125-135 | the unchecked exception escapes `getSourceURL` if and only if the first matching line of an opened page has exactly three quotes |
| JavaIO.ReadSplits | src/main/java/Downloader.java:84 | a read that takes n bytes of the next batch splits the remaining payload into those n bytes followed by what is left, which has fewer bytes, or as many bytes in fewer batches |
| Fetcher.FilePath | src/main/java/Downloader.java:80 | `String.format("%s.%s", fileName, fileExtension)`: the name, a dot, then the extension |
| Fetcher.CopyStream | src/main/java/Downloader.java:83-86 | the file receives every byte of the stream in order, in writes of at most 1024 bytes whose concatenation is the payload; the loop ends normally if and only if the stream ends without an IOException |
| Fetcher.CopyStep | src/main/java/Downloader.java:84-86 | one read of at most 1024 bytes and its write keep "written bytes followed by pending bytes is the payload" and "no write exceeds 1024 bytes", and consume input |
| Fetcher.FetchSucceeds | src/main/java/Downloader.java:78-96 | the flag `downloadFromSource` sets: true exactly when the link is non-empty, the stream opens, the file is created and the copy loop reaches the end of the stream |
| Fetcher.FetchedFile | src/main/java/Downloader.java:78-96 | the file `downloadFromSource` leaves: none when it fails before line 80 creates the file, otherwise every byte the loop copied, even when the loop ends with an IOException |
| Fetcher.FetchSuccessSavesPayload | src/main/java/Downloader.java:78-89 | a successful fetch opened the stream, read it to a normal end, and left the file holding exactly the served bytes |
| Fetcher.EmptyLinkFails | src/main/java/Downloader.java:78 | `new URL("")` fails: no success and no file |
| Fetcher.EmptyPayloadSucceeds | src/main/java/Downloader.java:80-89 | a stream that ends at once without an IOException sets the flag to true and leaves an empty file |
| Fetcher.FailedCopyLeavesPartialFile | src/main/java/Downloader.java:80-96 | an IOException during the copy reports failure but leaves the file with the bytes copied so far |
| FileNames.CharacterPoolLetters | src/main/java/Downloader.java:165 | the pool has 25 letters in alphabetical order: every lower-case letter except 'n' |
| FileNames.GeneratedNameShape | src/main/java/Downloader.java:164-186 | a generated name has 16 characters: "IVD_" followed by 12 lower-case letters other than 'n' |
| FileNames.CreateFileName | src/main/java/Downloader.java:164-186 | whatever index each random draw picks, the result is "IVD_" followed by 12 characters from the pool |
| InstaDownloader.FlagAfterDownload | src/main/java/Downloader.java:31-35 | the flag after `formalDownload`: unchanged when `getSourceURL` throws, otherwise the fetch stage's flag for the returned link |
| InstaDownloader.Downloader.constructor | src/main/java/Downloader.java:22 | a new downloader's flag is false |
| InstaDownloader.Downloader.GetDownloadSuccess | src/main/java/Downloader.java:42-46 | returns the flag |
| InstaDownloader.Downloader.SetDownloadSuccess | src/main/java/Downloader.java:53-57 | sets the flag to the given value |
| InstaDownloader.Downloader.GetSourceURL | src/main/java/Downloader.java:108-156 | the scan loop returns `SourceURL(source)`; it sets the flag to the resolution's success, or leaves it unchanged when `substring` throws |
| InstaDownloader.Downloader.DownloadFromSource | src/main/java/Downloader.java:67-97 | sets the flag to whether the fetch succeeds, and leaves at `fileName.fileExtension` the file `FetchedFile` describes |
| InstaDownloader.Downloader.FormalDownload | src/main/java/Downloader.java:31-35 | the final flag is the fetch stage's (or the previous value if aborted); it aborts if and only if resolution throws; otherwise the name is well formed and the file is the fetched one |
| InstaDownloader.SuccessMeansVideoSaved | src/main/java/Downloader.java:31-35 | a successful download found the marker, opened and fully read the video stream, and saved exactly its bytes |
| InstaDownloader.NoMarkerMeansFailure | src/main/java/Downloader.java:31-35 | with no page or no marker line, the empty link makes the fetch fail: the flag ends false and no file is created |
| InstaDownloader.AbortKeepsPreviousFlag | src/main/java/Downloader.java:31-35 | an aborted download keeps the previous flag; a download aborts if and only if the first matching line has exactly three quotes |
| InstaDownloader.CloseFailureMasked | src/main/java/Downloader.java:137-139 | a failed `close` after a found link makes resolution report failure, yet the fetch still runs and the final flag is true |
| InstaDownloader.OgVideoPageDownloads | src/main/java/Downloader.java:31-35 | end to end: an og:video page whose video source serves its bytes without error ends with the flag true and a file holding exactly those bytes |

## Left out

- Network and file I/O are inputs, not performed. `PageSource` says how opening the page link ends: a
  MalformedURLException, an IOException, or a line stream plus whether `close` throws. `AssetSource` and
  `fileCreatable` say how opening the video link and creating the file end. URL parsing is not
  modelled, except that the empty link always fails.
- Closing the input and output streams in `downloadFromSource` is not modelled. The source never closes
  them, so descriptors leak; the model has no descriptors.
- A write failure during the copy is folded into the stream's `IOFailure` ending. The model does not
  separate a failing write from a failing read, and it does not model a partially written last buffer.
- `System.err` logging is left out because it has no effect on results.
- `Random.nextFloat()` is not modelled numerically. Each draw is an arbitrary index in [0, 25), so
  `CreateFileName` is proved for every possible sequence of draws.
- How many bytes a real `BufferedInputStream.read` returns is left to the stream model: at most 1024
  per read, and whatever remains of a batch is left for the next read.
- A `ByteStream` may hold empty batches, and `CopyStream` then performs a 0-byte read and a 0-byte
  write. A real `read(dataBuffer, 0, 1024)` never returns 0: it blocks for at least one byte or
  returns -1. The bytes written and the flag are the same either way; only the list of writes can hold
  extra empty entries.
- Indices count Dafny characters, which are Unicode scalar values, while Java's `indexOf` counts
  UTF-16 code units. On a line with characters outside the Basic Multilingual Plane, `IndexOf`,
  `SubstringIndex` and `GetSubstringIndex` return an index smaller than Java's by the number of such
  characters before it: the same index when there are none, and -1 stays -1. The text `substring`
  cuts out at line 132 is the same, because every quote is one character in both encodings, so both
  bounds fall on the same character boundaries.
- Thread safety and the timing of blocking reads are not modelled. The source is single-threaded.
- The GUI window and the launcher classes are not part of this model.
