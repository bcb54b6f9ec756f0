/**
 * The resolve stage (Downloader.getSourceURL with getFullAttribute): find the
 * first page line carrying the og:video meta marker and cut the video source
 * link out of it between its 3rd and 4th quote characters.
 */
module Resolver {
  import opened JavaString
  import opened JavaIO
  import opened Occurrences

  const Quote: char := '"'

  /** getFullAttribute: an HTML attribute written out as `attribute="value"`. */
  function FullAttribute(attribute: string, value: string): string
  {
    attribute + "=\"" + value + "\""
  }

  /** The text every page line is searched for. */
  const Marker: string := FullAttribute("meta property", "og:video")

  /** The marker is the literal `meta property="og:video"`, whose quotes sit at 14 and 23. */
  lemma MarkerLiteral()
    ensures Marker == "meta property=\"og:video\""
    ensures |Marker| == 24 && Marker[14] == Quote && Marker[23] == Quote
  {
  }

  /** A line carrying the marker holds at least the marker's two quotes. */
  lemma MatchedLineQuotes(line: string)
    requires Contains(line, Marker)
    ensures Count(line, Quote) >= 2
  {
    MarkerLiteral();
    var i :| 0 <= i <= |line| - |Marker| && OccursAt(line, Marker, i);
    assert line[i + 14] == Marker[14] && line[i + 23] == Marker[23];
    var ps := Positions(line, Quote);
    PositionsFromComplete(line, Quote, 0, i + 14);
    PositionsFromComplete(line, Quote, 0, i + 23);
  }

  /**
   * The extraction on a matching line: `substring(q3 + 1, q4)` where q3 and q4
   * are the 3rd and 4th rounds of getSubstringIndex. None is the
   * StringIndexOutOfBoundsException that substring throws on bad bounds.
   */
  function ExtractLink(line: string): Option<string>
  {
    LinkBetween(line, SubstringIndex(3, Quote, line), SubstringIndex(4, Quote, line))
  }

  /** `line.substring(opening + 1, closing)`: the text after index `opening` and before index `closing`. */
  function LinkBetween(line: string, opening: int, closing: int): Option<string>
  {
    Substring(line, opening + 1, closing)
  }

  /**
   * What extraction yields, by the number n of quotes on the line: with n >= 4
   * the text strictly between the 3rd and 4th quote; with n == 2 the wrap-around
   * makes it the text before the first quote; with n == 3 (and n <= 1) the bounds
   * are out of order and substring throws.
   */
  lemma ExtractLinkCases(line: string)
    ensures Count(line, Quote) >= 4 ==>
      ExtractLink(line) == Some(line[Positions(line, Quote)[2] + 1..Positions(line, Quote)[3]])
    ensures Count(line, Quote) == 2 ==>
      ExtractLink(line) == Some(line[..Positions(line, Quote)[0]])
    ensures Count(line, Quote) == 3 || Count(line, Quote) <= 1 ==> ExtractLink(line).None?
  {
    var n := Count(line, Quote);
    if n >= 4 {
      ExtractWithFourQuotes(line);
    } else if n == 2 {
      ExtractWithTwoQuotes(line);
    } else {
      ExtractOutOfOrder(line);
    }
  }

  lemma ExtractWithFourQuotes(line: string)
    requires Count(line, Quote) >= 4
    ensures ExtractLink(line) == Some(line[Positions(line, Quote)[2] + 1..Positions(line, Quote)[3]])
  {
    var ps := Positions(line, Quote);
    assert SubstringIndex(3, Quote, line) == ps[2] && SubstringIndex(4, Quote, line) == ps[3] by {
      ThirdAndFourthRounds(line, Quote);
    }
    assert ExtractLink(line) == LinkBetween(line, ps[2], ps[3]);
  }

  lemma ExtractWithTwoQuotes(line: string)
    requires Count(line, Quote) == 2
    ensures ExtractLink(line) == Some(line[..Positions(line, Quote)[0]])
  {
    var ps := Positions(line, Quote);
    assert SubstringIndex(3, Quote, line) == -1 && SubstringIndex(4, Quote, line) == ps[0] by {
      ThirdAndFourthRounds(line, Quote);
    }
    assert ExtractLink(line) == LinkBetween(line, -1, ps[0]);
  }

  lemma ExtractOutOfOrder(line: string)
    requires Count(line, Quote) == 3 || Count(line, Quote) <= 1
    ensures ExtractLink(line).None?
  {
    var q3, q4 := SubstringIndex(3, Quote, line), SubstringIndex(4, Quote, line);
    assert q4 == -1 by {
      ThirdAndFourthRounds(line, Quote);
    }
    assert ExtractLink(line) == LinkBetween(line, q3, q4);
  }

  /** Whatever extraction returns contains no quote character. */
  lemma ExtractedLinkHasNoQuote(line: string)
    requires ExtractLink(line).Some?
    ensures Quote !in ExtractLink(line).value
  {
    ExtractLinkCases(line);
    var ps := Positions(line, Quote);
    if Count(line, Quote) >= 4 {
      assert Quote !in line[ps[2] + 1..ps[3]] by {
        OccurrencesConsecutive(line, Quote, 3);
        NoOccurrenceInSlice(line, Quote, ps[2] + 1, ps[3]);
      }
    } else if Count(line, Quote) == 2 {
      assert Quote !in line[..ps[0]] by {
        OccurrencesConsecutive(line, Quote, 0);
        NoOccurrenceInSlice(line, Quote, 0, ps[0]);
        assert line[..ps[0]] == line[0..ps[0]];
      }
    }
  }

  /** On a line carrying the marker, extraction throws exactly when the line has three quotes. */
  lemma MatchedLineThrowsIffThreeQuotes(line: string)
    requires Contains(line, Marker)
    ensures ExtractLink(line).None? <==> Count(line, Quote) == 3
  {
    MatchedLineQuotes(line);
    ExtractLinkCases(line);
  }

  /** A page line of the shape the extraction is written for: `...meta property="og:video" content="URL"...`. */
  function OgVideoLine(pre: string, url: string, post: string): string
  {
    pre + "meta property=\"og:video\" content=\"" + url + "\"" + post
  }

  /** Such a line carries the marker. */
  lemma OgVideoLineMatches(pre: string, url: string, post: string)
    ensures Contains(OgVideoLine(pre, url, post), Marker)
  {
    var line := OgVideoLine(pre, url, post);
    MarkerLiteral();
    assert line == pre + Marker + (" content=\"" + url + "\"" + post);
    assert line[|pre|..|pre| + |Marker|] == Marker;
    assert OccursAt(line, Marker, |pre|);
  }

  /** With no quote before the marker and none inside URL, extraction yields exactly URL. */
  lemma OgVideoLineExtracts(pre: string, url: string, post: string)
    requires Quote !in pre && Quote !in url
    ensures ExtractLink(OgVideoLine(pre, url, post)) == Some(url)
  {
    var line := OgVideoLine(pre, url, post);
    var p0, p1, p2 := pre + "meta property=", "og:video", " content=";
    var q1 := |p0|;
    var q2 := q1 + 1 + |p1|;
    var q3 := q2 + 1 + |p2|;
    var q4 := q3 + 1 + |url|;
    assert FirstFourQuotes(line, q1, q2, q3, q4) && line[q3 + 1..q4] == url by {
      assert Quote !in p0 by {
        assert Quote !in "meta property=";
        forall i | 0 <= i < |p0| ensures p0[i] != Quote {
          if i >= |pre| { assert p0[i] == "meta property="[i - |pre|]; }
        }
      }
      assert line == p0 + [Quote] + p1 + [Quote] + p2 + [Quote] + url + [Quote] + post;
      QuoteLayout(line, p0, p1, p2, url, post);
    }
    FourQuoteRounds(line, q1, q2, q3, q4);
    ExtractLinkBetween(line, q3, q4);
  }

  /** The first four quotes of `line` sit at q1 < q2 < q3 < q4. */
  predicate FirstFourQuotes(line: string, q1: int, q2: int, q3: int, q4: int)
  {
    0 <= q1 < q2 < q3 < q4 < |line| &&
    line[q1] == Quote && line[q2] == Quote && line[q3] == Quote && line[q4] == Quote &&
    (forall i :: 0 <= i < q1 ==> line[i] != Quote) &&
    (forall i :: q1 < i < q2 ==> line[i] != Quote) &&
    (forall i :: q2 < i < q3 ==> line[i] != Quote) &&
    (forall i :: q3 < i < q4 ==> line[i] != Quote)
  }

  /** On a line `p0"p1"p2"p3"post` with quote-free p0 to p3, the first four quotes are the ones shown. */
  lemma QuoteLayout(line: string, p0: string, p1: string, p2: string, p3: string, post: string)
    requires line == p0 + [Quote] + p1 + [Quote] + p2 + [Quote] + p3 + [Quote] + post
    requires Quote !in p0 && Quote !in p1 && Quote !in p2 && Quote !in p3
    ensures var q1 := |p0|; var q2 := q1 + 1 + |p1|; var q3 := q2 + 1 + |p2|; var q4 := q3 + 1 + |p3|;
      FirstFourQuotes(line, q1, q2, q3, q4) && line[q3 + 1..q4] == p3
  {
    var q1 := |p0|;
    var q2 := q1 + 1 + |p1|;
    var q3 := q2 + 1 + |p2|;
    var q4 := q3 + 1 + |p3|;
    PiecesAt(line, p0, p1, p2, p3, post);
    QuoteFreeRange(line, 0, q1, p0);
    QuoteFreeRange(line, q1 + 1, q2, p1);
    QuoteFreeRange(line, q2 + 1, q3, p2);
    QuoteFreeRange(line, q3 + 1, q4, p3);
  }

  /** A slice equal to a quote-free piece holds no quote at any of its indices. */
  lemma QuoteFreeRange(line: string, lo: int, hi: int, piece: string)
    requires 0 <= lo <= hi <= |line| && line[lo..hi] == piece && Quote !in piece
    ensures forall i :: lo <= i < hi ==> line[i] != Quote
  {
    forall i | lo <= i < hi ensures line[i] != Quote {
      assert line[i] == piece[i - lo];
    }
  }

  /** Rounds 1 to 4 on a line whose first four quotes sit at q1 < q2 < q3 < q4. */
  lemma FourQuoteRounds(line: string, q1: int, q2: int, q3: int, q4: int)
    requires FirstFourQuotes(line, q1, q2, q3, q4)
    ensures SubstringIndex(3, Quote, line) == q3 && SubstringIndex(4, Quote, line) == q4
  {
    assert SubstringIndex(1, Quote, line) == q1;
    assert SubstringIndex(2, Quote, line) == q2;
  }

  /** Where the pieces of `p0"p1"p2"p3"post` sit. */
  lemma PiecesAt(line: string, p0: string, p1: string, p2: string, p3: string, post: string)
    requires line == p0 + [Quote] + p1 + [Quote] + p2 + [Quote] + p3 + [Quote] + post
    ensures var q1 := |p0|; var q2 := q1 + 1 + |p1|; var q3 := q2 + 1 + |p2|; var q4 := q3 + 1 + |p3|;
      q4 < |line| &&
      line[0..q1] == p0 && line[q1] == Quote && line[q1 + 1..q2] == p1 && line[q2] == Quote &&
      line[q2 + 1..q3] == p2 && line[q3] == Quote && line[q3 + 1..q4] == p3 && line[q4] == Quote
  {
  }

  /** Extraction cuts the line between rounds 3 and 4 when they are in order. */
  lemma ExtractLinkBetween(line: string, q3: int, q4: int)
    requires SubstringIndex(3, Quote, line) == q3 && SubstringIndex(4, Quote, line) == q4
    requires 0 <= q3 + 1 <= q4 <= |line|
    ensures ExtractLink(line) == Some(line[q3 + 1..q4])
  {
    assert ExtractLink(line) == LinkBetween(line, q3, q4);
  }

  /**
   * A page whose first marker line has that shape resolves to URL, e.g.
   * `meta property="og:video" content="https://example.com/vid.mp4"` to
   * `https://example.com/vid.mp4`.
   */
  lemma OgVideoPageResolves(before: seq<string>, pre: string, url: string, post: string,
                            after: seq<string>, end: StreamEnd, closeFails: bool)
    requires forall j :: 0 <= j < |before| ==> !Contains(before[j], Marker)
    requires Quote !in pre && Quote !in url
    ensures SourceURL(Opened(LineStream(before + [OgVideoLine(pre, url, post)] + after, end), closeFails)) ==
      Resolved(url, !closeFails)
  {
    var line := OgVideoLine(pre, url, post);
    var lines := before + [line] + after;
    assert lines[|before|] == line;
    assert FindMarker(lines) == Some(|before|) by {
      OgVideoLineMatches(pre, url, post);
      assert forall j :: 0 <= j < |before| ==> lines[j] == before[j];
      FindMarkerFirst(lines, |before|);
    }
    assert ExtractLink(line) == Some(url) by {
      OgVideoLineExtracts(pre, url, post);
    }
    MatchResolves(LineStream(lines, end), closeFails, |before|);
  }

  /** The index of the first line carrying the marker, if any: where the read loop breaks. */
  function FindMarker(lines: seq<string>): (r: Option<nat>)
    ensures r.Some? ==> r.value < |lines| && Contains(lines[r.value], Marker)
    ensures r.Some? ==> forall j :: 0 <= j < r.value ==> !Contains(lines[j], Marker)
    ensures r.None? ==> forall j :: 0 <= j < |lines| ==> !Contains(lines[j], Marker)
  {
    if |lines| == 0 then None
    else if Contains(lines[0], Marker) then Some(0)
    else match FindMarker(lines[1..])
      case None => None
      case Some(i) => Some(i + 1)
  }

  /** The first line carrying the marker is the one FindMarker finds; with none, it finds nothing. */
  lemma FindMarkerFirst(lines: seq<string>, n: nat)
    requires n <= |lines|
    requires forall j :: 0 <= j < n ==> !Contains(lines[j], Marker)
    requires n < |lines| ==> Contains(lines[n], Marker)
    ensures FindMarker(lines) == if n < |lines| then Some(n) else None
  {
  }

  /** What opening the page link does: a MalformedURLException, an IOException, or a readable stream. */
  datatype PageSource =
    | MalformedLink
    | OpenFailure
    | Opened(page: LineStream, closeFails: bool)

  /**
   * What getSourceURL does: the link it returns with the value it gives the
   * success flag, or the StringIndexOutOfBoundsException that escapes it.
   */
  datatype Resolution = Resolved(link: string, success: bool) | LinkOutOfBounds

  /** The model of getSourceURL. */
  function SourceURL(source: PageSource): Resolution
  {
    match source
    case MalformedLink => Resolved("", false)
    case OpenFailure => Resolved("", false)
    case Opened(page, closeFails) =>
      match FindMarker(page.lines)
      case Some(i) =>
        (match ExtractLink(page.lines[i])
         case None => LinkOutOfBounds
         case Some(link) => Resolved(link, !closeFails))
      case None =>
        if page.end == IOFailure then Resolved("", false) else Resolved("", !closeFails)
  }

  /** Lines after the first matching one, and how the stream would end, never matter. */
  lemma ScanStopsAtFirstMatch(a: LineStream, b: LineStream, closeFails: bool, i: nat)
    requires FindMarker(a.lines) == Some(i)
    requires i < |b.lines| && b.lines[..i + 1] == a.lines[..i + 1]
    ensures FindMarker(b.lines) == Some(i)
    ensures SourceURL(Opened(b, closeFails)) == SourceURL(Opened(a, closeFails))
  {
    assert b.lines[i] == b.lines[..i + 1][i];
    forall j | 0 <= j < i ensures b.lines[j] == a.lines[j] {
      assert b.lines[j] == b.lines[..i + 1][j];
    }
  }

  /**
   * The flag getSourceURL leaves: true exactly when the page opened, reading
   * reached a match or the end of the stream without an IOException, and close
   * succeeded.
   */
  lemma ResolutionFlag(source: PageSource)
    requires SourceURL(source).Resolved?
    ensures SourceURL(source).success <==>
      source.Opened? && !source.closeFails &&
      (FindMarker(source.page.lines).Some? || source.page.end == EndOfStream)
  {
  }

  /** Without a matching line the link is empty, whether or not reading failed. */
  lemma NoMarkerGivesEmptyLink(source: PageSource)
    requires !source.Opened? || FindMarker(source.page.lines).None?
    ensures SourceURL(source).Resolved? && SourceURL(source).link == ""
  {
  }

  /** A non-empty link comes only from a matching line of an opened page. */
  lemma NonEmptyLinkFromMatch(source: PageSource)
    requires SourceURL(source).Resolved? && SourceURL(source).link != ""
    ensures source.Opened? && FindMarker(source.page.lines).Some?
  {
  }

  /** A successful extraction on the first matching line is the resolved link. */
  lemma MatchResolves(page: LineStream, closeFails: bool, i: nat)
    requires FindMarker(page.lines) == Some(i) && ExtractLink(page.lines[i]).Some?
    ensures SourceURL(Opened(page, closeFails)) == Resolved(ExtractLink(page.lines[i]).value, !closeFails)
  {
  }

  /** An extraction that throws on the first matching line makes getSourceURL throw. */
  lemma MatchThrows(page: LineStream, closeFails: bool, i: nat)
    requires FindMarker(page.lines) == Some(i) && ExtractLink(page.lines[i]).None?
    ensures SourceURL(Opened(page, closeFails)) == LinkOutOfBounds
  {
  }

  /** With no matching line the link is empty; the flag says whether reading and closing both succeeded. */
  lemma NoMatchResolves(page: LineStream, closeFails: bool)
    requires FindMarker(page.lines).None?
    ensures SourceURL(Opened(page, closeFails)) ==
      Resolved("", page.end == EndOfStream && !closeFails)
  {
  }

  /** On a matching line with at least four quotes the link is the text between the 3rd and 4th. */
  lemma MatchWithFourQuotes(page: LineStream, closeFails: bool, i: nat)
    requires FindMarker(page.lines) == Some(i) && Count(page.lines[i], Quote) >= 4
    ensures SourceURL(Opened(page, closeFails)) ==
      Resolved(page.lines[i][Positions(page.lines[i], Quote)[2] + 1..Positions(page.lines[i], Quote)[3]], !closeFails)
  {
    var line := page.lines[i];
    var ps := Positions(line, Quote);
    assert ExtractLink(line) == Some(line[ps[2] + 1..ps[3]]) by {
      ExtractWithFourQuotes(line);
    }
    assert SourceURL(Opened(page, closeFails)) == Resolved(ExtractLink(line).value, !closeFails) by {
      MatchResolves(page, closeFails, i);
    }
  }

  /** A link getSourceURL takes from a matching line never holds a quote. */
  lemma MatchedLinkHasNoQuote(page: LineStream, closeFails: bool, i: nat)
    requires FindMarker(page.lines) == Some(i) && ExtractLink(page.lines[i]).Some?
    ensures SourceURL(Opened(page, closeFails)).Resolved?
    ensures Quote !in SourceURL(Opened(page, closeFails)).link
  {
    ExtractedLinkHasNoQuote(page.lines[i]);
    MatchResolves(page, closeFails, i);
  }

  /** The unchecked exception escapes exactly when the first matching line has three quotes. */
  lemma OutOfBoundsIffThreeQuotes(source: PageSource)
    ensures SourceURL(source).LinkOutOfBounds? <==>
      source.Opened? && FindMarker(source.page.lines).Some? &&
      Count(source.page.lines[FindMarker(source.page.lines).value], Quote) == 3
  {
    if source.Opened? && FindMarker(source.page.lines).Some? {
      MatchedLineThrowsIffThreeQuotes(source.page.lines[FindMarker(source.page.lines).value]);
    }
  }
}
