/**
  ResponseSerializer.download of glance/api/v2/image_data.py: turns a parsed
  range into the offset and chunk size read from the store, the status code
  and the Content-Range, Content-Length and Content-MD5 headers. The parsed
  range arrives as webob produces it, whose `end` is EXCLUSIVE: the request
  "bytes=0-4" arrives as start 0, end 5. The byte-range and suffix-byte-range
  forms follow section 2.1 of RFC 7233; the Content-Range value follows
  section 4.2 of RFC 7233.
*/
module Download {

  import opened Wrappers
  import opened Decimal

  /** The range get_range_from_request returns. */
  datatype RangeRequest =
    | NoRange                                       // no range header
    | ByteRange(start: int, end: Option<int>)       // webob Range; start < 0 is a suffix length
    | ContentRangeRequest(start: int, stop: int)    // webob ContentRange, kept for compatibility

  /** What the serializer reads: everything, or `chunkSize` bytes from `offset`. */
  datatype Resolved =
    | Full
    | Partial(offset: int, chunkSize: int, responseEnd: int)

  /** Lines 394-433: the offset, chunk size and last byte position a range selects. */
  function ResolveRange(size: int, r: RangeRequest): (res: Resolved)
    ensures r.NoRange? <==> res.Full?
    ensures res.Partial? ==> res.chunkSize == res.responseEnd - res.offset + 1
    ensures r.ByteRange? && r.start >= 0 ==> res.offset == r.start
    ensures r.ByteRange? && r.start < 0 && -r.start < size ==> res.offset == size + r.start
    ensures r.ByteRange? && r.start < 0 && -r.start >= size ==> res.offset == 0
    ensures r.ByteRange? && r.end.Some? && r.end.value < size ==> res.responseEnd == r.end.value - 1
    ensures r.ByteRange? && (r.end.None? || r.end.value >= size) ==> res.responseEnd == size - 1
    ensures r.ContentRangeRequest? ==> res.offset == r.start && res.responseEnd == r.stop - 1
  {
    match r
    case NoRange => Full
    case ByteRange(start, end) =>
      var offset := if start >= 0 then start else if -start < size then size + start else 0;
      if end.Some? && end.value < size then Partial(offset, end.value - offset, end.value - 1)
      else Partial(offset, size - offset, size - 1)
    case ContentRangeRequest(start, stop) =>
      Partial(start, stop - start, stop - 1)
  }

  /** The status the response carries: 206 for any range, else webob's default 200. */
  function StatusFor(res: Resolved): int {
    if res.Partial? then 206 else 200
  }

  /**
    A range webob accepts as satisfiable for an image of `size` bytes: a
    first-byte position inside the image before an (exclusive) end, a suffix of
    positive length of a non-empty image, or a content range inside the image.
  */
  predicate Satisfiable(size: int, r: RangeRequest) {
    match r
    case NoRange => true
    case ByteRange(start, end) =>
      if start >= 0 then start < size && (end.None? || start < end.value)
      else end.None? && size > 0
    case ContentRangeRequest(start, stop) => 0 <= start < stop <= size
  }

  /** A satisfiable range selects a non-empty run of bytes inside the image. */
  lemma ResolvedRangeInsideImage(size: int, r: RangeRequest)
    requires Satisfiable(size, r)
    requires r != NoRange
    ensures var res := ResolveRange(size, r);
      0 <= res.offset <= res.responseEnd < size && res.chunkSize >= 1
  {
  }

  /**
    A suffix range "bytes=-n" selects the last n bytes, or the whole image when
    n is at least its size (section 2.1 of RFC 7233).
  */
  lemma SuffixRangeSelectsTail(size: int, n: int)
    requires n > 0 && size > 0
    ensures var res := ResolveRange(size, ByteRange(-n, None));
      && res.responseEnd == size - 1
      && res.chunkSize == (if n < size then n else size)
  {
  }

  /** The Content-Range value "bytes first-last/complete" (section 4.2 of RFC 7233). */
  function ContentRangeValue(first: int, last: int, complete: int): string {
    "bytes " + IntToString(first) + "-" + IntToString(last) + "/" + IntToString(complete)
  }

  /** Reads an integer that follows the separator `sep`. */
  function ReadIntAfter(sep: char, s: string): Option<(int, string)> {
    if |s| == 0 || s[0] != sep then None else ReadInt(s[1..])
  }

  /** Reads a Content-Range value back into its three numbers. */
  function ParseContentRange(h: string): Option<(int, int, int)> {
    if |h| < 6 || h[..6] != "bytes " then None
    else
      match ReadInt(h[6..])
      case None => None
      case Some((first, rest1)) =>
        match ReadIntAfter('-', rest1)
        case None => None
        case Some((last, rest2)) =>
          match ReadIntAfter('/', rest2)
          case None => None
          case Some((complete, rest3)) => if rest3 == [] then Some((first, last, complete)) else None
  }

  /** An integer printed after a non-digit separator reads back after that separator. */
  lemma ReadIntAfterRoundTrip(sep: char, i: int, rest: string)
    requires !IsDigit(sep)
    requires rest == [] || !IsDigit(rest[0])
    ensures ReadIntAfter(sep, [sep] + IntToString(i) + rest) == Some((i, rest))
  {
    assert ([sep] + IntToString(i) + rest)[1..] == IntToString(i) + rest;
    ReadIntRoundTrip(i, rest);
  }

  /** The Content-Range value names exactly the three numbers it was built from. */
  lemma ContentRangeRoundTrip(first: int, last: int, complete: int)
    ensures ParseContentRange(ContentRangeValue(first, last, complete)) == Some((first, last, complete))
  {
    var a := IntToString(first);
    var b := IntToString(last);
    var c := IntToString(complete);
    var tail2 := ['/'] + c + [];
    var tail1 := ['-'] + b + tail2;
    var h := ContentRangeValue(first, last, complete);
    assert h == "bytes " + (a + tail1);
    assert h[..6] == "bytes ";
    assert h[6..] == a + tail1;
    ReadIntRoundTrip(first, tail1);
    ReadIntAfterRoundTrip('-', last, tail2);
    ReadIntAfterRoundTrip('/', complete, []);
  }

  /** A failure of image.get_data, with the status it is turned into. */
  datatype ReadFault =
    | StoreNotFound             // 204
    | RemoteServiceUnavailable  // 503
    | GetNotSupported           // StoreGetNotSupported or StoreRandomGetNotSupported: 400
    | ReadForbidden             // 403

  function ReadFaultStatus(f: ReadFault): int {
    match f
    case StoreNotFound => 204
    case RemoteServiceUnavailable => 503
    case GetNotSupported => 400
    case ReadForbidden => 403
  }

  /** The download response: the read it starts, its status and headers, or an error status. */
  datatype DownloadResponse =
    | Streamed(status: int, offset: int, chunkSize: Option<int>, contentRange: Option<string>,
               contentLength: string, contentMd5: Option<string>)
    | Failed(status: int)

  /**
    ResponseSerializer.download for an image of `size` bytes with checksum
    `checksum`; `fault` is the error image.get_data raises, if any.
  */
  function SerializeDownload(size: int, checksum: Option<string>, r: RangeRequest, fault: Option<ReadFault>)
    : (resp: DownloadResponse)
    ensures fault.Some? <==> resp.Failed?
    ensures fault.Some? ==> resp.status == ReadFaultStatus(fault.value)
    ensures resp.Streamed? ==> (resp.status == 206 <==> r != NoRange) && (resp.contentRange.Some? <==> r != NoRange)
    ensures resp.Streamed? ==> (resp.contentMd5.Some? <==> Truthy(checksum))
    ensures resp.Streamed? ==> resp.contentMd5 == (if Truthy(checksum) then checksum else None)
    ensures resp.Streamed? && r == NoRange ==> resp.offset == 0 && resp.chunkSize.None?
    ensures resp.Streamed? && r != NoRange ==>
              resp.offset == ResolveRange(size, r).offset && resp.chunkSize == Some(ResolveRange(size, r).chunkSize)
  {
    var res := ResolveRange(size, r);
    if fault.Some? then Failed(ReadFaultStatus(fault.value))
    else
      var md5 := if Truthy(checksum) then checksum else None;
      match res
      case Full => Streamed(StatusFor(res), 0, None, None, IntToString(size), md5)
      case Partial(offset, chunk, last) =>
        Streamed(StatusFor(res), offset, Some(chunk), Some(ContentRangeValue(offset, last, size)),
                 IntToString(chunk), md5)
  }

  /**
    Headers of every response: a partial response's Content-Length is
    last - first + 1 of its Content-Range and the Content-Range names the
    offset read and the image size; a full response's Content-Length is the
    size and it has no Content-Range.
  */
  lemma HeadersDescribeTheRead(size: int, checksum: Option<string>, r: RangeRequest)
    ensures SerializeDownload(size, checksum, r, None).Streamed?
    ensures r == NoRange ==> FullHeadersHold(size, SerializeDownload(size, checksum, r, None))
    ensures r != NoRange ==> PartialHeadersHold(size, SerializeDownload(size, checksum, r, None))
  {
    if r == NoRange {
      FullHeaders(size, checksum);
    } else {
      PartialHeaders(size, checksum, r);
    }
  }

  /** A full response: status 200, Content-Length the size, no Content-Range. */
  predicate FullHeadersHold(size: int, resp: DownloadResponse) {
    && resp.Streamed?
    && resp.status == 200 && resp.contentRange.None? && resp.chunkSize.None?
    && ReadInt(resp.contentLength) == Some((size, ""))
  }

  /**
    A partial response: its Content-Range names the offset read, the last byte
    read and the size, and its Content-Length is the chunk read.
  */
  predicate PartialHeadersHold(size: int, resp: DownloadResponse) {
    && resp.Streamed?
    && resp.status == 206
    && resp.chunkSize.Some?
    && resp.contentRange.Some?
    && ParseContentRange(resp.contentRange.value) ==
       Some((resp.offset, resp.offset + resp.chunkSize.value - 1, size))
    && ReadInt(resp.contentLength) == Some((resp.chunkSize.value, ""))
  }

  /** The headers of a full response. */
  lemma FullHeaders(size: int, checksum: Option<string>)
    ensures FullHeadersHold(size, SerializeDownload(size, checksum, NoRange, None))
  {
    var md5 := if Truthy(checksum) then checksum else None;
    assert SerializeDownload(size, checksum, NoRange, None) == Streamed(200, 0, None, None, IntToString(size), md5);
    ReadIntAlone(size);
  }

  /** The headers of a partial response. */
  lemma PartialHeaders(size: int, checksum: Option<string>, r: RangeRequest)
    requires r != NoRange
    ensures PartialHeadersHold(size, SerializeDownload(size, checksum, r, None))
  {
    var res := ResolveRange(size, r);
    var md5 := if Truthy(checksum) then checksum else None;
    assert SerializeDownload(size, checksum, r, None) ==
           Streamed(206, res.offset, Some(res.chunkSize), Some(ContentRangeValue(res.offset, res.responseEnd, size)),
                    IntToString(res.chunkSize), md5);
    ChunkHeaders(size, res.offset, res.chunkSize, res.responseEnd, md5);
  }

  /** Headers built from a chunk of `chunk` bytes ending at `last` describe that chunk. */
  lemma ChunkHeaders(size: int, offset: int, chunk: int, last: int, md5: Option<string>)
    requires chunk == last - offset + 1
    ensures PartialHeadersHold(size, Streamed(206, offset, Some(chunk), Some(ContentRangeValue(offset, last, size)),
                                              IntToString(chunk), md5))
  {
    ContentRangeRoundTrip(offset, last, size);
    ReadIntAlone(chunk);
  }

  /** "bytes=0-4" of a 10-byte image reads bytes 0 to 4 and answers "bytes 0-4/10". */
  lemma FirstFiveBytesOfTen()
    ensures var resp := SerializeDownload(10, None, ByteRange(0, Some(5)), None);
      resp.Streamed? && resp.status == 206 && resp.offset == 0 && resp.chunkSize == Some(5) &&
      resp.contentRange == Some("bytes 0-4/10") && resp.contentLength == "5"
  {
    assert IntToString(0) == "0" && IntToString(4) == "4" && IntToString(5) == "5";
    assert NatToString(10) == NatToString(1) + [DigitChar(0)] == "10";
    assert ContentRangeValue(0, 4, 10) == "bytes 0-4/10";
  }

  /** "bytes=-2" of a 10-byte image reads the last two bytes and answers "bytes 8-9/10". */
  lemma LastTwoBytesOfTen()
    ensures var resp := SerializeDownload(10, None, ByteRange(-2, None), None);
      resp.Streamed? && resp.status == 206 && resp.offset == 8 && resp.chunkSize == Some(2) &&
      resp.contentRange == Some("bytes 8-9/10") && resp.contentLength == "2"
  {
    assert IntToString(8) == "8" && IntToString(9) == "9" && IntToString(2) == "2";
    assert NatToString(10) == NatToString(1) + [DigitChar(0)] == "10";
    assert ContentRangeValue(8, 9, 10) == "bytes 8-9/10";
  }
}
