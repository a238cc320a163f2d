/** Byte ranges over HTTP (internal/server/http/blobs.go; sections 14.1.2 and 14.4 of RFC 9110). */
module HttpRange {
  import opened Prelude
  import opened Protocol
  import opened Decimal
  import opened BlobStore

  // Where c first occurs.
  function IndexOf(s: string, c: char): (i: Option<nat>)
    ensures i.Some? ==> i.value < |s| && s[i.value] == c && c !in s[..i.value]
    ensures i.None? ==> c !in s
  {
    if s == "" then None
    else if s[0] == c then Some(0)
    else
      var rest := IndexOf(s[1..], c);
      assert s == [s[0]] + s[1..];
      if rest.None? then None
      else
        assert s[..rest.value + 1] == [s[0]] + s[1..][..rest.value];
        Some(rest.value + 1)
  }

  lemma IndexOfFirst(before: string, c: char, after: string)
    requires c !in before
    ensures IndexOf(before + [c] + after, c) == Some(|before|)
  {
    var s := before + [c] + after;
    assert s[|before|] == c;
    assert forall j :: 0 <= j < |before| ==> s[j] == before[j];
    var i := IndexOf(s, c).value;
    assert forall j :: 0 <= j < i ==> s[j] == s[..i][j];
  }

  // int64 arithmetic wraps.
  function Wrap64(n: int): (r: int)
    ensures MIN_INT64 <= r <= MAX_INT64
  {
    if MIN_INT64 <= n <= MAX_INT64 then n else (n - MIN_INT64) % 0x1_0000_0000_0000_0000 + MIN_INT64
  }

  const RANGE_UNIT: string := "bytes="
  const CONTENT_RANGE_UNIT: string := "bytes "

  // "bytes=10-49" or "bytes=10-"; a length of -1 stands for an open end.
  function ParseRangeHeader(header: string): Option<(int, int)> {
    if RANGE_UNIT <= header then ParseRangeSpec(header[|RANGE_UNIT|..]) else None
  }

  function ParseRangeSpec(spec: string): (r: Option<(int, int)>)
    ensures r.Some? ==> r.value.0 >= 0
  {
    var dash := IndexOf(spec, '-');
    if dash.None? then None
    else
      var first, last := spec[..dash.value], spec[dash.value + 1..];
      var offset := ParseInt(first);
      assert first != "" ==> first[0] in first;
      if offset.None? then None
      else if last == "" then Some((offset.value, -1))
      else
        var end := ParseInt(last);
        if end.None? then None else Some((offset.value, Wrap64(end.value - offset.value + 1)))
  }

  // "bytes 0-1048575/52428800"; the end of the range is not looked at.
  function ParseContentRange(header: string): Option<(int, int)> {
    if CONTENT_RANGE_UNIT <= header then ParseContentSpec(header[|CONTENT_RANGE_UNIT|..]) else None
  }

  function ParseContentSpec(spec: string): Option<(int, int)> {
    var slash := IndexOf(spec, '/');
    if slash.None? then None
    else
      var range := spec[..slash.value];
      var dash := IndexOf(range, '-');
      if dash.None? then None
      else
        var offset, total := ParseInt(range[..dash.value]), ParseInt(spec[slash.value + 1..]);
        if offset.None? || total.None? then None else Some((offset.value, total.value))
  }

  function PrintRange(a: nat, b: nat): string { RANGE_UNIT + RangeSpec(Print(a), Print(b)) }

  function RangeSpec(first: string, last: string): string { first + ['-'] + last }

  function PrintContentRange(offset: int, end: int, size: int): string {
    CONTENT_RANGE_UNIT + ContentSpec(RangeSpec(PrintInt(offset), PrintInt(end)), PrintInt(size))
  }

  function ContentSpec(range: string, total: string): string { range + ['/'] + total }

  lemma CutPrefix(p: string, s: string)
    ensures p <= p + s && (p + s)[|p|..] == s
  {
  }

  lemma DigitsOnly(s: string, c: char)
    requires AllDigits(s) && !IsDigit(c)
    ensures c !in s
  {
  }

  lemma SpecSplits(first: string, last: string)
    requires '-' !in first
    ensures var spec := RangeSpec(first, last);
            IndexOf(spec, '-') == Some(|first|) && spec[..|first|] == first && spec[|first| + 1..] == last
  {
    IndexOfFirst(first, '-', last);
  }

  lemma SpecReadBack(first: string, last: string, a: int, b: int)
    requires '-' !in first && last != ""
    requires ParseInt(first) == Some(a) && ParseInt(last) == Some(b)
    ensures ParseRangeSpec(RangeSpec(first, last)) == Some((a, Wrap64(b - a + 1)))
  {
    SpecSplits(first, last);
  }

  // A printed range is read back, up to the wrap of its length.
  lemma RangeReadBack(a: nat, b: nat)
    requires a <= MAX_INT64 && b <= MAX_INT64
    ensures ParseRangeHeader(PrintRange(a, b)) == Some((a, Wrap64(b - a + 1)))
  {
    var first, last := Print(a), Print(b);
    DigitsOnly(first, '-');
    ParsePrinted(a);
    ParsePrinted(b);
    SpecReadBack(first, last, a, b);
    CutPrefix(RANGE_UNIT, RangeSpec(first, last));
  }

  lemma ContentSpecReadBack(first: string, last: string, total: string, offset: int, size: int)
    requires '-' !in first && '/' !in first && '/' !in last
    requires ParseInt(first) == Some(offset) && ParseInt(total) == Some(size)
    ensures ParseContentSpec(ContentSpec(RangeSpec(first, last), total)) == Some((offset, size))
  {
    var range := RangeSpec(first, last);
    var spec := ContentSpec(range, total);
    IndexOfFirst(range, '/', total);
    assert spec[..|range|] == range && spec[|range| + 1..] == total;
    SpecSplits(first, last);
  }

  lemma ContentRangeReadBack(a: nat, b: int, size: nat)
    requires a <= MAX_INT64 && size <= MAX_INT64
    ensures ParseContentRange(PrintContentRange(a, b, size)) == Some((a, size))
  {
    DigitsOnly(Print(a), '-');
    DigitsOnly(Print(a), '/');
    DigitsOnly(Print(if b < 0 then -b else b), '/');
    ParsePrinted(a);
    ParsePrinted(size);
    ContentSpecReadBack(Print(a), PrintInt(b), Print(size), a, size);
    CutPrefix(CONTENT_RANGE_UNIT, ContentSpec(RangeSpec(Print(a), PrintInt(b)), Print(size)));
  }

  // The round trip of a proper range: its offset and length, and the offset and size from the
  // Content-Range printed for it.
  lemma RangeRoundTrip(a: nat, b: nat, size: nat)
    requires a <= b < size <= MAX_INT64
    ensures ParseRangeHeader(PrintRange(a, b)) == Some((a, b - a + 1))
    ensures ParseContentRange(PrintContentRange(a, b, size)) == Some((a, size))
  {
    RangeReadBack(a, b);
    ContentRangeReadBack(a, b, size);
  }

  // A header parses exactly when it is the unit, a number, a dash and a number or nothing, and
  // then gives the first number and the length up to the second, or -1 without one.
  lemma ParsesIff(header: string, offset: int, length: int)
    ensures ParseRangeHeader(header) == Some((offset, length))
            <==> exists first, last :: Spells(header, first, last, offset, length)
  {
    if ParseRangeHeader(header) == Some((offset, length)) {
      var spec := header[|RANGE_UNIT|..];
      var dash := IndexOf(spec, '-').value;
      assert header == RANGE_UNIT + spec && spec == RangeSpec(spec[..dash], spec[dash + 1..]);
      assert Spells(header, spec[..dash], spec[dash + 1..], offset, length);
    }
    if first, last :| Spells(header, first, last, offset, length) {
      SpelledParses(header, first, last, offset, length);
    }
  }

  lemma SpelledParses(header: string, first: string, last: string, offset: int, length: int)
    requires Spells(header, first, last, offset, length)
    ensures ParseRangeHeader(header) == Some((offset, length))
  {
    CutPrefix(RANGE_UNIT, RangeSpec(first, last));
    SpecSplits(first, last);
  }

  predicate Spells(header: string, first: string, last: string, offset: int, length: int) {
    && header == "bytes=" + RangeSpec(first, last) && '-' !in first && ParseInt(first) == Some(offset)
    && (if last == "" then length == -1
        else ParseInt(last).Some? && length == Wrap64(ParseInt(last).value - offset + 1))
  }

  // The reading of an upload's Content-Range: the unit, a number, a dash, anything, a slash and the
  // size. It takes the first number and the size.
  lemma ContentParsesIff(header: string, offset: int, size: int)
    ensures ParseContentRange(header) == Some((offset, size))
            <==> exists first, last, total :: SpellsContent(header, first, last, total, offset, size)
  {
    if ParseContentRange(header) == Some((offset, size)) {
      ParsedContentIsSpelled(header, offset, size);
    }
    if first, last, total :| SpellsContent(header, first, last, total, offset, size) {
      SpelledContentParses(header, first, last, total, offset, size);
    }
  }

  lemma ParsedContentIsSpelled(header: string, offset: int, size: int)
    requires ParseContentRange(header) == Some((offset, size))
    ensures exists first, last, total :: SpellsContent(header, first, last, total, offset, size)
  {
    var spec := header[|CONTENT_RANGE_UNIT|..];
    var slash := IndexOf(spec, '/').value;
    var range := spec[..slash];
    var dash := IndexOf(range, '-').value;
    assert range == RangeSpec(range[..dash], range[dash + 1..]);
    assert spec == ContentSpec(range, spec[slash + 1..]);
    assert header == CONTENT_RANGE_UNIT + spec;
    assert SpellsContent(header, range[..dash], range[dash + 1..], spec[slash + 1..], offset, size);
  }

  lemma SpelledContentParses(header: string, first: string, last: string, total: string, offset: int, size: int)
    requires SpellsContent(header, first, last, total, offset, size)
    ensures ParseContentRange(header) == Some((offset, size))
  {
    ContentSpecReadBack(first, last, total, offset, size);
    CutPrefix(CONTENT_RANGE_UNIT, ContentSpec(RangeSpec(first, last), total));
  }

  predicate SpellsContent(header: string, first: string, last: string, total: string, offset: int, size: int) {
    && header == "bytes " + ContentSpec(RangeSpec(first, last), total)
    && '-' !in first && '/' !in first && '/' !in last
    && ParseInt(first) == Some(offset) && ParseInt(total) == Some(size)
  }

  lemma OpenEndedReadBack(a: nat)
    requires a <= MAX_INT64
    ensures ParseRangeHeader("bytes=" + RangeSpec(Print(a), "")) == Some((a, -1))
  {
    DigitsOnly(Print(a), '-');
    ParsePrinted(a);
    assert Spells("bytes=" + RangeSpec(Print(a), ""), Print(a), "", a, -1);
    ParsesIff("bytes=" + RangeSpec(Print(a), ""), a, -1);
  }

  // What a ranged GET of an existing blob answers.
  datatype Response = Response(contentRange: string, contentLength: Option<int>, body: Bytes)

  datatype Reply = BadRange | NoBlob | PartialContent(r: Response)

  function HandleRangeGet(d: Disk, sha: Sha, header: string): Reply {
    var range := ParseRangeHeader(header);
    if range.None? then BadRange else ServeRange(d, sha, range.value.0, range.value.1)
  }

  function ServeRange(d: Disk, sha: Sha, offset: nat, length: int): Reply {
    var body := GetRange(d, sha, offset, length);
    if body.None? then NoBlob
    else
      var size := |d.blobs[sha].data|;
      var end := if length < 0 then size - 1 else Wrap64(offset + length - 1);
      PartialContent(Response(PrintContentRange(offset, end, size), if length >= 0 then Some(length) else None, body.value))
  }

  // Serving a printed range is serving its offset and length, up to the wrap of the length.
  lemma ServedAsPrinted(d: Disk, sha: Sha, a: nat, b: nat)
    requires a <= MAX_INT64 && b <= MAX_INT64
    ensures HandleRangeGet(d, sha, PrintRange(a, b)) == ServeRange(d, sha, a, Wrap64(b - a + 1))
  {
    RangeReadBack(a, b);
  }

  function Slice(data: Bytes, from: nat, to: nat): Bytes {
    var hi := if to <= |data| then to else |data|;
    if from <= hi then data[from..hi] else []
  }

  lemma ServedInside(d: Disk, sha: Sha, a: nat, b: nat)
    requires ValidateSHA(sha) && sha in d.blobs && a <= b < |d.blobs[sha].data| <= MAX_INT64
    ensures ServeRange(d, sha, a, b - a + 1)
            == PartialContent(Response(PrintContentRange(a, b, |d.blobs[sha].data|), Some(b - a + 1),
                                       d.blobs[sha].data[a..b + 1]))
  {
    var data := d.blobs[sha].data;
    assert data[a..][..b - a + 1] == data[a..b + 1];
  }

  // A range inside the blob is served to the byte, and its Content-Range names it.
  lemma {:induction false} ProperRangeServed(d: Disk, sha: Sha, a: nat, b: nat)
    requires ValidateSHA(sha) && sha in d.blobs && a <= b < |d.blobs[sha].data| <= MAX_INT64
    ensures HandleRangeGet(d, sha, PrintRange(a, b))
            == PartialContent(Response(PrintContentRange(a, b, |d.blobs[sha].data|), Some(b - a + 1),
                                       d.blobs[sha].data[a..b + 1]))
  {
    ServedAsPrinted(d, sha, a, b);
    ServedInside(d, sha, a, b);
  }

  // An open-ended range is served from its offset to the end, without an announced length.
  lemma OpenEndedServed(d: Disk, sha: Sha, a: nat)
    requires ValidateSHA(sha) && sha in d.blobs && a <= MAX_INT64 && a <= |d.blobs[sha].data|
    ensures var size := |d.blobs[sha].data|;
            HandleRangeGet(d, sha, "bytes=" + RangeSpec(Print(a), ""))
            == PartialContent(Response(PrintContentRange(a, size - 1, size), None, d.blobs[sha].data[a..]))
  {
    OpenEndedReadBack(a);
  }

  // For every range header that parses: an open-ended or far inverted range announces no length,
  // and any other announces the length of the body exactly when it asks for nothing or ends
  // inside the blob. A range that runs past the end is not cut down to it.
  lemma AnnouncedLengthIff(d: Disk, sha: Sha, header: string)
    requires ValidateSHA(sha) && sha in d.blobs && ParseRangeHeader(header).Some?
    ensures var (offset, length) := ParseRangeHeader(header).value;
            var reply := HandleRangeGet(d, sha, header);
            && reply.PartialContent?
            && (reply.r.contentLength == None <==> length < 0)
            && (reply.r.contentLength == Some(|reply.r.body|)
                <==> length == 0 || (length > 0 && offset + length <= |d.blobs[sha].data|))
  {
    ServedLength(d, sha, ParseRangeHeader(header).value.0, ParseRangeHeader(header).value.1);
  }

  lemma ServedBody(d: Disk, sha: Sha, offset: nat, length: int)
    requires ValidateSHA(sha) && sha in d.blobs
    ensures var reply := ServeRange(d, sha, offset, length);
            && reply.PartialContent?
            && reply.r.body == GetRange(d, sha, offset, length).value
            && reply.r.contentLength == if length >= 0 then Some(length) else None
  {
  }

  lemma RangeLength(d: Disk, sha: Sha, offset: nat, length: nat)
    requires ValidateSHA(sha) && sha in d.blobs
    ensures |GetRange(d, sha, offset, length).value| == length
            <==> length == 0 || offset + length <= |d.blobs[sha].data|
  {
  }

  lemma ServedLength(d: Disk, sha: Sha, offset: nat, length: int)
    requires ValidateSHA(sha) && sha in d.blobs
    ensures var reply := ServeRange(d, sha, offset, length);
            && reply.PartialContent?
            && (reply.r.contentLength == None <==> length < 0)
            && (reply.r.contentLength == Some(|reply.r.body|)
                <==> length == 0 || (length > 0 && offset + length <= |d.blobs[sha].data|))
  {
    ServedBody(d, sha, offset, length);
    if length >= 0 {
      RangeLength(d, sha, offset, length);
    }
  }

  // The answer to a printed range: its body and announced length.
  lemma PrintedReply(d: Disk, sha: Sha, a: nat, b: nat)
    requires ValidateSHA(sha) && sha in d.blobs && a <= MAX_INT64 && b <= MAX_INT64
    ensures var reply, length := HandleRangeGet(d, sha, PrintRange(a, b)), Wrap64(b - a + 1);
            && reply.PartialContent?
            && reply.r.body == GetRange(d, sha, a, length).value
            && reply.r.contentLength == if length >= 0 then Some(length) else None
  {
    ServedAsPrinted(d, sha, a, b);
    ServedBody(d, sha, a, Wrap64(b - a + 1));
  }

  // The longest printed range wraps to a negative length.
  lemma WrapOfLength(a: nat, b: nat)
    requires a <= b <= MAX_INT64
    ensures Wrap64(b - a + 1) == if b - a < MAX_INT64 then b - a + 1 else MIN_INT64
  {
  }

  // The Content-Range of the answer to a printed range names the range as asked for, empty ones
  // and ones past the end included; a far inverted or the longest one reads as open-ended.
  lemma ContentRangeAnswered(d: Disk, sha: Sha, a: nat, b: nat)
    requires ValidateSHA(sha) && sha in d.blobs && a <= MAX_INT64 && b <= MAX_INT64
    ensures var reply, size := HandleRangeGet(d, sha, PrintRange(a, b)), |d.blobs[sha].data|;
            && reply.PartialContent?
            && reply.r.contentRange
               == PrintContentRange(a, if a <= b + 1 && b - a < MAX_INT64 then b else size - 1, size)
  {
    ServedAsPrinted(d, sha, a, b);
    WrapOfSpan(a, b);
    ServedContentRange(d, sha, a, Wrap64(b - a + 1));
  }

  lemma WrapOfSpan(a: nat, b: nat)
    requires a <= MAX_INT64 && b <= MAX_INT64
    ensures Wrap64(b - a + 1) >= 0 <==> a <= b + 1 && b - a < MAX_INT64
    ensures Wrap64(b - a + 1) >= 0 ==> Wrap64(a + Wrap64(b - a + 1) - 1) == b
  {
    if b - a == MAX_INT64 {
      WrapOfLength(a, b);
    } else {
      assert Wrap64(b - a + 1) == b - a + 1;
    }
  }

  lemma ServedContentRange(d: Disk, sha: Sha, offset: nat, length: int)
    requires ValidateSHA(sha) && sha in d.blobs
    ensures var reply, size := ServeRange(d, sha, offset, length), |d.blobs[sha].data|;
            && reply.PartialContent?
            && reply.r.contentRange
               == PrintContentRange(offset, if length >= 0 then Wrap64(offset + length - 1) else size - 1, size)
  {
  }

  // For a printed range, then, exactly when its end is inside the blob.
  lemma PrintedLengthIff(d: Disk, sha: Sha, a: nat, b: nat)
    requires ValidateSHA(sha) && sha in d.blobs && |d.blobs[sha].data| <= MAX_INT64
    requires a <= b <= MAX_INT64
    ensures var reply := HandleRangeGet(d, sha, PrintRange(a, b));
            reply.PartialContent?
            && (reply.r.contentLength == Some(|reply.r.body|) <==> b < |d.blobs[sha].data|)
  {
    PrintedReply(d, sha, a, b);
    WrapOfLength(a, b);
    ReplyLengthIff(d, sha, a, b, Wrap64(b - a + 1), HandleRangeGet(d, sha, PrintRange(a, b)));
  }

  lemma ReplyLengthIff(d: Disk, sha: Sha, a: nat, b: nat, length: int, reply: Reply)
    requires ValidateSHA(sha) && sha in d.blobs && |d.blobs[sha].data| <= MAX_INT64
    requires a <= b <= MAX_INT64 && length == if b - a < MAX_INT64 then b - a + 1 else MIN_INT64
    requires reply.PartialContent? && reply.r.body == GetRange(d, sha, a, length).value
    requires reply.r.contentLength == if length >= 0 then Some(length) else None
    ensures reply.r.contentLength == Some(|reply.r.body|) <==> b < |d.blobs[sha].data|
  {
    if b - a < MAX_INT64 {
      RangeLength(d, sha, a, length);
    }
  }

  lemma RangeBodyIff(d: Disk, sha: Sha, a: nat, b: nat)
    requires ValidateSHA(sha) && sha in d.blobs && |d.blobs[sha].data| <= MAX_INT64
    requires a <= MAX_INT64 && b <= MAX_INT64
    ensures GetRange(d, sha, a, Wrap64(b - a + 1)).value == Slice(d.blobs[sha].data, a, b + 1)
            <==> a <= b + 1 || a >= |d.blobs[sha].data|
  {
    var data := d.blobs[sha].data;
    if a <= b && b + 1 <= |data| {
      assert data[a..][..b + 1 - a] == data[a..b + 1];
    }
  }

  // The bytes served are those asked for unless the range is inverted by more than one, which
  // section 14.1.2 of RFC 9110 calls invalid: then everything from its start is served.
  lemma {:induction false} BytesServedIff(d: Disk, sha: Sha, a: nat, b: nat)
    requires ValidateSHA(sha) && sha in d.blobs && |d.blobs[sha].data| <= MAX_INT64
    requires a <= MAX_INT64 && b <= MAX_INT64
    ensures var reply := HandleRangeGet(d, sha, PrintRange(a, b));
            reply.PartialContent?
            && (reply.r.body == Slice(d.blobs[sha].data, a, b + 1) <==> a <= b + 1 || a >= |d.blobs[sha].data|)
  {
    PrintedReply(d, sha, a, b);
    RangeBodyIff(d, sha, a, b);
  }

  // The concatenation of the ranges between consecutive bounds.
  function Tiled(d: Disk, sha: Sha, bounds: seq<nat>): Bytes
    requires ValidateSHA(sha) && sha in d.blobs
    requires forall i, j :: 0 <= i < j < |bounds| ==> bounds[i] <= bounds[j]
  {
    if |bounds| <= 1 then []
    else
      var n := |bounds| - 1;
      Tiled(d, sha, bounds[..n]) + GetRange(d, sha, bounds[n - 1], bounds[n] - bounds[n - 1]).value
  }

  lemma RangeExtends(d: Disk, sha: Sha, lo: nat, mid: nat, hi: nat)
    requires ValidateSHA(sha) && sha in d.blobs && lo <= mid <= hi <= |d.blobs[sha].data|
    ensures d.blobs[sha].data[lo..mid] + GetRange(d, sha, mid, hi - mid).value == d.blobs[sha].data[lo..hi]
  {
    var data := d.blobs[sha].data;
    assert data[mid..][..hi - mid] == data[mid..hi];
    assert data[lo..mid] + data[mid..hi] == data[lo..hi];
  }

  lemma {:induction false} TilesConcat(d: Disk, sha: Sha, bounds: seq<nat>)
    requires ValidateSHA(sha) && sha in d.blobs
    requires forall i, j :: 0 <= i < j < |bounds| ==> bounds[i] <= bounds[j]
    requires |bounds| > 0 && bounds[|bounds| - 1] <= |d.blobs[sha].data|
    ensures Tiled(d, sha, bounds) == d.blobs[sha].data[bounds[0]..bounds[|bounds| - 1]]
  {
    var n := |bounds| - 1;
    if n > 0 {
      TilesConcat(d, sha, bounds[..n]);
      RangeExtends(d, sha, bounds[0], bounds[n - 1], bounds[n]);
    }
  }

  // Ranges that tile the whole blob give, put together, what Get gives.
  lemma TilesGiveBlob(d: Disk, sha: Sha, bounds: seq<nat>)
    requires ValidateSHA(sha) && sha in d.blobs
    requires forall i, j :: 0 <= i < j < |bounds| ==> bounds[i] <= bounds[j]
    requires |bounds| > 0 && bounds[0] == 0 && bounds[|bounds| - 1] == |d.blobs[sha].data|
    ensures Get(d, sha) == Some(Tiled(d, sha, bounds))
  {
    TilesConcat(d, sha, bounds);
    assert d.blobs[sha].data[0..|d.blobs[sha].data|] == d.blobs[sha].data;
  }
}
