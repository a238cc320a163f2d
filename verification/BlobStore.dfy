/** The blob store (internal/server/blobstore/fs.go and gc.go). */
module BlobStore {
  import opened Prelude
  import opened Protocol
  import opened FileStateTable

  type Byte = b: int | 0 <= b < 256
  type Bytes = seq<Byte>

  // SHA-256 of a byte string in lower-case hexadecimal; left uninterpreted.
  type Digest = Bytes -> Sha

  datatype File = File(data: Bytes, modTime: int)

  // Completed blobs and partial uploads, each under the name it was sent with.
  datatype Disk = Disk(blobs: map<Sha, File>, partials: map<Sha, File>)

  // What a request body delivers before it ends or fails.
  datatype Reader = Reader(data: Bytes, fails: bool)

  datatype BlobError = InvalidSha | NotFound | SizeMismatch | ShaMismatch | Incomplete | CopyFailed | SeekFailed

  predicate IsHex(c: char) { '0' <= c <= '9' || 'a' <= c <= 'f' || 'A' <= c <= 'F' }

  predicate ValidateSHA(sha: Sha) {
    |sha| == 64 && forall i :: 0 <= i < |sha| ==> IsHex(sha[i])
  }

  function Lower(sha: Sha): Sha {
    seq(|sha|, i requires 0 <= i < |sha| => if 'A' <= sha[i] <= 'Z' then sha[i] - 'A' + 'a' else sha[i])
  }

  // A name is 64 hexadecimal digits, of either case.
  lemma ValidSHAIff(sha: Sha)
    ensures ValidateSHA(sha) <==> |sha| == 64 && forall c :: c in sha ==> c in "0123456789abcdefABCDEF"
  {
    assert forall c :: IsHex(c) <==> c in "0123456789abcdefABCDEF";
  }

  const UPPER: string := "ABCDEFGHIJKLMNOPQRSTUVWXYZ"
  const LOWER: string := "abcdefghijklmnopqrstuvwxyz"

  // Lower-casing maps the letters one to one and leaves every other character.
  lemma LowerLetters(sha: Sha, i: nat)
    requires i < |sha|
    ensures |Lower(sha)| == |sha|
    ensures sha[i] !in UPPER ==> Lower(sha)[i] == sha[i]
    ensures forall k :: 0 <= k < 26 && sha[i] == UPPER[k] ==> Lower(sha)[i] == LOWER[k]
  {
    assert forall c :: c in UPPER <==> 'A' <= c <= 'Z';
    assert forall k :: 0 <= k < 26 ==> UPPER[k] == 'A' + k as char && LOWER[k] == 'a' + k as char;
  }

  function Zeros(n: nat): Bytes { seq(n, _ => 0) }

  // Writing past the end leaves a hole that reads as zeros; writing nothing changes nothing.
  function WriteAt(file: Bytes, offset: nat, data: Bytes): (r: Bytes)
    ensures |r| == if data == [] || offset + |data| < |file| then |file| else offset + |data|
    ensures forall i :: 0 <= i < |r| ==>
              r[i] == if offset <= i < offset + |data| then data[i - offset] else if i < |file| then file[i] else 0
  {
    if data == [] then file
    else
      var head := if offset <= |file| then file[..offset] else file + Zeros(offset - |file|);
      head + data + if offset + |data| < |file| then file[offset + |data|..] else []
  }

  type Result = (Disk, Option<BlobError>)

  function PutResult(h: Digest, d: Disk, sha: Sha, r: Reader, expectedSize: int, now: int): Result {
    if !ValidateSHA(sha) then (d, Some(InvalidSha))
    else if sha in d.blobs then (d, None)
    else
      var dropped := d.(partials := d.partials - {sha});
      if r.fails then (dropped, Some(CopyFailed))
      else if expectedSize > 0 && |r.data| != expectedSize then (dropped, Some(SizeMismatch))
      else if h(r.data) != Lower(sha) then (dropped, Some(ShaMismatch))
      else (dropped.(blobs := d.blobs[sha := File(r.data, now)]), None)
  }

  function PutRangeResult(h: Digest, d: Disk, sha: Sha, offset: int, r: Reader, totalSize: int, now: int): Result {
    if !ValidateSHA(sha) then (d, Some(InvalidSha))
    else
      var found := if sha in d.partials then d.partials[sha] else File([], now);
      if offset < 0 then (d.(partials := d.partials[sha := found]), Some(SeekFailed))
      else
        var written := File(WriteAt(found.data, offset, r.data), if r.data == [] then found.modTime else now);
        var kept := d.(partials := d.partials[sha := written]);
        var dropped := d.(partials := d.partials - {sha});
        if r.fails then (kept, Some(CopyFailed))
        else if offset + |r.data| < totalSize then (kept, Some(Incomplete))
        else if offset + |r.data| != totalSize then (dropped, Some(SizeMismatch))
        else if h(written.data) != Lower(sha) then (dropped, Some(ShaMismatch))
        else (dropped.(blobs := d.blobs[sha := written]), None)
  }

  function Get(d: Disk, sha: Sha): Option<Bytes> {
    if ValidateSHA(sha) && sha in d.blobs then Some(d.blobs[sha].data) else None
  }

  // length < 0 reads to the end; reading past the end yields what there is.
  function GetRange(d: Disk, sha: Sha, offset: nat, length: int): Option<Bytes> {
    if !(ValidateSHA(sha) && sha in d.blobs) then None
    else
      var data := d.blobs[sha].data;
      var rest := if offset <= |data| then data[offset..] else [];
      Some(if length < 0 || length >= |rest| then rest else rest[..length])
  }

  function DeleteResult(d: Disk, sha: Sha): Result {
    if !ValidateSHA(sha) then (d, Some(InvalidSha))
    else if sha !in d.blobs then (d, Some(NotFound))
    else (d.(blobs := d.blobs - {sha}), None)
  }

  // Chunks of one string, in any order, overlapping, repeated, or cut off by a failure.
  datatype Chunk = Chunk(offset: nat, length: nat, cut: Option<nat>)

  predicate ChunkOf(c: Chunk, data: Bytes) {
    c.offset + c.length <= |data| && (c.cut.Some? ==> c.cut.value <= c.length)
  }

  function Arrived(c: Chunk): nat { if c.cut.Some? then c.cut.value else c.length }

  function Body(c: Chunk, data: Bytes): Reader
    requires ChunkOf(c, data)
  {
    Reader(data[c.offset..c.offset + Arrived(c)], c.cut.Some?)
  }

  // A chunk that does not complete the upload: cut off, or ending before the total.
  predicate Early(c: Chunk, data: Bytes) {
    ChunkOf(c, data) && (c.cut.Some? || c.offset + c.length < |data|)
  }

  function SendAll(h: Digest, d: Disk, sha: Sha, data: Bytes, chunks: seq<Chunk>, now: int): Disk
    requires forall i :: 0 <= i < |chunks| ==> Early(chunks[i], data)
  {
    if chunks == [] then d
    else
      var n := |chunks| - 1;
      var before := SendAll(h, d, sha, data, chunks[..n], now);
      assert Early(chunks[n], data);
      PutRangeResult(h, before, sha, chunks[n].offset, Body(chunks[n], data), |data|, now).0
  }

  ghost predicate Covered(chunks: seq<Chunk>, i: int) {
    exists j :: 0 <= j < |chunks| && chunks[j].offset <= i < chunks[j].offset + Arrived(chunks[j])
  }

  function PartialData(d: Disk, sha: Sha): Bytes {
    if sha in d.partials then d.partials[sha].data else []
  }

  // What a partial file that began as `stale` reads where nothing has arrived.
  function Untouched(stale: Bytes, i: nat): Byte { if i < |stale| then stale[i] else 0 }

  // The partial file holds what arrived, elsewhere what was there before, zeros beyond that, and
  // reaches as far as either.
  ghost predicate Assembles(partial: Bytes, stale: Bytes, data: Bytes, chunks: seq<Chunk>) {
    && |stale| <= |partial| && (|partial| <= |stale| || |partial| <= |data|)
    && (forall i :: 0 <= i < |partial| ==>
          if Covered(chunks, i) then i < |data| && partial[i] == data[i] else partial[i] == Untouched(stale, i))
    && (forall i :: Covered(chunks, i) ==> 0 <= i < |partial|)
    && (|partial| > |stale| ==> Covered(chunks, |partial| - 1))
  }

  lemma CoveredOneMore(chunks: seq<Chunk>, c: Chunk, i: int)
    ensures Covered(chunks + [c], i) <==> Covered(chunks, i) || c.offset <= i < c.offset + Arrived(c)
  {
    var all := chunks + [c];
    if j :| 0 <= j < |chunks| && chunks[j].offset <= i < chunks[j].offset + Arrived(chunks[j]) {
      assert all[j] == chunks[j];
    }
    assert all[|chunks|] == c;
    assert forall j :: 0 <= j < |chunks| ==> all[j] == chunks[j];
  }

  lemma WriteAssembles(partial: Bytes, stale: Bytes, data: Bytes, chunks: seq<Chunk>, c: Chunk)
    requires Assembles(partial, stale, data, chunks) && ChunkOf(c, data)
    ensures Assembles(WriteAt(partial, c.offset, Body(c, data).data), stale, data, chunks + [c])
  {
    var written := WriteAt(partial, c.offset, Body(c, data).data);
    forall i ensures Covered(chunks + [c], i) <==> Covered(chunks, i) || c.offset <= i < c.offset + Arrived(c) {
      CoveredOneMore(chunks, c, i);
    }
  }

  // One chunk before the total is reached.
  lemma EarlyAnswer(h: Digest, d: Disk, sha: Sha, data: Bytes, c: Chunk, now: int)
    requires ValidateSHA(sha) && Early(c, data)
    ensures var (end, error) := PutRangeResult(h, d, sha, c.offset, Body(c, data), |data|, now);
            && error == Some(if c.cut.Some? then CopyFailed else Incomplete)
            && end.blobs == d.blobs
            && PartialData(end, sha) == WriteAt(PartialData(d, sha), c.offset, Body(c, data).data)
  {
  }

  lemma SendAllOneMore(h: Digest, d: Disk, sha: Sha, data: Bytes, chunks: seq<Chunk>, c: Chunk, now: int)
    requires ValidateSHA(sha) && Early(c, data) && forall i :: 0 <= i < |chunks| ==> Early(chunks[i], data)
    ensures var before, after := SendAll(h, d, sha, data, chunks, now), SendAll(h, d, sha, data, chunks + [c], now);
            after.blobs == before.blobs
            && PartialData(after, sha) == WriteAt(PartialData(before, sha), c.offset, Body(c, data).data)
  {
    assert (chunks + [c])[..|chunks|] == chunks;
    EarlyAnswer(h, SendAll(h, d, sha, data, chunks, now), sha, data, c, now);
  }

  lemma {:induction false} EarlyAssemble(h: Digest, d: Disk, sha: Sha, data: Bytes, chunks: seq<Chunk>, now: int)
    requires ValidateSHA(sha)
    requires forall i :: 0 <= i < |chunks| ==> Early(chunks[i], data)
    ensures Assembles(PartialData(SendAll(h, d, sha, data, chunks, now), sha), PartialData(d, sha), data, chunks)
    ensures SendAll(h, d, sha, data, chunks, now).blobs == d.blobs
  {
    if chunks != [] {
      var pre, last := chunks[..|chunks| - 1], chunks[|chunks| - 1];
      EarlyAssemble(h, d, sha, data, pre, now);
      assert chunks == pre + [last];
      SendAllOneMore(h, d, sha, data, pre, last, now);
      WriteAssembles(PartialData(SendAll(h, d, sha, data, pre, now), sha), PartialData(d, sha), data, pre, last);
    }
  }

  // Until the total is reached every chunk is answered "incomplete" or with its copy error,
  // no blob appears, and the partial file assembles what arrived.
  lemma {:induction false} EarlyChunksAssemble(h: Digest, d: Disk, sha: Sha, data: Bytes, chunks: seq<Chunk>, now: int)
    requires ValidateSHA(sha)
    requires forall i :: 0 <= i < |chunks| ==> Early(chunks[i], data)
    ensures Assembles(PartialData(SendAll(h, d, sha, data, chunks, now), sha), PartialData(d, sha), data, chunks)
    ensures SendAll(h, d, sha, data, chunks, now).blobs == d.blobs
    ensures forall c :: Early(c, data) ==>
              PutRangeResult(h, SendAll(h, d, sha, data, chunks, now), sha, c.offset, Body(c, data), |data|, now).1
              == Some(if c.cut.Some? then CopyFailed else Incomplete)
  {
    EarlyAssemble(h, d, sha, data, chunks, now);
    forall c | Early(c, data)
      ensures PutRangeResult(h, SendAll(h, d, sha, data, chunks, now), sha, c.offset, Body(c, data), |data|, now).1
              == Some(if c.cut.Some? then CopyFailed else Incomplete)
    {
      EarlyAnswer(h, SendAll(h, d, sha, data, chunks, now), sha, data, c, now);
    }
  }

  predicate Completes(c: Chunk, data: Bytes) {
    c.cut.None? && c.offset + c.length == |data|
  }

  // The chunk that reaches the total comes last: the store hashes what has been assembled.
  lemma LastChunkHashes(h: Digest, d: Disk, sha: Sha, data: Bytes, chunks: seq<Chunk>, last: Chunk, now: int)
    requires ValidateSHA(sha)
    requires (forall i :: 0 <= i < |chunks| ==> Early(chunks[i], data)) && Completes(last, data)
    ensures var s := SendAll(h, d, sha, data, chunks, now);
            var file := WriteAt(PartialData(s, sha), last.offset, Body(last, data).data);
            var (end, error) := PutRangeResult(h, s, sha, last.offset, Body(last, data), |data|, now);
            && Assembles(file, PartialData(d, sha), data, chunks + [last])
            && sha !in end.partials
            && (if h(file) == Lower(sha) then error == None && Get(end, sha) == Some(file)
                else error == Some(ShaMismatch) && end.blobs == d.blobs)
  {
    EarlyChunksAssemble(h, d, sha, data, chunks, now);
    WriteAssembles(PartialData(SendAll(h, d, sha, data, chunks, now), sha), PartialData(d, sha), data, chunks, last);
  }

  // If every byte arrived at some time the upload succeeds and Get returns exactly the data,
  // whatever an earlier upload left in the partial file, provided that was not longer than the
  // data: PutRange never truncates, so a longer one fails although every byte arrived.
  lemma ResumableUpload(h: Digest, d: Disk, sha: Sha, data: Bytes, chunks: seq<Chunk>, last: Chunk, now: int)
    requires ValidateSHA(sha) && h(data) == Lower(sha)
    requires (forall i :: 0 <= i < |chunks| ==> Early(chunks[i], data)) && Completes(last, data)
    requires forall i :: 0 <= i < |data| ==> Covered(chunks + [last], i)
    ensures var s := SendAll(h, d, sha, data, chunks, now);
            var (end, error) := PutRangeResult(h, s, sha, last.offset, Body(last, data), |data|, now);
            && sha !in end.partials
            && (|PartialData(d, sha)| <= |data| ==> error == None && Get(end, sha) == Some(data))
            && (|PartialData(d, sha)| > |data| && NoCollision(h, data) ==> error == Some(ShaMismatch) && end.blobs == d.blobs)
  {
    LastChunkHashes(h, d, sha, data, chunks, last, now);
    var s := SendAll(h, d, sha, data, chunks, now);
    AssembledIsDataIff(WriteAt(PartialData(s, sha), last.offset, Body(last, data).data), PartialData(d, sha), data, chunks + [last]);
    if |PartialData(d, sha)| < |data| {
      assert Covered(chunks + [last], |data| - 1);
    }
  }

  ghost predicate NoCollision(h: Digest, data: Bytes) {
    forall x :: h(x) == h(data) ==> x == data
  }

  lemma AssembledIsDataIff(file: Bytes, stale: Bytes, data: Bytes, chunks: seq<Chunk>)
    requires Assembles(file, stale, data, chunks)
    ensures file == data <==>
              && |stale| <= |data| && (|stale| < |data| ==> Covered(chunks, |data| - 1))
              && forall i :: 0 <= i < |data| && !Covered(chunks, i) ==> data[i] == Untouched(stale, i)
  {
    if file == data {
      forall i | 0 <= i < |data| && !Covered(chunks, i) ensures data[i] == Untouched(stale, i) {
        assert file[i] == Untouched(stale, i);
      }
    } else if |file| == |data| {
      var i :| 0 <= i < |data| && file[i] != data[i];
      assert !Covered(chunks, i);
    }
  }

  // In general, over any stale partial file: the upload succeeds exactly when that is not too
  // long and every byte that never arrived happens to be right; otherwise the partial file is
  // thrown away with everything that had arrived.
  lemma UploadSucceedsIff(h: Digest, d: Disk, sha: Sha, data: Bytes, chunks: seq<Chunk>, last: Chunk, now: int)
    requires ValidateSHA(sha) && h(data) == Lower(sha) && NoCollision(h, data)
    requires (forall i :: 0 <= i < |chunks| ==> Early(chunks[i], data)) && Completes(last, data)
    ensures var s := SendAll(h, d, sha, data, chunks, now);
            var stale := PartialData(d, sha);
            var (end, error) := PutRangeResult(h, s, sha, last.offset, Body(last, data), |data|, now);
            && (error == None <==>
                  && |stale| <= |data| && (|stale| < |data| ==> Covered(chunks + [last], |data| - 1))
                  && forall i :: 0 <= i < |data| && !Covered(chunks + [last], i) ==> data[i] == Untouched(stale, i))
            && (error != None ==> error == Some(ShaMismatch) && end.blobs == d.blobs && sha !in end.partials)
  {
    LastChunkHashes(h, d, sha, data, chunks, last, now);
    var s := SendAll(h, d, sha, data, chunks, now);
    AssembledIsDataIff(WriteAt(PartialData(s, sha), last.offset, Body(last, data).data), PartialData(d, sha), data, chunks + [last]);
  }

  // A completed blob's digest is its lower-cased name.
  ghost predicate Intact(h: Digest, d: Disk) {
    forall sha :: sha in d.blobs ==> ValidateSHA(sha) && h(d.blobs[sha].data) == Lower(sha)
  }

  datatype BlobOp =
    | DoPut(sha: Sha, r: Reader, expectedSize: int, now: int)
    | DoPutRange(sha: Sha, offset: int, r: Reader, totalSize: int, now: int)
    | DoDelete(sha: Sha)
    | DoGC(listing: seq<BlobInfo>, refs: set<Sha>, cutoff: int)

  function After(h: Digest, d: Disk, op: BlobOp): Disk {
    match op
    case DoPut(sha, r, expectedSize, now) => PutResult(h, d, sha, r, expectedSize, now).0
    case DoPutRange(sha, offset, r, totalSize, now) => PutRangeResult(h, d, sha, offset, r, totalSize, now).0
    case DoDelete(sha) => DeleteResult(d, sha).0
    case DoGC(listing, refs, cutoff) => Collect(d, listing, refs, cutoff)
  }

  function AfterAll(h: Digest, d: Disk, ops: seq<BlobOp>): Disk {
    if ops == [] then d else After(h, AfterAll(h, d, ops[..|ops| - 1]), ops[|ops| - 1])
  }

  // Every sequence of uploads (failed, short, or over a stale partial), deletions and
  // collections leaves every blob intact.
  lemma {:induction false} BlobsStayIntact(h: Digest, d: Disk, ops: seq<BlobOp>)
    requires Intact(h, d)
    ensures Intact(h, AfterAll(h, d, ops))
  {
    if ops != [] {
      var n := |ops| - 1;
      BlobsStayIntact(h, d, ops[..n]);
      match ops[n]
      case DoGC(listing, refs, cutoff) => CollectExact(AfterAll(h, d, ops[..n]), listing, refs, cutoff);
      case _ =>
    }
  }

  // A whole upload into an intact store: when it is accepted, and what Get then gives. A blob
  // already there is kept, and no other blob or partial upload is touched.
  lemma PutThenGet(h: Digest, d: Disk, sha: Sha, r: Reader, expectedSize: int, now: int)
    requires Intact(h, d)
    ensures var (end, error) := PutResult(h, d, sha, r, expectedSize, now);
            && (error == None <==>
                  ValidateSHA(sha)
                  && (Get(d, sha).Some?
                      || (!r.fails && h(r.data) == Lower(sha) && (expectedSize <= 0 || |r.data| == expectedSize))))
            && (error == None ==> Get(end, sha) == if Get(d, sha).Some? then Get(d, sha) else Some(r.data))
            && (error == None ==> h(Get(end, sha).value) == Lower(sha))
            && (error != None ==> end.blobs == d.blobs)
            && end.blobs - {sha} == d.blobs - {sha} && end.partials - {sha} == d.partials - {sha}
  {
    var (end, error) := PutResult(h, d, sha, r, expectedSize, now);
    assert end.blobs - {sha} == d.blobs - {sha};
    assert end.partials - {sha} == d.partials - {sha};
  }

  // A blob that was not there is as old as its upload.
  lemma PutIsFresh(h: Digest, d: Disk, sha: Sha, r: Reader, expectedSize: int, now: int)
    requires sha !in d.blobs && PutResult(h, d, sha, r, expectedSize, now).1 == None
    ensures var end := PutResult(h, d, sha, r, expectedSize, now).0;
            sha in end.blobs && end.blobs[sha].modTime == now && end.blobs[sha].data == r.data && sha !in end.partials
  {
  }

  // One request of a range upload.
  datatype Piece = Piece(offset: int, r: Reader, total: int, now: int)

  // The answer leaves the partial file in place.
  predicate Keeps(h: Digest, d: Disk, sha: Sha, p: Piece) {
    PutRangeResult(h, d, sha, p.offset, p.r, p.total, p.now).1 in {Some(Incomplete), Some(CopyFailed), Some(SeekFailed)}
  }

  function AfterPieces(h: Digest, d: Disk, sha: Sha, ps: seq<Piece>): Disk {
    if ps == [] then d
    else
      var p := ps[|ps| - 1];
      PutRangeResult(h, AfterPieces(h, d, sha, ps[..|ps| - 1]), sha, p.offset, p.r, p.total, p.now).0
  }

  ghost predicate AllKeep(h: Digest, d: Disk, sha: Sha, ps: seq<Piece>) {
    forall i :: 0 <= i < |ps| ==> Keeps(h, AfterPieces(h, d, sha, ps[..i]), sha, ps[i])
  }

  // When the last bytes arrived, or else when the first request came.
  function LastBytes(ps: seq<Piece>): int
    requires ps != []
  {
    var p := ps[|ps| - 1];
    if p.offset >= 0 && p.r.data != [] then p.now
    else if |ps| == 1 then p.now
    else LastBytes(ps[..|ps| - 1])
  }

  // Of several requests that complete nothing, the partial file is as old as the last that
  // delivered bytes.
  lemma {:induction false} PartialAge(h: Digest, d: Disk, sha: Sha, ps: seq<Piece>)
    requires ValidateSHA(sha) && sha !in d.partials && ps != [] && AllKeep(h, d, sha, ps)
    ensures var end := AfterPieces(h, d, sha, ps); sha in end.partials && end.partials[sha].modTime == LastBytes(ps)
  {
    var n := |ps| - 1;
    var pre := ps[..n];
    assert Keeps(h, AfterPieces(h, d, sha, ps[..n]), sha, ps[n]);
    if n > 0 {
      forall i | 0 <= i < n ensures Keeps(h, AfterPieces(h, d, sha, pre[..i]), sha, pre[i]) {
        assert pre[..i] == ps[..i] && pre[i] == ps[i];
      }
      PartialAge(h, d, sha, pre);
    } else {
      assert pre == [];
    }
  }

  // And the blob that a last request completes is as old as the last bytes.
  lemma PutRangeIsFresh(h: Digest, d: Disk, sha: Sha, ps: seq<Piece>, last: Piece)
    requires ValidateSHA(sha) && sha !in d.partials && AllKeep(h, d, sha, ps)
    requires PutRangeResult(h, AfterPieces(h, d, sha, ps), sha, last.offset, last.r, last.total, last.now).1 == None
    ensures var end := AfterPieces(h, d, sha, ps + [last]);
            sha in end.blobs && end.blobs[sha].modTime == LastBytes(ps + [last]) && sha !in end.partials
  {
    assert (ps + [last])[..|ps|] == ps;
    if ps != [] {
      PartialAge(h, d, sha, ps);
    }
  }

  // What a listing says of a blob.
  datatype BlobInfo = BlobInfo(sha: Sha, size: nat, createdAt: int)

  predicate Truthful(d: Disk, b: BlobInfo) {
    b.sha in d.blobs && b.size == |d.blobs[b.sha].data| && b.createdAt == d.blobs[b.sha].modTime
  }

  // The listing of a disk: every completed blob, once.
  ghost predicate IsListing(d: Disk, listing: seq<BlobInfo>) {
    && (forall i :: 0 <= i < |listing| ==> Truthful(d, listing[i]))
    && (forall i, j :: 0 <= i < j < |listing| ==> listing[i].sha != listing[j].sha)
    && (forall sha :: sha in d.blobs ==> Mentions(listing, sha))
  }

  ghost predicate Mentions(listing: seq<BlobInfo>, sha: Sha) {
    exists i :: 0 <= i < |listing| && listing[i].sha == sha
  }

  // Garbage collection over a listing: unreferenced, and old enough when it was listed.
  predicate Collectable(b: BlobInfo, refs: set<Sha>, cutoff: int) {
    b.sha !in refs && b.createdAt <= cutoff
  }

  function Collect(d: Disk, listing: seq<BlobInfo>, refs: set<Sha>, cutoff: int): Disk {
    if listing == [] then d
    else
      var n := |listing| - 1;
      var before := Collect(d, listing[..n], refs, cutoff);
      if Collectable(listing[n], refs, cutoff) then DeleteResult(before, listing[n].sha).0 else before
  }

  // Some entry of the listing has the blob removed, whatever is in its place by then.
  ghost predicate Condemned(listing: seq<BlobInfo>, refs: set<Sha>, cutoff: int, sha: Sha) {
    ValidateSHA(sha) && exists i :: 0 <= i < |listing| && listing[i].sha == sha && Collectable(listing[i], refs, cutoff)
  }

  lemma CondemnedOneMore(listing: seq<BlobInfo>, b: BlobInfo, refs: set<Sha>, cutoff: int, sha: Sha)
    ensures Condemned(listing + [b], refs, cutoff, sha)
            <==> Condemned(listing, refs, cutoff, sha) || (ValidateSHA(sha) && b.sha == sha && Collectable(b, refs, cutoff))
  {
    var all := listing + [b];
    assert all[|listing|] == b && forall i :: 0 <= i < |listing| ==> all[i] == listing[i];
    if i :| 0 <= i < |listing| && listing[i].sha == sha && Collectable(listing[i], refs, cutoff) {
      assert all[i].sha == sha && Collectable(all[i], refs, cutoff);
    }
  }

  // Exactly the condemned blobs are removed; the rest and all partial uploads stay as they were.
  lemma {:induction false} CollectExact(d: Disk, listing: seq<BlobInfo>, refs: set<Sha>, cutoff: int)
    ensures var end := Collect(d, listing, refs, cutoff);
            && end.partials == d.partials
            && (forall sha :: sha in end.blobs <==> sha in d.blobs && !Condemned(listing, refs, cutoff, sha))
            && (forall sha :: sha in end.blobs ==> end.blobs[sha] == d.blobs[sha])
  {
    if listing != [] {
      var n := |listing| - 1;
      CollectExact(d, listing[..n], refs, cutoff);
      assert listing == listing[..n] + [listing[n]];
      forall sha
        ensures Condemned(listing, refs, cutoff, sha)
                <==> Condemned(listing[..n], refs, cutoff, sha)
                     || (ValidateSHA(sha) && listing[n].sha == sha && Collectable(listing[n], refs, cutoff))
      {
        CondemnedOneMore(listing[..n], listing[n], refs, cutoff, sha);
      }
    }
  }

  // Of the blobs a truthful listing names, exactly those that nothing refers to and that are no
  // younger than the cutoff go.
  lemma CollectedIff(d: Disk, listing: seq<BlobInfo>, refs: set<Sha>, cutoff: int, i: nat)
    requires forall j :: 0 <= j < |listing| ==> Truthful(d, listing[j])
    requires i < |listing| && listing[i].sha in d.blobs && ValidateSHA(listing[i].sha)
    ensures listing[i].sha !in Collect(d, listing, refs, cutoff).blobs
            <==> listing[i].sha !in refs && d.blobs[listing[i].sha].modTime <= cutoff
  {
    CollectExact(d, listing, refs, cutoff);
    assert Truthful(d, listing[i]);
  }

  // Hence no collection removes a blob younger than its cutoff, referenced or not.
  lemma FreshSurvives(d: Disk, listing: seq<BlobInfo>, refs: set<Sha>, cutoff: int, sha: Sha)
    requires forall i :: 0 <= i < |listing| ==> Truthful(d, listing[i])
    requires sha in d.blobs && cutoff < d.blobs[sha].modTime
    ensures var end := Collect(d, listing, refs, cutoff); sha in end.blobs && end.blobs[sha] == d.blobs[sha]
  {
    CollectExact(d, listing, refs, cutoff);
    assert forall i :: 0 <= i < |listing| ==> Truthful(d, listing[i]);
  }

  /** The store object; Put and PutRange run under `mu`. */
  class FS {
    const h: Digest
    var disk: Disk

    constructor (h: Digest)
      ensures this.h == h && disk == Disk(map[], map[])
    {
      this.h := h;
      disk := Disk(map[], map[]);
    }

    method Put(sha: Sha, r: Reader, expectedSize: int, now: int) returns (error: Option<BlobError>)
      modifies this
      ensures (disk, error) == PutResult(h, old(disk), sha, r, expectedSize, now)
    {
      if !ValidateSHA(sha) {
        return Some(InvalidSha);
      }
      if sha in disk.blobs {
        return None;
      }
      var before := disk;
      disk := disk.(partials := disk.partials[sha := File(r.data, now)]);
      if r.fails {
        error := Some(CopyFailed);
      } else if expectedSize > 0 && |r.data| != expectedSize {
        error := Some(SizeMismatch);
      } else if h(r.data) != Lower(sha) {
        error := Some(ShaMismatch);
      } else {
        disk := disk.(blobs := disk.blobs[sha := disk.partials[sha]]);
        error := None;
      }
      disk := disk.(partials := disk.partials - {sha});
      assert disk.partials == before.partials - {sha};
    }

    method PutRange(sha: Sha, offset: int, r: Reader, totalSize: int, now: int) returns (error: Option<BlobError>)
      modifies this
      ensures (disk, error) == PutRangeResult(h, old(disk), sha, offset, r, totalSize, now)
    {
      if !ValidateSHA(sha) {
        return Some(InvalidSha);
      }
      if sha !in disk.partials {
        disk := disk.(partials := disk.partials[sha := File([], now)]);
      }
      if offset < 0 {
        assert disk.partials == old(disk).partials[sha := disk.partials[sha]];
        return Some(SeekFailed);
      }
      var f := disk.partials[sha];
      f := File(WriteAt(f.data, offset, r.data), if r.data == [] then f.modTime else now);
      disk := disk.(partials := disk.partials[sha := f]);
      assert disk.partials == old(disk).partials[sha := f];
      if r.fails {
        return Some(CopyFailed);
      }
      var currentSize := offset + |r.data|;
      if currentSize < totalSize {
        return Some(Incomplete);
      }
      error := None;
      if currentSize != totalSize {
        error := Some(SizeMismatch);
      } else if h(f.data) != Lower(sha) {
        error := Some(ShaMismatch);
      } else {
        disk := disk.(blobs := disk.blobs[sha := f]);
      }
      disk := disk.(partials := disk.partials - {sha});
      assert disk.partials == old(disk).partials - {sha};
    }

    method Delete(sha: Sha) returns (error: Option<BlobError>)
      modifies this
      ensures (disk, error) == DeleteResult(old(disk), sha)
    {
      if !ValidateSHA(sha) {
        return Some(InvalidSha);
      }
      if sha !in disk.blobs {
        return Some(NotFound);
      }
      disk := disk.(blobs := disk.blobs - {sha});
      error := None;
    }

    method List() returns (listing: seq<BlobInfo>)
      ensures IsListing(disk, listing)
    {
      listing := [];
      var todo := disk.blobs.Keys;
      while todo != {}
        invariant todo <= disk.blobs.Keys
        invariant IsListing(Disk(map k | k in disk.blobs && k !in todo :: disk.blobs[k], map[]), listing)
        decreases todo
      {
        var sha :| sha in todo;
        var b := BlobInfo(sha, |disk.blobs[sha].data|, disk.blobs[sha].modTime);
        ListsOneMoreBlob(Disk(map k | k in disk.blobs && k !in todo :: disk.blobs[k], map[]), listing, b, disk.blobs[sha]);
        assert (map k | k in disk.blobs && k !in todo :: disk.blobs[k])[sha := disk.blobs[sha]]
               == map k | k in disk.blobs && k !in todo - {sha} :: disk.blobs[k];
        listing, todo := listing + [b], todo - {sha};
      }
      assert (map k | k in disk.blobs && k !in todo :: disk.blobs[k]) == disk.blobs;
    }

    // One blob of a listing.
    method Visit(b: BlobInfo, refs: set<Sha>, cutoff: int) returns (deleted: bool)
      modifies this
      ensures disk == if Collectable(b, refs, cutoff) then DeleteResult(old(disk), b.sha).0 else old(disk)
      ensures |disk.blobs| == |old(disk).blobs| - if deleted then 1 else 0
    {
      if b.sha in refs || b.createdAt > cutoff {
        return false;
      }
      if b.sha in disk.blobs {
        OneFewer(disk.blobs, b.sha);
      }
      var error := Delete(b.sha);
      deleted := error.None?;
    }

    // The context is cancelled before blob `stop` of the listing, if that exists.
    method GC(refs: set<Sha>, cutoff: int, stop: nat) returns (deleted: nat, ghost listing: seq<BlobInfo>)
      modifies this
      ensures IsListing(old(disk), listing)
      ensures disk == Collect(old(disk), if stop < |listing| then listing[..stop] else listing, refs, cutoff)
      ensures deleted == |old(disk).blobs| - |disk.blobs|
    {
      var blobs := List();
      listing := blobs;
      deleted := Sweep(blobs, refs, cutoff, stop);
    }

    // The loop over the listing.
    method Sweep(blobs: seq<BlobInfo>, refs: set<Sha>, cutoff: int, stop: nat) returns (deleted: nat)
      modifies this
      ensures disk == Collect(old(disk), if stop < |blobs| then blobs[..stop] else blobs, refs, cutoff)
      ensures deleted == |old(disk).blobs| - |disk.blobs|
    {
      deleted := 0;
      var i := 0;
      while i < |blobs| && i != stop
        invariant 0 <= i <= |blobs| && i <= stop
        invariant disk == Collect(old(disk), blobs[..i], refs, cutoff)
        invariant deleted == |old(disk).blobs| - |disk.blobs|
      {
        CollectOneMore(old(disk), blobs, refs, cutoff, i);
        var gone := Visit(blobs[i], refs, cutoff);
        if gone {
          deleted := deleted + 1;
        }
        i := i + 1;
      }
      assert i == |blobs| ==> blobs[..i] == blobs;
    }
  }

  lemma ListsOneMoreBlob(d: Disk, listing: seq<BlobInfo>, b: BlobInfo, f: File)
    requires IsListing(d, listing) && b.sha !in d.blobs && b.size == |f.data| && b.createdAt == f.modTime
    ensures IsListing(Disk(d.blobs[b.sha := f], d.partials), listing + [b])
  {
    var all, d' := listing + [b], Disk(d.blobs[b.sha := f], d.partials);
    forall i | 0 <= i < |all| ensures Truthful(d', all[i]) {
      if i < |listing| { assert Truthful(d, listing[i]); }
    }
    forall i | 0 <= i < |listing| ensures listing[i].sha != b.sha {
      assert Truthful(d, listing[i]);
    }
    forall sha | sha in d'.blobs ensures Mentions(all, sha) {
      if sha == b.sha {
        assert all[|listing|].sha == sha;
      } else {
        assert Mentions(listing, sha);
        var i :| 0 <= i < |listing| && listing[i].sha == sha;
        assert all[i].sha == sha;
      }
    }
  }

  lemma CollectOneMore(d: Disk, listing: seq<BlobInfo>, refs: set<Sha>, cutoff: int, i: nat)
    requires i < |listing|
    ensures var before := Collect(d, listing[..i], refs, cutoff);
            Collect(d, listing[..i + 1], refs, cutoff)
            == if Collectable(listing[i], refs, cutoff) then DeleteResult(before, listing[i].sha).0 else before
  {
    assert listing[..i + 1][..i] == listing[..i];
  }

  lemma OneFewer<K, V>(m: map<K, V>, k: K)
    requires k in m
    ensures |m - {k}| == |m| - 1
  {
    assert (m - {k}).Keys == m.Keys - {k};
    assert |m - {k}| == |(m - {k}).Keys| && |m| == |m.Keys|;
  }

  // The content some row of a listed pair refers to.
  ghost predicate Referenced(t: Table, pairs: seq<PairId>, sha: Sha) {
    exists k: Key :: k in t && k.pair in pairs && k.side in {A, B} && t[k].sha == Some(sha) && sha != ""
  }

  method CollectReferencedSHAs(db: SQLite, pairs: seq<PairId>) returns (refs: set<Sha>)
    ensures forall sha :: sha in refs <==> Referenced(db.fileState, pairs, sha)
  {
    refs := {};
    for i := 0 to |pairs|
      invariant forall sha :: sha in refs <==> Referenced(db.fileState, pairs[..i], sha)
    {
      var a := SideReferences(db, pairs[i], A);
      var b := SideReferences(db, pairs[i], B);
      ReferencedOneMore(db.fileState, pairs, i);
      refs := refs + a + b;
    }
    assert pairs[..|pairs|] == pairs;
  }

  ghost predicate SideReferenced(t: Table, pair: PairId, side: Side, sha: Sha) {
    exists k: Key :: k in t && k.pair == pair && k.side == side && t[k].sha == Some(sha) && sha != ""
  }

  method SideReferences(db: SQLite, pair: PairId, side: Side) returns (refs: set<Sha>)
    ensures forall sha :: sha in refs <==> SideReferenced(db.fileState, pair, side, sha)
  {
    refs := {};
    var states := db.ListFileStates(pair, side);
    for i := 0 to |states|
      invariant forall sha :: sha in refs <==>
        exists j :: 0 <= j < i && states[j].1.sha == Some(sha) && sha != ""
    {
      var sha := states[i].1.sha;
      if sha.Some? && sha.value != "" {
        refs := refs + {sha.value};
      }
    }
    forall sha ensures sha in refs <==> SideReferenced(db.fileState, pair, side, sha) {
      if k: Key :| k in db.fileState && k.pair == pair && k.side == side && db.fileState[k].sha == Some(sha) && sha != "" {
        assert Named(states, k.path);
        var j :| 0 <= j < |states| && states[j].0 == k.path;
        assert states[j].1 == db.fileState[Key(pair, side, states[j].0)];
      }
      if j :| 0 <= j < |states| && states[j].1.sha == Some(sha) && sha != "" {
        assert Key(pair, side, states[j].0) in db.fileState;
      }
    }
  }

  lemma ReferencedOneMore(t: Table, pairs: seq<PairId>, i: nat)
    requires i < |pairs|
    ensures forall sha :: Referenced(t, pairs[..i + 1], sha)
              <==> Referenced(t, pairs[..i], sha) || SideReferenced(t, pairs[i], A, sha) || SideReferenced(t, pairs[i], B, sha)
  {
    assert forall p :: p in pairs[..i + 1] <==> p in pairs[..i] || p == pairs[i];
    forall sha ensures Referenced(t, pairs[..i + 1], sha)
              <==> Referenced(t, pairs[..i], sha) || SideReferenced(t, pairs[i], A, sha) || SideReferenced(t, pairs[i], B, sha)
    {
      if k: Key :| k in t && k.pair in pairs[..i] && k.side in {A, B} && t[k].sha == Some(sha) && sha != "" {
        assert k.pair in pairs[..i + 1];
      }
      if k: Key :| k in t && k.pair == pairs[i] && k.side in {A, B} && t[k].sha == Some(sha) && sha != "" {
        assert k.pair in pairs[..i + 1];
      }
    }
  }

  // While no row changes between collecting the references and the end of the collection, no
  // blob a row of a listed pair refers to goes, and every blob that goes was older than the
  // cutoff when it was listed.
  lemma CollectionIsSafe(d: Disk, listing: seq<BlobInfo>, t: Table, pairs: seq<PairId>, refs: set<Sha>, cutoff: int, sha: Sha)
    requires forall i :: 0 <= i < |listing| ==> Truthful(d, listing[i])
    requires forall x :: x in refs <==> Referenced(t, pairs, x)
    requires sha in d.blobs && sha !in Collect(d, listing, refs, cutoff).blobs
    ensures d.blobs[sha].modTime <= cutoff
    ensures forall k: Key :: k in t && k.pair in pairs && k.side in {A, B} ==> t[k].sha != Some(sha)
  {
    CollectExact(d, listing, refs, cutoff);
    var i :| 0 <= i < |listing| && listing[i].sha == sha && Collectable(listing[i], refs, cutoff);
    assert Truthful(d, listing[i]);
    forall k: Key | k in t && k.pair in pairs && k.side in {A, B} ensures t[k].sha != Some(sha) {
      assert !Referenced(t, pairs, sha);
    }
  }
}
