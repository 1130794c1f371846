/** FileTransferManager: cutting a file into upload chunks and appending received chunks. */
module FileTransfer {
  import opened Prelude
  import opened Framing
  import opened ProtoWire

  const CHUNK := MAX_DATA

  datatype Direction = UploadDir | DownloadDir

  datatype TransferState = Pending | Uploading | Downloading | Completed | FailedState | Cancelled

  datatype TransferInfo = TransferInfo(
    fileId: string,
    fileSize: nat,
    bytesTransferred: nat,
    direction: Direction,
    state: TransferState,
    error: string,
    localPath: string)

  // ----- cutting -----

  datatype Chunk = Chunk(fileId: string, index: nat, data: seq<byte>, isLast: bool)

  function Pieces(n: nat): nat { (n + CHUNK - 1) / CHUNK }

  function Piece(content: seq<byte>, k: nat): seq<byte>
    requires k < Pieces(|content|)
  {
    content[k * CHUNK..Min((k + 1) * CHUNK, |content|)]
  }

  /** The chunk sent for a piece; `size` is the file size recorded when the upload was queued. */
  function ChunkOf(fileId: string, content: seq<byte>, size: nat, k: nat): Chunk
    requires k < Pieces(|content|)
  {
    var data := Piece(content, k);
    Chunk(fileId, k % TWO32, data, |data| < CHUNK || k * CHUNK + |data| >= size)
  }

  function ChunksUpTo(fileId: string, content: seq<byte>, size: nat, k: nat): seq<Chunk>
    requires k <= Pieces(|content|)
  {
    if k == 0 then [] else ChunksUpTo(fileId, content, size, k - 1) + [ChunkOf(fileId, content, size, k - 1)]
  }

  function AllChunks(fileId: string, content: seq<byte>, size: nat): seq<Chunk> {
    ChunksUpTo(fileId, content, size, Pieces(|content|))
  }

  lemma PieceBounds(n: nat, k: nat)
    requires k < Pieces(n)
    ensures k * CHUNK < n
    ensures k + 1 < Pieces(n) <==> (k + 1) * CHUNK < n
  {}

  lemma {:induction false} ChunksAt(fileId: string, content: seq<byte>, size: nat, k: nat)
    requires k <= Pieces(|content|)
    ensures |ChunksUpTo(fileId, content, size, k)| == k
    ensures forall i :: 0 <= i < k ==> ChunksUpTo(fileId, content, size, k)[i] == ChunkOf(fileId, content, size, i)
  {
    if k > 0 {
      ChunksAt(fileId, content, size, k - 1);
    }
  }

  /** There are ceil(n / CHUNK) chunks, none for an empty file, numbered from 0, each full but the last. */
  lemma ChunkShapes(fileId: string, content: seq<byte>, size: nat)
    ensures |AllChunks(fileId, content, size)| == Pieces(|content|)
    ensures content == [] <==> AllChunks(fileId, content, size) == []
    ensures forall k :: 0 <= k < Pieces(|content|) ==>
              var c := AllChunks(fileId, content, size)[k];
              && c.fileId == fileId && c.index == k % TWO32
              && 0 < |c.data| <= 61_440 && (k + 1 < Pieces(|content|) ==> |c.data| == 61_440)
  {
    ChunksAt(fileId, content, size, Pieces(|content|));
    forall k: nat | k < Pieces(|content|)
      ensures 0 < |Piece(content, k)| <= CHUNK && (k + 1 < Pieces(|content|) ==> |Piece(content, k)| == CHUNK)
    {
      PieceBounds(|content|, k);
    }
  }

  /** Exactly the final chunk is marked last if and only if the recorded size reaches past the
      pieces before it, and the file ends off a chunk boundary or is as long as recorded. */
  lemma LastMarkExact(fileId: string, content: seq<byte>, size: nat)
    requires content != []
    ensures var (n, p) := (|content|, Pieces(|content|));
            (forall k :: 0 <= k < p ==> (ChunkOf(fileId, content, size, k).isLast <==> k == p - 1)) <==>
            (p == 1 || (p - 1) * CHUNK < size) && (n % CHUNK != 0 || size <= n)
  {
    var (n, p) := (|content|, Pieces(|content|));
    forall k: nat | k < p
      ensures ChunkOf(fileId, content, size, k).isLast <==>
              (if k < p - 1 then size <= (k + 1) * CHUNK else n % CHUNK != 0 || size <= n)
    {
      PieceBounds(n, k);
      LastPieceLength(content, k);
    }
    if p > 1 {
      assert ChunkOf(fileId, content, size, p - 2).isLast <==> size <= (p - 1) * CHUNK;
      forall k: nat | k < p - 1 && (p - 1) * CHUNK < size
        ensures !ChunkOf(fileId, content, size, k).isLast
      {
        assert (k + 1) * CHUNK <= (p - 1) * CHUNK;
      }
    }
    assert ChunkOf(fileId, content, size, p - 1).isLast <==> n % CHUNK != 0 || size <= n;
  }

  lemma LastPieceLength(content: seq<byte>, k: nat)
    requires k < Pieces(|content|)
    ensures k + 1 < Pieces(|content|) ==> |Piece(content, k)| == CHUNK
    ensures k + 1 == Pieces(|content|) ==>
              k * CHUNK + |Piece(content, k)| == |content| && (|Piece(content, k)| < CHUNK <==> |content| % CHUNK != 0)
  {
    PieceBounds(|content|, k);
    if k + 1 == Pieces(|content|) {
      var rest := |content| - k * CHUNK;
      assert 0 < rest <= CHUNK;
      assert |content| == k * CHUNK + rest;
    }
  }

  // ----- the upload loop -----

  type Digest = s: seq<byte> | |s| == 32 witness seq(32, _ => 0)

  /** What one turn of the loop meets: the transfer's state under the lock (None if it was removed),
      the shutdown flag, whether the record still exists when the chunk is sent, checksum and clock. */
  datatype Turn = Turn(seen: Option<TransferState>, shutdown: bool, present: bool, checksum: Digest, now: nat)

  predicate Halts(t: Turn) { t.shutdown || t.seen == Some(Cancelled) || t.seen == Some(FailedState) }

  /** Pieces read before the loop stops. */
  function ReadUpTo(n: nat, turns: seq<Turn>, k: nat): (stop: nat)
    requires k <= Pieces(n) <= |turns|
    ensures k <= stop <= Pieces(n)
    decreases Pieces(n) - k
  {
    if k == Pieces(n) || Halts(turns[k]) then k else ReadUpTo(n, turns, k + 1)
  }

  /** Chunks handed to the send function: those whose record was still there. */
  function Emitted(fileId: string, content: seq<byte>, size: nat, turns: seq<Turn>, k: nat): seq<Chunk>
    requires k <= Pieces(|content|) <= |turns|
  {
    if k == 0 then []
    else
      Emitted(fileId, content, size, turns, k - 1) +
      if turns[k - 1].present then [ChunkOf(fileId, content, size, k - 1)] else []
  }

  /** Undisturbed, the loop emits all chunks; stopped early, a prefix of them. */
  lemma {:induction false} EmitsPrefix(fileId: string, content: seq<byte>, size: nat, turns: seq<Turn>, k: nat)
    requires k <= Pieces(|content|) <= |turns|
    requires forall i :: 0 <= i < k ==> turns[i].present
    ensures Emitted(fileId, content, size, turns, k) == ChunksUpTo(fileId, content, size, k)
    ensures ChunksUpTo(fileId, content, size, k) <= AllChunks(fileId, content, size)
  {
    var p := Pieces(|content|);
    ChunksAt(fileId, content, size, k);
    ChunksAt(fileId, content, size, p);
    var (a, b) := (ChunksUpTo(fileId, content, size, k), AllChunks(fileId, content, size));
    assert a == b[..k];
    if k > 0 {
      EmitsPrefix(fileId, content, size, turns, k - 1);
    }
  }

  lemma {:induction false} UndisturbedReadsAll(n: nat, turns: seq<Turn>, k: nat)
    requires k <= Pieces(n) <= |turns|
    requires forall i :: 0 <= i < Pieces(n) ==> !Halts(turns[i])
    ensures ReadUpTo(n, turns, k) == Pieces(n)
    decreases Pieces(n) - k
  {
    if k < Pieces(n) {
      UndisturbedReadsAll(n, turns, k + 1);
    }
  }

  /** The loop reads exactly the pieces before the first turn that meets a shutdown or sees the transfer
      cancelled or failed, and all pieces if there is no such turn in time. */
  lemma {:induction false} StopsAtFirstHalt(n: nat, turns: seq<Turn>, k: nat)
    requires k <= Pieces(n) <= |turns|
    ensures var stop := ReadUpTo(n, turns, k);
            && (forall i :: k <= i < stop ==>
                  !turns[i].shutdown && turns[i].seen != Some(Cancelled) && turns[i].seen != Some(FailedState))
            && (stop < Pieces(n) ==> turns[stop].shutdown || turns[stop].seen == Some(Cancelled)
                                     || turns[stop].seen == Some(FailedState))
    decreases Pieces(n) - k
  {
    if k < Pieces(n) && !Halts(turns[k]) {
      StopsAtFirstHalt(n, turns, k + 1);
    }
  }

  lemma {:induction false} EmittedShapes(fileId: string, content: seq<byte>, size: nat, turns: seq<Turn>, k: nat)
    requires k <= Pieces(|content|) <= |turns|
    ensures forall c :: c in Emitted(fileId, content, size, turns, k) ==>
              exists i :: 0 <= i < k && turns[i].present && c == ChunkOf(fileId, content, size, i)
  {
    if k > 0 {
      EmittedShapes(fileId, content, size, turns, k - 1);
    }
  }

  /** A cancelled upload stops: no chunk of the turn that sees it cancelled, or of a later one, is sent. */
  lemma CancelledUploadStops(info: TransferInfo, content: seq<byte>, turns: seq<Turn>, k: nat, c: Chunk)
    requires k <= Pieces(|content|) < |turns| && turns[k].seen == Some(Cancelled)
    requires c in Emitted(info.fileId, content, info.fileSize, turns, ReadUpTo(|content|, turns, 0))
    ensures exists i :: 0 <= i < k && turns[i].present && c == ChunkOf(info.fileId, content, info.fileSize, i)
  {
    StopsAtFirstHalt(|content|, turns, 0);
    var stop := ReadUpTo(|content|, turns, 0);
    assert stop <= k;
    EmittedShapes(info.fileId, content, info.fileSize, turns, stop);
  }

  /** `send_file_chunk`: nothing is sent for a record that is gone, or by the oversize branch, which
      is never taken. The probe envelope has no sequence number. */
  method SendFileChunk(c: Chunk, idBytes: seq<byte>, t: Turn) returns (wire: Option<seq<byte>>)
    requires |idBytes| == 32 && |c.data| <= CHUNK && c.index < TWO32 && t.now < TWO64
    ensures wire == if t.present
                    then
                      var chunk := UploadChunk(idBytes, c.index, c.data, c.isLast, t.checksum);
                      Some(EnvelopeBytes(GROTTO, 0, t.now, MT_FILE_UPLOAD, ChunkBytes(GROTTO, chunk)))
                    else None
    ensures wire.Some? ==> |wire.value| <= MAX_FRAME
  {
    if !t.present {
      return None;
    }
    var chunk := UploadChunk(idBytes, c.index, c.data, c.isLast, t.checksum);
    EnvelopeFits(GROTTO, chunk, 0, t.now);
    var probe := EnvelopeBytes(GROTTO, 0, t.now, MT_FILE_UPLOAD, ChunkBytes(GROTTO, chunk));
    if |probe| > MAX_FRAME {
      wire := None;
    } else {
      wire := Some(probe);
    }
  }

  lemma NextPiece(content: seq<byte>, k: nat)
    requires k <= Pieces(|content|) && k * CHUNK < |content|
    ensures k < Pieces(|content|) && content[k * CHUNK..Min(k * CHUNK + CHUNK, |content|)] == Piece(content, k)
    ensures Min((k + 1) * CHUNK, |content|) == k * CHUNK + |Piece(content, k)|
    ensures |Piece(content, k)| < CHUNK ==> k + 1 == Pieces(|content|)
    ensures |Piece(content, k)| == CHUNK ==> (k + 1) * CHUNK <= |content|
  {}

  /** What one turn of the loop that does not halt adds to the pieces read and the chunks sent. */
  lemma NextTurn(info: TransferInfo, content: seq<byte>, turns: seq<Turn>, k: nat)
    requires k < Pieces(|content|) <= |turns| && !Halts(turns[k])
    ensures ReadUpTo(|content|, turns, k) == ReadUpTo(|content|, turns, k + 1)
    ensures Emitted(info.fileId, content, info.fileSize, turns, k + 1) ==
            Emitted(info.fileId, content, info.fileSize, turns, k) +
            (if turns[k].present then [ChunkOf(info.fileId, content, info.fileSize, k)] else [])
  {}

  /** `do_upload` once the file is open: `good` turns false when a read comes up short, so a file
      that ends on a chunk boundary costs one more turn. */
  method DoUpload(info: TransferInfo, content: seq<byte>, idBytes: seq<byte>, turns: seq<Turn>)
    returns (sent: seq<Chunk>, frames: seq<seq<byte>>)
    requires |idBytes| == 32 && Pieces(|content|) < |turns|
    requires forall i :: 0 <= i < |turns| ==> turns[i].now < TWO64
    ensures sent == Emitted(info.fileId, content, info.fileSize, turns, ReadUpTo(|content|, turns, 0))
    ensures |frames| == |sent| && forall i :: 0 <= i < |frames| ==> |frames[i]| <= MAX_FRAME
  {
    sent, frames := [], [];
    var k, totalSent, good := 0, 0, true;
    var n := |content|;
    while good && !turns[k].shutdown
      invariant k <= Pieces(n) && totalSent == Min(k * CHUNK, n)
      invariant good ==> k * CHUNK <= n
      invariant !good ==> k == Pieces(n)
      invariant sent == Emitted(info.fileId, content, info.fileSize, turns, k)
      invariant |frames| == |sent| && forall i :: 0 <= i < |frames| ==> |frames[i]| <= MAX_FRAME
      invariant ReadUpTo(n, turns, 0) == ReadUpTo(n, turns, k)
      decreases good, Pieces(n) - k
    {
      if turns[k].seen == Some(Cancelled) || turns[k].seen == Some(FailedState) {
        return;
      }
      var data := content[totalSent..Min(totalSent + CHUNK, n)];
      if |data| < CHUNK {
        good := false;
      }
      if |data| == 0 {
        break;
      }
      NextPiece(content, k);
      NextTurn(info, content, turns, k);
      var isLast := |data| < CHUNK || totalSent + |data| >= info.fileSize;
      var chunk := Chunk(info.fileId, k % TWO32, data, isLast);
      assert chunk == ChunkOf(info.fileId, content, info.fileSize, k);
      var wire := SendFileChunk(chunk, idBytes, turns[k]);
      if wire.Some? {
        sent, frames := sent + [chunk], frames + [wire.value];
      }
      k, totalSent := k + 1, totalSent + |data|;
    }
  }

  // ----- receiving -----

  datatype Verification = Verification(sawLast: bool, receivedComplete: bool)

  /** The maps the handlers touch, and the local files chunks are appended to. */
  datatype Book = Book(
    transfers: map<string, TransferInfo>,
    byFileId: map<string, string>,
    files: map<string, seq<byte>>,
    verification: map<string, Verification>)

  function VerificationOf(b: Book, fileId: string): Verification {
    if fileId in b.verification then b.verification[fileId] else Verification(false, false)
  }

  function Contents(files: map<string, seq<byte>>, path: string): seq<byte> {
    if path in files then files[path] else []
  }

  /** `written`: how many bytes reach the file, None if it cannot be opened. The code asks only for the
      second, so a short write counts in full. */
  function OnChunk(b: Book, c: Chunk, written: Option<nat>): Book {
    if c.fileId !in b.byFileId || b.byFileId[c.fileId] !in b.transfers then b
    else
      var id := b.byFileId[c.fileId];
      var info := b.transfers[id];
      if info.state == Cancelled then b
      else if written.None? then
        b.(transfers := b.transfers[id := info.(state := FailedState, error := "Failed to write file")])
      else
        var reached := c.data[..Min(written.value, |c.data|)];
        b.(files := b.files[info.localPath := Contents(b.files, info.localPath) + reached],
           transfers := b.transfers[id := info.(bytesTransferred := (info.bytesTransferred + |c.data|) % TWO64)],
           verification := if c.isLast then b.verification[c.fileId := VerificationOf(b, c.fileId).(sawLast := true)]
                           else b.verification)
  }

  function OnChunks(b: Book, cs: seq<Chunk>): Book {
    if cs == [] then b else OnChunk(OnChunks(b, cs[..|cs| - 1]), cs[|cs| - 1], Some(|cs[|cs| - 1].data|))
  }

  /** A download that takes chunks: known by its file id and not cancelled. */
  ghost predicate Open(b: Book, fileId: string, path: string) {
    && fileId in b.byFileId && b.byFileId[fileId] in b.transfers
    && b.transfers[b.byFileId[fileId]].state != Cancelled
    && b.transfers[b.byFileId[fileId]].localPath == path
  }

  function BytesOf(b: Book, fileId: string): nat
    requires fileId in b.byFileId && b.byFileId[fileId] in b.transfers
  {
    b.transfers[b.byFileId[fileId]].bytesTransferred
  }

  /** One of the first k chunks is marked last. */
  predicate Marked(fileId: string, content: seq<byte>, size: nat, k: nat)
    requires k <= Pieces(|content|)
  {
    k > 0 && (ChunkOf(fileId, content, size, k - 1).isLast || Marked(fileId, content, size, k - 1))
  }

  lemma OneChunk(b: Book, c: Chunk, path: string)
    requires Open(b, c.fileId, path)
    ensures var after := OnChunk(b, c, Some(|c.data|));
            && Open(after, c.fileId, path)
            && Contents(after.files, path) == Contents(b.files, path) + c.data
            && BytesOf(after, c.fileId) == (BytesOf(b, c.fileId) + |c.data|) % TWO64
            && (VerificationOf(after, c.fileId).sawLast <==> VerificationOf(b, c.fileId).sawLast || c.isLast)
  {
    assert c.data[..|c.data|] == c.data;
  }

  /** The bytes of a list of chunks, and whether one of them is marked last. */
  function Data(cs: seq<Chunk>): seq<byte> {
    if cs == [] then [] else Data(cs[..|cs| - 1]) + cs[|cs| - 1].data
  }

  predicate AnyLast(cs: seq<Chunk>) {
    cs != [] && (cs[|cs| - 1].isLast || AnyLast(cs[..|cs| - 1]))
  }

  lemma {:induction false} AppendsCount(b: Book, fileId: string, path: string, cs: seq<Chunk>)
    requires Open(b, fileId, path) && BytesOf(b, fileId) < TWO64
    requires forall i :: 0 <= i < |cs| ==> cs[i].fileId == fileId
    ensures Open(OnChunks(b, cs), fileId, path)
    ensures BytesOf(OnChunks(b, cs), fileId) == (BytesOf(b, fileId) + |Data(cs)|) % TWO64
  {
    if cs != [] {
      var (init, c) := (cs[..|cs| - 1], cs[|cs| - 1]);
      AppendsCount(b, fileId, path, init);
      CountsOne(OnChunks(b, init), c, path);
      CountOne(BytesOf(b, fileId), |Data(init)|, |c.data|, BytesOf(OnChunks(b, init), fileId));
    }
  }

  lemma CountsOne(b: Book, c: Chunk, path: string)
    requires Open(b, c.fileId, path)
    ensures var after := OnChunk(b, c, Some(|c.data|));
            Open(after, c.fileId, path) && BytesOf(after, c.fileId) == (BytesOf(b, c.fileId) + |c.data|) % TWO64
  {}

  lemma {:induction false} AppendsData(b: Book, fileId: string, path: string, cs: seq<Chunk>)
    requires Open(b, fileId, path)
    requires forall i :: 0 <= i < |cs| ==> cs[i].fileId == fileId
    ensures var after := OnChunks(b, cs);
            && Open(after, fileId, path)
            && Contents(after.files, path) == Contents(b.files, path) + Data(cs)
            && (VerificationOf(after, fileId).sawLast <==> VerificationOf(b, fileId).sawLast || AnyLast(cs))
  {
    var present := Contents(b.files, path);
    if cs == [] {
      assert present + [] == present;
    } else {
      var (init, c) := (cs[..|cs| - 1], cs[|cs| - 1]);
      AppendsData(b, fileId, path, init);
      OneChunk(OnChunks(b, init), c, path);
      Reassociate(present, Data(init), c.data);
    }
  }

  /** Chunks of an open download append their bytes, whatever their indices say. */
  lemma AppendsAll(b: Book, fileId: string, path: string, cs: seq<Chunk>)
    requires Open(b, fileId, path) && BytesOf(b, fileId) < TWO64
    requires forall i :: 0 <= i < |cs| ==> cs[i].fileId == fileId
    ensures var after := OnChunks(b, cs);
            && Open(after, fileId, path)
            && Contents(after.files, path) == Contents(b.files, path) + Data(cs)
            && BytesOf(after, fileId) == (BytesOf(b, fileId) + |Data(cs)|) % TWO64
            && (VerificationOf(after, fileId).sawLast <==> VerificationOf(b, fileId).sawLast || AnyLast(cs))
  {
    AppendsCount(b, fileId, path, cs);
    AppendsData(b, fileId, path, cs);
  }

  lemma PieceAppends(content: seq<byte>, k: nat)
    requires k < Pieces(|content|)
    ensures content[..Min(k * CHUNK, |content|)] + Piece(content, k) == content[..Min((k + 1) * CHUNK, |content|)]
  {
    PieceBounds(|content|, k);
  }

  /** The pieces put together again are the beginning of the file. */
  lemma {:induction false} PiecesJoin(fileId: string, content: seq<byte>, size: nat, k: nat)
    requires k <= Pieces(|content|)
    ensures Data(ChunksUpTo(fileId, content, size, k)) == content[..Min(k * CHUNK, |content|)]
    ensures AnyLast(ChunksUpTo(fileId, content, size, k)) == Marked(fileId, content, size, k)
  {
    if k > 0 {
      PiecesJoin(fileId, content, size, k - 1);
      PieceAppends(content, k - 1);
      var (cs, c) := (ChunksUpTo(fileId, content, size, k), ChunkOf(fileId, content, size, k - 1));
      assert cs[..|cs| - 1] == ChunksUpTo(fileId, content, size, k - 1) && cs[|cs| - 1] == c;
    }
  }

  lemma CountOne(start: nat, before: nat, more: nat, count: nat)
    requires count == (start + before) % TWO64
    ensures (count + more) % TWO64 == (start + (before + more)) % TWO64
  {
    AddMod(start + before, more);
  }

  lemma AddMod(a: nat, b: nat)
    ensures (a % TWO64 + b) % TWO64 == (a + b) % TWO64
  {}

  /** Uploading a nonempty unchanged file and appending its chunks to an empty local file restores
      the bytes, counts them, and reports the last chunk. */
  lemma ChunkingRoundTrip(b: Book, fileId: string, path: string, content: seq<byte>)
    requires Open(b, fileId, path) && Contents(b.files, path) == [] && BytesOf(b, fileId) == 0
    requires content != [] && |content| < TWO64
    ensures var after := OnChunks(b, AllChunks(fileId, content, |content|));
            && Contents(after.files, path) == content
            && Open(after, fileId, path) && BytesOf(after, fileId) == |content|
            && VerificationOf(after, fileId).sawLast
  {
    var all := AllChunks(fileId, content, |content|);
    AllForFile(fileId, content);
    WholeFile(fileId, content);
    AppendsAll(b, fileId, path, all);
    assert [] + content == content;
    AddMod(0, |content|);
  }

  /** What an uncancelled, unfailed upload of a nonempty unchanged file sends restores that file. */
  lemma UploadRestores(b: Book, fileId: string, path: string, content: seq<byte>, turns: seq<Turn>)
    requires Open(b, fileId, path) && Contents(b.files, path) == [] && BytesOf(b, fileId) == 0
    requires content != [] && |content| < TWO64 && Pieces(|content|) <= |turns|
    requires forall i :: 0 <= i < Pieces(|content|) ==> !Halts(turns[i]) && turns[i].present
    ensures var sent := Emitted(fileId, content, |content|, turns, ReadUpTo(|content|, turns, 0));
            var after := OnChunks(b, sent);
            && |sent| == Pieces(|content|)
            && Contents(after.files, path) == content
            && Open(after, fileId, path) && BytesOf(after, fileId) == |content|
            && VerificationOf(after, fileId).sawLast
  {
    UndisturbedReadsAll(|content|, turns, 0);
    EmitsPrefix(fileId, content, |content|, turns, Pieces(|content|));
    ChunksAt(fileId, content, |content|, Pieces(|content|));
    ChunkingRoundTrip(b, fileId, path, content);
  }

  lemma AllForFile(fileId: string, content: seq<byte>)
    ensures forall i :: 0 <= i < |AllChunks(fileId, content, |content|)| ==>
              AllChunks(fileId, content, |content|)[i].fileId == fileId
  {
    ChunksAt(fileId, content, |content|, Pieces(|content|));
  }

  lemma WholeFile(fileId: string, content: seq<byte>)
    requires content != []
    ensures Data(AllChunks(fileId, content, |content|)) == content && AnyLast(AllChunks(fileId, content, |content|))
  {
    PiecesJoin(fileId, content, |content|, Pieces(|content|));
    UnchangedMarks(fileId, content);
  }

  /** In an unchanged file exactly the final chunk is marked last. */
  lemma UnchangedMarks(fileId: string, content: seq<byte>)
    requires content != []
    ensures Min(Pieces(|content|) * CHUNK, |content|) == |content|
    ensures Marked(fileId, content, |content|, Pieces(|content|))
    ensures forall k :: 0 <= k < Pieces(|content|) ==>
              (ChunkOf(fileId, content, |content|, k).isLast <==> k == Pieces(|content|) - 1)
  {
    var p := Pieces(|content|);
    PieceBounds(|content|, p - 1);
    LastMarkExact(fileId, content, |content|);
    assert ChunkOf(fileId, content, |content|, p - 1).isLast;
  }

  // ----- what becomes of a cancelled transfer -----

  function Cancel(b: Book, id: string): Book {
    if id in b.transfers then b.(transfers := b.transfers[id := b.transfers[id].(state := Cancelled)]) else b
  }

  /** The message is about the transfer. */
  predicate Targets(b: Book, fileId: string, id: string) { fileId in b.byFileId && b.byFileId[fileId] == id }

  function Known(b: Book, fileId: string): bool { fileId in b.byFileId && b.byFileId[fileId] in b.transfers }

  predicate Revives(status: string) { status == "uploading" || status == "downloading" }

  function OnProgress(b: Book, fileId: string, total: nat, done: nat, status: string): Book {
    if !Known(b, fileId) then b
    else
      var id := b.byFileId[fileId];
      var info := b.transfers[id];
      var state := if status == "uploading" then Uploading
                   else if status == "downloading" then Downloading else info.state;
      var bytes := if info.direction == UploadDir then Max(info.bytesTransferred, done) else done;
      b.(transfers := b.transfers[id := info.(fileSize := total, bytesTransferred := bytes, state := state)])
  }

  /** `matches`: the message has no checksum, or the local file has it. */
  function OnComplete(b: Book, fileId: string, total: nat, matches: bool): Book {
    if !Known(b, fileId) then b
    else
      var id := b.byFileId[fileId];
      var info := b.transfers[id].(bytesTransferred := total, fileSize := total);
      b.(transfers := b.transfers[id := if matches then info.(state := Completed)
                                        else info.(state := FailedState, error := "Checksum mismatch after transfer")],
         verification := if fileId !in b.verification then b.verification
                         else b.verification[fileId := b.verification[fileId].(receivedComplete := true)])
  }

  function OnError(b: Book, fileId: string, message: string): Book {
    if !Known(b, fileId) then b
    else
      var id := b.byFileId[fileId];
      var info := b.transfers[id];
      if info.state == FailedState && info.error == message then b
      else
        b.(transfers := b.transfers[id := info.(state := FailedState, error := message)],
           verification := b.verification - {fileId})
  }

  /** `do_upload` sets the state at its start, and again when it cannot go on. */
  function SetState(b: Book, id: string, state: TransferState, error: string): Book {
    if id !in b.transfers then b
    else b.(transfers := b.transfers[id := b.transfers[id].(state := state, error := error)])
  }

  class FileTransferManager {
    var transfers: map<string, TransferInfo>
    var fileIdToTransfer: map<string, string>
    var downloadVerification: map<string, Verification>
    /** The part of the file system the transfers write to. */
    var files: map<string, seq<byte>>

    constructor ()
      ensures Records() == Book(map[], map[], map[], map[])
    {
      transfers, fileIdToTransfer, downloadVerification, files := map[], map[], map[], map[];
    }

    ghost function Records(): Book reads this { Book(transfers, fileIdToTransfer, files, downloadVerification) }

    method CancelTransfer(id: string)
      modifies this`transfers
      ensures Records() == Cancel(old(Records()), id)
    {
      if id in transfers {
        transfers := transfers[id := transfers[id].(state := Cancelled)];
      }
    }

    method OnFileChunk(chunk: Chunk, written: Option<nat>)
      modifies this`transfers, this`downloadVerification, this`files
      ensures Records() == OnChunk(old(Records()), chunk, written)
    {
      if chunk.fileId !in fileIdToTransfer {
        return;
      }
      var id := fileIdToTransfer[chunk.fileId];
      if id !in transfers || transfers[id].state == Cancelled {
        return;
      }
      var info := transfers[id];
      if written.None? {
        transfers := transfers[id := info.(state := FailedState, error := "Failed to write file")];
        return;
      }
      var present := if info.localPath in files then files[info.localPath] else [];
      files := files[info.localPath := present + chunk.data[..Min(written.value, |chunk.data|)]];
      transfers := transfers[id := info.(bytesTransferred := (info.bytesTransferred + |chunk.data|) % TWO64)];
      if chunk.isLast {
        var v := if chunk.fileId in downloadVerification then downloadVerification[chunk.fileId]
                 else Verification(false, false);
        downloadVerification := downloadVerification[chunk.fileId := v.(sawLast := true)];
      }
    }

    method OnFileProgress(fileId: string, total: nat, done: nat, status: string)
      modifies this`transfers
      ensures Records() == OnProgress(old(Records()), fileId, total, done, status)
    {
      if fileId !in fileIdToTransfer || fileIdToTransfer[fileId] !in transfers {
        return;
      }
      var id := fileIdToTransfer[fileId];
      var info := transfers[id].(fileSize := total);
      if info.direction == UploadDir {
        info := info.(bytesTransferred := Max(info.bytesTransferred, done));
      } else {
        info := info.(bytesTransferred := done);
      }
      if status == "uploading" {
        info := info.(state := Uploading);
      } else if status == "downloading" {
        info := info.(state := Downloading);
      }
      transfers := transfers[id := info];
    }

    method OnFileComplete(fileId: string, total: nat, matches: bool)
      modifies this`transfers, this`downloadVerification
      ensures Records() == OnComplete(old(Records()), fileId, total, matches)
      ensures Known(old(Records()), fileId) ==>
                && var (was, info) := (old(transfers)[fileIdToTransfer[fileId]], transfers[fileIdToTransfer[fileId]]);
                && info.fileSize == info.bytesTransferred == total
                && (if matches then info.state == Completed && info.error == was.error
                    else info.state == FailedState && info.error == "Checksum mismatch after transfer")
                && (fileId in old(downloadVerification) ==> downloadVerification[fileId].receivedComplete)
    {
      if fileId !in fileIdToTransfer || fileIdToTransfer[fileId] !in transfers {
        return;
      }
      var id := fileIdToTransfer[fileId];
      var info := transfers[id].(bytesTransferred := total, fileSize := total);
      if fileId in downloadVerification {
        downloadVerification := downloadVerification[fileId := downloadVerification[fileId].(receivedComplete := true)];
      }
      if !matches {
        transfers := transfers[id := info.(state := FailedState, error := "Checksum mismatch after transfer")];
        return;
      }
      transfers := transfers[id := info.(state := Completed)];
    }

    method OnFileError(fileId: string, message: string)
      modifies this`transfers, this`downloadVerification
      ensures Records() == OnError(old(Records()), fileId, message)
    {
      if fileId !in fileIdToTransfer || fileIdToTransfer[fileId] !in transfers {
        return;
      }
      var id := fileIdToTransfer[fileId];
      if transfers[id].state == FailedState && transfers[id].error == message {
        return;
      }
      transfers := transfers[id := transfers[id].(state := FailedState, error := message)];
      downloadVerification := downloadVerification - {fileId};
    }
  }
}
