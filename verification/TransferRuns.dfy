/** What becomes of a cancelled transfer, over arbitrary sequences of the events that touch it. */
module TransferRuns {
  import opened Prelude
  import opened Framing
  import opened FileTransfer

  datatype Event =
    | ChunkIn(c: Chunk, written: Option<nat>)
    | Progress(fileId: string, total: nat, done: nat, status: string)
    | Complete(fileId: string, total: nat, matches: bool)
    | Error(fileId: string, message: string)
    | UploadBegins(id: string)
    | UploadFails(id: string, message: string)
    | CancelAgain(id: string)

  function Apply(b: Book, e: Event): Book {
    match e
    case ChunkIn(c, written) => OnChunk(b, c, written)
    case Progress(fileId, total, done, status) => OnProgress(b, fileId, total, done, status)
    case Complete(fileId, total, matches) => OnComplete(b, fileId, total, matches)
    case Error(fileId, message) => OnError(b, fileId, message)
    case UploadBegins(id) => SetState(b, id, Uploading, if id in b.transfers then b.transfers[id].error else "")
    case UploadFails(id, message) => SetState(b, id, FailedState, message)
    case CancelAgain(id) => Cancel(b, id)
  }

  function After(b: Book, events: seq<Event>): Book {
    if events == [] then b else Apply(After(b, Front(events)), Last(events))
  }

  predicate IsCancelled(b: Book, id: string) { id in b.transfers && b.transfers[id].state == Cancelled }

  /** A progress message with one of two statuses, any completion, any error, and the upload thread
      write the state without looking whether the transfer was cancelled. */
  predicate Overwrites(b: Book, e: Event, id: string) {
    match e
    case ChunkIn(_, _) => false
    case Progress(fileId, _, _, status) => Targets(b, fileId, id) && Revives(status)
    case Complete(fileId, _, _) => Targets(b, fileId, id)
    case Error(fileId, _) => Targets(b, fileId, id)
    case UploadBegins(other) => other == id
    case UploadFails(other, _) => other == id
    case CancelAgain(_) => false
  }

  lemma CancelledStep(b: Book, e: Event, id: string)
    requires IsCancelled(b, id)
    ensures IsCancelled(Apply(b, e), id) <==> !Overwrites(b, e, id)
  {}

  /** Events keep which transfers there are, which file ids lead to them, and their local paths. */
  ghost predicate SameShape(b: Book, after: Book) {
    && after.byFileId == b.byFileId && after.transfers.Keys == b.transfers.Keys
    && forall id :: id in b.transfers ==> after.transfers[id].localPath == b.transfers[id].localPath
  }

  lemma ChunkShape(b: Book, c: Chunk, written: Option<nat>)
    ensures SameShape(b, OnChunk(b, c, written))
  {}

  lemma ProgressShape(b: Book, fileId: string, total: nat, done: nat, status: string)
    ensures SameShape(b, OnProgress(b, fileId, total, done, status))
  {}

  lemma EndShape(b: Book, fileId: string, total: nat, matches: bool, message: string)
    ensures SameShape(b, OnComplete(b, fileId, total, matches)) && SameShape(b, OnError(b, fileId, message))
  {}

  lemma StepShape(b: Book, e: Event)
    ensures SameShape(b, Apply(b, e))
  {
    if e.ChunkIn? {
      ChunkShape(b, e.c, e.written);
    } else if e.Progress? {
      ProgressShape(b, e.fileId, e.total, e.done, e.status);
    } else if e.Complete? {
      EndShape(b, e.fileId, e.total, e.matches, "");
    } else if e.Error? {
      EndShape(b, e.fileId, 0, true, e.message);
    }
  }

  lemma {:induction false} AfterShape(b: Book, events: seq<Event>)
    ensures SameShape(b, After(b, events))
  {
    if events != [] {
      AfterShape(b, Front(events));
      StepShape(After(b, Front(events)), Last(events));
    }
  }

  lemma AfterSnoc(b: Book, events: seq<Event>, k: nat)
    requires k < |events|
    ensures After(b, events[..k + 1]) == Apply(After(b, events[..k]), events[k])
  {
    assert Front(events[..k + 1]) == events[..k] && Last(events[..k + 1]) == events[k];
  }

  lemma {:induction false} CancelledUpTo(b: Book, events: seq<Event>, id: string, k: nat)
    requires k <= |events| && IsCancelled(b, id) && forall i :: 0 <= i < k ==> !Overwrites(b, events[i], id)
    ensures IsCancelled(After(b, events[..k]), id)
  {
    if k > 0 {
      CancelledUpTo(b, events, id, k - 1);
      AfterSnoc(b, events, k - 1);
      AfterShape(b, events[..k - 1]);
      CancelledStep(After(b, events[..k - 1]), events[k - 1], id);
    }
  }

  /** A cancelled transfer stays cancelled through any sequence of events if and only if none of them
      overwrites its state. */
  lemma CancelledStaysIff(b: Book, events: seq<Event>, id: string)
    requires IsCancelled(b, id)
    ensures (forall k :: 0 <= k <= |events| ==> IsCancelled(After(b, events[..k]), id)) <==>
            (forall i :: 0 <= i < |events| ==> !Overwrites(b, events[i], id))
  {
    if forall i :: 0 <= i < |events| ==> !Overwrites(b, events[i], id) {
      forall k | 0 <= k <= |events| ensures IsCancelled(After(b, events[..k]), id) {
        CancelledUpTo(b, events, id, k);
      }
    } else if forall k :: 0 <= k <= |events| ==> IsCancelled(After(b, events[..k]), id) {
      var i :| 0 <= i < |events| && Overwrites(b, events[i], id);
      assert IsCancelled(After(b, events[..i]), id) && IsCancelled(After(b, events[..i + 1]), id);
      AfterSnoc(b, events, i);
      AfterShape(b, events[..i]);
      CancelledStep(After(b, events[..i]), events[i], id);
      assert false;
    }
  }

  // ----- what reaches a local file -----

  /** A chunk arrives for a transfer that writes to the path. */
  predicate Arrives(b: Book, e: Event, path: string) {
    e.ChunkIn? && Known(b, e.c.fileId) && b.transfers[b.byFileId[e.c.fileId]].localPath == path
  }

  /** What arrived for the path, of all transfers that write to it, in order. */
  function DataFor(b: Book, events: seq<Event>, path: string): seq<byte> {
    if events == [] then []
    else DataFor(b, Front(events), path) + (if Arrives(b, Last(events), path) then Last(events).c.data else [])
  }

  /** Bytes of an arriving chunk do not reach the file: its transfer is cancelled, the file cannot be
      opened, or the write comes up short. */
  predicate Drops(b: Book, e: Event)
    requires e.ChunkIn? && Known(b, e.c.fileId)
  {
    e.c.data != [] &&
    (IsCancelled(b, b.byFileId[e.c.fileId]) || e.written.None? || e.written.value < |e.c.data|)
  }

  ghost predicate LostAt(b: Book, events: seq<Event>, path: string, k: nat)
    requires k < |events|
  {
    var before := After(b, events[..k]);
    Arrives(b, events[k], path) && Known(before, events[k].c.fileId) && Drops(before, events[k])
  }

  function Reaches(b: Book, e: Event): seq<byte>
    requires e.ChunkIn? && Known(b, e.c.fileId)
  {
    if IsCancelled(b, b.byFileId[e.c.fileId]) || e.written.None? then []
    else e.c.data[..Min(e.written.value, |e.c.data|)]
  }

  lemma ReachesAllUnlessDropped(b: Book, e: Event)
    requires e.ChunkIn? && Known(b, e.c.fileId)
    ensures |Reaches(b, e)| <= |e.c.data|
    ensures if Drops(b, e) then |Reaches(b, e)| < |e.c.data| else Reaches(b, e) == e.c.data
  {
    assert e.c.data[..|e.c.data|] == e.c.data;
  }

  lemma StepWrites(b: Book, e: Event, path: string)
    ensures Contents(Apply(b, e).files, path) ==
            Contents(b.files, path) + (if Arrives(b, e, path) then Reaches(b, e) else [])
  {
    assert Contents(b.files, path) + [] == Contents(b.files, path);
    if e.ChunkIn? {
      ChunkWrites(b, e, path);
    }
  }

  lemma ChunkWrites(b: Book, e: Event, path: string)
    requires e.ChunkIn?
    ensures Contents(OnChunk(b, e.c, e.written).files, path) ==
            Contents(b.files, path) + (if Arrives(b, e, path) then Reaches(b, e) else [])
  {
    assert Contents(b.files, path) + [] == Contents(b.files, path);
  }

  /** The chunk the last event brings, and what it adds to the file. */
  lemma LastWrites(b: Book, events: seq<Event>, path: string)
    requires events != []
    ensures var (before, e) := (After(b, Front(events)), Last(events));
            && (Arrives(b, e, path) <==> Arrives(before, e, path))
            && Contents(After(b, events).files, path) ==
               Contents(before.files, path) + (if Arrives(b, e, path) then Reaches(before, e) else [])
            && (LostAt(b, events, path, |events| - 1) <==> Arrives(b, e, path) && Drops(before, e))
  {
    AfterShape(b, Front(events));
    StepWrites(After(b, Front(events)), Last(events), path);
    assert events[..|events| - 1] == Front(events);
  }

  lemma LostBefore(b: Book, events: seq<Event>, path: string, k: nat)
    requires k + 1 < |events|
    ensures LostAt(b, Front(events), path, k) == LostAt(b, events, path, k)
  {
    assert Front(events)[..k] == events[..k];
  }

  lemma {:induction false} NoneLost(b: Book, events: seq<Event>, path: string)
    requires forall k :: 0 <= k < |events| ==> !LostAt(b, events, path, k)
    ensures Contents(After(b, events).files, path) == Contents(b.files, path) + DataFor(b, events, path)
  {
    var present := Contents(b.files, path);
    if events == [] {
      assert present + [] == present;
    } else {
      forall k: nat | k < |Front(events)| ensures !LostAt(b, Front(events), path, k) {
        LostBefore(b, events, path, k);
      }
      NoneLost(b, Front(events), path);
      LastWrites(b, events, path);
      var more := if Arrives(b, Last(events), path) then Last(events).c.data else [];
      if Arrives(b, Last(events), path) {
        ReachesAllUnlessDropped(After(b, Front(events)), Last(events));
      }
      Reassociate(present, DataFor(b, Front(events), path), more);
    }
  }

  /** Nothing is written that did not arrive; what is lost leaves the file short for good. */
  lemma {:induction false} LostIsMissing(b: Book, events: seq<Event>, path: string, k: int)
    requires k < |events| && (0 <= k ==> LostAt(b, events, path, k))
    ensures var got := |Contents(After(b, events).files, path)|;
            var due := |Contents(b.files, path)| + |DataFor(b, events, path)|;
            got <= due && (0 <= k ==> got < due)
    decreases |events|
  {
    if events != [] {
      if 0 <= k < |events| - 1 {
        LostBefore(b, events, path, k);
      }
      LostIsMissing(b, Front(events), path, if k < |events| - 1 then k else -1);
      LastWrites(b, events, path);
      if Arrives(b, Last(events), path) {
        ReachesAllUnlessDropped(After(b, Front(events)), Last(events));
      }
    }
  }

  /** A local file receives every chunk that arrives for it, in order, if and only if no nonempty one
      arrives while its transfer is cancelled or the file cannot be opened, or is written short. */
  lemma ReceivesAllIffNoneLost(b: Book, events: seq<Event>, path: string)
    ensures Contents(After(b, events).files, path) == Contents(b.files, path) + DataFor(b, events, path) <==>
            forall k :: 0 <= k < |events| ==> !LostAt(b, events, path, k)
  {
    if k :| 0 <= k < |events| && LostAt(b, events, path, k) {
      LostIsMissing(b, events, path, k);
    } else {
      NoneLost(b, events, path);
    }
  }

  /** Cancelling is not final: a progress message revives the download, and the chunks ignored in
      between are missing from the file. */
  lemma RevivedDownloadHasGap(b: Book, fileId: string, path: string, x: Chunk, y: Chunk, total: nat, done: nat)
    requires Open(b, fileId, path) && x.fileId == y.fileId == fileId && x.data != []
    ensures var id := b.byFileId[fileId];
            var ignored := OnChunk(Cancel(b, id), x, Some(|x.data|));
            var after := OnChunk(OnProgress(ignored, fileId, total, done, "downloading"), y, Some(|y.data|));
            && Contents(after.files, path) == Contents(b.files, path) + y.data
            && Contents(after.files, path) != Contents(b.files, path) + x.data + y.data
  {
    assert y.data[..|y.data|] == y.data;
    assert |Contents(b.files, path) + y.data| < |Contents(b.files, path) + x.data + y.data|;
  }
}
