/** State, counts and download verification of a transfer, told from the events alone. */
module TransferHistory {
  import opened Prelude
  import opened Framing
  import opened ProtoWire
  import opened FileTransfer
  import opened TransferRuns

  // ----- the state -----

  /** The event is about the transfer and may write its state. */
  predicate MayWrite(b: Book, e: Event, id: string) {
    match e
    case ChunkIn(c, written) => Targets(b, c.fileId, id) && written.None?
    case Progress(fileId, _, _, status) => Targets(b, fileId, id) && (status == "uploading" || status == "downloading")
    case Complete(fileId, _, _) => Targets(b, fileId, id)
    case Error(fileId, _) => Targets(b, fileId, id)
    case UploadBegins(other) => other == id
    case UploadFails(other, _) => other == id
    case CancelAgain(other) => other == id
  }

  /** Chunks are ignored: the last event to write the state was a cancellation. */
  predicate Ignores(b: Book, writer: Option<Event>, id: string)
    requires id in b.transfers
  {
    match writer
    case None => b.transfers[id].state == Cancelled
    case Some(e) => e.CancelAgain?
  }

  /** The last event that writes the state; a chunk that cannot be written does so unless it is ignored. */
  function Writer(b: Book, events: seq<Event>, id: string): Option<Event>
    requires id in b.transfers
  {
    if events == [] then None
    else
      var (e, before) := (Last(events), Writer(b, Front(events), id));
      if MayWrite(b, e, id) && !(e.ChunkIn? && Ignores(b, before, id)) then Some(e) else before
  }

  /** State and error are those the writer leaves; some writers leave the error as it is. */
  ghost predicate Left(b: Book, writer: Option<Event>, id: string, info: TransferInfo)
    requires id in b.transfers
  {
    match writer
    case None => info.state == b.transfers[id].state && info.error == b.transfers[id].error
    case Some(ChunkIn(_, _)) => info.state == FailedState && info.error == "Failed to write file"
    case Some(Progress(_, _, _, status)) => info.state == if status == "uploading" then Uploading else Downloading
    case Some(Complete(_, _, matches)) =>
      if matches then info.state == Completed
      else info.state == FailedState && info.error == "Checksum mismatch after transfer"
    case Some(Error(_, message)) => info.state == FailedState && info.error == message
    case Some(UploadBegins(_)) => info.state == Uploading
    case Some(UploadFails(_, message)) => info.state == FailedState && info.error == message
    case Some(CancelAgain(_)) => info.state == Cancelled
  }

  lemma ChunkLeaves(b: Book, now: Book, c: Chunk, written: Option<nat>, id: string)
    requires id in b.transfers && id in now.transfers && now.byFileId == b.byFileId
    ensures var (was, info) := (now.transfers[id], OnChunk(now, c, written).transfers[id]);
            if Targets(b, c.fileId, id) && written.None? && was.state != Cancelled
            then info.state == FailedState && info.error == "Failed to write file"
            else info.state == was.state && info.error == was.error
  {}

  lemma ProgressLeaves(b: Book, now: Book, e: Event, id: string)
    requires id in b.transfers && id in now.transfers && now.byFileId == b.byFileId && e.Progress?
    ensures var (was, info) := (now.transfers[id], Apply(now, e).transfers[id]);
            if MayWrite(b, e, id) then Left(b, Some(e), id, info)
            else info.state == was.state && info.error == was.error
  {}

  lemma EndLeaves(b: Book, now: Book, e: Event, id: string)
    requires id in b.transfers && id in now.transfers && now.byFileId == b.byFileId && (e.Complete? || e.Error?)
    ensures var (was, info) := (now.transfers[id], Apply(now, e).transfers[id]);
            if MayWrite(b, e, id) then Left(b, Some(e), id, info)
            else info.state == was.state && info.error == was.error
  {}

  lemma OwnLeaves(b: Book, now: Book, e: Event, id: string)
    requires id in b.transfers && id in now.transfers && (e.UploadBegins? || e.UploadFails? || e.CancelAgain?)
    ensures var (was, info) := (now.transfers[id], Apply(now, e).transfers[id]);
            if MayWrite(b, e, id) then Left(b, Some(e), id, info)
            else info.state == was.state && info.error == was.error
  {}

  lemma StateStep(b: Book, now: Book, e: Event, writer: Option<Event>, id: string)
    requires id in b.transfers && id in now.transfers && now.byFileId == b.byFileId && id in Apply(now, e).transfers
    requires Left(b, writer, id, now.transfers[id])
    ensures var wrote := MayWrite(b, e, id) && !(e.ChunkIn? && Ignores(b, writer, id));
            Left(b, if wrote then Some(e) else writer, id, Apply(now, e).transfers[id])
  {
    if e.ChunkIn? {
      ChunkLeaves(b, now, e.c, e.written, id);
    } else if e.Progress? {
      ProgressLeaves(b, now, e, id);
    } else if e.Complete? || e.Error? {
      EndLeaves(b, now, e, id);
    } else {
      OwnLeaves(b, now, e, id);
    }
  }

  /** After any events, state and error of a transfer are what the last event that writes them says: a
      completion leaves it completed exactly if its checksum is absent or matches, and failed otherwise. */
  lemma {:induction false} LastWriterDecides(b: Book, events: seq<Event>, id: string)
    requires id in b.transfers
    ensures id in After(b, events).transfers && Left(b, Writer(b, events, id), id, After(b, events).transfers[id])
  {
    AfterShape(b, events);
    if events != [] {
      LastWriterDecides(b, Front(events), id);
      AfterShape(b, Front(events));
      StateStep(b, After(b, Front(events)), Last(events), Writer(b, Front(events), id), id);
    }
  }

  /** A transfer is completed exactly if the last event to write its state was a completion whose
      checksum is absent or matches, or if it was completed and nothing has written since. */
  lemma CompletedIff(b: Book, events: seq<Event>, id: string)
    requires id in b.transfers
    ensures id in After(b, events).transfers
    ensures After(b, events).transfers[id].state == Completed <==>
            match Writer(b, events, id)
            case None => b.transfers[id].state == Completed
            case Some(e) => e.Complete? && e.matches
  {
    LastWriterDecides(b, events, id);
  }

  // ----- the counts -----

  /** The size last announced for the transfer. */
  function Announced(b: Book, events: seq<Event>, id: string): nat
    requires id in b.transfers
  {
    if events == [] then b.transfers[id].fileSize
    else
      match Last(events)
      case Progress(fileId, total, _, _) => if Targets(b, fileId, id) then total else Announced(b, Front(events), id)
      case Complete(fileId, total, _) => if Targets(b, fileId, id) then total else Announced(b, Front(events), id)
      case _ => Announced(b, Front(events), id)
  }

  /** The bytes counted: chunks add up, progress sets the count but never lowers that of an upload, and a
      completion sets it to the size. */
  function Counted(b: Book, events: seq<Event>, id: string): nat
    requires id in b.transfers
  {
    if events == [] then b.transfers[id].bytesTransferred
    else
      var n := Counted(b, Front(events), id);
      match Last(events)
      case ChunkIn(c, written) =>
        if Targets(b, c.fileId, id) && written.Some? && !Ignores(b, Writer(b, Front(events), id), id)
        then (n + |c.data|) % TWO64 else n
      case Progress(fileId, _, done, _) =>
        if !Targets(b, fileId, id) then n
        else if b.transfers[id].direction == UploadDir && done < n then n
        else done
      case Complete(fileId, total, _) => if Targets(b, fileId, id) then total else n
      case _ => n
  }

  lemma SizeStep(b: Book, now: Book, e: Event, id: string)
    requires id in now.transfers && now.byFileId == b.byFileId && id in Apply(now, e).transfers
    ensures var (was, info) := (now.transfers[id], Apply(now, e).transfers[id]);
            && info.direction == was.direction
            && info.fileSize ==
               if (e.Progress? || e.Complete?) && Targets(b, e.fileId, id) then e.total else was.fileSize
  {}

  lemma BytesStep(b: Book, now: Book, e: Event, id: string)
    requires id in now.transfers && now.byFileId == b.byFileId && id in Apply(now, e).transfers
    ensures var (was, n) := (now.transfers[id], now.transfers[id].bytesTransferred);
            Apply(now, e).transfers[id].bytesTransferred ==
            match e
            case ChunkIn(c, written) =>
              if Targets(b, c.fileId, id) && written.Some? && was.state != Cancelled then (n + |c.data|) % TWO64 else n
            case Progress(fileId, _, done, _) =>
              if !Targets(b, fileId, id) || (was.direction == UploadDir && done < n) then n else done
            case Complete(fileId, total, _) => if Targets(b, fileId, id) then total else n
            case _ => n
  {}

  /** Size and byte count of a transfer follow its events. */
  lemma {:induction false} CountsFollow(b: Book, events: seq<Event>, id: string)
    requires id in b.transfers
    ensures id in After(b, events).transfers && After(b, events).transfers[id].direction == b.transfers[id].direction
    ensures After(b, events).transfers[id].fileSize == Announced(b, events, id)
    ensures After(b, events).transfers[id].bytesTransferred == Counted(b, events, id)
  {
    AfterShape(b, events);
    if events != [] {
      CountsFollow(b, Front(events), id);
      AfterShape(b, Front(events));
      LastWriterDecides(b, Front(events), id);
      SizeStep(b, After(b, Front(events)), Last(events), id);
      BytesStep(b, After(b, Front(events)), Last(events), id);
    }
  }
}
