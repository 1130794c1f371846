/** Which receipts are accepted, where the read mark is and which time it carries, told from the events. */
module MarkHistory {
  import opened Prelude
  import opened ReadMarker

  /** The message is the local user's chat message of that identifier. */
  predicate Bears(m: Message, local: string, id: string) { m.kind == Chat && m.senderId == local && m.messageId == id }

  /** Position of the last message from `lo` on that bears the identifier; -1 if there is none. */
  function LastBearing(history: seq<Message>, local: string, id: string, lo: nat): (p: int)
    ensures -1 <= p < |history| && (p >= 0 ==> lo <= p && Bears(history[p], local, id))
    ensures forall q :: lo <= q < |history| && p < q ==> !Bears(history[q], local, id)
  {
    if |history| <= lo then -1
    else if Bears(Last(history), local, id) then |history| - 1
    else LastBearing(Front(history), local, id, lo)
  }

  /** What a receipt names: the last such message among the last thousand pushes; nothing if it names none. */
  function Named(history: seq<Message>, local: string, id: string): int {
    if id == "" then -1 else LastBearing(history, local, id, |history| - Min(|history|, 1000))
  }

  /** The furthest position any receipt has named. */
  function FurthestNamed(events: seq<Event>, local: string): int {
    if events == [] then -1
    else
      var before := FurthestNamed(Front(events), local);
      match Last(events)
      case Push(_) => before
      case Receipt(id, _) => Max(before, Named(History(Front(events)), local, id))
  }

  /** The time of the last receipt that named a message at or beyond all those named before. */
  function TimeNamed(events: seq<Event>, local: string): int {
    if events == [] then 0
    else
      match Last(events)
      case Push(_) => TimeNamed(Front(events), local)
      case Receipt(id, at) =>
        var named := Named(History(Front(events)), local, id);
        if named >= 0 && named >= FurthestNamed(Front(events), local) then Max(0, at)
        else TimeNamed(Front(events), local)
  }

  lemma TargetIs(msgs: seq<Message>, local: string, id: string, k: int)
    requires -1 <= k < |msgs| && (k >= 0 ==> Bears(msgs[k], local, id))
    requires forall j :: k < j < |msgs| && 0 <= j ==> !Bears(msgs[j], local, id)
    ensures LastTarget(msgs, local, id) == k
  {}

  lemma NamedIsTarget(msgs: seq<Message>, history: seq<Message>, local: string, id: string)
    requires Mirrors(msgs, history) && id != ""
    ensures LastTarget(msgs, local, id) == Max(-1, Named(history, local, id) - (|history| - |msgs|))
  {
    var (n, off) := (Named(history, local, id), |history| - |msgs|);
    assert forall j :: 0 <= j < |msgs| ==> (Bears(msgs[j], local, id) <==> Bears(Bare(msgs[j]), local, id));
    forall j | 0 <= j < |msgs| ensures Bears(msgs[j], local, id) <==> Bears(history[j + off], local, id) {
      assert Bare(msgs[j]) == history[j + |history| - |msgs|];
    }
    TargetIs(msgs, local, id, Max(-1, n - off));
  }

  /** A receipt is accepted exactly if it names a chat message of the local user among the last thousand
      messages of the channel, and names anything at all. */
  lemma AcceptedIffNamed(events: seq<Event>, local: string, id: string)
    requires Fresh(events)
    ensures Accepts(After(events, local), local, id) <==> Named(History(events), local, id) >= 0
  {
    DequeIsTail(events, local);
    if id != "" {
      NamedIsTarget(After(events, local), History(events), local, id);
    }
  }

  /** The mark is on the named message, unless the cap has dropped it. */
  ghost predicate MarkOn(msgs: seq<Message>, history: seq<Message>, local: string, named: int) {
    -1 <= named < |history| && LastMarked(msgs, local) == Max(-1, named - (|history| - |msgs|))
  }

  lemma PushKeepsMark(msgs: seq<Message>, history: seq<Message>, local: string, named: int, m: Message)
    requires Mirrors(msgs, history) && MarkOn(msgs, history, local, named) && !m.readByRemote
    ensures MarkOn(Pushed(msgs, m), history + [m], local, named)
  {
    MarkAfterPush(msgs, m, local);
  }

  lemma ReceiptMovesMark(msgs: seq<Message>, history: seq<Message>, local: string, named: int, id: string, at: int)
    requires Mirrors(msgs, history) && MarkOn(msgs, history, local, named)
    ensures MarkOn(Received(msgs, local, id, at), history, local, Max(named, Named(history, local, id)))
  {
    MarkAfterReceipt(msgs, local, id, at);
    if id != "" {
      NamedIsTarget(msgs, history, local, id);
    }
  }

  lemma {:induction false} MarkFollows(events: seq<Event>, local: string)
    requires Fresh(events)
    ensures MarkOn(After(events, local), History(events), local, FurthestNamed(events, local))
  {
    if events != [] {
      MarkFollows(Front(events), local);
      DequeIsTail(Front(events), local);
      var (msgs, history) := (After(Front(events), local), History(Front(events)));
      var named := FurthestNamed(Front(events), local);
      if Last(events).Push? {
        assert !Last(events).m.readByRemote;
        PushKeepsMark(msgs, history, local, named, Last(events).m);
      } else {
        assert history + [] == history;
        ReceiptMovesMark(msgs, history, local, named, Last(events).id, Last(events).at);
      }
    }
  }

  /** The marked message is the furthest that any receipt has named, at its place in the history of all
      pushes; there is no mark exactly if nothing has been named or the cap has dropped that message. */
  lemma MarkIsNamed(events: seq<Event>, local: string)
    requires Fresh(events)
    ensures var (named, n) := (FurthestNamed(events, local), |History(events)|);
            MarkPosition(events, local) == if named >= n - 1000 then named else -1
  {
    MarkFollows(events, local);
    DequeIsTail(events, local);
  }

  // ----- the read time -----

  /** The read time at the mark, 0 without one. */
  function TimeAtMark(msgs: seq<Message>, local: string): int {
    var k := LastMarked(msgs, local);
    if k < 0 then 0 else msgs[k].readAtMs
  }

  lemma TimeAfterPush(msgs: seq<Message>, m: Message, local: string)
    requires !m.readByRemote && LastMarked(Pushed(msgs, m), local) >= 0
    ensures LastMarked(msgs, local) >= 0 && TimeAtMark(Pushed(msgs, m), local) == TimeAtMark(msgs, local)
  {
    MarkAfterPush(msgs, m, local);
  }

  /** A receipt sets the time exactly if what it names is no nearer than all that was named before. */
  lemma TimeAfterReceipt(msgs: seq<Message>, history: seq<Message>, local: string, named: int, id: string, at: int)
    requires Mirrors(msgs, history) && MarkOn(msgs, history, local, named)
    ensures var now := Named(history, local, id);
            TimeAtMark(Received(msgs, local, id, at), local) ==
            if now >= 0 && now >= named then Max(0, at) else TimeAtMark(msgs, local)
  {
    if id != "" {
      NamedIsTarget(msgs, history, local, id);
    }
    if Accepts(msgs, local, id) && LastMarked(msgs, local) <= LastTarget(msgs, local, id) {
      TimeSet(msgs, local, id, at);
    }
  }

  lemma MarkStaysAfterReceipt(msgs: seq<Message>, history: seq<Message>, local: string, named: int, id: string, at: int)
    requires Mirrors(msgs, history) && MarkOn(msgs, history, local, named)
    requires LastMarked(Received(msgs, local, id, at), local) >= 0
    requires !(Named(history, local, id) >= 0 && Named(history, local, id) >= named)
    ensures LastMarked(msgs, local) >= 0
  {
    ReceiptMovesMark(msgs, history, local, named, id, at);
  }

  /** A retained mark carries the time of the last receipt that named it, or of the one that was the first
      to go beyond all before. */
  lemma {:induction false} TimeIsNamed(events: seq<Event>, local: string)
    requires Fresh(events) && LastMarked(After(events, local), local) >= 0
    ensures TimeAtMark(After(events, local), local) == TimeNamed(events, local)
  {
    assert events != [];
    var (msgs, history) := (After(Front(events), local), History(Front(events)));
    var named := FurthestNamed(Front(events), local);
    if Last(events).Push? {
      assert !Last(events).m.readByRemote;
      TimeAfterPush(msgs, Last(events).m, local);
      TimeIsNamed(Front(events), local);
    } else {
      var (id, at) := (Last(events).id, Last(events).at);
      DequeIsTail(Front(events), local);
      MarkFollows(Front(events), local);
      TimeAfterReceipt(msgs, history, local, named, id, at);
      if !(Named(history, local, id) >= 0 && Named(history, local, id) >= named) {
        MarkStaysAfterReceipt(msgs, history, local, named, id, at);
        TimeIsNamed(Front(events), local);
      }
    }
  }
}
