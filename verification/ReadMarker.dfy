/** One channel's bounded history and the marker of the last message the other side has read. */
module ReadMarker {
  import opened Prelude

  const MaxMessages: nat := 1000

  datatype Kind = Chat | System | VoiceEvent | Preview

  datatype Message = Message(kind: Kind, senderId: string, messageId: string, content: string,
                             readByRemote: bool, readAtMs: int)

  predicate Mine(m: Message, local: string) { m.kind == Chat && m.senderId == local }

  predicate IsMarked(m: Message, local: string) { Mine(m, local) && m.readByRemote }

  predicate IsTarget(m: Message, local: string, id: string) { Mine(m, local) && m.messageId == id }

  /** Index of the last marked message of the local user, -1 if none. */
  function LastMarked(msgs: seq<Message>, local: string): (i: int)
    ensures -1 <= i < |msgs|
    ensures i >= 0 ==> IsMarked(msgs[i], local)
    ensures forall j :: i < j < |msgs| ==> !IsMarked(msgs[j], local)
  {
    if msgs == [] then -1
    else if IsMarked(msgs[|msgs| - 1], local) then |msgs| - 1
    else LastMarked(msgs[..|msgs| - 1], local)
  }

  function LastTarget(msgs: seq<Message>, local: string, id: string): (i: int)
    ensures -1 <= i < |msgs|
    ensures i >= 0 ==> IsTarget(msgs[i], local, id)
    ensures forall j :: i < j < |msgs| ==> !IsTarget(msgs[j], local, id)
  {
    if msgs == [] then -1
    else if IsTarget(msgs[|msgs| - 1], local, id) then |msgs| - 1
    else LastTarget(msgs[..|msgs| - 1], local, id)
  }

  function Cleared(m: Message, local: string): Message {
    if Mine(m, local) then m.(readByRemote := false, readAtMs := 0) else m
  }

  /** The clearing loop resets the target too, so the larger of its read time and the new one is
      the larger of zero and the new one. */
  function Remarked(msgs: seq<Message>, local: string, target: nat, at: int): (r: seq<Message>)
    requires target < |msgs|
    ensures |r| == |msgs|
    ensures forall i :: 0 <= i < |msgs| && i != target ==> r[i] == Cleared(msgs[i], local)
    ensures var m := Cleared(msgs[target], local);
            r[target] == m.(readByRemote := true, readAtMs := Max(m.readAtMs, at))
  {
    var cleared := seq(|msgs|, i requires 0 <= i < |msgs| => Cleared(msgs[i], local));
    cleared[target := cleared[target].(readByRemote := true, readAtMs := Max(cleared[target].readAtMs, at))]
  }

  function Accepts(msgs: seq<Message>, local: string, id: string): bool { id != "" && LastTarget(msgs, local, id) >= 0 }

  function Received(msgs: seq<Message>, local: string, id: string, at: int): seq<Message> {
    var target := LastTarget(msgs, local, id);
    if !Accepts(msgs, local, id) || LastMarked(msgs, local) > target then msgs
    else Remarked(msgs, local, target, at)
  }

  function Pushed(msgs: seq<Message>, m: Message): seq<Message> {
    var all := msgs + [m];
    if |all| > MaxMessages then all[1..] else all
  }

  // ----- runs -----

  datatype Event = Push(m: Message) | Receipt(id: string, at: int)

  function After(events: seq<Event>, local: string): seq<Message> {
    if events == [] then []
    else
      match Last(events)
      case Push(m) => Pushed(After(Front(events), local), m)
      case Receipt(id, at) => Received(After(Front(events), local), local, id, at)
  }

  /** Everything ever pushed, in order. */
  function History(events: seq<Event>): seq<Message> {
    if events == [] then []
    else History(Front(events)) + (if Last(events).Push? then [Last(events).m] else [])
  }

  /** Messages arrive unread. */
  ghost predicate Fresh(events: seq<Event>) {
    forall i :: 0 <= i < |events| && events[i].Push? ==> !events[i].m.readByRemote && events[i].m.readAtMs == 0
  }

  function Bare(m: Message): Message { m.(readByRemote := false, readAtMs := 0) }

  function Kept(history: seq<Message>): nat { Min(|history|, MaxMessages) }

  ghost predicate Mirrors(msgs: seq<Message>, history: seq<Message>) {
    && |msgs| == Kept(history)
    && forall i :: 0 <= i < |msgs| ==> Bare(msgs[i]) == history[i + |history| - |msgs|]
  }

  /** The deque is exactly the last pushes, at most a thousand of them. */
  lemma {:induction false} DequeIsTail(events: seq<Event>, local: string)
    requires Fresh(events)
    ensures Mirrors(After(events, local), History(events))
  {
    if events != [] {
      DequeIsTail(Front(events), local);
      var (msgs, history) := (After(Front(events), local), History(Front(events)));
      if Last(events).Push? {
        assert !Last(events).m.readByRemote;
        PushMirrors(msgs, history, Last(events).m);
      } else {
        assert History(events) == history;
        ReceiptMirrors(msgs, history, local, Last(events).id, Last(events).at);
      }
    }
  }

  lemma PushMirrors(msgs: seq<Message>, history: seq<Message>, m: Message)
    requires Mirrors(msgs, history) && Bare(m) == m
    ensures Mirrors(Pushed(msgs, m), history + [m])
  {
    var after := Pushed(msgs, m);
    var drop := |msgs| + 1 - |after|;
    forall i | 0 <= i < |after| ensures Bare(after[i]) == (history + [m])[i + |history| + 1 - |after|] {
      if i + drop < |msgs| {
        assert after[i] == msgs[i + drop];
      }
    }
  }

  lemma ReceiptMirrors(msgs: seq<Message>, history: seq<Message>, local: string, id: string, at: int)
    requires Mirrors(msgs, history)
    ensures Mirrors(Received(msgs, local, id, at), history)
  {
    var after := Received(msgs, local, id, at);
    assert |after| == |msgs|;
    assert forall i :: 0 <= i < |msgs| ==> Bare(after[i]) == Bare(msgs[i]);
  }

  ghost predicate OneMarked(msgs: seq<Message>, local: string) {
    forall i, j :: 0 <= i < |msgs| && 0 <= j < |msgs| && IsMarked(msgs[i], local) && IsMarked(msgs[j], local) ==> i == j
  }

  /** No more than one message of the local user is ever marked. */
  lemma {:induction false} AtMostOneMarked(events: seq<Event>, local: string)
    requires Fresh(events)
    ensures OneMarked(After(events, local), local)
  {
    if events != [] {
      AtMostOneMarked(Front(events), local);
      if Last(events).Push? {
        assert !Last(events).m.readByRemote;
      }
    }
  }

  /** Position, in the history of all pushes, of the marked message; -1 if none is retained. */
  function MarkPosition(events: seq<Event>, local: string): int {
    var msgs := After(events, local);
    if LastMarked(msgs, local) < 0 then -1 else |History(events)| - |msgs| + LastMarked(msgs, local)
  }

  /** The furthest position ever marked. */
  function Furthest(events: seq<Event>, local: string): int {
    if events == [] then -1 else Max(Furthest(Front(events), local), MarkPosition(events, local))
  }

  lemma {:induction false} FurthestGrows(events: seq<Event>, i: nat, local: string)
    requires i <= |events|
    ensures MarkPosition(events[..i], local) <= Furthest(events[..i], local) <= Furthest(events, local)
    decreases |events|
  {
    if i == |events| {
      assert events[..i] == events;
    } else {
      FurthestGrows(Front(events), i, local);
      assert Front(events)[..i] == events[..i];
    }
  }

  lemma MarkIs(msgs: seq<Message>, local: string, k: int)
    requires -1 <= k < |msgs| && (k >= 0 ==> IsMarked(msgs[k], local))
    requires forall j :: k < j < |msgs| ==> !IsMarked(msgs[j], local)
    ensures LastMarked(msgs, local) == k
  {}

  lemma MarkAfterPush(msgs: seq<Message>, m: Message, local: string)
    requires !m.readByRemote
    ensures LastMarked(Pushed(msgs, m), local) == Max(-1, LastMarked(msgs, local) - (|msgs| + 1 - |Pushed(msgs, m)|))
  {
    var (after, k) := (Pushed(msgs, m), LastMarked(msgs, local));
    var drop := |msgs| + 1 - |after|;
    assert forall i :: 0 <= i < |after| && i + drop < |msgs| ==> after[i] == msgs[i + drop];
    assert after[|after| - 1] == m;
    MarkIs(after, local, Max(-1, k - drop));
  }

  lemma MarkAfterReceipt(msgs: seq<Message>, local: string, id: string, at: int)
    ensures LastMarked(Received(msgs, local, id, at), local) ==
            if Accepts(msgs, local, id) then Max(LastMarked(msgs, local), LastTarget(msgs, local, id))
            else LastMarked(msgs, local)
  {
    var target := LastTarget(msgs, local, id);
    if Accepts(msgs, local, id) && LastMarked(msgs, local) <= target {
      MarkIs(Remarked(msgs, local, target, at), local, target);
    }
  }

  ghost predicate IsFurthest(events: seq<Event>, local: string) {
    MarkPosition(events, local) == Furthest(events, local) ||
    (MarkPosition(events, local) == -1 && Furthest(events, local) < |History(events)| - |After(events, local)|)
  }

  /** How far the last marked index and the number of dropped messages may move in one event. */
  lemma FurthestArithmetic(events: seq<Event>, local: string)
    requires events != [] && IsFurthest(Front(events), local)
    requires var was := LastMarked(After(Front(events), local), local);
             var now := LastMarked(After(events, local), local);
             var n := |History(Front(events))| - |After(Front(events), local)|;
             var n' := |History(events)| - |After(events, local)|;
             && 0 <= n <= n' && (now < 0 ==> was < 0 || n + was < n') && (now >= 0 && was >= 0 ==> n + was <= n' + now)
    ensures IsFurthest(events, local)
  {
    assert Furthest(events, local) == Max(Furthest(Front(events), local), MarkPosition(events, local));
  }

  lemma FurthestAfterPush(events: seq<Event>, local: string)
    requires events != [] && Last(events).Push? && !Last(events).m.readByRemote && IsFurthest(Front(events), local)
    requires |After(Front(events), local)| <= |History(Front(events))|
    ensures IsFurthest(events, local)
  {
    assert After(events, local) == Pushed(After(Front(events), local), Last(events).m);
    assert |History(events)| == |History(Front(events))| + 1;
    MarkAfterPush(After(Front(events), local), Last(events).m, local);
    FurthestArithmetic(events, local);
  }

  lemma FurthestAfterReceipt(events: seq<Event>, local: string)
    requires events != [] && Last(events).Receipt? && IsFurthest(Front(events), local)
    requires |After(Front(events), local)| <= |History(Front(events))|
    ensures IsFurthest(events, local)
  {
    var (msgs, e) := (After(Front(events), local), Last(events));
    assert After(events, local) == Received(msgs, local, e.id, e.at) && |Received(msgs, local, e.id, e.at)| == |msgs|;
    assert |History(events)| == |History(Front(events))|;
    MarkAfterReceipt(msgs, local, e.id, e.at);
    FurthestArithmetic(events, local);
  }

  /** While a mark is retained it is the furthest ever set; once it is dropped, everything retained
      lies beyond it. */
  lemma {:induction false} MarkIsFurthest(events: seq<Event>, local: string)
    requires Fresh(events)
    ensures MarkPosition(events, local) == Furthest(events, local) ||
            (MarkPosition(events, local) == -1 && Furthest(events, local) < |History(events)| - |After(events, local)|)
  {
    if events != [] {
      MarkIsFurthest(Front(events), local);
      DequeIsTail(Front(events), local);
      if Last(events).Push? {
        assert !Last(events).m.readByRemote;
        FurthestAfterPush(events, local);
      } else {
        FurthestAfterReceipt(events, local);
      }
    }
  }

  /** The mark never moves back in the full history, also not after the cap dropped a marked message. */
  lemma MarkNeverMovesBack(events: seq<Event>, i: nat, local: string)
    requires Fresh(events) && i <= |events| && MarkPosition(events, local) >= 0
    ensures MarkPosition(events[..i], local) <= MarkPosition(events, local)
  {
    FurthestGrows(events, i, local);
    MarkIsFurthest(events, local);
    if MarkPosition(events, local) != Furthest(events, local) {
      assert false;
    }
  }

  /** What a receipt achieves: if it is accepted, the message it names or a later one is marked. */
  lemma ReceiptReaches(events: seq<Event>, local: string, id: string, at: int)
    ensures var msgs := After(events, local);
            var named := |History(events)| - |msgs| + LastTarget(msgs, local, id);
            Accepts(msgs, local, id) ==> MarkPosition(events + [Receipt(id, at)], local) >= named
  {
    var more := events + [Receipt(id, at)];
    assert Front(more) == events && Last(more) == Receipt(id, at);
    MarkAfterReceipt(After(events, local), local, id, at);
  }

  lemma TimeSet(msgs: seq<Message>, local: string, id: string, at: int)
    requires Accepts(msgs, local, id) && LastMarked(msgs, local) <= LastTarget(msgs, local, id)
    ensures var (target, r) := (LastTarget(msgs, local, id), Received(msgs, local, id, at));
            && |r| == |msgs| && r[target].readAtMs == Max(0, at)
            && LastMarked(r, local) == LastTarget(r, local, id) == target
  {
    MarkAfterReceipt(msgs, local, id, at);
    TargetStays(msgs, local, id, LastTarget(msgs, local, id), at);
  }

  /** The position cannot move back but the read time can: a repeated receipt for the marked message
      keeps or raises its time if and only if its own time is not lower. */
  lemma RepeatedReceiptTime(msgs: seq<Message>, local: string, id: string, first: int, second: int)
    requires Accepts(msgs, local, id) && LastMarked(msgs, local) <= LastTarget(msgs, local, id)
    ensures var target := LastTarget(msgs, local, id);
            var once := Received(msgs, local, id, first);
            var twice := Received(once, local, id, second);
            && |twice| == |once| == |msgs|
            && (twice[target].readAtMs >= once[target].readAtMs <==> second >= first || first <= 0)
  {
    TimeSet(msgs, local, id, first);
    TimeSet(Received(msgs, local, id, first), local, id, second);
  }

  lemma TargetStays(msgs: seq<Message>, local: string, id: string, target: nat, at: int)
    requires target == LastTarget(msgs, local, id)
    ensures LastTarget(Remarked(msgs, local, target, at), local, id) == target
  {
    var r := Remarked(msgs, local, target, at);
    assert IsTarget(r[target], local, id);
    assert forall j :: target < j < |r| ==> !IsTarget(msgs[j], local, id);
  }
}
