/** The delivery guarantees over whole runs. */
module DeliveryRuns {
  import opened Prelude
  import opened DeliveryTables
  import opened DeliveryProtocol
  import opened DeliveryProofs

  ghost predicate Inv(s: State) {
    && BasicInv(s) && WatchInv(s) && AskInv(s) && OrphanInv(s)
    && LedgerInv(s) && FlushInv(s)
    && BoxInv(s) && DrainInv(s) && StampInv(s)
  }

  lemma InvInit(s: State)
    requires Init(s)
    ensures Inv(s)
  {
    forall u, m ensures Balanced(s, u, m) {}
    forall q ensures Accounted(s, q) {}
  }

  lemma CallerKeeps(s: State, a: CallerStep, s': State)
    requires Inv(s) && CallerNext(s, a, s')
    ensures Inv(s')
  {
    BasicCaller(s, a, s');
    StampCaller(s, a, s');
    forall kind, u | s'.tables.Present(kind, u) ensures Guarded(s'.threads, kind, u) {
      CallerGuards(s, a, s', kind, u);
    }
    forall kind, u | s'.link.Ready() && s'.tables.Present(kind, u) ensures Covered(s', kind, u) {
      CallerAsks(s, a, s', kind, u);
    }
    forall u, m ensures Balanced(s', u, m) { CallerBalanced(s, a, s', u, m); }
    forall q ensures Accounted(s', q) { CallerBox(s, a, s', q); }
  }

  lemma WatcherKeeps(s: State, a: WatcherStep, s': State)
    requires Inv(s) && WatcherNext(s, a, s')
    ensures Inv(s')
  {
    BasicWatcher(s, a, s');
    StampWatcher(s, a, s');
    forall kind, u | s'.tables.Present(kind, u) ensures Guarded(s'.threads, kind, u) {
      WatcherGuards(s, a, s', kind, u);
    }
    forall kind, u | s'.link.Ready() && s'.tables.Present(kind, u) ensures Covered(s', kind, u) {
      WatcherAsks(s, a, s', kind, u);
    }
    forall u, m ensures Balanced(s', u, m) { WatcherBalanced(s, a, s', u, m); }
    forall q ensures Accounted(s', q) { WatcherBox(s, a, s', q); }
  }

  lemma OutKeeps(s: State, a: OutStep, s': State)
    requires Inv(s) && OutNext(s, a, s')
    ensures Inv(s')
  {
    BasicOut(s, a, s');
    StampOut(s, a, s');
    DrainOut(s, a, s');
    forall kind, u | s'.tables.Present(kind, u) ensures Guarded(s'.threads, kind, u) {
      OutGuards(s, a, s', kind, u);
    }
    forall kind, u | s'.link.Ready() && s'.tables.Present(kind, u) ensures Covered(s', kind, u) {
      OutAsks(s, a, s', kind, u);
    }
    forall u, m ensures Balanced(s', u, m) { OutBalanced(s, a, s', u, m); }
    forall q ensures Accounted(s', q) { OutBox(s, a, s', q); }
  }

  lemma LeaveKeeps(s: State, a: LeaveStep, s': State)
    requires Inv(s) && LeaveNext(s, a, s')
    ensures Inv(s')
  {
    BasicLeave(s, a, s');
    StampLeave(s, a, s');
    forall kind, u | s'.tables.Present(kind, u) ensures Guarded(s'.threads, kind, u) {
      LeaveGuards(s, a, s', kind, u);
    }
    forall kind, u | s'.link.Ready() && s'.tables.Present(kind, u) ensures Covered(s', kind, u) {
      LeaveAsks(s, a, s', kind, u);
    }
    forall u, m ensures Balanced(s', u, m) { LeaveBalanced(s, a, s', u, m); }
    forall q ensures Accounted(s', q) { LeaveBox(s, a, s', q); }
  }

  lemma AuthKeeps(s: State, a: IoStep, s': State)
    requires Inv(s) && AuthNext(s, a, s')
    ensures Inv(s')
  {
    BasicAuth(s, a, s');
    StampAuth(s, a, s');
    DrainAuth(s, a, s');
    forall kind, u | s'.tables.Present(kind, u) ensures Guarded(s'.threads, kind, u) {
      IoGuards(s, a, s', kind, u);
    }
    forall kind, u | s'.link.Ready() && s'.tables.Present(kind, u) ensures Covered(s', kind, u) {
      AuthAsks(s, a, s', kind, u);
    }
    forall u, m ensures Balanced(s', u, m) { AuthBalanced(s, a, s', u, m); }
    forall q ensures Accounted(s', q) { AuthBox(s, a, s', q); }
  }

  lemma InboundKeeps(s: State, a: IoStep, s': State)
    requires Inv(s) && InboundNext(s, a, s')
    ensures Inv(s')
  {
    BasicInbound(s, a, s');
    StampInbound(s, a, s');
    FlushKept(s, a, s');
    forall kind, u | s'.tables.Present(kind, u) ensures Guarded(s'.threads, kind, u) {
      IoGuards(s, a, s', kind, u);
    }
    forall kind, u | s'.link.Ready() && s'.tables.Present(kind, u) ensures Covered(s', kind, u) {
      InboundAsks(s, a, s', kind, u);
    }
    forall u, m ensures Balanced(s', u, m) { InboundBalanced(s, a, s', u, m); }
    forall q ensures Accounted(s', q) { InboundBox(s, a, s', q); }
  }

  lemma NextKeeps(s: State, a: Step, s': State)
    requires Inv(s) && Next(s, a, s')
    ensures Inv(s')
  {
    match a
    case Caller(c) => CallerKeeps(s, c, s');
    case Watcher(w) => WatcherKeeps(s, w, s');
    case Out(o) => OutKeeps(s, o, s');
    case Leave(l) => LeaveKeeps(s, l, s');
    case Io(i) => if AuthNext(s, i, s') { AuthKeeps(s, i, s'); } else { InboundKeeps(s, i, s'); }
    case Tick(_) => TickKeeps(s, s');
  }

  lemma TickKeeps(s: State, s': State)
    requires Inv(s) && s' == s.(clock := s'.clock)
    ensures Inv(s')
  {
    forall kind, u | s'.link.Ready() && s'.tables.Present(kind, u) ensures Covered(s', kind, u) {
      assert Covered(s, kind, u);
    }
    forall u, m ensures Balanced(s', u, m) {
      assert Balanced(s, u, m);
    }
    forall q ensures Accounted(s', q) {
      assert Accounted(s, q);
    }
  }

  lemma {:induction false} RunKeeps(states: seq<State>, steps: seq<Step>, i: nat)
    requires Run(states, steps) && i < |states|
    ensures Inv(states[i])
  {
    if i == 0 {
      InvInit(states[0]);
    } else {
      RunKeeps(states, steps, i - 1);
      assert StepAt(states, steps, i - 1);
      NextKeeps(states[i - 1], steps[i - 1], states[i]);
    }
  }

  // ----- the guarantees -----

  /** The network thread has handed out every KEY_REQUEST of the current AUTH_OK. */
  ghost predicate ResendDone(io: IoPc) {
    !(io.Authenticated? || io.ResendSawFlag? || io.ResendReady? || io.Resending?)
  }

  /** Nobody has asked for the entry, and nobody is about to. */
  ghost predicate Forgotten(s: State, kind: Kind, u: User) {
    (kind, u) !in s.asked && !CallerWillAsk(s.threads, kind, u)
  }

  /** No lost KEY_REQUEST: whoever waits on a ready link has been asked for since the entry was opened
      and since the last AUTH_OK, or a caller is on its way to ask, unless the entry waited already when
      the key upload of that AUTH_OK threw. */
  lemma NoLostKeyRequest(states: seq<State>, steps: seq<Step>, i: nat, kind: Kind, u: User)
    requires Run(states, steps) && i < |states|
    requires states[i].link.Ready() && ResendDone(states[i].io) && states[i].tables.Present(kind, u)
    ensures (kind, u) in states[i].asked || CallerWillAsk(states[i].threads, kind, u) || (kind, u) in states[i].orphans
  {
    RunKeeps(states, steps, i);
    assert Covered(states[i], kind, u);
  }

  /** A waiting entry is forgotten on a ready link if and only if the key upload of the last AUTH_OK
      threw while it waited unasked, and no caller is on its way. */
  lemma ForgottenIffOrphan(states: seq<State>, steps: seq<Step>, i: nat, kind: Kind, u: User)
    requires Run(states, steps) && i < |states|
    requires states[i].link.Ready() && ResendDone(states[i].io) && states[i].tables.Present(kind, u)
    ensures Forgotten(states[i], kind, u) <==>
            (kind, u) in states[i].orphans && !CallerWillAsk(states[i].threads, kind, u)
  {
    RunKeeps(states, steps, i);
    NoLostKeyRequest(states, steps, i, kind, u);
  }

  /** The upload of an AUTH_OK that throws forgets exactly the waiting entries that nobody has asked for
      since that AUTH_OK, or is about to. */
  lemma ThrowForgets(states: seq<State>, steps: seq<Step>, i: nat, kind: Kind, u: User)
    requires Run(states, steps) && i < |steps| && steps[i] == Io(UploadThrows)
    ensures states[i + 1].io == Online && states[i + 1].tables == states[i].tables
    ensures states[i].tables.Present(kind, u) ==>
              ((kind, u) in states[i + 1].orphans <==> (kind, u) !in states[i].asked)
  {
    assert StepAt(states, steps, i);
  }

  /** No entry outlives its watchers. */
  lemma EveryEntryWatched(states: seq<State>, steps: seq<Step>, i: nat, kind: Kind, u: User)
    requires Run(states, steps) && i < |states|
    requires forall t :: t in states[i].threads ==> !Guards(states[i].threads[t], kind, u)
    ensures !states[i].tables.Present(kind, u)
  {
    RunKeeps(states, steps, i);
  }

  /** A watcher sees at most 50 ready ticks; its budget is spent when it closes its entry. */
  lemma WatcherBudget(states: seq<State>, steps: seq<Step>, i: nat, t: nat)
    requires Run(states, steps) && i < |states| && t in states[i].threads
    ensures var pc := states[i].threads[t];
            && (pc.Sleeping? ==> pc.remaining > 0 && pc.ticks < 50)
            && (pc.Looking? || pc.Closing? ==> pc.ticks <= 50)
            && (pc.Closing? ==> pc.ticks > 0)
  {
    RunKeeps(states, steps, i);
    assert BudgetOk(states[i].threads[t]);
  }

  /** A wake-up that finds the flag and then the link on uses up the time since the tick before, at
      least 200 ms, any other none; either way the watcher then looks for its entry. */
  lemma WakeSpendsBudget(s: State, a: WatcherStep, s': State)
    requires a.WakeReadFlag? || a.WakeReadLink?
    requires WatcherNext(s, a, s') && BudgetOk(s.threads[a.t])
    ensures var (pc, pc') := (s.threads[a.t], s'.threads[a.t]);
            if a.WakeReadFlag? && s.link.authenticated
            then pc' == WokeSawFlag(pc.kind, pc.user, pc.remaining, pc.ticks, pc.since, pc.now)
            else
              && pc'.Looking? && pc'.since == pc.now
              && (if a.WakeReadLink? && s.link.connected
                  then pc'.remaining == pc.remaining - (pc.now - pc.since) <= pc.remaining - TICK_MS
                  else pc'.remaining == pc.remaining)
  {}

  /** Conservation of direct messages: submitted = waiting + in the running flush + sent + failed +
      timed out + erased + not found + cleared + lost to a flush that threw, as multisets, for every user
      in every state. */
  lemma MessagesConserved(states: seq<State>, steps: seq<Step>, i: nat, u: User)
    requires Run(states, steps) && i < |states|
    ensures var (s, l) := (states[i], states[i].LedgerOf(u));
            && (s.io.Flushing? ==> s.io.flushed <= |s.io.queued|)
            && l.submitted ==
               multiset(s.tables.Queue(u))
               + (if s.io.Flushing? && s.io.user == u then multiset(s.io.queued[s.io.flushed..]) else multiset{})
               + l.sent + l.failed + l.timedOut + l.erased + l.notFound + l.cleared + l.lost
  {
    RunKeeps(states, steps, i);
    var (s, l) := (states[i], states[i].LedgerOf(u));
    forall m ensures l.submitted[m] == Occurs(m, s.tables.Queue(u)) + InFlight(s.io, u, m) + l.Settled(m) {
      assert Balanced(s, u, m);
    }
  }

  /** When a flush ends, sent and failed add up to its batch and the sent ones kept their order. */
  lemma FlushOrdered(states: seq<State>, steps: seq<Step>, i: nat)
    requires Run(states, steps) && i < |states|
    requires states[i].io.Flushing? && states[i].io.flushed == |states[i].io.queued|
    ensures |states[i].io.out| + states[i].io.failed == |states[i].io.queued|
    ensures Subsequence(states[i].io.out, states[i].io.queued)
  {
    RunKeeps(states, steps, i);
    assert states[i].io.queued[..states[i].io.flushed] == states[i].io.queued;
  }

  /** The cipher's answers to a flush, in the steps from `i` up to `j`. */
  function Answers(steps: seq<Step>, i: nat, j: nat): seq<CipherResult>
    requires i <= j <= |steps|
  {
    if i == j then []
    else Answers(steps, i, j - 1) + (if steps[j - 1].Io? && steps[j - 1].i.FlushOne? then [steps[j - 1].i.r] else [])
  }

  /** Part way through a flush: what it has handed over is what the flush loop delivers for the answers
      it has got. */
  ghost predicate FlushedSoFar(s: State, u: User, queued: seq<PendingSend>, answers: seq<CipherResult>, had: bool) {
    && s.io.Flushing? && s.io.user == u && s.io.queued == queued
    && s.io.flushed == |answers| <= |queued|
    && s.io.out == Delivered(queued[..|answers|], answers, had)
    && (u in s.sessions <==> SessionAfter(|answers|, answers, had))
  }

  lemma FlushTurn(s: State, r: CipherResult, s': State, u: User, queued: seq<PendingSend>, answers: seq<CipherResult>,
                  had: bool)
    requires u != "" && FlushedSoFar(s, u, queued, answers, had) && FlushNext(s, r, s') && s'.io.Flushing?
    ensures FlushedSoFar(s', u, queued, answers + [r], had)
  {
    var (n, more) := (|answers|, answers + [r]);
    DeliveredSnoc(queued[..n + 1], more, had, n);
    assert queued[..n + 1][..n] == queued[..n] && queued[..n + 1][..n + 1] == queued[..n + 1];
    DeliveredReads(queued[..n], answers, more, had);
  }

  lemma FlushWaitsIo(s: State, a: IoStep, s': State)
    requires AuthNext(s, a, s') || InboundNext(s, a, s')
    requires s.io.Flushing? && s'.io.Flushing? && !a.FlushOne?
    ensures s'.io == s.io
  {}

  /** A step that is no turn of the flush and does not end it. */
  lemma FlushWaits(s: State, a: Step, s': State)
    requires Next(s, a, s') && s.io.Flushing? && s'.io.Flushing? && !(a.Io? && a.i.FlushOne?)
    ensures s'.io == s.io
  {
    if a.Io? {
      FlushWaitsIo(s, a.i, s');
    }
  }

  /** A flush hands over exactly what the loop over its queue delivers, as long as nothing else touches
      the user's session. */
  lemma {:induction false} FlushIsDelivered(states: seq<State>, steps: seq<Step>, i: nat, j: nat)
    requires Run(states, steps) && i <= j <= |steps|
    requires forall k :: i <= k <= j ==> states[k].io.Flushing?
    requires states[i].io.user != "" && states[i].io.flushed == 0 && states[i].io.out == []
    requires forall k :: i <= k < j && !(steps[k].Io? && steps[k].i.FlushOne?) ==>
               (states[i].io.user in states[k + 1].sessions <==> states[i].io.user in states[k].sessions)
    ensures FlushedSoFar(states[j], states[i].io.user, states[i].io.queued, Answers(steps, i, j),
                         states[i].io.user in states[i].sessions)
    decreases j
  {
    var (u, queued) := (states[i].io.user, states[i].io.queued);
    if i < j {
      FlushIsDelivered(states, steps, i, j - 1);
      assert StepAt(states, steps, j - 1);
      var (s, a, s') := (states[j - 1], steps[j - 1], states[j]);
      assert s.io.Flushing? && s'.io.Flushing?;
      if a.Io? && a.i.FlushOne? {
        assert FlushNext(s, a.i.r, s');
        FlushTurn(s, a.i.r, s', u, queued, Answers(steps, i, j - 1), u in states[i].sessions);
      } else {
        FlushWaits(s, a, s');
        assert Answers(steps, i, j) == Answers(steps, i, j - 1);
      }
    }
  }

  /** Conservation of outbound envelopes: each submission is in its caller's hands or exactly once
      among queued, draining, sent and cleared; in particular none is sent twice or out of nothing. */
  lemma EnvelopesConserved(states: seq<State>, steps: seq<Step>, i: nat, q: Queued)
    requires Run(states, steps) && i < |states|
    ensures var s := states[i];
            Placed(s, q) + (if HeldBy(s, q.ticket, q.env) then 1 else 0) ==
            (if q.ticket in s.box.submitted && s.box.submitted[q.ticket] == q.env then 1 else 0)
    ensures multiset(states[i].box.sent)[q] <= 1
  {
    RunKeeps(states, steps, i);
    assert Accounted(states[i], q);
  }

  /** A drained batch went out completely and in queue order, whatever was sent in between. */
  lemma DrainOrdered(states: seq<State>, steps: seq<Step>, i: nat)
    requires Run(states, steps) && i < |states|
    requires states[i].io.Draining? && states[i].io.drained == |states[i].io.batch|
    ensures Subsequence(states[i].io.batch, states[i].box.sent)
  {
    RunKeeps(states, steps, i);
    var io := states[i].io;
    assert io.batch[..io.drained] == io.batch;
    SubsequenceOfSuffix(io.batch, states[i].box.sent, io.from);
  }

  lemma {:induction false} SubsequenceOfSuffix<T>(a: seq<T>, b: seq<T>, n: nat)
    requires n <= |b| && Subsequence(a, b[n..])
    ensures Subsequence(a, b)
    decreases n
  {
    if n == 0 {
      assert b[0..] == b;
    } else {
      assert b[n - 1..][1..] == b[n..];
      SubsequenceOfSuffix(a, b, n - 1);
    }
  }

  /** The outbox checks first and pushes later, so a push can miss the flush; and an AUTH_OK whose key
      upload throws never flushes. Exactly these two strand an envelope on a ready link. */
  lemma StrandedIff(states: seq<State>, steps: seq<Step>, i: nat)
    requires Run(states, steps) && i < |steps| && !Stranded(states[i])
    ensures Stranded(states[i + 1]) <==> LatePush(states[i], steps[i]) || ThrowsOnQueue(states[i], steps[i])
  {
    RunKeeps(states, steps, i);
    assert StepAt(states, steps, i);
    StrandingStep(states[i], steps[i], states[i + 1]);
  }

  lemma StrandingStep(s: State, a: Step, s': State)
    requires Inv(s) && Next(s, a, s') && !Stranded(s)
    ensures Stranded(s') <==> LatePush(s, a) || ThrowsOnQueue(s, a)
  {
    match a
    case Caller(c) => CallerFrame(s, c, s');
    case Watcher(w) => WatcherFrame(s, w, s');
    case Out(o) => OutStrands(s, o, s');
    case Leave(l) => LeaveStrandsNothing(s, l, s');
    case Io(i) => if i == UploadThrows { ThrowStrands(s, s'); } else { IoStrandsNothing(s, i, s'); }
    case Tick(_) => assert s'.box == s.box && s'.link == s.link && s'.io == s.io;
  }

  lemma OutStrands(s: State, a: OutStep, s': State)
    requires OutNext(s, a, s') && !Stranded(s)
    ensures Stranded(s') <==> LatePush(s, Out(a))
  {
    OutFrame(s, a, s');
  }

  lemma ThrowStrands(s: State, s': State)
    requires AuthNext(s, UploadThrows, s') || InboundNext(s, UploadThrows, s')
    ensures Stranded(s') <==> ThrowsOnQueue(s, Io(UploadThrows))
  {}

  lemma LeaveStrandsNothing(s: State, a: LeaveStep, s': State)
    requires Inv(s) && LeaveNext(s, a, s') && !Stranded(s)
    ensures !Stranded(s')
  {}

  lemma IoStrandsNothing(s: State, a: IoStep, s': State)
    requires Inv(s) && (AuthNext(s, a, s') || InboundNext(s, a, s')) && !Stranded(s) && a != UploadThrows
    ensures !Stranded(s')
  {
    if AuthNext(s, a, s') {
      AuthStrandsNothing(s, a, s');
    } else {
      InboundFrame(s, a, s');
    }
  }

  lemma AuthStrandsNothing(s: State, a: IoStep, s': State)
    requires LinkInv(s) && AuthNext(s, a, s') && !Stranded(s) && a != UploadThrows
    ensures !Stranded(s')
  {
    if !a.AuthOk? && !a.Swap? && !a.DrainOne? {
      AuthOther(s, a, s');
    }
  }

  /** Every stranded envelope was judged unsendable before this AUTH_OK, and pushed after its swap unless
      its key upload threw. */
  lemma StrandedIsLate(states: seq<State>, steps: seq<Step>, i: nat, q: Queued)
    requires Run(states, steps) && i < |states| && Stranded(states[i]) && q in states[i].box.queue
    ensures q.ticket in states[i].box.stamps
    ensures states[i].box.stamps[q.ticket].readEpoch < states[i].link.epoch
    ensures states[i].box.stamps[q.ticket].swapEpoch == states[i].link.epoch || states[i].thrown == states[i].link.epoch
  {
    RunKeeps(states, steps, i);
  }
}
