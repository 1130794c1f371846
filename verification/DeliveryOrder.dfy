/** Which entries wait, and in which order messages and envelopes leave, told from the steps of a run. */
module DeliveryOrder {
  import opened Prelude
  import opened DeliveryTables
  import opened DeliveryProtocol
  import opened DeliveryProofs
  import opened DeliveryRuns

  // ----- the life of an entry -----

  /** The step asks for the user: any message opens or extends the queue, a repair needs no entry there. */
  ghost predicate Opens(s: State, a: Step, kind: Kind, u: User) {
    a.Caller? &&
    match kind
    case Dm => a.c.RequestKey? && a.c.u == u
    case Repair => a.c.RequestRepair? && a.c.u == u && u !in s.tables.sends
  }

  /** The step ends the entry: the user's key bundle or identity reset, the watcher of that kind and user,
      a "not found" that names the user or could mean nobody else, and a disconnect that clears. */
  ghost predicate Closes(s: State, a: Step, kind: Kind, u: User) {
    match a
    case Watcher(w) => w.Close? && w.t in s.threads && Ends(s.threads[w.t], kind, u)
    case Leave(UiStage(t)) => t in s.threads && s.threads[t] == Leaving(ClearTables)
    case Leave(IoStage) => s.io == Dropped(ClearTables)
    case Io(TakeQueue) => s.io == Bundled(u)
    case Io(ForgetEntries) => s.io == Resetting(u)
    case Io(UserNotFound(named, _)) =>
      kind == Dm && u != "" && (named == u || (named == "" && s.tables.sends.Keys == {u}))
    case _ => false
  }

  predicate Ends(pc: Pc, kind: Kind, u: User) { pc.Closing? && pc.kind == kind && pc.user == u }

  lemma CallerLife(s: State, a: CallerStep, s': State, kind: Kind, u: User)
    requires CallerNext(s, a, s')
    ensures s'.tables.Present(kind, u) <==> Opens(s, Caller(a), kind, u) || s.tables.Present(kind, u)
  {}

  lemma WatcherLife(s: State, a: WatcherStep, s': State, kind: Kind, u: User)
    requires WatcherNext(s, a, s')
    ensures s'.tables.Present(kind, u) <==> s.tables.Present(kind, u) && !Closes(s, Watcher(a), kind, u)
  {}

  lemma LeaveLife(s: State, a: LeaveStep, s': State, kind: Kind, u: User)
    requires LeaveNext(s, a, s')
    ensures s'.tables.Present(kind, u) <==> s.tables.Present(kind, u) && !Closes(s, Leave(a), kind, u)
  {}

  lemma InboundLife(s: State, a: IoStep, s': State, kind: Kind, u: User)
    requires InboundNext(s, a, s')
    ensures s'.tables.Present(kind, u) <==> s.tables.Present(kind, u) && !Closes(s, Io(a), kind, u)
  {
    if a.UserNotFound? && a.named == "" && u in s.tables.sends && s.tables.sends.Keys == {u} {
      assert |s.tables.sends.Keys| == 1;
    }
  }

  lemma AuthLife(s: State, a: IoStep, s': State, kind: Kind, u: User)
    requires AuthNext(s, a, s')
    ensures s'.tables.Present(kind, u) <==> s.tables.Present(kind, u) && !Closes(s, Io(a), kind, u)
  {
    AuthFrame(s, a, s');
  }

  /** An entry is there after a step exactly if the step opens it, or it was there and the step is none
      that ends it: no other user's steps touch it. */
  lemma EntryLife(states: seq<State>, steps: seq<Step>, i: nat, kind: Kind, u: User)
    requires Run(states, steps) && i < |steps|
    ensures states[i + 1].tables.Present(kind, u) <==>
            Opens(states[i], steps[i], kind, u) ||
            (states[i].tables.Present(kind, u) && !Closes(states[i], steps[i], kind, u))
  {
    assert StepAt(states, steps, i);
    var (s, a, s') := (states[i], steps[i], states[i + 1]);
    match a
    case Caller(c) => CallerLife(s, c, s', kind, u);
    case Watcher(w) => WatcherLife(s, w, s', kind, u);
    case Out(o) => OutFrame(s, o, s');
    case Leave(l) => LeaveLife(s, l, s', kind, u);
    case Io(x) => if AuthNext(s, x, s') { AuthLife(s, x, s', kind, u); } else { InboundLife(s, x, s', kind, u); }
    case Tick(_) =>
  }

  // ----- the order of a user's messages -----

  predicate Asks(a: Step, u: User) { a.Caller? && a.c.RequestKey? && a.c.u == u }

  /** The messages given for the user by the steps from `i` up to `j`, in step order. */
  function Requested(steps: seq<Step>, u: User, i: nat, j: nat): seq<PendingSend>
    requires i <= j <= |steps|
  {
    if i == j then []
    else Requested(steps, u, i, j - 1) + (if Asks(steps[j - 1], u) then [steps[j - 1].c.m] else [])
  }

  /** One step, for a user whose queue is there afterwards. */
  ghost predicate QueueGrows(s: State, a: Step, s': State, u: User) {
    u in s'.tables.sends ==>
      s'.tables.Queue(u) == s.tables.Queue(u) + (if Asks(a, u) then [a.c.m] else [])
  }

  lemma CallerGrows(s: State, a: CallerStep, s': State, u: User)
    requires CallerNext(s, a, s')
    ensures QueueGrows(s, Caller(a), s', u)
  {}

  lemma WatcherGrows(s: State, a: WatcherStep, s': State, u: User)
    requires WatcherNext(s, a, s')
    ensures QueueGrows(s, Watcher(a), s', u)
  {
    assert s.tables.Queue(u) + [] == s.tables.Queue(u);
  }

  lemma LeaveGrows(s: State, a: LeaveStep, s': State, u: User)
    requires LeaveNext(s, a, s')
    ensures QueueGrows(s, Leave(a), s', u)
  {
    assert s.tables.Queue(u) + [] == s.tables.Queue(u);
  }

  lemma IoGrows(s: State, a: IoStep, s': State, u: User)
    requires AuthNext(s, a, s') || InboundNext(s, a, s')
    ensures QueueGrows(s, Io(a), s', u)
  {
    assert s.tables.Queue(u) + [] == s.tables.Queue(u);
    if AuthNext(s, a, s') {
      AuthFrame(s, a, s');
    }
  }

  lemma StepGrows(s: State, a: Step, s': State, u: User)
    requires Next(s, a, s')
    ensures QueueGrows(s, a, s', u)
  {
    match a
    case Caller(c) => CallerGrows(s, c, s', u);
    case Watcher(w) => WatcherGrows(s, w, s', u);
    case Out(o) => OutFrame(s, o, s'); assert s.tables.Queue(u) + [] == s.tables.Queue(u);
    case Leave(l) => LeaveGrows(s, l, s', u);
    case Io(x) => IoGrows(s, x, s', u);
    case Tick(_) => assert s.tables.Queue(u) + [] == s.tables.Queue(u);
  }

  lemma GrowsAt(states: seq<State>, steps: seq<Step>, u: User, k: nat)
    requires Run(states, steps) && k < |steps|
    ensures QueueGrows(states[k], steps[k], states[k + 1], u)
  {
    assert StepAt(states, steps, k);
    StepGrows(states[k], steps[k], states[k + 1], u);
  }

  /** The entry of the user is opened at step `i` and stays until state `j`. */
  ghost predicate OpenSince(states: seq<State>, u: User, i: nat, j: nat) {
    && i < j < |states| && u !in states[i].tables.sends
    && forall k :: i < k <= j ==> u in states[k].tables.sends
  }

  /** The queue of an open entry holds the messages requested since it was opened, in order. */
  lemma {:induction false} QueueIsRequests(states: seq<State>, steps: seq<Step>, u: User, i: nat, j: nat)
    requires Run(states, steps) && OpenSince(states, u, i, j)
    ensures states[j].tables.Queue(u) == Requested(steps, u, i, j)
    decreases j
  {
    GrowsAt(states, steps, u, j - 1);
    assert u in states[j].tables.sends;
    if i + 1 < j {
      QueueIsRequests(states, steps, u, i, j - 1);
    } else {
      assert Requested(steps, u, i, i) == [] && states[i].tables.Queue(u) == [];
    }
  }

  lemma {:induction false} OpenedBefore(states: seq<State>, steps: seq<Step>, u: User, j: nat)
    requires Run(states, steps) && j < |states| && u in states[j].tables.sends
    ensures exists i :: 0 <= i < j && OpenSince(states, u, i, j)
  {
    if u in states[j - 1].tables.sends {
      OpenedBefore(states, steps, u, j - 1);
      var i :| 0 <= i < j - 1 && OpenSince(states, u, i, j - 1);
      assert OpenSince(states, u, i, j);
    } else {
      assert OpenSince(states, u, j - 1, j);
    }
  }

  /** The batch is what was requested for the user from the opening of the entry at `i` up to step `j`,
      at which the network thread took the queue. */
  ghost predicate TakenFrom(states: seq<State>, steps: seq<Step>, u: User, batch: seq<PendingSend>, i: nat, j: nat) {
    && |states| == |steps| + 1 && j < |steps| && OpenSince(states, u, i, j)
    && steps[j] == Io(TakeQueue) && states[j].io == Bundled(u)
    && batch == Requested(steps, u, i, j)
  }

  lemma BatchTaken(states: seq<State>, steps: seq<Step>, j: nat)
    requires Run(states, steps) && j < |steps| && states[j + 1].io.Flushing? && !states[j].io.Flushing?
    ensures var io := states[j + 1].io;
            exists i :: 0 <= i < j && TakenFrom(states, steps, io.user, io.queued, i, j)
  {
    assert StepAt(states, steps, j);
    TakeStep(states[j], steps[j], states[j + 1]);
    var u := states[j].io.user;
    OpenedBefore(states, steps, u, j);
    var i :| 0 <= i < j && OpenSince(states, u, i, j);
    QueueIsRequests(states, steps, u, i, j);
    assert TakenFrom(states, steps, u, states[j + 1].io.queued, i, j);
  }

  lemma TakeStep(s: State, a: Step, s': State)
    requires Next(s, a, s') && s'.io.Flushing? && !s.io.Flushing?
    ensures a == Io(TakeQueue) && s.io.Bundled? && s.io.user in s.tables.sends
    ensures s'.io.user == s.io.user && s'.io.queued == s.tables.Queue(s.io.user)
  {
    match a
    case Caller(c) => CallerFrame(s, c, s');
    case Watcher(w) => WatcherFrame(s, w, s');
    case Out(o) => OutFrame(s, o, s');
    case Leave(l) =>
    case Io(x) => if AuthNext(s, x, s') { AuthFrame(s, x, s'); }
    case Tick(_) =>
  }

  lemma FlushKeepsBatch(s: State, a: Step, s': State)
    requires Next(s, a, s') && s.io.Flushing? && s'.io.Flushing?
    ensures s'.io.user == s.io.user && s'.io.queued == s.io.queued
  {
    if !(a.Io? && a.i.FlushOne?) {
      FlushWaits(s, a, s');
    }
  }

  lemma {:induction false} FlushTaken(states: seq<State>, steps: seq<Step>, n: nat)
    requires Run(states, steps) && n < |states| && states[n].io.Flushing?
    ensures var io := states[n].io;
            exists i, j :: 0 <= i < j < n && TakenFrom(states, steps, io.user, io.queued, i, j)
  {
    var io := states[n].io;
    if states[n - 1].io.Flushing? {
      FlushTaken(states, steps, n - 1);
      assert StepAt(states, steps, n - 1);
      FlushKeepsBatch(states[n - 1], steps[n - 1], states[n]);
      var i, j :| 0 <= i < j < n - 1 && TakenFrom(states, steps, io.user, io.queued, i, j);
      assert TakenFrom(states, steps, io.user, io.queued, i, j);
    } else {
      BatchTaken(states, steps, n - 1);
      var i :| 0 <= i < n - 1 && TakenFrom(states, steps, io.user, io.queued, i, n - 1);
      assert TakenFrom(states, steps, io.user, io.queued, i, n - 1);
    }
  }

  /** What a flush has sent is a subsequence of the messages requested for the user between the opening
      of the entry and the key bundle, in the order they were requested. */
  lemma SentAsRequested(states: seq<State>, steps: seq<Step>, n: nat)
    requires Run(states, steps) && n < |states| && states[n].io.Flushing?
    ensures var io := states[n].io;
            exists i, j :: 0 <= i < j < n && TakenFrom(states, steps, io.user, io.queued, i, j) &&
                           Subsequence(io.out, Requested(steps, io.user, i, j))
  {
    FlushTaken(states, steps, n);
    RunKeeps(states, steps, n);
    var io := states[n].io;
    var i, j :| 0 <= i < j < n && TakenFrom(states, steps, io.user, io.queued, i, j);
    SubsequenceOfPrefix(io.out, io.queued, io.flushed);
    assert TakenFrom(states, steps, io.user, io.queued, i, j);
  }

  lemma {:induction false} SubsequenceOfPrefix<T>(a: seq<T>, b: seq<T>, n: nat)
    requires n <= |b| && Subsequence(a, b[..n])
    ensures Subsequence(a, b)
    decreases |b| - n
  {
    if n == |b| {
      assert b[..n] == b;
    } else {
      SubsequenceSkip(a, b[..n], b[n]);
      assert b[..n] + [b[n]] == b[..n + 1];
      SubsequenceOfPrefix(a, b, n + 1);
    }
  }

  lemma {:induction false} SubsequenceSkip<T>(a: seq<T>, b: seq<T>, x: T)
    requires Subsequence(a, b)
    ensures Subsequence(a, b + [x])
  {
    if b != [] && a != [] {
      assert (b + [x])[1..] == b[1..] + [x];
      if a[0] == b[0] && Subsequence(a[1..], b[1..]) {
        SubsequenceSkip(a[1..], b[1..], x);
      } else {
        SubsequenceSkip(a, b[1..], x);
      }
    }
  }

  // ----- the order of the outbox -----

  /** The step puts an envelope into the outbox. */
  ghost predicate Pushes(s: State, a: Step) {
    a.Out? && a.o.OutPush? && a.o.t in s.threads && s.threads[a.o.t].OutQueueing?
  }

  /** What the steps from `i` up to `j` push, in step order. */
  ghost function PushedBy(states: seq<State>, steps: seq<Step>, i: nat, j: nat): seq<Queued>
    requires i <= j <= |steps| && |states| == |steps| + 1
  {
    if i == j then []
    else
      var (s, a) := (states[j - 1], steps[j - 1]);
      PushedBy(states, steps, i, j - 1) + (if Pushes(s, a) then [Queued(a.o.t, s.threads[a.o.t].env)] else [])
  }

  /** The step takes or clears the whole outbox. */
  ghost predicate Empties(s: State, a: Step) {
    match a
    case Io(Swap) => true
    case Leave(UiStage(t)) => t in s.threads && s.threads[t] == Leaving(ClearOutbox)
    case Leave(IoStage) => s.io == Dropped(ClearOutbox)
    case _ => false
  }

  lemma OutboxStep(s: State, a: Step, s': State)
    requires LinkInv(s) && Next(s, a, s')
    ensures s'.box.queue ==
            if Empties(s, a) then []
            else s.box.queue + if Pushes(s, a) then [Queued(a.o.t, s.threads[a.o.t].env)] else []
  {
    assert s.box.queue + [] == s.box.queue;
    match a
    case Caller(c) => CallerFrame(s, c, s');
    case Watcher(w) => WatcherFrame(s, w, s');
    case Out(o) =>
    case Leave(l) => LeaveOutbox(s, l, s');
    case Io(x) => if AuthNext(s, x, s') { AuthOutbox(s, x, s'); } else { InboundFrame(s, x, s'); }
    case Tick(_) =>
  }

  lemma LeaveOutbox(s: State, a: LeaveStep, s': State)
    requires LeaveNext(s, a, s')
    ensures s'.box.queue == if Empties(s, Leave(a)) then [] else s.box.queue
  {}

  lemma AuthOutbox(s: State, a: IoStep, s': State)
    requires AuthNext(s, a, s')
    ensures s'.box.queue == if a == Swap then [] else s.box.queue
  {}

  lemma OutboxAt(states: seq<State>, steps: seq<Step>, k: nat)
    requires Run(states, steps) && k < |steps|
    ensures var (s, a) := (states[k], steps[k]);
            states[k + 1].box.queue ==
            if Empties(s, a) then []
            else s.box.queue + if Pushes(s, a) then [Queued(a.o.t, s.threads[a.o.t].env)] else []
  {
    RunKeeps(states, steps, k);
    assert StepAt(states, steps, k);
    OutboxStep(states[k], steps[k], states[k + 1]);
  }

  /** The outbox holds the envelopes pushed since it was last empty, in the order of the pushes. */
  lemma {:induction false} OutboxIsPushes(states: seq<State>, steps: seq<Step>, i: nat, j: nat)
    requires Run(states, steps) && i <= j <= |steps| && states[i].box.queue == []
    requires forall k :: i <= k < j ==> !Empties(states[k], steps[k])
    ensures states[j].box.queue == PushedBy(states, steps, i, j)
    decreases j
  {
    if i < j {
      OutboxIsPushes(states, steps, i, j - 1);
      OutboxAt(states, steps, j - 1);
    }
  }

  /** The outbox was empty at state `i`, and nothing has emptied it since. */
  ghost predicate FillsSince(states: seq<State>, steps: seq<Step>, i: nat, j: nat) {
    && i <= j <= |steps| && |states| == |steps| + 1 && states[i].box.queue == []
    && forall k :: i <= k < j ==> !Empties(states[k], steps[k])
  }

  lemma {:induction false} FilledSince(states: seq<State>, steps: seq<Step>, j: nat)
    requires Run(states, steps) && j <= |steps|
    ensures exists i :: 0 <= i <= j && FillsSince(states, steps, i, j)
  {
    if j == 0 {
      assert FillsSince(states, steps, 0, 0);
    } else if Empties(states[j - 1], steps[j - 1]) {
      OutboxAt(states, steps, j - 1);
      assert FillsSince(states, steps, j, j);
    } else {
      FilledSince(states, steps, j - 1);
      var i :| 0 <= i <= j - 1 && FillsSince(states, steps, i, j - 1);
      assert FillsSince(states, steps, i, j);
    }
  }

  /** The batch is what was pushed since the outbox was empty at `i`, up to the swap at step `j`. */
  ghost predicate SwappedFrom(states: seq<State>, steps: seq<Step>, batch: seq<Queued>, i: nat, j: nat) {
    && j < |steps| && FillsSince(states, steps, i, j) && steps[j] == Io(Swap)
    && batch == PushedBy(states, steps, i, j)
  }

  lemma BatchSwapped(states: seq<State>, steps: seq<Step>, j: nat)
    requires Run(states, steps) && j < |steps| && states[j + 1].io.Draining? && !states[j].io.Draining?
    ensures var batch := states[j + 1].io.batch;
            exists i :: 0 <= i <= j && SwappedFrom(states, steps, batch, i, j)
  {
    assert StepAt(states, steps, j);
    SwapStep(states[j], steps[j], states[j + 1]);
    FilledSince(states, steps, j);
    var i :| 0 <= i <= j && FillsSince(states, steps, i, j);
    OutboxIsPushes(states, steps, i, j);
    assert SwappedFrom(states, steps, states[j + 1].io.batch, i, j);
  }

  lemma InboundIo(s: State, a: IoStep, s': State)
    requires InboundNext(s, a, s')
    ensures !s'.io.Draining? || s'.io == s.io
  {}

  lemma SwapStep(s: State, a: Step, s': State)
    requires Next(s, a, s') && s'.io.Draining? && !s.io.Draining?
    ensures a == Io(Swap) && s'.io.batch == s.box.queue
  {
    match a
    case Caller(c) => CallerFrame(s, c, s');
    case Watcher(w) => WatcherFrame(s, w, s');
    case Out(o) => OutFrame(s, o, s');
    case Leave(l) =>
    case Io(x) => if InboundNext(s, x, s') { InboundIo(s, x, s'); }
    case Tick(_) =>
  }

  lemma DrainKeepsBatch(s: State, a: Step, s': State)
    requires Next(s, a, s') && s.io.Draining? && s'.io.Draining?
    ensures s'.io.batch == s.io.batch
  {
    match a
    case Caller(c) => CallerFrame(s, c, s');
    case Watcher(w) => WatcherFrame(s, w, s');
    case Out(o) => OutFrame(s, o, s');
    case Leave(l) =>
    case Io(x) => if InboundNext(s, x, s') { InboundIo(s, x, s'); }
    case Tick(_) =>
  }

  /** A drained batch is exactly what was pushed between the moment the outbox was last empty and the
      swap, in the order of the pushes. */
  lemma {:induction false} BatchIsPushes(states: seq<State>, steps: seq<Step>, n: nat)
    requires Run(states, steps) && n < |states| && states[n].io.Draining?
    ensures exists i, j :: 0 <= i <= j < n && SwappedFrom(states, steps, states[n].io.batch, i, j)
  {
    var batch := states[n].io.batch;
    if states[n - 1].io.Draining? {
      BatchIsPushes(states, steps, n - 1);
      assert StepAt(states, steps, n - 1);
      DrainKeepsBatch(states[n - 1], steps[n - 1], states[n]);
      var i, j :| 0 <= i <= j < n - 1 && SwappedFrom(states, steps, batch, i, j);
      assert SwappedFrom(states, steps, batch, i, j);
    } else {
      BatchSwapped(states, steps, n - 1);
      var i :| 0 <= i <= n - 1 && SwappedFrom(states, steps, batch, i, n - 1);
      assert SwappedFrom(states, steps, batch, i, n - 1);
    }
  }

  // ----- what a disconnect clears -----

  /** Nobody is about to clear the tables or the outbox, and neither has been cleared. */
  ghost predicate NothingCleared(s: State) {
    && s.autoReconnect && s.io != Dropped(ClearTables) && s.io != Dropped(ClearOutbox)
    && (forall t :: t in s.threads ==> s.threads[t] != Leaving(ClearTables) && s.threads[t] != Leaving(ClearOutbox))
    && s.box.cleared == multiset{} && forall u :: u in s.ledger ==> s.ledger[u].cleared == multiset{}
  }

  /** A step that leaves the setting, the outbox and what is booked as cleared, and starts no clearing. */
  lemma NothingMore(s: State, s': State)
    requires NothingCleared(s) && s'.autoReconnect == s.autoReconnect
    requires s'.io == s.io || !s'.io.Dropped? || s'.io == Dropped(ClearFlag) || s'.io == Dropped(ClearSessions)
    requires forall t :: t in s'.threads && s'.threads[t].Leaving? ==>
               (t in s.threads && s'.threads[t] == s.threads[t]) || s'.threads[t].stage == ClearFlag
               || s'.threads[t].stage == ClearSessions
    requires s'.box.cleared == s.box.cleared
    requires forall u :: u in s'.ledger ==> s'.ledger[u].cleared == s.LedgerOf(u).cleared
    ensures NothingCleared(s')
  {}

  lemma CallerClears(s: State, a: CallerStep, s': State)
    requires NothingCleared(s) && CallerNext(s, a, s')
    ensures NothingCleared(s')
  {
    CallerFrame(s, a, s');
    NothingMore(s, s');
  }

  lemma WatcherClears(s: State, a: WatcherStep, s': State)
    requires NothingCleared(s) && WatcherNext(s, a, s')
    ensures NothingCleared(s')
  {
    WatcherFrame(s, a, s');
    NothingMore(s, s');
  }

  lemma OutClears(s: State, a: OutStep, s': State)
    requires NothingCleared(s) && OutNext(s, a, s')
    ensures NothingCleared(s')
  {
    OutFrame(s, a, s');
    NothingMore(s, s');
  }

  lemma LeaveClears(s: State, a: LeaveStep, s': State)
    requires NothingCleared(s) && LeaveNext(s, a, s')
    ensures NothingCleared(s')
  {}

  lemma AuthClears(s: State, a: IoStep, s': State)
    requires NothingCleared(s) && AuthNext(s, a, s')
    ensures NothingCleared(s')
  {
    AuthFrame(s, a, s');
    IoSetting(s, a, s');
    NothingMore(s, s');
  }

  lemma InboundClears(s: State, a: IoStep, s': State)
    requires NothingCleared(s) && InboundNext(s, a, s')
    ensures NothingCleared(s')
  {
    IoSetting(s, a, s');
    forall u | u in s'.ledger ensures s'.ledger[u].cleared == s.LedgerOf(u).cleared {
      InboundBooks(s, a, s', u);
    }
    NothingMore(s, s');
  }

  lemma InboundBooks(s: State, a: IoStep, s': State, u: User)
    requires InboundNext(s, a, s') && u in s'.ledger
    ensures s'.ledger[u].cleared == s.LedgerOf(u).cleared
  {
    if a.FlushOne? {
      FlushBooks(s, a.r, s', u);
    }
  }

  lemma FlushBooks(s: State, r: CipherResult, s': State, u: User)
    requires s.io.Flushing? && FlushNext(s, r, s') && u in s'.ledger
    ensures s'.ledger[u].cleared == s.LedgerOf(u).cleared
  {}

  lemma IoSetting(s: State, a: IoStep, s': State)
    requires AuthNext(s, a, s') || InboundNext(s, a, s')
    ensures s'.autoReconnect == s.autoReconnect && s'.threads == s.threads && s'.box.cleared == s.box.cleared
    ensures s'.io == s.io || !s'.io.Dropped? || s'.io == Dropped(ClearFlag)
  {
    if AuthNext(s, a, s') {
      AuthSetting(s, a, s');
    }
  }

  lemma AuthSetting(s: State, a: IoStep, s': State)
    requires AuthNext(s, a, s')
    ensures s'.autoReconnect == s.autoReconnect && s'.threads == s.threads && s'.box.cleared == s.box.cleared
    ensures s'.io == s.io || !s'.io.Dropped?
  {}

  lemma StepClears(s: State, a: Step, s': State)
    requires NothingCleared(s) && Next(s, a, s')
    ensures NothingCleared(s')
  {
    match a
    case Caller(c) => CallerClears(s, c, s');
    case Watcher(w) => WatcherClears(s, w, s');
    case Out(o) => OutClears(s, o, s');
    case Leave(l) => LeaveClears(s, l, s');
    case Io(x) => if AuthNext(s, x, s') { AuthClears(s, x, s'); } else { InboundClears(s, x, s'); }
    case Tick(_) =>
  }

  /** A client that reconnects by itself never loses a message or an envelope to a disconnect. */
  lemma {:induction false} ReconnectKeepsAll(states: seq<State>, steps: seq<Step>, i: nat)
    requires Run(states, steps) && i < |states| && states[0].autoReconnect
    ensures NothingCleared(states[i])
  {
    if i > 0 {
      ReconnectKeepsAll(states, steps, i - 1);
      assert StepAt(states, steps, i - 1);
      StepClears(states[i - 1], steps[i - 1], states[i]);
    }
  }

  /** At step `k` the network thread runs the stage, and goes to the next one, where it stays up to `n`. */
  ghost predicate RanBefore(states: seq<State>, steps: seq<Step>, stage: Stage, k: nat, n: nat) {
    && k < n < |states| == |steps| + 1 && steps[k] == Leave(IoStage) && states[k].io == Dropped(stage)
    && forall m :: k < m <= n ==> states[m].io == states[n].io
  }

  lemma StageStep(s: State, a: Step, s': State)
    requires Next(s, a, s') && !s.autoReconnect && s'.io != s.io
    requires s'.io == Dropped(ClearOutbox) || s'.io == Dropped(ClearSessions)
    ensures a == Leave(IoStage) && s.io == Dropped(if s'.io.stage == ClearSessions then ClearOutbox else ClearTables)
  {
    match a
    case Caller(c) => CallerFrame(s, c, s');
    case Watcher(w) => WatcherFrame(s, w, s');
    case Out(o) => OutFrame(s, o, s');
    case Leave(l) =>
    case Io(x) => IoSetting(s, x, s');
    case Tick(_) =>
  }

  lemma SettingStays(s: State, a: Step, s': State)
    requires Next(s, a, s')
    ensures s'.autoReconnect == s.autoReconnect
  {
    match a
    case Caller(c) => CallerFrame(s, c, s');
    case Watcher(w) => WatcherFrame(s, w, s');
    case Out(o) => OutFrame(s, o, s');
    case Leave(l) =>
    case Io(x) => IoSetting(s, x, s');
    case Tick(_) =>
  }

  lemma {:induction false} SettingFixed(states: seq<State>, steps: seq<Step>, i: nat)
    requires Run(states, steps) && i < |states|
    ensures states[i].autoReconnect == states[0].autoReconnect
  {
    if i > 0 {
      SettingFixed(states, steps, i - 1);
      assert StepAt(states, steps, i - 1);
      SettingStays(states[i - 1], steps[i - 1], states[i]);
    }
  }

  lemma {:induction false} StageBefore(states: seq<State>, steps: seq<Step>, n: nat)
    requires Run(states, steps) && n < |states| && !states[0].autoReconnect
    requires states[n].io == Dropped(ClearOutbox) || states[n].io == Dropped(ClearSessions)
    ensures var stage := if states[n].io.stage == ClearSessions then ClearOutbox else ClearTables;
            exists k :: 0 <= k < n && RanBefore(states, steps, stage, k, n)
  {
    var stage := if states[n].io.stage == ClearSessions then ClearOutbox else ClearTables;
    if states[n - 1].io == states[n].io {
      StageBefore(states, steps, n - 1);
      var k :| 0 <= k < n - 1 && RanBefore(states, steps, stage, k, n - 1);
      assert RanBefore(states, steps, stage, k, n);
    } else {
      assert StepAt(states, steps, n - 1);
      SettingFixed(states, steps, n - 1);
      StageStep(states[n - 1], steps[n - 1], states[n]);
      assert RanBefore(states, steps, stage, n - 1, n);
    }
  }

  /** Clearing stages of one disconnect, at steps `a` and `b` before `i`. */
  ghost predicate ClearedAt(states: seq<State>, a: nat, b: nat, i: nat) {
    && a < b < i < |states| && states[a + 1].tables == NoEntries && states[b + 1].box.queue == []
    && forall m :: a <= m <= i ==> states[m].io.Dropped?
  }

  /** Without reconnecting, a disconnect of the network thread ends only after it has emptied the tables
      and then the outbox, and it leaves no session. */
  lemma DisconnectClears(states: seq<State>, steps: seq<Step>, i: nat)
    requires Run(states, steps) && i < |steps| && !states[0].autoReconnect
    requires states[i].io.Dropped? && states[i + 1].io == Offline
    ensures states[i + 1].sessions == {} && exists a, b :: 0 <= a < b < i && ClearedAt(states, a, b, i)
  {
    assert StepAt(states, steps, i);
    LastStage(states[i], steps[i], states[i + 1]);
    StageBefore(states, steps, i);
    var b :| 0 <= b < i && RanBefore(states, steps, ClearOutbox, b, i);
    StageBefore(states, steps, b);
    var a :| 0 <= a < b && RanBefore(states, steps, ClearTables, a, b);
    assert StepAt(states, steps, a) && StepAt(states, steps, b);
    assert ClearedAt(states, a, b, i);
  }

  lemma LastStage(s: State, a: Step, s': State)
    requires Next(s, a, s') && s.io.Dropped? && s'.io == Offline
    ensures s.io.stage == ClearSessions && s'.sessions == {}
  {
    match a
    case Caller(c) => CallerFrame(s, c, s');
    case Watcher(w) => WatcherFrame(s, w, s');
    case Out(o) => OutFrame(s, o, s');
    case Leave(l) =>
    case Io(x) =>
    case Tick(_) =>
  }
}
