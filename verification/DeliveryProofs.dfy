/** What every interleaving of the delivery protocol keeps, step by step. */
module DeliveryProofs {
  import opened Prelude
  import opened DeliveryTables
  import opened DeliveryProtocol

  // ----- flags, queues and the watchers' budget -----

  /** Only the network thread connects, and it has cleared the flag before it does. */
  ghost predicate LinkInv(s: State) {
    match s.io
    case Offline => !s.link.connected && !s.link.authenticated
    case Dropped(stage) => !s.link.connected && (stage != ClearFlag ==> !s.link.authenticated)
    case _ => s.link.connected
  }

  /** An entry of `pending_sends_` never holds an empty queue, so the resend skips nobody. */
  ghost predicate QueuesInv(s: State) {
    forall u :: u in s.tables.sends ==> s.tables.sends[u] != []
  }

  /** Each tick seen while ready costs at least 200 of the 10000 ms. */
  ghost predicate BudgetOk(pc: Pc) {
    match pc
    case Sleeping(_, _, remaining, ticks, _) => 0 < remaining <= TIMEOUT_MS - TICK_MS * ticks
    case Woke(_, _, remaining, ticks, since, now) =>
      0 < remaining <= TIMEOUT_MS - TICK_MS * ticks && now - since >= TICK_MS
    case WokeSawFlag(_, _, remaining, ticks, since, now) =>
      0 < remaining <= TIMEOUT_MS - TICK_MS * ticks && now - since >= TICK_MS
    case Looking(_, _, remaining, ticks, _) =>
      && remaining <= TIMEOUT_MS - TICK_MS * ticks && ticks <= TIMEOUT_MS / TICK_MS
      && (remaining <= 0 ==> 0 < ticks)
    case Closing(_, _, ticks) => 0 < ticks <= TIMEOUT_MS / TICK_MS
    case _ => true
  }

  ghost predicate BasicInv(s: State) {
    && LinkInv(s)
    && QueuesInv(s)
    && forall t :: t in s.threads ==> BudgetOk(s.threads[t])
  }

  lemma BasicCaller(s: State, a: CallerStep, s': State)
    requires BasicInv(s) && CallerNext(s, a, s')
    ensures BasicInv(s')
  {}

  lemma BasicWatcher(s: State, a: WatcherStep, s': State)
    requires BasicInv(s) && WatcherNext(s, a, s')
    ensures BasicInv(s')
  {}

  lemma BasicOut(s: State, a: OutStep, s': State)
    requires BasicInv(s) && OutNext(s, a, s')
    ensures BasicInv(s')
  {}

  lemma BasicLeave(s: State, a: LeaveStep, s': State)
    requires BasicInv(s) && LeaveNext(s, a, s')
    ensures BasicInv(s')
  {}

  lemma BasicAuth(s: State, a: IoStep, s': State)
    requires BasicInv(s) && AuthNext(s, a, s')
    ensures BasicInv(s')
  {}

  lemma BasicInbound(s: State, a: IoStep, s': State)
    requires BasicInv(s) && InboundNext(s, a, s')
    ensures BasicInv(s')
  {}

  // ----- what the other threads leave alone -----

  lemma CallerFrame(s: State, a: CallerStep, s': State)
    requires CallerNext(s, a, s')
    ensures s'.link == s.link && s'.io == s.io && s'.box == s.box && s'.clock == s.clock && s'.thrown == s.thrown
    ensures s'.autoReconnect == s.autoReconnect
  {}

  lemma WatcherFrame(s: State, a: WatcherStep, s': State)
    requires WatcherNext(s, a, s')
    ensures s'.link == s.link && s'.io == s.io && s'.box == s.box && s'.clock == s.clock && s'.thrown == s.thrown
    ensures s'.autoReconnect == s.autoReconnect
  {}

  lemma OutFrame(s: State, a: OutStep, s': State)
    requires OutNext(s, a, s')
    ensures s'.link == s.link && s'.io == s.io && s'.tables == s.tables && s'.ledger == s.ledger
    ensures s'.clock == s.clock && s'.thrown == s.thrown && s'.autoReconnect == s.autoReconnect
  {}

  // ----- no entry without a watcher -----

  /** The thread is the watcher of an entry, or the caller that is about to spawn it. */
  ghost predicate Guards(pc: Pc, kind: Kind, u: User) {
    && (pc.Inserted? || pc.SawFlag? || pc.Sending? || pc.Spawning? ||
        pc.Sleeping? || pc.Woke? || pc.WokeSawFlag? || pc.Looking? || pc.Closing?)
    && pc.kind == kind && pc.user == u
  }

  ghost predicate Guarded(threads: map<nat, Pc>, kind: Kind, u: User) {
    exists t :: t in threads && Guards(threads[t], kind, u)
  }

  ghost predicate WatchInv(s: State) {
    forall kind, u :: s.tables.Present(kind, u) ==> Guarded(s.threads, kind, u)
  }

  lemma GuardFrame(before: map<nat, Pc>, after: map<nat, Pc>, kind: Kind, u: User)
    requires Guarded(before, kind, u)
    requires forall t :: t in before && Guards(before[t], kind, u) ==> t in after && Guards(after[t], kind, u)
    ensures Guarded(after, kind, u)
  {
    var t :| t in before && Guards(before[t], kind, u);
    assert t in after && Guards(after[t], kind, u);
  }

  lemma CallerGuards(s: State, a: CallerStep, s': State, kind: Kind, u: User)
    requires WatchInv(s) && CallerNext(s, a, s') && s'.tables.Present(kind, u)
    ensures Guarded(s'.threads, kind, u)
  {
    if !s.tables.Present(kind, u) {
      assert Guards(s'.threads[a.t], kind, u);
    } else if a.SpawnWatcher? {
      var g :| g in s.threads && Guards(s.threads[g], kind, u);
      assert Guards(s'.threads[if g == a.t then a.w else g], kind, u);
    } else {
      GuardFrame(s.threads, s'.threads, kind, u);
    }
  }

  lemma WatcherGuards(s: State, a: WatcherStep, s': State, kind: Kind, u: User)
    requires WatchInv(s) && WatcherNext(s, a, s') && s'.tables.Present(kind, u)
    ensures Guarded(s'.threads, kind, u)
  {
    GuardFrame(s.threads, s'.threads, kind, u);
  }

  lemma OutGuards(s: State, a: OutStep, s': State, kind: Kind, u: User)
    requires WatchInv(s) && OutNext(s, a, s') && s'.tables.Present(kind, u)
    ensures Guarded(s'.threads, kind, u)
  {
    GuardFrame(s.threads, s'.threads, kind, u);
  }

  lemma LeaveGuards(s: State, a: LeaveStep, s': State, kind: Kind, u: User)
    requires WatchInv(s) && LeaveNext(s, a, s') && s'.tables.Present(kind, u)
    ensures Guarded(s'.threads, kind, u)
  {
    GuardFrame(s.threads, s'.threads, kind, u);
  }

  lemma IoGuards(s: State, a: IoStep, s': State, kind: Kind, u: User)
    requires WatchInv(s) && (AuthNext(s, a, s') || InboundNext(s, a, s')) && s'.tables.Present(kind, u)
    ensures Guarded(s'.threads, kind, u)
  {
    IoFrame(s, a, s');
    assert s.tables.Present(kind, u);
  }

  /** The network thread opens no entry and moves no other thread. */
  lemma IoFrame(s: State, a: IoStep, s': State)
    requires AuthNext(s, a, s') || InboundNext(s, a, s')
    ensures s'.threads == s.threads
    ensures s'.tables.repairs <= s.tables.repairs && s'.tables.sends.Keys <= s.tables.sends.Keys
  {
    if AuthNext(s, a, s') {
    } else {
    }
  }

  /** A watcher leaves only when the entry it watches is gone. */
  lemma WatcherLeavesNoEntry(s: State, a: WatcherStep, s': State)
    requires WatcherNext(s, a, s') && s'.threads[a.t] == Done
    ensures !s'.tables.Present(s.threads[a.t].kind, s.threads[a.t].user)
  {}

  // ----- no lost KEY_REQUEST -----

  ghost predicate WillAsk(pc: Pc, kind: Kind, u: User) {
    (pc.Inserted? || pc.SawFlag? || pc.Sending?) && pc.kind == kind && pc.user == u
  }

  ghost predicate CallerWillAsk(threads: map<nat, Pc>, kind: Kind, u: User) {
    exists t :: t in threads && WillAsk(threads[t], kind, u)
  }

  ghost predicate IoWillAsk(io: IoPc, u: User) {
    io.Authenticated? || io.ResendSawFlag? || io.ResendReady? || (io.Resending? && u in io.todo)
  }

  ghost predicate Covered(s: State, kind: Kind, u: User) {
    (kind, u) in s.asked || IoWillAsk(s.io, u) || CallerWillAsk(s.threads, kind, u) || (kind, u) in s.orphans
  }

  ghost predicate AskInv(s: State) {
    s.link.Ready() ==> forall kind, u :: s.tables.Present(kind, u) ==> Covered(s, kind, u)
  }

  /** An entry that has been asked for is no orphan. */
  ghost predicate OrphanInv(s: State) { forall e :: e in s.orphans ==> e !in s.asked }

  /** What a thread that only moves its own counter must respect to keep an entry covered. */
  lemma AskFrame(s: State, s': State, kind: Kind, u: User)
    requires Covered(s, kind, u) && s'.io == s.io && s.asked <= s'.asked && s.orphans <= s'.orphans + s'.asked
    requires forall t :: t in s.threads && WillAsk(s.threads[t], kind, u) ==>
                           (t in s'.threads && WillAsk(s'.threads[t], kind, u)) || (kind, u) in s'.asked
    ensures Covered(s', kind, u)
  {
    if CallerWillAsk(s.threads, kind, u) {
      var t :| t in s.threads && WillAsk(s.threads[t], kind, u);
      assert (t in s'.threads && WillAsk(s'.threads[t], kind, u)) || (kind, u) in s'.asked;
    }
  }

  lemma CallerAsks(s: State, a: CallerStep, s': State, kind: Kind, u: User)
    requires AskInv(s) && CallerNext(s, a, s') && s'.link.Ready() && s'.tables.Present(kind, u)
    ensures Covered(s', kind, u)
  {
    if !s.tables.Present(kind, u) {
      assert WillAsk(s'.threads[a.t], kind, u);
    } else if a.RequestKey? || a.RequestRepair? {
      assert Covered(s, kind, u);
      if CallerWillAsk(s.threads, kind, u) {
        var t :| t in s.threads && WillAsk(s.threads[t], kind, u);
        assert WillAsk(s'.threads[t], kind, u);
      }
    } else {
      AskFrame(s, s', kind, u);
    }
  }

  lemma WatcherAsks(s: State, a: WatcherStep, s': State, kind: Kind, u: User)
    requires AskInv(s) && WatcherNext(s, a, s') && s'.link.Ready() && s'.tables.Present(kind, u)
    ensures Covered(s', kind, u)
  {
    AskFrame(s, s', kind, u);
  }

  lemma OutAsks(s: State, a: OutStep, s': State, kind: Kind, u: User)
    requires AskInv(s) && OutNext(s, a, s') && s'.link.Ready() && s'.tables.Present(kind, u)
    ensures Covered(s', kind, u)
  {
    AskFrame(s, s', kind, u);
  }

  lemma LeaveAsks(s: State, a: LeaveStep, s': State, kind: Kind, u: User)
    requires LinkInv(s) && AskInv(s) && LeaveNext(s, a, s') && s'.link.Ready() && s'.tables.Present(kind, u)
    ensures Covered(s', kind, u)
  {
    AskFrame(s, s', kind, u);
  }

  lemma AuthAsks(s: State, a: IoStep, s': State, kind: Kind, u: User)
    requires LinkInv(s) && QueuesInv(s) && AskInv(s)
    requires AuthNext(s, a, s') && s'.link.Ready() && s'.tables.Present(kind, u)
    ensures Covered(s', kind, u)
  {
    IoFrame(s, a, s');
    if !a.AuthOk? {
      assert Covered(s, kind, u);
    }
  }

  lemma InboundAsks(s: State, a: IoStep, s': State, kind: Kind, u: User)
    requires LinkInv(s) && AskInv(s)
    requires InboundNext(s, a, s') && s'.link.Ready() && s'.tables.Present(kind, u)
    ensures Covered(s', kind, u)
  {
    IoFrame(s, a, s');
    assert s'.asked == s.asked && s.link.Ready();
    assert Covered(s, kind, u);
  }

  // ----- every direct message is in exactly one place -----

  function Occurs<T(==)>(x: T, s: seq<T>): nat { multiset(s)[x] }

  lemma OccursInTail<T>(x: T, s: seq<T>, n: nat)
    requires n < |s|
    ensures Occurs(x, s[n..]) == (if s[n] == x then 1 else 0) + Occurs(x, s[n + 1..])
  {
    assert s[n..] == [s[n]] + s[n + 1..];
  }

  lemma OccursInSnoc<T>(x: T, s: seq<T>, y: T)
    ensures Occurs(x, s + [y]) == Occurs(x, s) + if x == y then 1 else 0
  {}

  lemma OccursInWhole<T>(x: T, s: seq<T>)
    ensures Occurs(x, s[0..]) == Occurs(x, s)
  {
    assert s[0..] == s;
  }

  function InFlight(io: IoPc, u: User, m: PendingSend): nat {
    if io.Flushing? && io.user == u && io.flushed <= |io.queued| then Occurs(m, io.queued[io.flushed..]) else 0
  }

  /** Submitted plaintexts are pending, being flushed, or settled in exactly one way. */
  ghost predicate Balanced(s: State, u: User, m: PendingSend) {
    s.LedgerOf(u).submitted[m] ==
    Occurs(m, s.tables.Queue(u)) + InFlight(s.io, u, m) + s.LedgerOf(u).Settled(m)
  }

  ghost predicate LedgerInv(s: State) {
    forall u, m :: Balanced(s, u, m)
  }

  /** Part way through a flush: sent and failed add up, and what went out kept its order. */
  ghost predicate FlushInv(s: State) {
    s.io.Flushing? ==>
      && s.io.flushed <= |s.io.queued|
      && |s.io.out| + s.io.failed == s.io.flushed
      && Subsequence(s.io.out, s.io.queued[..s.io.flushed])
  }

  lemma CallerBalanced(s: State, a: CallerStep, s': State, u: User, m: PendingSend)
    requires Balanced(s, u, m) && CallerNext(s, a, s')
    ensures Balanced(s', u, m)
  {
    if a.RequestKey? && a.u == u {
      OccursInSnoc(m, s.tables.Queue(u), a.m);
    } else {
      assert s'.LedgerOf(u) == s.LedgerOf(u) && s'.tables.Queue(u) == s.tables.Queue(u);
    }
  }

  lemma WatcherBalanced(s: State, a: WatcherStep, s': State, u: User, m: PendingSend)
    requires Balanced(s, u, m) && WatcherNext(s, a, s')
    ensures Balanced(s', u, m)
  {
    if a.Close? && s.threads[a.t].kind == Dm && s.threads[a.t].user == u {
      assert s'.tables.Queue(u) == [];
    } else {
      assert s'.LedgerOf(u) == s.LedgerOf(u) && s'.tables.Queue(u) == s.tables.Queue(u);
    }
  }

  lemma OutBalanced(s: State, a: OutStep, s': State, u: User, m: PendingSend)
    requires Balanced(s, u, m) && OutNext(s, a, s')
    ensures Balanced(s', u, m)
  {
    assert s'.LedgerOf(u) == s.LedgerOf(u) && s'.tables == s.tables && s'.io == s.io;
  }

  lemma LeaveBalanced(s: State, a: LeaveStep, s': State, u: User, m: PendingSend)
    requires Balanced(s, u, m) && LeaveNext(s, a, s')
    ensures Balanced(s', u, m)
  {
    var stage := if a.UiStage? then s.threads[a.t].stage else if a.IoStage? then s.io.stage else ClearFlag;
    assert InFlight(s'.io, u, m) == InFlight(s.io, u, m);
    if !a.UiLeaves? {
      StageBalanced(s, stage, s', u, m);
    }
  }

  lemma StageBalanced(s: State, stage: Stage, s': State, u: User, m: PendingSend)
    requires Balanced(s, u, m) && StageEffect(s, stage, s') && InFlight(s'.io, u, m) == InFlight(s.io, u, m)
    ensures Balanced(s', u, m)
  {
    var (l, l') := (s.LedgerOf(u), s'.LedgerOf(u));
    if stage != ClearTables {
      assert l' == l;
    } else {
      assert s'.tables.Queue(u) == [];
      assert l' == l.(cleared := l.cleared + multiset(s.tables.Queue(u)));
      assert l'.Settled(m) == l.Settled(m) + Occurs(m, s.tables.Queue(u));
    }
  }

  /** `on_auth_ok` touches no entry, no message and no other thread. */
  lemma AuthFrame(s: State, a: IoStep, s': State)
    requires AuthNext(s, a, s')
    ensures s'.tables == s.tables && s'.ledger == s.ledger && s'.threads == s.threads && s'.clock == s.clock
    ensures !s.io.Flushing? && !s'.io.Flushing? && s'.link.connected == s.link.connected
  {}

  lemma SameBalance(s: State, s': State, u: User, m: PendingSend)
    requires Balanced(s, u, m) && s'.tables.Queue(u) == s.tables.Queue(u) && s'.LedgerOf(u) == s.LedgerOf(u)
    requires InFlight(s'.io, u, m) == InFlight(s.io, u, m)
    ensures Balanced(s', u, m)
  {}

  lemma AuthBalanced(s: State, a: IoStep, s': State, u: User, m: PendingSend)
    requires Balanced(s, u, m) && AuthNext(s, a, s')
    ensures Balanced(s', u, m)
  {
    AuthFrame(s, a, s');
    SameBalance(s, s', u, m);
  }

  lemma InboundBalanced(s: State, a: IoStep, s': State, u: User, m: PendingSend)
    requires Balanced(s, u, m) && InboundNext(s, a, s')
    ensures Balanced(s', u, m)
  {
    if a.TakeQueue? {
      TakeBalanced(s, s', u, m);
    } else if a.FlushOne? {
      FlushBalanced(s, a.r, s', u, m);
    } else if a.FlushThrows? {
      ThrowBalanced(s, s', u, m);
    } else if a.ForgetEntries? {
      ForgetBalanced(s, s', u, m);
    } else if a.UserNotFound? {
      BlameBalanced(s, a.named, a.blamed, s', u, m);
    } else {
      assert s'.ledger == s.ledger && s'.tables == s.tables;
    }
  }

  lemma TakeBalanced(s: State, s': State, u: User, m: PendingSend)
    requires Balanced(s, u, m) && InboundNext(s, TakeQueue, s')
    ensures Balanced(s', u, m)
  {
    assert s'.LedgerOf(u) == s.LedgerOf(u);
    if u == s.io.user {
      assert s'.tables.Queue(u) == [];
      OccursInWhole(m, s.tables.Queue(u));
    } else {
      assert s'.tables.Queue(u) == s.tables.Queue(u);
    }
  }

  /** One turn of a flush moves on by one message and books it. */
  lemma FlushTurnEffect(s: State, r: CipherResult, s': State)
    requires s.io.Flushing? && s.io.flushed < |s.io.queued| && FlushNext(s, r, s')
    ensures var (u, x, l, l') := (s.io.user, s.io.queued[s.io.flushed], s.LedgerOf(s.io.user), s'.LedgerOf(s.io.user));
            && s'.tables == s.tables
            && s'.io.Flushing? && s'.io.user == u && s'.io.queued == s.io.queued && s'.io.flushed == s.io.flushed + 1
            && (l' == l.(sent := l.sent + multiset{x}) || l' == l.(failed := l.failed + multiset{x}))
            && forall v :: v != u ==> s'.LedgerOf(v) == s.LedgerOf(v)
  {}

  lemma FlushBalanced(s: State, r: CipherResult, s': State, u: User, m: PendingSend)
    requires Balanced(s, u, m) && s.io.Flushing? && FlushNext(s, r, s')
    ensures Balanced(s', u, m)
  {
    var n := s.io.flushed;
    if n < |s.io.queued| {
      FlushTurnEffect(s, r, s');
      if u == s.io.user {
        BookedBalanced(s, s', m);
      } else {
        SameBalance(s, s', u, m);
      }
    }
  }

  lemma BookedBalanced(s: State, s': State, m: PendingSend)
    requires s.io.Flushing? && s.io.flushed < |s.io.queued| && Balanced(s, s.io.user, m) && s'.tables == s.tables
    requires s'.io.Flushing? && s'.io.user == s.io.user && s'.io.queued == s.io.queued
    requires s'.io.flushed == s.io.flushed + 1
    requires var (x, l, l') := (s.io.queued[s.io.flushed], s.LedgerOf(s.io.user), s'.LedgerOf(s.io.user));
             l' == l.(sent := l.sent + multiset{x}) || l' == l.(failed := l.failed + multiset{x})
    ensures Balanced(s', s.io.user, m)
  {
    OccursInTail(m, s.io.queued, s.io.flushed);
    SettleOne(s.LedgerOf(s.io.user), s'.LedgerOf(s.io.user), s.io.queued[s.io.flushed], m);
  }

  lemma SettleOne(l: Ledger, l': Ledger, x: PendingSend, m: PendingSend)
    requires l' == l.(sent := l.sent + multiset{x}) || l' == l.(failed := l.failed + multiset{x})
    ensures l'.submitted == l.submitted
    ensures l'.Settled(m) == l.Settled(m) + if x == m then 1 else 0
  {}

  lemma ThrowBalanced(s: State, s': State, u: User, m: PendingSend)
    requires Balanced(s, u, m) && InboundNext(s, FlushThrows, s')
    ensures Balanced(s', u, m)
  {
    if u != s.io.user {
      assert s'.LedgerOf(u) == s.LedgerOf(u);
    }
  }

  lemma ForgetBalanced(s: State, s': State, u: User, m: PendingSend)
    requires Balanced(s, u, m) && InboundNext(s, ForgetEntries, s')
    ensures Balanced(s', u, m)
  {
    if u == s.io.user {
      var (l, l') := (s.LedgerOf(u), s'.LedgerOf(u));
      assert s'.tables.Queue(u) == [] && l' == l.(erased := l.erased + multiset(s.tables.Queue(u)));
      assert InFlight(s.io, u, m) == InFlight(s'.io, u, m) == 0;
      assert l'.Settled(m) == l.Settled(m) + Occurs(m, s.tables.Queue(u));
    } else {
      SameBalance(s, s', u, m);
    }
  }

  lemma BlameBalanced(s: State, named: User, blamed: User, s': State, u: User, m: PendingSend)
    requires Balanced(s, u, m) && InboundNext(s, UserNotFound(named, blamed), s')
    ensures Balanced(s', u, m)
  {
    if u == blamed && blamed != "" {
      assert s'.tables.Queue(u) == [];
    } else {
      assert s'.LedgerOf(u) == s.LedgerOf(u) && s'.tables.Queue(u) == s.tables.Queue(u);
    }
  }

  lemma FlushKept(s: State, a: IoStep, s': State)
    requires FlushInv(s) && InboundNext(s, a, s')
    ensures FlushInv(s')
  {
    if a.FlushOne? && s.io.flushed < |s.io.queued| {
      var n := s.io.flushed;
      SubsequenceSnoc(s.io.out, s.io.queued[..n], s.io.queued[n]);
      assert s.io.queued[..n] + [s.io.queued[n]] == s.io.queued[..n + 1];
    }
  }

  // ----- every submitted envelope is in exactly one place -----

  ghost predicate Holding(pc: Pc) {
    pc.OutStart? || pc.OutSawFlag? || pc.OutSending? || pc.OutQueueing?
  }

  function Draining(io: IoPc, q: Queued): nat {
    if io.Draining? && io.drained <= |io.batch| then Occurs(q, io.batch[io.drained..]) else 0
  }

  /** Copies of an envelope that are queued, being drained, sent or cleared. */
  function Placed(s: State, q: Queued): nat {
    Occurs(q, s.box.queue) + Draining(s.io, q) + Occurs(q, s.box.sent) + s.box.cleared[q]
  }

  ghost predicate HeldBy(s: State, t: nat, env: Envelope) {
    t in s.threads && Holding(s.threads[t]) && s.threads[t].env == env
  }

  /** One copy of each submission: in its caller's hands or in one of the four places; none of anything else. */
  ghost predicate Accounted(s: State, q: Queued) {
    Placed(s, q) + (if HeldBy(s, q.ticket, q.env) then 1 else 0) ==
    if q.ticket in s.box.submitted && s.box.submitted[q.ticket] == q.env then 1 else 0
  }

  ghost predicate BoxInv(s: State) {
    && s.box.submitted.Keys <= s.threads.Keys
    && forall q :: Accounted(s, q)
  }

  lemma Unmoved(s: State, s': State, q: Queued)
    requires Accounted(s, q)
    requires s'.box == s.box && Draining(s'.io, q) == Draining(s.io, q)
    requires HeldBy(s, q.ticket, q.env) <==> HeldBy(s', q.ticket, q.env)
    ensures Accounted(s', q)
  {}

  lemma CallerBox(s: State, a: CallerStep, s': State, q: Queued)
    requires Accounted(s, q) && CallerNext(s, a, s')
    ensures Accounted(s', q)
  {
    Unmoved(s, s', q);
  }

  lemma WatcherBox(s: State, a: WatcherStep, s': State, q: Queued)
    requires Accounted(s, q) && WatcherNext(s, a, s')
    ensures Accounted(s', q)
  {
    Unmoved(s, s', q);
  }

  lemma OutBox(s: State, a: OutStep, s': State, q: Queued)
    requires BoxInv(s) && OutNext(s, a, s')
    ensures Accounted(s', q)
  {
    assert Accounted(s, q);
    if a.Submit? {
      SubmitBox(s, a.t, a.env, s', q);
    } else if a.OutSendNow? {
      SendNowBox(s, a.t, s', q);
    } else if a.OutPush? {
      PushBox(s, a.t, s', q);
    } else {
      assert HeldBy(s, q.ticket, q.env) <==> HeldBy(s', q.ticket, q.env);
      Unmoved(s, s', q);
    }
  }

  lemma SubmitBox(s: State, t: nat, env: Envelope, s': State, q: Queued)
    requires Accounted(s, q) && s.box.submitted.Keys <= s.threads.Keys && OutNext(s, Submit(t, env), s')
    ensures Accounted(s', q)
  {
    assert t !in s.box.submitted;
    assert Placed(s', q) == Placed(s, q);
  }

  lemma SendNowBox(s: State, t: nat, s': State, q: Queued)
    requires Accounted(s, q) && OutNext(s, OutSendNow(t), s')
    ensures Accounted(s', q)
  {
    var x := Queued(t, s.threads[t].env);
    OccursInSnoc(q, s.box.sent, x);
    assert Placed(s', q) == Placed(s, q) + (if q == x then 1 else 0);
  }

  lemma PushBox(s: State, t: nat, s': State, q: Queued)
    requires Accounted(s, q) && OutNext(s, OutPush(t), s')
    ensures Accounted(s', q)
  {
    var x := Queued(t, s.threads[t].env);
    OccursInSnoc(q, s.box.queue, x);
    assert Placed(s', q) == Placed(s, q) + (if q == x then 1 else 0);
  }

  lemma LeaveBox(s: State, a: LeaveStep, s': State, q: Queued)
    requires Accounted(s, q) && LeaveNext(s, a, s')
    ensures Accounted(s', q)
  {
    assert HeldBy(s, q.ticket, q.env) <==> HeldBy(s', q.ticket, q.env);
    if s'.box == s.box {
      Unmoved(s, s', q);
    } else {
      assert Occurs(q, s'.box.queue) == 0;
    }
  }

  lemma AuthBox(s: State, a: IoStep, s': State, q: Queued)
    requires Accounted(s, q) && AuthNext(s, a, s')
    ensures Accounted(s', q)
  {
    assert HeldBy(s, q.ticket, q.env) <==> HeldBy(s', q.ticket, q.env);
    if a.Swap? {
      OccursInWhole(q, s.box.queue);
    } else if a.DrainOne? && s.io.drained < |s.io.batch| {
      OccursInTail(q, s.io.batch, s.io.drained);
      OccursInSnoc(q, s.box.sent, s.io.batch[s.io.drained]);
    } else {
      Unmoved(s, s', q);
    }
  }

  lemma InboundBox(s: State, a: IoStep, s': State, q: Queued)
    requires Accounted(s, q) && InboundNext(s, a, s')
    ensures Accounted(s', q)
  {
    Unmoved(s, s', q);
  }

  /** Part way through a flush of the outbox, what was drained went out in queue order. */
  ghost predicate DrainInv(s: State) {
    s.io.Draining? ==>
      && s.io.drained <= |s.io.batch|
      && s.io.from <= |s.box.sent|
      && Subsequence(s.io.batch[..s.io.drained], s.box.sent[s.io.from..])
  }

  lemma DrainAuth(s: State, a: IoStep, s': State)
    requires DrainInv(s) && AuthNext(s, a, s')
    ensures DrainInv(s')
  {
    if a.DrainOne? && s.io.drained < |s.io.batch| {
      var (n, from) := (s.io.drained, s.io.from);
      SubsequenceSnoc(s.io.batch[..n], s.box.sent[from..], s.io.batch[n]);
      assert s.io.batch[..n] + [s.io.batch[n]] == s.io.batch[..n + 1];
      assert s.box.sent[from..] + [s.io.batch[n]] == s'.box.sent[from..];
    }
  }

  lemma DrainOut(s: State, a: OutStep, s': State)
    requires DrainInv(s) && OutNext(s, a, s')
    ensures DrainInv(s')
  {
    if a.OutSendNow? && s.io.Draining? {
      var (n, from, q) := (s.io.drained, s.io.from, Queued(a.t, s.threads[a.t].env));
      SubsequenceSnoc(s.io.batch[..n], s.box.sent[from..], q);
      assert s.box.sent[from..] + [q] == s'.box.sent[from..];
    }
  }

  // ----- envelopes stranded by a late push, or by a key upload that throws -----

  /** The outbox flush of the current AUTH_OK has emptied the queue, or never will. */
  ghost predicate PastSwap(io: IoPc) {
    !(io.Authenticated? || io.ResendSawFlag? || io.ResendReady? || io.Resending? ||
      io.FlushStart? || io.FlushSawFlag? || io.FlushReady?)
  }

  /** Ready, past the flush, and yet envelopes wait for the next AUTH_OK. */
  ghost predicate Stranded(s: State) {
    s.link.Ready() && PastSwap(s.io) && s.box.queue != []
  }

  /** A push by a caller that judged the link unready before this AUTH_OK, after the swap. */
  ghost predicate LatePush(s: State, a: Step) {
    a.Out? && a.o.OutPush? && s.link.Ready() && PastSwap(s.io)
  }

  /** The key upload of an AUTH_OK throws while envelopes are queued. */
  ghost predicate ThrowsOnQueue(s: State, a: Step) { a == Io(UploadThrows) && s.link.Ready() && s.box.queue != [] }

  ghost predicate StampInv(s: State) {
    && s.box.swapEpoch <= s.link.epoch
    && s.thrown <= s.link.epoch
    && (s.link.Ready() && PastSwap(s.io) ==> s.box.swapEpoch == s.link.epoch || s.thrown == s.link.epoch)
    && (forall t :: t in s.threads && s.threads[t].OutQueueing? ==>
          s.threads[t].readEpoch <= s.link.epoch && (s.link.Ready() ==> s.threads[t].readEpoch < s.link.epoch))
    && (forall q :: q in s.box.queue ==>
          && q.ticket in s.box.stamps
          && s.box.stamps[q.ticket].readEpoch <= s.link.epoch
          && (s.link.Ready() ==> s.box.stamps[q.ticket].readEpoch < s.link.epoch)
          && s.box.stamps[q.ticket].swapEpoch == s.box.swapEpoch)
  }

  lemma StampOut(s: State, a: OutStep, s': State)
    requires StampInv(s) && OutNext(s, a, s')
    ensures StampInv(s')
  {}

  lemma StampCaller(s: State, a: CallerStep, s': State)
    requires StampInv(s) && CallerNext(s, a, s')
    ensures StampInv(s')
  {}

  lemma StampWatcher(s: State, a: WatcherStep, s': State)
    requires StampInv(s) && WatcherNext(s, a, s')
    ensures StampInv(s')
  {}

  lemma StampLeave(s: State, a: LeaveStep, s': State)
    requires LinkInv(s) && StampInv(s) && LeaveNext(s, a, s')
    ensures StampInv(s')
  {}

  lemma StampAuthOk(s: State, s': State)
    requires LinkInv(s) && StampInv(s) && AuthNext(s, AuthOk, s')
    ensures StampInv(s')
  {}

  lemma StampSwap(s: State, s': State)
    requires StampInv(s) && AuthNext(s, Swap, s')
    ensures StampInv(s')
  {}

  lemma StampDrain(s: State, s': State)
    requires StampInv(s) && AuthNext(s, DrainOne, s')
    ensures StampInv(s')
  {}

  lemma StampThrows(s: State, s': State)
    requires StampInv(s) && AuthNext(s, UploadThrows, s')
    ensures StampInv(s')
  {}

  /** A step that leaves box, link and threads alone and does not come past the swap on a ready link. */
  lemma StampSame(s: State, s': State)
    requires StampInv(s) && s'.box == s.box && s'.threads == s.threads && s'.thrown == s.thrown
    requires s'.link == s.link || (s'.link.epoch == s.link.epoch && !s'.link.Ready())
    requires s'.link.Ready() && PastSwap(s'.io) ==> PastSwap(s.io)
    ensures StampInv(s')
  {}

  lemma AuthOther(s: State, a: IoStep, s': State)
    requires LinkInv(s) && AuthNext(s, a, s') && !a.AuthOk? && !a.Swap? && !a.DrainOne? && !a.UploadThrows?
    ensures s'.box == s.box && s'.threads == s.threads && s'.thrown == s.thrown && s'.link == s.link
    ensures s'.link.Ready() && PastSwap(s'.io) ==> PastSwap(s.io)
  {}

  lemma StampAuth(s: State, a: IoStep, s': State)
    requires LinkInv(s) && StampInv(s) && AuthNext(s, a, s')
    ensures StampInv(s')
  {
    if a.AuthOk? {
      StampAuthOk(s, s');
    } else if a.Swap? {
      StampSwap(s, s');
    } else if a.DrainOne? {
      StampDrain(s, s');
    } else if a.UploadThrows? {
      StampThrows(s, s');
    } else {
      AuthOther(s, a, s');
      StampSame(s, s');
    }
  }

  /** What every other inbound message leaves alone. */
  lemma InboundFrame(s: State, a: IoStep, s': State)
    requires LinkInv(s) && InboundNext(s, a, s')
    ensures s'.box == s.box && s'.threads == s.threads && s'.thrown == s.thrown && s'.clock == s.clock
    ensures s'.link == s.link || (s'.link.epoch == s.link.epoch && !s'.link.Ready())
    ensures s'.link.Ready() && PastSwap(s'.io) ==> PastSwap(s.io)
  {}

  lemma StampInbound(s: State, a: IoStep, s': State)
    requires LinkInv(s) && StampInv(s) && InboundNext(s, a, s')
    ensures StampInv(s')
  {
    InboundFrame(s, a, s');
    StampSame(s, s');
  }
}
