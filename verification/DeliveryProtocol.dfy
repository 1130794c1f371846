/** The delivery protocol as a state machine. A step is one critical section, one atomic load or
    store, or one hand-over to the transport; the UI thread, the network thread and the detached
    timeout threads interleave freely. */
module DeliveryProtocol {
  import opened Prelude
  import opened DeliveryTables

  const TIMEOUT_MS := 10000
  const TICK_MS := 200

  /** The stages of `on_transport_disconnected`. */
  datatype Stage = ClearFlag | ClearTables | ClearOutbox | ClearSessions

  /** Where a thread stands between two steps. A thread id stands for one call or one watcher. */
  datatype Pc =
    | Done
    // request_key and request_key_bundle_only, after opening an entry
    | Inserted(kind: Kind, user: User)
    | SawFlag(kind: Kind, user: User)
    | Sending(kind: Kind, user: User)
    | Spawning(kind: Kind, user: User)
    // await_pending_send_timeout and await_pending_repair_timeout; `since` is `last_tick`
    | Sleeping(kind: Kind, user: User, remaining: int, ticks: nat, since: nat)
    | Woke(kind: Kind, user: User, remaining: int, ticks: nat, since: nat, now: nat)
    | WokeSawFlag(kind: Kind, user: User, remaining: int, ticks: nat, since: nat, now: nat)
    | Looking(kind: Kind, user: User, remaining: int, ticks: nat, since: nat)
    | Closing(kind: Kind, user: User, ticks: nat)
    // send_or_queue_authenticated
    | OutStart(env: Envelope)
    | OutSawFlag(env: Envelope)
    | OutSending(env: Envelope)
    | OutQueueing(env: Envelope, readEpoch: nat)
    // on_transport_disconnected called outside the network thread
    | Leaving(stage: Stage)

  /** Where the network thread stands. */
  datatype IoPc =
    | Offline
    | Online
    | Dropped(stage: Stage)
    // on_auth_ok: resend_pending_key_requests, then flush_pending_authenticated
    | Authenticated
    | ResendSawFlag
    | ResendReady
    | Resending(todo: seq<User>)
    | FlushStart
    | FlushSawFlag
    | FlushReady
    | Draining(batch: seq<Queued>, drained: nat, from: nat)
    // handle_key_bundle
    | Bundled(user: User)
    | Flushing(user: User, queued: seq<PendingSend>, flushed: nat, out: seq<PendingSend>, failed: nat)
    // handle_identity_reset
    | Resetting(user: User)

  /** An envelope in the outbox; the ticket is the call that submitted it. */
  datatype Queued = Queued(ticket: nat, env: Envelope)

  /** When a queued envelope was judged unsendable, and how many swaps preceded its push. */
  datatype Stamp = Stamp(readEpoch: nat, swapEpoch: nat)

  /** History of the plaintexts given to `request_key` for one user. */
  datatype Ledger = Ledger(
    submitted: multiset<PendingSend>,
    sent: multiset<PendingSend>,
    failed: multiset<PendingSend>,
    timedOut: multiset<PendingSend>,
    erased: multiset<PendingSend>,
    notFound: multiset<PendingSend>,
    cleared: multiset<PendingSend>,
    lost: multiset<PendingSend>)
  {
    /** How often a message has left the tables and the flush for good. */
    function Settled(m: PendingSend): nat {
      sent[m] + failed[m] + timedOut[m] + erased[m] + notFound[m] + cleared[m] + lost[m]
    }
  }

  const BlankLedger :=
    Ledger(multiset{}, multiset{}, multiset{}, multiset{}, multiset{}, multiset{}, multiset{}, multiset{})

  /** The connection flags; `epoch` counts AUTH_OKs. */
  datatype Link = Link(authenticated: bool, connected: bool, epoch: nat) {
    predicate Ready() { authenticated && connected }
  }

  /** `pending_authenticated_` and the history of what was submitted to it: `swapEpoch` is the
      epoch of the last swap, `submitted` maps a ticket to its envelope. */
  datatype Outbox = Outbox(
    queue: seq<Queued>,
    swapEpoch: nat,
    submitted: map<nat, Envelope>,
    stamps: map<nat, Stamp>,
    sent: seq<Queued>,
    cleared: multiset<Queued>)

  const EmptyOutbox := Outbox([], 0, map[], map[], [], multiset{})

  /** Shared state, program counters, the clock in milliseconds, and history. `asked` holds the entries
      for which a KEY_REQUEST went out since they were opened and since the last AUTH_OK, `orphans`
      those that waited unasked when the key upload of that AUTH_OK threw; `thrown` is the epoch of the
      last AUTH_OK whose upload threw. */
  datatype State = State(
    autoReconnect: bool,
    link: Link,
    tables: Tables,
    sessions: set<User>,
    threads: map<nat, Pc>,
    io: IoPc,
    asked: set<(Kind, User)>,
    orphans: set<(Kind, User)>,
    thrown: nat,
    clock: nat,
    ledger: map<User, Ledger>,
    box: Outbox)
  {
    function Move(t: nat, pc: Pc): State { this.(threads := threads[t := pc]) }

    /** Entries that wait without a KEY_REQUEST. */
    function Unasked(): set<(Kind, User)> {
      (set u | u in tables.sends && (Dm, u) !in asked :: (Dm, u)) +
      (set u | u in tables.repairs && (Repair, u) !in asked :: (Repair, u))
    }

    function LedgerOf(u: User): Ledger { if u in ledger then ledger[u] else BlankLedger }
  }

  ghost predicate Init(s: State) {
    && s.link == Link(false, false, 0) && s.tables == NoEntries
    && s.threads == map[] && s.io == Offline && s.asked == {} && s.ledger == map[]
    && s.orphans == {} && s.thrown == 0
    && s.box == EmptyOutbox
  }

  // ----- request_key, request_key_bundle_only -----

  datatype CallerStep =
    | RequestKey(t: nat, u: User, m: PendingSend)
    | RequestRepair(t: nat, u: User)
    | ReadFlag(t: nat)
    | ReadLink(t: nat)
    | SendRequest(t: nat)
    | SpawnWatcher(t: nat, w: nat)

  ghost predicate CallerNext(s: State, a: CallerStep, s': State) {
    match a
    case RequestKey(t, u, m) =>
      && t !in s.threads
      && var (tables, first) := s.tables.QueueSend(u, m);
      && var l := s.LedgerOf(u);
      s' == s.(tables := tables,
               asked := if first then s.asked - {(Dm, u)} else s.asked,
               orphans := if first then s.orphans - {(Dm, u)} else s.orphans,
               ledger := s.ledger[u := l.(submitted := l.submitted + multiset{m})],
               threads := s.threads[t := if first then Inserted(Dm, u) else Done])
    case RequestRepair(t, u) =>
      && t !in s.threads
      && var (tables, added) := s.tables.AddRepair(u);
      s' == s.(tables := tables,
               asked := if added then s.asked - {(Repair, u)} else s.asked,
               orphans := if added then s.orphans - {(Repair, u)} else s.orphans,
               threads := s.threads[t := if added then Inserted(Repair, u) else Done])
    case ReadFlag(t) =>
      && t in s.threads && s.threads[t].Inserted?
      && var pc := s.threads[t];
      s' == s.Move(t, if s.link.authenticated then SawFlag(pc.kind, pc.user) else Spawning(pc.kind, pc.user))
    case ReadLink(t) =>
      && t in s.threads && s.threads[t].SawFlag?
      && var pc := s.threads[t];
      s' == s.Move(t, if s.link.connected then Sending(pc.kind, pc.user) else Spawning(pc.kind, pc.user))
    case SendRequest(t) =>
      && t in s.threads && s.threads[t].Sending?
      && var pc := s.threads[t];
      s' == s.(asked := s.asked + {(Dm, pc.user), (Repair, pc.user)},
               orphans := s.orphans - {(Dm, pc.user), (Repair, pc.user)},
               threads := s.threads[t := Spawning(pc.kind, pc.user)])
    case SpawnWatcher(t, w) =>
      && t in s.threads && s.threads[t].Spawning? && w !in s.threads
      && var pc := s.threads[t];
      s' == s.(threads := s.threads[t := Done][w := Sleeping(pc.kind, pc.user, TIMEOUT_MS, 0, s.clock)])
  }

  // ----- the timeout watchers -----

  datatype WatcherStep =
    | Wake(t: nat)
    | WakeReadFlag(t: nat)
    | WakeReadLink(t: nat)
    | Look(t: nat)
    | Close(t: nat)

  ghost predicate WatcherNext(s: State, a: WatcherStep, s': State) {
    match a
    case Wake(t) =>
      && t in s.threads && s.threads[t].Sleeping? && s.clock - s.threads[t].since >= TICK_MS
      && var pc := s.threads[t];
      s' == s.Move(t, Woke(pc.kind, pc.user, pc.remaining, pc.ticks, pc.since, s.clock))
    case WakeReadFlag(t) =>
      && t in s.threads && s.threads[t].Woke?
      && var pc := s.threads[t];
      s' == s.Move(t, if s.link.authenticated
                      then WokeSawFlag(pc.kind, pc.user, pc.remaining, pc.ticks, pc.since, pc.now)
                      else Looking(pc.kind, pc.user, pc.remaining, pc.ticks, pc.now))
    case WakeReadLink(t) =>
      && t in s.threads && s.threads[t].WokeSawFlag?
      && var pc := s.threads[t];
      s' == s.Move(t, if s.link.connected
                      then Looking(pc.kind, pc.user, pc.remaining - (pc.now - pc.since), pc.ticks + 1, pc.now)
                      else Looking(pc.kind, pc.user, pc.remaining, pc.ticks, pc.now))
    case Look(t) =>
      && t in s.threads && s.threads[t].Looking?
      && var pc := s.threads[t];
      s' == s.Move(t, if !s.tables.Present(pc.kind, pc.user) then Done
                      else if pc.remaining > 0 then Sleeping(pc.kind, pc.user, pc.remaining, pc.ticks, pc.since)
                      else Closing(pc.kind, pc.user, pc.ticks))
    case Close(t) =>
      && t in s.threads && s.threads[t].Closing?
      && var pc := s.threads[t];
      && var l := s.LedgerOf(pc.user);
      s' == s.(tables := s.tables.Expire(pc.kind, pc.user),
               ledger := if pc.kind == Repair then s.ledger
                         else s.ledger[pc.user := l.(timedOut := l.timedOut + multiset(s.tables.Queue(pc.user)))],
               threads := s.threads[t := Done])
  }

  // ----- send_or_queue_authenticated -----

  datatype OutStep =
    | Submit(t: nat, env: Envelope)
    | OutReadFlag(t: nat)
    | OutReadLink(t: nat)
    | OutSendNow(t: nat)
    | OutPush(t: nat)

  ghost predicate OutNext(s: State, a: OutStep, s': State) {
    match a
    case Submit(t, env) =>
      && t !in s.threads
      && s' == s.(threads := s.threads[t := OutStart(env)],
                  box := s.box.(submitted := s.box.submitted[t := env]))
    case OutReadFlag(t) =>
      && t in s.threads && s.threads[t].OutStart?
      && var pc := s.threads[t];
      s' == s.Move(t, if s.link.authenticated then OutSawFlag(pc.env) else OutQueueing(pc.env, s.link.epoch))
    case OutReadLink(t) =>
      && t in s.threads && s.threads[t].OutSawFlag?
      && var pc := s.threads[t];
      s' == s.Move(t, if s.link.connected then OutSending(pc.env) else OutQueueing(pc.env, s.link.epoch))
    case OutSendNow(t) =>
      && t in s.threads && s.threads[t].OutSending?
      && s' == s.(threads := s.threads[t := Done],
                  box := s.box.(sent := s.box.sent + [Queued(t, s.threads[t].env)]))
    case OutPush(t) =>
      && t in s.threads && s.threads[t].OutQueueing?
      && var pc := s.threads[t];
      s' == s.(threads := s.threads[t := Done],
               box := s.box.(queue := Pushed(s.box.queue, Queued(t, pc.env)),
                             stamps := s.box.stamps[t := Stamp(pc.readEpoch, s.box.swapEpoch)]))
  }

  // ----- on_transport_disconnected, on whichever thread -----

  datatype LeaveStep = UiLeaves(t: nat) | UiStage(t: nat) | IoStage

  function NextStage(stage: Stage, autoReconnect: bool): Option<Stage> {
    match stage
    case ClearFlag => Some(if autoReconnect then ClearSessions else ClearTables)
    case ClearTables => Some(ClearOutbox)
    case ClearOutbox => Some(ClearSessions)
    case ClearSessions => None
  }

  function ClearedLedger(s: State): map<User, Ledger> {
    map u | u in s.ledger.Keys + s.tables.sends.Keys ::
      var l := s.LedgerOf(u); l.(cleared := l.cleared + multiset(s.tables.Queue(u)))
  }

  /** The shared state after one stage; program counters are the caller's business. */
  ghost predicate StageEffect(s: State, stage: Stage, s': State) {
    && s'.autoReconnect == s.autoReconnect && s'.asked == s.asked && s'.orphans == s.orphans
    && s'.thrown == s.thrown && s'.clock == s.clock
    && s'.link == (if stage == ClearFlag then s.link.(authenticated := false) else s.link)
    && s'.tables == (if stage == ClearTables then NoEntries else s.tables)
    && s'.ledger == (if stage == ClearTables then ClearedLedger(s) else s.ledger)
    && s'.box == (if stage == ClearOutbox
                  then s.box.(queue := Swapped(s.box.queue).1, cleared := s.box.cleared + multiset(s.box.queue))
                  else s.box)
    && s'.sessions == (if stage == ClearSessions then {} else s.sessions)
  }

  ghost predicate LeaveNext(s: State, a: LeaveStep, s': State) {
    match a
    case UiLeaves(t) =>
      && t !in s.threads
      && s' == s.Move(t, Leaving(ClearFlag))
    case UiStage(t) =>
      && t in s.threads && s.threads[t].Leaving?
      && var stage := s.threads[t].stage;
      && var next := NextStage(stage, s.autoReconnect);
      && StageEffect(s, stage, s')
      && s'.io == s.io
      && s'.threads == s.threads[t := if next.Some? then Leaving(next.value) else Done]
    case IoStage =>
      && s.io.Dropped?
      && var next := NextStage(s.io.stage, s.autoReconnect);
      && StageEffect(s, s.io.stage, s')
      && s'.threads == s.threads
      && s'.io == if next.Some? then Dropped(next.value) else Offline
  }

  // ----- the network thread -----

  datatype IoStep =
    | Connect
    | Drop
    | AuthOk
    | UploadThrows
    | AuthFail
    | ResendReadFlag
    | ResendReadLink
    | Snapshot(todo: seq<User>)
    | ResendOne
    | FlushReadFlag
    | FlushReadLink
    | Swap
    | DrainOne
    | KeyBundle(u: User, established: bool)
    | TakeQueue
    | FlushOne(r: CipherResult)
    | FlushThrows
    | IdentityReset(u: User)
    | ForgetEntries
    | UserNotFound(named: User, blamed: User)
    | SessionLost(u: User)
    | SessionGained(u: User)

  /** `on_auth_ok`, from the flag store to the end of the outbox flush. A store write of the key upload
      may throw; the read loop catches that, and neither resend nor flush takes place. */
  ghost predicate AuthNext(s: State, a: IoStep, s': State) {
    match a
    case AuthOk =>
      && s.io.Online?
      && s' == s.(link := s.link.(authenticated := true, epoch := s.link.epoch + 1), asked := {}, orphans := {},
                  io := Authenticated)
    case UploadThrows =>
      && s.io.Authenticated?
      && s' == s.(io := Online, orphans := s.Unasked(), thrown := s.link.epoch)
    case ResendReadFlag =>
      && s.io.Authenticated?
      && s' == s.(io := if s.link.authenticated then ResendSawFlag else FlushStart)
    case ResendReadLink =>
      && s.io.ResendSawFlag?
      && s' == s.(io := if s.link.connected then ResendReady else FlushStart)
    case Snapshot(todo) =>
      && s.io.ResendReady?
      && s.tables.Targets(todo)
      && s' == s.(io := Resending(todo))
    case ResendOne =>
      && s.io.Resending?
      && var todo := s.io.todo;
      if todo == [] then s' == s.(io := FlushStart)
      else s' == s.(asked := s.asked + {(Dm, todo[0]), (Repair, todo[0])},
                    orphans := s.orphans - {(Dm, todo[0]), (Repair, todo[0])},
                    io := Resending(todo[1..]))
    case FlushReadFlag =>
      && s.io.FlushStart?
      && s' == s.(io := if s.link.authenticated then FlushSawFlag else Online)
    case FlushReadLink =>
      && s.io.FlushSawFlag?
      && s' == s.(io := if s.link.connected then FlushReady else Online)
    case Swap =>
      && s.io.FlushReady?
      && var (batch, rest) := Swapped(s.box.queue);
      s' == s.(box := s.box.(queue := rest, swapEpoch := s.link.epoch), io := Draining(batch, 0, |s.box.sent|))
    case DrainOne =>
      && s.io.Draining?
      && var n := s.io.drained;
      if n >= |s.io.batch| then s' == s.(io := Online)
      else s' == s.(box := s.box.(sent := s.box.sent + [s.io.batch[n]]), io := s.io.(drained := n + 1))
    case _ => false
  }

  /** One turn of the flush loop in `handle_key_bundle`. */
  ghost predicate FlushNext(s: State, r: CipherResult, s': State)
    requires s.io.Flushing?
  {
    var (u, n) := (s.io.user, s.io.flushed);
    if n >= |s.io.queued| then s' == s.(io := Online)
    else
      var m := s.io.queued[n];
      var (ok, session) := EncryptDm(u in s.sessions, r);
      var l := s.LedgerOf(u);
      s' == s.(sessions := if session then s.sessions else s.sessions - {u},
               ledger := s.ledger[u := if ok then l.(sent := l.sent + multiset{m})
                                       else l.(failed := l.failed + multiset{m})],
               io := if ok then s.io.(flushed := n + 1, out := s.io.out + [m])
                     else s.io.(flushed := n + 1, failed := s.io.failed + 1))
  }

  /** Connection changes and the other inbound messages. */
  ghost predicate InboundNext(s: State, a: IoStep, s': State) {
    match a
    case Connect =>
      && s.io.Offline?
      && s' == s.(link := s.link.(connected := true), io := Online)
    case Drop =>
      && s.io.Online?
      && s' == s.(link := s.link.(connected := false), io := Dropped(ClearFlag))
    case AuthFail =>
      && s.io.Online?
      && s' == s.(link := s.link.(authenticated := false))
    case KeyBundle(u, established) =>
      && s.io.Online? && u != ""
      && s' == if established then s.(sessions := s.sessions + {u}, io := Bundled(u)) else s
    case TakeQueue =>
      && s.io.Bundled?
      && var u := s.io.user;
      s' == s.(tables := s.tables.Forget(u),
               io := if u in s.tables.sends then Flushing(u, s.tables.sends[u], 0, [], 0) else Online)
    case FlushOne(r) => s.io.Flushing? && FlushNext(s, r, s')
    case FlushThrows =>
      // deleting a broken session throws: the rest of the batch is gone
      && s.io.Flushing? && s.io.flushed < |s.io.queued|
      && var l := s.LedgerOf(s.io.user);
      s' == s.(ledger := s.ledger[s.io.user := l.(lost := l.lost + multiset(s.io.queued[s.io.flushed..]))],
               io := Online)
    case IdentityReset(u) =>
      && s.io.Online? && u != ""
      && s' == s.(sessions := s.sessions - {u}, io := Resetting(u))
    case ForgetEntries =>
      && s.io.Resetting?
      && var u := s.io.user;
      && var l := s.LedgerOf(u);
      s' == s.(tables := s.tables.Forget(u),
               ledger := s.ledger[u := l.(erased := l.erased + multiset(s.tables.Queue(u)))],
               io := Online)
    case UserNotFound(named, blamed) =>
      && s.io.Online? && s.tables.Blames(named, blamed)
      && var l := s.LedgerOf(blamed);
      s' == s.(tables := s.tables.NotFound(blamed),
               ledger := if blamed == "" then s.ledger
                         else s.ledger[blamed := l.(notFound := l.notFound + multiset(s.tables.Queue(blamed)))])
    case SessionLost(u) =>
      s' == s.(sessions := s.sessions - {u})
    case SessionGained(u) =>
      s' == s.(sessions := s.sessions + {u})
    case _ => false
  }

  // ----- runs -----

  datatype Step =
    | Caller(c: CallerStep)
    | Watcher(w: WatcherStep)
    | Out(o: OutStep)
    | Leave(l: LeaveStep)
    | Io(i: IoStep)
    | Tick(elapsed: nat)

  ghost predicate Next(s: State, a: Step, s': State) {
    match a
    case Caller(c) => CallerNext(s, c, s')
    case Watcher(w) => WatcherNext(s, w, s')
    case Out(o) => OutNext(s, o, s')
    case Leave(l) => LeaveNext(s, l, s')
    case Io(i) => AuthNext(s, i, s') || InboundNext(s, i, s')
    case Tick(elapsed) => s' == s.(clock := s.clock + elapsed)
  }

  ghost predicate StepAt(states: seq<State>, steps: seq<Step>, i: nat)
    requires i < |steps| && |states| == |steps| + 1
  {
    Next(states[i], steps[i], states[i + 1])
  }

  /** A run from an initial state, any interleaving. */
  ghost predicate Run(states: seq<State>, steps: seq<Step>) {
    && |states| == |steps| + 1
    && Init(states[0])
    && forall i :: 0 <= i < |steps| ==> StepAt(states, steps, i)
  }
}
