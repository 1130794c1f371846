/** When a message queued now can be dropped before its ten seconds: the exact condition, in every
    reachable state. */
module DeliveryDrops {
  import opened Prelude
  import opened DeliveryTables
  import opened DeliveryProtocol
  import opened DeliveryProofs
  import opened DeliveryRuns
  import opened DeliveryTiming

  // ----- what is to be decided -----

  /** In a continuation of the run the message is queued next, stays queued, and is dropped by a watcher
      in the last step. */
  ghost predicate Drops(states: seq<State>, steps: seq<Step>, more: seq<State>, acts: seq<Step>,
                        u: User, t: nat, m: PendingSend, w: nat)
  {
    && |states| == |steps| + 1 && |steps| + 1 < |acts|
    && Run(more, acts) && states <= more && steps <= acts
    && acts[|steps|] == Caller(RequestKey(t, u, m))
    && var k := |acts| - 1;
    && acts[k] == Watcher(Close(w)) && IsWatcher(more[k], w, Dm, u)
    && (forall i :: |steps| < i <= k ==> m in more[i].tables.Queue(u))
  }

  /** ... and the drop comes less than ten seconds later. */
  ghost predicate DropsSoon(states: seq<State>, steps: seq<Step>, more: seq<State>, acts: seq<Step>,
                            u: User, t: nat, m: PendingSend, w: nat)
  {
    && Drops(states, steps, more, acts, u, t, m, w)
    && more[|acts| - 1].clock - more[|steps|].clock < TIMEOUT_MS
  }

  /** ... and the watcher has slept less than ten seconds on a ready link since the message was queued. */
  ghost predicate DropsEarly(states: seq<State>, steps: seq<Step>, more: seq<State>, acts: seq<Step>,
                             u: User, t: nat, m: PendingSend, w: nat)
  {
    && Drops(states, steps, more, acts, u, t, m, w)
    && Charged(more, acts, w, more[|steps|].clock, |steps|, |acts| - 1) < TIMEOUT_MS
  }

  ghost predicate CanDropSoon(states: seq<State>, steps: seq<Step>, u: User, m: PendingSend) {
    exists more, acts, t, w :: DropsSoon(states, steps, more, acts, u, t, m, w)
  }

  ghost predicate CanDropEarly(states: seq<State>, steps: seq<Step>, u: User, m: PendingSend) {
    exists more, acts, t, w :: DropsEarly(states, steps, more, acts, u, t, m, w)
  }

  /** The watcher has used up its budget and needs no link any more. */
  ghost predicate Spent(s: State, w: nat)
    requires w in s.threads
  {
    var pc := s.threads[w];
    || pc.Closing?
    || (pc.Looking? && pc.remaining <= 0)
    || (pc.WokeSawFlag? && pc.remaining <= pc.now - pc.since && s.link.connected)
  }

  /** The network thread takes or clears the user's entry before it can get the link ready. */
  ghost predicate Doomed(s: State, u: User) {
    && !s.link.Ready()
    && ((s.io.Bundled? && s.io.user == u) || (s.io.Resetting? && s.io.user == u) || s.io == Dropped(ClearTables) ||
        (s.io == Dropped(ClearFlag) && !s.autoReconnect))
  }

  /** A running watcher that has used some of its budget, or sleeps since before now, and that can come
      to its end. */
  ghost predicate Threatens(s: State, w: nat, u: User) {
    Worn(s, w, Dm, u) && (Spent(s, w) || !Doomed(s, u))
  }

  // ----- no early drop without a threat -----

  /** The entry is doomed and the watcher cannot close it first. */
  ghost predicate Blocked(s: State, w: nat, u: User) {
    Doomed(s, u) && (IsWatcher(s, w, Dm, u) ==> !Spent(s, w))
  }

  lemma BlockedByOwn(s: State, a: WatcherStep, s': State, u: User)
    requires WatcherNext(s, a, s') && BudgetOk(s.threads[a.t]) && Blocked(s, a.t, u)
    ensures Blocked(s', a.t, u)
  {}

  lemma DoomedByIo(s: State, a: IoStep, s': State, u: User)
    requires AuthNext(s, a, s') || InboundNext(s, a, s')
    requires Doomed(s, u) && u in s'.tables.sends
    ensures Doomed(s', u) && s'.link == s.link
  {
    if AuthNext(s, a, s') {
    } else {
      assert !a.TakeQueue? && !a.ForgetEntries?;
    }
  }

  lemma DoomedByOther(s: State, a: Step, s': State, u: User)
    requires Next(s, a, s') && !a.Io? && Doomed(s, u) && u in s'.tables.sends
    ensures Doomed(s', u) && s'.link.connected == s.link.connected
  {
    match a
    case Caller(c) => CallerFrame(s, c, s');
    case Watcher(x) => WatcherFrame(s, x, s');
    case Out(o) => OutFrame(s, o, s');
    case Leave(l) => DoomedByLeave(s, l, s', u);
    case Tick(_) =>
  }

  lemma DoomedByLeave(s: State, a: LeaveStep, s': State, u: User)
    requires LeaveNext(s, a, s') && Doomed(s, u) && u in s'.tables.sends
    ensures Doomed(s', u) && s'.link.connected == s.link.connected
  {}

  lemma BlockedStep(s: State, a: Step, s': State, w: nat, u: User)
    requires Next(s, a, s') && (w in s.threads ==> BudgetOk(s.threads[w]))
    requires Blocked(s, w, u) && u in s'.tables.sends
    ensures Blocked(s', w, u)
  {
    if a.Watcher? && a.w.t == w {
      BlockedByOwn(s, a.w, s', u);
    } else {
      if a.Io? {
        DoomedByIo(s, a.i, s', u);
      } else {
        DoomedByOther(s, a, s', u);
      }
      OthersLeaveAlone(s, a, s', w);
    }
  }

  lemma {:induction false} StaysBlocked(states: seq<State>, steps: seq<Step>, w: nat, u: User, j: nat, i: nat)
    requires Run(states, steps) && j <= i <= |steps| && Blocked(states[j], w, u)
    requires forall x :: j < x <= i ==> u in states[x].tables.sends
    ensures Blocked(states[i], w, u)
    decreases i - j
  {
    if i > j {
      StaysBlocked(states, steps, w, u, j, i - 1);
      RunStep(states, steps, i - 1);
      RunBasic(states, steps, i - 1, w);
      BlockedStep(states[i - 1], steps[i - 1], states[i], w, u);
    }
  }

  lemma EarlyDropNeedsThreat(states: seq<State>, steps: seq<Step>, more: seq<State>, acts: seq<Step>,
                             u: User, t: nat, m: PendingSend, w: nat)
    requires DropsEarly(states, steps, more, acts, u, t, m, w)
    ensures Threatens(states[|steps|], w, u)
  {
    var (n, k) := (|steps|, |acts| - 1);
    assert more[n] == states[n];
    RunStep(more, acts, k);
    assert more[k].threads[w].Closing?;
    NotWornOrFull(more, acts, u, n, k, w);
    if Doomed(more[n], u) && !Spent(more[n], w) {
      assert Blocked(more[n], w, u);
      forall x | n < x <= k ensures u in more[x].tables.sends {
        assert m in more[x].tables.Queue(u);
      }
      StaysBlocked(more, acts, w, u, n, k);
      assert false;
    }
  }

  /** A watcher that closes the entry with less than the timeout slept since was worn. */
  lemma NotWornOrFull(states: seq<State>, steps: seq<Step>, u: User, j: nat, k: nat, w: nat)
    requires Run(states, steps) && j <= k < |steps|
    requires steps[k] == Watcher(Close(w)) && IsWatcher(states[k], w, Dm, u) && states[k].threads[w].Closing?
    requires Charged(states, steps, w, states[j].clock, j, k) < TIMEOUT_MS
    ensures Worn(states[j], w, Dm, u)
  {
    if !Worn(states[j], w, Dm, u) {
      NotWornPays(states, steps, w, Dm, u, j, k);
      assert false;
    }
  }

  // ----- a threat can be carried out -----

  /** The run can be continued by this step, and the message stays queued. */
  lemma Extend(states: seq<State>, steps: seq<Step>, a: Step, s': State)
    requires Run(states, steps) && Next(states[|steps|], a, s')
    ensures Run(states + [s'], steps + [a])
  {
    var (more, acts) := (states + [s'], steps + [a]);
    forall i | 0 <= i < |acts| ensures StepAt(more, acts, i) {
      if i < |steps| {
        RunStep(states, steps, i);
      }
    }
  }

  /** A continuation with no more than `wait` on the clock in which the message stays queued. */
  ghost predicate Continues(states: seq<State>, steps: seq<Step>, more: seq<State>, acts: seq<Step>,
                            u: User, m: PendingSend, wait: int)
  {
    && |states| == |steps| + 1 && |more| == |acts| + 1
    && Run(more, acts) && states <= more && steps <= acts
    && more[|acts|].clock - states[|steps|].clock <= wait
    && forall i :: |steps| <= i <= |acts| ==> m in more[i].tables.Queue(u)
  }

  lemma ContinuesOne(states: seq<State>, steps: seq<Step>, a: Step, s': State, u: User, m: PendingSend)
    requires Run(states, steps) && Next(states[|steps|], a, s')
    requires m in states[|steps|].tables.Queue(u) && m in s'.tables.Queue(u)
    ensures Continues(states, steps, states + [s'], steps + [a], u, m, s'.clock - states[|steps|].clock)
  {
    Extend(states, steps, a, s');
  }

  lemma ContinuesFurther(s0: seq<State>, a0: seq<Step>, s1: seq<State>, a1: seq<Step>, s2: seq<State>, a2: seq<Step>,
                         u: User, m: PendingSend, x: int, y: int)
    requires Continues(s0, a0, s1, a1, u, m, x) && Continues(s1, a1, s2, a2, u, m, y)
    ensures Continues(s0, a0, s2, a2, u, m, x + y)
  {
    forall i | |a0| <= i <= |a2| ensures m in s2[i].tables.Queue(u) {
      if i <= |a1| {
        assert s2[i] == s1[i];
      }
    }
  }

  lemma {:induction false} FreshThread(used: set<nat>) returns (t: nat)
    ensures forall x :: x in used ==> x < t
    decreases used
  {
    if used == {} {
      t := 0;
    } else {
      var x :| x in used;
      var rest := FreshThread(used - {x});
      t := Max(rest, x + 1);
      assert forall y :: y in used ==> y == x || y in used - {x};
    }
  }

  /** What the steps that lead to the end leave as it was. */
  ghost predicate Same(s: State, s': State, w: nat) {
    w in s.threads && w in s'.threads && s'.threads[w] == s.threads[w] && s'.clock == s.clock &&
    s'.autoReconnect == s.autoReconnect
  }

  lemma QueueOne(states: seq<State>, steps: seq<Step>, u: User, m: PendingSend, w: nat)
    returns (more: seq<State>, acts: seq<Step>, t: nat)
    requires Run(states, steps) && w in states[|steps|].threads
    ensures Run(more, acts) && states <= more && acts == steps + [Caller(RequestKey(t, u, m))]
    ensures var (s, s') := (states[|steps|], more[|acts|]);
            Same(s, s', w) && s'.link == s.link && s'.io == s.io && m in s'.tables.Queue(u)
  {
    var s := states[|steps|];
    t := FreshThread(s.threads.Keys);
    var (tables, first) := s.tables.QueueSend(u, m);
    var l := s.LedgerOf(u);
    var s' := s.(tables := tables,
                 asked := if first then s.asked - {(Dm, u)} else s.asked,
                 orphans := if first then s.orphans - {(Dm, u)} else s.orphans,
                 ledger := s.ledger[u := l.(submitted := l.submitted + multiset{m})],
                 threads := s.threads[t := if first then Inserted(Dm, u) else Done]);
    var a := Caller(RequestKey(t, u, m));
    assert t !in s.threads.Keys;
    assert CallerNext(s, a.c, s');
    Extend(states, steps, a, s');
    more, acts := states + [s'], steps + [a];
  }

  /** How far the network thread is from getting the link ready. */
  function Phase(io: IoPc): nat {
    match io
    case Online => 0
    case Offline => 1
    case Draining(_, _, _) => 2
    case FlushReady => 3
    case FlushSawFlag => 4
    case FlushStart => 5
    case Resending(_) => 6
    case ResendReady => 7
    case ResendSawFlag => 8
    case Authenticated => 9
    case Flushing(_, _, _, _, _) => 2
    case Bundled(_) => 3
    case Resetting(_) => 3
    case Dropped(stage) => if stage == ClearSessions then 2 else if stage == ClearFlag then 4 else 3
  }

  function Rest(io: IoPc): nat {
    if io.Draining? && io.drained <= |io.batch| then |io.batch| - io.drained
    else if io.Resending? then |io.todo|
    else 0
  }

  lemma {:induction false} ListOf(users: set<User>) returns (list: seq<User>)
    ensures forall u :: u in list <==> u in users
    decreases users
  {
    if users == {} {
      list := [];
    } else {
      var x :| x in users;
      list := ListOf(users - {x});
      list := list + [x];
      assert forall u :: u in users <==> u == x || u in users - {x};
    }
  }

  lemma ResendTargets(tables: Tables) returns (todo: seq<User>)
    ensures tables.Targets(todo)
  {
    todo := ListOf((set u | u in tables.sends && tables.sends[u] != []) + tables.repairs);
  }

  /** The next step of the network thread on its way to a ready link. */
  ghost predicate Advances(s: State, a: Step, s': State, u: User) {
    && Next(s, a, s') && s'.threads == s.threads && s'.clock == s.clock && s'.autoReconnect == s.autoReconnect
    && s'.tables.Queue(u) == s.tables.Queue(u) && !Doomed(s', u)
    && (s'.link.Ready() || Phase(s'.io) < Phase(s.io) || (Phase(s'.io) == Phase(s.io) && Rest(s'.io) < Rest(s.io)))
  }

  lemma AdvanceResend(s: State, u: User) returns (a: IoStep, s': State)
    requires LinkInv(s) && !s.link.Ready() && !Doomed(s, u)
    requires s.io.Online? || s.io.Authenticated? || s.io.ResendSawFlag?
    ensures Advances(s, Io(a), s', u)
  {
    if s.io.Online? {
      a := AuthOk;
      s' := s.(link := s.link.(authenticated := true, epoch := s.link.epoch + 1), asked := {}, orphans := {},
               io := Authenticated);
    } else if s.io.Authenticated? {
      a, s' := UploadThrows, s.(io := Online, orphans := s.Unasked(), thrown := s.link.epoch);
    } else {
      a, s' := ResendReadLink, s.(io := ResendReady);
    }
  }

  lemma AdvanceTargets(s: State, u: User) returns (a: IoStep, s': State)
    requires !s.link.Ready() && (s.io.ResendReady? || s.io.Resending?)
    ensures Advances(s, Io(a), s', u)
  {
    if s.io.ResendReady? {
      var todo := ResendTargets(s.tables);
      a, s' := Snapshot(todo), s.(io := Resending(todo));
    } else {
      var todo := s.io.todo;
      a := ResendOne;
      s' := if todo == [] then s.(io := FlushStart)
            else s.(asked := s.asked + {(Dm, todo[0]), (Repair, todo[0])},
                    orphans := s.orphans - {(Dm, todo[0]), (Repair, todo[0])}, io := Resending(todo[1..]));
    }
  }

  lemma AdvanceFlush(s: State, u: User) returns (a: IoStep, s': State)
    requires LinkInv(s) && !s.link.Ready() && (s.io.FlushStart? || s.io.FlushSawFlag? || s.io.FlushReady?)
    ensures Advances(s, Io(a), s', u)
  {
    if s.io.FlushStart? {
      a, s' := FlushReadFlag, s.(io := Online);
    } else if s.io.FlushSawFlag? {
      a, s' := FlushReadLink, s.(io := FlushReady);
    } else {
      var (batch, rest) := Swapped(s.box.queue);
      a := Swap;
      s' := s.(box := s.box.(queue := rest, swapEpoch := s.link.epoch),
               io := DeliveryProtocol.Draining(batch, 0, |s.box.sent|));
    }
  }

  lemma AdvanceDrain(s: State, u: User) returns (s': State)
    requires !s.link.Ready() && s.io.Draining? && s.io.drained <= |s.io.batch|
    ensures Advances(s, Io(DrainOne), s', u)
  {
    var n := s.io.drained;
    s' := if n >= |s.io.batch| then s.(io := Online)
          else s.(box := s.box.(sent := s.box.sent + [s.io.batch[n]]), io := s.io.(drained := n + 1));
  }

  lemma AdvanceBundle(s: State, u: User) returns (s': State)
    requires !s.link.Ready() && s.io.Bundled? && s.io.user != u
    ensures Advances(s, Io(TakeQueue), s', u)
  {
    var v := s.io.user;
    s' := s.(tables := s.tables.Forget(v),
             io := if v in s.tables.sends then Flushing(v, s.tables.sends[v], 0, [], 0) else Online);
    assert s'.tables.Queue(u) == s.tables.Queue(u);
  }

  lemma AdvanceReset(s: State, u: User) returns (s': State)
    requires !s.link.Ready() && s.io.Resetting? && s.io.user != u
    ensures Advances(s, Io(ForgetEntries), s', u)
  {
    var v := s.io.user;
    var l := s.LedgerOf(v);
    s' := s.(tables := s.tables.Forget(v),
             ledger := s.ledger[v := l.(erased := l.erased + multiset(s.tables.Queue(v)))], io := Online);
    assert s'.tables.Queue(u) == s.tables.Queue(u);
  }

  lemma AdvanceBatch(s: State, u: User) returns (a: IoStep, s': State)
    requires !s.link.Ready() && s.io.Flushing? && s.io.flushed <= |s.io.queued|
    ensures Advances(s, Io(a), s', u)
  {
    if s.io.flushed == |s.io.queued| {
      a, s' := FlushOne(Encrypted), s.(io := Online);
    } else {
      var l := s.LedgerOf(s.io.user);
      a := FlushThrows;
      s' := s.(ledger := s.ledger[s.io.user := l.(lost := l.lost + multiset(s.io.queued[s.io.flushed..]))],
               io := Online);
    }
  }

  lemma AdvanceConnect(s: State, u: User)
    requires !s.link.Ready() && s.io.Offline?
    ensures Advances(s, Io(Connect), s.(link := s.link.(connected := true), io := Online), u)
  {}

  lemma AdvanceDropped(s: State, u: User) returns (s': State)
    requires !s.link.Ready() && !Doomed(s, u) && s.io.Dropped?
    ensures Advances(s, Leave(IoStage), s', u)
  {
    var next := NextStage(s.io.stage, s.autoReconnect);
    var io := if next.Some? then Dropped(next.value) else Offline;
    if s.io.stage == ClearFlag {
      s' := s.(link := s.link.(authenticated := false), io := io);
    } else if s.io.stage == ClearOutbox {
      s' := s.(box := s.box.(queue := [], cleared := s.box.cleared + multiset(s.box.queue)), io := io);
    } else {
      s' := s.(sessions := {}, io := io);
    }
  }

  lemma Advance(s: State, u: User) returns (a: Step, s': State)
    requires LinkInv(s) && DrainInv(s) && FlushInv(s) && !s.link.Ready() && !Doomed(s, u)
    ensures Advances(s, a, s', u)
  {
    var i: IoStep;
    if s.io.Dropped? {
      s' := AdvanceDropped(s, u);
      return Leave(IoStage), s';
    } else if s.io.Offline? {
      AdvanceConnect(s, u);
      i, s' := Connect, s.(link := s.link.(connected := true), io := Online);
    } else if s.io.Bundled? {
      s' := AdvanceBundle(s, u);
      i := TakeQueue;
    } else if s.io.Resetting? {
      s' := AdvanceReset(s, u);
      i := ForgetEntries;
    } else if s.io.Flushing? {
      i, s' := AdvanceBatch(s, u);
    } else if s.io.Draining? {
      s' := AdvanceDrain(s, u);
      i := DrainOne;
    } else if s.io.ResendReady? || s.io.Resending? {
      i, s' := AdvanceTargets(s, u);
    } else if s.io.FlushStart? || s.io.FlushSawFlag? || s.io.FlushReady? {
      i, s' := AdvanceFlush(s, u);
    } else {
      i, s' := AdvanceResend(s, u);
    }
    a := Io(i);
  }

  /** Where the entry is not doomed, the network thread can get the link ready in no time. */
  lemma {:induction false} GetReady(states: seq<State>, steps: seq<Step>, u: User, m: PendingSend, w: nat)
    returns (more: seq<State>, acts: seq<Step>)
    requires Run(states, steps)
    requires var s := states[|steps|]; w in s.threads && !Doomed(s, u) && m in s.tables.Queue(u)
    ensures Continues(states, steps, more, acts, u, m, 0)
    ensures more[|acts|].link.Ready() && Same(states[|steps|], more[|acts|], w)
    decreases !states[|steps|].link.Ready(), Phase(states[|steps|].io), Rest(states[|steps|].io)
  {
    var s := states[|steps|];
    if s.link.Ready() {
      more, acts := states, steps;
    } else {
      RunKeeps(states, steps, |steps|);
      var a, s' := Advance(s, u);
      ContinuesOne(states, steps, a, s', u, m);
      var (one, act) := (states + [s'], steps + [a]);
      more, acts := GetReady(one, act, u, m, w);
      ContinuesFurther(states, steps, one, act, more, acts, u, m, 0, 0);
    }
  }

  // ----- the watcher comes to its end -----

  /** Time on the clock until a watcher on a ready link can have slept its budget. */
  function Wait(pc: Pc, clock: nat): nat
    requires Running(pc)
  {
    if pc.Closing? then 0
    else if pc.Sleeping? || pc.Looking? then
      if pc.Looking? && pc.remaining <= 0 then 0 else Max(0, pc.since + Max(pc.remaining, TICK_MS) - clock)
    else
      var left := pc.remaining - (pc.now - pc.since);
      if left <= 0 then 0 else Max(0, pc.now + Max(left, TICK_MS) - clock)
  }

  lemma WornWaitsLess(s: State, w: nat, u: User)
    requires Worn(s, w, Dm, u) && BudgetOk(s.threads[w]) && InTime(s, w)
    ensures Wait(s.threads[w], s.clock) < TIMEOUT_MS
  {}

  function Rank(pc: Pc, clock: nat): nat
    requires Running(pc)
  {
    if pc.Closing? then 0
    else if pc.Looking? then (if pc.remaining <= 0 then 1 else 6)
    else if pc.WokeSawFlag? then (if pc.remaining <= pc.now - pc.since then 2 else 7)
    else if pc.Woke? then (if pc.remaining <= pc.now - pc.since then 3 else 8)
    else if pc.since + Max(pc.remaining, TICK_MS) <= clock then 4 else 5
  }

  /** The next step towards the end of a watcher whose entry is there. */
  ghost predicate Drives(s: State, a: Step, s': State, w: nat, u: User) {
    && Next(s, a, s') && IsWatcher(s, w, Dm, u) && IsWatcher(s', w, Dm, u)
    && s'.link == s.link && s'.tables == s.tables
    && Rank(s'.threads[w], s'.clock) < Rank(s.threads[w], s.clock)
    && s.clock <= s'.clock && s'.clock + Wait(s'.threads[w], s'.clock) <= s.clock + Wait(s.threads[w], s.clock)
    && BudgetOk(s'.threads[w])
  }

  lemma DriveSleeper(s: State, w: nat, u: User) returns (a: Step, s': State)
    requires IsWatcher(s, w, Dm, u) && s.threads[w].Sleeping? && BudgetOk(s.threads[w])
    ensures Drives(s, a, s', w, u)
  {
    var pc := s.threads[w];
    var d := pc.since + Max(pc.remaining, TICK_MS) - s.clock;
    if d > 0 {
      a, s' := Tick(d), s.(clock := s.clock + d);
    } else {
      a := Watcher(Wake(w));
      s' := s.Move(w, Woke(pc.kind, pc.user, pc.remaining, pc.ticks, pc.since, s.clock));
    }
  }

  lemma DriveLooker(s: State, w: nat, u: User) returns (a: Step, s': State)
    requires IsWatcher(s, w, Dm, u) && s.threads[w].Looking? && BudgetOk(s.threads[w]) && u in s.tables.sends
    ensures Drives(s, a, s', w, u)
  {
    var pc := s.threads[w];
    a := Watcher(Look(w));
    s' := s.Move(w, if pc.remaining > 0 then Sleeping(pc.kind, pc.user, pc.remaining, pc.ticks, pc.since)
                    else Closing(pc.kind, pc.user, pc.ticks));
  }

  lemma DriveWoken(s: State, w: nat, u: User) returns (a: Step, s': State)
    requires IsWatcher(s, w, Dm, u) && s.link.connected && BudgetOk(s.threads[w])
    requires s.threads[w].WokeSawFlag? || (s.threads[w].Woke? && s.link.authenticated)
    ensures Drives(s, a, s', w, u)
  {
    var pc := s.threads[w];
    if pc.Woke? {
      a := Watcher(WakeReadFlag(w));
      s' := s.Move(w, WokeSawFlag(pc.kind, pc.user, pc.remaining, pc.ticks, pc.since, pc.now));
    } else {
      a := Watcher(WakeReadLink(w));
      s' := s.Move(w, Looking(pc.kind, pc.user, pc.remaining - (pc.now - pc.since), pc.ticks + 1, pc.now));
    }
  }

  /** A watcher that is spent, or whose link is ready, can come to its closing section within its wait. */
  lemma {:induction false} DriveToClosing(states: seq<State>, steps: seq<Step>, u: User, m: PendingSend, w: nat)
    returns (more: seq<State>, acts: seq<Step>)
    requires Run(states, steps)
    requires var s := states[|steps|];
             && IsWatcher(s, w, Dm, u) && BudgetOk(s.threads[w]) && m in s.tables.Queue(u)
             && (Spent(s, w) || s.link.Ready())
    ensures var s := states[|steps|];
            && Continues(states, steps, more, acts, u, m, Wait(s.threads[w], s.clock))
            && IsWatcher(more[|acts|], w, Dm, u) && more[|acts|].threads[w].Closing?
    decreases Rank(states[|steps|].threads[w], states[|steps|].clock)
  {
    var s := states[|steps|];
    if s.threads[w].Closing? {
      more, acts := states, steps;
    } else {
      var a, s';
      if s.threads[w].Sleeping? {
        a, s' := DriveSleeper(s, w, u);
      } else if s.threads[w].Looking? {
        a, s' := DriveLooker(s, w, u);
      } else {
        a, s' := DriveWoken(s, w, u);
      }
      ContinuesOne(states, steps, a, s', u, m);
      var (one, act) := (states + [s'], steps + [a]);
      more, acts := DriveToClosing(one, act, u, m, w);
      ContinuesFurther(states, steps, one, act, more, acts, u, m,
                       s'.clock - s.clock, Wait(s'.threads[w], s'.clock));
    }
  }

  lemma CloseNow(states: seq<State>, steps: seq<Step>, u: User, w: nat) returns (more: seq<State>, acts: seq<Step>)
    requires Run(states, steps)
    requires IsWatcher(states[|steps|], w, Dm, u) && states[|steps|].threads[w].Closing?
    ensures Run(more, acts) && states <= more && acts == steps + [Watcher(Close(w))]
  {
    var s := states[|steps|];
    var l := s.LedgerOf(u);
    var s' := s.(tables := s.tables.Expire(Dm, u),
                 ledger := s.ledger[u := l.(timedOut := l.timedOut + multiset(s.tables.Queue(u)))],
                 threads := s.threads[w := Done]);
    var a := Watcher(Close(w));
    assert WatcherNext(s, a.w, s');
    Extend(states, steps, a, s');
    more, acts := states + [s'], steps + [a];
  }

  lemma PutTogether(states: seq<State>, steps: seq<Step>, one: seq<State>, act: seq<Step>, two: seq<State>,
                    acts2: seq<Step>, more: seq<State>, acts: seq<Step>, u: User, t: nat, m: PendingSend, w: nat)
    requires |states| == |steps| + 1 && |one| == |act| + 1
    requires states <= one && act == steps + [Caller(RequestKey(t, u, m))]
    requires one[|act|].clock == states[|steps|].clock
    requires Continues(one, act, two, acts2, u, m, TIMEOUT_MS - 1) && IsWatcher(two[|acts2|], w, Dm, u)
    requires Run(more, acts) && two <= more && acts == acts2 + [Watcher(Close(w))]
    ensures DropsSoon(states, steps, more, acts, u, t, m, w)
  {
    var k := |acts| - 1;
    assert more[k] == two[k] && more[|steps|] == states[|steps|];
    assert acts[|steps|] == acts2[|steps|] == act[|steps|];
    forall i | |steps| < i <= k ensures m in more[i].tables.Queue(u) {
      assert more[i] == two[i];
    }
  }

  lemma ThreatDropsSoon(states: seq<State>, steps: seq<Step>, u: User, m: PendingSend, w: nat)
    requires Run(states, steps) && Threatens(states[|steps|], w, u)
    ensures CanDropSoon(states, steps, u, m)
  {
    var s := states[|steps|];
    RunBasic(states, steps, |steps|, w);
    AlwaysInTime(states, steps, w, |steps|);
    WornWaitsLess(s, w, u);
    var one, act, t := QueueOne(states, steps, u, m, w);
    var (ready, racts) := (one, act);
    if !Spent(s, w) {
      ready, racts := GetReady(one, act, u, m, w);
    }
    var two, acts2 := DriveToClosing(ready, racts, u, m, w);
    var more, acts := CloseNow(two, acts2, u, w);
    var wait := Wait(s.threads[w], s.clock);
    if !Spent(s, w) {
      ContinuesFurther(one, act, ready, racts, two, acts2, u, m, 0, wait);
    }
    PutTogether(states, steps, one, act, two, acts2, more, acts, u, t, m, w);
    assert DropsSoon(states, steps, more, acts, u, t, m, w);
  }

  lemma SoonIsEarly(states: seq<State>, steps: seq<Step>, u: User, m: PendingSend)
    requires CanDropSoon(states, steps, u, m)
    ensures CanDropEarly(states, steps, u, m)
  {
    var more, acts, t, w :| DropsSoon(states, steps, more, acts, u, t, m, w);
    ChargedAtMostPassed(more, acts, w, |steps|, |acts| - 1);
    assert DropsEarly(states, steps, more, acts, u, t, m, w);
  }

  /** In every reachable state: a message queued next for a user can be dropped within ten seconds, or at
      any time with less than ten seconds of ready time slept since, if and only if a watcher of that user
      runs that has used some of its budget or sleeps since before now, unless it still needs a link that
      cannot get ready before the entry is taken or cleared. */
  lemma EarlyDropIffThreat(states: seq<State>, steps: seq<Step>, u: User, m: PendingSend)
    requires Run(states, steps)
    ensures CanDropSoon(states, steps, u, m) <==> exists w :: Threatens(states[|steps|], w, u)
    ensures CanDropEarly(states, steps, u, m) <==> exists w :: Threatens(states[|steps|], w, u)
  {
    if w :| Threatens(states[|steps|], w, u) {
      ThreatDropsSoon(states, steps, u, m, w);
      SoonIsEarly(states, steps, u, m);
    } else {
      if CanDropSoon(states, steps, u, m) {
        SoonIsEarly(states, steps, u, m);
      }
      if CanDropEarly(states, steps, u, m) {
        var more, acts, t, w :| DropsEarly(states, steps, more, acts, u, t, m, w);
        EarlyDropNeedsThreat(states, steps, more, acts, u, t, m, w);
        assert false;
      }
    }
  }
}
