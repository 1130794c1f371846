/** How long the timeout watchers keep an entry: the budget of one watcher, and the exact condition
    under which a queued message gets the whole of it. */
module DeliveryTiming {
  import opened Prelude
  import opened DeliveryTables
  import opened DeliveryProtocol
  import opened DeliveryProofs
  import opened DeliveryRuns

  predicate Running(pc: Pc) { pc.Sleeping? || pc.Woke? || pc.WokeSawFlag? || pc.Looking? || pc.Closing? }

  /** The thread is a running watcher of the entry. */
  ghost predicate Watches(pc: Pc, kind: Kind, u: User) {
    Running(pc) && pc.kind == kind && pc.user == u
  }

  ghost predicate IsWatcher(s: State, w: nat, kind: Kind, u: User) { w in s.threads && Watches(s.threads[w], kind, u) }

  /** What a step may do to a watcher it does not belong to: nothing, or spawn it with a full budget and
      the clock's time. */
  ghost predicate LeavesAlone(s: State, s': State, w: nat) {
    && (w in s.threads ==>
          w in s'.threads && (Running(s.threads[w]) || Running(s'.threads[w]) ==> s'.threads[w] == s.threads[w]))
    && (w !in s.threads && w in s'.threads && Running(s'.threads[w]) ==>
          s'.threads[w].Sleeping? && s'.threads[w].remaining == TIMEOUT_MS && s'.threads[w].ticks == 0 &&
          s'.threads[w].since == s.clock)
  }

  lemma CallerLeavesAlone(s: State, a: CallerStep, s': State, w: nat)
    requires CallerNext(s, a, s')
    ensures LeavesAlone(s, s', w)
  {}

  lemma OutLeavesAlone(s: State, a: OutStep, s': State, w: nat)
    requires OutNext(s, a, s')
    ensures LeavesAlone(s, s', w)
  {}

  lemma LeaveLeavesAlone(s: State, a: LeaveStep, s': State, w: nat)
    requires LeaveNext(s, a, s')
    ensures LeavesAlone(s, s', w)
  {}

  lemma AuthLeavesAlone(s: State, a: IoStep, s': State, w: nat)
    requires AuthNext(s, a, s')
    ensures LeavesAlone(s, s', w)
  {
    assert s'.threads == s.threads;
  }

  lemma InboundLeavesAlone(s: State, a: IoStep, s': State, w: nat)
    requires InboundNext(s, a, s')
    ensures LeavesAlone(s, s', w)
  {
    assert s'.threads == s.threads;
  }

  lemma WatcherLeavesAlone(s: State, a: WatcherStep, s': State, w: nat)
    requires WatcherNext(s, a, s') && a.t != w
    ensures LeavesAlone(s, s', w)
  {}

  lemma OthersLeaveAlone(s: State, a: Step, s': State, w: nat)
    requires Next(s, a, s') && !(a.Watcher? && a.w.t == w)
    ensures LeavesAlone(s, s', w)
  {
    match a
    case Caller(c) => CallerLeavesAlone(s, c, s', w);
    case Watcher(x) => WatcherLeavesAlone(s, x, s', w);
    case Out(o) => OutLeavesAlone(s, o, s', w);
    case Leave(l) => LeaveLeavesAlone(s, l, s', w);
    case Io(i) => if AuthNext(s, i, s') { AuthLeavesAlone(s, i, s', w); } else { InboundLeavesAlone(s, i, s', w); }
    case Tick(_) => assert s'.threads == s.threads;
  }

  lemma RunStep(states: seq<State>, steps: seq<Step>, k: nat)
    requires Run(states, steps) && k < |steps|
    ensures Next(states[k], steps[k], states[k + 1])
  {
    assert StepAt(states, steps, k);
  }

  lemma RunBasic(states: seq<State>, steps: seq<Step>, k: nat, w: nat)
    requires Run(states, steps) && k < |states|
    ensures w in states[k].threads ==> BudgetOk(states[k].threads[w])
  {
    RunKeeps(states, steps, k);
  }

  // ----- at most fifty wake-ups on a ready link -----

  predicate ReadyWake(s: State, a: Step, w: nat) { a == Watcher(WakeReadLink(w)) && s.link.connected }

  /** Wake-ups of the watcher, among the first `k` steps, that found the link ready. */
  function ReadyWakes(states: seq<State>, steps: seq<Step>, w: nat, k: nat): nat
    requires k <= |steps| && |states| == |steps| + 1
  {
    if k == 0 then 0
    else ReadyWakes(states, steps, w, k - 1) + if ReadyWake(states[k - 1], steps[k - 1], w) then 1 else 0
  }

  ghost predicate TicksAre(threads: map<nat, Pc>, w: nat, n: nat) {
    if w !in threads then n == 0
    else
      var pc := threads[w];
      if Running(pc) then pc.ticks == n
      else n <= 50
  }

  lemma OwnTicks(s: State, a: WatcherStep, s': State, n: nat)
    requires WatcherNext(s, a, s') && BudgetOk(s.threads[a.t]) && TicksAre(s.threads, a.t, n)
    ensures TicksAre(s'.threads, a.t, n + if a.WakeReadLink? && s.link.connected then 1 else 0)
  {}

  lemma TicksStep(s: State, a: Step, s': State, w: nat, n: nat)
    requires Next(s, a, s') && TicksAre(s.threads, w, n) && (w in s.threads ==> BudgetOk(s.threads[w]))
    ensures TicksAre(s'.threads, w, n + if ReadyWake(s, a, w) then 1 else 0)
  {
    if a.Watcher? && a.w.t == w {
      OwnTicks(s, a.w, s', n);
    } else {
      OthersLeaveAlone(s, a, s', w);
    }
  }

  lemma {:induction false} TicksCount(states: seq<State>, steps: seq<Step>, w: nat, k: nat)
    requires Run(states, steps) && k <= |steps|
    ensures TicksAre(states[k].threads, w, ReadyWakes(states, steps, w, k))
  {
    if k > 0 {
      var (s, a, s', n) := (states[k - 1], steps[k - 1], states[k], ReadyWakes(states, steps, w, k - 1));
      TicksCount(states, steps, w, k - 1);
      RunBasic(states, steps, k - 1, w);
      RunStep(states, steps, k - 1);
      TicksStep(s, a, s', w, n);
      assert ReadyWakes(states, steps, w, k) == n + if ReadyWake(s, a, w) then 1 else 0;
    }
  }

  /** No watcher wakes up on a ready link more than fifty times. */
  lemma AtMostFiftyReadyWakes(states: seq<State>, steps: seq<Step>, w: nat)
    requires Run(states, steps)
    ensures ReadyWakes(states, steps, w, |steps|) <= 50
  {
    TicksCount(states, steps, w, |steps|);
    RunBasic(states, steps, |steps|, w);
  }

  /** Where a watcher has ended, its entry was gone at the moment it ended. */
  lemma {:induction false} EndedWatcherLeftNoEntry(states: seq<State>, steps: seq<Step>, w: nat, kind: Kind, u: User,
                                                   i: nat, j: nat) returns (k: nat)
    requires Run(states, steps) && i <= j <= |steps|
    requires IsWatcher(states[i], w, kind, u) && !IsWatcher(states[j], w, kind, u)
    ensures i < k <= j && !states[k].tables.Present(kind, u)
    decreases j
  {
    if IsWatcher(states[j - 1], w, kind, u) {
      k := j;
      RunStep(states, steps, j - 1);
      EndingStep(states[j - 1], steps[j - 1], states[j], w, kind, u);
    } else {
      k := EndedWatcherLeftNoEntry(states, steps, w, kind, u, i, j - 1);
    }
  }

  lemma EndingMove(s: State, a: WatcherStep, s': State)
    requires WatcherNext(s, a, s') && Running(s.threads[a.t])
    ensures s'.threads[a.t] == Done ||
            (Running(s'.threads[a.t]) && s'.threads[a.t].kind == s.threads[a.t].kind &&
             s'.threads[a.t].user == s.threads[a.t].user)
  {}

  lemma EndingStep(s: State, a: Step, s': State, w: nat, kind: Kind, u: User)
    requires Next(s, a, s') && IsWatcher(s, w, kind, u) && !IsWatcher(s', w, kind, u)
    ensures !s'.tables.Present(kind, u)
  {
    if a.Watcher? && a.w.t == w {
      EndingMove(s, a.w, s');
      WatcherLeavesNoEntry(s, a.w, s');
    } else {
      OthersLeaveAlone(s, a, s', w);
    }
  }

  // ----- the clock -----

  lemma InboundClock(s: State, a: IoStep, s': State)
    requires InboundNext(s, a, s')
    ensures s'.clock == s.clock
  {}

  lemma ClockStep(s: State, a: Step, s': State)
    requires Next(s, a, s')
    ensures s.clock <= s'.clock && (!a.Tick? ==> s'.clock == s.clock)
  {
    match a
    case Caller(c) => CallerFrame(s, c, s');
    case Watcher(x) => WatcherFrame(s, x, s');
    case Out(o) => OutFrame(s, o, s');
    case Leave(l) =>
    case Io(i) => if AuthNext(s, i, s') { AuthFrame(s, i, s'); } else { InboundClock(s, i, s'); }
    case Tick(_) =>
  }

  lemma {:induction false} ClockGrows(states: seq<State>, steps: seq<Step>, i: nat, j: nat)
    requires Run(states, steps) && i <= j <= |steps|
    ensures states[i].clock <= states[j].clock
    decreases j
  {
    if i < j {
      ClockGrows(states, steps, i, j - 1);
      RunStep(states, steps, j - 1);
      ClockStep(states[j - 1], steps[j - 1], states[j]);
    }
  }

  /** The time up to which the watcher has settled its account. */
  function Settled(pc: Pc): nat
    requires Running(pc) && !pc.Closing?
  {
    if pc.Sleeping? || pc.Looking? then pc.since else pc.now
  }

  ghost predicate InTime(s: State, w: nat) {
    w in s.threads && Running(s.threads[w]) && !s.threads[w].Closing? ==> Settled(s.threads[w]) <= s.clock
  }

  lemma OwnInTime(s: State, a: WatcherStep, s': State)
    requires WatcherNext(s, a, s') && InTime(s, a.t)
    ensures InTime(s', a.t)
  {}

  lemma {:induction false} AlwaysInTime(states: seq<State>, steps: seq<Step>, w: nat, i: nat)
    requires Run(states, steps) && i <= |steps|
    ensures InTime(states[i], w)
  {
    if i > 0 {
      var (s, a, s') := (states[i - 1], steps[i - 1], states[i]);
      AlwaysInTime(states, steps, w, i - 1);
      RunStep(states, steps, i - 1);
      ClockStep(s, a, s');
      if a.Watcher? && a.w.t == w {
        OwnInTime(s, a.w, s');
      } else {
        OthersLeaveAlone(s, a, s', w);
      }
    }
  }

  // ----- the time a message is kept -----

  /** The part of a sleep that lies after a moment. */
  function After(since: int, now: int, moment: int): nat { Max(0, now - Max(since, moment)) }

  /** Ready time charged by one step: the sleep of the watcher that has found the flag and then the link
      on, as far as it lies after the moment. */
  function Charge(s: State, a: Step, w: nat, moment: int): nat {
    if a == Watcher(WakeReadLink(w)) && s.link.connected && w in s.threads && s.threads[w].WokeSawFlag?
    then After(s.threads[w].since, s.threads[w].now, moment)
    else 0
  }

  /** Ready time the watcher has slept after the moment, charged by the steps `from` up to `end`. */
  function Charged(states: seq<State>, steps: seq<Step>, w: nat, moment: int, from: nat, end: nat): nat
    requires from <= end <= |steps| && |states| == |steps| + 1
  {
    if from == end then 0
    else Charged(states, steps, w, moment, from, end - 1) + Charge(states[end - 1], steps[end - 1], w, moment)
  }

  /** The watcher has neither used any of its budget nor begun a sleep before now. */
  ghost predicate Untouched(pc: Pc, clock: nat) {
    (pc.Sleeping? || pc.Looking?) && pc.remaining == TIMEOUT_MS && pc.since == clock
  }

  ghost predicate Worn(s: State, w: nat, kind: Kind, u: User) {
    IsWatcher(s, w, kind, u) && !Untouched(s.threads[w], s.clock)
  }

  /** Since the moment the watcher has been charged what it has used, and no sleep of it began before. */
  ghost predicate Pays(s: State, w: nat, paid: nat, moment: nat) {
    if w !in s.threads then paid == 0 && moment <= s.clock
    else
      var pc := s.threads[w];
      && moment <= s.clock
      && (pc.Sleeping? || pc.Looking? ==> pc.remaining == TIMEOUT_MS - paid && moment + paid <= pc.since <= s.clock)
      && (pc.Woke? || pc.WokeSawFlag? ==>
            pc.remaining == TIMEOUT_MS - paid && moment + paid <= pc.since <= pc.now <= s.clock)
      && (pc.Closing? ==> TIMEOUT_MS <= paid <= s.clock - moment)
  }

  lemma OwnPays(s: State, a: WatcherStep, s': State, paid: nat, moment: nat)
    requires WatcherNext(s, a, s') && BudgetOk(s.threads[a.t]) && Running(s.threads[a.t]) && Pays(s, a.t, paid, moment)
    ensures Pays(s', a.t, paid + Charge(s, Watcher(a), a.t, moment), moment)
  {}

  lemma OthersPay(s: State, s': State, w: nat, paid: nat, moment: nat)
    requires LeavesAlone(s, s', w) && Pays(s, w, paid, moment) && s.clock <= s'.clock
    ensures w in s'.threads && Running(s'.threads[w]) ==> Pays(s', w, paid, moment)
    ensures w !in s'.threads ==> Pays(s', w, paid, moment)
  {}

  /** Where nothing is claimed of a thread: it is there, and no watcher of the entry. */
  ghost predicate Other(s: State, w: nat, kind: Kind, u: User) { w in s.threads && !Watches(s.threads[w], kind, u) }

  lemma PayStep(s: State, a: Step, s': State, w: nat, kind: Kind, u: User, paid: nat, moment: nat)
    requires Next(s, a, s') && (w in s.threads ==> BudgetOk(s.threads[w]))
    requires Other(s, w, kind, u) || Pays(s, w, paid, moment)
    ensures Other(s', w, kind, u) || Pays(s', w, paid + Charge(s, a, w, moment), moment)
  {
    ClockStep(s, a, s');
    if a.Watcher? && a.w.t == w {
      OwnPayStep(s, a.w, s', kind, u, paid, moment);
    } else {
      OthersLeaveAlone(s, a, s', w);
      OthersPayStep(s, s', w, kind, u, paid, moment);
    }
  }

  lemma OwnPayStep(s: State, a: WatcherStep, s': State, kind: Kind, u: User, paid: nat, moment: nat)
    requires WatcherNext(s, a, s') && BudgetOk(s.threads[a.t])
    requires Other(s, a.t, kind, u) || Pays(s, a.t, paid, moment)
    ensures Other(s', a.t, kind, u) || Pays(s', a.t, paid + Charge(s, Watcher(a), a.t, moment), moment)
  {
    EndingMove(s, a, s');
    if Watches(s.threads[a.t], kind, u) {
      OwnPays(s, a, s', paid, moment);
    }
  }

  lemma OthersPayStep(s: State, s': State, w: nat, kind: Kind, u: User, paid: nat, moment: nat)
    requires LeavesAlone(s, s', w) && s.clock <= s'.clock
    requires Other(s, w, kind, u) || Pays(s, w, paid, moment)
    ensures Other(s', w, kind, u) || Pays(s', w, paid, moment)
  {
    if !Other(s, w, kind, u) {
      OthersPay(s, s', w, paid, moment);
    }
  }

  lemma NotWornOwesNothing(s: State, w: nat, kind: Kind, u: User)
    requires !Worn(s, w, kind, u)
    ensures Other(s, w, kind, u) || Pays(s, w, 0, s.clock)
  {}

  lemma PayAt(states: seq<State>, steps: seq<Step>, k: nat, w: nat, kind: Kind, u: User, paid: nat, moment: nat)
    requires Run(states, steps) && k < |steps| && (Other(states[k], w, kind, u) || Pays(states[k], w, paid, moment))
    ensures Other(states[k + 1], w, kind, u) ||
            Pays(states[k + 1], w, paid + Charge(states[k], steps[k], w, moment), moment)
  {
    RunStep(states, steps, k);
    RunBasic(states, steps, k, w);
    PayStep(states[k], steps[k], states[k + 1], w, kind, u, paid, moment);
  }

  lemma {:induction false} NotWornPays(states: seq<State>, steps: seq<Step>, w: nat, kind: Kind, u: User,
                                       j: nat, i: nat)
    requires Run(states, steps) && j <= i <= |steps| && !Worn(states[j], w, kind, u)
    ensures Other(states[i], w, kind, u) ||
            Pays(states[i], w, Charged(states, steps, w, states[j].clock, j, i), states[j].clock)
    decreases i - j
  {
    var moment := states[j].clock;
    if i == j {
      NotWornOwesNothing(states[j], w, kind, u);
    } else {
      NotWornPays(states, steps, w, kind, u, j, i - 1);
      PayAt(states, steps, i - 1, w, kind, u, Charged(states, steps, w, moment, j, i - 1), moment);
    }
  }

  // ----- no more is charged than has passed -----

  ghost predicate Within(s: State, w: nat, charged: nat, moment: int) {
    if w !in s.threads then charged == 0
    else
      var pc := s.threads[w];
      if Running(pc) && !pc.Closing? then charged <= Max(0, pc.since - moment) else charged <= Max(0, s.clock - moment)
  }

  lemma OwnWithin(s: State, a: WatcherStep, s': State, charged: nat, moment: int)
    requires WatcherNext(s, a, s') && BudgetOk(s.threads[a.t]) && InTime(s, a.t) && Within(s, a.t, charged, moment)
    ensures Within(s', a.t, charged + Charge(s, Watcher(a), a.t, moment), moment)
  {}

  lemma OthersWithin(s: State, s': State, w: nat, charged: nat, moment: int)
    requires LeavesAlone(s, s', w) && Within(s, w, charged, moment) && s.clock <= s'.clock
    ensures Within(s', w, charged, moment)
  {}

  lemma {:induction false} ChargedWithin(states: seq<State>, steps: seq<Step>, w: nat, moment: int, j: nat, i: nat)
    requires Run(states, steps) && j <= i <= |steps| && moment == states[j].clock
    ensures Within(states[i], w, Charged(states, steps, w, moment, j, i), moment)
    decreases i - j
  {
    if i > j {
      var (s, a, s', charged) := (states[i - 1], steps[i - 1], states[i], Charged(states, steps, w, moment, j, i - 1));
      ChargedWithin(states, steps, w, moment, j, i - 1);
      RunStep(states, steps, i - 1);
      RunBasic(states, steps, i - 1, w);
      AlwaysInTime(states, steps, w, i - 1);
      ClockStep(s, a, s');
      if a.Watcher? && a.w.t == w {
        OwnWithin(s, a.w, s', charged, moment);
      } else {
        OthersLeaveAlone(s, a, s', w);
        OthersWithin(s, s', w, charged, moment);
      }
    }
  }

  /** A watcher is charged at most for the time that has passed. */
  lemma ChargedAtMostPassed(states: seq<State>, steps: seq<Step>, w: nat, j: nat, i: nat)
    requires Run(states, steps) && j <= i <= |steps|
    ensures Charged(states, steps, w, states[j].clock, j, i) <= states[i].clock - states[j].clock
  {
    ChargedWithin(states, steps, w, states[j].clock, j, i);
    RunBasic(states, steps, i, w);
    AlwaysInTime(states, steps, w, i);
    ClockGrows(states, steps, j, i);
  }

  /** What is left of a watcher's budget is the timeout less the ready time it has slept; one that is
      about to close its entry has slept all of it. */
  lemma BudgetIsTimeoutLessCharges(states: seq<State>, steps: seq<Step>, w: nat, kind: Kind, u: User, i: nat)
    requires Run(states, steps) && i <= |steps| && IsWatcher(states[i], w, kind, u)
    ensures var (pc, slept) := (states[i].threads[w], Charged(states, steps, w, states[0].clock, 0, i));
            if pc.Closing? then slept >= 10_000 else pc.remaining + slept == 10_000
  {
    NotWornPays(states, steps, w, kind, u, 0, i);
  }

  /** If no watcher of the entry is worn at some moment, the entry is closed only by a watcher that has
      slept the whole timeout on a ready link after that moment, so at least that much later. */
  lemma FullTimeUnlessWorn(states: seq<State>, steps: seq<Step>, kind: Kind, u: User, j: nat, k: nat, w: nat)
    requires Run(states, steps) && j <= k < |steps|
    requires forall v :: v in states[j].threads ==> !Worn(states[j], v, kind, u)
    requires steps[k] == Watcher(Close(w)) && IsWatcher(states[k], w, kind, u)
    ensures Charged(states, steps, w, states[j].clock, j, k) >= 10_000
    ensures states[k].clock - states[j].clock >= 10_000
  {
    NotWornPays(states, steps, w, kind, u, j, k);
    RunStep(states, steps, k);
    assert states[k].threads[w].Closing?;
  }
}
