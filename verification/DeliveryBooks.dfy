/** What is booked for a user's messages, and who has a session, told from the steps of a run. */
module DeliveryBooks {
  import opened Prelude
  import opened DeliveryTables
  import opened DeliveryProtocol
  import opened DeliveryProofs
  import opened DeliveryOrder

  // ----- the ledger -----

  /** What can become of a message, and its being given. */
  datatype Fate = Submitted | Sent | Failed | TimedOut | Erased | NotFound | Cleared | Lost

  function Booked(l: Ledger, fate: Fate): multiset<PendingSend> {
    match fate
    case Submitted => l.submitted
    case Sent => l.sent
    case Failed => l.failed
    case TimedOut => l.timedOut
    case Erased => l.erased
    case NotFound => l.notFound
    case Cleared => l.cleared
    case Lost => l.lost
  }

  /** The step is a turn of the user's flush. */
  ghost predicate FlushTurnOf(s: State, a: Step, u: User) {
    a.Io? && a.i.FlushOne? && s.io.Flushing? && s.io.user == u && s.io.flushed < |s.io.queued|
  }

  /** The turn gets a ciphertext: there is a session and the cipher does not refuse. */
  ghost predicate Encrypts(s: State, a: Step, u: User)
    requires FlushTurnOf(s, a, u)
  {
    u in s.sessions && a.i.r == Encrypted
  }

  ghost predicate ClearsTables(s: State, a: Step) {
    match a
    case Leave(UiStage(t)) => t in s.threads && s.threads[t] == Leaving(ClearTables)
    case Leave(IoStage) => s.io == Dropped(ClearTables)
    case _ => false
  }

  ghost predicate Blamed(s: State, a: Step, u: User) {
    a.Io? && a.i.UserNotFound? && u != "" && (a.i.named == u || (a.i.named == "" && s.tables.sends.Keys == {u}))
  }

  /** Messages of the user meet the fate in this step. */
  ghost predicate Happens(s: State, a: Step, u: User, fate: Fate) {
    match fate
    case Submitted => Asks(a, u)
    case Sent => FlushTurnOf(s, a, u) && Encrypts(s, a, u)
    case Failed => FlushTurnOf(s, a, u) && !Encrypts(s, a, u)
    case TimedOut => a.Watcher? && a.w.Close? && a.w.t in s.threads && Ends(s.threads[a.w.t], Dm, u)
    case Erased => a == Io(ForgetEntries) && s.io == Resetting(u)
    case NotFound => Blamed(s, a, u)
    case Cleared => ClearsTables(s, a)
    case Lost => a == Io(FlushThrows) && s.io.Flushing? && s.io.user == u && s.io.flushed < |s.io.queued|
  }

  /** The messages: the one given, the one whose turn it is, the rest of the batch, or all that wait. */
  ghost function Which(s: State, a: Step, u: User, fate: Fate): seq<PendingSend>
    requires Happens(s, a, u, fate)
  {
    match fate
    case Submitted => [a.c.m]
    case Sent => [s.io.queued[s.io.flushed]]
    case Failed => [s.io.queued[s.io.flushed]]
    case Lost => s.io.queued[s.io.flushed..]
    case _ => s.tables.Queue(u)
  }

  ghost predicate BooksStep(s: State, a: Step, s': State, u: User, fate: Fate) {
    Booked(s'.LedgerOf(u), fate) ==
    if Happens(s, a, u, fate) then Booked(s.LedgerOf(u), fate) + multiset(Which(s, a, u, fate))
    else Booked(s.LedgerOf(u), fate)
  }

  lemma SameBooks(s: State, a: Step, s': State, u: User, fate: Fate)
    requires s'.LedgerOf(u) == s.LedgerOf(u) && !Happens(s, a, u, fate)
    ensures BooksStep(s, a, s', u, fate)
  {}

  function Add(l: Ledger, fate: Fate, x: multiset<PendingSend>): Ledger {
    match fate
    case Submitted => l.(submitted := l.submitted + x)
    case Sent => l.(sent := l.sent + x)
    case Failed => l.(failed := l.failed + x)
    case TimedOut => l.(timedOut := l.timedOut + x)
    case Erased => l.(erased := l.erased + x)
    case NotFound => l.(notFound := l.notFound + x)
    case Cleared => l.(cleared := l.cleared + x)
    case Lost => l.(lost := l.lost + x)
  }

  lemma AddBooks(l: Ledger, hit: Fate, x: multiset<PendingSend>, fate: Fate)
    ensures Booked(Add(l, hit, x), fate) == if fate == hit then Booked(l, fate) + x else Booked(l, fate)
  {}

  /** One fate happens, and its messages are added to its account and no other. */
  lemma OneBook(s: State, a: Step, s': State, u: User, fate: Fate, hit: Fate)
    requires Happens(s, a, u, hit) && (Happens(s, a, u, fate) <==> fate == hit)
    requires s'.LedgerOf(u) == Add(s.LedgerOf(u), hit, multiset(Which(s, a, u, hit)))
    ensures BooksStep(s, a, s', u, fate)
  {
    var (l, l', x) := (s.LedgerOf(u), s'.LedgerOf(u), multiset(Which(s, a, u, hit)));
    AddBooks(l, hit, x, fate);
    assert Booked(l', fate) == if fate == hit then Booked(l, fate) + x else Booked(l, fate);
  }

  lemma RequestLedger(s: State, a: CallerStep, s': State, u: User)
    requires CallerNext(s, a, s')
    ensures s'.LedgerOf(u) == if Asks(Caller(a), u) then Add(s.LedgerOf(u), Submitted, multiset{a.m}) else s.LedgerOf(u)
  {}

  lemma CallerBooks(s: State, a: CallerStep, s': State, u: User, fate: Fate)
    requires CallerNext(s, a, s')
    ensures BooksStep(s, Caller(a), s', u, fate)
  {
    RequestLedger(s, a, s', u);
    if Asks(Caller(a), u) {
      OneBook(s, Caller(a), s', u, fate, Submitted);
    } else {
      SameBooks(s, Caller(a), s', u, fate);
    }
  }

  lemma CloseLedger(s: State, a: WatcherStep, s': State, u: User)
    requires WatcherNext(s, a, s')
    ensures s'.LedgerOf(u) == if a.Close? && Ends(s.threads[a.t], Dm, u)
                              then Add(s.LedgerOf(u), TimedOut, multiset(s.tables.Queue(u))) else s.LedgerOf(u)
  {}

  lemma WatcherBooks(s: State, a: WatcherStep, s': State, u: User, fate: Fate)
    requires WatcherNext(s, a, s')
    ensures BooksStep(s, Watcher(a), s', u, fate)
  {
    CloseLedger(s, a, s', u);
    assert a.t in s.threads;
    if a.Close? && Ends(s.threads[a.t], Dm, u) {
      OneBook(s, Watcher(a), s', u, fate, TimedOut);
    } else {
      SameBooks(s, Watcher(a), s', u, fate);
    }
  }

  lemma ClearLedger(s: State, a: LeaveStep, s': State, u: User)
    requires LeaveNext(s, a, s')
    ensures s'.LedgerOf(u) == if ClearsTables(s, Leave(a)) then Add(s.LedgerOf(u), Cleared, multiset(s.tables.Queue(u)))
                              else s.LedgerOf(u)
  {
    LeaveLedger(s, a, s');
    if ClearsTables(s, Leave(a)) && u !in ClearedLedger(s) {
      assert s.tables.Queue(u) == [] && s.LedgerOf(u) == BlankLedger;
    }
  }

  lemma LeaveLedger(s: State, a: LeaveStep, s': State)
    requires LeaveNext(s, a, s')
    ensures s'.ledger == if ClearsTables(s, Leave(a)) then ClearedLedger(s) else s.ledger
  {}

  lemma LeaveBooks(s: State, a: LeaveStep, s': State, u: User, fate: Fate)
    requires LeaveNext(s, a, s')
    ensures BooksStep(s, Leave(a), s', u, fate)
  {
    ClearLedger(s, a, s', u);
    if ClearsTables(s, Leave(a)) {
      OneBook(s, Leave(a), s', u, fate, Cleared);
    } else {
      SameBooks(s, Leave(a), s', u, fate);
    }
  }

  /** What a turn of a flush does to the ledger of its user. */
  lemma TurnLedger(s: State, r: CipherResult, s': State, u: User)
    requires s.io.Flushing? && FlushNext(s, r, s') && FlushTurnOf(s, Io(FlushOne(r)), u)
    ensures s'.LedgerOf(u) == Add(s.LedgerOf(u), if Encrypts(s, Io(FlushOne(r)), u) then Sent else Failed,
                                  multiset{s.io.queued[s.io.flushed]})
  {}

  lemma OtherTurn(s: State, r: CipherResult, s': State, u: User)
    requires s.io.Flushing? && FlushNext(s, r, s') && !FlushTurnOf(s, Io(FlushOne(r)), u)
    ensures s'.LedgerOf(u) == s.LedgerOf(u)
  {}

  lemma TurnBooks(s: State, r: CipherResult, s': State, u: User, fate: Fate)
    requires InboundNext(s, FlushOne(r), s')
    ensures BooksStep(s, Io(FlushOne(r)), s', u, fate)
  {
    var a := Io(FlushOne(r));
    if FlushTurnOf(s, a, u) {
      TurnLedger(s, r, s', u);
      OneBook(s, a, s', u, fate, if Encrypts(s, a, u) then Sent else Failed);
    } else {
      OtherTurn(s, r, s', u);
      SameBooks(s, a, s', u, fate);
    }
  }

  lemma ThrowLedger(s: State, s': State, u: User)
    requires InboundNext(s, FlushThrows, s')
    ensures s.io.Flushing? && s.io.flushed < |s.io.queued|
    ensures s'.LedgerOf(u) == if s.io.user != u then s.LedgerOf(u)
                              else Add(s.LedgerOf(u), Lost, multiset(s.io.queued[s.io.flushed..]))
  {}

  lemma ThrowBooks(s: State, s': State, u: User, fate: Fate)
    requires InboundNext(s, FlushThrows, s')
    ensures BooksStep(s, Io(FlushThrows), s', u, fate)
  {
    ThrowLedger(s, s', u);
    if s.io.user == u {
      OneBook(s, Io(FlushThrows), s', u, fate, Lost);
    } else {
      SameBooks(s, Io(FlushThrows), s', u, fate);
    }
  }

  lemma EraseLedger(s: State, s': State, u: User)
    requires InboundNext(s, ForgetEntries, s')
    ensures s.io.Resetting?
    ensures s'.LedgerOf(u) == if s.io.user != u then s.LedgerOf(u)
                              else Add(s.LedgerOf(u), Erased, multiset(s.tables.Queue(u)))
  {}

  lemma EraseBooks(s: State, s': State, u: User, fate: Fate)
    requires InboundNext(s, ForgetEntries, s')
    ensures BooksStep(s, Io(ForgetEntries), s', u, fate)
  {
    EraseLedger(s, s', u);
    if s.io.user == u {
      OneBook(s, Io(ForgetEntries), s', u, fate, Erased);
    } else {
      SameBooks(s, Io(ForgetEntries), s', u, fate);
    }
  }

  /** The user that an error is about is the one it blames. */
  lemma BlamedIs(s: State, named: User, blamed: User, u: User)
    requires s.tables.Blames(named, blamed)
    ensures Blamed(s, Io(UserNotFound(named, blamed)), u) <==> u != "" && u == blamed
  {
    if named == "" {
      if u != "" && s.tables.sends.Keys == {u} {
        assert |s.tables.sends.Keys| == 1;
        assert u in {blamed};
      }
      if u != "" && u == blamed {
        assert |s.tables.sends| == 1;
      }
    }
  }

  lemma BlameLedger(s: State, named: User, blamed: User, s': State, u: User)
    requires InboundNext(s, UserNotFound(named, blamed), s')
    ensures s.tables.Blames(named, blamed)
    ensures s'.LedgerOf(u) == if u == "" || u != blamed then s.LedgerOf(u)
                              else Add(s.LedgerOf(u), NotFound, multiset(s.tables.Queue(u)))
  {}

  lemma BlameBooks(s: State, named: User, blamed: User, s': State, u: User, fate: Fate)
    requires InboundNext(s, UserNotFound(named, blamed), s')
    ensures BooksStep(s, Io(UserNotFound(named, blamed)), s', u, fate)
  {
    BlameLedger(s, named, blamed, s', u);
    BlamedIs(s, named, blamed, u);
    if u == "" || u != blamed {
      SameBooks(s, Io(UserNotFound(named, blamed)), s', u, fate);
    } else {
      OneBook(s, Io(UserNotFound(named, blamed)), s', u, fate, NotFound);
    }
  }

  lemma OtherBooks(s: State, a: IoStep, s': State, u: User, fate: Fate)
    requires AuthNext(s, a, s') || InboundNext(s, a, s')
    requires !a.FlushOne? && !a.FlushThrows? && !a.ForgetEntries? && !a.UserNotFound?
    ensures BooksStep(s, Io(a), s', u, fate)
  {
    if AuthNext(s, a, s') {
      AuthFrame(s, a, s');
    }
    SameBooks(s, Io(a), s', u, fate);
  }

  lemma IoBooks(s: State, a: IoStep, s': State, u: User, fate: Fate)
    requires AuthNext(s, a, s') || InboundNext(s, a, s')
    ensures BooksStep(s, Io(a), s', u, fate)
  {
    assert AuthNext(s, a, s') ==> !a.FlushOne? && !a.FlushThrows? && !a.ForgetEntries? && !a.UserNotFound?;
    if a.FlushOne? {
      TurnBooks(s, a.r, s', u, fate);
    } else if a.FlushThrows? {
      ThrowBooks(s, s', u, fate);
    } else if a.ForgetEntries? {
      EraseBooks(s, s', u, fate);
    } else if a.UserNotFound? {
      BlameBooks(s, a.named, a.blamed, s', u, fate);
    } else {
      OtherBooks(s, a, s', u, fate);
    }
  }

  lemma StepBooks(s: State, a: Step, s': State, u: User, fate: Fate)
    requires Next(s, a, s')
    ensures BooksStep(s, a, s', u, fate)
  {
    match a
    case Caller(c) => CallerBooks(s, c, s', u, fate);
    case Watcher(w) => WatcherBooks(s, w, s', u, fate);
    case Out(o) => OutFrame(s, o, s');
    case Leave(l) => LeaveBooks(s, l, s', u, fate);
    case Io(x) => IoBooks(s, x, s', u, fate);
    case Tick(_) =>
  }

  /** All messages of the user that have met the fate in the first steps. */
  ghost function Met(states: seq<State>, steps: seq<Step>, u: User, fate: Fate, n: nat): multiset<PendingSend>
    requires n <= |steps| && |states| == |steps| + 1
  {
    if n == 0 then multiset{}
    else if !Happens(states[n - 1], steps[n - 1], u, fate) then Met(states, steps, u, fate, n - 1)
    else Met(states, steps, u, fate, n - 1) + multiset(Which(states[n - 1], steps[n - 1], u, fate))
  }

  lemma BooksAt(states: seq<State>, steps: seq<Step>, u: User, fate: Fate, k: nat)
    requires Run(states, steps) && k < |steps|
    ensures BooksStep(states[k], steps[k], states[k + 1], u, fate)
  {
    assert StepAt(states, steps, k);
    StepBooks(states[k], steps[k], states[k + 1], u, fate);
  }

  /** Every message is booked for what happened to it: as sent exactly if a turn of the user's flush met it
      with a session and a working cipher, as failed in any other turn, and so for each of the other ends. */
  lemma {:induction false} BookedAsMet(states: seq<State>, steps: seq<Step>, u: User, fate: Fate, n: nat)
    requires Run(states, steps) && n <= |steps|
    ensures Booked(states[n].LedgerOf(u), fate) == Met(states, steps, u, fate, n)
  {
    if n > 0 {
      BookedAsMet(states, steps, u, fate, n - 1);
      BooksAt(states, steps, u, fate, n - 1);
    }
  }

  // ----- envelopes handed over -----

  /** The envelope that the step hands to the transport. */
  ghost function HandedBy(s: State, a: Step): seq<Queued> {
    if a.Out? && a.o.OutSendNow? && a.o.t in s.threads && s.threads[a.o.t].OutSending? then
      [Queued(a.o.t, s.threads[a.o.t].env)]
    else if a == Io(DrainOne) && s.io.Draining? && s.io.drained < |s.io.batch| then [s.io.batch[s.io.drained]]
    else []
  }

  ghost predicate ClearsOutbox(s: State, a: Step) {
    match a
    case Leave(UiStage(t)) => t in s.threads && s.threads[t] == Leaving(ClearOutbox)
    case Leave(IoStage) => s.io == Dropped(ClearOutbox)
    case _ => false
  }

  ghost predicate BoxStep(s: State, a: Step, s': State) {
    && s'.box.sent == s.box.sent + HandedBy(s, a)
    && s'.box.cleared == if ClearsOutbox(s, a) then s.box.cleared + multiset(s.box.queue) else s.box.cleared
  }

  lemma SameBox(s: State, a: Step, s': State)
    requires s'.box == s.box && HandedBy(s, a) == [] && !ClearsOutbox(s, a)
    ensures BoxStep(s, a, s')
  {}

  lemma AuthHands(s: State, a: IoStep, s': State)
    requires AuthNext(s, a, s')
    ensures BoxStep(s, Io(a), s')
  {}

  lemma LeaveHands(s: State, a: LeaveStep, s': State)
    requires LeaveNext(s, a, s')
    ensures BoxStep(s, Leave(a), s')
  {}

  lemma OutHands(s: State, a: OutStep, s': State)
    requires OutNext(s, a, s')
    ensures BoxStep(s, Out(a), s')
  {}

  lemma InboundHands(s: State, a: IoStep, s': State)
    requires InboundNext(s, a, s')
    ensures s'.box == s.box && a != DrainOne
  {}

  lemma StepHands(s: State, a: Step, s': State)
    requires Next(s, a, s')
    ensures BoxStep(s, a, s')
  {
    match a
    case Caller(c) => CallerFrame(s, c, s'); SameBox(s, a, s');
    case Watcher(w) => WatcherFrame(s, w, s'); SameBox(s, a, s');
    case Out(o) => OutHands(s, o, s');
    case Leave(l) => LeaveHands(s, l, s');
    case Io(x) => if AuthNext(s, x, s') { AuthHands(s, x, s'); } else { InboundHands(s, x, s'); SameBox(s, a, s'); }
    case Tick(_) => SameBox(s, a, s');
  }

  ghost function HandedOver(states: seq<State>, steps: seq<Step>, n: nat): seq<Queued>
    requires n <= |steps| && |states| == |steps| + 1
  {
    if n == 0 then [] else HandedOver(states, steps, n - 1) + HandedBy(states[n - 1], steps[n - 1])
  }

  lemma HandsAt(states: seq<State>, steps: seq<Step>, k: nat)
    requires Run(states, steps) && k < |steps|
    ensures BoxStep(states[k], steps[k], states[k + 1])
  {
    assert StepAt(states, steps, k);
    StepHands(states[k], steps[k], states[k + 1]);
  }

  /** What counts as sent is what was handed to the transport, in that order: directly by its caller, or in
      its turn of a drain. */
  lemma {:induction false} SentAsHandedOver(states: seq<State>, steps: seq<Step>, n: nat)
    requires Run(states, steps) && n <= |steps|
    ensures states[n].box.sent == HandedOver(states, steps, n)
  {
    if n > 0 {
      SentAsHandedOver(states, steps, n - 1);
      HandsAt(states, steps, n - 1);
    }
  }

  // ----- sessions -----

  predicate Gains(a: Step, u: User) { a == Io(KeyBundle(u, true)) || a == Io(SessionGained(u)) }

  ghost predicate Loses(s: State, a: Step, u: User) {
    match a
    case Io(IdentityReset(user)) => user == u
    case Io(SessionLost(user)) => user == u
    case Io(FlushOne(r)) => FlushTurnOf(s, a, u) && r == CipherBroke
    case Leave(UiStage(t)) => t in s.threads && s.threads[t] == Leaving(ClearSessions)
    case Leave(IoStage) => s.io == Dropped(ClearSessions)
    case _ => false
  }

  lemma LeaveSessions(s: State, a: LeaveStep, s': State, u: User)
    requires LeaveNext(s, a, s')
    ensures u in s'.sessions <==> u in s.sessions && !Loses(s, Leave(a), u)
  {}

  lemma InboundSessions(s: State, a: IoStep, s': State, u: User)
    requires InboundNext(s, a, s')
    ensures u in s'.sessions <==> Gains(Io(a), u) || (u in s.sessions && !Loses(s, Io(a), u))
  {}

  lemma AuthSessions(s: State, a: IoStep, s': State)
    requires AuthNext(s, a, s')
    ensures s'.sessions == s.sessions && !a.KeyBundle? && !a.SessionGained?
    ensures forall u :: !Loses(s, Io(a), u)
  {}

  lemma OtherSessions(s: State, a: Step, s': State)
    requires Next(s, a, s') && (a.Caller? || a.Watcher? || a.Out? || a.Tick?)
    ensures s'.sessions == s.sessions
  {}

  /** A user has a session after a step exactly if the step is an established bundle or gains one, or there
      was one and the step neither resets it nor breaks it nor ends a disconnect. */
  lemma SessionLife(states: seq<State>, steps: seq<Step>, i: nat, u: User)
    requires Run(states, steps) && i < |steps|
    ensures u in states[i + 1].sessions <==>
            Gains(steps[i], u) || (u in states[i].sessions && !Loses(states[i], steps[i], u))
  {
    assert StepAt(states, steps, i);
    var (s, a, s') := (states[i], steps[i], states[i + 1]);
    match a
    case Leave(l) => LeaveSessions(s, l, s', u);
    case Io(x) => if AuthNext(s, x, s') { AuthSessions(s, x, s'); } else { InboundSessions(s, x, s', u); }
    case _ => OtherSessions(s, a, s');
  }
}
