/** Nothing is handed to the transport unless the flag and then the link were read as on, and a sender
    turns away only if one of them was read as off. */
module DeliveryGates {
  import opened Prelude
  import opened DeliveryTables
  import opened DeliveryProtocol
  import opened DeliveryProofs

  // ----- callers of request_key and of the outbox -----

  /** The thread reads the authenticated flag, or the link, in this step. */
  predicate ReadsFlag(a: Step, t: nat) { a == Caller(ReadFlag(t)) || a == Out(OutReadFlag(t)) }

  predicate ReadsLink(a: Step, t: nat) { a == Caller(ReadLink(t)) || a == Out(OutReadLink(t)) }

  predicate FlagSeen(pc: Pc) { pc.SawFlag? || pc.OutSawFlag? }

  predicate AboutToSend(pc: Pc) { pc.Sending? || pc.OutSending? }

  /** Where the thread stands, if it has begun. */
  function At(s: State, t: nat): Option<Pc> { if t in s.threads then Some(s.threads[t]) else None }

  /** How a thread can get to see the flag, to be about to send, and to turn away without sending. */
  ghost predicate PcMoves(s: State, a: Step, s': State, t: nat) {
    && (At(s', t).Some? && FlagSeen(At(s', t).value) ==>
          At(s, t) == At(s', t) || (ReadsFlag(a, t) && s.link.authenticated))
    && (At(s', t).Some? && AboutToSend(At(s', t).value) ==>
          At(s, t) == At(s', t) ||
          (ReadsLink(a, t) && s.link.connected && At(s, t).Some? && FlagSeen(At(s, t).value)))
    && (At(s', t).Some? && At(s', t).value.OutQueueing? ==> At(s, t) == At(s', t) || TurnsAway(s, a, t))
    && (At(s', t).Some? && At(s', t).value.Spawning? ==>
          At(s, t) == At(s', t) || TurnsAway(s, a, t) || a == Caller(SendRequest(t)))
  }

  ghost predicate TurnsAway(s: State, a: Step, t: nat) {
    (ReadsFlag(a, t) && !s.link.authenticated) || (ReadsLink(a, t) && !s.link.connected)
  }

  lemma CallerMoves(s: State, a: CallerStep, s': State, t: nat)
    requires CallerNext(s, a, s')
    ensures PcMoves(s, Caller(a), s', t)
  {}

  lemma WatcherMoves(s: State, a: WatcherStep, s': State, t: nat)
    requires WatcherNext(s, a, s')
    ensures PcMoves(s, Watcher(a), s', t)
  {}

  lemma OutMoves(s: State, a: OutStep, s': State, t: nat)
    requires OutNext(s, a, s')
    ensures PcMoves(s, Out(a), s', t)
  {}

  lemma LeaveMoves(s: State, a: LeaveStep, s': State, t: nat)
    requires LeaveNext(s, a, s')
    ensures PcMoves(s, Leave(a), s', t)
  {}

  lemma IoMoves(s: State, a: IoStep, s': State, t: nat)
    requires AuthNext(s, a, s') || InboundNext(s, a, s')
    ensures s'.threads == s.threads
  {
    if AuthNext(s, a, s') {
      AuthFrame(s, a, s');
    }
  }

  lemma StepMoves(s: State, a: Step, s': State, t: nat)
    requires Next(s, a, s')
    ensures PcMoves(s, a, s', t)
  {
    match a
    case Caller(c) => CallerMoves(s, c, s', t);
    case Watcher(w) => WatcherMoves(s, w, s', t);
    case Out(o) => OutMoves(s, o, s', t);
    case Leave(l) => LeaveMoves(s, l, s', t);
    case Io(x) => IoMoves(s, x, s', t);
    case Tick(_) =>
  }

  ghost predicate FlagReadOn(states: seq<State>, steps: seq<Step>, t: nat, i: nat) {
    i < |steps| && |states| == |steps| + 1 && ReadsFlag(steps[i], t) && states[i].link.authenticated
  }

  ghost predicate LinkReadOn(states: seq<State>, steps: seq<Step>, t: nat, i: nat) {
    i < |steps| && |states| == |steps| + 1 && ReadsLink(steps[i], t) && states[i].link.connected
  }

  lemma {:induction false} SawFlagOn(states: seq<State>, steps: seq<Step>, n: nat, t: nat)
    requires Run(states, steps) && n < |states| && t in states[n].threads && FlagSeen(states[n].threads[t])
    ensures exists i :: 0 <= i < n && FlagReadOn(states, steps, t, i)
  {
    assert n > 0 && StepAt(states, steps, n - 1);
    StepMoves(states[n - 1], steps[n - 1], states[n], t);
    if At(states[n - 1], t) == At(states[n], t) {
      SawFlagOn(states, steps, n - 1, t);
      var i :| 0 <= i < n - 1 && FlagReadOn(states, steps, t, i);
      assert FlagReadOn(states, steps, t, i);
    } else {
      assert FlagReadOn(states, steps, t, n - 1);
    }
  }

  /** Who is about to send a KEY_REQUEST or an envelope has read the flag as on, and later the link. */
  lemma {:induction false} SendsAfterReading(states: seq<State>, steps: seq<Step>, n: nat, t: nat)
    requires Run(states, steps) && n < |states| && t in states[n].threads && AboutToSend(states[n].threads[t])
    ensures exists i, j :: 0 <= i < j < n && FlagReadOn(states, steps, t, i) && LinkReadOn(states, steps, t, j)
  {
    assert n > 0 && StepAt(states, steps, n - 1);
    StepMoves(states[n - 1], steps[n - 1], states[n], t);
    if At(states[n - 1], t) == At(states[n], t) {
      SendsAfterReading(states, steps, n - 1, t);
      var i, j :| 0 <= i < j < n - 1 && FlagReadOn(states, steps, t, i) && LinkReadOn(states, steps, t, j);
      assert FlagReadOn(states, steps, t, i) && LinkReadOn(states, steps, t, j);
    } else {
      SawFlagOn(states, steps, n - 1, t);
      var i :| 0 <= i < n - 1 && FlagReadOn(states, steps, t, i);
      assert LinkReadOn(states, steps, t, n - 1);
    }
  }

  ghost predicate TurnedAway(states: seq<State>, steps: seq<Step>, t: nat, i: nat) {
    i < |steps| && |states| == |steps| + 1 && TurnsAway(states[i], steps[i], t)
  }

  /** Who is about to queue an envelope has read the flag or the link as off. */
  lemma {:induction false} QueuesOnlyTurnedAway(states: seq<State>, steps: seq<Step>, n: nat, t: nat)
    requires Run(states, steps) && n < |states| && t in states[n].threads && states[n].threads[t].OutQueueing?
    ensures exists i :: 0 <= i < n && TurnedAway(states, steps, t, i)
  {
    assert n > 0 && StepAt(states, steps, n - 1);
    StepMoves(states[n - 1], steps[n - 1], states[n], t);
    if At(states[n - 1], t) == At(states[n], t) {
      QueuesOnlyTurnedAway(states, steps, n - 1, t);
      var i :| 0 <= i < n - 1 && TurnedAway(states, steps, t, i);
      assert TurnedAway(states, steps, t, i);
    } else {
      assert TurnedAway(states, steps, t, n - 1);
    }
  }

  ghost predicate SentRequest(steps: seq<Step>, t: nat, i: nat) { i < |steps| && steps[i] == Caller(SendRequest(t)) }

  /** Who has opened an entry and goes on to the watcher has sent a KEY_REQUEST, or was turned away. */
  lemma {:induction false} RequestsUnlessTurnedAway(states: seq<State>, steps: seq<Step>, n: nat, t: nat)
    requires Run(states, steps) && n < |states| && t in states[n].threads && states[n].threads[t].Spawning?
    ensures exists i :: 0 <= i < n && (TurnedAway(states, steps, t, i) || SentRequest(steps, t, i))
  {
    assert n > 0 && StepAt(states, steps, n - 1);
    StepMoves(states[n - 1], steps[n - 1], states[n], t);
    if At(states[n - 1], t) == At(states[n], t) {
      RequestsUnlessTurnedAway(states, steps, n - 1, t);
      var i :| 0 <= i < n - 1 && (TurnedAway(states, steps, t, i) || SentRequest(steps, t, i));
      assert TurnedAway(states, steps, t, i) || SentRequest(steps, t, i);
    } else {
      assert TurnedAway(states, steps, t, n - 1) || SentRequest(steps, t, n - 1);
    }
  }

  // ----- the network thread -----

  /** What the network thread is about to hand over: the KEY_REQUESTs of a resend, or the outbox. */
  datatype Batch = Requests | Outbox

  predicate FlagSeenFor(io: IoPc, batch: Batch) { if batch.Requests? then io.ResendSawFlag? else io.FlushSawFlag? }

  predicate HandsOver(io: IoPc, batch: Batch) {
    if batch.Requests? then io.ResendReady? || io.Resending? else io.FlushReady? || io.Draining?
  }

  predicate ReadsFlagFor(a: Step, batch: Batch) {
    a == if batch.Requests? then Io(ResendReadFlag) else Io(FlushReadFlag)
  }

  predicate ReadsLinkFor(a: Step, batch: Batch) {
    a == if batch.Requests? then Io(ResendReadLink) else Io(FlushReadLink)
  }

  ghost predicate IoMove(s: State, a: Step, s': State, batch: Batch) {
    && (FlagSeenFor(s'.io, batch) ==>
          FlagSeenFor(s.io, batch) || (ReadsFlagFor(a, batch) && s.link.authenticated))
    && (HandsOver(s'.io, batch) ==>
          HandsOver(s.io, batch) || (ReadsLinkFor(a, batch) && s.link.connected && FlagSeenFor(s.io, batch)))
  }

  lemma IoGate(s: State, a: Step, s': State, batch: Batch)
    requires Next(s, a, s')
    ensures IoMove(s, a, s', batch)
  {
    match a
    case Caller(c) => CallerFrame(s, c, s');
    case Watcher(w) => WatcherFrame(s, w, s');
    case Out(o) => OutFrame(s, o, s');
    case Leave(l) =>
    case Io(x) => if AuthNext(s, x, s') { AuthGate(s, x, s', batch); } else { InboundGate(s, x, s', batch); }
    case Tick(_) =>
  }

  lemma AuthGate(s: State, a: IoStep, s': State, batch: Batch)
    requires AuthNext(s, a, s')
    ensures IoMove(s, Io(a), s', batch)
  {}

  lemma InboundGate(s: State, a: IoStep, s': State, batch: Batch)
    requires InboundNext(s, a, s')
    ensures !FlagSeenFor(s'.io, batch) || s'.io == s.io
    ensures !HandsOver(s'.io, batch) || s'.io == s.io
  {}

  ghost predicate FlagReadFor(states: seq<State>, steps: seq<Step>, batch: Batch, i: nat) {
    i < |steps| && |states| == |steps| + 1 && ReadsFlagFor(steps[i], batch) && states[i].link.authenticated
  }

  ghost predicate LinkReadFor(states: seq<State>, steps: seq<Step>, batch: Batch, i: nat) {
    i < |steps| && |states| == |steps| + 1 && ReadsLinkFor(steps[i], batch) && states[i].link.connected
  }

  lemma {:induction false} FlagSeenOn(states: seq<State>, steps: seq<Step>, batch: Batch, n: nat)
    requires Run(states, steps) && n < |states| && FlagSeenFor(states[n].io, batch)
    ensures exists i :: 0 <= i < n && FlagReadFor(states, steps, batch, i)
  {
    assert n > 0 && StepAt(states, steps, n - 1);
    IoGate(states[n - 1], steps[n - 1], states[n], batch);
    if FlagSeenFor(states[n - 1].io, batch) {
      FlagSeenOn(states, steps, batch, n - 1);
      var i :| 0 <= i < n - 1 && FlagReadFor(states, steps, batch, i);
      assert FlagReadFor(states, steps, batch, i);
    } else {
      assert FlagReadFor(states, steps, batch, n - 1);
    }
  }

  /** The network thread hands over the requests of a resend, or the outbox, only after it has read the
      flag as on, and later the link. */
  lemma {:induction false} HandsOverAfterReading(states: seq<State>, steps: seq<Step>, batch: Batch, n: nat)
    requires Run(states, steps) && n < |states| && HandsOver(states[n].io, batch)
    ensures exists i, j ::
              0 <= i < j < n && FlagReadFor(states, steps, batch, i) && LinkReadFor(states, steps, batch, j)
  {
    assert n > 0 && StepAt(states, steps, n - 1);
    IoGate(states[n - 1], steps[n - 1], states[n], batch);
    if HandsOver(states[n - 1].io, batch) {
      HandsOverAfterReading(states, steps, batch, n - 1);
      var i, j :| 0 <= i < j < n - 1 && FlagReadFor(states, steps, batch, i) && LinkReadFor(states, steps, batch, j);
      assert FlagReadFor(states, steps, batch, i) && LinkReadFor(states, steps, batch, j);
    } else {
      FlagSeenOn(states, steps, batch, n - 1);
      var i :| 0 <= i < n - 1 && FlagReadFor(states, steps, batch, i);
      assert LinkReadFor(states, steps, batch, n - 1);
    }
  }
}
