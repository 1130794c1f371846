/** Concrete runs: envelopes are stranded, a request is forgotten, a direct message is dropped early. */
module DeliveryScenarios {
  import opened DeliveryTables
  import opened DeliveryProtocol
  import opened DeliveryProofs
  import opened DeliveryRuns

  /** Consecutive steps `from` up to `to` of a path lead from each of its states to the next. */
  ghost predicate Path(path: seq<State>, acts: seq<Step>, from: nat, to: nat)
    requires from <= to <= |acts| && |path| == |acts| + 1
  {
    forall k :: from <= k < to ==> Next(path[k], acts[k], path[k + 1])
  }

  lemma Append(states0: seq<State>, steps0: seq<Step>, path: seq<State>, acts: seq<Step>)
    returns (states: seq<State>, steps: seq<Step>)
    requires Run(states0, steps0) && |path| == |acts| + 1 && Path(path, acts, 0, |acts|)
    requires path[0] == states0[|steps0|]
    ensures states == states0 + path[1..] && steps == steps0 + acts
    ensures Run(states, steps) && states[|steps|] == path[|acts|]
  {
    states, steps := states0 + path[1..], steps0 + acts;
    forall i | 0 <= i < |steps| ensures StepAt(states, steps, i) {
      if i < |steps0| {
        assert StepAt(states0, steps0, i);
      } else {
        assert Next(path[i - |steps0|], acts[i - |steps0|], path[i - |steps0| + 1]);
      }
    }
  }

  const Connected0 :=
    State(true, Link(false, true, 0), NoEntries, {}, map[], Online, {}, {}, 0, 0, map[], EmptyOutbox)

  lemma ConnectFirst() returns (states: seq<State>)
    ensures Run(states, [Io(Connect)]) && states[1] == Connected0
  {
    states := [Connected0.(link := Link(false, false, 0), io := Offline), Connected0];
  }

  /** One complete `on_auth_ok` with nothing queued. */
  const AuthActs := [Io(AuthOk), Io(ResendReadFlag), Io(ResendReadLink), Io(Snapshot([])), Io(ResendOne),
                     Io(FlushReadFlag), Io(FlushReadLink), Io(Swap), Io(DrainOne)]

  function Authed(s: State): State {
    s.(link := Link(true, true, s.link.epoch + 1), asked := {}, orphans := {},
       box := s.box.(swapEpoch := s.link.epoch + 1), io := Online)
  }

  function AuthPath(s: State): seq<State> {
    var t := s.(link := Link(true, true, s.link.epoch + 1), asked := {}, orphans := {}, io := Authenticated);
    [s, t, t.(io := ResendSawFlag), t.(io := ResendReady), t.(io := Resending([])), t.(io := FlushStart),
     t.(io := FlushSawFlag), t.(io := FlushReady),
     Authed(s).(io := DeliveryProtocol.Draining([], 0, |s.box.sent|)), Authed(s)]
  }

  ghost predicate Idle(s: State) {
    s.io == Online && s.link.connected && s.tables == NoEntries && s.box.queue == []
  }

  lemma Auth1(s: State) requires Idle(s) ensures Path(AuthPath(s), AuthActs, 0, 3) {}

  lemma Auth2(s: State) requires Idle(s) ensures Path(AuthPath(s), AuthActs, 3, 6) {}

  lemma Auth3(s: State) requires Idle(s) ensures Path(AuthPath(s), AuthActs, 6, 9) {}

  lemma AuthWhole(s: State)
    requires Idle(s)
    ensures Path(AuthPath(s), AuthActs, 0, 9)
  {
    Auth1(s);
    Auth2(s);
    Auth3(s);
  }

  /** Stranding happens: a caller reads "not authenticated", AUTH_OK is handled, the caller pushes. */
  lemma StrandingRun(env: Envelope) returns (states: seq<State>, steps: seq<Step>)
    ensures Run(states, steps) && Stranded(states[|steps|]) && states[|steps|].io == Online
    ensures states[|steps|].box.queue == [Queued(0, env)]
  {
    states := ConnectFirst();
    var s := Connected0;
    var s1 := s.(threads := map[0 := OutStart(env)], box := s.box.(submitted := map[0 := env]));
    var s2 := s1.(threads := map[0 := OutQueueing(env, 0)]);
    var s4 := Authed(s2).(threads := map[0 := Done],
                          box := Authed(s2).box.(queue := [Queued(0, env)], stamps := map[0 := Stamp(0, 1)]));
    states, steps := Append(states, [Io(Connect)], [s, s1, s2], [Out(Submit(0, env)), Out(OutReadFlag(0))]);
    AuthWhole(s2);
    states, steps := Append(states, steps, AuthPath(s2), AuthActs);
    states, steps := Append(states, steps, [Authed(s2), s4], [Out(OutPush(0))]);
  }

  /** One message and one envelope are queued before the client is authenticated, and the key upload of
      the AUTH_OK throws. */
  function ThrowActs(u: User, m: PendingSend, env: Envelope): seq<Step> {
    [Caller(RequestKey(0, u, m)), Caller(ReadFlag(0)), Caller(SpawnWatcher(0, 1)),
     Out(Submit(2, env)), Out(OutReadFlag(2)), Out(OutPush(2)), Io(AuthOk), Io(UploadThrows)]
  }

  function ThrowPath(u: User, m: PendingSend, env: Envelope): seq<State> {
    var s := Connected0;
    var t := s.(tables := Tables(map[u := [m]], {}), ledger := map[u := BlankLedger.(submitted := multiset{m})]);
    var r := t.(threads := map[0 := Done, 1 := Sleeping(Dm, u, 10000, 0, 0)]);
    var o := r.(threads := r.threads[2 := OutStart(env)], box := EmptyOutbox.(submitted := map[2 := env]));
    var p := o.(threads := r.threads[2 := Done],
                box := o.box.(queue := [Queued(2, env)], stamps := map[2 := Stamp(0, 0)]));
    var q := p.(link := Link(true, true, 1), io := Authenticated);
    [s, t.(threads := map[0 := Inserted(Dm, u)]), t.(threads := map[0 := Spawning(Dm, u)]), r, o,
     o.(threads := r.threads[2 := OutQueueing(env, 0)]), p, q, q.(io := Online, orphans := {(Dm, u)}, thrown := 1)]
  }

  lemma Throw1(u: User, m: PendingSend, env: Envelope)
    ensures Path(ThrowPath(u, m, env), ThrowActs(u, m, env), 0, 2)
  {
    assert multiset{} + multiset{m} == multiset{m} && [] + [m] == [m];
  }

  lemma Throw2(u: User, m: PendingSend, env: Envelope) ensures Path(ThrowPath(u, m, env), ThrowActs(u, m, env), 2, 4) {}

  lemma Throw3(u: User, m: PendingSend, env: Envelope) ensures Path(ThrowPath(u, m, env), ThrowActs(u, m, env), 4, 6) {}

  lemma Throw4(u: User, m: PendingSend, env: Envelope)
    ensures Path(ThrowPath(u, m, env), ThrowActs(u, m, env), 6, 8)
  {
    assert ThrowPath(u, m, env)[7].Unasked() == {(Dm, u)};
  }

  /** A key upload that throws leaves a ready client with a message nobody asks a key for, and with a
      stranded envelope that no late push put there. */
  lemma ThrowingUploadRun(u: User, m: PendingSend, env: Envelope) returns (states: seq<State>, steps: seq<Step>)
    ensures Run(states, steps) && states[|steps|].link.Ready() && states[|steps|].io == Online
    ensures states[|steps|].tables.Queue(u) == [m] && Forgotten(states[|steps|], Dm, u)
    ensures Stranded(states[|steps|]) && states[|steps|].box.queue == [Queued(2, env)]
    ensures forall i :: 0 <= i < |steps| ==> !LatePush(states[i], steps[i])
  {
    states := ConnectFirst();
    Throw1(u, m, env);
    Throw2(u, m, env);
    Throw3(u, m, env);
    Throw4(u, m, env);
    states, steps := Append(states, [Io(Connect)], ThrowPath(u, m, env), ThrowActs(u, m, env));
  }

  /** A watcher is tied to a user, not to an entry: it can close an entry opened after the one it
      was spawned for. Here a message is dropped as timed out 200 ms after it was queued. */
  lemma EarlyDropRun(u: User, first: PendingSend, second: PendingSend)
    returns (states: seq<State>, steps: seq<Step>, queuedAt: nat)
    requires u != ""
    ensures Run(states, steps) && queuedAt < |steps|
    ensures steps[queuedAt] == Caller(RequestKey(2, u, second))
    ensures states[queuedAt].link.Ready() && states[|steps|].LedgerOf(u).timedOut == multiset{second}
    ensures states[|steps|].clock == states[queuedAt].clock + 200
  {
    states := ConnectFirst();
    AuthWhole(Connected0);
    states, steps := Append(states, [Io(Connect)], AuthPath(Connected0), AuthActs);
    WatchWhole(u, first);
    states, steps := Append(states, steps, WatchPath(u, first), WatchActs(u, first));
    FlushWhole(u, first);
    states, steps := Append(states, steps, FlushPath(u, first), FlushActs(u));
    queuedAt := |steps|;
    ghost var before := states;
    DropWhole(u, first, second);
    states, steps := Append(states, steps, DropPath(u, first, second), DropActs(u, second));
    assert states[queuedAt] == before[queuedAt];
  }

  /** One request runs its course up to a watcher with 100 ms left. */
  function WatchActs(u: User, m: PendingSend): seq<Step> {
    [Caller(RequestKey(0, u, m)), Caller(ReadFlag(0)), Caller(ReadLink(0)), Caller(SendRequest(0)),
     Caller(SpawnWatcher(0, 1)), Tick(9900), Watcher(Wake(1)), Watcher(WakeReadFlag(1)), Watcher(WakeReadLink(1)),
     Watcher(Look(1))]
  }

  function WatchPath(u: User, m: PendingSend): seq<State> {
    var s := Authed(Connected0);
    var t := s.(tables := Tables(map[u := [m]], {}), ledger := map[u := BlankLedger.(submitted := multiset{m})]);
    var r := t.(asked := {(Dm, u), (Repair, u)});
    var late := r.(clock := 9900);
    [s, t.(threads := map[0 := Inserted(Dm, u)]), t.(threads := map[0 := SawFlag(Dm, u)]),
     t.(threads := map[0 := Sending(Dm, u)]), r.(threads := map[0 := Spawning(Dm, u)]),
     r.(threads := map[0 := Done, 1 := Sleeping(Dm, u, 10000, 0, 0)]),
     late.(threads := map[0 := Done, 1 := Sleeping(Dm, u, 10000, 0, 0)]),
     late.(threads := map[0 := Done, 1 := Woke(Dm, u, 10000, 0, 0, 9900)]),
     late.(threads := map[0 := Done, 1 := WokeSawFlag(Dm, u, 10000, 0, 0, 9900)]),
     late.(threads := map[0 := Done, 1 := Looking(Dm, u, 100, 1, 9900)]),
     late.(threads := map[0 := Done, 1 := Sleeping(Dm, u, 100, 1, 9900)])]
  }

  lemma Watch1(u: User, m: PendingSend)
    ensures Path(WatchPath(u, m), WatchActs(u, m), 0, 2)
  {
    assert multiset{} + multiset{m} == multiset{m} && [] + [m] == [m];
  }

  lemma Watch2(u: User, m: PendingSend) ensures Path(WatchPath(u, m), WatchActs(u, m), 2, 4) {}

  lemma Watch3(u: User, m: PendingSend) ensures Path(WatchPath(u, m), WatchActs(u, m), 4, 6) {}

  lemma Watch4(u: User, m: PendingSend) ensures Path(WatchPath(u, m), WatchActs(u, m), 6, 8) {}

  lemma Watch5(u: User, m: PendingSend) ensures Path(WatchPath(u, m), WatchActs(u, m), 8, 10) {}

  lemma WatchWhole(u: User, m: PendingSend)
    ensures Path(WatchPath(u, m), WatchActs(u, m), 0, 10)
  {
    Watch1(u, m);
    Watch2(u, m);
    Watch3(u, m);
    Watch4(u, m);
    Watch5(u, m);
  }

  /** The key bundle arrives and the message goes out. */
  function FlushActs(u: User): seq<Step> {
    [Io(KeyBundle(u, true)), Io(TakeQueue), Io(FlushOne(Encrypted)), Io(FlushOne(Encrypted))]
  }

  function FlushPath(u: User, m: PendingSend): seq<State> {
    var s := WatchPath(u, m)[10];
    var t := s.(tables := NoEntries, sessions := {u});
    var r := t.(ledger := map[u := BlankLedger.(submitted := multiset{m}, sent := multiset{m})]);
    [s, s.(sessions := {u}, io := Bundled(u)), t.(io := Flushing(u, [m], 0, [], 0)),
     r.(io := Flushing(u, [m], 1, [m], 0)), r]
  }

  lemma Flush1(u: User, m: PendingSend)
    requires u != ""
    ensures Path(FlushPath(u, m), FlushActs(u), 0, 1)
  {}

  lemma Flush2(u: User, m: PendingSend)
    requires u != ""
    ensures Path(FlushPath(u, m), FlushActs(u), 1, 2)
  {
    assert Tables(map[u := [m]], {}).Forget(u) == NoEntries;
  }

  lemma Flush3(u: User, m: PendingSend)
    requires u != ""
    ensures Path(FlushPath(u, m), FlushActs(u), 2, 4)
  {
    assert multiset{} + multiset{m} == multiset{m} && [] + [m] == [m];
  }

  lemma FlushWhole(u: User, m: PendingSend)
    requires u != ""
    ensures Path(FlushPath(u, m), FlushActs(u), 0, 4)
  {
    Flush1(u, m);
    Flush2(u, m);
    Flush3(u, m);
  }

  /** The second message is queued, and the first message's watcher finds its entry. */
  function DropActs(u: User, m: PendingSend): seq<Step> {
    [Caller(RequestKey(2, u, m)), Tick(200), Watcher(Wake(1)), Watcher(WakeReadFlag(1)), Watcher(WakeReadLink(1)),
     Watcher(Look(1)), Watcher(Close(1))]
  }

  function DropPath(u: User, first: PendingSend, m: PendingSend): seq<State> {
    var s := FlushPath(u, first)[4];
    var l := s.LedgerOf(u).(submitted := multiset{first} + multiset{m});
    var t := s.(tables := Tables(map[u := [m]], {}), asked := {(Repair, u)}, ledger := map[u := l],
                threads := map[0 := Done, 1 := Sleeping(Dm, u, 100, 1, 9900), 2 := Inserted(Dm, u)]);
    var late := t.(clock := 10100);
    [s, t, late, late.(threads := t.threads[1 := Woke(Dm, u, 100, 1, 9900, 10100)]),
     late.(threads := t.threads[1 := WokeSawFlag(Dm, u, 100, 1, 9900, 10100)]),
     late.(threads := t.threads[1 := Looking(Dm, u, -100, 2, 10100)]),
     late.(threads := t.threads[1 := Closing(Dm, u, 2)]),
     late.(tables := NoEntries, threads := t.threads[1 := Done], ledger := map[u := l.(timedOut := multiset{m})])]
  }

  lemma Drop1(u: User, first: PendingSend, m: PendingSend)
    ensures Path(DropPath(u, first, m), DropActs(u, m), 0, 1)
  {
    assert [] + [m] == [m];
  }

  lemma Drop2(u: User, first: PendingSend, m: PendingSend) ensures Path(DropPath(u, first, m), DropActs(u, m), 1, 3) {}

  lemma Drop3(u: User, first: PendingSend, m: PendingSend) ensures Path(DropPath(u, first, m), DropActs(u, m), 3, 4) {}

  lemma Drop4(u: User, first: PendingSend, m: PendingSend) ensures Path(DropPath(u, first, m), DropActs(u, m), 4, 5) {}

  lemma Drop5(u: User, first: PendingSend, m: PendingSend) ensures Path(DropPath(u, first, m), DropActs(u, m), 5, 6) {}

  lemma Drop6(u: User, first: PendingSend, m: PendingSend)
    ensures Path(DropPath(u, first, m), DropActs(u, m), 6, 7)
  {
    assert Tables(map[u := [m]], {}).Expire(Dm, u) == NoEntries;
    assert multiset{} + multiset([m]) == multiset{m};
  }

  lemma DropWhole(u: User, first: PendingSend, m: PendingSend)
    ensures Path(DropPath(u, first, m), DropActs(u, m), 0, 7)
  {
    Drop1(u, first, m);
    Drop2(u, first, m);
    Drop3(u, first, m);
    Drop4(u, first, m);
    Drop5(u, first, m);
    Drop6(u, first, m);
  }
}
