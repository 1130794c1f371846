/** Which published pre-keys have their private half in the table. */
module PreKeyTable {
  import opened Prelude
  import opened PreKeys

  // ----- which published ids have their private key -----

  /** A key pair as generated in some round, with whether its record could be stored. */
  datatype Generated = Generated(key: Key, stored: bool)

  function KeysOf(rounds: seq<Round>): seq<Generated> {
    if rounds == [] then []
    else
      match Last(rounds)
      case NoPair => KeysOf(Front(rounds))
      case Pair(key, stored) => KeysOf(Front(rounds)) + [Generated(key, stored)]
  }

  /** All key pairs of a history, in the order they were generated. */
  function AllKeys(events: seq<Event>): seq<Generated> {
    if events == [] then [] else AllKeys(Front(events)) + KeysOf(Rounds(Last(events)))
  }

  ghost predicate KeysApart(keys: seq<Generated>) {
    forall i, j :: 0 <= i < j < |keys| ==> keys[i].key != keys[j].key
  }

  /** No key pair is generated twice. */
  ghost predicate DistinctKeys(events: seq<Event>) {
    KeysApart(AllKeys(events))
  }

  /** What is in the table was generated and stored, what was published was generated. */
  ghost predicate Origins(preKeys: Store, opks: seq<Opk>, keys: seq<Generated>) {
    && (forall id :: id in preKeys ==> Generated(preKeys[id], true) in keys)
    && (forall i :: 0 <= i < |opks| ==> Generated(opks[i].key, opks[i].stored) in keys)
  }

  lemma {:induction false} RoundOrigins(store: Store, next: uint32, rounds: seq<Round>, keys: seq<Generated>)
    requires Origins(store, [], keys)
    ensures Origins(Written(store, next, rounds), Issued(next, rounds), keys + KeysOf(rounds))
  {
    if rounds != [] {
      var n := |rounds| - 1;
      RoundOrigins(store, next, rounds[..n], keys);
      var (before, opks) := (Written(store, next, rounds[..n]), Issued(next, rounds[..n]));
      var known := keys + KeysOf(rounds[..n]);
      if rounds[n].Pair? {
        var g := Generated(rounds[n].key, rounds[n].stored);
        assert keys + KeysOf(rounds) == known + [g];
        OneMoreOrigin(before, opks, known, IdAt(next, n), g);
      }
    }
  }

  lemma OneMoreOrigin(store: Store, opks: seq<Opk>, keys: seq<Generated>, id: uint32, g: Generated)
    requires Origins(store, opks, keys)
    ensures Origins(if g.stored then store[id := g.key] else store, opks + [Opk(id, g.key, g.stored)], keys + [g])
  {}

  lemma OriginsJoin(store: Store, a: seq<Opk>, b: seq<Opk>, keys: seq<Generated>, more: seq<Generated>)
    requires Origins(map[], a, keys) && Origins(store, b, keys + more)
    ensures Origins(store, a + b, keys + more) && Origins(store, a, keys + more)
  {}

  lemma {:induction false} RunOrigins(events: seq<Event>)
    ensures Origins(Run(events).preKeys, Run(events).published, AllKeys(events))
  {
    if events != [] {
      var (w, e) := (Run(Front(events)), Last(events));
      RunOrigins(Front(events));
      StepOrigins(w, e, AllKeys(Front(events)));
    }
  }

  lemma StepOrigins(w: World, e: Event, keys: seq<Generated>)
    requires Origins(w.preKeys, w.published, keys)
    ensures Origins(Step(w, e).preKeys, Step(w, e).published, keys + KeysOf(Rounds(e)))
  {
    var more := KeysOf(Rounds(e));
    if (e.Upload? || e.CrashInLoop? || e.CrashAfterCounter? || e.ThrowInLoop? || e.ThrowAtCounter?) && w.next.Some? {
      RoundOrigins(w.preKeys, w.next.value, e.rounds, keys);
      OriginsJoin(Written(w.preKeys, w.next.value, e.rounds), w.published, Issued(w.next.value, e.rounds), keys, more);
    } else {
      OriginsJoin(w.preKeys, w.published, [], keys, more);
    }
  }

  /** For every history that fits, prepares no upload in a session that failed to read a counter above 1,
      and never generates a key pair twice: an unconsumed published id has
      its own private key in the table if and only if the record of that key could be stored. */
  lemma HasKeyIffStored(events: seq<Event>, i: nat)
    requires Fits(events) && NoFallenUpload(events) && DistinctKeys(events)
    requires i < |Run(events).published| && Run(events).published[i].id !in Run(events).consumed
    ensures var (w, opk) := (Run(events), Run(events).published[i]);
            (opk.id in w.preKeys && w.preKeys[opk.id] == opk.key) <==> opk.stored
  {
    IdsNeverReused(events);
    RunOrigins(events);
    var (w, opk, keys) := (Run(events), Run(events).published[i], AllKeys(events));
    if opk.id in w.preKeys && w.preKeys[opk.id] == opk.key {
      var x :| 0 <= x < |keys| && keys[x] == Generated(opk.key, true);
      var y :| 0 <= y < |keys| && keys[y] == Generated(opk.key, opk.stored);
      assert x == y;
    }
  }

  // ----- which private key is in the table, over all histories -----

  /** A record written to the table. */
  datatype Put = Put(id: uint32, key: Key)

  function PutsOf(next: uint32, rounds: seq<Round>): seq<Put> {
    if rounds == [] then []
    else
      var n := |rounds| - 1;
      var before := PutsOf(next, rounds[..n]);
      if rounds[n].Pair? && rounds[n].stored then before + [Put(IdAt(next, n), rounds[n].key)] else before
  }

  /** All records written, in order, by whatever loop of a running client. */
  function Puts(events: seq<Event>): seq<Put> {
    if events == [] then []
    else
      var next := Run(Front(events)).next;
      Puts(Front(events)) + (if next.Some? then PutsOf(next.value, Rounds(Last(events))) else [])
  }

  /** The key of the last record under an id. */
  function LastKey(log: seq<Put>, id: uint32): Option<Key> {
    if log == [] then None else if Last(log).id == id then Some(Last(log).key) else LastKey(Front(log), id)
  }

  /** The table holds, for every id not consumed, the last record written under it. */
  ghost predicate LastWins(preKeys: Store, consumed: set<uint32>, log: seq<Put>) {
    forall id: uint32 :: id !in consumed ==>
      LastKey(log, id) == if id in preKeys then Some(preKeys[id]) else None
  }

  lemma OnePut(store: Store, consumed: set<uint32>, log: seq<Put>, put: Put)
    requires LastWins(store, consumed, log)
    ensures LastWins(store[put.id := put.key], consumed, log + [put])
  {
    assert Front(log + [put]) == log && Last(log + [put]) == put;
  }

  lemma {:induction false} RoundPuts(
      store: Store, consumed: set<uint32>, log: seq<Put>, next: uint32, rounds: seq<Round>)
    requires LastWins(store, consumed, log)
    ensures LastWins(Written(store, next, rounds), consumed, log + PutsOf(next, rounds))
  {
    if rounds == [] {
      assert log + [] == log;
    } else {
      var n := |rounds| - 1;
      RoundPuts(store, consumed, log, next, rounds[..n]);
      var (before, puts) := (Written(store, next, rounds[..n]), PutsOf(next, rounds[..n]));
      if rounds[n].Pair? && rounds[n].stored {
        var put := Put(IdAt(next, n), rounds[n].key);
        OnePut(before, consumed, log + puts, put);
        assert log + (puts + [put]) == (log + puts) + [put];
      }
    }
  }

  lemma {:induction false} LastAlwaysWins(events: seq<Event>)
    ensures LastWins(Run(events).preKeys, Run(events).consumed, Puts(events))
  {
    if events != [] {
      LastAlwaysWins(Front(events));
      var (w, e, log) := (Run(Front(events)), Last(events), Puts(Front(events)));
      if w.next.Some? {
        RoundPuts(w.preKeys, w.consumed, log, w.next.value, Rounds(e));
      }
      TableStep(w, e);
      assert log + [] == log;
    }
  }

  lemma TableStep(w: World, e: Event)
    ensures var after := Step(w, e);
            && (!e.Consume? ==> after.consumed == w.consumed)
            && (e.Consume? ==> after.consumed == w.consumed + {e.id} && after.preKeys == w.preKeys - {e.id})
            && (!e.Consume? && w.next.Some? ==> after.preKeys == Written(w.preKeys, w.next.value, Rounds(e)))
            && (!e.Consume? && w.next.None? ==> after.preKeys == w.preKeys)
  {}

  /** Another record was written under the id of this one, after it. */
  ghost predicate Overwritten(log: seq<Put>, put: Put) {
    exists p, q :: 0 <= p < q < |log| && log[p] == put && log[q].id == put.id
  }

  ghost predicate Apart(log: seq<Put>) { forall i, j :: 0 <= i < j < |log| ==> log[i] != log[j] }

  lemma {:induction false} LastKeyIff(log: seq<Put>, put: Put)
    requires Apart(log)
    ensures LastKey(log, put.id) == Some(put.key) <==> put in log && !Overwritten(log, put)
  {
    if log != [] {
      LastKeyIff(Front(log), put);
      var n := |log| - 1;
      if Last(log).id == put.id && put in Front(log) {
        var p :| 0 <= p < n && log[p] == put;
        assert log[p] == put && log[n].id == put.id;
      } else if Overwritten(Front(log), put) {
        var p, q :| 0 <= p < q < n && Front(log)[p] == put && Front(log)[q].id == put.id;
        assert log[p] == put && log[q].id == put.id;
      }
    }
  }

  /** Every record written holds a generated key that could be stored. */
  ghost predicate PutsFrom(log: seq<Put>, keys: seq<Generated>) {
    forall p :: 0 <= p < |log| ==> Generated(log[p].key, true) in keys
  }

  lemma {:induction false} RoundPutsApart(next: uint32, rounds: seq<Round>)
    requires KeysApart(KeysOf(rounds))
    ensures Apart(PutsOf(next, rounds)) && PutsFrom(PutsOf(next, rounds), KeysOf(rounds))
  {
    if rounds != [] {
      var n := |rounds| - 1;
      assert Front(rounds) == rounds[..n];
      var (puts, keys) := (PutsOf(next, rounds[..n]), KeysOf(rounds[..n]));
      if rounds[n].Pair? {
        var g := Generated(rounds[n].key, rounds[n].stored);
        var more := if g.stored then [Put(IdAt(next, n), g.key)] else [];
        KeysApartParts(keys, [g]);
        RoundPutsApart(next, rounds[..n]);
        JoinPuts(puts, more, keys, [g]);
        assert PutsOf(next, rounds) == puts + more;
      } else {
        RoundPutsApart(next, rounds[..n]);
      }
    }
  }

  lemma JoinPuts(a: seq<Put>, b: seq<Put>, keys: seq<Generated>, more: seq<Generated>)
    requires Apart(a) && Apart(b) && PutsFrom(a, keys) && PutsFrom(b, more) && KeysApart(keys + more)
    ensures Apart(a + b) && PutsFrom(a + b, keys + more)
  {
    forall i, j | 0 <= i < |a| && 0 <= j < |b| ensures a[i] != b[j] {
      var x :| 0 <= x < |keys| && keys[x] == Generated(a[i].key, true);
      var y :| 0 <= y < |more| && more[y] == Generated(b[j].key, true);
      assert (keys + more)[x].key != (keys + more)[|keys| + y].key;
    }
  }

  lemma KeysApartParts(keys: seq<Generated>, more: seq<Generated>)
    requires KeysApart(keys + more)
    ensures KeysApart(keys) && KeysApart(more)
  {
    var all := keys + more;
    assert forall i :: 0 <= i < |keys| ==> keys[i] == all[i];
    assert forall i :: 0 <= i < |more| ==> more[i] == all[|keys| + i];
  }

  lemma {:induction false} PutsApart(events: seq<Event>)
    requires DistinctKeys(events)
    ensures Apart(Puts(events)) && PutsFrom(Puts(events), AllKeys(events))
  {
    if events != [] {
      var (keys, more) := (AllKeys(Front(events)), KeysOf(Rounds(Last(events))));
      assert KeysApart(keys + more);
      KeysApartParts(keys, more);
      PutsApart(Front(events));
      var next := Run(Front(events)).next;
      var puts := if next.Some? then PutsOf(next.value, Rounds(Last(events))) else [];
      if next.Some? {
        RoundPutsApart(next.value, Rounds(Last(events)));
      }
      JoinPuts(Puts(Front(events)), puts, keys, more);
    }
  }

  /** Every published entry whose record was stored has been written. */
  ghost predicate StoredWritten(opks: seq<Opk>, log: seq<Put>) {
    forall i :: 0 <= i < |opks| && opks[i].stored ==> Put(opks[i].id, opks[i].key) in log
  }

  lemma JoinStored(a: seq<Opk>, b: seq<Opk>, log: seq<Put>, puts: seq<Put>)
    requires StoredWritten(a, log) && StoredWritten(b, puts)
    ensures StoredWritten(a + b, log + puts) && StoredWritten(a, log + puts)
  {}

  lemma {:induction false} IssuedWritten(next: uint32, rounds: seq<Round>)
    ensures StoredWritten(Issued(next, rounds), PutsOf(next, rounds))
  {
    if rounds != [] {
      IssuedWritten(next, rounds[..|rounds| - 1]);
    }
  }

  lemma {:induction false} PublishedWritten(events: seq<Event>)
    ensures StoredWritten(Run(events).published, Puts(events))
  {
    if events != [] {
      PublishedWritten(Front(events));
      var (w, e) := (Run(Front(events)), Last(events));
      if w.next.Some? {
        IssuedWritten(w.next.value, Rounds(e));
        JoinStored(w.published, Issued(w.next.value, Rounds(e)), Puts(Front(events)), PutsOf(w.next.value, Rounds(e)));
      }
      PublishedStep(w, e);
      assert Puts(Front(events)) + [] == Puts(Front(events));
    }
  }

  lemma PublishedStep(w: World, e: Event)
    ensures Step(w, e).published ==
            w.published + (if e.Upload? && w.next.Some? then Issued(w.next.value, Rounds(e)) else [])
  {}

  /** Over all histories that never generate a key pair twice: an unconsumed published id has its own
      private key in the table if and only if the record of that key was stored and no record has been
      written under the same number since. */
  lemma HasKeyIffNotOverwritten(events: seq<Event>, i: nat)
    requires DistinctKeys(events) && i < |Run(events).published|
    requires Run(events).published[i].id !in Run(events).consumed
    ensures var (w, opk) := (Run(events), Run(events).published[i]);
            (opk.id in w.preKeys && w.preKeys[opk.id] == opk.key) <==>
            opk.stored && !Overwritten(Puts(events), Put(opk.id, opk.key))
  {
    var (w, opk, log) := (Run(events), Run(events).published[i], Puts(events));
    var put := Put(opk.id, opk.key);
    LastAlwaysWins(events);
    PutsApart(events);
    LastKeyIff(log, put);
    PublishedWritten(events);
    if put in log {
      RunOrigins(events);
      var keys := AllKeys(events);
      var x :| 0 <= x < |keys| && keys[x] == Generated(opk.key, true);
      var y :| 0 <= y < |keys| && keys[y] == Generated(opk.key, opk.stored);
      assert x == y;
    }
  }

  // ----- published ids without their private key -----

  /** An id whose record cannot be stored is published without a private key, or, after a crash inside
      an earlier upload, with another key pair's private key in the table. */
  lemma StaleKeyUnderPublishedId(k1: Key, k2: Key)
    ensures var w := Run([Start, CrashInLoop([Pair(k1, true)]), Start, Upload([Pair(k2, false)])]);
            w.published == [Opk(1, k2, false)] && w.preKeys == map[1 := k1]
  {
    var (r1, r2) := ([Pair(k1, true)], [Pair(k2, false)]);
    var events := [Start, CrashInLoop(r1), Start, Upload(r2)];
    assert r1[..0] == [] && r2[..0] == [] && IdAt(1, 0) == 1;
    assert Issued(1, []) == [] && Issued(1, r2) == [Opk(1, k2, false)];
    assert Written(map[], 1, []) == map[] && Written(map[], 1, r1) == map[1 := k1];
    assert Written(map[1 := k1], 1, []) == map[1 := k1] && Written(map[1 := k1], 1, r2) == map[1 := k1];
    assert events[..3] == [Start, CrashInLoop(r1), Start] && events[..3][..2] == [Start, CrashInLoop(r1)];
    assert events[..3][..2][..1] == [Start] && [Start][..0] == [];
    assert Run([Start]) == Step(Fresh, Start);
    assert Run(events[..3][..2]) == Step(Run([Start]), CrashInLoop(r1));
    assert Run(events[..3]) == Step(Run(events[..3][..2]), Start);
  }

  /** An id can be published without a private key: the id is added before the record is serialized. */
  lemma PublishedWithoutKey(key: Key)
    ensures var w := Run([Start, Upload([Pair(key, false)])]);
            w.published == [Opk(1, key, false)] && 1 !in w.preKeys
  {
    var round := [Pair(key, false)];
    assert round[..0] == [] && Issued(1, []) == [] && Written(map[], 1, []) == map[];
    var events := [Start, Upload(round)];
    assert events[..1] == [Start] && [Start][..0] == [];
    assert Run([Start]) == Step(Run([]), Start);
  }
}
