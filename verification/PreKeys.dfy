/** Numbering of one-time pre-keys across uploads, restarts and crashes. Ids are 32-bit and wrap. */
module PreKeys {
  import opened Prelude

  type uint32 = x: int | 0 <= x < TWO32

  /** A generated key pair; only its identity matters. */
  type Key = nat

  /** How one round of the generation loop ends: no pair at all, or a pair whose record may fail to serialize. */
  datatype Round = NoPair | Pair(key: Key, stored: bool)

  /** An entry of a KeyUpload, with whether its private half was stored. */
  datatype Opk = Opk(id: uint32, key: Key, stored: bool)

  type Store = map<uint32, Key>

  function IdAt(next: uint32, i: nat): uint32 { (next + i) % TWO32 }

  /** The upload built from the first rounds. */
  function Issued(next: uint32, rounds: seq<Round>): seq<Opk> {
    if rounds == [] then []
    else
      var n := |rounds| - 1;
      match rounds[n]
      case NoPair => Issued(next, rounds[..n])
      case Pair(key, stored) => Issued(next, rounds[..n]) + [Opk(IdAt(next, n), key, stored)]
  }

  /** The pre-key table after the first rounds. */
  function Written(store: Store, next: uint32, rounds: seq<Round>): Store {
    if rounds == [] then store
    else
      var n := |rounds| - 1;
      var before := Written(store, next, rounds[..n]);
      if rounds[n].Pair? && rounds[n].stored then before[IdAt(next, n) := rounds[n].key] else before
  }

  /** What survives a crash, what does not, and what has left the client. */
  datatype World = World(
    preKeys: Store,
    counter: Option<uint32>,
    next: Option<uint32>,
    published: seq<Opk>,
    consumed: set<uint32>,
    issued: nat)

  const Fresh := World(map[], None, None, [], {}, 0)

  /** Death can strike after any store write: inside the loop, or after the counter was stored. A store
      write can also throw, inside the loop or when the counter is stored, and the client lives on; and a
      start may fail to read the stored counter. */
  datatype Event =
    | Start
    | StartReadFails
    | Upload(rounds: seq<Round>)
    | CrashInLoop(rounds: seq<Round>)
    | CrashAfterCounter(rounds: seq<Round>)
    | ThrowInLoop(rounds: seq<Round>)
    | ThrowAtCounter(rounds: seq<Round>)
    | Stop
    | Consume(id: uint32)

  /** `init`: a missing counter reads as 1, and 0 is bumped to 1. */
  function LoadCounter(counter: Option<uint32>): uint32 {
    match counter
    case None => 1
    case Some(c) => if c == 0 then 1 else c
  }

  function Step(w: World, e: Event): World {
    match e
    case Start => w.(next := Some(LoadCounter(w.counter)))
    case StartReadFails => w.(next := Some(1))
    case Stop => w.(next := None)
    case Consume(id) => w.(preKeys := w.preKeys - {id}, consumed := w.consumed + {id})
    case Upload(rounds) =>
      if w.next.None? then w
      else
        var (n, after) := (w.next.value, IdAt(w.next.value, |rounds|));
        w.(preKeys := Written(w.preKeys, n, rounds), counter := Some(after), next := Some(after),
           published := w.published + Issued(n, rounds), issued := w.issued + |rounds|)
    case CrashInLoop(rounds) =>
      if w.next.None? then w
      else w.(preKeys := Written(w.preKeys, w.next.value, rounds), next := None)
    case CrashAfterCounter(rounds) =>
      if w.next.None? then w
      else
        var n := w.next.value;
        w.(preKeys := Written(w.preKeys, n, rounds), counter := Some(IdAt(n, |rounds|)), next := None,
           issued := w.issued + |rounds|)
    case ThrowInLoop(rounds) =>
      if w.next.None? then w else w.(preKeys := Written(w.preKeys, w.next.value, rounds))
    case ThrowAtCounter(rounds) =>
      if w.next.None? then w
      else
        var n := w.next.value;
        w.(preKeys := Written(w.preKeys, n, rounds), next := Some(IdAt(n, |rounds|)), issued := w.issued + |rounds|)
  }

  function Run(events: seq<Event>): World {
    if events == [] then Fresh else Step(Run(events[..|events| - 1]), events[|events| - 1])
  }

  /** The rounds an event runs the generation loop for. */
  function Rounds(e: Event): seq<Round> {
    if e.Upload? || e.CrashInLoop? || e.CrashAfterCounter? || e.ThrowInLoop? || e.ThrowAtCounter? then e.rounds else []
  }

  /** Ids a single event asks for. */
  function Asks(e: Event): nat { |Rounds(e)| }

  /** Fewer than 2^32 ids are issued, including those of an upload that dies in its loop. */
  ghost predicate Fits(events: seq<Event>) {
    forall k :: 0 <= k < |events| ==> Run(events[..k]).issued + Asks(events[k]) < TWO32
  }

  ghost predicate Increasing(s: seq<Opk>) {
    forall i, j :: 0 <= i < j < |s| ==> s[i].id < s[j].id
  }

  ghost predicate Within(s: seq<Opk>, lo: int, hi: int) {
    forall i :: 0 <= i < |s| ==> lo <= s[i].id < hi
  }

  lemma {:induction false} IssuedInOrder(next: uint32, rounds: seq<Round>)
    requires next + |rounds| <= TWO32
    ensures Increasing(Issued(next, rounds)) && Within(Issued(next, rounds), next, next + |rounds|)
  {
    if rounds != [] {
      IssuedInOrder(next, rounds[..|rounds| - 1]);
    }
  }

  /** Rounds that yield a pair. */
  function Pairs(rounds: seq<Round>): nat {
    if rounds == [] then 0 else Pairs(Front(rounds)) + if Last(rounds).Pair? then 1 else 0
  }

  /** The upload has one entry for each round that yields a pair, with that round's own id, key and fate. */
  lemma {:induction false} IssuedExactly(next: uint32, rounds: seq<Round>)
    ensures |Issued(next, rounds)| == Pairs(rounds)
    ensures forall i :: 0 <= i < |rounds| && rounds[i].Pair? ==>
              Opk(IdAt(next, i), rounds[i].key, rounds[i].stored) in Issued(next, rounds)
  {
    if rounds != [] {
      IssuedExactly(next, Front(rounds));
    }
  }

  /** The stored private half of every unconsumed entry is still in the table. */
  ghost predicate KeysKept(opks: seq<Opk>, consumed: set<uint32>, store: Store) {
    forall i :: 0 <= i < |opks| && opks[i].stored && opks[i].id !in consumed ==>
      opks[i].id in store && store[opks[i].id] == opks[i].key
  }

  /** Stored keys of the upload are in the table; ids outside the range are untouched. */
  lemma {:induction false} WrittenKeeps(store: Store, next: uint32, rounds: seq<Round>)
    requires next + |rounds| <= TWO32
    ensures var (opks, after) := (Issued(next, rounds), Written(store, next, rounds));
            && KeysKept(opks, {}, after)
            && (forall id :: !(next <= id < next + |rounds|) ==>
                  (id in after <==> id in store) && (id in store ==> after[id] == store[id]))
  {
    if rounds != [] {
      var n := |rounds| - 1;
      WrittenKeeps(store, next, rounds[..n]);
      IssuedInOrder(next, rounds[..n]);
    }
  }

  /** The first id that the stored counter leaves free. */
  function Base(w: World): int { if w.counter.None? then 1 else w.counter.value }

  /** Ids are numbered from the counter on, and no number has wrapped before the last id is given out. */
  ghost predicate CounterInv(w: World) {
    && w.issued < TWO32
    && (w.issued < TWO32 - 1 ==> 1 <= Base(w) <= 1 + w.issued)
    && (w.issued < TWO32 - 1 && w.next.Some? ==> Base(w) <= w.next.value <= 1 + w.issued)
  }

  /** All published ids lie below the counter, or below 2^32 once it has wrapped. */
  ghost predicate BelowCounter(w: World) {
    Within(w.published, 1, if w.issued < TWO32 - 1 then Base(w) else TWO32)
  }

  /** Published ids increase over the whole history, and stored private halves stay until consumed. */
  ghost predicate PublishedInv(w: World) {
    Increasing(w.published) && BelowCounter(w) && KeysKept(w.published, w.consumed, w.preKeys)
  }

  /** The session counts from below the stored counter, as after a failed read. */
  predicate Fallen(w: World) { w.next.Some? && w.next.value < Base(w) }

  lemma EmptyLoop(w: World, e: Event)
    requires CounterInv(w) && PublishedInv(w) && Rounds(e) == [] && !e.Start? && !e.StartReadFails?
    ensures PublishedInv(Step(w, e)) && (!Fallen(w) ==> CounterInv(Step(w, e)))
  {
    if w.next.Some? {
      assert Issued(w.next.value, []) == [] && w.published + [] == w.published;
    }
  }

  /** What a loop does to the keys and ids, whatever becomes of the counter. */
  lemma LoopKeeps(w: World, rounds: seq<Round>)
    requires CounterInv(w) && PublishedInv(w) && w.next.Some? && rounds != [] && w.issued + |rounds| < TWO32
    ensures var (n, after) := (w.next.value, Written(w.preKeys, w.next.value, rounds));
            && 1 <= n && n + |rounds| <= TWO32 && n + |rounds| <= 1 + w.issued + |rounds|
            && KeysKept(w.published, w.consumed, after)
            && KeysKept(w.published + Issued(n, rounds), w.consumed, after)
            && Increasing(w.published + Issued(n, rounds)) && Within(w.published + Issued(n, rounds), 1, n + |rounds|)
  {
    var n := w.next.value;
    IssuedInOrder(n, rounds);
    RoundsKeep(w, n, rounds);
    IncreasingConcat(w.published, Issued(n, rounds), n);
    KeptConcat(w.published, Issued(n, rounds), w.consumed, Written(w.preKeys, n, rounds));
  }

  lemma UploadKeeps(w: World, rounds: seq<Round>)
    requires CounterInv(w) && PublishedInv(w) && w.next.Some? && rounds != [] && w.issued + |rounds| < TWO32
    ensures CounterInv(Step(w, Upload(rounds))) && PublishedInv(Step(w, Upload(rounds)))
  {
    LoopKeeps(w, rounds);
  }

  lemma CrashKeeps(w: World, rounds: seq<Round>)
    requires CounterInv(w) && PublishedInv(w) && w.next.Some? && rounds != [] && w.issued + |rounds| < TWO32
    ensures CounterInv(Step(w, CrashInLoop(rounds))) && PublishedInv(Step(w, CrashInLoop(rounds)))
    ensures CounterInv(Step(w, CrashAfterCounter(rounds))) && PublishedInv(Step(w, CrashAfterCounter(rounds)))
  {
    LoopKeeps(w, rounds);
  }

  lemma ThrowKeeps(w: World, rounds: seq<Round>)
    requires CounterInv(w) && PublishedInv(w) && w.next.Some? && rounds != [] && w.issued + |rounds| < TWO32
    ensures CounterInv(Step(w, ThrowInLoop(rounds))) && PublishedInv(Step(w, ThrowInLoop(rounds)))
    ensures CounterInv(Step(w, ThrowAtCounter(rounds))) && PublishedInv(Step(w, ThrowAtCounter(rounds)))
  {
    LoopKeeps(w, rounds);
  }

  lemma StepKeeps(w: World, e: Event)
    requires CounterInv(w) && PublishedInv(w) && w.issued + Asks(e) < TWO32 && !e.StartReadFails?
    ensures CounterInv(Step(w, e)) && PublishedInv(Step(w, e))
  {
    if e.Start? {
    } else if Rounds(e) == [] {
      EmptyLoop(w, e);
    } else if w.next.Some? {
      if e.Upload? {
        UploadKeeps(w, e.rounds);
      } else if e.CrashInLoop? || e.CrashAfterCounter? {
        CrashKeeps(w, e.rounds);
      } else {
        ThrowKeeps(w, e.rounds);
      }
    }
  }

  /** The rounds disturb no private key of an id published before. */
  lemma RoundsKeep(w: World, n: uint32, rounds: seq<Round>)
    requires Within(w.published, 1, n) && KeysKept(w.published, w.consumed, w.preKeys) && n + |rounds| <= TWO32
    ensures KeysKept(w.published, w.consumed, Written(w.preKeys, n, rounds))
    ensures KeysKept(Issued(n, rounds), w.consumed, Written(w.preKeys, n, rounds))
  {
    WrittenKeeps(w.preKeys, n, rounds);
    var (opks, after) := (Issued(n, rounds), Written(w.preKeys, n, rounds));
    forall i | 0 <= i < |opks| && opks[i].stored && opks[i].id !in w.consumed
      ensures opks[i].id in after && after[opks[i].id] == opks[i].key
    {
      assert opks[i].id !in {};
    }
  }

  lemma KeptConcat(a: seq<Opk>, b: seq<Opk>, consumed: set<uint32>, store: Store)
    requires KeysKept(a, consumed, store) && KeysKept(b, consumed, store)
    ensures KeysKept(a + b, consumed, store)
  {}

  lemma IncreasingConcat(a: seq<Opk>, b: seq<Opk>, mid: int)
    requires Increasing(a) && Increasing(b) && Within(a, 0, mid) && Within(b, mid, TWO32)
    ensures Increasing(a + b)
  {}

  /** The event prepares an upload, whatever becomes of it; even an empty one writes the counter. */
  predicate Prepares(e: Event) { !(e.Start? || e.StartReadFails? || e.Stop? || e.Consume?) }

  /** While the session counts from below the stored counter, no upload is prepared. */
  ghost predicate NoFallenUpload(events: seq<Event>) {
    forall k :: 0 <= k < |events| && Prepares(events[k]) ==> !Fallen(Run(events[..k]))
  }

  /** In a session that is fallen, nothing but the session's own number is off. */
  ghost predicate Sound(w: World) {
    && PublishedInv(w)
    && (if Fallen(w) && w.issued < TWO32 - 1 then w.next == Some(1) && CounterInv(w.(next := None)) else CounterInv(w))
  }

  lemma SoundStep(w: World, e: Event)
    requires Sound(w) && w.issued + Asks(e) < TWO32 && (Prepares(e) ==> !Fallen(w))
    ensures Sound(Step(w, e))
  {
    if e.Start? {
      StepKeeps(w.(next := None), e);
    } else if !e.StartReadFails? && (!Fallen(w) || w.issued == TWO32 - 1) {
      StepKeeps(w, e);
    }
  }

  lemma HistoryPrefix(events: seq<Event>)
    requires events != [] && Fits(events)
    ensures Fits(Front(events)) && (NoFallenUpload(events) ==> NoFallenUpload(Front(events)))
    ensures Run(events) == Step(Run(Front(events)), Last(events))
    ensures Run(Front(events)).issued + Asks(Last(events)) < TWO32
  {
    var n := |events| - 1;
    assert events[..n] == Front(events);
    forall k | 0 <= k < n ensures Front(events)[..k] == events[..k] {}
  }

  /** No id is published twice: over uploads, restarts, crashes and throwing writes the published ids only
      grow, and every published id whose record was stored keeps its private key until it is consumed, as
      long as none is prepared in a session that failed to read a counter above 1. */
  lemma {:induction false} IdsNeverReused(events: seq<Event>)
    requires Fits(events) && NoFallenUpload(events)
    ensures Sound(Run(events))
  {
    if events != [] {
      var w := Run(Front(events));
      HistoryPrefix(events);
      IdsNeverReused(Front(events));
      assert events[..|events| - 1] == Front(events);
      SoundStep(w, Last(events));
    }
  }
}
