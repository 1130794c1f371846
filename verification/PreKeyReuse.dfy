/** When the ids of one-time pre-keys repeat. */
module PreKeyReuse {
  import opened Prelude
  import opened PreKeys

  // ----- when an id is given out twice -----

  function Range(from: nat, n: nat): seq<nat> { if n == 0 then [] else Range(from, n - 1) + [from + n - 1] }

  lemma {:induction false} RangeHolds(from: nat, n: nat)
    ensures |Range(from, n)| == n && forall i :: 0 <= i < n ==> Range(from, n)[i] == from + i
  {
    if n > 0 {
      RangeHolds(from, n - 1);
    }
  }

  lemma {:induction false} RangeConcat(from: nat, m: nat, n: nat)
    ensures Range(from, m) + Range(from + m, n) == Range(from, m + n)
  {
    if n > 0 {
      RangeConcat(from, m, n - 1);
      assert Range(from + m, n) == Range(from + m, n - 1) + [from + (m + n) - 1];
    } else {
      assert Range(from, m) + [] == Range(from, m);
    }
  }

  /** The event gives out ids: an upload that gets as far as storing its counter. */
  predicate Gives(e: Event) { (e.Upload? || e.CrashAfterCounter?) && e.rounds != [] }

  /** All ids given out, in order. */
  function GivenOut(events: seq<Event>): seq<nat> {
    if events == [] then []
    else
      var (w, e) := (Run(Front(events)), Last(events));
      GivenOut(Front(events)) + (if Gives(e) && w.next.Some? then Range(w.next.value, |e.rounds|) else [])
  }

  ghost predicate Distinct(ids: seq<nat>) { forall i, j :: 0 <= i < j < |ids| ==> ids[i] != ids[j] }

  /** Whether the client is running after an event. */
  predicate AliveAfter(alive: bool, e: Event) {
    match e
    case Start => true
    case StartReadFails => true
    case Stop => false
    case CrashInLoop(_) => false
    case CrashAfterCounter(_) => false
    case _ => alive
  }

  predicate Alive(events: seq<Event>) { events != [] && AliveAfter(Alive(Front(events)), Last(events)) }

  /** Some upload of a running client has given out ids. */
  predicate Counted(events: seq<Event>) {
    events != [] && (Counted(Front(events)) || (Gives(Last(events)) && Alive(Front(events))))
  }

  predicate BadReadAfter(badRead: bool, counted: bool, e: Event) {
    match e
    case Start => false
    case StartReadFails => counted
    case Stop => false
    case CrashInLoop(_) => false
    case CrashAfterCounter(_) => false
    case _ => badRead
  }

  /** The running client failed to read its counter when it started, after ids had been given out. */
  predicate BadRead(events: seq<Event>) {
    events != [] && BadReadAfter(BadRead(Front(events)), Counted(Front(events)), Last(events))
  }

  /** No upload gives out ids in a session that began with such a read. */
  ghost predicate NoGiftAfterBadRead(events: seq<Event>) {
    forall k :: 0 <= k < |events| && Gives(events[k]) && Alive(events[..k]) ==> !BadRead(events[..k])
  }

  predicate LeavesNoGap(e: Event) {
    !e.ThrowAtCounter? && (e.Upload? || e.CrashAfterCounter? ==> e.rounds != [])
  }

  /** Uploads have rounds, as the client's always have, and no counter write throws: that would leave
      numbers that are counted past but never given out, so that a later bad read may hit a gap. */
  ghost predicate Gapless(events: seq<Event>) {
    forall k :: 0 <= k < |events| ==> LeavesNoGap(events[k])
  }

  lemma SplitLast(events: seq<Event>)
    requires events != [] && Fits(events) && Gapless(events)
    ensures Fits(Front(events)) && Gapless(Front(events)) && LeavesNoGap(Last(events))
    ensures Run(events) == Step(Run(Front(events)), Last(events))
    ensures Run(Front(events)).issued + Asks(Last(events)) < TWO32
  {
    HistoryPrefix(events);
  }

  /** The last event gives out ids after a bad read. */
  predicate EndsInBadGift(events: seq<Event>)
    requires events != []
  {
    Gives(Last(events)) && Alive(Front(events)) && BadRead(Front(events))
  }

  lemma SplitGifts(events: seq<Event>)
    requires events != []
    ensures NoGiftAfterBadRead(events) <==> NoGiftAfterBadRead(Front(events)) && !EndsInBadGift(events)
  {
    var (n, before) := (|events| - 1, Front(events));
    assert forall k :: 0 <= k < n ==> before[k] == events[k] && before[..k] == events[..k];
    assert events[..n] == before;
  }

  /** Ids have been given out from 1 on without a gap, the stored counter is the next one, and a session
      counts from there, or from 1 after a bad read. */
  ghost predicate Numbers(w: World, given: seq<nat>, alive: bool, counted: bool, badRead: bool) {
    && given == Range(1, w.issued)
    && (w.next.Some? <==> alive) && (counted <==> w.issued > 0)
    && (w.issued < TWO32 - 1 ==> Base(w) == 1 + w.issued)
    && (w.issued < TWO32 - 1 && w.next.Some? ==> w.next.value == if badRead then 1 else 1 + w.issued)
  }

  ghost predicate Numbered(events: seq<Event>) {
    Numbers(Run(events), GivenOut(events), Alive(events), Counted(events), BadRead(events))
  }

  /** The numbering holds as long as no upload follows a bad read. */
  lemma {:induction false} NumberedUntilBadGift(events: seq<Event>)
    requires Fits(events) && Gapless(events) && NoGiftAfterBadRead(events)
    ensures Numbered(events)
  {
    if events != [] {
      SplitLast(events);
      SplitGifts(events);
      NumberedUntilBadGift(Front(events));
      var (w, e) := (Run(Front(events)), Last(events));
      var (given, alive) := (GivenOut(Front(events)), Alive(Front(events)));
      if Gives(e) && alive {
        GiftNumbers(w, e, given, Counted(Front(events)));
      } else {
        RestNumbers(w, e, given, alive, Counted(Front(events)), BadRead(Front(events)));
        assert given + [] == given;
      }
    }
  }

  lemma GiftNumbers(w: World, e: Event, given: seq<nat>, counted: bool)
    requires Numbers(w, given, true, counted, false) && Gives(e) && w.issued + Asks(e) < TWO32
    ensures Numbers(Step(w, e), given + Range(w.next.value, |e.rounds|), AliveAfter(true, e), true, false)
  {
    assert w.next == Some(1 + w.issued);
    RangeConcat(1, w.issued, |e.rounds|);
  }

  lemma RestNumbers(w: World, e: Event, given: seq<nat>, alive: bool, counted: bool, badRead: bool)
    requires Numbers(w, given, alive, counted, badRead) && !(Gives(e) && alive) && LeavesNoGap(e)
    ensures Numbers(Step(w, e), given, AliveAfter(alive, e), counted, BadReadAfter(badRead, counted, e))
  {}

  lemma RepeatsRemain(a: seq<nat>, b: seq<nat>)
    requires !Distinct(a)
    ensures !Distinct(a + b)
  {
    var i, j :| 0 <= i < j < |a| && a[i] == a[j];
    assert (a + b)[i] == (a + b)[j];
  }

  lemma {:induction false} BadGiftRepeats(events: seq<Event>)
    requires Fits(events) && Gapless(events) && !NoGiftAfterBadRead(events)
    ensures !Distinct(GivenOut(events))
  {
    assert events != [];
    SplitLast(events);
    SplitGifts(events);
    var (w, e) := (Run(Front(events)), Last(events));
    if !NoGiftAfterBadRead(Front(events)) {
      BadGiftRepeats(Front(events));
      RepeatsRemain(GivenOut(Front(events)), if Gives(e) && w.next.Some? then Range(w.next.value, |e.rounds|) else []);
    } else {
      NumberedUntilBadGift(Front(events));
      BadReadCounted(Front(events));
      RangeHolds(1, w.issued);
      RangeHolds(1, |e.rounds|);
      var (given, more) := (Range(1, w.issued), Range(1, |e.rounds|));
      assert w.next == Some(1) && GivenOut(events) == given + more;
      assert (given + more)[0] == given[0] && (given + more)[|given|] == more[0];
    }
  }

  lemma {:induction false} BadReadCounted(events: seq<Event>)
    requires BadRead(events)
    ensures Counted(events)
  {
    if !Last(events).StartReadFails? {
      BadReadCounted(Front(events));
    }
  }

  lemma RangeDistinct(from: nat, n: nat)
    ensures Distinct(Range(from, n))
  {
    RangeHolds(from, n);
  }

  /** No id is given out twice if and only if no upload gives out ids in a session that began with a
      failed read of the counter after ids had been given out. */
  lemma GivenOutOnceIff(events: seq<Event>)
    requires Fits(events) && Gapless(events)
    ensures Distinct(GivenOut(events)) <==> NoGiftAfterBadRead(events)
  {
    if NoGiftAfterBadRead(events) {
      NumberedUntilBadGift(events);
      RangeDistinct(1, Run(events).issued);
    } else {
      BadGiftRepeats(events);
    }
  }

  /** One more event, as all the functions over histories see it. */
  lemma OneMore(events: seq<Event>, e: Event)
    ensures Front(events + [e]) == events && Last(events + [e]) == e
    ensures var (w, longer) := (Run(events), events + [e]);
            && Run(longer) == Step(w, e)
            && GivenOut(longer) ==
               GivenOut(events) + (if Gives(e) && w.next.Some? then Range(w.next.value, |e.rounds|) else [])
            && Alive(longer) == AliveAfter(Alive(events), e)
            && Counted(longer) == (Counted(events) || (Gives(e) && Alive(events)))
            && BadRead(longer) == BadReadAfter(BadRead(events), Counted(events), e)
  {
    assert Front(events + [e]) == events;
  }

  /** One round whose counter write throws, one that is sent, a failed read, and one more to send. */
  function GapEvents(r: Round): seq<Event> {
    [Start, ThrowAtCounter([r]), Upload([r]), StartReadFails, Upload([r])]
  }

  lemma GapPrefixes(r: Round)
    ensures var events := GapEvents(r);
            && events[..0] == [] && events[..1] == [Start] && events[..2] == events[..1] + [ThrowAtCounter([r])]
            && events[..3] == events[..2] + [Upload([r])] && events[..4] == events[..3] + [StartReadFails]
            && events[..5] == events && events == events[..4] + [Upload([r])]
  {}

  lemma GapSteps(r: Round)
    ensures var events := GapEvents(r);
            && Run(events[..1]).issued == 0 && Run(events[..2]).issued == 1 && Run(events[..3]).issued == 2
            && Run(events[..3]).next.Some? && Run(events[..4]).next == Some(1) && Run(events[..4]).issued == 2
            && GivenOut(events[..4]) == Range(2, 1) && Alive(events[..4]) && BadRead(events[..4])
  {
    GapPrefixes(r);
    var events := GapEvents(r);
    OneMore([], Start);
    assert [] + [Start] == [Start];
    OneMore(events[..1], ThrowAtCounter([r]));
    OneMore(events[..2], Upload([r]));
    OneMore(events[..3], StartReadFails);
  }

  lemma GapFits(r: Round)
    ensures Fits(GapEvents(r))
  {
    GapSteps(r);
    GapPrefixes(r);
    assert Run([]).issued == 0;
  }

  lemma GapGives(r: Round)
    ensures GivenOut(GapEvents(r)) == [2, 1]
  {
    var before := GapEvents(r)[..4];
    GapSteps(r);
    GapPrefixes(r);
    OneMore(before, Upload([r]));
    RangeHolds(2, 1);
    RangeHolds(1, 1);
  }

  lemma GapEndsBadly(r: Round)
    ensures EndsInBadGift(GapEvents(r))
  {
    GapSteps(r);
    assert Front(GapEvents(r)) == GapEvents(r)[..4];
  }

  /** A throwing counter write can hide a bad read: id 1 was counted past, never given out, and the upload
      after the failed read is the first to give it out. */
  lemma GapHidesBadRead(r: Round)
    ensures Fits(GapEvents(r)) && Distinct(GivenOut(GapEvents(r))) && !NoGiftAfterBadRead(GapEvents(r))
  {
    GapFits(r);
    GapGives(r);
    GapEndsBadly(r);
    SplitGifts(GapEvents(r));
  }

  // ----- when an id is published twice -----

  ghost predicate OnceEach(opks: seq<Opk>) { forall i, j :: 0 <= i < j < |opks| ==> opks[i].id != opks[j].id }

  /** Every upload is sent and every round of it yields a pair. */
  ghost predicate AllSent(events: seq<Event>) {
    forall k :: 0 <= k < |events| ==>
      !events[k].CrashAfterCounter? &&
      (events[k].Upload? ==> forall i :: 0 <= i < |events[k].rounds| ==> events[k].rounds[i].Pair?)
  }

  /** No number wraps before the last id is given out. */
  ghost predicate NumbersFit(w: World) {
    && w.issued < TWO32
    && (w.issued < TWO32 - 1 && w.next.Some? ==> 1 <= w.next.value <= 1 + w.issued)
    && (w.issued < TWO32 - 1 && w.counter.Some? ==> 1 <= w.counter.value <= 1 + w.issued)
  }

  lemma {:induction false} NumbersAlwaysFit(events: seq<Event>)
    requires Fits(events)
    ensures NumbersFit(Run(events))
  {
    if events != [] {
      HistoryPrefix(events);
      NumbersAlwaysFit(Front(events));
      NumbersStep(Run(Front(events)), Last(events));
    }
  }

  lemma NumbersStep(w: World, e: Event)
    requires NumbersFit(w) && w.issued + Asks(e) < TWO32
    ensures NumbersFit(Step(w, e))
  {}

  /** The published entries carry exactly these ids. */
  ghost predicate Carry(opks: seq<Opk>, ids: seq<nat>) {
    |opks| == |ids| && forall i :: 0 <= i < |opks| ==> opks[i].id == ids[i]
  }

  lemma {:induction false} IssuedAll(next: uint32, rounds: seq<Round>)
    requires next + |rounds| <= TWO32 && forall i :: 0 <= i < |rounds| ==> rounds[i].Pair?
    ensures Carry(Issued(next, rounds), Range(next, |rounds|))
  {
    if rounds != [] {
      IssuedAll(next, rounds[..|rounds| - 1]);
    }
  }

  lemma CarryConcat(a: seq<Opk>, b: seq<Opk>, x: seq<nat>, y: seq<nat>)
    requires Carry(a, x) && Carry(b, y)
    ensures Carry(a + b, x + y)
  {}

  lemma {:induction false} PublishedIsGivenOut(events: seq<Event>)
    requires Fits(events) && Gapless(events) && AllSent(events)
    ensures Carry(Run(events).published, GivenOut(events))
  {
    if events != [] {
      SplitLast(events);
      PublishedIsGivenOut(Front(events));
      var (w, e) := (Run(Front(events)), Last(events));
      if e.Upload? && w.next.Some? {
        NumbersAlwaysFit(Front(events));
        IssuedAll(w.next.value, e.rounds);
        var (opks, ids) := (Issued(w.next.value, e.rounds), Range(w.next.value, |e.rounds|));
        CarryConcat(w.published, opks, GivenOut(Front(events)), ids);
      } else {
        assert Step(w, e).published == w.published && GivenOut(events) == GivenOut(Front(events));
      }
    }
  }

  /** Where uploads are sent and rounds yield pairs, the same condition decides over published ids. */
  lemma PublishedOnceIff(events: seq<Event>)
    requires Fits(events) && Gapless(events) && AllSent(events)
    ensures OnceEach(Run(events).published) <==> NoGiftAfterBadRead(events)
  {
    PublishedIsGivenOut(events);
    GivenOutOnceIff(events);
    var (opks, ids) := (Run(events).published, GivenOut(events));
    assert Distinct(ids) ==> OnceEach(opks);
    if OnceEach(opks) {
      forall i, j | 0 <= i < j < |ids| ensures ids[i] != ids[j] {
        assert opks[i].id != opks[j].id;
      }
    }
  }

  /** A failed read of the counter after one upload: the same id is published twice, and the private key
      of the first is gone. */
  lemma FailedReadRun(k1: Key, k2: Key)
    ensures var w := Run([Start, Upload([Pair(k1, true)]), StartReadFails, Upload([Pair(k2, true)])]);
            w.published == [Opk(1, k1, true), Opk(1, k2, true)] && w.preKeys == map[1 := k2]
  {
    var (r1, r2) := ([Pair(k1, true)], [Pair(k2, true)]);
    var events := [Start, Upload(r1), StartReadFails, Upload(r2)];
    assert r1[..0] == [] && r2[..0] == [] && IdAt(1, 0) == 1;
    assert Issued(1, []) == [] && Issued(1, r1) == [Opk(1, k1, true)] && Issued(1, r2) == [Opk(1, k2, true)];
    assert Written(map[], 1, []) == map[] && Written(map[], 1, r1) == map[1 := k1];
    assert Written(map[1 := k1], 1, []) == map[1 := k1] && Written(map[1 := k1], 1, r2) == map[1 := k2];
    assert events[..3] == [Start, Upload(r1), StartReadFails] && events[..3][..2] == [Start, Upload(r1)];
    assert events[..3][..2][..1] == [Start] && [Start][..0] == [];
    assert Run([Start]) == Step(Fresh, Start);
    assert Run(events[..3][..2]) == Step(Run([Start]), Upload(r1));
    assert Run(events[..3]) == Step(Run(events[..3][..2]), StartReadFails);
  }

  // ----- the bound on the number of ids -----

  lemma {:induction false} FirstIssued(next: uint32, rounds: seq<Round>)
    requires rounds != [] && rounds[0].Pair?
    ensures Issued(next, rounds) != [] && Issued(next, rounds)[0].id == next
  {
    var n := |rounds| - 1;
    if n > 0 {
      FirstIssued(next, rounds[..n]);
    } else {
      assert rounds[..0] == [] && Issued(next, []) == [];
    }
  }

  function ToTheLimit(rounds: seq<Round>): seq<Event> { [Start, Upload(rounds)] }

  lemma LimitReached(rounds: seq<Round>)
    requires |rounds| == TWO32 - 1 && rounds[0].Pair?
    ensures Fits(ToTheLimit(rounds))
    ensures var w := Run(ToTheLimit(rounds));
            w.issued == TWO32 - 1 && w.counter == Some(0) && w.published != [] && w.published[0].id == 1
  {
    var events := ToTheLimit(rounds);
    assert events[..0] == [] && events[..1] == [Start] && [Start][..0] == [] && events[..2] == events;
    assert Run([Start]) == Step(Fresh, Start);
    FirstIssued(1, rounds);
    assert Run(events) == Step(Run([Start]), Upload(rounds));
    assert Run([Start]).published + Issued(1, rounds) == Issued(1, rounds);
  }

  /** The bound is sharp: an upload of 2^32 - 1 ids fits, and after the next start the first id handed
      out is 1 again. */
  lemma ReuseAtTheLimit(rounds: seq<Round>, key: Key)
    requires |rounds| == TWO32 - 1 && rounds[0].Pair?
    ensures Fits(ToTheLimit(rounds))
    ensures var (w, after) := (Run(ToTheLimit(rounds)), Run(ToTheLimit(rounds) + [Start, Upload([Pair(key, true)])]));
            && |after.published| == |w.published| + 1 && w.published != []
            && after.published[|w.published|].id == after.published[0].id == w.published[0].id
  {
    LimitReached(rounds);
    var (events, round) := (ToTheLimit(rounds), [Pair(key, true)]);
    var longer := events + [Start, Upload(round)];
    assert longer[..3] == events + [Start] && longer[..3][..2] == events;
    assert Run(longer[..3]) == Step(Run(events), Start);
    assert round[..0] == [] && Issued(1, []) == [] && IdAt(1, 0) == 1;
    assert Issued(1, round) == [Opk(1, key, true)];
    assert Run(longer) == Step(Run(longer[..3]), Upload(round));
  }
}
