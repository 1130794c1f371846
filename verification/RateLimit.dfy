/** The fixed-window rate limiter with its idle cleanup. Times are ticks of a clock that never
    runs backwards and is past 0, the value the code uses for "unset". */
module RateLimit {
  import opened Prelude

  const WINDOW := 60_000_000_000
  const IDLE := 10 * WINDOW

  type Addr = string

  datatype ClientInfo = ClientInfo(count: int, windowStart: nat, lastAccess: nat)

  /** The closure's shared state. */
  datatype Limiter = Limiter(clients: map<Addr, ClientInfo>, lastCleanup: nat)

  datatype Request = Request(now: nat, addr: Addr)

  function Lookup(clients: map<Addr, ClientInfo>, a: Addr): ClientInfo {
    if a in clients then clients[a] else ClientInfo(0, 0, 0)
  }

  /** One request of one client: its entry afterwards and whether it is let through. */
  function Admit(info: ClientInfo, now: nat, limit: int): (ClientInfo, bool) {
    var start := if info.windowStart == 0 then now else info.windowStart;
    var (count, since) := if now - start >= WINDOW then (0, now) else (info.count, start);
    if count >= limit then (ClientInfo(count, since, now), false)
    else (ClientInfo(count + 1, since, now), true)
  }

  function Evict(l: Limiter, now: nat): Limiter {
    if now - l.lastCleanup >= IDLE then
      Limiter(map a | a in l.clients && now - l.clients[a].lastAccess < IDLE :: l.clients[a], now)
    else l
  }

  /** The middleware on one request. */
  function Handle(l: Limiter, r: Request, limit: int): (Limiter, bool) {
    var e := Evict(l, r.now);
    var (info, ok) := Admit(Lookup(e.clients, r.addr), r.now, limit);
    (e.(clients := e.clients[r.addr := info]), ok)
  }

  /** The same limiter without cleanup: the reference the first is compared with. */
  function HandleKeeping(clients: map<Addr, ClientInfo>, r: Request, limit: int): (map<Addr, ClientInfo>, bool) {
    var (info, ok) := Admit(Lookup(clients, r.addr), r.now, limit);
    (clients[r.addr := info], ok)
  }

  function Serve(start: nat, rs: seq<Request>, limit: int): (Limiter, seq<bool>) {
    if rs == [] then (Limiter(map[], start), [])
    else
      var n := |rs| - 1;
      var (l, answers) := Serve(start, rs[..n], limit);
      var (l', ok) := Handle(l, rs[n], limit);
      (l', answers + [ok])
  }

  function ServeKeeping(rs: seq<Request>, limit: int): (map<Addr, ClientInfo>, seq<bool>) {
    if rs == [] then (map[], [])
    else
      var n := |rs| - 1;
      var (c, answers) := ServeKeeping(rs[..n], limit);
      var (c', ok) := HandleKeeping(c, rs[n], limit);
      (c', answers + [ok])
  }

  ghost predicate Timed(rs: seq<Request>) {
    && (forall i :: 0 <= i < |rs| ==> 0 < rs[i].now)
    && forall i, j :: 0 <= i < j < |rs| ==> rs[i].now <= rs[j].now
  }

  // ----- eviction is unobservable -----

  /** Evicted clients have been idle so long that their window is over anyway. */
  ghost predicate Mirrors(l: Limiter, kept: map<Addr, ClientInfo>, now: nat) {
    && (forall a :: a in kept ==> 0 < kept[a].windowStart <= kept[a].lastAccess <= now)
    && (forall a :: a in l.clients ==> a in kept && l.clients[a] == kept[a])
    && (forall a :: a in kept && a !in l.clients ==> kept[a].lastAccess + IDLE <= now)
  }

  lemma MirrorsStep(l: Limiter, kept: map<Addr, ClientInfo>, before: nat, r: Request, limit: int)
    requires Mirrors(l, kept, before) && before <= r.now && 0 < r.now
    ensures Handle(l, r, limit).1 == HandleKeeping(kept, r, limit).1
    ensures Mirrors(Handle(l, r, limit).0, HandleKeeping(kept, r, limit).0, r.now)
  {
    var e := Evict(l, r.now);
    assert Mirrors(e, kept, r.now);
    assert Admit(Lookup(e.clients, r.addr), r.now, limit) == Admit(Lookup(kept, r.addr), r.now, limit);
  }

  lemma {:induction false} ServedAlike(start: nat, rs: seq<Request>, limit: int)
    requires Timed(rs)
    ensures Serve(start, rs, limit).1 == ServeKeeping(rs, limit).1
    ensures Mirrors(Serve(start, rs, limit).0, ServeKeeping(rs, limit).0, if rs == [] then 0 else rs[|rs| - 1].now)
  {
    if rs != [] {
      var n := |rs| - 1;
      ServedAlike(start, rs[..n], limit);
      MirrorsStep(Serve(start, rs[..n], limit).0, ServeKeeping(rs[..n], limit).0,
                  if n == 0 then 0 else rs[n - 1].now, rs[n], limit);
    }
  }

  /** The limiter with idle cleanup answers every request as one that never forgets anybody. */
  lemma EvictionUnobservable(start: nat, rs: seq<Request>, limit: int)
    requires Timed(rs)
    ensures Serve(start, rs, limit).1 == ServeKeeping(rs, limit).1
  {
    ServedAlike(start, rs, limit);
  }

  // ----- how many requests get through -----

  /** Requests of one address in the half-open interval, among those the mask keeps. */
  function Count(rs: seq<Request>, keep: seq<bool>, a: Addr, lo: int, hi: int): nat
    requires |keep| == |rs|
  {
    if rs == [] then 0
    else
      var n := |rs| - 1;
      Count(rs[..n], keep[..n], a, lo, hi) +
      if rs[n].addr == a && keep[n] && lo <= rs[n].now < hi then 1 else 0
  }

  /** Requests in the minute that starts at t. */
  function PerMinute(rs: seq<Request>, keep: seq<bool>, a: Addr, t: int): nat
    requires |keep| == |rs|
  {
    Count(rs, keep, a, t, t + 60_000_000_000)
  }

  lemma {:induction false} CountSplit(rs: seq<Request>, keep: seq<bool>, a: Addr, lo: int, mid: int, hi: int)
    requires |keep| == |rs| && lo <= mid <= hi
    ensures Count(rs, keep, a, lo, hi) == Count(rs, keep, a, lo, mid) + Count(rs, keep, a, mid, hi)
  {
    if rs != [] {
      CountSplit(rs[..|rs| - 1], keep[..|rs| - 1], a, lo, mid, hi);
    }
  }

  lemma {:induction false} CountEmpty(rs: seq<Request>, keep: seq<bool>, a: Addr, lo: int, hi: int)
    requires |keep| == |rs|
    requires forall i :: 0 <= i < |rs| && rs[i].addr == a ==> !(lo <= rs[i].now < hi)
    ensures Count(rs, keep, a, lo, hi) == 0
  {
    if rs != [] {
      CountEmpty(rs[..|rs| - 1], keep[..|rs| - 1], a, lo, hi);
    }
  }

  lemma {:induction false} CountKept(rs: seq<Request>, keep: seq<bool>, more: seq<bool>, a: Addr, lo: int, hi: int)
    requires |keep| == |more| == |rs|
    requires forall i :: 0 <= i < |rs| && keep[i] ==> more[i]
    ensures Count(rs, keep, a, lo, hi) <= Count(rs, more, a, lo, hi)
  {
    if rs != [] {
      CountKept(rs[..|rs| - 1], keep[..|rs| - 1], more[..|rs| - 1], a, lo, hi);
    }
  }

  /** What the entry of an address says about the accepted requests so far; `end` is past the last
      of them. A window opens with an accepted request, so in the minute before the current window
      at most `limit - 1` requests of one earlier window are left. */
  ghost predicate WindowInv(rs: seq<Request>, oks: seq<bool>, a: Addr, info: ClientInfo, limit: int, end: int)
    requires |oks| == |rs|
  {
    && 0 < info.windowStart <= info.lastAccess < info.windowStart + WINDOW
    && info.lastAccess < end
    && (forall i :: 0 <= i < |rs| && rs[i].addr == a ==> rs[i].now <= info.lastAccess)
    && info.count == Count(rs, oks, a, info.windowStart, end)
    && info.count <= Max(limit, 0)
    && (0 < limit ==> 0 < Count(rs, oks, a, info.windowStart, info.windowStart + 1))
    && (forall t :: info.windowStart - WINDOW < t <= info.windowStart ==>
          Count(rs, oks, a, t, info.windowStart) <= Max(limit - 1, 0))
    && (forall t :: t <= info.windowStart - WINDOW ==> PerMinute(rs, oks, a, t) <= Max(2 * limit - 1, 0))
  }

  /** A minute meets at most two windows, and misses the opening request of the first of two. */
  lemma TwoWindows(rs: seq<Request>, oks: seq<bool>, a: Addr, info: ClientInfo, limit: int, end: int, t: int)
    requires |oks| == |rs| && WindowInv(rs, oks, a, info, limit, end)
    ensures PerMinute(rs, oks, a, t) <= Max(2 * limit - 1, 0)
  {
    var w := info.windowStart;
    if w - WINDOW < t <= w {
      CountSplit(rs, oks, a, t, w, t + WINDOW);
      if t + WINDOW <= end {
        CountSplit(rs, oks, a, w, t + WINDOW, end);
      } else {
        CountSplit(rs, oks, a, w, end, t + WINDOW);
        CountEmpty(rs, oks, a, end, t + WINDOW);
      }
    } else if t > w {
      if t + WINDOW <= end {
        CountSplit(rs, oks, a, w, t, end);
        CountSplit(rs, oks, a, t, t + WINDOW, end);
      } else if t <= end {
        CountSplit(rs, oks, a, w, t, end);
        CountSplit(rs, oks, a, t, end, t + WINDOW);
        CountEmpty(rs, oks, a, end, t + WINDOW);
      } else {
        CountEmpty(rs, oks, a, t, t + WINDOW);
      }
    }
  }

  /** One more request of the address keeps the window invariant. */
  lemma WindowStep(rs: seq<Request>, oks: seq<bool>, a: Addr, info: ClientInfo, limit: int, end: int, r: Request)
    requires |oks| == |rs| && WindowInv(rs, oks, a, info, limit, end)
    requires r.addr == a && info.lastAccess <= r.now && end <= r.now + 1
    requires forall i :: 0 <= i < |rs| && rs[i].addr == a ==> rs[i].now < end
    ensures var (info', ok) := Admit(info, r.now, limit);
            WindowInv(rs + [r], oks + [ok], a, info', limit, r.now + 1)
  {
    var (info', ok) := Admit(info, r.now, limit);
    var (w, w') := (info.windowStart, info'.windowStart);
    var (rs', oks') := (rs + [r], oks + [ok]);
    assert rs'[..|rs|] == rs && oks'[..|rs|] == oks;
    CountSplit(rs, oks, a, w, end, r.now + 1);
    CountEmpty(rs, oks, a, end, r.now + 1);
    if w' == w {
      forall t | w - WINDOW < t <= w ensures Count(rs', oks', a, t, w) <= Max(limit - 1, 0) {}
    } else {
      CountEmpty(rs, oks, a, r.now, r.now + 1);
      CountSplit(rs, oks, a, w, w + 1, r.now + 1);
      forall t | w' - WINDOW < t <= w' ensures Count(rs', oks', a, t, w') <= Max(limit - 1, 0) {
        CountSplit(rs, oks, a, w + 1, t, r.now + 1);
        CountSplit(rs, oks, a, t, r.now, r.now + 1);
      }
    }
    forall t | t <= w' - WINDOW ensures PerMinute(rs', oks', a, t) <= Max(2 * limit - 1, 0) {
      TwoWindows(rs, oks, a, info, limit, end, t);
    }
  }

  /** The first request of an address opens its window. */
  lemma WindowOpens(rs: seq<Request>, oks: seq<bool>, r: Request, limit: int)
    requires |oks| == |rs| && 0 < r.now
    requires forall i :: 0 <= i < |rs| ==> rs[i].addr != r.addr
    ensures var (info', ok) := Admit(ClientInfo(0, 0, 0), r.now, limit);
            WindowInv(rs + [r], oks + [ok], r.addr, info', limit, r.now + 1)
  {
    var (info', ok) := Admit(ClientInfo(0, 0, 0), r.now, limit);
    var (rs', oks') := (rs + [r], oks + [ok]);
    assert rs'[..|rs|] == rs && oks'[..|rs|] == oks;
    forall lo, hi ensures Count(rs, oks, r.addr, lo, hi) == 0 { CountEmpty(rs, oks, r.addr, lo, hi); }
    forall t | t <= r.now - WINDOW ensures PerMinute(rs', oks', r.addr, t) <= Max(2 * limit - 1, 0) {
      assert Count(rs, oks, r.addr, t, t + WINDOW) == 0;
    }
  }

  /** A request of somebody else changes nothing for the address. */
  lemma WindowFrame(rs: seq<Request>, oks: seq<bool>, a: Addr, info: ClientInfo, limit: int, end: int, r: Request,
                    ok: bool)
    requires |oks| == |rs| && WindowInv(rs, oks, a, info, limit, end) && r.addr != a && end <= r.now + 1
    requires forall i :: 0 <= i < |rs| && rs[i].addr == a ==> rs[i].now < end
    ensures WindowInv(rs + [r], oks + [ok], a, info, limit, r.now + 1)
  {
    var (rs', oks') := (rs + [r], oks + [ok]);
    assert rs'[..|rs|] == rs && oks'[..|rs|] == oks;
    forall lo, hi ensures Count(rs', oks', a, lo, hi) == Count(rs, oks, a, lo, hi) {}
    forall t | t <= info.windowStart - WINDOW ensures PerMinute(rs', oks', a, t) <= Max(2 * limit - 1, 0) {
      assert PerMinute(rs', oks', a, t) == PerMinute(rs, oks, a, t);
    }
    CountSplit(rs, oks, a, info.windowStart, end, r.now + 1);
    CountEmpty(rs, oks, a, end, r.now + 1);
  }

  function End(rs: seq<Request>): int { if rs == [] then 0 else rs[|rs| - 1].now + 1 }

  lemma {:induction false} KeepingWindows(rs: seq<Request>, limit: int, a: Addr)
    requires Timed(rs)
    ensures var (c, oks) := ServeKeeping(rs, limit);
            && |oks| == |rs|
            && (a in c <==> exists i :: 0 <= i < |rs| && rs[i].addr == a)
            && (a in c ==> WindowInv(rs, oks, a, c[a], limit, End(rs)))
  {
    if rs != [] {
      var n := |rs| - 1;
      var (before, r) := (rs[..n], rs[n]);
      KeepingWindows(before, limit, a);
      var (c, oks) := ServeKeeping(before, limit);
      var (info', ok) := Admit(Lookup(c, r.addr), r.now, limit);
      assert before + [r] == rs;
      if r.addr == a && a in c {
        WindowStep(before, oks, a, c[a], limit, End(before), r);
      } else if r.addr == a {
        WindowOpens(before, oks, r, limit);
      } else if a in c {
        WindowFrame(before, oks, a, c[a], limit, End(before), r, ok);
      }
    }
  }

  /** No address gets more than 2 * limit - 1 requests through in any half-open minute of any run. */
  lemma BelowTwiceTheLimit(start: nat, rs: seq<Request>, limit: int, a: Addr, t: int)
    requires Timed(rs)
    ensures |Serve(start, rs, limit).1| == |rs|
    ensures PerMinute(rs, Serve(start, rs, limit).1, a, t) <= Max(2 * limit - 1, 0)
  {
    EvictionUnobservable(start, rs, limit);
    KeepingWindows(rs, limit, a);
    var (c, oks) := ServeKeeping(rs, limit);
    if a in c {
      TwoWindows(rs, oks, a, c[a], limit, End(rs), t);
    } else {
      CountEmpty(rs, oks, a, t, t + WINDOW);
    }
  }

  function Everyone(rs: seq<Request>): seq<bool> { seq(|rs|, _ => true) }

  /** One request opens a window, `limit - 1` fill it at its very end, `limit` more fill the next. */
  function BurstTime(limit: nat, i: nat): nat { if i == 0 then 1 else if i < limit then WINDOW else WINDOW + 1 }

  function Burst(a: Addr, limit: nat, n: nat): seq<Request> {
    if n == 0 then [] else Burst(a, limit, n - 1) + [Request(BurstTime(limit, n - 1), a)]
  }

  function Yes(n: nat): seq<bool> { if n == 0 then [] else Yes(n - 1) + [true] }

  lemma {:induction false} BurstLength(a: Addr, limit: nat, n: nat)
    ensures |Burst(a, limit, n)| == |Yes(n)| == n
  {
    if n > 0 {
      BurstLength(a, limit, n - 1);
    }
  }

  lemma {:induction false} BurstTimes(a: Addr, limit: nat, n: nat)
    requires 1 <= limit
    ensures |Burst(a, limit, n)| == |Yes(n)| == n && Timed(Burst(a, limit, n))
    ensures forall i :: 0 <= i < n ==> Burst(a, limit, n)[i] == Request(BurstTime(limit, i), a) && Yes(n)[i]
  {
    BurstLength(a, limit, n);
    if n > 0 {
      BurstLength(a, limit, n - 1);
      BurstTimes(a, limit, n - 1);
    }
  }

  lemma ServeSnoc(rs: seq<Request>, r: Request, limit: int)
    ensures var (info, ok) := Admit(Lookup(ServeKeeping(rs, limit).0, r.addr), r.now, limit);
            && Lookup(ServeKeeping(rs + [r], limit).0, r.addr) == info
            && ServeKeeping(rs + [r], limit).1 == ServeKeeping(rs, limit).1 + [ok]
  {
    assert (rs + [r])[..|rs|] == rs;
  }

  /** Where the client's window stands after `n` requests of the burst. */
  ghost predicate BurstWindow(info: ClientInfo, limit: nat, n: nat) {
    && (n == 0 ==> info == ClientInfo(0, 0, 0))
    && (0 < n <= limit ==> info.windowStart == 1 && info.count == n)
    && (limit < n ==> info.windowStart == WINDOW + 1 && info.count == n - limit)
  }

  lemma BurstAdmits(info: ClientInfo, limit: nat, n: nat)
    requires 1 <= limit && n < 2 * limit && BurstWindow(info, limit, n)
    ensures var (info', ok) := Admit(info, BurstTime(limit, n), limit); ok && BurstWindow(info', limit, n + 1)
  {}

  lemma {:induction false} BurstPasses(a: Addr, limit: nat, n: nat)
    requires 1 <= limit && n <= 2 * limit
    ensures ServeKeeping(Burst(a, limit, n), limit).1 == Yes(n)
    ensures BurstWindow(Lookup(ServeKeeping(Burst(a, limit, n), limit).0, a), limit, n)
  {
    if n > 0 {
      var before := Burst(a, limit, n - 1);
      BurstPasses(a, limit, n - 1);
      BurstAdmits(Lookup(ServeKeeping(before, limit).0, a), limit, n - 1);
      ServeSnoc(before, Request(BurstTime(limit, n - 1), a), limit);
    }
  }

  /** All of a burst but its first request lies in the minute from one minute on. */
  lemma BurstInMinute(limit: nat, i: nat)
    requires 1 <= limit
    ensures WINDOW <= BurstTime(limit, i) < 2 * WINDOW <==> i > 0
  {}

  lemma {:induction false} CountFrom(rs: seq<Request>, keep: seq<bool>, a: Addr, lo: int, hi: int, m: nat)
    requires |keep| == |rs|
    requires forall i :: 0 <= i < |rs| ==> rs[i].addr == a && keep[i] && (lo <= rs[i].now < hi <==> m <= i)
    ensures Count(rs, keep, a, lo, hi) == Max(|rs| - m, 0)
  {
    if rs != [] {
      CountFrom(rs[..|rs| - 1], keep[..|rs| - 1], a, lo, hi, m);
    }
  }

  lemma BurstMinute(a: Addr, limit: nat, n: nat)
    requires 1 <= limit && 1 <= n
    ensures |Burst(a, limit, n)| == |Yes(n)| && PerMinute(Burst(a, limit, n), Yes(n), a, WINDOW) == n - 1
  {
    var burst := Burst(a, limit, n);
    BurstTimes(a, limit, n);
    forall i | 0 <= i < n ensures WINDOW <= burst[i].now < 2 * WINDOW <==> 1 <= i {
      BurstInMinute(limit, i);
    }
    CountFrom(burst, Yes(n), a, WINDOW, 2 * WINDOW, 1);
  }

  lemma BurstServed(start: nat, a: Addr, limit: nat)
    requires 1 <= limit
    ensures Timed(Burst(a, limit, 2 * limit)) && Serve(start, Burst(a, limit, 2 * limit), limit).1 == Yes(2 * limit)
  {
    BurstTimes(a, limit, 2 * limit);
    EvictionUnobservable(start, Burst(a, limit, 2 * limit), limit);
    BurstPasses(a, limit, 2 * limit);
  }

  /** The bound is reached, for every positive limit: all of a burst passes, 2 * limit - 1 of it in
      one minute. */
  lemma BoundIsTight(start: nat, a: Addr, limit: nat)
    requires 1 <= limit
    ensures var (burst, answers) := (Burst(a, limit, 2 * limit), Yes(2 * limit));
            && Timed(burst) && Serve(start, burst, limit).1 == answers && |answers| == |burst|
            && PerMinute(burst, answers, a, WINDOW) == 2 * limit - 1
  {
    BurstServed(start, a, limit);
    BurstMinute(a, limit, 2 * limit);
  }

  /** An address that never asks more than `limit` times in a minute is never refused. */
  lemma ModestNeverRefused(start: nat, rs: seq<Request>, limit: int, a: Addr, k: nat)
    requires Timed(rs) && k < |rs| && rs[k].addr == a
    requires forall t :: PerMinute(rs, Everyone(rs), a, t) <= limit
    ensures |Serve(start, rs, limit).1| == |rs| && Serve(start, rs, limit).1[k]
  {
    EvictionUnobservable(start, rs, limit);
    KeepingWindows(rs, limit, a);
    KeepingModest(rs, limit, a, k);
  }

  lemma {:induction false} KeepingModest(rs: seq<Request>, limit: int, a: Addr, k: nat)
    requires Timed(rs) && k < |rs| && rs[k].addr == a
    requires forall t :: PerMinute(rs, Everyone(rs), a, t) <= limit
    ensures |ServeKeeping(rs, limit).1| == |rs| && ServeKeeping(rs, limit).1[k]
  {
    var n := |rs| - 1;
    var before := rs[..n];
    assert Everyone(rs)[..n] == Everyone(before);
    KeepingWindows(before, limit, a);
    if k < n {
      forall t ensures PerMinute(before, Everyone(before), a, t) <= limit {
        assert PerMinute(rs, Everyone(rs), a, t) <= limit;
      }
      KeepingModest(before, limit, a, k);
    } else {
      var (c, oks) := ServeKeeping(before, limit);
      var info := Lookup(c, a);
      var w := if a in c && rs[n].now - info.windowStart < WINDOW then info.windowStart else rs[n].now;
      assert PerMinute(rs, Everyone(rs), a, w) <= limit;
      if a in c && rs[n].now - info.windowStart < WINDOW {
        CountSplit(before, oks, a, w, End(before), w + WINDOW);
        CountKept(before, oks, Everyone(before), a, w, w + WINDOW);
      }
    }
  }

  // ----- who is remembered -----

  const TEN_MINUTES := 600_000_000_000

  /** When the cleanup last ran, from the times of the requests alone. */
  function LastCleanup(start: nat, rs: seq<Request>): nat {
    if rs == [] then start
    else
      var before := LastCleanup(start, Front(rs));
      if Last(rs).now - before >= TEN_MINUTES then Last(rs).now else before
  }

  /** When the address last asked. */
  function LastAsked(rs: seq<Request>, a: Addr): Option<nat> {
    if rs == [] then None else if Last(rs).addr == a then Some(Last(rs).now) else LastAsked(Front(rs), a)
  }

  /** The limiter is made before the first request. An address is remembered exactly if it has asked less
      than ten minutes before the last cleanup, or since, and its entry carries the time it last asked. */
  lemma {:induction false} RememberedIff(start: nat, rs: seq<Request>, limit: int, a: Addr)
    requires Timed(rs) && (rs != [] ==> start <= rs[0].now)
    ensures var (l, asked) := (Serve(start, rs, limit).0, LastAsked(rs, a));
            && l.lastCleanup == LastCleanup(start, rs)
            && (a in l.clients <==> asked.Some? && asked.value + TEN_MINUTES > l.lastCleanup)
            && (a in l.clients ==> l.clients[a].lastAccess == asked.value)
  {
    if rs != [] {
      RememberedIff(start, Front(rs), limit, a);
      AskedBefore(Front(rs), a, Last(rs).now);
      CleanupIsRecent(start, rs);
    }
  }

  lemma {:induction false} AskedBefore(rs: seq<Request>, a: Addr, now: int)
    requires forall i :: 0 <= i < |rs| ==> rs[i].now <= now
    ensures LastAsked(rs, a).Some? ==> LastAsked(rs, a).value <= now
  {
    if rs != [] {
      AskedBefore(Front(rs), a, now);
    }
  }

  lemma {:induction false} CleanupIsRecent(start: nat, rs: seq<Request>)
    requires Timed(rs) && rs != [] && start <= rs[0].now
    ensures LastCleanup(start, rs) <= Last(rs).now < LastCleanup(start, rs) + TEN_MINUTES
  {
    if |rs| > 1 {
      CleanupIsRecent(start, Front(rs));
    } else {
      assert LastCleanup(start, Front(rs)) == start;
    }
  }

  /** So nobody is remembered who has not asked for twenty minutes. */
  lemma IdleAreForgotten(start: nat, rs: seq<Request>, limit: int, a: Addr)
    requires Timed(rs) && rs != [] && start <= rs[0].now && a in Serve(start, rs, limit).0.clients
    ensures LastAsked(rs, a).Some? && Last(rs).now - LastAsked(rs, a).value < 2 * TEN_MINUTES
  {
    RememberedIff(start, rs, limit, a);
    CleanupIsRecent(start, rs);
  }

  // ----- the closure itself -----

  class RateLimiter {
    const limit: int
    var clients: map<Addr, ClientInfo>
    var lastCleanup: nat

    constructor (limit: int, now: nat)
      ensures this.limit == limit && State() == Limiter(map[], now)
    {
      this.limit, clients, lastCleanup := limit, map[], now;
    }

    ghost function State(): Limiter reads this { Limiter(clients, lastCleanup) }

    /** The erase loop over the client map. */
    method EraseIdle(now: nat)
      modifies this`clients
      ensures clients == map a | a in old(clients) && now - old(clients)[a].lastAccess < IDLE :: old(clients)[a]
    {
      var left := clients.Keys;
      while left != {}
        invariant left <= clients.Keys <= old(clients).Keys
        invariant forall a :: a in clients ==> clients[a] == old(clients)[a]
        invariant forall a :: a in old(clients) && a !in left ==>
                                (a in clients <==> now - old(clients)[a].lastAccess < IDLE)
        decreases left
      {
        var a :| a in left;
        left := left - {a};
        if now - clients[a].lastAccess >= IDLE {
          clients := clients - {a};
        }
      }
    }

    /** Follows the code: the entry is created on first use, stamped, its window renewed, then judged. */
    method Process(now: nat, addr: Addr) returns (pass: bool)
      modifies this`clients, this`lastCleanup
      ensures (State(), pass) == Handle(old(State()), Request(now, addr), limit)
    {
      if now - lastCleanup >= IDLE {
        EraseIdle(now);
        lastCleanup := now;
      }
      ghost var evicted := Evict(old(State()), now);
      assert State() == evicted;
      var info := if addr in clients then clients[addr] else ClientInfo(0, 0, 0);
      if info.windowStart == 0 {
        info := info.(windowStart := now);
      }
      info := info.(lastAccess := now);
      if now - info.windowStart >= WINDOW {
        info := info.(count := 0, windowStart := now);
      }
      if info.count >= limit {
        clients := clients[addr := info];
        return false;
      }
      info := info.(count := info.count + 1);
      clients := clients[addr := info];
      return true;
    }
  }
}
