/** The public server directory: registration, liveness by pings, and the cleanup job. */
module Directory {
  import opened Prelude

  const Timeout := 10 * 60 * 1000

  datatype Server = Server(address: string, host: string, port: int, name: string, description: string,
                           registeredAt: int, lastPing: int, online: bool)

  type Servers = map<string, Server>

  /** The port field of a request: absent, not a number, or the number read from it. */
  datatype PortField = Missing | NotANumber | Number(n: int)

  datatype Reply = BadRequest | NotFound | Registered(id: string) | Reregistered(id: string) | Done

  function Address(host: string, port: nat): string { host + ":" + Decimal(port) }

  function Or(text: string, fallback: string): string { if text != "" then text else fallback }

  predicate Valid(host: string, port: PortField) { host != "" && port.Number? && 1 <= port.n <= 65535 }

  function NewServer(now: int, host: string, port: nat, name: string, description: string): Server {
    Server(Address(host, port), host, port, Or(name, "Grotto Server"),
           Or(description, "An Grotto encrypted chat server"), now, now, true)
  }

  function Renewed(s: Server, now: int, name: string, description: string): Server {
    s.(lastPing := now, name := Or(name, s.name), description := Or(description, s.description))
  }

  ghost predicate Holds(servers: Servers, id: string, address: string) {
    id in servers && servers[id].address == address
  }

  ghost function Register(servers: Servers, now: int, host: string, port: PortField, name: string, description: string,
                          uuid: string): (r: (Servers, Reply))
  {
    if !Valid(host, port) then (servers, BadRequest)
    else if exists id :: Holds(servers, id, Address(host, port.n)) then
      var id :| Holds(servers, id, Address(host, port.n));
      (servers[id := Renewed(servers[id], now, name, description)], Reregistered(id))
    else (servers[uuid := NewServer(now, host, port.n, name, description)], Registered(uuid))
  }

  function Ping(servers: Servers, now: int, id: string): (Servers, Reply) {
    if id == "" then (servers, BadRequest)
    else if id !in servers then (servers, NotFound)
    else (servers[id := servers[id].(lastPing := now, online := true)], Done)
  }

  function Unregister(servers: Servers, id: string): (Servers, Reply) {
    if id == "" then (servers, BadRequest)
    else if id !in servers then (servers, NotFound)
    else (servers - {id}, Done)
  }

  predicate Stale(s: Server, now: int) { now - s.lastPing > Timeout }

  predicate Expired(s: Server, now: int) { now - s.lastPing > 2 * Timeout }

  function Aged(s: Server, now: int): Server { if Stale(s, now) then s.(online := false) else s }

  function Cleaned(servers: Servers, now: int): Servers {
    map id | id in servers && !Expired(servers[id], now) :: Aged(servers[id], now)
  }

  predicate ListedOnline(s: Server, now: int) { s.online && now - s.lastPing < Timeout }

  // ----- the service -----

  /** Entries have pairwise different addresses, each made of its host and a legal port. */
  ghost predicate Sound(servers: Servers) {
    && (forall id :: id in servers ==>
          1 <= servers[id].port <= 65535 && servers[id].address == Address(servers[id].host, servers[id].port))
    && (forall a, b :: a in servers && b in servers && servers[a].address == servers[b].address ==> a == b)
  }

  lemma RegisterHeld(servers: Servers, now: int, host: string, port: PortField, name: string, description: string,
                     uuid: string, id: string)
    requires Sound(servers) && Valid(host, port) && Holds(servers, id, Address(host, port.n))
    ensures Register(servers, now, host, port, name, description, uuid) ==
            (servers[id := Renewed(servers[id], now, name, description)], Reregistered(id))
  {
    assert forall other :: Holds(servers, other, Address(host, port.n)) ==> other == id;
  }

  lemma RegisterSound(servers: Servers, now: int, host: string, port: PortField, name: string, description: string,
                      uuid: string)
    requires Sound(servers) && uuid !in servers && Valid(host, port)
    ensures Sound(Register(servers, now, host, port, name, description, uuid).0)
  {
    if id :| Holds(servers, id, Address(host, port.n)) {
      RegisterHeld(servers, now, host, port, name, description, uuid, id);
    } else {
      assert forall id :: id in servers ==> !Holds(servers, id, Address(host, port.n));
    }
  }

  class Directory {
    var servers: Servers

    constructor ()
      ensures servers == map[] && Sound(servers)
    {
      servers := map[];
    }

    method HandleRegister(now: int, host: string, port: PortField, name: string, description: string, uuid: string)
        returns (reply: Reply)
      requires Sound(servers) && uuid !in servers
      modifies this
      ensures Sound(servers)
      ensures (servers, reply) == Register(old(servers), now, host, port, name, description, uuid)
    {
      if host == "" || port.Missing? {
        return BadRequest;
      }
      if port.NotANumber? || port.n < 1 || port.n > 65535 {
        return BadRequest;
      }
      RegisterSound(servers, now, host, port, name, description, uuid);
      var holder := HolderOf(Address(host, port.n));
      if holder.Some? {
        RegisterHeld(servers, now, host, port, name, description, uuid, holder.value);
        var s := servers[holder.value];
        servers := servers[holder.value := s.(lastPing := now, name := if name != "" then name else s.name,
                                              description := if description != "" then description else s.description)];
        return Reregistered(holder.value);
      }
      servers := servers[uuid := NewServer(now, host, port.n, name, description)];
      reply := Registered(uuid);
    }

    /** The search over the entries for one with the same address. */
    method HolderOf(address: string) returns (holder: Option<string>)
      ensures holder.Some? ==> Holds(servers, holder.value, address)
      ensures holder.None? ==> forall id :: !Holds(servers, id, address)
    {
      var left := servers.Keys;
      while left != {}
        invariant left <= servers.Keys
        invariant forall id :: id in servers && id !in left ==> servers[id].address != address
      {
        var id :| id in left;
        if servers[id].address == address {
          return Some(id);
        }
        left := left - {id};
      }
      holder := None;
    }

    method HandlePing(now: int, id: string) returns (reply: Reply)
      modifies this
      ensures reply == if id == "" then BadRequest else if id in old(servers) then Done else NotFound
      ensures (servers, reply) == Ping(old(servers), now, id)
    {
      if id == "" {
        return BadRequest;
      }
      if id !in servers {
        return NotFound;
      }
      servers := servers[id := servers[id].(lastPing := now, online := true)];
      reply := Done;
    }

    method HandleUnregister(id: string) returns (reply: Reply)
      modifies this
      ensures reply == if id == "" then BadRequest else if id in old(servers) then Done else NotFound
      ensures servers == if id == "" then old(servers) else old(servers) - {id}
      ensures (servers, reply) == Unregister(old(servers), id)
    {
      if id == "" {
        return BadRequest;
      }
      if id !in servers {
        assert servers - {id} == servers;
        return NotFound;
      }
      servers := servers - {id};
      reply := Done;
    }

    /** The online flag shown for every entry of the list. */
    method List(now: int) returns (shown: map<string, bool>)
      ensures shown == map id | id in servers :: ListedOnline(servers[id], now)
    {
      shown := map[];
      var left := servers.Keys;
      while left != {}
        invariant left <= servers.Keys
        invariant shown == map id | id in servers && id !in left :: ListedOnline(servers[id], now)
      {
        var id :| id in left;
        shown := shown[id := servers[id].online && now - servers[id].lastPing < Timeout];
        left := left - {id};
      }
    }

    method CleanupStaleServers(now: int)
      modifies this
      ensures servers == Cleaned(old(servers), now)
    {
      var left := servers.Keys;
      while left != {}
        invariant left <= servers.Keys <= old(servers).Keys
        invariant forall id :: id in left ==> servers[id] == old(servers)[id]
        invariant forall id :: id in old(servers) && id !in left ==>
                    (id in servers <==> !Expired(old(servers)[id], now))
        invariant forall id :: id in servers && id !in left ==> servers[id] == Aged(old(servers)[id], now)
      {
        var id :| id in left;
        var s := servers[id];
        if now - s.lastPing > Timeout {
          servers := servers[id := s.(online := false)];
          if now - s.lastPing > 2 * Timeout {
            servers := servers - {id};
          }
        }
        left := left - {id};
      }
    }
  }

  /** Host and port can be read back from an address, so distinct addresses are distinct servers. */
  lemma AddressInjective(host1: string, port1: nat, host2: string, port2: nat)
    requires Address(host1, port1) == Address(host2, port2)
    ensures host1 == host2 && port1 == port2
  {
    var (d1, d2) := (Decimal(port1), Decimal(port2));
    ColonNotEarlier(host1, d1, host2, d2);
    ColonNotEarlier(host2, d2, host1, d1);
    assert host1 == (host1 + ":" + d1)[..|host1|] && d1 == (host1 + ":" + d1)[|host1| + 1..];
    assert host2 == (host2 + ":" + d2)[..|host2|] && d2 == (host2 + ":" + d2)[|host2| + 1..];
    DecimalInjective(port1, port2);
  }

  lemma ColonNotEarlier(host1: string, digits1: string, host2: string, digits2: string)
    requires forall i :: 0 <= i < |digits2| ==> digits2[i] != ':'
    requires host1 + ":" + digits1 == host2 + ":" + digits2
    ensures |host1| <= |host2|
  {
    var address := host1 + ":" + digits1;
    assert address[|host1|] == ':';
  }

  // ----- runs -----

  datatype Event =
    | DoRegister(now: int, host: string, port: PortField, name: string, description: string, uuid: string)
    | DoPing(now: int, id: string)
    | DoUnregister(now: int, id: string)
    | DoCleanup(now: int)

  ghost function Step(servers: Servers, e: Event): Servers {
    match e
    case DoRegister(now, host, port, name, description, uuid) =>
      Register(servers, now, host, port, name, description, uuid).0
    case DoPing(now, id) => Ping(servers, now, id).0
    case DoUnregister(now, id) => Unregister(servers, id).0
    case DoCleanup(now) => Cleaned(servers, now)
  }

  ghost function After(events: seq<Event>): Servers {
    if events == [] then map[] else Step(After(Front(events)), Last(events))
  }

  /** A generated identifier is not in use. */
  ghost predicate FreshIds(events: seq<Event>) {
    events == [] ||
    (FreshIds(Front(events)) &&
     (Last(events).DoRegister? ==> Last(events).uuid != "" && Last(events).uuid !in After(Front(events))))
  }

  /** Starting empty, no two entries ever have the same address. */
  lemma {:induction false} AddressesDistinct(events: seq<Event>)
    requires FreshIds(events)
    ensures Sound(After(events))
  {
    if events != [] {
      AddressesDistinct(Front(events));
      StepSound(After(Front(events)), Last(events));
    }
  }

  lemma StepSound(servers: Servers, e: Event)
    requires Sound(servers) && (e.DoRegister? ==> e.uuid !in servers)
    ensures Sound(Step(servers, e))
  {
    if e.DoRegister? {
      if Valid(e.host, e.port) {
        RegisterSound(servers, e.now, e.host, e.port, e.name, e.description, e.uuid);
      }
    } else {
      OthersKeepAddresses(servers, e);
      SameAddresses(servers, Step(servers, e));
    }
  }

  lemma OthersKeepAddresses(servers: Servers, e: Event)
    requires !e.DoRegister?
    ensures forall id :: id in Step(servers, e) ==>
              id in servers && Step(servers, e)[id].host == servers[id].host &&
              Step(servers, e)[id].port == servers[id].port && Step(servers, e)[id].address == servers[id].address
  {}

  lemma SameAddresses(servers: Servers, after: Servers)
    requires Sound(servers)
    requires forall id :: id in after ==>
               id in servers && after[id].host == servers[id].host && after[id].port == servers[id].port &&
               after[id].address == servers[id].address
    ensures Sound(after)
  {}

  /** No two entries are ever for the same host and port. */
  lemma OneEntryPerServer(events: seq<Event>, a: string, b: string)
    requires FreshIds(events)
    requires var servers := After(events);
             a in servers && b in servers && servers[a].host == servers[b].host && servers[a].port == servers[b].port
    ensures a == b
  {
    AddressesDistinct(events);
  }

  /** Does the event ping or register the entry? */
  ghost predicate Touches(servers: Servers, e: Event, id: string) {
    match e
    case DoPing(_, target) => target == id && id != "" && id in servers
    case DoRegister(now, host, port, name, description, uuid) =>
      var reply := Register(servers, now, host, port, name, description, uuid).1;
      reply == Registered(id) || reply == Reregistered(id)
    case DoUnregister(_, _) => false
    case DoCleanup(_) => false
  }

  ghost function LastTouch(events: seq<Event>, id: string): int {
    if events == [] then 0
    else if Touches(After(Front(events)), Last(events), id) then Last(events).now
    else LastTouch(Front(events), id)
  }

  lemma StepTouches(servers: Servers, e: Event, id: string)
    requires id in Step(servers, e)
    ensures if Touches(servers, e, id) then Step(servers, e)[id].lastPing == e.now
            else id in servers && Step(servers, e)[id].lastPing == servers[id].lastPing
  {}

  lemma {:induction false} LastPingIsTouch(events: seq<Event>, id: string)
    requires id in After(events)
    ensures After(events)[id].lastPing == LastTouch(events, id)
  {
    var (servers, e) := (After(Front(events)), Last(events));
    StepTouches(servers, e, id);
    if id in servers {
      LastPingIsTouch(Front(events), id);
    }
  }

  /** Whatever survives a cleanup was pinged or registered within twenty minutes, and is still marked
      online only if that was within ten. */
  lemma SurvivorsAreRecent(events: seq<Event>, id: string)
    requires events != [] && Last(events).DoCleanup? && id in After(events)
    ensures Last(events).now - LastTouch(events, id) <= 2 * Timeout
    ensures After(events)[id].online ==> Last(events).now - LastTouch(events, id) <= Timeout
  {
    LastPingIsTouch(events, id);
  }

  /** A cleanup more than twenty minutes after the last touch removes the entry. */
  lemma AbandonedIsRemoved(events: seq<Event>, id: string)
    requires events != [] && Last(events).DoCleanup?
    requires Last(events).now - LastTouch(Front(events), id) > 2 * Timeout
    ensures id !in After(events)
  {
    if id in After(Front(events)) {
      LastPingIsTouch(Front(events), id);
    }
  }

  /** From its creation at event `r` on, the entry is not unregistered, and every cleanup finds it
      touched within ten minutes. */
  ghost predicate KeptUp(events: seq<Event>, r: nat, id: string) {
    forall k :: r < k < |events| ==>
      && !(events[k].DoUnregister? && events[k].id == id)
      && (events[k].DoCleanup? ==> events[k].now - LastTouch(events[..k], id) <= Timeout)
  }

  ghost predicate Created(events: seq<Event>, r: nat, id: string) {
    && r < |events|
    && events[r].DoRegister?
    && (var e := events[r];
        Register(After(events[..r]), e.now, e.host, e.port, e.name, e.description, e.uuid).1 == Registered(id))
  }

  lemma {:induction false} StaysOnline(events: seq<Event>, r: nat, id: string)
    requires Created(events, r, id) && FreshIds(events) && KeptUp(events, r, id)
    ensures id in After(events) && After(events)[id].online
    decreases |events|
  {
    var (before, e) := (After(Front(events)), Last(events));
    if r == |events| - 1 {
      assert Front(events) == events[..r];
    } else {
      var init := Front(events);
      assert init[..r] == events[..r];
      forall k | r < k < |init| ensures init[..k] == events[..k] {}
      StaysOnline(init, r, id);
      LastPingIsTouch(init, id);
      assert events[..|events| - 1] == init;
      StepKeepsOnline(before, e, id);
    }
  }

  lemma StepKeepsOnline(servers: Servers, e: Event, id: string)
    requires id in servers && servers[id].online && (e.DoRegister? ==> e.uuid !in servers)
    requires !(e.DoUnregister? && e.id == id) && (e.DoCleanup? ==> !Stale(servers[id], e.now))
    ensures id in Step(servers, e) && Step(servers, e)[id].online
  {}

  /** A registered server that is never unregistered and lets no cleanup come more than ten minutes
      after its last touch is present, and the list shows it online exactly while the last touch is
      less than ten minutes ago. */
  lemma ListedWhilePinging(events: seq<Event>, r: nat, id: string, now: int)
    requires Created(events, r, id) && FreshIds(events) && KeptUp(events, r, id)
    ensures id in After(events)
    ensures ListedOnline(After(events)[id], now) <==> now - LastTouch(events, id) < Timeout
  {
    StaysOnline(events, r, id);
    LastPingIsTouch(events, id);
  }

  // ----- pinging often enough -----

  ghost predicate Ordered(events: seq<Event>) {
    forall i, j :: 0 <= i < j < |events| ==> events[i].now <= events[j].now
  }

  /** The time of event `k`, or `now` after the last. */
  function MomentAt(events: seq<Event>, k: nat, now: int): int
    requires k <= |events|
  {
    if k < |events| then events[k].now else now
  }

  /** From its creation on, each touch of the entry follows the one before by less than the timeout,
      and the last lies less than the timeout before `now`. */
  ghost predicate PingsOftenEnough(events: seq<Event>, r: nat, id: string, now: int) {
    && (forall k :: r < k < |events| && Touches(After(events[..k]), events[k], id) ==>
          events[k].now - LastTouch(events[..k], id) < Timeout)
    && now - LastTouch(events, id) < Timeout
  }

  ghost predicate NeverUnregistered(events: seq<Event>, r: nat, id: string) {
    forall k :: r < k < |events| ==> !(events[k].DoUnregister? && events[k].id == id)
  }

  lemma TouchSnoc(events: seq<Event>, k: nat, id: string)
    requires k < |events|
    ensures LastTouch(events[..k + 1], id) ==
            if Touches(After(events[..k]), events[k], id) then events[k].now else LastTouch(events[..k], id)
  {
    assert Front(events[..k + 1]) == events[..k] && Last(events[..k + 1]) == events[k];
  }

  /** Short gaps between touches leave no moment with an old last touch. */
  lemma {:induction false} RecentAt(events: seq<Event>, r: nat, id: string, now: int, k: nat)
    requires Ordered(events) && (events != [] ==> Last(events).now <= now)
    requires PingsOftenEnough(events, r, id, now) && r < k <= |events|
    ensures MomentAt(events, k, now) - LastTouch(events[..k], id) < Timeout
    decreases |events| - k
  {
    if k == |events| {
      assert events[..k] == events;
    } else if !Touches(After(events[..k]), events[k], id) {
      RecentAt(events, r, id, now, k + 1);
      TouchSnoc(events, k, id);
      assert events[k].now <= MomentAt(events, k + 1, now);
    }
  }

  /** Gaps under ten minutes leave no cleanup that finds the entry stale. */
  lemma GapsKeepUp(events: seq<Event>, r: nat, id: string, now: int)
    requires Ordered(events) && (events != [] ==> Last(events).now <= now)
    requires PingsOftenEnough(events, r, id, now) && NeverUnregistered(events, r, id)
    ensures KeptUp(events, r, id)
  {
    forall k | r < k < |events| && events[k].DoCleanup? ensures events[k].now - LastTouch(events[..k], id) <= Timeout {
      RecentAt(events, r, id, now, k);
    }
  }

  lemma PrefixKeptUp(events: seq<Event>, r: nat, id: string, k: nat)
    requires r < k <= |events| && KeptUp(events, r, id) && Created(events, r, id) && FreshIds(events)
    ensures KeptUp(events[..k], r, id) && Created(events[..k], r, id) && FreshIds(events[..k])
  {
    forall j | r < j < k ensures events[..k][..j] == events[..j] {}
    assert events[..k][..r] == events[..r];
    FreshPrefix(events, k);
  }

  lemma {:induction false} FreshPrefix(events: seq<Event>, k: nat)
    requires FreshIds(events) && k <= |events|
    ensures FreshIds(events[..k])
    decreases |events|
  {
    if k == |events| {
      assert events[..k] == events;
    } else {
      FreshPrefix(Front(events), k);
      assert Front(events)[..k] == events[..k];
    }
  }

  /** A newly registered server that is never unregistered and pings at gaps under ten minutes is
      present and listed online at every moment up to `now`: after each event, until the next one. */
  lemma OnlineAtEveryMoment(events: seq<Event>, r: nat, id: string, now: int, k: nat, moment: int)
    requires Ordered(events) && FreshIds(events) && Created(events, r, id) && Last(events).now <= now
    requires PingsOftenEnough(events, r, id, now) && NeverUnregistered(events, r, id)
    requires r < k <= |events| && moment <= MomentAt(events, k, now)
    ensures id in After(events[..k]) && ListedOnline(After(events[..k])[id], moment)
  {
    GapsKeepUp(events, r, id, now);
    PrefixKeptUp(events, r, id, k);
    RecentAt(events, r, id, now, k);
    ListedWhilePinging(events[..k], r, id, moment);
  }

  /** Registering again does not bring an entry back online; only a ping does. */
  lemma ReregisteredIsListedIffStillMarked(servers: Servers, id: string, e: Event)
    requires Sound(servers) && e.DoRegister? && Valid(e.host, e.port) && Holds(servers, id, Address(e.host, e.port.n))
    ensures Touches(servers, e, id) && id in Step(servers, e)
    ensures ListedOnline(Step(servers, e)[id], e.now) <==> servers[id].online
    ensures id != "" ==> ListedOnline(Step(servers, DoPing(e.now, id))[id], e.now)
  {
    RegisterHeld(servers, e.now, e.host, e.port, e.name, e.description, e.uuid, id);
  }

  /** An entry marked offline stays so, through any registrations, until it is pinged or removed. */
  lemma {:induction false} OfflineUntilPinged(events: seq<Event>, k: nat, id: string)
    requires FreshIds(events) && k <= |events| && id in After(events[..k]) && !After(events[..k])[id].online
    requires forall j :: k <= j < |events| ==> !(events[j].DoPing? && events[j].id == id) && id in After(events[..j])
    ensures id in After(events) ==> !After(events)[id].online
    decreases |events|
  {
    if k == |events| {
      assert events[..k] == events;
    } else {
      var init := Front(events);
      assert init[..k] == events[..k];
      forall j | k <= j < |init| ensures init[..j] == events[..j] {}
      assert events[..|events| - 1] == init;
      OfflineUntilPinged(init, k, id);
      StepKeepsOffline(After(init), Last(events), id);
    }
  }

  lemma StepKeepsOffline(servers: Servers, e: Event, id: string)
    requires id in servers && !servers[id].online && (e.DoRegister? ==> e.uuid !in servers)
    requires !(e.DoPing? && e.id == id)
    ensures id in Step(servers, e) ==> !Step(servers, e)[id].online
  {}
}
