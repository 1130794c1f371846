/** What the directory says of one server, told from the events that concern it. */
module DirectoryHistory {
  import opened Prelude
  import opened Directory

  const TEN_MINUTES := 600_000
  const TWENTY_MINUTES := 1_200_000

  // ----- one event -----

  /** The request is a registration that is not refused. */
  predicate Registers(e: Event) {
    e.DoRegister? && e.host != "" && e.port.Number? && 1 <= e.port.n <= 65535
  }

  predicate IsServer(s: Server, host: string, port: PortField) { s.host == host && port == Number(s.port) }

  /** The event enters the server under a new identifier: no entry is for its host and port. */
  ghost predicate Enters(servers: Servers, e: Event, id: string) {
    Registers(e) && e.uuid == id && forall other :: other in servers ==> !IsServer(servers[other], e.host, e.port)
  }

  /** The event registers the server of the entry again. */
  ghost predicate Renews(servers: Servers, e: Event, id: string) {
    Registers(e) && id in servers && IsServer(servers[id], e.host, e.port)
  }

  predicate Pings(e: Event, id: string) { e.DoPing? && e.id == id && id != "" }

  /** The event takes the entry away. */
  predicate Leaves(servers: Servers, e: Event, id: string)
    requires id in servers
  {
    (e.DoUnregister? && e.id == id && id != "") ||
    (e.DoCleanup? && e.now - servers[id].lastPing > TWENTY_MINUTES)
  }

  function Given(text: string, otherwise: string): string { if text == "" then otherwise else text }

  /** An entry that stays, after the event. */
  ghost predicate Follows(servers: Servers, e: Event, id: string, s: Server)
    requires id in servers
  {
    var was := servers[id];
    && s.host == was.host && s.port == was.port && s.address == was.address && s.registeredAt == was.registeredAt
    && s.lastPing == (if Pings(e, id) || Renews(servers, e, id) then e.now else was.lastPing)
    && s.online == (if Pings(e, id) then true
                    else if e.DoCleanup? && e.now - was.lastPing > TEN_MINUTES then false
                    else was.online)
    && s.name == (if Renews(servers, e, id) then Given(e.name, was.name) else was.name)
    && s.description == (if Renews(servers, e, id) then Given(e.description, was.description) else was.description)
  }

  /** A newly entered server: everything as given, with the two default texts. */
  ghost predicate New(e: Event, s: Server)
    requires Registers(e)
  {
    && IsServer(s, e.host, e.port) && s.registeredAt == s.lastPing == e.now && s.online
    && s.name == Given(e.name, "Grotto Server")
    && s.description == Given(e.description, "An Grotto encrypted chat server")
  }

  lemma HolderIsServer(servers: Servers, host: string, port: PortField, id: string)
    requires Sound(servers) && Valid(host, port) && id in servers
    ensures Holds(servers, id, Address(host, port.n)) <==> IsServer(servers[id], host, port)
  {
    if servers[id].address == Address(host, port.n) {
      AddressInjective(servers[id].host, servers[id].port, host, port.n);
    }
  }

  /** A registration is refused exactly for a missing host or an illegal port; else it renews the entry of
      that host and port, or enters a new one if there is none, and touches no other entry. */
  lemma RegisterExactly(servers: Servers, e: Event)
    requires Sound(servers) && e.DoRegister? && e.uuid !in servers
    ensures var (after, reply) := Register(servers, e.now, e.host, e.port, e.name, e.description, e.uuid);
            if !Registers(e) then after == servers && reply == BadRequest
            else
              exists id ::
                && id in after && after - {id} == servers - {id}
                && if Renews(servers, e, id) then Follows(servers, e, id, after[id]) && reply == Reregistered(id)
                   else Enters(servers, e, id) && New(e, after[id]) && reply == Registered(id)
  {
    if Registers(e) {
      if id :| Holds(servers, id, Address(e.host, e.port.n)) {
        RegisterHeld(servers, e.now, e.host, e.port, e.name, e.description, e.uuid, id);
        HolderIsServer(servers, e.host, e.port, id);
        var after := servers[id := Renewed(servers[id], e.now, e.name, e.description)];
        assert after - {id} == servers - {id};
      } else {
        forall other | other in servers ensures !IsServer(servers[other], e.host, e.port) {
          HolderIsServer(servers, e.host, e.port, other);
        }
        var after := servers[e.uuid := NewServer(e.now, e.host, e.port.n, e.name, e.description)];
        assert after - {e.uuid} == servers - {e.uuid};
      }
    }
  }

  /** What an event makes of one entry. */
  ghost predicate EntryAfter(servers: Servers, e: Event, after: Servers, id: string) {
    && (id in after <==> Enters(servers, e, id) || (id in servers && !Leaves(servers, e, id)))
    && (id in after ==> if Enters(servers, e, id) then New(e, after[id])
                        else id in servers && Follows(servers, e, id, after[id]))
  }

  lemma RegisterStep(servers: Servers, e: Event, id: string)
    requires Sound(servers) && e.DoRegister? && e.uuid !in servers
    ensures EntryAfter(servers, e, Step(servers, e), id)
  {
    RegisterExactly(servers, e);
    var after := Step(servers, e);
    if Registers(e) {
      var x :| && x in after && after - {x} == servers - {x}
               && if Renews(servers, e, x) then Follows(servers, e, x, after[x])
                  else Enters(servers, e, x) && New(e, after[x]);
      if id != x {
        assert id in after - {x} <==> id in servers - {x};
        assert id in servers ==> (servers - {x})[id] == servers[id] && (after - {x})[id] == after[id];
        RenewedIsOne(servers, e, x, id);
      }
    }
  }

  lemma RenewedIsOne(servers: Servers, e: Event, x: string, id: string)
    requires Sound(servers) && Registers(e) && e.uuid !in servers && id != x
    requires Renews(servers, e, x) || Enters(servers, e, x)
    ensures !Enters(servers, e, id) && !Renews(servers, e, id)
  {}

  lemma OtherStep(servers: Servers, e: Event, id: string)
    requires !e.DoRegister?
    ensures EntryAfter(servers, e, Step(servers, e), id)
  {}

  lemma EntryStep(servers: Servers, e: Event, id: string)
    requires Sound(servers) && (e.DoRegister? ==> e.uuid !in servers)
    ensures EntryAfter(servers, e, Step(servers, e), id)
  {
    if e.DoRegister? {
      RegisterStep(servers, e, id);
    } else {
      OtherStep(servers, e, id);
    }
  }

  lemma LastStep(events: seq<Event>, id: string)
    requires events != [] && FreshIds(events)
    ensures EntryAfter(After(Front(events)), Last(events), After(events), id)
  {
    AddressesDistinct(Front(events));
    EntryStep(After(Front(events)), Last(events), id);
  }

  // ----- whole runs -----

  ghost predicate EnteredAt(events: seq<Event>, r: nat, id: string)
    requires r < |events|
  {
    Enters(After(events[..r]), events[r], id)
  }

  ghost predicate TakenAt(events: seq<Event>, k: nat, id: string)
    requires k < |events|
  {
    id in After(events[..k]) && Leaves(After(events[..k]), events[k], id)
  }

  /** Entered at event `r`, and not taken away since. */
  ghost predicate PresentSince(events: seq<Event>, r: nat, id: string) {
    r < |events| && EnteredAt(events, r, id) && forall k :: r < k < |events| ==> !TakenAt(events, k, id)
  }

  lemma SameBefore(events: seq<Event>, k: nat, id: string)
    requires k + 1 < |events|
    ensures EnteredAt(Front(events), k, id) == EnteredAt(events, k, id)
    ensures TakenAt(Front(events), k, id) == TakenAt(events, k, id)
  {
    assert Front(events)[..k] == events[..k];
  }

  lemma SinceFront(events: seq<Event>, r: nat, id: string)
    requires events != [] && r < |events| - 1
    ensures PresentSince(events, r, id) <==> PresentSince(Front(events), r, id) && !TakenAt(events, |events| - 1, id)
  {
    SameBefore(events, r, id);
    forall k | r < k < |events| - 1 ensures TakenAt(Front(events), k, id) == TakenAt(events, k, id) {
      SameBefore(events, k, id);
    }
  }

  /** A server is in the table exactly if it was entered at some point, and has since neither been
      unregistered nor gone more than twenty minutes without a ping when a cleanup came. */
  lemma {:induction false} PresentIff(events: seq<Event>, id: string)
    requires FreshIds(events)
    ensures id in After(events) <==> exists r :: 0 <= r < |events| && PresentSince(events, r, id)
  {
    if events != [] {
      var n := |events| - 1;
      assert events[..n] == Front(events);
      LastStep(events, id);
      PresentIff(Front(events), id);
      if EnteredAt(events, n, id) {
        assert PresentSince(events, n, id);
      } else if r :| 0 <= r < n && PresentSince(Front(events), r, id) {
        SinceFront(events, r, id);
      }
      if r :| 0 <= r < |events| && PresentSince(events, r, id) {
        if r < n {
          SinceFront(events, r, id);
        }
      }
    }
  }

  /** An unregistered server is gone, until its identifier is entered again. */
  lemma UnregisteredIsGone(events: seq<Event>, k: nat, id: string)
    requires FreshIds(events) && k < |events| && events[k].DoUnregister? && events[k].id == id && id != ""
    requires forall r :: k < r < |events| ==> !EnteredAt(events, r, id)
    ensures id !in After(events)
  {
    PresentIff(events, id);
    if r :| 0 <= r < |events| && PresentSince(events, r, id) {
      assert r < k && !TakenAt(events, k, id);
      PrefixPresent(events, r, id, k);
      assert Leaves(After(events[..k]), events[k], id);
    }
  }

  lemma PrefixPresent(events: seq<Event>, r: nat, id: string, k: nat)
    requires FreshIds(events) && r < k <= |events| && PresentSince(events, r, id)
    ensures id in After(events[..k])
  {
    var part := events[..k];
    FreshPrefix(events, k);
    forall j | 0 <= j < k ensures part[..j] == events[..j] && part[j] == events[j] {}
    assert forall j :: r < j < k ==> TakenAt(part, j, id) == TakenAt(events, j, id);
    assert PresentSince(part, r, id);
    PresentIff(part, id);
  }

  /** The texts last given for the server; an empty one leaves that before, or the default. */
  ghost function LastName(events: seq<Event>, id: string): string {
    if events == [] then ""
    else
      var (before, e) := (After(Front(events)), Last(events));
      if Enters(before, e, id) then Given(e.name, "Grotto Server")
      else if Renews(before, e, id) then Given(e.name, LastName(Front(events), id))
      else LastName(Front(events), id)
  }

  ghost function LastDescription(events: seq<Event>, id: string): string {
    if events == [] then ""
    else
      var (before, e) := (After(Front(events)), Last(events));
      if Enters(before, e, id) then Given(e.description, "An Grotto encrypted chat server")
      else if Renews(before, e, id) then Given(e.description, LastDescription(Front(events), id))
      else LastDescription(Front(events), id)
  }

  /** The server was pinged or entered since the last cleanup that found it silent for ten minutes. */
  ghost predicate Marked(events: seq<Event>, id: string) {
    events != [] &&
    var (before, e) := (After(Front(events)), Last(events));
    if Enters(before, e, id) || Pings(e, id) then true
    else if e.DoCleanup? && e.now - LastTouch(Front(events), id) > TEN_MINUTES then false
    else Marked(Front(events), id)
  }

  /** What is shown of a server: the texts last given, and whether it is marked online. */
  lemma {:induction false} ShownAsGiven(events: seq<Event>, id: string)
    requires FreshIds(events) && id in After(events)
    ensures var s := After(events)[id];
            && s.name == LastName(events, id) && s.description == LastDescription(events, id)
            && (s.online <==> Marked(events, id))
  {
    LastStep(events, id);
    var (before, e) := (After(Front(events)), Last(events));
    if !Enters(before, e, id) {
      ShownAsGiven(Front(events), id);
      LastPingIsTouch(Front(events), id);
    }
  }
}
