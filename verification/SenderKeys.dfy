/** Sender keys for channels: when an envelope must carry the distribution message (SKDM), and
    that a receiver who gets the envelopes in order can decrypt every one of them. The ratchet is
    abstract; a failing cipher may leave it anywhere. */
module SenderKeys {
  import opened Prelude

  type Channel = string

  /** Position of a sender chain; an SKDM carries one, a ciphertext is made under one. */
  datatype Ratchet = Ratchet(chain: nat, iteration: nat)

  datatype Envelope = Envelope(channel: Channel, under: Ratchet, plaintext: string, skdm: Option<Ratchet>)

  /** How one call into the cipher ends. `created` is what `create_session` would install, a fresh
      chain or the stored one; after a failure the store holds `left`, or nothing. */
  datatype Cipher = Works(created: Ratchet) | Throws(left: Option<Ratchet>)

  /** `sent` is `sent_skdm_channels_`, `keys` the sender key store. */
  datatype Sender = Sender(sent: set<Channel>, keys: map<Channel, Ratchet>)

  const NewSender := Sender({}, map[])

  /** A restart of the client is a reset too: the set is in memory, the keys are stored. */
  datatype Op = Encrypt(channel: Channel, plaintext: string, cipher: Cipher) | ResetGroups

  datatype Event = Sent(env: Envelope) | Failed(channel: Channel) | WasReset

  function Advance(r: Ratchet): Ratchet { r.(iteration := r.iteration + 1) }

  function Leave(keys: map<Channel, Ratchet>, ch: Channel, left: Option<Ratchet>): map<Channel, Ratchet> {
    match left
    case Some(r) => keys[ch := r]
    case None => keys - {ch}
  }

  /** One call of the group branch of `encrypt`, or of `reset_group_sessions`. */
  function Step(s: Sender, op: Op): (Sender, Event) {
    match op
    case ResetGroups => (s.(sent := {}), WasReset)
    case Encrypt(ch, text, cipher) =>
      if ch !in s.sent then
        match cipher
        case Works(r) =>
          (Sender(s.sent + {ch}, s.keys[ch := Advance(r)]), Sent(Envelope(ch, r, text, Some(r))))
        case Throws(left) => (s.(keys := Leave(s.keys, ch, left)), Failed(ch))
      else
        match cipher
        case Works(_) =>
          if ch in s.keys then
            (s.(keys := s.keys[ch := Advance(s.keys[ch])]), Sent(Envelope(ch, s.keys[ch], text, None)))
          else (s.(sent := s.sent - {ch}), Failed(ch))
        case Throws(left) => (Sender(s.sent - {ch}, Leave(s.keys, ch, left)), Failed(ch))
  }

  /** The sender after a run and the events it produced. */
  function Run(ops: seq<Op>): (Sender, seq<Event>) {
    if ops == [] then (NewSender, [])
    else
      var (s, events) := Run(ops[..|ops| - 1]);
      var (s', e) := Step(s, ops[|ops| - 1]);
      (s', events + [e])
  }

  // ----- the SKDM is sent before use, and only when needed -----

  /** An SKDM for the channel went out, and neither a reset nor a failure on the channel followed. */
  ghost predicate Announced(events: seq<Event>, ch: Channel) {
    exists j :: 0 <= j < |events| && Announces(events, j, ch)
  }

  ghost predicate Announces(events: seq<Event>, j: nat, ch: Channel)
    requires j < |events|
  {
    && events[j].Sent? && events[j].env.channel == ch && events[j].env.skdm.Some?
    && forall l :: j < l < |events| ==> events[l] != WasReset && events[l] != Failed(ch)
  }

  lemma AnnouncedSnoc(events: seq<Event>, e: Event, ch: Channel)
    ensures Announced(events + [e], ch) <==>
            (e.Sent? && e.env.channel == ch && e.env.skdm.Some?) ||
            (Announced(events, ch) && e != WasReset && e != Failed(ch))
  {
    var after := events + [e];
    if e.Sent? && e.env.channel == ch && e.env.skdm.Some? {
      assert Announces(after, |events|, ch);
    } else if Announced(after, ch) {
      var j :| 0 <= j < |after| && Announces(after, j, ch);
      assert after[|events|] == e && forall l :: 0 <= l < |events| ==> after[l] == events[l];
      assert Announces(events, j, ch);
    } else if Announced(events, ch) && e != WasReset && e != Failed(ch) {
      var j :| 0 <= j < |events| && Announces(events, j, ch);
      assert Announces(after, j, ch);
    }
  }

  /** `sent_skdm_channels_` is exactly the set of announced channels, and each has a stored key. */
  lemma {:induction false} SentIsAnnounced(ops: seq<Op>)
    ensures forall ch :: ch in Run(ops).0.sent <==> Announced(Run(ops).1, ch)
    ensures Run(ops).0.sent <= Run(ops).0.keys.Keys
  {
    if ops != [] {
      var before := ops[..|ops| - 1];
      SentIsAnnounced(before);
      var (s, events) := Run(before);
      var (s', e) := Step(s, ops[|ops| - 1]);
      forall ch ensures ch in s'.sent <==> Announced(events + [e], ch) {
        AnnouncedSnoc(events, e, ch);
      }
    }
  }

  /** An envelope carries an SKDM exactly when its channel has not been announced since the last
      reset and since the last failure on the channel. */
  lemma {:induction false} SkdmExactlyWhenNeeded(ops: seq<Op>, k: nat)
    requires k < |Run(ops).1| && Run(ops).1[k].Sent?
    ensures Run(ops).1[k].env.skdm.Some? <==> !Announced(Run(ops).1[..k], Run(ops).1[k].env.channel)
  {
    var before := ops[..|ops| - 1];
    var (s, events) := Run(before);
    assert Run(ops).1[..|events|] == events;
    if k < |events| {
      SkdmExactlyWhenNeeded(before, k);
      assert Run(ops).1[..k] == events[..k];
    } else {
      SentIsAnnounced(before);
      assert Run(ops).1[..k] == events;
    }
  }

  // ----- an in-order receiver decrypts everything -----

  /** Next usable iteration of each chain the receiver knows, per channel. */
  type Receiver = map<Channel, map<nat, nat>>

  function Known(r: Receiver, ch: Channel): map<nat, nat> { if ch in r then r[ch] else map[] }

  /** Process the SKDM if there is one, then decrypt. */
  function Receive(r: Receiver, env: Envelope): (Receiver, Option<string>) {
    var chains := match env.skdm case Some(k) => Known(r, env.channel)[k.chain := k.iteration]
                                 case None => Known(r, env.channel);
    var (c, i) := (env.under.chain, env.under.iteration);
    if c in chains && chains[c] <= i then (r[env.channel := chains[c := i + 1]], Some(env.plaintext))
    else (r[env.channel := chains], None)
  }

  function ReceiveAll(events: seq<Event>): (Receiver, seq<Option<string>>) {
    if events == [] then (map[], [])
    else
      var (r, got) := ReceiveAll(events[..|events| - 1]);
      match events[|events| - 1]
      case Sent(env) => (var (r', p) := Receive(r, env); (r', got + [p]))
      case _ => (r, got)
  }

  function Plaintexts(events: seq<Event>): seq<Option<string>> {
    if events == [] then []
    else
      var got := Plaintexts(events[..|events| - 1]);
      match events[|events| - 1]
      case Sent(env) => got + [Some(env.plaintext)]
      case _ => got
  }

  /** For every announced channel the receiver is not ahead of the sender on the sender's chain. */
  ghost predicate InStep(s: Sender, r: Receiver) {
    forall ch :: ch in s.sent ==>
      && ch in s.keys
      && s.keys[ch].chain in Known(r, ch)
      && Known(r, ch)[s.keys[ch].chain] <= s.keys[ch].iteration
  }

  /** Whatever fails and whenever the sessions are reset, nothing that is sent is undecryptable. */
  lemma {:induction false} ReceiverDecryptsAll(ops: seq<Op>)
    ensures ReceiveAll(Run(ops).1).1 == Plaintexts(Run(ops).1)
    ensures InStep(Run(ops).0, ReceiveAll(Run(ops).1).0)
  {
    if ops != [] {
      var before := ops[..|ops| - 1];
      ReceiverDecryptsAll(before);
      var (s, events) := Run(before);
      var (s', e) := Step(s, ops[|ops| - 1]);
      assert (events + [e])[..|events|] == events && (events + [e])[|events|] == e;
      StepReceived(s, ops[|ops| - 1], ReceiveAll(events).0);
    }
  }

  lemma StepReceived(s: Sender, op: Op, r: Receiver)
    requires InStep(s, r)
    ensures var (s', e) := Step(s, op);
            match e
            case Sent(env) => Receive(r, env).1 == Some(env.plaintext) && InStep(s', Receive(r, env).0)
            case _ => InStep(s', r)
  {}

  /** Every message encrypted successfully shows up, in order, as its own plaintext. */
  lemma {:induction false} NothingLost(ops: seq<Op>)
    ensures |Run(ops).1| == |ops|
    ensures forall k :: 0 <= k < |ops| && Run(ops).1[k].Sent? ==>
              && ops[k].Encrypt? && ops[k].cipher.Works?
              && Run(ops).1[k].env.channel == ops[k].channel && Run(ops).1[k].env.plaintext == ops[k].plaintext
    ensures forall k :: 0 <= k < |ops| && ops[k].Encrypt? && ops[k].cipher.Works? ==> Run(ops).1[k].Sent?
  {
    if ops != [] {
      NothingLost(ops[..|ops| - 1]);
      SentIsAnnounced(ops[..|ops| - 1]);
    }
  }
}
