/** The bookkeeping fields of CryptoEngine and the tables of LocalStore it writes. The cipher and
    the key generator are parameters that say how each call ends. */
module CryptoEngine {
  import opened Prelude
  import SenderKeys
  import opened PreKeys
  import DeliveryTables

  /** The persistent tables; they outlive an engine. */
  class LocalStore {
    var preKeys: Store
    var preKeyCounter: Option<uint32>
    var sessions: set<string>
    var senderKeys: map<SenderKeys.Channel, SenderKeys.Ratchet>

    constructor ()
      ensures preKeys == map[] && preKeyCounter == None && sessions == {} && senderKeys == map[]
    {
      preKeys, preKeyCounter, sessions, senderKeys := map[], None, {}, map[];
    }

    method DeleteSession(peer: string)
      modifies this`sessions
      ensures sessions == old(sessions) - {peer}
    {
      sessions := sessions - {peer};
    }

    method DeleteAllSessions()
      modifies this`sessions
      ensures sessions == {}
    {
      sessions := {};
    }

    method StorePreKey(id: uint32, key: Key)
      modifies this`preKeys
      ensures preKeys == old(preKeys)[id := key]
    {
      preKeys := preKeys[id := key];
    }

    method RemovePreKey(id: uint32)
      modifies this`preKeys
      ensures preKeys == old(preKeys) - {id}
    {
      preKeys := preKeys - {id};
    }

    method StorePreKeyCounter(counter: uint32)
      modifies this`preKeyCounter
      ensures preKeyCounter == Some(counter)
    {
      preKeyCounter := Some(counter);
    }

    /** A query that throws is swallowed, and answers as a missing counter does. */
    method LoadPreKeyCounter(throws: bool) returns (counter: uint32)
      ensures counter == if throws || preKeyCounter.None? then 1 else preKeyCounter.value
    {
      if !throws && preKeyCounter.Some? {
        return preKeyCounter.value;
      }
      return 1;
    }
  }

  /** What `encrypt` returns: an empty envelope tells the caller not to send. */
  datatype Encrypted = Empty | Group(env: SenderKeys.Envelope) | Direct(recipient: string, plaintext: string)

  predicate IsChannel(recipient: string) { recipient != "" && recipient[0] == '#' }

  // ----- what the calls return, and what a receiver makes of it -----

  /** One call on the group side of an engine: the sender before and after, and what was returned. */
  ghost predicate Returns(s: SenderKeys.Sender, op: SenderKeys.Op, s': SenderKeys.Sender, r: Encrypted) {
    var (after, event) := SenderKeys.Step(s, op);
    s' == after && r == if event.Sent? then Group(event.env) else Empty
  }

  /** Calls one after the other, from a start of the engine on; sender keys may be left from before. */
  ghost predicate Calls(senders: seq<SenderKeys.Sender>, ops: seq<SenderKeys.Op>, results: seq<Encrypted>) {
    && |senders| == |ops| + 1 && |results| == |ops| && senders[0].sent == {}
    && forall k :: 0 <= k < |ops| ==> Returns(senders[k], ops[k], senders[k + 1], results[k])
  }

  /** A receiver that knows nothing at first, fed with the envelopes in the order they were returned. */
  function Received(results: seq<Encrypted>): (SenderKeys.Receiver, seq<Option<string>>) {
    if results == [] then (map[], [])
    else
      var (receiver, texts) := Received(Front(results));
      match Last(results)
      case Group(env) => (var (after, text) := SenderKeys.Receive(receiver, env); (after, texts + [text]))
      case _ => (receiver, texts)
  }

  /** The texts of those calls that work. */
  function WorkingTexts(ops: seq<SenderKeys.Op>): seq<Option<string>> {
    if ops == [] then []
    else
      var op := Last(ops);
      WorkingTexts(Front(ops)) + (if op.Encrypt? && op.cipher.Works? then [Some(op.plaintext)] else [])
  }

  /** Every announced channel has a stored key. */
  ghost predicate Keyed(s: SenderKeys.Sender) { s.sent <= s.keys.Keys }

  lemma CallReceived(s: SenderKeys.Sender, op: SenderKeys.Op, s': SenderKeys.Sender, r: Encrypted,
                     receiver: SenderKeys.Receiver)
    requires Returns(s, op, s', r) && Keyed(s) && SenderKeys.InStep(s, receiver)
    ensures Keyed(s') && (r.Group? <==> op.Encrypt? && op.cipher.Works?)
    ensures r.Group? ==> SenderKeys.Receive(receiver, r.env).1 == Some(op.plaintext)
    ensures SenderKeys.InStep(s', if r.Group? then SenderKeys.Receive(receiver, r.env).0 else receiver)
  {
    SenderKeys.StepReceived(s, op, receiver);
  }

  /** Whatever calls are made and however they end, a receiver fed in order with the envelopes that were
      returned decrypts every one, and gets exactly the texts of the calls that worked. */
  lemma {:induction false} ReturnedDecrypts(senders: seq<SenderKeys.Sender>, ops: seq<SenderKeys.Op>,
                                            results: seq<Encrypted>)
    requires Calls(senders, ops, results)
    ensures Received(results).1 == WorkingTexts(ops)
    ensures Keyed(Last(senders)) && SenderKeys.InStep(Last(senders), Received(results).0)
  {
    if ops != [] {
      var n := |ops| - 1;
      ReturnedDecrypts(Front(senders), Front(ops), Front(results));
      assert Returns(senders[n], ops[n], senders[n + 1], results[n]);
      CallReceived(senders[n], ops[n], senders[n + 1], results[n], Received(Front(results)).0);
    }
  }

  /** The failing write is one of the loop's, and the loop comes to it. */
  predicate ThrowsInLoop(rounds: seq<Round>, throwsAt: Option<nat>) {
    throwsAt.Some? && throwsAt.value < |rounds| && rounds[throwsAt.value].Pair? && rounds[throwsAt.value].stored
  }

  class Engine {
    const store: LocalStore
    var sentSkdmChannels: set<SenderKeys.Channel>
    var pendingPlaintexts: map<string, string>
    var nextOpkId: uint32

    ghost function Groups(): SenderKeys.Sender
      reads this, store
    {
      SenderKeys.Sender(sentSkdmChannels, store.senderKeys)
    }

    /** A start: sessions, sender keys and counter are those stored, and nothing is announced any more,
        as after a reset of the group sessions. */
    constructor (store: LocalStore, readThrows: bool)
      ensures this.store == store && pendingPlaintexts == map[]
      ensures nextOpkId == if readThrows then 1 else LoadCounter(store.preKeyCounter)
      ensures sentSkdmChannels == {}
      ensures forall sent ::
                Groups() == SenderKeys.Step(SenderKeys.Sender(sent, store.senderKeys), SenderKeys.ResetGroups).0
    {
      this.store := store;
      sentSkdmChannels, pendingPlaintexts := {}, map[];
      nextOpkId := 1;
      new;
      nextOpkId := store.LoadPreKeyCounter(readThrows);
      if nextOpkId == 0 {
        nextOpkId := 1;
      }
    }

    /** The loop stores each private half as it goes; the counter is stored after the loop. The write at
        position `throwsAt` throws, the counter's being the last; then there is no upload. */
    method PrepareKeyUpload(rounds: seq<Round>, throwsAt: Option<nat>) returns (upload: Option<seq<Opk>>)
      modifies this`nextOpkId, store`preKeys, store`preKeyCounter
      ensures ThrowsInLoop(rounds, throwsAt) ==>
                && upload == None && nextOpkId == old(nextOpkId) && store.preKeyCounter == old(store.preKeyCounter)
                && store.preKeys == Written(old(store.preKeys), old(nextOpkId), rounds[..throwsAt.value])
      ensures !ThrowsInLoop(rounds, throwsAt) ==>
                && nextOpkId == IdAt(old(nextOpkId), |rounds|)
                && store.preKeys == Written(old(store.preKeys), old(nextOpkId), rounds)
                && if throwsAt == Some(|rounds|) then upload == None && store.preKeyCounter == old(store.preKeyCounter)
                   else upload == Some(Issued(old(nextOpkId), rounds)) && store.preKeyCounter == Some(nextOpkId)
    {
      var opks: seq<Opk> := [];
      for i := 0 to |rounds|
        invariant opks == Issued(nextOpkId, rounds[..i])
        invariant store.preKeys == Written(old(store.preKeys), nextOpkId, rounds[..i])
        invariant nextOpkId == old(nextOpkId) && store.preKeyCounter == old(store.preKeyCounter)
        invariant ThrowsInLoop(rounds, throwsAt) ==> i <= throwsAt.value
      {
        assert rounds[..i + 1][..i] == rounds[..i];
        var id: uint32 := (nextOpkId + i) % TWO32;
        if rounds[i].Pair? {
          opks := opks + [Opk(id, rounds[i].key, rounds[i].stored)];
          if rounds[i].stored {
            if throwsAt == Some(i) {
              return None;
            }
            store.StorePreKey(id, rounds[i].key);
          }
        }
      }
      assert rounds[..|rounds|] == rounds;
      nextOpkId := (nextOpkId + |rounds|) % TWO32;
      if throwsAt == Some(|rounds|) {
        return None;
      }
      store.StorePreKeyCounter(nextOpkId);
      upload := Some(opks);
    }

    method ResetGroupSessions()
      modifies this`sentSkdmChannels
      ensures sentSkdmChannels == {} && Returns(old(Groups()), SenderKeys.ResetGroups, Groups(), Empty)
    {
      sentSkdmChannels := {};
    }

    method ResetDmSession(peer: string)
      modifies store`sessions, this`pendingPlaintexts
      ensures store.sessions == if peer == "" then old(store.sessions) else old(store.sessions) - {peer}
      ensures pendingPlaintexts == if peer == "" then old(pendingPlaintexts) else old(pendingPlaintexts) - {peer}
    {
      if peer == "" {
        return;
      }
      store.DeleteSession(peer);
      pendingPlaintexts := pendingPlaintexts - {peer};
    }

    method ResetAllDmSessions()
      modifies store`sessions, this`pendingPlaintexts
      ensures store.sessions == {} && pendingPlaintexts == map[]
    {
      store.DeleteAllSessions();
      pendingPlaintexts := map[];
    }

    method EncryptGroup(ch: SenderKeys.Channel, plaintext: string, cipher: SenderKeys.Cipher) returns (r: Encrypted)
      modifies this`sentSkdmChannels, store`senderKeys
      ensures Returns(old(Groups()), SenderKeys.Op.Encrypt(ch, plaintext, cipher), Groups(), r)
      ensures r == Empty ||
              (r.Group? && r.env.channel == ch && r.env.plaintext == plaintext &&
               (r.env.skdm.Some? <==> ch !in old(sentSkdmChannels)) &&
               (r.env.skdm.Some? ==> r.env.skdm.value == r.env.under))
      ensures sentSkdmChannels - {ch} == old(sentSkdmChannels) - {ch} && (ch in sentSkdmChannels <==> r.Group?)
      ensures store.senderKeys - {ch} == old(store.senderKeys) - {ch}
      ensures r.Group? ==>
                ch in store.senderKeys &&
                store.senderKeys[ch] == SenderKeys.Ratchet(r.env.under.chain, r.env.under.iteration + 1)
    {
      var needSkdm := ch !in sentSkdmChannels;
      match cipher
      case Throws(left) =>
        store.senderKeys := SenderKeys.Leave(store.senderKeys, ch, left);
        if !needSkdm {
          sentSkdmChannels := sentSkdmChannels - {ch};
        }
        r := Empty;
      case Works(created) =>
        if needSkdm {
          r := Group(SenderKeys.Envelope(ch, created, plaintext, Some(created)));
          store.senderKeys := store.senderKeys[ch := SenderKeys.Advance(created)];
          sentSkdmChannels := sentSkdmChannels + {ch};
        } else if ch in store.senderKeys {
          r := Group(SenderKeys.Envelope(ch, store.senderKeys[ch], plaintext, None));
          store.senderKeys := store.senderKeys[ch := SenderKeys.Advance(store.senderKeys[ch])];
        } else {
          sentSkdmChannels := sentSkdmChannels - {ch};
          r := Empty;
        }
    }

    /** A key bundle is requested exactly for a user without a session, and then nothing is sent. */
    method EncryptDirect(u: string, plaintext: string, cipher: DeliveryTables.CipherResult)
      returns (r: Encrypted, keyRequested: bool)
      modifies store`sessions, this`pendingPlaintexts
      ensures keyRequested <==> u !in old(store.sessions)
      ensures r == if u in old(store.sessions) && cipher.Encrypted? then Direct(u, plaintext) else Empty
      ensures store.sessions == if u != "" && cipher.CipherBroke? then old(store.sessions) - {u}
                                else old(store.sessions)
      ensures r == if DeliveryTables.EncryptDm(u in old(store.sessions), cipher).0 then Direct(u, plaintext) else Empty
      ensures u != "" ==> (u in store.sessions <==> DeliveryTables.EncryptDm(u in old(store.sessions), cipher).1)
      ensures pendingPlaintexts - {u} == old(pendingPlaintexts) - {u}
      ensures keyRequested ==> pendingPlaintexts == old(pendingPlaintexts)[u := plaintext]
    {
      r, keyRequested := Empty, false;
      if u !in store.sessions {
        pendingPlaintexts := pendingPlaintexts[u := plaintext];
        return Empty, true;
      }
      match cipher
      case CipherUnavailable =>
      case CipherBroke => ResetDmSession(u);
      case Encrypted => r := Direct(u, plaintext);
    }

    method Encrypt(recipient: string, plaintext: string, group: SenderKeys.Cipher, direct: DeliveryTables.CipherResult)
      returns (r: Encrypted, keyRequested: bool)
      modifies this`sentSkdmChannels, store`senderKeys, store`sessions, this`pendingPlaintexts
      ensures IsChannel(recipient) ==>
                && !keyRequested && store.sessions == old(store.sessions) && pendingPlaintexts == old(pendingPlaintexts)
                && Returns(old(Groups()), SenderKeys.Op.Encrypt(recipient, plaintext, group), Groups(), r)
                && (r == Empty || (r.Group? && r.env.channel == recipient && r.env.plaintext == plaintext &&
                                   (r.env.skdm.Some? <==> recipient !in old(sentSkdmChannels))))
      ensures !IsChannel(recipient) ==>
                && Groups() == old(Groups()) && !r.Group?
                && (keyRequested <==> recipient !in old(store.sessions))
                && r == if DeliveryTables.EncryptDm(recipient in old(store.sessions), direct).0
                        then Direct(recipient, plaintext) else Empty
    {
      if IsChannel(recipient) {
        r := EncryptGroup(recipient, plaintext, group);
        keyRequested := false;
      } else {
        r, keyRequested := EncryptDirect(recipient, plaintext, direct);
      }
    }
  }
}
