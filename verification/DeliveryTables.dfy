/** The tables a MessageHandler shares between threads: one function per critical section,
    the class whose methods run those sections, and the loop that flushes a queue. */
module DeliveryTables {
  import opened Prelude

  type User = string

  datatype PendingSend = PendingSend(plaintext: string, messageId: string)

  datatype Envelope = Envelope(kind: nat, payload: string)

  /** What an entry waits for: a first session, or the repair of a broken one. */
  datatype Kind = Dm | Repair

  /** Everything guarded by `pending_sends_mu_`. */
  datatype Tables = Tables(sends: map<User, seq<PendingSend>>, repairs: set<User>) {

    predicate Present(kind: Kind, u: User) {
      match kind
      case Dm => u in sends
      case Repair => u in repairs
    }

    function Queue(u: User): seq<PendingSend> {
      if u in sends then sends[u] else []
    }

    /** Queue a plaintext; the flag tells whether that opened the entry. */
    function QueueSend(u: User, m: PendingSend): (Tables, bool) {
      (this.(sends := sends[u := Queue(u) + [m]]), u !in sends)
    }

    /** Ask for a fresh bundle; the flag tells whether a repair entry was added. */
    function AddRepair(u: User): (Tables, bool) {
      if u in sends || u in repairs then (this, false) else (this.(repairs := repairs + {u}), true)
    }

    /** Drop both entries of a user, as a key bundle and an identity reset do. */
    function Forget(u: User): Tables {
      Tables(sends - {u}, repairs - {u})
    }

    /** Whom a "user not found" error is about: the user it names, else the only one waiting. */
    ghost predicate Blames(named: User, blamed: User) {
      if named != "" then blamed == named
      else if |sends| == 1 then sends.Keys == {blamed}
      else blamed == ""
    }

    function NotFound(blamed: User): Tables {
      if blamed == "" then this else this.(sends := sends - {blamed})
    }

    /** Whom a resend asks for: everyone with something queued, and every repair. */
    ghost predicate Targets(todo: seq<User>) {
      forall u :: u in todo <==> (u in sends && sends[u] != []) || u in repairs
    }

    /** The closing section of a timeout watcher. */
    function Expire(kind: Kind, u: User): Tables {
      match kind
      case Dm => this.(sends := sends - {u})
      case Repair => this.(repairs := repairs - {u})
    }
  }

  const NoEntries := Tables(map[], {})

  /** `pending_authenticated_` after a push, and a swap: what is taken and what is left. */
  function Pushed<T>(queue: seq<T>, x: T): seq<T> { queue + [x] }

  function Swapped<T>(queue: seq<T>): (seq<T>, seq<T>) { (queue, []) }

  /** Result of one `session_cipher_encrypt` attempt when a session exists. */
  datatype CipherResult = Encrypted | CipherUnavailable | CipherBroke

  /** The session gate of `CryptoEngine::encrypt` for a direct message: (sent, session afterwards). */
  function EncryptDm(hasSession: bool, r: CipherResult): (bool, bool) {
    if !hasSession then (false, false)
    else match r
      case Encrypted => (true, true)
      case CipherUnavailable => (false, true)
      case CipherBroke => (false, false)
  }

  /** What a flush hands to the transport, given the cipher's answer at each position. */
  function Delivered(queued: seq<PendingSend>, cipher: seq<CipherResult>, hasSession: bool): seq<PendingSend>
    requires |cipher| >= |queued|
  {
    if queued == [] then []
    else
      var (sent, session) := EncryptDm(hasSession, cipher[0]);
      (if sent then [queued[0]] else []) + Delivered(queued[1..], cipher[1..], session)
  }

  function SessionAfter(n: nat, cipher: seq<CipherResult>, hasSession: bool): bool
    requires |cipher| >= n
  {
    if n == 0 then hasSession else SessionAfter(n - 1, cipher[1..], EncryptDm(hasSession, cipher[0]).1)
  }

  lemma {:induction false} DeliveredInOrder(queued: seq<PendingSend>, cipher: seq<CipherResult>, hasSession: bool)
    requires |cipher| >= |queued|
    ensures Subsequence(Delivered(queued, cipher, hasSession), queued)
  {
    if queued != [] {
      var (sent, session) := EncryptDm(hasSession, cipher[0]);
      var rest := Delivered(queued[1..], cipher[1..], session);
      DeliveredInOrder(queued[1..], cipher[1..], session);
      if sent {
        assert ([queued[0]] + rest)[1..] == rest;
      } else {
        assert Delivered(queued, cipher, hasSession) == rest;
      }
    }
  }

  /** A whole batch gets out exactly when a session exists and the cipher never refuses. */
  lemma {:induction false} DeliversAllIffNeverRefused(queued: seq<PendingSend>, cipher: seq<CipherResult>,
                                                      hasSession: bool)
    requires |cipher| >= |queued|
    ensures |Delivered(queued, cipher, hasSession)| <= |queued|
    ensures |Delivered(queued, cipher, hasSession)| == |queued| <==>
            (hasSession || queued == []) && forall k :: 0 <= k < |queued| ==> cipher[k] == Encrypted
    ensures |Delivered(queued, cipher, hasSession)| == |queued| ==> Delivered(queued, cipher, hasSession) == queued
  {
    if queued != [] {
      var (sent, session) := EncryptDm(hasSession, cipher[0]);
      DeliversAllIffNeverRefused(queued[1..], cipher[1..], session);
      assert forall k :: 1 <= k < |queued| ==> cipher[k] == cipher[1..][k - 1];
      if sent {
        assert (forall k :: 0 <= k < |queued| ==> cipher[k] == Encrypted) <==>
               (forall k :: 0 <= k < |queued[1..]| ==> cipher[1..][k] == Encrypted);
      }
    }
  }

  lemma {:induction false} NothingWithoutSession(queued: seq<PendingSend>, cipher: seq<CipherResult>)
    requires |cipher| >= |queued|
    ensures Delivered(queued, cipher, false) == []
  {
    if queued != [] {
      NothingWithoutSession(queued[1..], cipher[1..]);
    }
  }

  /** A broken cipher drops the session, so nothing behind that message is sent any more. */
  lemma {:induction false} NothingAfterBreak(queued: seq<PendingSend>, cipher: seq<CipherResult>, hasSession: bool,
                                             k: nat)
    requires |cipher| >= |queued| && k < |queued| && cipher[k] == CipherBroke
    ensures Delivered(queued, cipher, hasSession) == Delivered(queued[..k], cipher, hasSession)
  {
    var (sent, session) := EncryptDm(hasSession, cipher[0]);
    if k == 0 {
      NothingWithoutSession(queued[1..], cipher[1..]);
    } else {
      NothingAfterBreak(queued[1..], cipher[1..], session, k - 1);
      assert queued[1..][..k - 1] == queued[..k][1..];
    }
  }

  /** Only the answers at the positions of the batch matter. */
  lemma {:induction false} DeliveredReads(queued: seq<PendingSend>, a: seq<CipherResult>, b: seq<CipherResult>,
                                          hasSession: bool)
    requires |queued| <= |a| && |queued| <= |b| && a[..|queued|] == b[..|queued|]
    ensures Delivered(queued, a, hasSession) == Delivered(queued, b, hasSession)
    ensures SessionAfter(|queued|, a, hasSession) == SessionAfter(|queued|, b, hasSession)
    decreases |queued|
  {
    if queued != [] {
      assert a[0] == a[..|queued|][0] == b[0];
      assert a[1..][..|queued| - 1] == a[..|queued|][1..] && b[1..][..|queued| - 1] == b[..|queued|][1..];
      DeliveredReads(queued[1..], a[1..], b[1..], EncryptDm(hasSession, a[0]).1);
    }
  }

  /** What one more message adds to a flush. */
  lemma {:induction false} DeliveredSnoc(queued: seq<PendingSend>, cipher: seq<CipherResult>, hasSession: bool, n: nat)
    requires |cipher| >= |queued| && n < |queued|
    ensures var (sent, session) := EncryptDm(SessionAfter(n, cipher, hasSession), cipher[n]);
            && SessionAfter(n + 1, cipher, hasSession) == session
            && Delivered(queued[..n + 1], cipher, hasSession) ==
               Delivered(queued[..n], cipher, hasSession) + if sent then [queued[n]] else []
  {
    var (first, session) := EncryptDm(hasSession, cipher[0]);
    if n == 0 {
      assert queued[..1][1..] == [] && queued[..0] == [];
    } else {
      DeliveredSnoc(queued[1..], cipher[1..], session, n - 1);
      assert queued[..n + 1][1..] == queued[1..][..n] && queued[..n][1..] == queued[1..][..n - 1];
    }
  }

  /** The session survives a batch exactly if it was there and the cipher never breaks. */
  lemma {:induction false} SessionAfterIff(n: nat, cipher: seq<CipherResult>, hasSession: bool)
    requires |cipher| >= n
    ensures SessionAfter(n, cipher, hasSession) <==> hasSession && forall k :: 0 <= k < n ==> cipher[k] != CipherBroke
  {
    if n > 0 {
      SessionAfterIff(n - 1, cipher[1..], EncryptDm(hasSession, cipher[0]).1);
      assert forall k :: 1 <= k < n ==> cipher[k] == cipher[1..][k - 1];
      assert (forall k :: 0 <= k < n ==> cipher[k] != CipherBroke) <==>
             cipher[0] != CipherBroke && forall k :: 0 <= k < n - 1 ==> cipher[1..][k] != CipherBroke;
    }
  }

  /** Of the first messages of a batch, those that are encrypted before the cipher breaks. */
  function EncryptedBeforeBreak(queued: seq<PendingSend>, cipher: seq<CipherResult>, n: nat): seq<PendingSend>
    requires n <= |queued| <= |cipher|
  {
    if n == 0 then []
    else
      EncryptedBeforeBreak(queued, cipher, n - 1) +
      (if cipher[n - 1] == Encrypted && CipherBroke !in cipher[..n - 1] then [queued[n - 1]] else [])
  }

  lemma {:induction false} DeliveredUpTo(queued: seq<PendingSend>, cipher: seq<CipherResult>, hasSession: bool, n: nat)
    requires n <= |queued| <= |cipher|
    ensures Delivered(queued[..n], cipher, hasSession) ==
            if hasSession then EncryptedBeforeBreak(queued, cipher, n) else []
  {
    if n == 0 {
      assert queued[..0] == [];
    } else {
      DeliveredUpTo(queued, cipher, hasSession, n - 1);
      DeliveredSnoc(queued, cipher, hasSession, n - 1);
      SessionAfterIff(n - 1, cipher, hasSession);
    }
  }

  /** A flush delivers exactly the messages that are encrypted while there is a session: each one whose
      answer is a ciphertext, unless there was no session or an earlier answer broke it. */
  lemma DeliveredExactly(queued: seq<PendingSend>, cipher: seq<CipherResult>, hasSession: bool)
    requires |cipher| >= |queued|
    ensures Delivered(queued, cipher, hasSession) ==
            if hasSession then EncryptedBeforeBreak(queued, cipher, |queued|) else []
  {
    DeliveredUpTo(queued, cipher, hasSession, |queued|);
    assert queued[..|queued|] == queued;
  }

  ghost predicate NoneTwice(users: seq<User>) {
    forall i, j :: 0 <= i < j < |users| ==> users[i] != users[j]
  }

  /** The handler's shared fields. Every method is the code between one lock and its release. */
  class MessageHandler {
    var pendingSends: map<User, seq<PendingSend>>
    var pendingRepairs: set<User>
    var pendingAuthenticated: seq<Envelope>
    var sessions: set<User>

    /** Sessions are stored and may be there from an earlier start. */
    constructor (sessions: set<User>)
      ensures Entries() == NoEntries && pendingAuthenticated == [] && this.sessions == sessions
    {
      pendingSends, pendingRepairs, pendingAuthenticated := map[], {}, [];
      this.sessions := sessions;
    }

    ghost function Entries(): Tables reads this {
      Tables(pendingSends, pendingRepairs)
    }

    method QueuePlaintext(u: User, plaintext: string, messageId: string) returns (firstRequest: bool)
      modifies this`pendingSends
      ensures firstRequest <==> u !in old(pendingSends)
      ensures pendingSends - {u} == old(pendingSends) - {u} && u in pendingSends
      ensures var waiting := if firstRequest then [] else old(pendingSends)[u];
              pendingSends[u] == waiting + [PendingSend(plaintext, messageId)]
      ensures (Entries(), firstRequest) == old(Entries()).QueueSend(u, PendingSend(plaintext, messageId))
    {
      firstRequest := u !in pendingSends;
      if firstRequest {
        pendingSends := pendingSends[u := []];
      }
      pendingSends := pendingSends[u := pendingSends[u] + [PendingSend(plaintext, messageId)]];
      assert pendingSends == old(Entries()).QueueSend(u, PendingSend(plaintext, messageId)).0.sends;
    }

    method InsertRepair(u: User) returns (shouldRequest: bool)
      modifies this`pendingRepairs
      ensures shouldRequest <==> u !in old(pendingSends) && u !in old(pendingRepairs)
      ensures pendingRepairs == if shouldRequest then old(pendingRepairs) + {u} else old(pendingRepairs)
      ensures (Entries(), shouldRequest) == old(Entries()).AddRepair(u)
    {
      shouldRequest := false;
      if u !in pendingSends && u !in pendingRepairs {
        pendingRepairs := pendingRepairs + {u};
        shouldRequest := true;
      }
    }

    /** Handing over the queue and dropping both entries is one section. */
    method TakeForBundle(u: User) returns (queued: Option<seq<PendingSend>>)
      modifies this`pendingSends, this`pendingRepairs
      ensures pendingSends == old(pendingSends) - {u} && pendingRepairs == old(pendingRepairs) - {u}
      ensures Entries() == old(Entries()).Forget(u)
      ensures queued == if u in old(pendingSends) then Some(old(pendingSends)[u]) else None
    {
      pendingRepairs := pendingRepairs - {u};
      if u !in pendingSends {
        assert pendingSends - {u} == pendingSends;
        return None;
      }
      queued := Some(pendingSends[u]);
      pendingSends := pendingSends - {u};
    }

    method ForgetUser(u: User)
      modifies this`pendingSends, this`pendingRepairs
      ensures pendingSends == old(pendingSends) - {u} && pendingRepairs == old(pendingRepairs) - {u}
      ensures Entries() == old(Entries()).Forget(u)
    {
      pendingSends := pendingSends - {u};
      pendingRepairs := pendingRepairs - {u};
    }

    method DropNotFound(named: User) returns (recipient: User)
      modifies this`pendingSends
      ensures named != "" ==> recipient == named
      ensures named == "" && recipient != "" ==> old(pendingSends).Keys == {recipient}
      ensures named == "" && recipient == "" ==> forall u :: u != "" ==> old(pendingSends).Keys != {u}
      ensures pendingSends == if recipient == "" then old(pendingSends) else old(pendingSends) - {recipient}
      ensures old(Entries()).Blames(named, recipient)
      ensures Entries() == old(Entries()).NotFound(recipient)
    {
      recipient := named;
      if recipient == "" && |pendingSends| == 1 {
        var u :| u in pendingSends;
        recipient := u;
        SingletonKeys(pendingSends, u);
      }
      if recipient != "" {
        pendingSends := pendingSends - {recipient};
      }
    }

    method ExpireSend(u: User) returns (dropped: nat)
      modifies this`pendingSends
      ensures Entries() == old(Entries()).Expire(Dm, u)
      ensures pendingSends == old(pendingSends) - {u}
      ensures dropped == if u in old(pendingSends) then |old(pendingSends)[u]| else 0
    {
      if u !in pendingSends {
        assert pendingSends - {u} == pendingSends;
        return 0;
      }
      dropped := |pendingSends[u]|;
      pendingSends := pendingSends - {u};
    }

    /** `resend_pending_key_requests`: first everyone with something queued, then every repair. */
    method RequestTargets() returns (dmTargets: seq<User>, repairTargets: seq<User>)
      ensures forall u :: u in dmTargets <==> u in pendingSends && pendingSends[u] != []
      ensures forall u :: u in repairTargets <==> u in pendingRepairs
      ensures NoneTwice(dmTargets) && NoneTwice(repairTargets)
      ensures Entries().Targets(dmTargets + repairTargets)
    {
      dmTargets := [];
      var left := pendingSends.Keys;
      while left != {}
        invariant left <= pendingSends.Keys
        invariant forall u :: u in dmTargets <==> u in pendingSends && u !in left && pendingSends[u] != []
        invariant NoneTwice(dmTargets)
        decreases left
      {
        var u :| u in left;
        left := left - {u};
        if pendingSends[u] != [] {
          dmTargets := dmTargets + [u];
        }
      }
      repairTargets := [];
      left := pendingRepairs;
      while left != {}
        invariant left <= pendingRepairs
        invariant forall u :: u in repairTargets <==> u in pendingRepairs && u !in left
        invariant NoneTwice(repairTargets)
        decreases left
      {
        var u :| u in left;
        left := left - {u};
        repairTargets := repairTargets + [u];
      }
    }

    /** The loop of `handle_key_bundle` over the queue it moved out. */
    method FlushQueue(u: User, queued: seq<PendingSend>, cipher: seq<CipherResult>)
      returns (delivered: seq<PendingSend>, sent: nat, failed: nat)
      requires u != "" && |cipher| >= |queued|
      modifies this`sessions
      ensures delivered == Delivered(queued, cipher, u in old(sessions))
      ensures Subsequence(delivered, queued)
      ensures sent == |delivered| && sent + failed == |queued|
      ensures sessions == if SessionAfter(|queued|, cipher, u in old(sessions)) then old(sessions)
                          else old(sessions) - {u}
    {
      delivered, sent, failed := [], 0, 0;
      ghost var had := u in sessions;
      for i := 0 to |queued|
        invariant delivered == Delivered(queued[..i], cipher, had)
        invariant u in sessions <==> SessionAfter(i, cipher, had)
        invariant sent == |delivered| && sent + failed == i
        invariant sessions == if u in sessions then old(sessions) else old(sessions) - {u}
      {
        DeliveredSnoc(queued, cipher, had, i);
        var (ok, session) := EncryptDm(u in sessions, cipher[i]);
        if ok {
          delivered := delivered + [queued[i]];
          sent := sent + 1;
        } else {
          failed := failed + 1;
        }
        if !session {
          sessions := sessions - {u};
        }
      }
      assert queued[..|queued|] == queued;
      DeliveredInOrder(queued, cipher, had);
    }

    /** `on_transport_disconnected` without auto-reconnect: both locks are taken, pending first. */
    method ClearOnDisconnect()
      modifies this`pendingSends, this`pendingRepairs, this`pendingAuthenticated
      ensures pendingSends == map[] && pendingRepairs == {} && pendingAuthenticated == []
      ensures Entries() == NoEntries && pendingAuthenticated == Swapped(old(pendingAuthenticated)).1
    {
      pendingSends, pendingRepairs := map[], {};
      pendingAuthenticated := [];
    }

    method PushOutbound(env: Envelope)
      modifies this`pendingAuthenticated
      ensures pendingAuthenticated == old(pendingAuthenticated) + [env]
      ensures pendingAuthenticated == Pushed(old(pendingAuthenticated), env)
    {
      pendingAuthenticated := pendingAuthenticated + [env];
    }

    method SwapOutbound() returns (queued: seq<Envelope>)
      modifies this`pendingAuthenticated
      ensures queued == old(pendingAuthenticated) && pendingAuthenticated == []
      ensures (queued, pendingAuthenticated) == Swapped(old(pendingAuthenticated))
    {
      queued, pendingAuthenticated := pendingAuthenticated, [];
    }
  }

  lemma SingletonKeys(m: map<User, seq<PendingSend>>, u: User)
    requires |m| == 1 && u in m
    ensures m.Keys == {u}
  {
    assert |m.Keys - {u}| == 0;
  }
}
