/** Presence and voice status, replicated into every channel's user list. */
module Presence {
  datatype Status = Offline | Online | Away | Dnd

  datatype Voice = Off | Muted | Talking

  datatype Role = Regular | Voiced | Admin

  datatype Entry = Entry(userId: string, role: Role, presence: Status, voice: Voice)

  type UserList = map<string, Entry>

  datatype View = View(online: map<string, Status>, voice: map<string, Voice>, lists: map<string, UserList>)

  const Empty := View(map[], map[], map[])

  // ----- the operations -----

  function SyncedStatus(users: UserList, id: string, status: Status): UserList {
    if id in users then users[id := users[id].(presence := status)] else users
  }

  function SetPresence(v: View, id: string, status: Status): View {
    View(v.online[id := status], v.voice, map c | c in v.lists :: SyncedStatus(v.lists[c], id, status))
  }

  function SyncedVoice(users: UserList, id: string, voice: Voice): UserList {
    if id in users then users[id := users[id].(voice := voice)] else users
  }

  function SetVoice(v: View, id: string, voice: Voice): View {
    View(v.online, v.voice[id := voice], map c | c in v.lists :: SyncedVoice(v.lists[c], id, voice))
  }

  /** An entry brought in line with what is known of its user. */
  function Synced(v: View, e: Entry): Entry {
    Entry(e.userId, e.role,
          if e.userId in v.online then v.online[e.userId] else e.presence,
          if e.userId in v.voice then v.voice[e.userId] else e.voice)
  }

  function Listed(v: View, users: seq<Entry>): UserList {
    if users == [] then map[]
    else
      var e := users[|users| - 1];
      Listed(v, users[..|users| - 1])[e.userId := Synced(v, e)]
  }

  function WithList(v: View, c: string, users: UserList): View { View(v.online, v.voice, v.lists[c := users]) }

  function SetChannelUsers(v: View, c: string, users: seq<Entry>): View { WithList(v, c, Listed(v, users)) }

  function ListOf(v: View, c: string): UserList { if c in v.lists then v.lists[c] else map[] }

  function AddUser(v: View, c: string, e: Entry): View { WithList(v, c, ListOf(v, c)[e.userId := Synced(v, e)]) }

  function RemoveUser(v: View, c: string, id: string): View {
    if c in v.lists then WithList(v, c, v.lists[c] - {id}) else v
  }

  function SetRole(v: View, c: string, id: string, role: Role): View {
    if c in v.lists && id in v.lists[c] then WithList(v, c, v.lists[c][id := v.lists[c][id].(role := role)]) else v
  }

  function DirectList(v: View, local: string, peer: string): UserList {
    var mine: UserList := if local != "" then map[local := Synced(v, Entry(local, Regular, Online, Off))] else map[];
    if peer != "" && peer != local then mine[peer := Synced(v, Entry(peer, Regular, Offline, Off))] else mine
  }

  function SetDirectUsers(v: View, c: string, local: string, peer: string): View {
    WithList(v, c, DirectList(v, local, peer))
  }

  function OnlineList(v: View): UserList {
    map id | id in v.online && v.online[id] != Offline :: Entry(id, Regular, v.online[id], Off)
  }

  function EnsureFromOnline(v: View, c: string): View { if c in v.lists then v else WithList(v, c, OnlineList(v)) }

  datatype Op =
    | Presence(id: string, status: Status)
    | VoiceStatus(id: string, voice: Voice)
    | ChannelUsers(channel: string, users: seq<Entry>)
    | Add(channel: string, e: Entry)
    | Remove(channel: string, id: string)
    | ChangeRole(channel: string, id: string, role: Role)
    | DirectUsers(channel: string, local: string, peer: string)
    | Ensure(channel: string)

  function Apply(v: View, op: Op): View {
    match op
    case Presence(id, status) => SetPresence(v, id, status)
    case VoiceStatus(id, voice) => SetVoice(v, id, voice)
    case ChannelUsers(c, users) => SetChannelUsers(v, c, users)
    case Add(c, e) => AddUser(v, c, e)
    case Remove(c, id) => RemoveUser(v, c, id)
    case ChangeRole(c, id, role) => SetRole(v, c, id, role)
    case DirectUsers(c, local, peer) => SetDirectUsers(v, c, local, peer)
    case Ensure(c) => EnsureFromOnline(v, c)
  }

  function Run(ops: seq<Op>): View {
    if ops == [] then Empty else Apply(Run(ops[..|ops| - 1]), ops[|ops| - 1])
  }

  // ----- agreement -----

  ghost predicate StatusRight(v: View, id: string, e: Entry) {
    e.userId == id && (id in v.online ==> e.presence == v.online[id])
  }

  ghost predicate VoiceRight(v: View, id: string, e: Entry) { id in v.voice ==> e.voice == v.voice[id] }

  ghost predicate ListAgrees(v: View, users: UserList) { forall id :: id in users ==> StatusRight(v, id, users[id]) }

  ghost predicate ListVoiceAgrees(v: View, users: UserList) {
    forall id :: id in users ==> VoiceRight(v, id, users[id])
  }

  ghost predicate StatusAgrees(v: View) { forall c :: c in v.lists ==> ListAgrees(v, v.lists[c]) }

  ghost predicate VoiceAgrees(v: View) { forall c :: c in v.lists ==> ListVoiceAgrees(v, v.lists[c]) }

  lemma {:induction false} ListedAgrees(v: View, users: seq<Entry>)
    ensures ListAgrees(v, Listed(v, users)) && ListVoiceAgrees(v, Listed(v, users))
  {
    if users != [] {
      ListedAgrees(v, users[..|users| - 1]);
    }
  }

  /** A set list holds exactly the users given, each as last given, role kept and status current. */
  lemma {:induction false} ListedExactly(v: View, users: seq<Entry>, k: nat)
    requires k < |users| && forall j :: k < j < |users| ==> users[j].userId != users[k].userId
    ensures forall id :: id in Listed(v, users) <==> exists j :: 0 <= j < |users| && users[j].userId == id
    ensures Listed(v, users)[users[k].userId] == Synced(v, users[k])
  {
    var (init, last) := (users[..|users| - 1], users[|users| - 1]);
    ListedKeys(v, users);
    if k < |users| - 1 {
      ListedExactly(v, init, k);
    }
  }

  lemma {:induction false} ListedKeys(v: View, users: seq<Entry>)
    ensures forall id :: id in Listed(v, users) <==> exists j :: 0 <= j < |users| && users[j].userId == id
  {
    if users != [] {
      var (init, last) := (users[..|users| - 1], users[|users| - 1]);
      ListedKeys(v, init);
      forall id ensures id in Listed(v, users) <==> exists j :: 0 <= j < |users| && users[j].userId == id {
        if j :| 0 <= j < |users| && users[j].userId == id {
          assert j < |init| ==> init[j].userId == id;
        }
      }
    }
  }

  /** Every operation keeps every list in line with the known statuses. */
  lemma StepAgrees(v: View, op: Op)
    requires StatusAgrees(v)
    ensures StatusAgrees(Apply(v, op))
  {
    var after := Apply(v, op);
    forall c | c in after.lists ensures ListAgrees(after, after.lists[c]) {
      assert c in v.lists ==> ListAgrees(v, v.lists[c]);
      if op.ChannelUsers? {
        ListedAgrees(v, op.users);
      }
    }
  }

  /** An ensured list starts with every voice badge off. */
  ghost predicate Harmless(v: View, op: Op) {
    op.Ensure? && op.channel !in v.lists ==>
      forall id :: id in v.online && v.online[id] != Offline && id in v.voice ==> v.voice[id] == Off
  }

  /** The voice badges stay right if and only if the operation does not create a list from the online
      users while one of them has a voice status other than off. */
  lemma StepVoiceAgrees(v: View, op: Op)
    requires VoiceAgrees(v)
    ensures VoiceAgrees(Apply(v, op)) <==> Harmless(v, op)
  {
    var after := Apply(v, op);
    if Harmless(v, op) {
      forall c | c in after.lists ensures ListVoiceAgrees(after, after.lists[c]) {
        assert c in v.lists ==> ListVoiceAgrees(v, v.lists[c]);
        if op.ChannelUsers? {
          ListedAgrees(v, op.users);
        }
      }
    } else {
      var id :| id in v.online && v.online[id] != Offline && id in v.voice && v.voice[id] != Off;
      assert after.lists[op.channel] == OnlineList(v);
      assert !VoiceRight(after, id, after.lists[op.channel][id]);
    }
  }

  /** After every run, each list entry of a user with a known status carries that status. */
  lemma {:induction false} PresenceReplicated(ops: seq<Op>)
    ensures StatusAgrees(Run(ops))
  {
    if ops != [] {
      PresenceReplicated(ops[..|ops| - 1]);
      StepAgrees(Run(ops[..|ops| - 1]), ops[|ops| - 1]);
    }
  }

  ghost predicate HarmlessRun(ops: seq<Op>) {
    forall i :: 0 <= i < |ops| ==> Harmless(Run(ops[..i]), ops[i])
  }

  ghost predicate VoiceAlwaysAgrees(ops: seq<Op>) {
    forall i :: 0 <= i <= |ops| ==> VoiceAgrees(Run(ops[..i]))
  }

  lemma RunSnoc(ops: seq<Op>, i: nat)
    requires i < |ops|
    ensures Run(ops[..i + 1]) == Apply(Run(ops[..i]), ops[i])
  {
    assert ops[..i + 1][..i] == ops[..i];
  }

  lemma {:induction false} VoiceUpTo(ops: seq<Op>, i: nat)
    requires i <= |ops| && HarmlessRun(ops)
    ensures VoiceAgrees(Run(ops[..i]))
  {
    if i > 0 {
      VoiceUpTo(ops, i - 1);
      RunSnoc(ops, i - 1);
      StepVoiceAgrees(Run(ops[..i - 1]), ops[i - 1]);
    }
  }

  /** The voice badges are right at every moment of a run if and only if every step is harmless. */
  lemma VoiceReplicated(ops: seq<Op>)
    ensures VoiceAlwaysAgrees(ops) <==> HarmlessRun(ops)
  {
    if HarmlessRun(ops) {
      forall i | 0 <= i <= |ops| ensures VoiceAgrees(Run(ops[..i])) {
        VoiceUpTo(ops, i);
      }
    }
    if VoiceAlwaysAgrees(ops) {
      forall i | 0 <= i < |ops| ensures Harmless(Run(ops[..i]), ops[i]) {
        assert VoiceAgrees(Run(ops[..i])) && VoiceAgrees(Run(ops[..i + 1]));
        RunSnoc(ops, i);
        StepVoiceAgrees(Run(ops[..i]), ops[i]);
      }
    }
  }

  /** A talking user in a list made from the online users is shown with the badge off. */
  lemma EnsuredBadgeIsOff(c: string, id: string)
    ensures var v := Run([Presence(id, Online), VoiceStatus(id, Talking), Ensure(c)]);
            c in v.lists && id in v.lists[c] && v.lists[c][id].voice == Off && id in v.voice && v.voice[id] == Talking
  {
    var ops := [Presence(id, Online), VoiceStatus(id, Talking), Ensure(c)];
    assert ops[..2][..1][..0] == [] && ops[..2][..1][0] == Presence(id, Online);
    assert ops[..2][1] == VoiceStatus(id, Talking);
    assert Run(ops[..2][..1]) == SetPresence(Empty, id, Online);
    assert Run(ops[..2]) == SetVoice(SetPresence(Empty, id, Online), id, Talking);
  }
}
