/** What the replicated presence holds, told from the operations alone. */
module PresenceHistory {
  import opened Prelude
  import opened Presence

  // ----- the known statuses -----

  /** The status last set for the user. */
  function LastStatus(ops: seq<Op>, id: string): Option<Status> {
    if ops == [] then None
    else
      match Last(ops)
      case Presence(user, status) => if user == id then Some(status) else LastStatus(Front(ops), id)
      case _ => LastStatus(Front(ops), id)
  }

  function LastVoice(ops: seq<Op>, id: string): Option<Voice> {
    if ops == [] then None
    else
      match Last(ops)
      case VoiceStatus(user, voice) => if user == id then Some(voice) else LastVoice(Front(ops), id)
      case _ => LastVoice(Front(ops), id)
  }

  function Get<V>(m: map<string, V>, id: string): Option<V> { if id in m then Some(m[id]) else None }

  /** The status known of a user is the one last set, the voice status likewise, and nothing else. */
  lemma {:induction false} KnownIsLast(ops: seq<Op>, id: string)
    ensures Get(Run(ops).online, id) == LastStatus(ops, id)
    ensures Get(Run(ops).voice, id) == LastVoice(ops, id)
  {
    if ops != [] {
      KnownIsLast(Front(ops), id);
    }
  }

  /** Every entry of a user in any list shows the status last set for that user. */
  lemma EntriesShowLastStatus(ops: seq<Op>, c: string, id: string)
    requires c in Run(ops).lists && id in Run(ops).lists[c]
    ensures LastStatus(ops, id).Some? ==> Run(ops).lists[c][id].presence == LastStatus(ops, id).value
  {
    PresenceReplicated(ops);
    KnownIsLast(ops, id);
    assert ListAgrees(Run(ops), Run(ops).lists[c]);
  }

  /** And the voice status last set, as long as no list is made from the online users while one of them
      has a voice status other than off. */
  lemma EntriesShowLastVoice(ops: seq<Op>, c: string, id: string)
    requires HarmlessRun(ops) && c in Run(ops).lists && id in Run(ops).lists[c]
    ensures LastVoice(ops, id).Some? ==> Run(ops).lists[c][id].voice == LastVoice(ops, id).value
  {
    VoiceUpTo(ops, |ops|);
    assert ops[..|ops|] == ops;
    KnownIsLast(ops, id);
    assert ListVoiceAgrees(Run(ops), Run(ops).lists[c]);
  }

  // ----- the life of one list entry -----

  /** A list exists once an operation has made it. */
  predicate Makes(op: Op, c: string) {
    match op
    case ChannelUsers(channel, _) => channel == c
    case Add(channel, _) => channel == c
    case DirectUsers(channel, _, _) => channel == c
    case Ensure(channel) => channel == c
    case _ => false
  }

  predicate Made(ops: seq<Op>, c: string) { ops != [] && (Makes(Last(ops), c) || Made(Front(ops), c)) }

  lemma MakesStep(v: View, op: Op, c: string)
    ensures c in Apply(v, op).lists <==> c in v.lists || Makes(op, c)
  {}

  lemma {:induction false} ListIffMade(ops: seq<Op>, c: string)
    ensures c in Run(ops).lists <==> Made(ops, c)
  {
    if ops != [] {
      ListIffMade(Front(ops), c);
      MakesStep(Run(Front(ops)), Last(ops), c);
    }
  }

  /** An entry as given, with what is known of its user after the operations. */
  function Current(ops: seq<Op>, e: Entry): Entry {
    var (status, voice) := (LastStatus(ops, e.userId), LastVoice(ops, e.userId));
    Entry(e.userId, e.role, if status.Some? then status.value else e.presence,
          if voice.Some? then voice.value else e.voice)
  }

  /** The last of the given users with the id. */
  function LastGiven(users: seq<Entry>, id: string): Option<Entry> {
    if users == [] then None
    else if Last(users).userId == id then Some(Last(users))
    else LastGiven(Front(users), id)
  }

  /** Who is given by a list of two. */
  function GivenDirect(local: string, peer: string, id: string): Option<Entry> {
    if id == "" then None
    else if id == local then Some(Entry(id, Regular, Online, Off))
    else if id == peer then Some(Entry(id, Regular, Offline, Off))
    else None
  }

  function Map(before: Option<Entry>, f: Entry -> Entry): Option<Entry> {
    if before.Some? then Some(f(before.value)) else None
  }

  /** What one operation does to the entry of `id` in list `c`, after the operations before it. */
  function NextEntry(ops: seq<Op>, op: Op, c: string, id: string, before: Option<Entry>): Option<Entry> {
    match op
    case Presence(user, status) => if user == id then Map(before, (e: Entry) => e.(presence := status)) else before
    case VoiceStatus(user, voice) => if user == id then Map(before, (e: Entry) => e.(voice := voice)) else before
    case ChannelUsers(channel, users) =>
      if channel == c then Map(LastGiven(users, id), (e: Entry) => Current(ops, e)) else before
    case Add(channel, e) => if channel == c && e.userId == id then Some(Current(ops, e)) else before
    case Remove(channel, user) => if channel == c && user == id then None else before
    case ChangeRole(channel, user, role) =>
      if channel == c && user == id then Map(before, (e: Entry) => e.(role := role)) else before
    case DirectUsers(channel, local, peer) =>
      if channel == c then Map(GivenDirect(local, peer, id), (e: Entry) => Current(ops, e)) else before
    case Ensure(channel) =>
      if channel != c || Made(ops, c) then before
      else
        match LastStatus(ops, id)
        case None => None
        case Some(status) => if status == Offline then None else Some(Entry(id, Regular, status, Off))
  }

  /** The entry of a user in a list, if it has one, from the operations alone. */
  function EntryOf(ops: seq<Op>, c: string, id: string): Option<Entry> {
    if ops == [] then None else NextEntry(Front(ops), Last(ops), c, id, EntryOf(Front(ops), c, id))
  }

  function Shown(v: View, c: string, id: string): Option<Entry> { if c in v.lists then Get(v.lists[c], id) else None }

  lemma {:induction false} ListedLast(v: View, users: seq<Entry>, id: string)
    ensures Get(Listed(v, users), id) == Map(LastGiven(users, id), (e: Entry) => Synced(v, e))
  {
    if users != [] {
      ListedLast(v, Front(users), id);
    }
  }

  lemma SyncedIsCurrent(ops: seq<Op>, e: Entry)
    ensures Synced(Run(ops), e) == Current(ops, e)
  {
    KnownIsLast(ops, e.userId);
  }

  lemma UsersStep(ops: seq<Op>, c: string, users: seq<Entry>, id: string)
    ensures Get(SetChannelUsers(Run(ops), c, users).lists[c], id) ==
            Map(LastGiven(users, id), (e: Entry) => Current(ops, e))
  {
    ListedLast(Run(ops), users, id);
    if LastGiven(users, id).Some? {
      SyncedIsCurrent(ops, LastGiven(users, id).value);
    }
  }

  lemma DirectStep(ops: seq<Op>, local: string, peer: string, id: string)
    ensures Get(DirectList(Run(ops), local, peer), id) ==
            Map(GivenDirect(local, peer, id), (e: Entry) => Current(ops, e))
  {
    SyncedIsCurrent(ops, Entry(local, Regular, Online, Off));
    SyncedIsCurrent(ops, Entry(peer, Regular, Offline, Off));
  }

  lemma GivenStep(ops: seq<Op>, op: Op, c: string, id: string)
    requires op.ChannelUsers? || op.Add? || op.DirectUsers?
    ensures Shown(Apply(Run(ops), op), c, id) == NextEntry(ops, op, c, id, Shown(Run(ops), c, id))
  {
    match op
    case ChannelUsers(channel, users) => UsersStep(ops, channel, users, id);
    case Add(_, e) => SyncedIsCurrent(ops, e);
    case DirectUsers(_, local, peer) => DirectStep(ops, local, peer, id);
    case _ =>
  }

  lemma OtherStep(ops: seq<Op>, op: Op, c: string, id: string)
    requires !(op.ChannelUsers? || op.Add? || op.DirectUsers?)
    ensures Shown(Apply(Run(ops), op), c, id) == NextEntry(ops, op, c, id, Shown(Run(ops), c, id))
  {
    if op.Ensure? {
      ListIffMade(ops, c);
      KnownIsLast(ops, id);
    }
  }

  /** After every run each list holds exactly the entries the operations say: who was last given or added
      and not removed, with the role last given, the status last set, and the voice badge as it goes. */
  lemma {:induction false} ListsAreHistory(ops: seq<Op>, c: string, id: string)
    ensures Shown(Run(ops), c, id) == EntryOf(ops, c, id)
  {
    if ops != [] {
      ListsAreHistory(Front(ops), c, id);
      if Last(ops).ChannelUsers? || Last(ops).Add? || Last(ops).DirectUsers? {
        GivenStep(Front(ops), Last(ops), c, id);
      } else {
        OtherStep(Front(ops), Last(ops), c, id);
      }
    }
  }
}
