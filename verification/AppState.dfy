/** The client's shared state: message history, read marker and replicated presence, changed in place. */
module AppState {
  import opened Prelude
  import R = ReadMarker
  import P = Presence

  datatype Channel = Channel(messages: seq<R.Message>, unread: nat, scroll: int)

  class AppState {
    var channels: map<string, Channel>
    var active: string
    var online: map<string, P.Status>
    var voice: map<string, P.Voice>
    var lists: map<string, P.UserList>

    function View(): P.View
      reads this
    {
      P.View(online, voice, lists)
    }

    constructor ()
      ensures channels == map[] && active == "" && View() == P.Empty
    {
      channels, active, online, voice, lists := map[], "", map[], map[], map[];
    }

    function MessagesOf(c: string): seq<R.Message>
      reads this
    {
      if c in channels then channels[c].messages else []
    }

    method PushMessage(c: string, m: R.Message)
      modifies `channels
      ensures c in channels && channels[c].messages == R.Pushed(old(MessagesOf(c)), m)
      ensures var was := if c in old(channels) then old(channels)[c] else Channel([], 0, 0);
              channels[c].scroll == was.scroll &&
              channels[c].unread == was.unread + (if c != active || was.scroll > 0 then 1 else 0)
      ensures channels - {c} == old(channels) - {c}
    {
      var ch := if c in channels then channels[c] else Channel([], 0, 0);
      var messages := ch.messages + [m];
      if |messages| > R.MaxMessages {
        messages := messages[1..];
      }
      var unread := ch.unread;
      if c != active || ch.scroll > 0 {
        unread := unread + 1;
      }
      channels := channels[c := Channel(messages, unread, ch.scroll)];
    }

    method MarkDirectMessagesRead(c: string, local: string, id: string, at: int) returns (ok: bool)
      modifies `channels
      ensures ok == (c in old(channels) && R.Accepts(old(MessagesOf(c)), local, id))
      ensures c !in old(channels) ==> channels == old(channels)
      ensures c in old(channels) ==>
                var received := R.Received(old(MessagesOf(c)), local, id, at);
                channels == old(channels)[c := old(channels)[c].(messages := received)]
    {
      if c !in channels || id == "" {
        if c in channels {
          assert channels == channels[c := channels[c].(messages := channels[c].messages)];
        }
        return false;
      }
      var messages := channels[c].messages;
      assert channels == channels[c := channels[c].(messages := messages)];
      var existing, target := Scan(messages, local, id);
      if target < 0 {
        return false;
      }
      if existing > target {
        return true;
      }
      var cleared := ClearMarks(messages, local);
      var m := cleared[target];
      cleared := cleared[target := m.(readByRemote := true, readAtMs := Max(m.readAtMs, at))];
      assert cleared == R.Remarked(messages, local, target, at);
      channels := channels[c := channels[c].(messages := cleared)];
      ok := true;
    }

    static method Scan(messages: seq<R.Message>, local: string, id: string) returns (existing: int, target: int)
      ensures existing == R.LastMarked(messages, local) && target == R.LastTarget(messages, local, id)
    {
      existing, target := -1, -1;
      assert messages[..|messages|] == messages;
      for i := 0 to |messages|
        invariant existing == R.LastMarked(messages[..i], local) && target == R.LastTarget(messages[..i], local, id)
      {
        assert messages[..i + 1][..i] == messages[..i];
        if messages[i].kind != R.Chat || messages[i].senderId != local {
          continue;
        }
        if messages[i].readByRemote {
          existing := i;
        }
        if messages[i].messageId == id {
          target := i;
        }
      }
    }

    static method ClearMarks(messages: seq<R.Message>, local: string) returns (cleared: seq<R.Message>)
      ensures |cleared| == |messages|
      ensures forall i :: 0 <= i < |messages| ==> cleared[i] == R.Cleared(messages[i], local)
    {
      cleared := messages;
      for i := 0 to |messages|
        invariant |cleared| == |messages|
        invariant forall j :: 0 <= j < i ==> cleared[j] == R.Cleared(messages[j], local)
        invariant forall j :: i <= j < |messages| ==> cleared[j] == messages[j]
      {
        if R.Mine(cleared[i], local) {
          cleared := cleared[i := cleared[i].(readByRemote := false, readAtMs := 0)];
        }
      }
    }

    // ----- presence -----

    method SetPresence(id: string, status: P.Status)
      modifies `online, `lists
      ensures View() == P.SetPresence(old(View()), id, status)
    {
      online := online[id := status];
      var left := lists.Keys;
      while left != {}
        invariant online == old(online)[id := status]
        invariant left <= lists.Keys == old(lists).Keys
        invariant forall c :: c in lists ==>
                    lists[c] == if c in left then old(lists)[c] else P.SyncedStatus(old(lists)[c], id, status)
      {
        var c :| c in left;
        if id in lists[c] {
          lists := lists[c := lists[c][id := lists[c][id].(presence := status)]];
        }
        left := left - {c};
      }
      assert lists == P.SetPresence(old(View()), id, status).lists;
    }

    method SetUserVoiceStatus(id: string, status: P.Voice)
      modifies `voice, `lists
      ensures View() == P.SetVoice(old(View()), id, status)
    {
      voice := voice[id := status];
      var left := lists.Keys;
      while left != {}
        invariant voice == old(voice)[id := status]
        invariant left <= lists.Keys == old(lists).Keys
        invariant forall c :: c in lists ==>
                    lists[c] == if c in left then old(lists)[c] else P.SyncedVoice(old(lists)[c], id, status)
      {
        var c :| c in left;
        if id in lists[c] {
          lists := lists[c := lists[c][id := lists[c][id].(voice := status)]];
        }
        left := left - {c};
      }
      assert lists == P.SetVoice(old(View()), id, status).lists;
    }

    method SetChannelUsers(c: string, users: seq<P.Entry>)
      modifies `lists
      ensures View() == P.SetChannelUsers(old(View()), c, users)
    {
      var list: P.UserList := map[];
      assert users[..|users|] == users;
      for i := 0 to |users|
        invariant list == P.Listed(old(View()), users[..i])
      {
        assert users[..i + 1][..i] == users[..i];
        var e := users[i];
        if e.userId in online {
          e := e.(presence := online[e.userId]);
        }
        if e.userId in voice {
          e := e.(voice := voice[e.userId]);
        }
        list := list[e.userId := e];
      }
      lists := lists[c := list];
    }

    method AddChannelUser(c: string, user: P.Entry)
      modifies `lists
      ensures View() == P.AddUser(old(View()), c, user)
    {
      var e := user;
      if e.userId in online {
        e := e.(presence := online[e.userId]);
      }
      if e.userId in voice {
        e := e.(voice := voice[e.userId]);
      }
      var users := if c in lists then lists[c] else map[];
      lists := lists[c := users[e.userId := e]];
    }

    method RemoveChannelUser(c: string, id: string)
      modifies `lists
      ensures View() == P.RemoveUser(old(View()), c, id)
    {
      if c in lists {
        lists := lists[c := lists[c] - {id}];
      }
    }

    method SetUserRole(c: string, id: string, role: P.Role)
      modifies `lists
      ensures View() == P.SetRole(old(View()), c, id, role)
    {
      if c in lists && id in lists[c] {
        lists := lists[c := lists[c][id := lists[c][id].(role := role)]];
      }
    }

    method BuildUser(id: string, isLocal: bool) returns (e: P.Entry)
      ensures e == P.Synced(View(), P.Entry(id, P.Regular, if isLocal then P.Online else P.Offline, P.Off))
    {
      e := P.Entry(id, P.Regular, if isLocal then P.Online else P.Offline, P.Off);
      if id in online {
        e := e.(presence := online[id]);
      }
      if id in voice {
        e := e.(voice := voice[id]);
      }
    }

    method SetDirectMessageUsers(c: string, local: string, peer: string)
      modifies `lists
      ensures View() == P.SetDirectUsers(old(View()), c, local, peer)
    {
      var list: P.UserList := map[];
      if local != "" {
        var e := BuildUser(local, true);
        list := list[local := e];
      }
      if peer != "" && peer != local {
        var e := BuildUser(peer, false);
        list := list[peer := e];
      }
      lists := lists[c := list];
    }

    method EnsureChannelUsersFromOnline(c: string)
      modifies `lists
      ensures View() == P.EnsureFromOnline(old(View()), c)
    {
      if c in lists {
        return;
      }
      var list: P.UserList := map[];
      var left := online.Keys;
      while left != {}
        invariant left <= online.Keys
        invariant list == map id | id in online && id !in left && online[id] != P.Offline ::
                            P.Entry(id, P.Regular, online[id], P.Off)
      {
        var id :| id in left;
        if online[id] != P.Offline {
          list := list[id := P.Entry(id, P.Regular, online[id], P.Off)];
        }
        left := left - {id};
      }
      assert list == P.OnlineList(old(View()));
      lists := lists[c := list];
    }
  }
}
