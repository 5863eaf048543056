/** What the room protocol of server/routes.ts guarantees, proved about `RoomProtocol.Handle`. */
module RoomProperties {
  import opened Wrappers
  import opened Seqs
  import opened Protocol
  import opened RoomProtocol

  // ----- join-room -----

  /**
   * An unknown room id is created with the initial state, its key goes last in
   * the Map's order, and every other room is untouched; a known room keeps its
   * playback fields.
   */
  lemma JoinCreatesOrKeeps(reg: Registry, sid: string, roomId: string, username: string)
    ensures var after := Join(reg, sid, roomId, username).next;
      && roomId in after.rooms
      && (roomId !in reg.rooms ==>
            && after.rooms[roomId] == Room([Member(sid, username)], "", false, 0.0, "movie2watch")
            && after.order == reg.order + [roomId]
            && after.rooms.Keys == reg.rooms.Keys + {roomId}
            && (forall k :: k in reg.rooms ==> after.rooms[k] == reg.rooms[k]))
      && (roomId in reg.rooms ==>
            var before, now := reg.rooms[roomId], after.rooms[roomId];
            now.videoUrl == before.videoUrl && now.isPlaying == before.isPlaying
            && now.currentTime == before.currentTime && now.mode == before.mode)
  {
  }

  /** The joiner is appended to the end of the room's users; earlier entries and other rooms are untouched. */
  lemma JoinAppends(reg: Registry, sid: string, roomId: string, username: string)
    requires roomId in reg.rooms
    ensures var after := Join(reg, sid, roomId, username).next;
      && after.rooms[roomId].users == reg.rooms[roomId].users + [Member(sid, username)]
      && |after.rooms[roomId].users| == |reg.rooms[roomId].users| + 1
      && after.order == reg.order
      && (forall k :: k != roomId && k in reg.rooms ==> k in after.rooms && after.rooms[k] == reg.rooms[k])
      && after.rooms.Keys == reg.rooms.Keys
  {
  }

  /**
   * The joiner alone gets `room-state` with the room's fields and its names in
   * join order, ending with the joiner's; the others get `user-joined` with the
   * new user count.
   */
  lemma JoinReplies(reg: Registry, sid: string, roomId: string, username: string)
    ensures var r := Join(reg, sid, roomId, username);
      var room := r.next.rooms[roomId];
      && |r.out| == 2
      && r.out[0].origin == sid && r.out[0].to == Sender
      && r.out[0].event == RoomState(room.videoUrl, room.isPlaying, room.currentTime, room.mode, r.out[0].event.users)
      && |r.out[0].event.users| == |room.users| > 0
      && (forall i :: 0 <= i < |room.users| ==> r.out[0].event.users[i] == room.users[i].username)
      && r.out[0].event.users[|room.users| - 1] == username
      && r.out[1] == Delivery(sid, OthersIn(roomId), UserJoined(username, sid, |room.users|))
  {
  }

  // ----- playback and mode commands -----

  /**
   * A command for a known room applies its last-writer-wins update and is
   * announced to the other members only; users are never touched.
   */
  lemma ControlEffect(reg: Registry, sid: string, ev: ClientEvent)
    requires IsPlayback(ev) && ev.roomId in reg.rooms
    ensures var r := Control(reg, sid, ev);
      var before, after := reg.rooms[ev.roomId], r.next.rooms[ev.roomId];
      && r.next.rooms == reg.rooms[ev.roomId := after]
      && r.next.order == reg.order
      && after.users == before.users
      && (ev.PlayVideo? ==> after == before.(isPlaying := true, currentTime := ev.time))
      && (ev.PauseVideo? ==> after == before.(isPlaying := false, currentTime := ev.time))
      && (ev.SeekVideo? ==> after == before.(currentTime := ev.time))
      && (ev.ChangeVideo? ==> after == before.(videoUrl := ev.url, isPlaying := false, currentTime := 0.0))
      && (ev.SyncModeChange? ==> after == before.(mode := ev.mode))
      && r.out == [Delivery(sid, OthersIn(ev.roomId), Announce(ev))]
  {
  }

  /** A command naming an unknown room changes nothing and emits nothing. */
  lemma ControlUnknownRoom(reg: Registry, sid: string, ev: ClientEvent, now: string)
    requires IsPlayback(ev) && ev.roomId !in reg.rooms
    ensures Handle(reg, sid, ev, now) == Reaction(reg, [])
  {
  }

  // ----- relays -----

  /** Chat, nudge, typing, countdown, sync-command, voice and screen events never touch the registry. */
  lemma RelayLeavesRegistry(reg: Registry, sid: string, ev: ClientEvent, now: string)
    requires IsRelay(ev)
    ensures Handle(reg, sid, ev, now).next == reg
    ensures Handle(reg, sid, ev, now).out == [Relay(sid, ev, now)]
  {
  }

  /**
   * Who a relay goes to and what it carries: always on behalf of the sender;
   * the three signalling events go to their target alone, stamped with the
   * sender's id and carrying the payload untouched; everything else goes to
   * the rest of the room, screen-share payloads untouched.
   */
  lemma RelayAddressing(sid: string, ev: ClientEvent, now: string)
    requires IsRelay(ev)
    ensures Relay(sid, ev, now).origin == sid
    ensures IsTargeted(ev) ==> var d := Relay(sid, ev, now);
              && d.to == Connection(ev.targetId)
              && (d.event.VoiceOfferFrom? || d.event.VoiceAnswerFrom? || d.event.VoiceIceCandidateFrom?)
              && d.event.userId == sid && d.event.payload == ev.payload
    ensures !IsTargeted(ev) ==> Relay(sid, ev, now).to == OthersIn(ev.roomId)
    ensures (ev.ScreenOffer? || ev.ScreenAnswer? || ev.ScreenIceCandidate? || ev.ScreenStarted?)
              ==> var d := Relay(sid, ev, now);
                  && (d.event.ScreenOfferNotice? || d.event.ScreenAnswerNotice? || d.event.ScreenIceCandidateNotice?
                      || d.event.ScreenStartedNotice?)
                  && d.event.payload == ev.payload
  {
  }

  /**
   * What each relay hands on: the fields the client sent, unchanged, plus the
   * server's time for chat and the sender's connection id for voice events.
   */
  lemma RelayCarries(sid: string, ev: ClientEvent, now: string)
    requires IsRelay(ev)
    ensures var e := Relay(sid, ev, now).event;
      && (ev.SendChat? ==> e == ReceiveChat(ev.message, ev.username, now))
      && (ev.SendNudge? ==> e == ReceiveNudge(ev.username))
      && (ev.Typing? ==> e == TypingNotice(ev.username))
      && (ev.StoppedTyping? ==> e == StoppedTypingNotice(ev.username))
      && (ev.CountdownTick? ==> e == CountdownTickNotice(ev.count))
      && (ev.SyncCommandSent? ==> e == SyncCommandNotice(ev.command))
      && (ev.VoiceJoin? ==> e == VoiceUserJoined(sid, ev.username))
      && (ev.VoiceLeave? ==> e == VoiceUserLeft(sid))
      && (ev.VoiceOffer? ==> e == VoiceOfferFrom(sid, ev.payload))
      && (ev.VoiceAnswer? ==> e == VoiceAnswerFrom(sid, ev.payload))
      && (ev.VoiceIceCandidate? ==> e == VoiceIceCandidateFrom(sid, ev.payload))
      && (ev.ScreenOffer? ==> e == ScreenOfferNotice(ev.payload))
      && (ev.ScreenAnswer? ==> e == ScreenAnswerNotice(ev.payload))
      && (ev.ScreenIceCandidate? ==> e == ScreenIceCandidateNotice(ev.payload))
      && (ev.ScreenStarted? ==> e == ScreenStartedNotice(ev.payload))
      && (ev.ScreenStopped? ==> e == ScreenStoppedNotice)
  {
  }

  /**
   * The name each relay goes out under: send-chat, send-nudge, voice-join and
   * voice-leave are renamed for the receiving side; every other relay keeps
   * the name it came in under.
   */
  lemma RelayEventName(sid: string, ev: ClientEvent, now: string)
    requires IsRelay(ev)
    ensures Relay(sid, ev, now).event.Name()
            == if ev.SendChat? then "receive-chat"
               else if ev.SendNudge? then "receive-nudge"
               else if ev.VoiceJoin? then "voice-user-joined"
               else if ev.VoiceLeave? then "voice-user-left"
               else ev.Name()
  {
    if ev.SendChat? || ev.SendNudge? || ev.VoiceJoin? || ev.VoiceLeave? {
      RenamedRelaysName(sid, ev, now);
    } else if ev.Typing? || ev.StoppedTyping? || ev.CountdownTick? || ev.SyncCommandSent? {
      TypingAndCountdownKeepName(sid, ev, now);
    } else if IsTargeted(ev) {
      SignallingKeepsName(sid, ev, now);
    } else {
      ScreenShareKeepsName(sid, ev, now);
    }
  }

  /** The four relays renamed for the receiving side. */
  lemma RenamedRelaysName(sid: string, ev: ClientEvent, now: string)
    requires ev.SendChat? || ev.SendNudge? || ev.VoiceJoin? || ev.VoiceLeave?
    ensures ev.SendChat? ==> Relay(sid, ev, now).event.Name() == "receive-chat"
    ensures ev.SendNudge? ==> Relay(sid, ev, now).event.Name() == "receive-nudge"
    ensures ev.VoiceJoin? ==> Relay(sid, ev, now).event.Name() == "voice-user-joined"
    ensures ev.VoiceLeave? ==> Relay(sid, ev, now).event.Name() == "voice-user-left"
  {
    var d := Relay(sid, ev, now);
    match ev
    case SendChat(_, m, u) => assert d.event == ReceiveChat(m, u, now); assert d.event.Name() == "receive-chat";
    case SendNudge(_, u) => assert d.event == ReceiveNudge(u); assert d.event.Name() == "receive-nudge";
    case VoiceJoin(_, u) => assert d.event == VoiceUserJoined(sid, u); assert d.event.Name() == "voice-user-joined";
    case VoiceLeave(_) => assert d.event == VoiceUserLeft(sid); assert d.event.Name() == "voice-user-left";
  }

  /** The typing and countdown relays. */
  lemma TypingAndCountdownKeepName(sid: string, ev: ClientEvent, now: string)
    requires ev.Typing? || ev.StoppedTyping? || ev.CountdownTick? || ev.SyncCommandSent?
    ensures Relay(sid, ev, now).event.Name() == ev.Name()
  {
    var d := Relay(sid, ev, now);
    match ev
    case Typing(_, u) => assert d.event == TypingNotice(u); assert d.event.Name() == "user-typing";
    case StoppedTyping(_, u) => assert d.event == StoppedTypingNotice(u); assert d.event.Name() == "user-stopped-typing";
    case CountdownTick(_, c) => assert d.event == CountdownTickNotice(c); assert d.event.Name() == "netflix-countdown-tick";
    case SyncCommandSent(_, c) => assert d.event == SyncCommandNotice(c); assert d.event.Name() == "netflix-sync-command";
  }

  /** The targeted voice-signalling relays. */
  lemma SignallingKeepsName(sid: string, ev: ClientEvent, now: string)
    requires IsTargeted(ev)
    ensures Relay(sid, ev, now).event.Name() == ev.Name()
  {
    var d := Relay(sid, ev, now);
    match ev
    case VoiceOffer(_, _, o) => assert d.event == VoiceOfferFrom(sid, o); assert d.event.Name() == "voice-offer";
    case VoiceAnswer(_, _, a) => assert d.event == VoiceAnswerFrom(sid, a); assert d.event.Name() == "voice-answer";
    case VoiceIceCandidate(_, _, c) => assert d.event == VoiceIceCandidateFrom(sid, c); assert d.event.Name() == "voice-ice-candidate";
  }

  /** The screen-share relays. */
  lemma ScreenShareKeepsName(sid: string, ev: ClientEvent, now: string)
    requires ev.ScreenOffer? || ev.ScreenAnswer? || ev.ScreenIceCandidate? || ev.ScreenStarted? || ev.ScreenStopped?
    ensures Relay(sid, ev, now).event.Name() == ev.Name()
  {
    var d := Relay(sid, ev, now);
    match ev
    case ScreenOffer(_, x) => assert d.event == ScreenOfferNotice(x); assert d.event.Name() == "screen-offer";
    case ScreenAnswer(_, x) => assert d.event == ScreenAnswerNotice(x); assert d.event.Name() == "screen-answer";
    case ScreenIceCandidate(_, x) => assert d.event == ScreenIceCandidateNotice(x); assert d.event.Name() == "screen-ice-candidate";
    case ScreenStarted(_, x) => assert d.event == ScreenStartedNotice(x); assert d.event.Name() == "screen-started";
    case ScreenStopped(_) => assert d.event == ScreenStoppedNotice; assert d.event.Name() == "screen-stopped";
  }

  // ----- disconnect -----

  /** Leaving a room that holds no entry for `sid`: nothing changes and nothing is said. */
  lemma LeaveAbsent(room: Room, roomId: string, sid: string)
    requires forall j :: 0 <= j < |room.users| ==> room.users[j].id != sid
    ensures Outcome(room, sid) == Some(room)
    ensures LeaveNotice(room, roomId, sid) == []
  {
    assert forall j :: 0 <= j < |room.users| ==> !HasId(sid)(room.users[j]);
  }

  /**
   * Leaving a room whose first entry for `sid` is at `i`: that entry alone goes,
   * the rest keep their order, its name is announced, and the room is deleted
   * when that was its last entry.
   */
  lemma LeaveFirstEntry(room: Room, roomId: string, sid: string, i: nat)
    requires i < |room.users| && room.users[i].id == sid
    requires forall j :: 0 <= j < i ==> room.users[j].id != sid
    ensures LeaveNotice(room, roomId, sid) == [Delivery(sid, OthersIn(roomId), UserLeft(room.users[i].username))]
    ensures Outcome(room, sid) == if |room.users| == 1 then None
                                  else Some(room.(users := room.users[..i] + room.users[i + 1..]))
  {
    var p := HasId(sid);
    assert p(room.users[i]);
    assert forall j :: 0 <= j < i ==> !p(room.users[j]);
    var k := FindIndex(room.users, p);
    assert k == i;
    assert RemoveAt(room.users, i) == room.users[..i] + room.users[i + 1..];
  }

  /** One iteration of the disconnect loop on a valid registry. */
  lemma LeaveRoomStep(reg: Registry, roomId: string, sid: string)
    requires reg.Valid() && roomId in reg.rooms
    ensures var r := LeaveRoom(reg, roomId, sid);
      && r.next.Valid()
      && Lookup(r.next.rooms, roomId) == Outcome(reg.rooms[roomId], sid)
      && (forall k :: k != roomId ==> Lookup(r.next.rooms, k) == Lookup(reg.rooms, k))
      && r.out == LeaveNotice(reg.rooms[roomId], roomId, sid)
  {
    var room := reg.rooms[roomId];
    var r := LeaveRoom(reg, roomId, sid);
    var i := FindIndex(room.users, HasId(sid));
    if i < 0 {
      assert Outcome(room, sid) == Some(room);
      RoomKept(reg, roomId, room);
      assert r.next == reg.(rooms := reg.rooms[roomId := room]);
    } else if |room.users| == 1 {
      assert Outcome(room, sid) == None;
      RoomDeleted(reg, roomId);
      assert r.next == Registry(reg.rooms - {roomId}, Filter(reg.order, IsNot(roomId)));
    } else {
      var rest := room.(users := RemoveAt(room.users, i));
      assert Outcome(room, sid) == Some(rest);
      RoomKept(reg, roomId, rest);
      assert r.next == reg.(rooms := reg.rooms[roomId := rest]);
    }
  }

  /** Replacing a room by one that still has a user keeps the registry valid. */
  lemma RoomKept(reg: Registry, roomId: string, rest: Room)
    requires reg.Valid() && roomId in reg.rooms && |rest.users| > 0
    ensures reg.(rooms := reg.rooms[roomId := rest]).Valid()
  {
  }

  /** Deleting a room keeps the registry valid: its key leaves the order, and only it. */
  lemma RoomDeleted(reg: Registry, roomId: string)
    requires reg.Valid() && roomId in reg.rooms
    ensures Registry(reg.rooms - {roomId}, Filter(reg.order, IsNot(roomId))).Valid()
  {
    var order := Filter(reg.order, IsNot(roomId));
    FilterMembers(reg.order, IsNot(roomId));
    FilterDistinct(reg.order, IsNot(roomId));
    forall k
      ensures k in order <==> k in reg.order && k != roomId
    {
      if k in order {
        var i :| 0 <= i < |order| && order[i] == k;
      }
      if k in reg.order && k != roomId {
        var i :| 0 <= i < |reg.order| && reg.order[i] == k;
        assert IsNot(roomId)(reg.order[i]);
      }
    }
  }

  /** In a valid registry, the key order already holds only keys of the map. */
  lemma OrderListsKeys(reg: Registry)
    requires reg.Valid()
    ensures Filter(reg.order, KeyIn(reg.rooms)) == reg.order
  {
    forall i | 0 <= i < |reg.order|
      ensures KeyIn(reg.rooms)(reg.order[i])
    {
      assert reg.order[i] in reg.order;
    }
    FilterAll(reg.order, KeyIn(reg.rooms));
  }

  /**
   * One iteration of the disconnect loop removes at most its own key, and the
   * keys that remain keep their insertion order (`Map.delete` does not reorder).
   */
  lemma LeaveRoomOrder(reg: Registry, roomId: string, sid: string)
    requires reg.Valid() && roomId in reg.rooms
    ensures var next := LeaveRoom(reg, roomId, sid).next;
      && next.rooms.Keys <= reg.rooms.Keys
      && next.order == Filter(reg.order, KeyIn(next.rooms))
  {
    match Outcome(reg.rooms[roomId], sid)
    case None => DeletedOrder(reg, roomId);
    case Some(rest) => KeptOrder(reg, roomId, rest);
  }

  /** Deleting a room: the remaining keys are exactly those of the order other than it. */
  lemma DeletedOrder(reg: Registry, roomId: string)
    requires reg.Valid()
    ensures var rooms := reg.rooms - {roomId};
      Filter(reg.order, IsNot(roomId)) == Filter(reg.order, KeyIn(rooms))
  {
    var rooms := reg.rooms - {roomId};
    forall j | 0 <= j < |reg.order|
      ensures IsNot(roomId)(reg.order[j]) == KeyIn(rooms)(reg.order[j])
    {
      assert reg.order[j] in reg.order;
    }
    FilterAgree(reg.order, IsNot(roomId), KeyIn(rooms));
  }

  /** Replacing a room's value leaves the order as it was. */
  lemma KeptOrder(reg: Registry, roomId: string, rest: Room)
    requires reg.Valid() && roomId in reg.rooms
    ensures reg.order == Filter(reg.order, KeyIn(reg.rooms[roomId := rest]))
  {
    OrderListsKeys(reg);
    FilterAgree(reg.order, KeyIn(reg.rooms), KeyIn(reg.rooms[roomId := rest]));
  }

  /** The order after one more iteration, read off the order the loop started from. */
  lemma OrderStep(start: seq<string>, before: Registry, roomId: string, sid: string)
    requires before.Valid() && roomId in before.rooms
    requires before.order == Filter(start, KeyIn(before.rooms))
    ensures var next := LeaveRoom(before, roomId, sid).next;
      next.order == Filter(start, KeyIn(next.rooms))
  {
    var next := LeaveRoom(before, roomId, sid).next;
    LeaveRoomOrder(before, roomId, sid);
    FilterTwice(start, KeyIn(before.rooms), KeyIn(next.rooms));
  }

  /** The disconnect loop over distinct keys of the registry, by induction on how many it has done. */
  lemma {:induction false} DisconnectLookups(reg: Registry, keys: seq<string>, sid: string)
    requires reg.Valid() && Distinct(keys)
    requires forall i :: 0 <= i < |keys| ==> keys[i] in reg.rooms
    ensures var r := DisconnectAll(reg, keys, sid);
      && r.next.Valid()
      && (forall k :: k in r.next.rooms ==> k in reg.rooms)
      && (forall k :: k in reg.rooms ==>
            Lookup(r.next.rooms, k) == if k in keys then Outcome(reg.rooms[k], sid) else Some(reg.rooms[k]))
      && r.out == Notices(reg.rooms, keys, sid)
    decreases |keys|
  {
    if keys != [] {
      var init, k := keys[..|keys| - 1], keys[|keys| - 1];
      assert keys == init + [k];
      assert k !in init;
      DisconnectLookups(reg, init, sid);
      var before := DisconnectAll(reg, init, sid);
      assert Lookup(before.next.rooms, k) == Some(reg.rooms[k]);
      LeaveRoomStep(before.next, k, sid);
      var last := LeaveRoom(before.next, k, sid);
      assert DisconnectAll(reg, keys, sid) == Reaction(last.next, before.out + last.out);
      assert Notices(reg.rooms, keys, sid) == Notices(reg.rooms, init, sid) + LeaveNotice(reg.rooms[k], k, sid);
      forall j | j in reg.rooms
        ensures Lookup(last.next.rooms, j) == if j in keys then Outcome(reg.rooms[j], sid) else Some(reg.rooms[j])
      {
        assert j in keys <==> j in init || j == k;
      }
    }
  }

  /** The disconnect loop keeps the surviving keys in the order they were inserted, by induction on the keys visited. */
  lemma {:induction false} DisconnectOrder(reg: Registry, keys: seq<string>, sid: string)
    requires reg.Valid() && Distinct(keys)
    requires forall i :: 0 <= i < |keys| ==> keys[i] in reg.rooms
    ensures var r := DisconnectAll(reg, keys, sid);
      r.next.order == Filter(reg.order, KeyIn(r.next.rooms))
    decreases |keys|
  {
    if keys == [] {
      OrderListsKeys(reg);
    } else {
      var init, k := keys[..|keys| - 1], keys[|keys| - 1];
      assert keys == init + [k];
      assert k !in init;
      DisconnectOrder(reg, init, sid);
      DisconnectLookups(reg, init, sid);
      var before := DisconnectAll(reg, init, sid);
      assert Lookup(before.next.rooms, k) == Some(reg.rooms[k]);
      OrderStep(reg.order, before.next, k, sid);
    }
  }

  /** Everything the disconnect loop does, after visiting any distinct keys of the registry. */
  lemma DisconnectSteps(reg: Registry, keys: seq<string>, sid: string)
    requires reg.Valid() && Distinct(keys)
    requires forall i :: 0 <= i < |keys| ==> keys[i] in reg.rooms
    ensures var r := DisconnectAll(reg, keys, sid);
      && r.next.Valid()
      && (forall k :: k in r.next.rooms ==> k in reg.rooms)
      && (forall k :: k in reg.rooms ==>
            Lookup(r.next.rooms, k) == if k in keys then Outcome(reg.rooms[k], sid) else Some(reg.rooms[k]))
      && r.out == Notices(reg.rooms, keys, sid)
      && r.next.order == Filter(reg.order, KeyIn(r.next.rooms))
  {
    DisconnectLookups(reg, keys, sid);
    DisconnectOrder(reg, keys, sid);
  }

  /**
   * Disconnect: every room holding an entry for the connection loses its first
   * such entry (and is deleted if that empties it); every other room is
   * untouched; one `user-left` goes out per such room, in the map's order.
   */
  lemma DisconnectEffect(reg: Registry, sid: string, now: string)
    requires reg.Valid()
    ensures var r := Handle(reg, sid, Disconnect, now);
      && r.next.Valid()
      && (forall k :: k in r.next.rooms ==> k in reg.rooms)
      && (forall k :: k in reg.rooms ==> Lookup(r.next.rooms, k) == Outcome(reg.rooms[k], sid))
      && r.out == Notices(reg.rooms, reg.order, sid)
      && r.next.order == Filter(reg.order, KeyIn(r.next.rooms))
  {
    DisconnectSteps(reg, reg.order, sid);
  }

  /** Every disconnect emission is a `user-left` from the leaving connection to the others of one of its rooms. */
  lemma {:induction false} NoticesShape(rooms: map<string, Room>, keys: seq<string>, sid: string)
    ensures forall d :: d in Notices(rooms, keys, sid) ==>
              d.origin == sid && d.to.OthersIn? && d.to.roomId in keys && d.event.UserLeft?
    decreases |keys|
  {
    if keys != [] {
      NoticesShape(rooms, keys[..|keys| - 1], sid);
      assert keys == keys[..|keys| - 1] + [keys[|keys| - 1]];
    }
  }

  /** The predicate "room `k` holds an entry for `sid`". */
  function Holds(rooms: map<string, Room>, sid: string): string -> bool {
    (k: string) => k in rooms && FindIndex(rooms[k].users, HasId(sid)) >= 0
  }

  /** Exactly one `user-left` per room that held an entry for the connection. */
  lemma {:induction false} NoticesCount(rooms: map<string, Room>, keys: seq<string>, sid: string)
    ensures |Notices(rooms, keys, sid)| == |Filter(keys, Holds(rooms, sid))|
    decreases |keys|
  {
    if keys != [] {
      var init, k := keys[..|keys| - 1], keys[|keys| - 1];
      assert keys == init + [k];
      NoticesCount(rooms, init, sid);
      FilterAppend(init, [k], Holds(rooms, sid));
    }
  }

  /** Disconnecting a connection that is in no room changes nothing and emits nothing. */
  lemma DisconnectStranger(reg: Registry, sid: string, now: string)
    requires reg.Valid()
    requires forall k :: k in reg.rooms ==> forall j :: 0 <= j < |reg.rooms[k].users| ==> reg.rooms[k].users[j].id != sid
    ensures Handle(reg, sid, Disconnect, now) == Reaction(reg, [])
  {
    StrangerSteps(reg, reg.order, sid);
  }

  lemma {:induction false} StrangerSteps(reg: Registry, keys: seq<string>, sid: string)
    requires forall k :: k in reg.rooms ==> forall j :: 0 <= j < |reg.rooms[k].users| ==> reg.rooms[k].users[j].id != sid
    ensures DisconnectAll(reg, keys, sid) == Reaction(reg, [])
    decreases |keys|
  {
    if keys != [] {
      StrangerSteps(reg, keys[..|keys| - 1], sid);
      var k := keys[|keys| - 1];
      if k in reg.rooms {
        LeaveAbsent(reg.rooms[k], k, sid);
        assert reg.rooms[k := reg.rooms[k]] == reg.rooms;
      }
    }
  }

  // ----- every handler -----

  /** Every handler keeps the registry valid: in particular no room in the map is ever empty. */
  lemma HandlePreservesValid(reg: Registry, sid: string, ev: ClientEvent, now: string)
    requires reg.Valid()
    ensures Handle(reg, sid, ev, now).next.Valid()
  {
    if ev.Disconnect? {
      DisconnectEffect(reg, sid, now);
    } else if ev.JoinRoom? {
      JoinKeepsValid(reg, sid, ev.roomId, ev.username);
    } else if IsPlayback(ev) {
      assert Handle(reg, sid, ev, now) == Control(reg, sid, ev);
      if ev.roomId in reg.rooms {
        RoomKept(reg, ev.roomId, Apply(reg.rooms[ev.roomId], ev));
      }
    } else {
      assert Handle(reg, sid, ev, now).next == reg;
    }
  }

  /** join-room keeps the registry valid: a new room's key is appended once, and the room gains a user. */
  lemma JoinKeepsValid(reg: Registry, sid: string, roomId: string, username: string)
    requires reg.Valid()
    ensures Join(reg, sid, roomId, username).next.Valid()
  {
    var next := Join(reg, sid, roomId, username).next;
    assert forall k :: k in next.rooms <==> k in next.order;
  }

  /**
   * No handler echoes to its sender, except the `room-state` reply to a joiner;
   * every emission is made on behalf of the connection whose event it handles.
   */
  lemma SenderExclusion(reg: Registry, sid: string, ev: ClientEvent, now: string)
    requires reg.Valid()
    ensures forall d :: d in Handle(reg, sid, ev, now).out ==>
              d.origin == sid && (d.to == Sender ==> ev.JoinRoom? && d.event.RoomState?)
    ensures forall d :: d in Handle(reg, sid, ev, now).out && d.to.Connection? ==>
              IsTargeted(ev) && d.to.id == ev.targetId
  {
    if ev.JoinRoom? {
      assert Handle(reg, sid, ev, now) == Join(reg, sid, ev.roomId, ev.username);
    } else if IsPlayback(ev) {
      assert Handle(reg, sid, ev, now) == Control(reg, sid, ev);
    } else if ev.Disconnect? {
      DisconnectEffect(reg, sid, now);
      NoticesShape(reg.rooms, reg.order, sid);
    } else {
      RelayAddressing(sid, ev, now);
      assert Handle(reg, sid, ev, now).out == [Relay(sid, ev, now)];
    }
  }

  /**
   * `io.to(targetId)` does not exclude the sender: a voice offer aimed at the
   * sender's own connection id comes back to the sender.
   */
  lemma SelfTargetedOfferReturns(reg: Registry, sid: string, roomId: string, offer: Payload, now: string)
    ensures Handle(reg, sid, VoiceOffer(roomId, sid, offer), now).out
            == [Delivery(sid, Connection(sid), VoiceOfferFrom(sid, offer))]
  {
  }

  // ----- sequences of events -----

  /** One event from one connection. */
  datatype Step = Step(sid: string, ev: ClientEvent)

  /** The server handling `steps` one after another; the emissions are concatenated in order. */
  function Run(reg: Registry, steps: seq<Step>, now: string): Reaction
    decreases |steps|
  {
    if steps == [] then Reaction(reg, [])
    else
      var first := Handle(reg, steps[0].sid, steps[0].ev, now);
      var rest := Run(first.next, steps[1..], now);
      Reaction(rest.next, first.out + rest.out)
  }

  /** Countdown ticks from one member, as the page sends them. */
  function Ticks(sid: string, roomId: string, counts: seq<int>): seq<Step> {
    seq(|counts|, i requires 0 <= i < |counts| => Step(sid, CountdownTick(roomId, counts[i])))
  }

  /**
   * Countdown ticks are each passed on to the other members verbatim and in
   * order: none added, none dropped, none reordered, and the registry untouched.
   */
  lemma {:induction false} TicksRelayedInOrder(reg: Registry, sid: string, roomId: string, counts: seq<int>, now: string)
    ensures var r := Run(reg, Ticks(sid, roomId, counts), now);
      && r.next == reg
      && |r.out| == |counts|
      && forall i :: 0 <= i < |counts| ==> r.out[i] == Delivery(sid, OthersIn(roomId), CountdownTickNotice(counts[i]))
    decreases |counts|
  {
    if counts != [] {
      assert Ticks(sid, roomId, counts)[1..] == Ticks(sid, roomId, counts[1..]);
      TicksRelayedInOrder(reg, sid, roomId, counts[1..], now);
    }
  }

  /** After the last member of a room disconnects, joining that id again starts from the initial state. */
  lemma RejoinAfterLastLeave(reg: Registry, sid: string, roomId: string, name: string,
                             sid2: string, name2: string, now: string)
    requires reg.Valid() && roomId in reg.rooms
    requires reg.rooms[roomId].users == [Member(sid, name)]
    ensures var gone := Handle(reg, sid, Disconnect, now).next;
      && roomId !in gone.rooms
      && Join(gone, sid2, roomId, name2).next.rooms[roomId] == Room([Member(sid2, name2)], "", false, 0.0, "movie2watch")
  {
    DisconnectEffect(reg, sid, now);
    LeaveFirstEntry(reg.rooms[roomId], roomId, sid, 0);
  }

  /**
   * A creates "r1" and B joins; A's play reaches only B, as `video-played`;
   * after A changes the video, a third joiner C is told it is paused at 0.
   */
  lemma PlayThenChangeScenario()
    ensures var s1 := Handle(NoRooms, "a", JoinRoom("r1", "Ana"), "");
      var s2 := Handle(s1.next, "b", JoinRoom("r1", "Ben"), "");
      var s3 := Handle(s2.next, "a", PlayVideo("r1", 42.0), "");
      var s4 := Handle(s3.next, "a", ChangeVideo("r1", "u2"), "");
      var s5 := Handle(s4.next, "c", JoinRoom("r1", "Cy"), "");
      && s3.out == [Delivery("a", OthersIn("r1"), VideoPlayed(42.0))]
      && s4.out == [Delivery("a", OthersIn("r1"), VideoChanged("u2"))]
      && s5.out[0] == Delivery("c", Sender, RoomState("u2", false, 0.0, "movie2watch", ["Ana", "Ben", "Cy"]))
  {
    var a, b, c := Member("a", "Ana"), Member("b", "Ben"), Member("c", "Cy");
    var r2 := Room([a, b], "", false, 0.0, "movie2watch");
    TwoJoin();
    var s3 := Handle(Registry(map["r1" := r2], ["r1"]), "a", PlayVideo("r1", 42.0), "");
    assert s3.next == Registry(map["r1" := r2.(isPlaying := true, currentTime := 42.0)], ["r1"]);
    var s4 := Handle(s3.next, "a", ChangeVideo("r1", "u2"), "");
    assert s4.next == Registry(map["r1" := r2.(videoUrl := "u2")], ["r1"]);
    var s5 := Handle(s4.next, "c", JoinRoom("r1", "Cy"), "");
    assert s5.next.rooms["r1"].users == [a, b, c];
    assert s3.out == [Delivery("a", OthersIn("r1"), VideoPlayed(42.0))];
    assert s4.out == [Delivery("a", OthersIn("r1"), VideoChanged("u2"))];
    assert Names([a, b, c]) == ["Ana", "Ben", "Cy"];
    assert s5.out[0] == Delivery("c", Sender, RoomState("u2", false, 0.0, "movie2watch", ["Ana", "Ben", "Cy"]));
  }

  /** Ana joins "r1" on an empty server, which creates it. */
  lemma AnaCreatesRoom()
    ensures Handle(NoRooms, "a", JoinRoom("r1", "Ana"), "").next
            == Registry(map["r1" := Room([Member("a", "Ana")], "", false, 0.0, "movie2watch")], ["r1"])
  {
    var s1 := Handle(NoRooms, "a", JoinRoom("r1", "Ana"), "");
    assert s1.next.rooms["r1"].users == [Member("a", "Ana")];
    assert s1.next.rooms.Keys == {"r1"};
  }

  /** Ana then Ben join "r1". */
  lemma TwoJoin()
    ensures Handle(Handle(NoRooms, "a", JoinRoom("r1", "Ana"), "").next, "b", JoinRoom("r1", "Ben"), "").next
            == Registry(map["r1" := Room([Member("a", "Ana"), Member("b", "Ben")], "", false, 0.0, "movie2watch")], ["r1"])
  {
    var a, b := Member("a", "Ana"), Member("b", "Ben");
    AnaCreatesRoom();
    var s2 := Handle(Registry(map["r1" := Room([a], "", false, 0.0, "movie2watch")], ["r1"]), "b", JoinRoom("r1", "Ben"), "");
    assert s2.next.rooms["r1"].users == [a, b];
    assert s2.next.rooms.Keys == {"r1"};
  }

  /** The one step of that disconnect: Ana's entry leaves "r1" and Ben is told. */
  lemma AnaLeavesRoom()
    ensures LeaveRoom(Registry(map["r1" := Room([Member("a", "Ana"), Member("b", "Ben")], "", false, 0.0, "movie2watch")], ["r1"]), "r1", "a")
            == Reaction(Registry(map["r1" := Room([Member("b", "Ben")], "", false, 0.0, "movie2watch")], ["r1"]),
                        [Delivery("a", OthersIn("r1"), UserLeft("Ana"))])
  {
    var both := Room([Member("a", "Ana"), Member("b", "Ben")], "", false, 0.0, "movie2watch");
    var rest := Room([Member("b", "Ben")], "", false, 0.0, "movie2watch");
    var reg := Registry(map["r1" := both], ["r1"]);
    AnaEntryLeaves();
    assert reg.rooms["r1" := rest] == map["r1" := rest];
  }

  /** Ana's entry is the first of two: Ben remains, and the notice names Ana. */
  lemma AnaEntryLeaves()
    ensures var both := Room([Member("a", "Ana"), Member("b", "Ben")], "", false, 0.0, "movie2watch");
      && Outcome(both, "a") == Some(Room([Member("b", "Ben")], "", false, 0.0, "movie2watch"))
      && LeaveNotice(both, "r1", "a") == [Delivery("a", OthersIn("r1"), UserLeft("Ana"))]
  {
    var a, b := Member("a", "Ana"), Member("b", "Ben");
    var both := Room([a, b], "", false, 0.0, "movie2watch");
    LeaveFirstEntry(both, "r1", "a", 0);
    assert [a, b][..0] + [a, b][1..] == [b];
  }

  /** Ana's connection drops while Ana and Ben are in "r1". */
  lemma FirstOfTwoLeaves()
    ensures Handle(Registry(map["r1" := Room([Member("a", "Ana"), Member("b", "Ben")], "", false, 0.0, "movie2watch")], ["r1"]),
                   "a", Disconnect, "")
            == Reaction(Registry(map["r1" := Room([Member("b", "Ben")], "", false, 0.0, "movie2watch")], ["r1"]),
                        [Delivery("a", OthersIn("r1"), UserLeft("Ana"))])
  {
    var reg := Registry(map["r1" := Room([Member("a", "Ana"), Member("b", "Ben")], "", false, 0.0, "movie2watch")], ["r1"]);
    AnaLeavesRoom();
    assert ["r1"][..0] == [];
    assert DisconnectAll(reg, [], "a") == Reaction(reg, []);
  }

  /** Ben's connection drops while Ben is alone in "r1". */
  lemma LastLeaves()
    ensures Handle(Registry(map["r1" := Room([Member("b", "Ben")], "", false, 0.0, "movie2watch")], ["r1"]),
                   "b", Disconnect, "")
            == Reaction(NoRooms, [Delivery("b", OthersIn("r1"), UserLeft("Ben"))])
  {
    var alone := Room([Member("b", "Ben")], "", false, 0.0, "movie2watch");
    var reg := Registry(map["r1" := alone], ["r1"]);
    assert ["r1"][..0] == [];
    LeaveFirstEntry(alone, "r1", "b", 0);
    var l := LeaveRoom(reg, "r1", "b");
    assert Filter(["r1"], IsNot("r1")) == [];
    assert l == Reaction(Registry(reg.rooms - {"r1"}, []), LeaveNotice(alone, "r1", "b"));
    assert l.next.rooms == map[];
    assert DisconnectAll(reg, ["r1"], "b") == l;
  }

  /**
   * A and B are in "r1"; A disconnects and B alone is told, once, by name; the
   * room stays; when B disconnects too the room is gone.
   */
  lemma DisconnectScenario()
    ensures var s1 := Handle(NoRooms, "a", JoinRoom("r1", "Ana"), "");
      var s2 := Handle(s1.next, "b", JoinRoom("r1", "Ben"), "");
      var s3 := Handle(s2.next, "a", Disconnect, "");
      var s4 := Handle(s3.next, "b", Disconnect, "");
      && s3.out == [Delivery("a", OthersIn("r1"), UserLeft("Ana"))]
      && Lookup(s3.next.rooms, "r1") == Some(Room([Member("b", "Ben")], "", false, 0.0, "movie2watch"))
      && s4.out == [Delivery("b", OthersIn("r1"), UserLeft("Ben"))]
      && s4.next == NoRooms
  {
    TwoJoin();
    FirstOfTwoLeaves();
    LastLeaves();
  }
}
