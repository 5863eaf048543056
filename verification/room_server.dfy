/**
 * The socket server of server/routes.ts as an object: the module-level `rooms`
 * Map (with its insertion order) and the log of everything emitted, updated in
 * place by one method per `socket.on` handler. Each method is proved to make
 * exactly the step that `RoomProtocol` describes.
 */
module RoomServer {
  import opened Seqs
  import opened Protocol
  import opened RoomProtocol
  import RoomProperties

  class SyncServer {
    /** The `rooms` Map. */
    var rooms: map<string, Room>
    /** The Map's keys in insertion order. */
    var order: seq<string>
    /** Every emission so far, in order. */
    var outbox: seq<Delivery>

    function State(): Registry
      reads this
    {
      Registry(rooms, order)
    }

    ghost predicate Valid()
      reads this
    {
      State().Valid()
    }

    constructor ()
      ensures Valid()
      ensures State() == NoRooms && outbox == []
    {
      rooms, order, outbox := map[], [], [];
    }

    /** Appends one emission to the log. */
    method Emit(d: Delivery)
      modifies this
      ensures rooms == old(rooms) && order == old(order)
      ensures outbox == old(outbox) + [d]
    {
      outbox := outbox + [d];
    }

    /** join-room. */
    method JoinRoom(sid: string, roomId: string, username: string)
      modifies this
      ensures State() == Join(old(State()), sid, roomId, username).next
      ensures outbox == old(outbox) + Join(old(State()), sid, roomId, username).out
    {
      if roomId !in rooms {
        rooms := rooms[roomId := FreshRoom];
        order := order + [roomId];
      }
      var room := rooms[roomId];
      room := room.(users := room.users + [Member(sid, username)]);
      rooms := rooms[roomId := room];
      Emit(Delivery(sid, Sender, RoomState(room.videoUrl, room.isPlaying, room.currentTime, room.mode, Names(room.users))));
      Emit(Delivery(sid, OthersIn(roomId), UserJoined(username, sid, |room.users|)));
    }

    /** play-video. */
    method PlayVideo(sid: string, roomId: string, time: real)
      modifies this
      ensures State() == Control(old(State()), sid, ClientEvent.PlayVideo(roomId, time)).next
      ensures outbox == old(outbox) + Control(old(State()), sid, ClientEvent.PlayVideo(roomId, time)).out
    {
      if roomId in rooms {
        rooms := rooms[roomId := rooms[roomId].(isPlaying := true, currentTime := time)];
        Emit(Delivery(sid, OthersIn(roomId), VideoPlayed(time)));
      }
    }

    /** pause-video. */
    method PauseVideo(sid: string, roomId: string, time: real)
      modifies this
      ensures State() == Control(old(State()), sid, ClientEvent.PauseVideo(roomId, time)).next
      ensures outbox == old(outbox) + Control(old(State()), sid, ClientEvent.PauseVideo(roomId, time)).out
    {
      if roomId in rooms {
        rooms := rooms[roomId := rooms[roomId].(isPlaying := false, currentTime := time)];
        Emit(Delivery(sid, OthersIn(roomId), VideoPaused(time)));
      }
    }

    /** seek-video. */
    method SeekVideo(sid: string, roomId: string, time: real)
      modifies this
      ensures State() == Control(old(State()), sid, ClientEvent.SeekVideo(roomId, time)).next
      ensures outbox == old(outbox) + Control(old(State()), sid, ClientEvent.SeekVideo(roomId, time)).out
    {
      if roomId in rooms {
        rooms := rooms[roomId := rooms[roomId].(currentTime := time)];
        Emit(Delivery(sid, OthersIn(roomId), VideoSeeked(time)));
      }
    }

    /** change-video. */
    method ChangeVideo(sid: string, roomId: string, url: string)
      modifies this
      ensures State() == Control(old(State()), sid, ClientEvent.ChangeVideo(roomId, url)).next
      ensures outbox == old(outbox) + Control(old(State()), sid, ClientEvent.ChangeVideo(roomId, url)).out
    {
      if roomId in rooms {
        rooms := rooms[roomId := rooms[roomId].(videoUrl := url, isPlaying := false, currentTime := 0.0)];
        Emit(Delivery(sid, OthersIn(roomId), VideoChanged(url)));
      }
    }

    /** sync-mode-change. */
    method SyncModeChange(sid: string, roomId: string, mode: string)
      modifies this
      ensures State() == Control(old(State()), sid, ClientEvent.SyncModeChange(roomId, mode)).next
      ensures outbox == old(outbox) + Control(old(State()), sid, ClientEvent.SyncModeChange(roomId, mode)).out
    {
      if roomId in rooms {
        rooms := rooms[roomId := rooms[roomId].(mode := mode)];
        Emit(Delivery(sid, OthersIn(roomId), SyncModeChanged(mode)));
      }
    }

    /**
     * Every relay handler (send-chat through screen-stopped): one emission, the
     * registry untouched. `now` is the server's time-of-day string, used by send-chat.
     */
    method RelayEvent(sid: string, ev: ClientEvent, now: string)
      requires IsRelay(ev)
      modifies this
      ensures rooms == old(rooms) && order == old(order)
      ensures outbox == old(outbox) + [Relay(sid, ev, now)]
    {
      var d: Delivery;
      match ev {
        case SendChat(roomId, message, username) =>
          d := Delivery(sid, OthersIn(roomId), ReceiveChat(message, username, now));
        case SendNudge(roomId, username) =>
          d := Delivery(sid, OthersIn(roomId), ReceiveNudge(username));
        case Typing(roomId, username) =>
          d := Delivery(sid, OthersIn(roomId), TypingNotice(username));
        case StoppedTyping(roomId, username) =>
          d := Delivery(sid, OthersIn(roomId), StoppedTypingNotice(username));
        case CountdownTick(roomId, count) =>
          d := Delivery(sid, OthersIn(roomId), CountdownTickNotice(count));
        case SyncCommandSent(roomId, command) =>
          d := Delivery(sid, OthersIn(roomId), SyncCommandNotice(command));
        case VoiceJoin(roomId, username) =>
          d := Delivery(sid, OthersIn(roomId), VoiceUserJoined(sid, username));
        case VoiceLeave(roomId) =>
          d := Delivery(sid, OthersIn(roomId), VoiceUserLeft(sid));
        case VoiceOffer(_, targetId, offer) =>
          d := Delivery(sid, Connection(targetId), VoiceOfferFrom(sid, offer));
        case VoiceAnswer(_, targetId, answer) =>
          d := Delivery(sid, Connection(targetId), VoiceAnswerFrom(sid, answer));
        case VoiceIceCandidate(_, targetId, candidate) =>
          d := Delivery(sid, Connection(targetId), VoiceIceCandidateFrom(sid, candidate));
        case ScreenOffer(roomId, data) =>
          d := Delivery(sid, OthersIn(roomId), ScreenOfferNotice(data));
        case ScreenAnswer(roomId, data) =>
          d := Delivery(sid, OthersIn(roomId), ScreenAnswerNotice(data));
        case ScreenIceCandidate(roomId, data) =>
          d := Delivery(sid, OthersIn(roomId), ScreenIceCandidateNotice(data));
        case ScreenStarted(roomId, data) =>
          d := Delivery(sid, OthersIn(roomId), ScreenStartedNotice(data));
        case ScreenStopped(roomId) =>
          d := Delivery(sid, OthersIn(roomId), ScreenStoppedNotice);
      }
      assert d == Relay(sid, ev, now);
      Emit(d);
    }

    /** One iteration of the disconnect loop, for the room `roomId`. */
    method LeaveOne(sid: string, roomId: string)
      modifies this
      ensures State() == LeaveRoom(old(State()), roomId, sid).next
      ensures outbox == old(outbox) + LeaveRoom(old(State()), roomId, sid).out
    {
      if roomId in rooms {
        var room := rooms[roomId];
        var userIndex := FindIndex(room.users, HasId(sid));
        if userIndex != -1 {
          var username := room.users[userIndex].username;
          room := room.(users := RemoveAt(room.users, userIndex));
          rooms := rooms[roomId := room];
          Emit(Delivery(sid, OthersIn(roomId), UserLeft(username)));
          if |room.users| == 0 {
            rooms := rooms - {roomId};
            order := Filter(order, IsNot(roomId));
          }
        }
      }
    }

    /**
     * disconnect: walks a snapshot of the Map's entries in insertion order,
     * removing the connection's first entry from each room that has one,
     * announcing it, and deleting a room it leaves empty.
     */
    method Disconnect(sid: string)
      modifies this
      ensures State() == DisconnectAll(old(State()), old(order), sid).next
      ensures outbox == old(outbox) + DisconnectAll(old(State()), old(order), sid).out
    {
      ghost var start, log := State(), outbox;
      var keys := order;
      var i := 0;
      while i < |keys|
        invariant 0 <= i <= |keys|
        invariant State() == DisconnectAll(start, keys[..i], sid).next
        invariant outbox == log + DisconnectAll(start, keys[..i], sid).out
      {
        assert keys[..i + 1][..i] == keys[..i];
        ghost var before := DisconnectAll(start, keys[..i], sid);
        ghost var step := LeaveRoom(before.next, keys[i], sid);
        assert DisconnectAll(start, keys[..i + 1], sid) == Reaction(step.next, before.out + step.out);
        LeaveOne(sid, keys[i]);
        assert outbox == log + (before.out + step.out);
        i := i + 1;
      }
      assert keys[..i] == keys;
    }

    /** The handler `socket.on` registered for `ev`, run for connection `sid`. */
    method Dispatch(sid: string, ev: ClientEvent, now: string)
      requires Valid()
      modifies this
      ensures Valid()
      ensures State() == Handle(old(State()), sid, ev, now).next
      ensures outbox == old(outbox) + Handle(old(State()), sid, ev, now).out
    {
      RoomProperties.HandlePreservesValid(State(), sid, ev, now);
      ghost var start := State();
      if ev.JoinRoom? {
        assert Handle(start, sid, ev, now) == Join(start, sid, ev.roomId, ev.username);
        JoinRoom(sid, ev.roomId, ev.username);
      } else if IsPlayback(ev) {
        assert Handle(start, sid, ev, now) == Control(start, sid, ev);
        match ev {
          case PlayVideo(roomId, time) => PlayVideo(sid, roomId, time);
          case PauseVideo(roomId, time) => PauseVideo(sid, roomId, time);
          case SeekVideo(roomId, time) => SeekVideo(sid, roomId, time);
          case ChangeVideo(roomId, url) => ChangeVideo(sid, roomId, url);
          case SyncModeChange(roomId, mode) => SyncModeChange(sid, roomId, mode);
        }
      } else if ev.Disconnect? {
        assert Handle(start, sid, ev, now) == DisconnectAll(start, start.order, sid);
        Disconnect(sid);
      } else {
        assert Handle(start, sid, ev, now) == Reaction(start, [Relay(sid, ev, now)]);
        RelayEvent(sid, ev, now);
      }
    }
  }
}
