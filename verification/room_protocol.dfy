/**
 * The server's room registry and event protocol (server/routes.ts) as pure
 * transitions: `Handle` gives, for one event from one connection, the new
 * registry and the emissions, in order. The class in room_server.dfy performs
 * the same steps in place and is proved to agree with these functions.
 */
module RoomProtocol {
  import opened Wrappers
  import opened Seqs
  import opened Protocol

  /** One entry of a room's `users` list. */
  datatype Member = Member(id: string, username: string)

  /** RoomState. `mode` is a free string; `currentTime` a JavaScript number, taken as a real. */
  datatype Room = Room(users: seq<Member>, videoUrl: string, isPlaying: bool, currentTime: real, mode: string)

  const InitialMode: string := "movie2watch"

  /** The state `join-room` gives a room id it does not know yet. */
  const FreshRoom: Room := Room([], "", false, 0.0, InitialMode)

  /**
   * The module-level `rooms` Map. A Map iterates in insertion order, and that
   * order decides the order of the `user-left` emissions on disconnect, so the
   * keys are also kept as `order`.
   */
  datatype Registry = Registry(rooms: map<string, Room>, order: seq<string>) {
    /** `order` lists each key once, and every room in the map has a user. */
    ghost predicate Valid() {
      && (forall k :: k in rooms <==> k in order)
      && Distinct(order)
      && (forall k :: k in rooms ==> |rooms[k].users| > 0)
    }
  }

  /** The registry at start-up. */
  const NoRooms: Registry := Registry(map[], [])

  /** The new registry and what was emitted, in emission order. */
  datatype Reaction = Reaction(next: Registry, out: seq<Delivery>)

  function HasId(sid: string): Member -> bool {
    (u: Member) => u.id == sid
  }

  function IsNot(key: string): string -> bool {
    (k: string) => k != key
  }

  /** Whether a key is present in `rooms`. */
  function KeyIn(rooms: map<string, Room>): string -> bool {
    (k: string) => k in rooms
  }

  function Lookup(rooms: map<string, Room>, roomId: string): Option<Room> {
    if roomId in rooms then Some(rooms[roomId]) else None
  }

  /** `users.map(u => u.username)`. */
  function Names(users: seq<Member>): (r: seq<string>)
    ensures |r| == |users|
    ensures forall i :: 0 <= i < |users| ==> r[i] == users[i].username
  {
    seq(|users|, i requires 0 <= i < |users| => users[i].username)
  }

  // ----- join-room -----

  /** join-room: create the room if absent, append the joiner, reply with the state, tell the others. */
  function Join(reg: Registry, sid: string, roomId: string, username: string): Reaction {
    var room := if roomId in reg.rooms then reg.rooms[roomId] else FreshRoom;
    var order := if roomId in reg.rooms then reg.order else reg.order + [roomId];
    var joined := room.(users := room.users + [Member(sid, username)]);
    Reaction(
      Registry(reg.rooms[roomId := joined], order),
      [ Delivery(sid, Sender, RoomState(joined.videoUrl, joined.isPlaying, joined.currentTime, joined.mode, Names(joined.users))),
        Delivery(sid, OthersIn(roomId), UserJoined(username, sid, |joined.users|)) ])
  }

  // ----- playback and mode commands -----

  predicate IsPlayback(ev: ClientEvent) {
    ev.PlayVideo? || ev.PauseVideo? || ev.SeekVideo? || ev.ChangeVideo? || ev.SyncModeChange?
  }

  /** The last-writer-wins update a playback or mode command makes to its room. */
  function Apply(room: Room, ev: ClientEvent): Room
    requires IsPlayback(ev)
  {
    match ev
    case PlayVideo(_, time) => room.(isPlaying := true, currentTime := time)
    case PauseVideo(_, time) => room.(isPlaying := false, currentTime := time)
    case SeekVideo(_, time) => room.(currentTime := time)
    case ChangeVideo(_, url) => room.(videoUrl := url, isPlaying := false, currentTime := 0.0)
    case SyncModeChange(_, mode) => room.(mode := mode)
  }

  /** What the other members are told of a playback or mode command. */
  function Announce(ev: ClientEvent): ServerEvent
    requires IsPlayback(ev)
  {
    match ev
    case PlayVideo(_, time) => VideoPlayed(time)
    case PauseVideo(_, time) => VideoPaused(time)
    case SeekVideo(_, time) => VideoSeeked(time)
    case ChangeVideo(_, url) => VideoChanged(url)
    case SyncModeChange(_, mode) => SyncModeChanged(mode)
  }

  /** A playback or mode command: dropped silently when the room is unknown. */
  function Control(reg: Registry, sid: string, ev: ClientEvent): Reaction
    requires IsPlayback(ev)
  {
    if ev.roomId !in reg.rooms then Reaction(reg, [])
    else
      Reaction(reg.(rooms := reg.rooms[ev.roomId := Apply(reg.rooms[ev.roomId], ev)]),
               [Delivery(sid, OthersIn(ev.roomId), Announce(ev))])
  }

  // ----- relays -----

  predicate IsRelay(ev: ClientEvent) {
    !ev.JoinRoom? && !IsPlayback(ev) && !ev.Disconnect?
  }

  predicate IsTargeted(ev: ClientEvent) {
    ev.VoiceOffer? || ev.VoiceAnswer? || ev.VoiceIceCandidate?
  }

  /**
   * The single emission of a relay handler. `now` is the server's
   * `toLocaleTimeString()` at receipt, used by send-chat only.
   */
  function Relay(sid: string, ev: ClientEvent, now: string): Delivery
    requires IsRelay(ev)
  {
    match ev
    case SendChat(roomId, message, username) => Delivery(sid, OthersIn(roomId), ReceiveChat(message, username, now))
    case SendNudge(roomId, username) => Delivery(sid, OthersIn(roomId), ReceiveNudge(username))
    case Typing(roomId, username) => Delivery(sid, OthersIn(roomId), TypingNotice(username))
    case StoppedTyping(roomId, username) => Delivery(sid, OthersIn(roomId), StoppedTypingNotice(username))
    case CountdownTick(roomId, count) => Delivery(sid, OthersIn(roomId), CountdownTickNotice(count))
    case SyncCommandSent(roomId, command) => Delivery(sid, OthersIn(roomId), SyncCommandNotice(command))
    case VoiceJoin(roomId, username) => Delivery(sid, OthersIn(roomId), VoiceUserJoined(sid, username))
    case VoiceLeave(roomId) => Delivery(sid, OthersIn(roomId), VoiceUserLeft(sid))
    case VoiceOffer(_, targetId, offer) => Delivery(sid, Connection(targetId), VoiceOfferFrom(sid, offer))
    case VoiceAnswer(_, targetId, answer) => Delivery(sid, Connection(targetId), VoiceAnswerFrom(sid, answer))
    case VoiceIceCandidate(_, targetId, candidate) => Delivery(sid, Connection(targetId), VoiceIceCandidateFrom(sid, candidate))
    case ScreenOffer(roomId, data) => Delivery(sid, OthersIn(roomId), ScreenOfferNotice(data))
    case ScreenAnswer(roomId, data) => Delivery(sid, OthersIn(roomId), ScreenAnswerNotice(data))
    case ScreenIceCandidate(roomId, data) => Delivery(sid, OthersIn(roomId), ScreenIceCandidateNotice(data))
    case ScreenStarted(roomId, data) => Delivery(sid, OthersIn(roomId), ScreenStartedNotice(data))
    case ScreenStopped(roomId) => Delivery(sid, OthersIn(roomId), ScreenStoppedNotice)
  }

  // ----- disconnect -----

  /** What is left of one room once connection `sid` leaves it; None when the room is deleted. */
  function Outcome(room: Room, sid: string): Option<Room> {
    var i := FindIndex(room.users, HasId(sid));
    if i < 0 then Some(room)
    else
      var users := RemoveAt(room.users, i);
      if |users| == 0 then None else Some(room.(users := users))
  }

  /** The `user-left` emission for one room, if `sid` has an entry there. */
  function LeaveNotice(room: Room, roomId: string, sid: string): seq<Delivery> {
    var i := FindIndex(room.users, HasId(sid));
    if i < 0 then [] else [Delivery(sid, OthersIn(roomId), UserLeft(room.users[i].username))]
  }

  /** One iteration of the disconnect loop, for the room `roomId`. */
  function LeaveRoom(reg: Registry, roomId: string, sid: string): Reaction {
    if roomId !in reg.rooms then Reaction(reg, [])
    else
      var room := reg.rooms[roomId];
      var notice := LeaveNotice(room, roomId, sid);
      match Outcome(room, sid)
      case None => Reaction(Registry(reg.rooms - {roomId}, Filter(reg.order, IsNot(roomId))), notice)
      case Some(rest) => Reaction(reg.(rooms := reg.rooms[roomId := rest]), notice)
  }

  /** The disconnect loop run over `keys`, a snapshot of the map's keys, in order. */
  function DisconnectAll(reg: Registry, keys: seq<string>, sid: string): Reaction
    decreases |keys|
  {
    if keys == [] then Reaction(reg, [])
    else
      var before := DisconnectAll(reg, keys[..|keys| - 1], sid);
      var last := LeaveRoom(before.next, keys[|keys| - 1], sid);
      Reaction(last.next, before.out + last.out)
  }

  /** The `user-left` emissions of a disconnect, read off the registry as it was. */
  function Notices(rooms: map<string, Room>, keys: seq<string>, sid: string): seq<Delivery>
    decreases |keys|
  {
    if keys == [] then []
    else
      var k := keys[|keys| - 1];
      Notices(rooms, keys[..|keys| - 1], sid) + (if k in rooms then LeaveNotice(rooms[k], k, sid) else [])
  }

  // ----- dispatch -----

  /** The handler registered for `ev`, run for connection `sid`. */
  function Handle(reg: Registry, sid: string, ev: ClientEvent, now: string): Reaction {
    if ev.JoinRoom? then Join(reg, sid, ev.roomId, ev.username)
    else if IsPlayback(ev) then Control(reg, sid, ev)
    else if ev.Disconnect? then DisconnectAll(reg, reg.order, sid)
    else Reaction(reg, [Relay(sid, ev, now)])
  }
}
