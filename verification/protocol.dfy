/**
 * The socket event protocol between room clients and the server: what a
 * client emits (the handlers registered with `socket.on` in server/routes.ts)
 * and what the server emits, with the three ways the server addresses them.
 */
module Protocol {

  /** A payload the server passes on without reading it (session descriptions, ICE candidates, screen-share data). */
  datatype Payload = Payload(json: string)

  /** The `{ action, sender }` object of `netflix-sync-command`. */
  datatype SyncCommand = SyncCommand(action: string, sender: string)

  /** Events a client emits; `Disconnect` is raised by the transport. */
  datatype ClientEvent =
    | JoinRoom(roomId: string, username: string)
    | PlayVideo(roomId: string, time: real)
    | PauseVideo(roomId: string, time: real)
    | SeekVideo(roomId: string, time: real)
    | ChangeVideo(roomId: string, url: string)
    | SyncModeChange(roomId: string, mode: string)
    | SendChat(roomId: string, message: string, username: string)
    | SendNudge(roomId: string, username: string)
    | Typing(roomId: string, username: string)
    | StoppedTyping(roomId: string, username: string)
    | CountdownTick(roomId: string, count: int)
    | SyncCommandSent(roomId: string, command: SyncCommand)
    | VoiceJoin(roomId: string, username: string)
    | VoiceLeave(roomId: string)
    | VoiceOffer(roomId: string, targetId: string, payload: Payload)
    | VoiceAnswer(roomId: string, targetId: string, payload: Payload)
    | VoiceIceCandidate(roomId: string, targetId: string, payload: Payload)
    | ScreenOffer(roomId: string, payload: Payload)
    | ScreenAnswer(roomId: string, payload: Payload)
    | ScreenIceCandidate(roomId: string, payload: Payload)
    | ScreenStarted(roomId: string, payload: Payload)
    | ScreenStopped(roomId: string)
    | Disconnect
  {
    /** The event name on the wire. */
    function Name(): string {
      match this
      case JoinRoom(_, _) => "join-room"
      case PlayVideo(_, _) => "play-video"
      case PauseVideo(_, _) => "pause-video"
      case SeekVideo(_, _) => "seek-video"
      case ChangeVideo(_, _) => "change-video"
      case SyncModeChange(_, _) => "sync-mode-change"
      case SendChat(_, _, _) => "send-chat"
      case SendNudge(_, _) => "send-nudge"
      case Typing(_, _) => "user-typing"
      case StoppedTyping(_, _) => "user-stopped-typing"
      case CountdownTick(_, _) => "netflix-countdown-tick"
      case SyncCommandSent(_, _) => "netflix-sync-command"
      case VoiceJoin(_, _) => "voice-join"
      case VoiceLeave(_) => "voice-leave"
      case VoiceOffer(_, _, _) => "voice-offer"
      case VoiceAnswer(_, _, _) => "voice-answer"
      case VoiceIceCandidate(_, _, _) => "voice-ice-candidate"
      case ScreenOffer(_, _) => "screen-offer"
      case ScreenAnswer(_, _) => "screen-answer"
      case ScreenIceCandidate(_, _) => "screen-ice-candidate"
      case ScreenStarted(_, _) => "screen-started"
      case ScreenStopped(_) => "screen-stopped"
      case Disconnect => "disconnect"
    }
  }

  /** Events the server emits. */
  datatype ServerEvent =
    | RoomState(videoUrl: string, isPlaying: bool, currentTime: real, mode: string, users: seq<string>)
    | UserJoined(username: string, userId: string, usersCount: nat)
    | UserLeft(username: string)
    | VideoPlayed(time: real)
    | VideoPaused(time: real)
    | VideoSeeked(time: real)
    | VideoChanged(url: string)
    | SyncModeChanged(mode: string)
    | ReceiveChat(message: string, username: string, timestamp: string)
    | ReceiveNudge(username: string)
    | TypingNotice(username: string)
    | StoppedTypingNotice(username: string)
    | CountdownTickNotice(count: int)
    | SyncCommandNotice(command: SyncCommand)
    | VoiceUserJoined(userId: string, username: string)
    | VoiceUserLeft(userId: string)
    | VoiceOfferFrom(userId: string, payload: Payload)
    | VoiceAnswerFrom(userId: string, payload: Payload)
    | VoiceIceCandidateFrom(userId: string, payload: Payload)
    | ScreenOfferNotice(payload: Payload)
    | ScreenAnswerNotice(payload: Payload)
    | ScreenIceCandidateNotice(payload: Payload)
    | ScreenStartedNotice(payload: Payload)
    | ScreenStoppedNotice
  {
    /** The event name on the wire. */
    function Name(): string {
      match this
      case RoomState(_, _, _, _, _) => "room-state"
      case UserJoined(_, _, _) => "user-joined"
      case UserLeft(_) => "user-left"
      case VideoPlayed(_) => "video-played"
      case VideoPaused(_) => "video-paused"
      case VideoSeeked(_) => "video-seeked"
      case VideoChanged(_) => "video-changed"
      case SyncModeChanged(_) => "sync-mode-changed"
      case ReceiveChat(_, _, _) => "receive-chat"
      case ReceiveNudge(_) => "receive-nudge"
      case TypingNotice(_) => "user-typing"
      case StoppedTypingNotice(_) => "user-stopped-typing"
      case CountdownTickNotice(_) => "netflix-countdown-tick"
      case SyncCommandNotice(_) => "netflix-sync-command"
      case VoiceUserJoined(_, _) => "voice-user-joined"
      case VoiceUserLeft(_) => "voice-user-left"
      case VoiceOfferFrom(_, _) => "voice-offer"
      case VoiceAnswerFrom(_, _) => "voice-answer"
      case VoiceIceCandidateFrom(_, _) => "voice-ice-candidate"
      case ScreenOfferNotice(_) => "screen-offer"
      case ScreenAnswerNotice(_) => "screen-answer"
      case ScreenIceCandidateNotice(_) => "screen-ice-candidate"
      case ScreenStartedNotice(_) => "screen-started"
      case ScreenStoppedNotice => "screen-stopped"
    }
  }

  /**
   * Who receives an emission: the emitting connection itself (`socket.emit`),
   * every other connection in a room (`socket.to(roomId).emit`), or one
   * connection by id (`io.to(targetId).emit`).
   */
  datatype Recipient = Sender | OthersIn(roomId: string) | Connection(id: string)

  /** One emission by the handler running for connection `origin`. */
  datatype Delivery = Delivery(origin: string, to: Recipient, event: ServerEvent)
}
