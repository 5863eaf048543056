/**
 * The room page's own state in client/src/pages/room.tsx: the members list,
 * the chat lines, the video fields and the countdown, with every
 * `socket.emit` recorded in `sent`. `new Date().toLocaleTimeString()` becomes
 * the parameter `now`.
 */
module RoomPage {
  import opened Wrappers
  import opened Seqs
  import opened Text
  import opened Protocol
  import opened VideoUrl

  /** A chat line as the page lists it. */
  datatype ChatLine = ChatLine(username: string, message: string, timestamp: string, isSystem: bool)

  /** `addSystemMessage(text)`. */
  function SystemLine(text: string, now: string): ChatLine {
    ChatLine("System", text, now, true)
  }

  function IsNotName(name: string): string -> bool {
    (u: string) => u != name
  }

  /** The `netflix-countdown-tick` events of the countdown: 3, 2, 1, 0. */
  function CountdownTicks(roomId: string): (r: seq<ClientEvent>)
    ensures |r| == 4
    ensures forall i :: 0 <= i < 4 ==> r[i] == CountdownTick(roomId, 3 - i)
  {
    seq(4, i requires 0 <= i < 4 => CountdownTick(roomId, 3 - i))
  }

  class RoomView {
    const roomId: string
    const username: string
    var users: seq<string>
    var messages: seq<ChatLine>
    var inputValue: string
    var activeMode: string
    var urlInput: string
    var videoUrl: string
    var isPlaying: bool
    var countdown: Option<int>
    /** Every `socket.emit`, in order. */
    var sent: seq<ClientEvent>

    constructor (roomId: string, username: string)
      ensures this.roomId == roomId && this.username == username
      ensures users == [] && messages == [] && inputValue == "" && activeMode == "movie2watch" && urlInput == ""
      ensures videoUrl == "" && !isPlaying && countdown == None && sent == []
    {
      this.roomId, this.username := roomId, username;
      users, messages, inputValue, activeMode, urlInput := [], [], "", "movie2watch", "";
      videoUrl, isPlaying, countdown, sent := "", false, None, [];
    }

    /** connect: the page joins its room under this user's name (the `connected` flag it also sets is never read). */
    method OnConnect()
      modifies this
      ensures sent == old(sent) + [JoinRoom(roomId, username)]
      ensures users == old(users) && messages == old(messages) && inputValue == old(inputValue) && activeMode == old(activeMode)
      ensures urlInput == old(urlInput) && videoUrl == old(videoUrl) && isPlaying == old(isPlaying) && countdown == old(countdown)
    {
      sent := sent + [JoinRoom(roomId, username)];
    }

    /** room-state: the members, the video and the playing flag are taken from the server, and a system line is added. */
    method OnRoomState(stateUsers: seq<string>, stateVideoUrl: string, stateIsPlaying: bool, now: string)
      modifies this
      ensures users == stateUsers && videoUrl == stateVideoUrl && isPlaying == stateIsPlaying
      ensures messages == old(messages) + [SystemLine("Joined the room. Waiting for others...", now)]
      ensures inputValue == old(inputValue) && activeMode == old(activeMode) && urlInput == old(urlInput)
      ensures countdown == old(countdown) && sent == old(sent)
    {
      users, videoUrl, isPlaying := stateUsers, stateVideoUrl, stateIsPlaying;
      messages := messages + [SystemLine("Joined the room. Waiting for others...", now)];
    }

    /** user-joined: the name goes at the end of the list, and a system line says so. */
    method OnUserJoined(name: string, now: string)
      modifies this
      ensures users == old(users) + [name]
      ensures messages == old(messages) + [SystemLine(name + " joined the room", now)]
      ensures inputValue == old(inputValue) && activeMode == old(activeMode) && urlInput == old(urlInput)
      ensures videoUrl == old(videoUrl) && isPlaying == old(isPlaying) && countdown == old(countdown) && sent == old(sent)
    {
      users := users + [name];
      messages := messages + [SystemLine(name + " joined the room", now)];
    }

    /** user-left: every entry equal to the name leaves the list, and a system line says so. */
    method OnUserLeft(name: string, now: string)
      modifies this
      ensures users == Filter(old(users), IsNotName(name))
      ensures messages == old(messages) + [SystemLine(name + " left the room", now)]
      ensures inputValue == old(inputValue) && activeMode == old(activeMode) && urlInput == old(urlInput)
      ensures videoUrl == old(videoUrl) && isPlaying == old(isPlaying) && countdown == old(countdown) && sent == old(sent)
    {
      users := Filter(users, IsNotName(name));
      messages := messages + [SystemLine(name + " left the room", now)];
    }

    /** receive-chat: the relayed line is listed as it came, as a member's line. */
    method OnReceiveChat(message: string, sender: string, timestamp: string)
      modifies this
      ensures messages == old(messages) + [ChatLine(sender, message, timestamp, false)]
      ensures users == old(users) && inputValue == old(inputValue) && activeMode == old(activeMode) && urlInput == old(urlInput)
      ensures videoUrl == old(videoUrl) && isPlaying == old(isPlaying) && countdown == old(countdown) && sent == old(sent)
    {
      messages := messages + [ChatLine(sender, message, timestamp, false)];
    }

    /** video-played and video-paused: the playing flag follows the remote member; the time is not read. */
    method OnVideoPlaying(playing: bool)
      modifies this
      ensures isPlaying == playing
      ensures users == old(users) && messages == old(messages) && inputValue == old(inputValue) && activeMode == old(activeMode)
      ensures urlInput == old(urlInput) && videoUrl == old(videoUrl) && countdown == old(countdown) && sent == old(sent)
    {
      isPlaying := playing;
    }

    /** video-changed: the new link becomes the video, paused, and a system line says so. */
    method OnVideoChanged(url: string, now: string)
      modifies this
      ensures videoUrl == url && !isPlaying
      ensures messages == old(messages) + [SystemLine("Video source changed", now)]
      ensures users == old(users) && inputValue == old(inputValue) && activeMode == old(activeMode) && urlInput == old(urlInput)
      ensures countdown == old(countdown) && sent == old(sent)
    {
      videoUrl, isPlaying := url, false;
      messages := messages + [SystemLine("Video source changed", now)];
    }

    /** sync-mode-changed: the mode follows the remote member, and a system line says so. */
    method OnSyncModeChanged(mode: string, now: string)
      modifies this
      ensures activeMode == mode
      ensures messages == old(messages) + [SystemLine("Switched to " + mode + " mode", now)]
      ensures users == old(users) && inputValue == old(inputValue) && urlInput == old(urlInput)
      ensures videoUrl == old(videoUrl) && isPlaying == old(isPlaying) && countdown == old(countdown) && sent == old(sent)
    {
      activeMode := mode;
      messages := messages + [SystemLine("Switched to " + mode + " mode", now)];
    }

    /** netflix-countdown-tick from another member: the overlay shows the count received. */
    method OnCountdownTick(count: int)
      modifies this
      ensures countdown == Some(count)
      ensures users == old(users) && messages == old(messages) && inputValue == old(inputValue) && activeMode == old(activeMode)
      ensures urlInput == old(urlInput) && videoUrl == old(videoUrl) && isPlaying == old(isPlaying) && sent == old(sent)
    {
      countdown := Some(count);
    }

    /**
     * handleSendMessage: blank input is dropped; otherwise the input, as typed,
     * is added locally, sent as send-chat, and the input cleared.
     */
    method HandleSendMessage(now: string)
      modifies this
      ensures IsBlank(old(inputValue)) ==>
                messages == old(messages) && sent == old(sent) && inputValue == old(inputValue)
      ensures !IsBlank(old(inputValue)) ==>
                && messages == old(messages) + [ChatLine(username, old(inputValue), now, false)]
                && sent == old(sent) + [SendChat(roomId, old(inputValue), username)]
                && inputValue == ""
      ensures users == old(users) && activeMode == old(activeMode) && urlInput == old(urlInput) && videoUrl == old(videoUrl)
      ensures isPlaying == old(isPlaying) && countdown == old(countdown)
    {
      if IsBlank(inputValue) {
        return;
      }
      messages := messages + [ChatLine(username, inputValue, now, false)];
      sent := sent + [SendChat(roomId, inputValue, username)];
      inputValue := "";
    }

    /**
     * handleLoadVideo: an empty input does nothing; otherwise the normalised
     * link becomes the local video and is sent as change-video, the same value.
     */
    method HandleLoadVideo()
      modifies this
      ensures urlInput == "" ==> videoUrl == old(videoUrl) && sent == old(sent)
      ensures urlInput != "" ==>
                videoUrl == Normalize(urlInput) && sent == old(sent) + [ChangeVideo(roomId, videoUrl)]
      ensures urlInput == old(urlInput) && users == old(users) && messages == old(messages) && activeMode == old(activeMode)
      ensures inputValue == old(inputValue) && isPlaying == old(isPlaying) && countdown == old(countdown)
    {
      if urlInput == "" {
        return;
      }
      var finalUrl := Normalize(urlInput);
      videoUrl, sent := finalUrl, sent + [ChangeVideo(roomId, finalUrl)];
    }

    /** togglePlay: flips the flag and sends play-video or pause-video to match, at time 0. */
    method TogglePlay()
      modifies this
      ensures isPlaying == !old(isPlaying)
      ensures sent == old(sent) + [if isPlaying then PlayVideo(roomId, 0.0) else PauseVideo(roomId, 0.0)]
      ensures users == old(users) && messages == old(messages) && inputValue == old(inputValue) && activeMode == old(activeMode)
      ensures urlInput == old(urlInput) && videoUrl == old(videoUrl) && countdown == old(countdown)
    {
      var newState := !isPlaying;
      isPlaying := newState;
      sent := sent + [if newState then PlayVideo(roomId, 0.0) else PauseVideo(roomId, 0.0)];
    }

    /** handleModeChange: the mode is switched locally and sent as sync-mode-change. */
    method HandleModeChange(mode: string)
      modifies this
      ensures activeMode == mode && sent == old(sent) + [SyncModeChange(roomId, mode)]
      ensures users == old(users) && messages == old(messages) && inputValue == old(inputValue) && urlInput == old(urlInput)
      ensures videoUrl == old(videoUrl) && isPlaying == old(isPlaying) && countdown == old(countdown)
    {
      activeMode := mode;
      sent := sent + [SyncModeChange(roomId, mode)];
    }

    /**
     * startNetflixCountdown, with its interval callbacks run one after
     * another: ticks 3, 2, 1, 0 and then one play command from this user.
     */
    method StartNetflixCountdown()
      modifies this
      ensures sent == old(sent) + CountdownTicks(roomId) + [SyncCommandSent(roomId, SyncCommand("play", username))]
      ensures countdown == Some(0)
      ensures users == old(users) && messages == old(messages) && inputValue == old(inputValue) && activeMode == old(activeMode)
      ensures urlInput == old(urlInput) && videoUrl == old(videoUrl) && isPlaying == old(isPlaying)
    {
      var count := 3;
      countdown, sent := Some(3), sent + [CountdownTick(roomId, 3)];
      assert CountdownTicks(roomId)[..1] == [CountdownTick(roomId, 3)];
      while count > 0
        invariant 0 <= count <= 3 && countdown == Some(count)
        invariant sent == old(sent) + CountdownTicks(roomId)[..4 - count]
        invariant users == old(users) && messages == old(messages) && inputValue == old(inputValue) && activeMode == old(activeMode)
        invariant urlInput == old(urlInput) && videoUrl == old(videoUrl) && isPlaying == old(isPlaying)
      {
        var ticks := CountdownTicks(roomId);
        assert ticks[4 - count] == CountdownTick(roomId, count - 1);
        assert ticks[..4 - (count - 1)] == ticks[..4 - count] + [ticks[4 - count]];
        count := count - 1;
        countdown, sent := Some(count), sent + [CountdownTick(roomId, count)];
      }
      // The callback that reaches 0 clears the interval and sends the play command.
      assert CountdownTicks(roomId)[..4] == CountdownTicks(roomId);
      sent := sent + [SyncCommandSent(roomId, SyncCommand("play", username))];
    }

    /** sendNetflixCommand: one netflix-sync-command signed by this user. */
    method SendNetflixCommand(action: string)
      modifies this
      ensures sent == old(sent) + [SyncCommandSent(roomId, SyncCommand(action, username))]
      ensures users == old(users) && messages == old(messages) && inputValue == old(inputValue) && activeMode == old(activeMode)
      ensures urlInput == old(urlInput) && videoUrl == old(videoUrl) && isPlaying == old(isPlaying) && countdown == old(countdown)
    {
      sent := sent + [SyncCommandSent(roomId, SyncCommand(action, username))];
    }
  }

  // ----- properties -----

  /** user-left's list: no entry equal to the name remains; every other entry stays, as often as before. */
  lemma UsersAfterLeave(users: seq<string>, name: string)
    ensures var r := Filter(users, IsNotName(name));
      && (forall i :: 0 <= i < |r| ==> r[i] != name)
      && (forall u :: u != name ==> multiset(r)[u] == multiset(users)[u])
  {
    var r := Filter(users, IsNotName(name));
    FilterMembers(users, IsNotName(name));
    forall u | u != name
      ensures multiset(r)[u] == multiset(users)[u]
    {
      FilterCount(users, IsNotName(name), u);
    }
  }

  /** A blank chat input is exactly one made of whitespace only; padding does not make text blank or not. */
  lemma BlankInput(input: string, p: string, q: string)
    requires AllWhitespace(p) && AllWhitespace(q)
    ensures IsBlank(input) <==> AllWhitespace(input)
    ensures IsBlank(p + input + q) <==> IsBlank(input)
  {
    BlankIffAllWhitespace(input);
    TrimIgnoresPadding(p, input, q);
  }
}
