/**
 * The session logic of the `GeminiVoiceChat` component (components/gemini-playground.tsx):
 * its React state and refs as the fields of one object, and each callback the browser
 * or the user triggers as one atomic method.
 *
 * React state is one immutable `View` value that each setter replaces a component of.
 * Browser resources are reduced to whether a handle is held: the WebSocket to its ready
 * state and the handlers installed on it, the AudioContext, microphone nodes, video
 * stream and frame timer to booleans. What the socket transmits is recorded in `sent`,
 * and the buffers handed to the audio context for playback, in order, in `started`.
 */
module Playground {
  import opened Wrappers
  import Utils
  import YouTube
  import Activity
  import opened Wire

  /** The `chatMode` state. */
  datatype ChatMode = AudioChat | VideoChat

  /** `WebSocket.readyState`. */
  datatype ReadyState = Connecting | Open | Closing | Closed

  /** What the socket handlers installed by `startStream` captured: its argument and the config of that render. */
  datatype Handlers = Handlers(mode: StreamMode, config: Config)

  /** `wsRef.current`: a socket's ready state and the handlers installed on it. */
  datatype Socket = Socket(readyState: ReadyState, handlers: Handlers)

  /** The component's React state. */
  datatype View = View(
    isStreaming: bool,
    isConnected: bool,
    error: Option<string>,
    text: string,
    chatMode: Option<ChatMode>,
    videoEnabled: bool,
    videoSource: Option<VideoSource>,
    ytChatEnabled: bool,
    ytChatLog: seq<string>)

  /** Whether `audioContextRef`, `audioInputRef`, `videoStreamRef` and `videoIntervalRef` hold a handle. */
  datatype Media = Media(audioContext: bool, audioInput: bool, videoStream: bool, videoInterval: bool)

  /** The state of the first render. */
  const InitialView := View(false, false, None, "", None, false, None, false, [])

  /** No handle held. */
  const NoMedia := Media(false, false, false, false)

  /** A decoded inbound audio buffer (a `Float32Array` of 24 kHz samples). */
  type AudioBuffer = seq<real>

  const MicrophoneErrorPrefix := "Failed to access microphone: "
  const SocketError := "WebSocket error"
  const InvalidVideoIdError := "Invalid YouTube URL or Video ID"
  const SkippedLine := "[YouTube] (skipped by safety)"

  /** The chat-log line of a relayed YouTube chat message. */
  function ChatLine(user: string, message: string): (line: string)
    ensures |line| >= 10 + |message| && line[..10] == "[YouTube] " && line[|line| - |message|..] == message
  {
    "[YouTube] " + user + ": " + message
  }

  /** The video source a camera or screen session starts with. */
  function ModeSource(mode: StreamMode): (source: Option<VideoSource>)
    ensures mode != AudioMode ==> source.Some? && SourceMode(source.value) == mode
  {
    match mode
    case AudioMode => None
    case CameraMode => Some(Camera)
    case ScreenMode => Some(Screen)
  }

  /** The flag of the most recent `user_activity` frame, if any was sent. */
  function LastActivity(sent: seq<OutMsg>): (r: Option<bool>)
    ensures r.Some? ==> UserActivity(r.value) in sent
    ensures r.None? ==> forall m :: m in sent ==> !m.UserActivity?
  {
    if sent == [] then None
    else if sent[|sent| - 1].UserActivity? then Some(sent[|sent| - 1].speaking)
    else LastActivity(sent[..|sent| - 1])
  }

  /** Every `yt_chat_start` frame carries a well-formed video ID. */
  predicate StartsCarryIds(sent: seq<OutMsg>) {
    sent == [] ||
    (StartsCarryIds(sent[..|sent| - 1]) && (sent[|sent| - 1].YtChatStart? ==> YouTube.IsVideoId(sent[|sent| - 1].videoId)))
  }

  /** Appending one frame: the last activity flag is its own if it has one, and the IDs stay well formed iff its own is. */
  lemma LastActivityAppend(sent: seq<OutMsg>, m: OutMsg)
    ensures LastActivity(sent + [m]) == if m.UserActivity? then Some(m.speaking) else LastActivity(sent)
    ensures StartsCarryIds(sent + [m]) == (StartsCarryIds(sent) && (m.YtChatStart? ==> YouTube.IsVideoId(m.videoId)))
  {
    assert (sent + [m])[..|sent|] == sent;
  }

  /**
   * The buffers that actually start when `buffers` are taken from the queue in order:
   * `createBuffer` throws on a zero-length buffer, so those never start.
   */
  function Audible(buffers: seq<AudioBuffer>): (r: seq<AudioBuffer>)
    ensures |r| <= |buffers|
  {
    if buffers == [] then []
    else
      var last := buffers[|buffers| - 1];
      Audible(buffers[..|buffers| - 1]) + Starts(last)
  }

  /** What taking buffer `b` off the queue starts: `b` itself, unless it is empty. */
  function Starts(b: AudioBuffer): seq<AudioBuffer> {
    if b == [] then [] else [b]
  }

  /** A buffer is started exactly when it was taken off the queue and is not empty. */
  lemma {:induction false} AudibleMembers(buffers: seq<AudioBuffer>)
    ensures forall b :: b in Audible(buffers) <==> b in buffers && b != []
  {
    if buffers != [] {
      var init := buffers[..|buffers| - 1];
      AudibleMembers(init);
      assert buffers == init + [buffers[|buffers| - 1]];
    }
  }

  /** Taking one more buffer starts it exactly when it is not empty. */
  lemma AudibleAppend(buffers: seq<AudioBuffer>, b: AudioBuffer)
    ensures Audible(buffers + [b]) == Audible(buffers) + Starts(b)
  {
    assert (buffers + [b])[..|buffers|] == buffers;
  }

  class Session {
    /** React state. */
    var view: View

    /** Refs. */
    var socket: Option<Socket>
    var media: Media
    var queue: seq<AudioBuffer>
    var isPlaying: bool
    var throttle: Activity.Throttle

    /** What leaves the component: frames transmitted, and buffers started, oldest first. */
    var sent: seq<OutMsg>
    var started: seq<AudioBuffer>

    /** Every buffer ever pushed for playback, and every buffer shifted off the queue, oldest first. */
    ghost var arrived: seq<AudioBuffer>
    ghost var taken: seq<AudioBuffer>

    /**
     * Buffers leave the queue in arrival order, none dropped or reordered, and every
     * non-empty one that left it was started.
     */
    ghost predicate PlaybackInOrder()
      reads this`started, this`queue, this`arrived, this`taken
    {
      taken + queue == arrived && started == Audible(taken)
    }

    /** The throttle remembers the flag of the last `user_activity` frame sent. */
    predicate ActivityRemembered()
      reads this`sent, this`throttle
    {
      LastActivity(sent).Some? ==> LastActivity(sent).value == throttle.lastSpeaking
    }

    /**
     * The invariant of the socket side: the throttle in step with what was sent, and
     * well-formed IDs in every `yt_chat_start` frame. Playback keeps its own invariant,
     * `PlaybackInOrder`.
     */
    ghost predicate Valid()
      reads this`sent, this`throttle
    {
      ActivityRemembered() && StartsCarryIds(sent)
    }

    /** A socket is held and open. */
    predicate IsOpen()
      reads this`socket
    {
      socket.Some? && socket.value.readyState == Open
    }

    /** A socket is held that is still connecting, so `send` throws `InvalidStateError`. */
    predicate SendThrows()
      reads this`socket
    {
      socket.Some? && socket.value.readyState == Connecting
    }

    /** Every session handle released and every session flag down. */
    predicate TornDown()
      reads this`socket, this`media, this`view
    {
      && socket == None && !media.audioInput && !media.audioContext
      && !view.isStreaming && !view.isConnected && view.chatMode == None
    }

    /** The component as first rendered. */
    constructor ()
      ensures Valid() && PlaybackInOrder() && TornDown()
      ensures view == InitialView && socket == None && media == NoMedia
      ensures queue == [] && !isPlaying && throttle == Activity.Initial
      ensures sent == [] && started == []
    {
      view := InitialView;
      socket, media := None, NoMedia;
      queue, isPlaying, throttle := [], false, Activity.Initial;
      sent, started := [], [];
      arrived, taken := [], [];
    }

    /**
     * `ws.send` of any frame but `user_activity`: it is transmitted only while the socket
     * is open.
     */
    method Transmit(m: OutMsg)
      requires Valid() && !m.UserActivity? && (m.YtChatStart? ==> YouTube.IsVideoId(m.videoId))
      modifies this`sent
      ensures Valid()
      ensures sent == if IsOpen() then old(sent) + [m] else old(sent)
    {
      if IsOpen() {
        LastActivityAppend(sent, m);
        sent := sent + [m];
      }
    }

    /** The `user_activity` frame of an audio block on an open socket, and the refs it updates. */
    method SendActivity(speaking: bool, now: int)
      requires Valid() && IsOpen()
      modifies this`sent, this`throttle
      ensures Valid()
      ensures sent == old(sent) + [UserActivity(speaking)]
      ensures throttle == Activity.Throttle(speaking, now)
    {
      LastActivityAppend(sent, UserActivity(speaking));
      sent := sent + [UserActivity(speaking)];
      throttle := Activity.Throttle(speaking, now);
    }

    /** `startStream`: sets the chat mode and opens a new socket whose handlers remember the mode and config. */
    method StartStream(mode: StreamMode, config: Config)
      requires Valid()
      modifies this`view, this`socket
      ensures Valid()
      ensures view == old(view).(chatMode := Some(if mode == AudioMode then AudioChat else VideoChat))
      ensures socket == Some(Socket(Connecting, Handlers(mode, config)))
    {
      if mode != AudioMode {
        view := view.(chatMode := Some(VideoChat));
      } else {
        view := view.(chatMode := Some(AudioChat));
      }
      socket := Some(Socket(Connecting, Handlers(mode, config)));
    }

    /**
     * `startAudioStream`: the audio context is created first; then the microphone is
     * either granted (input nodes held, streaming) or refused with a message.
     */
    method StartAudioStream(micFailure: Option<string>)
      requires Valid()
      modifies this`media, this`view
      ensures Valid()
      ensures media == old(media).(audioContext := true, audioInput := old(media.audioInput) || micFailure.None?)
      ensures micFailure.None? ==> view == old(view).(isStreaming := true)
      ensures micFailure.Some? ==> view == old(view).(error := Some(MicrophoneErrorPrefix + micFailure.value))
    {
      media := media.(audioContext := true);
      if micFailure.None? {
        media := media.(audioInput := true);
        view := view.(isStreaming := true);
      } else {
        view := view.(error := Some(MicrophoneErrorPrefix + micFailure.value));
      }
    }

    /**
     * The socket opens and `onopen` runs: the `config` frame, then the microphone, then
     * the `mode` frame carrying `startStream`'s argument; nothing is sent in between.
     * A camera or screen session switches video on with that source.
     */
    method OnOpen(micFailure: Option<string>)
      requires Valid() && socket.Some? && socket.value.readyState == Connecting
      modifies this`socket, this`sent, this`media, this`view
      ensures Valid()
      ensures socket == Some(old(socket.value).(readyState := Open))
      ensures sent == old(sent) + [ConfigMsg(old(socket.value.handlers.config)), ModeMsg(old(socket.value.handlers.mode))]
      ensures media == old(media).(audioContext := true, audioInput := old(media.audioInput) || micFailure.None?)
      ensures var mode := old(socket.value.handlers.mode);
        view == old(view).(
          isStreaming := true,
          isConnected := true,
          error := if micFailure.Some? then Some(MicrophoneErrorPrefix + micFailure.value) else old(view.error),
          videoEnabled := old(view.videoEnabled) || mode != AudioMode,
          videoSource := if mode == AudioMode then old(view.videoSource) else ModeSource(mode))
    {
      var h := socket.value.handlers;
      socket := Some(Socket(Open, h));
      Transmit(ConfigMsg(h.config));
      StartAudioStream(micFailure);
      if h.mode != AudioMode {
        view := view.(videoEnabled := true, videoSource := ModeSource(h.mode));
      }
      Transmit(ModeMsg(h.mode));
      view := view.(isStreaming := true, isConnected := true);
    }

    /**
     * `onaudioprocess` for one block of microphone samples, whose speech classification
     * and `Date.now()` are given. Nothing is sent unless the socket is open; then the
     * block goes out as an `audio` frame, followed by at most one `user_activity` frame,
     * as the throttle decides.
     */
    method OnAudioProcess(samples: seq<real>, speaking: bool, now: int)
      requires Valid()
      modifies this`sent, this`throttle
      ensures Valid()
      ensures !IsOpen() ==> sent == old(sent) && throttle == old(throttle)
      ensures IsOpen() ==>
        var d := Activity.Decide(old(throttle), Activity.Tick(speaking, now));
        && sent == old(sent) + [AudioFrame(Utils.Pcm16Bytes(Utils.Pcm16Samples(samples)))]
                             + (if d.notify then [UserActivity(speaking)] else [])
        && throttle == d.next
    {
      if IsOpen() {
        var pcmData := Utils.Float32ToPcm16(samples);
        assert pcmData[..] == Utils.Pcm16Samples(samples);
        Transmit(AudioFrame(Utils.Pcm16Bytes(pcmData[..])));
        var changed := speaking != throttle.lastSpeaking;
        var throttled := now - throttle.lastSentAt > Activity.KeepAliveMs;
        if changed || throttled {
          SendActivity(speaking, now);
        }
      }
    }

    /** `onerror`: the error is shown and streaming stops. */
    method OnSocketError()
      modifies this`view
      ensures view == old(view).(error := Some(SocketError), isStreaming := false)
    {
      view := view.(error := Some(SocketError), isStreaming := false);
    }

    /** `onclose`: the socket held (if any) is closed and streaming stops. */
    method OnSocketClose()
      modifies this`socket, this`view
      ensures socket == if old(socket).Some? then Some(old(socket.value).(readyState := Closed)) else None
      ensures view == old(view).(isStreaming := false)
    {
      if socket.Some? {
        socket := Some(socket.value.(readyState := Closed));
      }
      view := view.(isStreaming := false);
    }

    /**
     * `stopStream`: every handle is released, the video handles only in video mode,
     * and every session flag is cleared. On a session already torn down it changes
     * nothing, so a second call is harmless.
     */
    method StopStream()
      requires Valid()
      modifies this`media, this`view, this`socket
      ensures Valid() && TornDown()
      ensures var video := old(view.chatMode) == Some(VideoChat);
        && media == Media(false, false, old(media.videoStream) && !video, old(media.videoInterval) && !video)
        && view == old(view).(
             isStreaming := false,
             isConnected := false,
             chatMode := None,
             videoEnabled := old(view.videoEnabled) && !video,
             videoSource := if video then None else old(view.videoSource))
      ensures old(TornDown()) ==> unchanged(this)
    {
      // A handle is released if held; either way none is held afterwards.
      media := media.(audioInput := false);
      if view.chatMode == Some(VideoChat) {
        view := view.(videoEnabled := false, videoSource := None);
        media := media.(videoStream := false, videoInterval := false);
      }
      media := media.(audioContext := false);
      socket := None;
      view := view.(isStreaming := false, isConnected := false, chatMode := None);
    }

    /**
     * `playNextInQueue`, also run by each buffer's `onended`: with no audio context or an
     * empty queue playback goes idle and the queue is kept; otherwise the flag is raised
     * and exactly the head buffer is shifted off and started. A zero-length head makes
     * `createBuffer` throw: it is shifted off, nothing starts, the flag stays up and no
     * `onended` will ever run the consumer again.
     */
    method PlayNextInQueue()
      requires PlaybackInOrder()
      modifies this`queue, this`isPlaying, this`started, this`taken
      ensures PlaybackInOrder()
      ensures !media.audioContext || old(queue) == [] ==>
        !isPlaying && queue == old(queue) && started == old(started)
      ensures media.audioContext && old(queue) != [] ==>
        && isPlaying && queue == old(queue)[1..]
        && started == old(started) + Starts(old(queue)[0])
    {
      if !media.audioContext || queue == [] {
        isPlaying := false;
        return;
      }
      isPlaying := true;
      var audioData := queue[0];
      queue := queue[1..];
      AudibleAppend(taken, audioData);
      taken := taken + [audioData];
      assert taken + queue == old(taken) + old(queue);
      if audioData != [] {
        started := started + [audioData];
      }
    }

    /** The effect of `playAudioData(buf)` on the playback state. */
    twostate predicate Pushed(buf: AudioBuffer)
      reads this
    {
      && arrived == old(arrived) + [buf]
      && (old(isPlaying) ==> isPlaying && queue == old(queue) + [buf] && started == old(started))
      && (!old(isPlaying) && !media.audioContext ==> !isPlaying && queue == old(queue) + [buf] && started == old(started))
      && (!old(isPlaying) && media.audioContext ==>
            && isPlaying
            && (old(queue) == [] ==> queue == [] && started == old(started) + Starts(buf))
            && (old(queue) != [] ==> queue == old(queue)[1..] + [buf] && started == old(started) + Starts(old(queue)[0])))
    }

    /** `playAudioData`: the buffer joins the tail of the queue; the consumer runs only when idle. */
    method PlayAudioData(buf: AudioBuffer)
      requires PlaybackInOrder()
      modifies this`queue, this`isPlaying, this`started, this`arrived, this`taken
      ensures PlaybackInOrder() && Pushed(buf)
    {
      queue := queue + [buf];
      arrived := arrived + [buf];
      assert taken + queue == arrived;
      if !isPlaying {
        PlayNextInQueue();
      }
    }

    /**
     * `onmessage`: audio is decoded and queued for playback (an odd byte count throws
     * before anything changes), text is appended to the transcript, chat lines to the
     * chat log, the watcher flag follows `started`/`stopped`, and any other tag changes
     * nothing.
     */
    method OnMessage(msg: InMsg)
      requires PlaybackInOrder()
      modifies this`view, this`queue, this`isPlaying, this`started, this`arrived, this`taken
      ensures PlaybackInOrder()
      ensures msg.AudioIn? && |msg.pcm| % 2 == 0 ==>
        Pushed(Utils.UnitSamples(Utils.Int16View(msg.pcm).value))
      ensures !(msg.AudioIn? && |msg.pcm| % 2 == 0) ==>
        && queue == old(queue) && isPlaying == old(isPlaying) && started == old(started)
        && arrived == old(arrived) && taken == old(taken)
      ensures view == old(view).(
        text := if msg.TextIn? && TextFragment(msg.text, msg.data).Some?
                then old(view.text) + TextFragment(msg.text, msg.data).value + "\n"
                else old(view.text),
        ytChatLog := if msg.YtChat? then old(view.ytChatLog) + [ChatLine(msg.user, msg.message)]
                     else if msg.YtChatSkipped? then old(view.ytChatLog) + [SkippedLine]
                     else old(view.ytChatLog),
        ytChatEnabled := if msg.YtChatStatus? && msg.status == "started" then true
                         else if msg.YtChatStatus? && msg.status == "stopped" then false
                         else old(view.ytChatEnabled))
      ensures msg.Other? ==> unchanged(this)
    {
      match msg
      case AudioIn(pcm) =>
        var audioData := Utils.Base64ToFloat32Array(pcm);
        if audioData.Success? {
          assert audioData.value[..] == Utils.UnitSamples(Utils.Int16View(pcm).value);
          PlayAudioData(audioData.value[..]);
        }
      case TextIn(t, d) =>
        var incoming := TextFragment(t, d);
        if incoming.Some? {
          view := view.(text := view.text + incoming.value + "\n");
        }
      case YtChat(user, message) =>
        view := view.(ytChatLog := view.ytChatLog + [ChatLine(user, message)]);
      case YtChatStatus(status) =>
        if status == "started" {
          view := view.(ytChatEnabled := true);
        }
        if status == "stopped" {
          view := view.(ytChatEnabled := false);
        }
      case YtChatSkipped =>
        view := view.(ytChatLog := view.ytChatLog + [SkippedLine]);
      case Other(_) =>
    }

    /**
     * `toggleVideo`: flips the video flag and, on a held socket, announces the new mode:
     * the video source (camera when none is set) when turning video on, audio when
     * turning it off.
     */
    method ToggleVideo()
      requires Valid()
      modifies this`view, this`sent
      ensures Valid()
      ensures view == old(view).(videoEnabled := !old(view.videoEnabled))
      ensures sent == old(sent) +
        if !IsOpen() then []
        else if old(view.videoEnabled) then [ModeMsg(AudioMode)]
        else if view.videoSource.Some? then [ModeMsg(SourceMode(view.videoSource.value))]
        else [ModeMsg(CameraMode)]
    {
      var wasEnabled := view.videoEnabled;
      view := view.(videoEnabled := !wasEnabled);
      if socket.Some? {
        var mode := if !wasEnabled then (match view.videoSource case Some(s) => SourceMode(s) case None => CameraMode)
                    else AudioMode;
        Transmit(ModeMsg(mode));
      }
    }

    /**
     * `stopVideo`: video off, back to audio mode, video handles released. On a socket
     * still connecting, `send` throws before the handles are released.
     */
    method StopVideo()
      requires Valid()
      modifies this`view, this`sent, this`media
      ensures Valid()
      ensures view == old(view).(videoEnabled := false, videoSource := None)
      ensures media == if SendThrows() then old(media) else old(media).(videoStream := false, videoInterval := false)
      ensures sent == old(sent) + if IsOpen() then [ModeMsg(AudioMode)] else []
    {
      view := view.(videoEnabled := false, videoSource := None);
      if socket.Some? {
        if SendThrows() {
          return;
        }
        Transmit(ModeMsg(AudioMode));
      }
      // A handle is released if held; either way none is held afterwards.
      media := media.(videoStream := false, videoInterval := false);
    }

    /**
     * The video effect acquired its source (if the source yielded a stream) and started the
     * one-second frame timer. The effect acts only while the `<video>` element exists,
     * which is rendered in video chat mode only, and a stream is requested only for a set
     * source.
     */
    method VideoCaptureStarted(gotStream: bool)
      requires view.videoEnabled && view.chatMode == Some(VideoChat)
      requires gotStream ==> view.videoSource.Some?
      modifies this`media
      ensures media == old(media).(videoStream := old(media.videoStream) || gotStream, videoInterval := true)
    {
      if gotStream {
        media := media.(videoStream := true);
      }
      media := media.(videoInterval := true);
    }

    /** The video effect's cleanup, run when `videoEnabled` or `videoSource` changes: stream and timer released. */
    method VideoEffectCleanup()
      modifies this`media
      ensures media == old(media).(videoStream := false, videoInterval := false)
    {
      media := media.(videoStream := false, videoInterval := false);
    }

    /**
     * `startYouTubeChat` with the text field's contents: nothing happens unless the socket
     * is open; an input that yields no video ID only sets the error; otherwise the chat
     * log is cleared and exactly one `yt_chat_start` frame carries the extracted ID.
     */
    method StartYouTubeChat(input: string)
      requires Valid()
      modifies this`view, this`sent
      ensures Valid()
      ensures !IsOpen() ==> view == old(view) && sent == old(sent)
      ensures IsOpen() && YouTube.ExtractVideoId(input).None? ==>
        view == old(view).(error := Some(InvalidVideoIdError)) && sent == old(sent)
      ensures IsOpen() && YouTube.ExtractVideoId(input).Some? ==>
        && view == old(view).(ytChatLog := [])
        && sent == old(sent) + [YtChatStart(YouTube.ExtractVideoId(input).value)]
    {
      if !IsOpen() {
        return;
      }
      var id := YouTube.ExtractVideoId(input);
      if id.None? {
        view := view.(error := Some(InvalidVideoIdError));
        return;
      }
      view := view.(ytChatLog := []);
      Transmit(YtChatStart(id.value));
    }

    /** `stopYouTubeChat`: one `yt_chat_stop` frame, only on an open socket. */
    method StopYouTubeChat()
      requires Valid()
      modifies this`sent
      ensures Valid()
      ensures sent == old(sent) + if IsOpen() then [YtChatStop] else []
    {
      if !IsOpen() {
        return;
      }
      Transmit(YtChatStop);
    }
  }

  /**
   * Non-empty buffers A, B, C arrive while idle and D arrives while B plays: they are
   * started in the order A, B, C, D, each after the previous one ended.
   */
  method PlaybackOrderExample(a: AudioBuffer, b: AudioBuffer, c: AudioBuffer, d: AudioBuffer)
    returns (order: seq<AudioBuffer>)
    requires a != [] && b != [] && c != [] && d != []
    ensures order == [a, b, c, d]
  {
    var s := new Session();
    s.StartAudioStream(None);  // as `onopen` does
    ArriveWhileIdle(s, a, b);
    ArriveThenEnd(s, c);  // C arrives, A ends
    assert s.queue == [c] && s.started == [a, b];
    ArriveThenEnd(s, d);  // D arrives, B ends
    assert s.queue == [d] && s.started == [a, b, c];
    s.PlayNextInQueue();  // C ended
    order := s.started;
  }

  /** A and B arrive at an idle session holding a context: A starts and B waits. */
  method ArriveWhileIdle(s: Session, a: AudioBuffer, b: AudioBuffer)
    requires s.PlaybackInOrder() && s.media.audioContext && !s.isPlaying && s.queue == [] && s.started == []
    requires a != []
    modifies s`queue, s`isPlaying, s`started, s`arrived, s`taken
    ensures s.PlaybackInOrder() && s.isPlaying && s.queue == [b] && s.started == [a]
  {
    s.PlayAudioData(a);
    assert s.isPlaying && s.queue == [] && s.started == [a];
    s.PlayAudioData(b);
  }

  /**
   * While the last buffer started plays and one non-empty buffer H waits, X arrives and
   * waits behind H; then the playing buffer ends and H starts.
   */
  method ArriveThenEnd(s: Session, x: AudioBuffer)
    requires s.PlaybackInOrder() && s.media.audioContext && s.isPlaying && |s.queue| == 1 && s.queue[0] != []
    modifies s`queue, s`isPlaying, s`started, s`arrived, s`taken
    ensures s.PlaybackInOrder() && s.isPlaying && s.queue == [x] && s.started == old(s.started) + old(s.queue)
  {
    s.PlayAudioData(x);
    assert s.queue == old(s.queue) + [x];
    s.PlayNextInQueue();
  }

  /**
   * An audio message with no samples arriving while idle stalls playback: it is taken
   * off the queue without starting, the playing flag stays up, and a buffer arriving
   * later only waits in the queue.
   */
  method StalledPlaybackExample(config: Config, b: AudioBuffer)
    returns (order: seq<AudioBuffer>, waiting: seq<AudioBuffer>, playing: bool)
    ensures order == [] && waiting == [b] && playing
  {
    var s := new Session();
    s.StartStream(AudioMode, config);
    s.OnOpen(None);
    s.OnMessage(AudioIn([]));
    s.PlayAudioData(b);
    order, waiting, playing := s.started, s.queue, s.isPlaying;
  }

  /**
   * A session opened in any mode sends exactly `config` then `mode`; an invalid video ID
   * is rejected without a frame; stopping twice leaves everything released.
   */
  method SessionLifecycleExample(config: Config, mode: StreamMode)
    returns (frames: seq<OutMsg>, error: Option<string>, tornDown: bool)
    ensures frames == [ConfigMsg(config), ModeMsg(mode)]
    ensures error == Some(InvalidVideoIdError)
    ensures tornDown
  {
    var s := new Session();
    s.StartStream(mode, config);
    s.OnOpen(None);
    YouTube.InvalidExample();
    s.StartYouTubeChat("not-a-valid-id!");
    frames, error := s.sent, s.view.error;
    s.StopStream();
    s.StopStream();
    tornDown := s.TornDown();
  }
}
