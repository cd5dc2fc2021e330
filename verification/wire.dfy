/**
 * The JSON messages exchanged over the playground's WebSocket, one constructor per
 * `type` tag. Base64 text fields are given as the bytes they encode.
 */
module Wire {
  import opened Wrappers
  import Utils

  /** The `config` object sent when the socket opens. */
  datatype Config = Config(systemPrompt: string, voice: string, googleSearch: bool, allowInterruptions: bool)

  /** The argument of `startStream`, and the `mode` field of a `mode` message. */
  datatype StreamMode = AudioMode | CameraMode | ScreenMode

  /** The `videoSource` state. */
  datatype VideoSource = Camera | Screen

  /** The stream mode that names a video source. */
  function SourceMode(source: VideoSource): (m: StreamMode)
    ensures m != AudioMode
  {
    match source
    case Camera => CameraMode
    case Screen => ScreenMode
  }

  /** Frames the client sends. */
  datatype OutMsg =
    | ConfigMsg(config: Config)
    | ModeMsg(mode: StreamMode)
    | AudioFrame(pcm: seq<Utils.byte>)
    | UserActivity(speaking: bool)
    | YtChatStart(videoId: string)
    | YtChatStop

  /** Frames the client receives, after `JSON.parse`. A `None` field is null or missing. */
  datatype InMsg =
    | AudioIn(pcm: seq<Utils.byte>)
    | TextIn(text: Option<string>, data: Option<string>)
    | YtChat(user: string, message: string)
    | YtChatStatus(status: string)
    | YtChatSkipped
    | Other(tag: string)

  /**
   * The transcript fragment of a `text` message: `response.text ?? response.data`, kept
   * only if truthy. The `data` field is consulted only when `text` is null or missing,
   * so an empty `text` hides a non-empty `data`.
   */
  function TextFragment(text: Option<string>, data: Option<string>): (r: Option<string>)
    ensures r.Some? ==> r.value != ""
    ensures text.Some? ==> r == (if text.value != "" then text else None)
    ensures text.None? ==> r == (if data.Some? && data.value != "" then data else None)
  {
    var incoming := if text.Some? then text else data;
    if incoming.Some? && incoming.value != "" then incoming else None
  }
}
