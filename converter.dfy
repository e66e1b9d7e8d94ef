/**
 * The media-conversion commands of plugins/tool-converter.js:
 * `converter` (sticker to image), `tomp3` (video/audio to audio) and
 * `toptt` (video/audio to a voice note).
 *
 * A handler is modelled as a function from its inputs to the trace of what
 * it does: the messages it sends and the external calls it makes, in order.
 * The messaging client, `quoted.download()` and the codec collaborators are
 * not modelled; their outcomes are parameters (`download` is what the
 * download produced or the message it threw, `convert` maps the buffer it
 * is given to the converted buffer or a thrown message).
 */
module ToolConverter {
  import opened Common
  import opened Strings

  type Buffer = seq<bv8>

  /** The quoted message: its `mtype` tag and its `seconds`, when present. */
  datatype Quoted = Quoted(mtype: string, seconds: Option<int>)

  /** A payload handed to `client.sendMessage`. */
  datatype Message =
    | Text(text: string, footer: Option<string>)
    | Image(image: Buffer, caption: string, mimetype: string)
    | Audio(audio: Buffer, mimetype: string, ptt: bool)

  /** The two audio collaborators, `converter.toAudio` and `converter.toPTT`. */
  datatype MediaTool = ToAudio | ToPtt

  /** One observable step of a handler. */
  datatype Event =
    | Send(msg: Message)
    | Download
    | ConvertSticker(input: Buffer)
    | ConvertMedia(tool: MediaTool, input: Buffer, ext: string)

  /** The messages sent, in order. */
  function Replies(t: seq<Event>): seq<Message>
  {
    if t == [] then []
    else (if t[0].Send? then [t[0].msg] else []) + Replies(t[1..])
  }

  /** The external calls made (downloads and conversions), in order. */
  function Calls(t: seq<Event>): seq<Event>
  {
    if t == [] then []
    else (if t[0].Send? then [] else [t[0]]) + Calls(t[1..])
  }

  lemma {:induction false} TraceAppend(a: seq<Event>, b: seq<Event>)
    ensures Replies(a + b) == Replies(a) + Replies(b)
    ensures Calls(a + b) == Calls(a) + Calls(b)
    decreases |a|
  {
    if a == [] {
      assert a + b == b;
    } else {
      assert (a + b)[0] == a[0];
      assert (a + b)[1..] == a[1..] + b;
      TraceAppend(a[1..], b);
      var r0 := if a[0].Send? then [a[0].msg] else [];
      var c0 := if a[0].Send? then [] else [a[0]];
      calc {
        Replies(a + b);
        r0 + Replies(a[1..] + b);
        r0 + (Replies(a[1..]) + Replies(b));
        (r0 + Replies(a[1..])) + Replies(b);
      }
      calc {
        Calls(a + b);
        c0 + Calls(a[1..] + b);
        c0 + (Calls(a[1..]) + Calls(b));
        (c0 + Calls(a[1..])) + Calls(b);
      }
    }
  }

  /** Where a chain of input guards leaves a request. */
  datatype Verdict = Guidance | WrongType | TooLong | Proceed

  // ---------------------------------------------------------------------------
  // converter: sticker to image
  // ---------------------------------------------------------------------------

  const MAX_STICKER_BYTES: nat := 10 * 1024 * 1024

  const STICKER_GUIDANCE := Text(
    "✨ *Sticker Converter*\n\nPlease reply to a sticker message\n\nExample: `.converter` (reply to sticker)",
    Some("Supported formats: WhatsApp stickers (.webp)"))
  const STICKER_WRONG_TYPE := Text(
    "❌ Only sticker messages can be converted\n\nPlease reply to a sticker message",
    Some("Try sending or replying with a sticker first"))
  const STICKER_PROCESSING := Text(
    "⏳ Converting sticker to image...",
    Some("This may take a moment for animated stickers"))
  const STICKER_CAPTION := "✅ Sticker converted successfully!"
  /** The message of the error thrown for an oversize sticker. */
  const STICKER_TOO_LARGE_ERROR := "Sticker file is too large (max 10MB)"
  const STICKER_FAILURE_BASE := "❌ Failed to convert sticker"
  const STICKER_FAILURE_FOOTER := "Please try with a different sticker"

  /** The guards of `converter`: a quoted message, of sticker type. */
  function StickerGate(quoted: Option<Quoted>): (v: Verdict)
    ensures v != TooLong
    ensures v == Proceed <==> quoted.Some? && quoted.value.mtype == "stickerMessage"
  {
    if quoted.None? then Guidance
    else if quoted.value.mtype != "stickerMessage" then WrongType
    else Proceed
  }

  /** The refinement appended to a failed conversion's reply. */
  datatype Hint = NoHint | MissingFfmpeg | Corrupted | TooLargeSticker

  /** Substring classification of a thrown message, first match wins. */
  function ClassifyStickerError(message: string): Hint
  {
    if Contains(message, "FFmpeg is not installed") then MissingFfmpeg
    else if Contains(message, "file too small") then Corrupted
    else if Contains(message, "too large") then TooLargeSticker
    else NoHint
  }

  function HintText(h: Hint): string
  {
    match h
    case NoHint => ""
    case MissingFfmpeg => "\n\nServer is missing FFmpeg installation"
    case Corrupted => "\n\nThe sticker file appears corrupted"
    case TooLargeSticker => "\n\nSticker is too large (max 10MB)"
  }

  /** The text of the failure reply for a thrown `message`. */
  function StickerFailureText(message: string): string
  {
    STICKER_FAILURE_BASE + HintText(ClassifyStickerError(message))
  }

  function StickerFailure(message: string): Message
  {
    Text(StickerFailureText(message), Some(STICKER_FAILURE_FOOTER))
  }

  /** The catch block's construction of `errorMessage`, one `+=` at most. */
  method ComposeStickerError(message: string) returns (errorMessage: string)
    ensures errorMessage == StickerFailureText(message)
  {
    errorMessage := STICKER_FAILURE_BASE;
    if Contains(message, "FFmpeg is not installed") {
      errorMessage := errorMessage + "\n\nServer is missing FFmpeg installation";
    } else if Contains(message, "file too small") {
      errorMessage := errorMessage + "\n\nThe sticker file appears corrupted";
    } else if Contains(message, "too large") {
      errorMessage := errorMessage + "\n\nSticker is too large (max 10MB)";
    }
  }

  /** What happens inside the `try` block once the download has been attempted. */
  function StickerAfterDownload(download: Result<Buffer>, convert: Buffer -> Result<Buffer>): seq<Event>
  {
    match download
    case Failure(e) => [Send(StickerFailure(e))]
    case Success(sticker) =>
      if |sticker| > MAX_STICKER_BYTES then [Send(StickerFailure(STICKER_TOO_LARGE_ERROR))]
      else
        [ConvertSticker(sticker)] +
        match convert(sticker)
        case Success(image) => [Send(Image(image, STICKER_CAPTION, "image/png"))]
        case Failure(e) => [Send(StickerFailure(e))]
  }

  /** The `converter` handler. */
  function StickerRun(quoted: Option<Quoted>, download: Result<Buffer>, convert: Buffer -> Result<Buffer>): (t: seq<Event>)
    ensures 1 <= |t| && t[0].Send?
    ensures StickerGate(quoted) == Proceed <==> |t| > 1
  {
    match StickerGate(quoted)
    case Guidance => [Send(STICKER_GUIDANCE)]
    case WrongType => [Send(STICKER_WRONG_TYPE)]
    case _ => [Send(STICKER_PROCESSING), Download] + StickerAfterDownload(download, convert)
  }

  // ---------------------------------------------------------------------------
  // tomp3 and toptt: video/audio to audio
  // ---------------------------------------------------------------------------

  /** The constants that tell `tomp3` and `toptt` apart; their code is otherwise the same. */
  datatype MediaCommand = MediaCommand(
    tool: MediaTool,
    maxSeconds: int,
    promptText: string,
    tooLongText: string,
    processingText: string,
    failureText: string,
    mimetype: string,
    ptt: bool)

  const TOMP3 := MediaCommand(
    ToAudio, 300,
    "*🔊 Please reply to a video/audio message*",
    "⏱️ Media too long (max 5 minutes)",
    "🔄 Converting to audio...",
    "❌ Failed to process audio",
    "audio/mpeg", false)

  const TOPTT := MediaCommand(
    ToPtt, 60,
    "*🗣️ Please reply to a video/audio message*",
    "⏱️ Media too long for voice (max 1 minute)",
    "🔄 Converting to voice message...",
    "❌ Failed to create voice message",
    "audio/ogg; codecs=opus", true)

  const MEDIA_WRONG_TYPE_TEXT := "❌ Only video/audio messages can be converted"

  predicate IsMediaType(mtype: string)
  {
    mtype == "videoMessage" || mtype == "audioMessage"
  }

  /**
   * `quoted.seconds > limit`; a missing `seconds` compares as `undefined`,
   * which is never greater.
   */
  predicate TooLongFor(cmd: MediaCommand, seconds: Option<int>)
  {
    seconds.Some? && seconds.value > cmd.maxSeconds
  }

  /** The guards of `tomp3`/`toptt`, in source order. */
  function MediaGate(cmd: MediaCommand, quoted: Option<Quoted>): (v: Verdict)
    ensures v == TooLong ==> quoted.Some? && quoted.value.seconds.Some? && quoted.value.seconds.value > cmd.maxSeconds
  {
    if quoted.None? then Guidance
    else if !IsMediaType(quoted.value.mtype) then WrongType
    else if TooLongFor(cmd, quoted.value.seconds) then TooLong
    else Proceed
  }

  /** The extension the converter is told the source has. */
  function SourceExt(mtype: string): (ext: string)
    ensures ext == "mp4" || ext == "m4a"
    ensures ext == "mp4" <==> mtype == "videoMessage"
  {
    if mtype == "videoMessage" then "mp4" else "m4a"
  }

  function MediaAfterDownload(cmd: MediaCommand, mtype: string, download: Result<Buffer>,
                              convert: (Buffer, string) -> Result<Buffer>): seq<Event>
  {
    match download
    case Failure(_) => [Send(Text(cmd.failureText, None))]
    case Success(buffer) =>
      var ext := SourceExt(mtype);
      [ConvertMedia(cmd.tool, buffer, ext)] +
      match convert(buffer, ext)
      case Success(audio) => [Send(Audio(audio, cmd.mimetype, cmd.ptt))]
      case Failure(_) => [Send(Text(cmd.failureText, None))]
  }

  /** The `tomp3` (cmd == TOMP3) or `toptt` (cmd == TOPTT) handler. */
  function MediaRun(cmd: MediaCommand, quoted: Option<Quoted>, download: Result<Buffer>,
                    convert: (Buffer, string) -> Result<Buffer>): (t: seq<Event>)
    ensures 1 <= |t| && t[0].Send?
    ensures MediaGate(cmd, quoted) == Proceed <==> |t| > 1
  {
    match MediaGate(cmd, quoted)
    case Guidance => [Send(Text(cmd.promptText, None))]
    case WrongType => [Send(Text(MEDIA_WRONG_TYPE_TEXT, None))]
    case TooLong => [Send(Text(cmd.tooLongText, None))]
    case Proceed =>
      [Send(Text(cmd.processingText, None)), Download] +
      MediaAfterDownload(cmd, quoted.value.mtype, download, convert)
  }

  // ---------------------------------------------------------------------------
  // Properties of `converter`
  // ---------------------------------------------------------------------------

  /**
   * Without a quoted message the guidance text is the only reply; a quoted
   * message that is not a sticker gets the wrong-type reply only. Neither
   * downloads nor converts anything.
   */
  lemma StickerGuardsStop(quoted: Option<Quoted>, download: Result<Buffer>, convert: Buffer -> Result<Buffer>)
    ensures var t := StickerRun(quoted, download, convert);
      && (quoted.None? ==> Replies(t) == [STICKER_GUIDANCE] && Calls(t) == [])
      && (quoted.Some? && quoted.value.mtype != "stickerMessage" ==>
            Replies(t) == [STICKER_WRONG_TYPE] && Calls(t) == [])
  {
  }

  /**
   * Past the guards, the processing message is sent first and exactly one
   * further reply follows: the image when the download succeeded, the
   * buffer was within the limit and the converter succeeded, and otherwise
   * one failure reply.
   */
  lemma StickerProceedReplies(quoted: Option<Quoted>, download: Result<Buffer>, convert: Buffer -> Result<Buffer>)
    requires StickerGate(quoted) == Proceed
    ensures var r := Replies(StickerRun(quoted, download, convert));
      && |r| == 2 && r[0] == STICKER_PROCESSING
      && (r[1].Image? <==>
            download.Success? && |download.value| <= MAX_STICKER_BYTES && convert(download.value).Success?)
      && (!r[1].Image? ==> exists e :: r[1] == StickerFailure(e))
      && (download.Success? && |download.value| <= MAX_STICKER_BYTES && convert(download.value).Success? ==>
            r[1] == Image(convert(download.value).value, STICKER_CAPTION, "image/png"))
      && (download.Success? && |download.value| <= MAX_STICKER_BYTES && convert(download.value).Failure? ==>
            r[1] == StickerFailure(convert(download.value).message))
      && (download.Failure? ==> r[1] == StickerFailure(download.message))
      && (download.Success? && |download.value| > MAX_STICKER_BYTES ==> r[1] == StickerFailure(STICKER_TOO_LARGE_ERROR))
  {
    var tail := StickerAfterDownload(download, convert);
    TraceAppend([Send(STICKER_PROCESSING), Download], tail);
    if download.Success? && |download.value| <= MAX_STICKER_BYTES {
      var c := convert(download.value);
      var last := if c.Success? then [Send(Image(c.value, STICKER_CAPTION, "image/png"))]
                  else [Send(StickerFailure(c.message))];
      TraceAppend([ConvertSticker(download.value)], last);
    }
  }

  /**
   * Past the guards, the sticker is always downloaded, and a downloaded
   * sticker of at most 10 MiB is always handed to the converter.
   */
  lemma StickerProceedCalls(quoted: Option<Quoted>, download: Result<Buffer>, convert: Buffer -> Result<Buffer>)
    requires StickerGate(quoted) == Proceed
    ensures Calls(StickerRun(quoted, download, convert)) ==
              [Download] + (if download.Success? && |download.value| <= MAX_STICKER_BYTES
                            then [ConvertSticker(download.value)] else [])
  {
    var tail := StickerAfterDownload(download, convert);
    TraceAppend([Send(STICKER_PROCESSING), Download], tail);
    if download.Success? && |download.value| <= MAX_STICKER_BYTES {
      var c := convert(download.value);
      var last := if c.Success? then [Send(Image(c.value, STICKER_CAPTION, "image/png"))]
                  else [Send(StickerFailure(c.message))];
      TraceAppend([ConvertSticker(download.value)], last);
    }
  }

  /**
   * A buffer reaches the sticker converter only when it is the downloaded
   * buffer of a quoted sticker and is at most 10 MiB long.
   */
  lemma StickerConvertsWithinLimit(quoted: Option<Quoted>, download: Result<Buffer>,
                                   convert: Buffer -> Result<Buffer>, input: Buffer)
    requires ConvertSticker(input) in StickerRun(quoted, download, convert)
    ensures StickerGate(quoted) == Proceed
    ensures download == Success(input) && |input| <= MAX_STICKER_BYTES
  {
  }

  /** A sticker of exactly 10485760 bytes is still handed to the converter. */
  lemma StickerLimitInclusive(quoted: Option<Quoted>, sticker: Buffer, convert: Buffer -> Result<Buffer>)
    requires StickerGate(quoted) == Proceed && |sticker| == 10485760
    ensures ConvertSticker(sticker) in StickerRun(quoted, Success(sticker), convert)
  {
  }

  /**
   * The hints are tried in a fixed order and at most one is appended: a
   * message mentioning FFmpeg wins over everything, "file too small" over
   * "too large".
   */
  lemma HintPriority(message: string)
    ensures ClassifyStickerError(message) == MissingFfmpeg <==> Contains(message, "FFmpeg is not installed")
    ensures ClassifyStickerError(message) == Corrupted <==>
              !Contains(message, "FFmpeg is not installed") && Contains(message, "file too small")
    ensures ClassifyStickerError(message) == TooLargeSticker <==>
              !Contains(message, "FFmpeg is not installed") && !Contains(message, "file too small")
              && Contains(message, "too large")
    ensures ClassifyStickerError(message) == NoHint <==>
              !Contains(message, "FFmpeg is not installed") && !Contains(message, "file too small")
              && !Contains(message, "too large")
    ensures StickerFailureText(message)[..|STICKER_FAILURE_BASE|] == STICKER_FAILURE_BASE
  {
  }

  /** The error thrown for an oversize sticker is classified as too large. */
  lemma TooLargeErrorClassified()
    ensures ClassifyStickerError(STICKER_TOO_LARGE_ERROR) == TooLargeSticker
    ensures StickerFailure(STICKER_TOO_LARGE_ERROR) ==
              Text(STICKER_FAILURE_BASE + "\n\nSticker is too large (max 10MB)", Some(STICKER_FAILURE_FOOTER))
  {
    NoFfmpegInSizeError();
    NoSmallInSizeError();
    LargeInSizeError();
  }

  lemma NoFfmpegInSizeError()
    ensures !Contains(STICKER_TOO_LARGE_ERROR, "FFmpeg is not installed")
  {
    assert 'F' !in STICKER_TOO_LARGE_ERROR;
    FirstCharAbsent(STICKER_TOO_LARGE_ERROR, "FFmpeg is not installed");
  }

  lemma NoSmallInSizeError()
    ensures !Contains(STICKER_TOO_LARGE_ERROR, "file too small")
  {
    NoSmallIn(STICKER_TOO_LARGE_ERROR, "file too small");
  }

  /**
   * The one `f` of the size error starts "file is", not "file too".
   * This lemma and the three below take the literal as a parameter fixed by
   * `requires`, which keeps the solver from unfolding it at every use.
   */
  lemma NoSmallIn(s: string, sub: string)
    requires s == STICKER_TOO_LARGE_ERROR && sub == "file too small"
    ensures !Contains(s, sub)
  {
    NoFBeforeFile(s);
    NoFAfterFile(s);
    assert !(sub <= s[8..]) by { assert s[8..][5] != sub[5]; }
    OnlyCandidateFails(s, sub, 8);
  }

  lemma NoFBeforeFile(s: string)
    requires s == STICKER_TOO_LARGE_ERROR
    ensures |s| > 8 && 'f' !in s[..8]
  {
    assert s[..8] == "Sticker ";
  }

  lemma NoFAfterFile(s: string)
    requires s == STICKER_TOO_LARGE_ERROR
    ensures |s| > 8 && 'f' !in s[9..]
  {
    assert s[9..] == s[9..20] + s[20..];
    NoFIn(s[9..20], "ile is too ");
    NoFIn(s[20..], "large (max 10MB)");
  }

  lemma NoFIn(s: string, piece: string)
    requires s == piece && (piece == "ile is too " || piece == "large (max 10MB)")
    ensures 'f' !in s
  {
  }

  lemma LargeInSizeError()
    ensures Contains(STICKER_TOO_LARGE_ERROR, "too large")
  {
    var s := STICKER_TOO_LARGE_ERROR;
    assert s[16..16 + 9] == "too large";
    assert OccursAt(s, "too large", 16);
  }

  /**
   * An oversize sticker is downloaded but never converted, and its failure
   * reply carries the too-large hint.
   */
  lemma OversizeStickerReply(quoted: Option<Quoted>, sticker: Buffer, convert: Buffer -> Result<Buffer>)
    requires StickerGate(quoted) == Proceed && |sticker| > MAX_STICKER_BYTES
    ensures var t := StickerRun(quoted, Success(sticker), convert);
      && Calls(t) == [Download]
      && Replies(t) == [STICKER_PROCESSING,
                        Text(STICKER_FAILURE_BASE + "\n\nSticker is too large (max 10MB)", Some(STICKER_FAILURE_FOOTER))]
  {
    var failure := StickerFailure(STICKER_TOO_LARGE_ERROR);
    TooLargeErrorClassified();
    var t := StickerRun(quoted, Success(sticker), convert);
    assert t == [Send(STICKER_PROCESSING), Download] + [Send(failure)];
    TraceAppend([Send(STICKER_PROCESSING), Download], [Send(failure)]);
  }

  // ---------------------------------------------------------------------------
  // Properties of `tomp3` and `toptt`
  // ---------------------------------------------------------------------------

  /**
   * The guards fire in order (no quoted message, then a type other than
   * video or audio, then a duration over the limit), and a request passes
   * exactly when none fires; a duration equal to the limit passes.
   */
  lemma MediaGateOrder(cmd: MediaCommand, quoted: Option<Quoted>)
    ensures MediaGate(cmd, quoted) == Guidance <==> quoted.None?
    ensures MediaGate(cmd, quoted) == WrongType <==> quoted.Some? && !IsMediaType(quoted.value.mtype)
    ensures MediaGate(cmd, quoted) == TooLong <==>
              quoted.Some? && IsMediaType(quoted.value.mtype)
              && quoted.value.seconds.Some? && quoted.value.seconds.value > cmd.maxSeconds
    ensures MediaGate(cmd, quoted) == Proceed <==>
              quoted.Some? && IsMediaType(quoted.value.mtype)
              && (quoted.value.seconds.None? || quoted.value.seconds.value <= cmd.maxSeconds)
  {
  }

  /** `tomp3` rejects only durations over 300 seconds, `toptt` over 60. */
  lemma MediaLimits(mtype: string, seconds: int)
    requires IsMediaType(mtype)
    ensures MediaGate(TOMP3, Some(Quoted(mtype, Some(seconds)))) == TooLong <==> seconds > 300
    ensures MediaGate(TOPTT, Some(Quoted(mtype, Some(seconds)))) == TooLong <==> seconds > 60
  {
  }

  /** A guard that fires sends exactly its own reply and makes no call. */
  lemma MediaGuardsStop(cmd: MediaCommand, quoted: Option<Quoted>, download: Result<Buffer>,
                        convert: (Buffer, string) -> Result<Buffer>)
    requires MediaGate(cmd, quoted) != Proceed
    ensures var t := MediaRun(cmd, quoted, download, convert);
      && Calls(t) == []
      && Replies(t) == [Text(match MediaGate(cmd, quoted)
                             case Guidance => cmd.promptText
                             case WrongType => MEDIA_WRONG_TYPE_TEXT
                             case _ => cmd.tooLongText, None)]
  {
  }

  /**
   * Past the guards, the processing message is sent first and exactly one
   * further reply follows: the converted audio, with the command's mimetype
   * and voice-note flag, when download and conversion succeed, and the
   * command's failure text otherwise.
   */
  lemma MediaProceedReplies(cmd: MediaCommand, quoted: Option<Quoted>, download: Result<Buffer>,
                            convert: (Buffer, string) -> Result<Buffer>)
    requires MediaGate(cmd, quoted) == Proceed
    ensures var r := Replies(MediaRun(cmd, quoted, download, convert));
      && |r| == 2 && r[0] == Text(cmd.processingText, None)
      && (r[1].Audio? <==> download.Success? && convert(download.value, SourceExt(quoted.value.mtype)).Success?)
      && (r[1].Audio? ==> r[1].mimetype == cmd.mimetype && r[1].ptt == cmd.ptt)
      && (download.Success? && convert(download.value, SourceExt(quoted.value.mtype)).Success? ==>
            r[1] == Audio(convert(download.value, SourceExt(quoted.value.mtype)).value, cmd.mimetype, cmd.ptt))
      && (!r[1].Audio? ==> r[1] == Text(cmd.failureText, None))
  {
    var mtype := quoted.value.mtype;
    TraceAppend([Send(Text(cmd.processingText, None)), Download], MediaAfterDownload(cmd, mtype, download, convert));
    if download.Success? {
      var ext := SourceExt(mtype);
      var c := convert(download.value, ext);
      var last := if c.Success? then [Send(Audio(c.value, cmd.mimetype, cmd.ptt))]
                  else [Send(Text(cmd.failureText, None))];
      TraceAppend([ConvertMedia(cmd.tool, download.value, ext)], last);
    }
  }

  /**
   * Past the guards, the media is always downloaded, and a successful
   * download is always converted with the command's tool and the source
   * extension.
   */
  lemma MediaProceedCalls(cmd: MediaCommand, quoted: Option<Quoted>, download: Result<Buffer>,
                          convert: (Buffer, string) -> Result<Buffer>)
    requires MediaGate(cmd, quoted) == Proceed
    ensures Calls(MediaRun(cmd, quoted, download, convert)) ==
              [Download] + (if download.Success?
                            then [ConvertMedia(cmd.tool, download.value, SourceExt(quoted.value.mtype))] else [])
  {
    var mtype := quoted.value.mtype;
    TraceAppend([Send(Text(cmd.processingText, None)), Download], MediaAfterDownload(cmd, mtype, download, convert));
    if download.Success? {
      var ext := SourceExt(mtype);
      var c := convert(download.value, ext);
      var last := if c.Success? then [Send(Audio(c.value, cmd.mimetype, cmd.ptt))]
                  else [Send(Text(cmd.failureText, None))];
      TraceAppend([ConvertMedia(cmd.tool, download.value, ext)], last);
    }
  }

  /**
   * A conversion happens only past the guards, on the downloaded buffer,
   * with the command's own tool, and with `mp4` for a video and `m4a` for
   * an audio message.
   */
  lemma MediaConvertsOnlyPastGuards(cmd: MediaCommand, quoted: Option<Quoted>, download: Result<Buffer>,
                                    convert: (Buffer, string) -> Result<Buffer>,
                                    tool: MediaTool, input: Buffer, ext: string)
    requires ConvertMedia(tool, input, ext) in MediaRun(cmd, quoted, download, convert)
    ensures MediaGate(cmd, quoted) == Proceed
    ensures quoted.Some? && (quoted.value.seconds.None? || quoted.value.seconds.value <= cmd.maxSeconds)
    ensures tool == cmd.tool && download == Success(input)
    ensures ext == "mp4" <==> quoted.value.mtype == "videoMessage"
    ensures ext == "m4a" <==> quoted.value.mtype == "audioMessage"
  {
  }
}
