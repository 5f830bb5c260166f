/**
 * The capture screen (components/Scanner.tsx): the dimension rule of the
 * image normaliser and the capture controller's state cells. The camera, the
 * canvas encoder and the cover analysis are inputs: an acquisition outcome, an
 * encoding function from canvas size to data URL, and an analysis outcome.
 */
module Scanner {
  import opened Wrappers
  import opened Builtins
  import opened Types

  // ---------------------------------------------------------------- the dimension rule

  /** The longest side sent to the analysis service. */
  const MaxDimension: nat := 800

  datatype Size = Size(width: nat, height: nat)

  /** `Math.round(side * (MaxDimension / longer))`, exactly. */
  function Scaled(side: nat, longer: nat): nat
    requires longer > 0
  {
    RoundDivNonNegative(side * MaxDimension, longer);
    RoundDiv(side * MaxDimension, longer) as nat
  }

  /**
   * The canvas size `getResizedImage` draws at, or `None` when a side is zero
   * (the function then returns the empty string). The longer side is capped at
   * `MaxDimension`, the other side scaled by the same factor and rounded;
   * a square counts as portrait.
   */
  function Fit(width: nat, height: nat): Option<Size> {
    if width == 0 || height == 0 then None
    else if width > height then
      if width > MaxDimension then Some(Size(MaxDimension, Scaled(height, width)))
      else Some(Size(width, height))
    else
      if height > MaxDimension then Some(Size(Scaled(width, height), MaxDimension))
      else Some(Size(width, height))
  }

  /** A source is rejected exactly when one of its sides is zero. */
  lemma FitRejectsEmpty(width: nat, height: nat)
    ensures Fit(width, height).None? <==> width == 0 || height == 0
  {
  }

  /** Nothing is upscaled and neither output side exceeds `MaxDimension`. */
  lemma FitBounds(width: nat, height: nat)
    requires Fit(width, height).Some?
    ensures var s := Fit(width, height).value;
      s.width <= width && s.height <= height && s.width <= MaxDimension && s.height <= MaxDimension
  {
    if width > height && width > MaxDimension {
      assert height * MaxDimension <= height * width;
      RoundDivAtMost(height * MaxDimension, width, height);
      RoundDivAtMost(height * MaxDimension, width, MaxDimension);
    } else if width <= height && height > MaxDimension {
      assert width * MaxDimension <= width * height;
      RoundDivAtMost(width * MaxDimension, height, width);
      RoundDivAtMost(width * MaxDimension, height, MaxDimension);
    }
  }

  /** A source longer than `MaxDimension` on some side comes out with its longer side exactly `MaxDimension`, orientation kept. */
  lemma FitCapsLongerSide(width: nat, height: nat)
    requires width > 0 && height > 0 && (width > MaxDimension || height > MaxDimension)
    ensures var s := Fit(width, height).value;
      (width > height ==> s.width == MaxDimension && s.height <= s.width)
      && (width <= height ==> s.height == MaxDimension && s.width <= s.height)
  {
    FitBounds(width, height);
  }

  /** A source with both sides within `MaxDimension` passes through unchanged. */
  lemma FitKeepsSmall(width: nat, height: nat)
    requires 0 < width <= MaxDimension && 0 < height <= MaxDimension
    ensures Fit(width, height) == Some(Size(width, height))
  {
  }

  /**
   * The aspect ratio is kept up to rounding: the cross products differ by at
   * most half the longer source side.
   */
  lemma FitKeepsAspect(width: nat, height: nat)
    requires Fit(width, height).Some?
    ensures var s := Fit(width, height).value;
      -Max(width, height) <= 2 * (s.width * height - s.height * width) <= Max(width, height)
  {
    var s := Fit(width, height).value;
    if width > height && width > MaxDimension {
      var r := RoundDiv(height * MaxDimension, width);
      assert width * (2 * r - 1) == 2 * r * width - width;
      assert width * (2 * r + 1) == 2 * r * width + width;
      assert s.height * width == r * width;
    } else if width <= height && height > MaxDimension {
      var r := RoundDiv(width * MaxDimension, height);
      assert height * (2 * r - 1) == 2 * r * height - height;
      assert height * (2 * r + 1) == 2 * r * height + height;
      assert s.width * height == r * height;
    }
  }

  function Max(a: int, b: int): int { if a >= b then a else b }

  /** Normalising an already normalised size with no zero side changes nothing. */
  lemma FitIdempotent(width: nat, height: nat)
    requires Fit(width, height).Some?
    requires Fit(width, height).value.width > 0 && Fit(width, height).value.height > 0
    ensures var s := Fit(width, height).value; Fit(s.width, s.height) == Some(s)
  {
    FitBounds(width, height);
  }

  /** A 1600×1200 frame is drawn at 800×600. */
  lemma FitLandscapeExample()
    ensures Fit(1600, 1200) == Some(Size(800, 600))
  {
    assert Scaled(1200, 1600) == (2 * 1200 * 800 + 1600) / (2 * 1600);
  }

  /** A very thin source rounds its short side to zero. */
  lemma FitThinExample()
    ensures Fit(2000, 1) == Some(Size(800, 0))
  {
    assert Scaled(1, 2000) == (2 * 800 + 2000) / (2 * 2000);
  }

  // ---------------------------------------------------------------- the capture controller

  /** An acquired camera stream, named by a handle. */
  type MediaStream = nat

  /** What the video element reports at the moment of the shutter press. */
  datatype VideoFrame = VideoFrame(readyState: nat, videoWidth: nat, videoHeight: nat)

  /** The outcome of `getUserMedia`. */
  datatype Acquisition = Acquired(stream: MediaStream) | AcquisitionFailed

  /** What happens to a file chosen for upload: none chosen, never read, read but not decodable, decoded to an image. */
  datatype FileEvent = NoFile | NeverLoaded | DecodeFailed | Decoded(width: nat, height: nat)

  /** The outcome of the cover analysis call. */
  type Analysis = Result<ScannedData, string>

  /** The navigation state handed to the review screen. */
  datatype Handoff = Handoff(image: string, analysis: ScannedData)

  const CameraErrorMessage: string := "Không thể truy cập camera. Vui lòng cấp quyền hoặc tải ảnh lên."
  const CaptureFailedNotice: string := "Không thể chụp ảnh. Vui lòng thử lại hoặc tải ảnh lên."
  const ResizeFailedNotice: string := "Không thể xử lý ảnh này."
  const BadFileNotice: string := "File ảnh lỗi."
  const AnalysisFailedNotice: string := "Không thể phân tích sách. Hãy đảm bảo ảnh rõ nét và thử lại."

  /** The placeholder result returned when no service key is configured, whatever the image. */
  const PlaceholderTitle: string := "Tiêu đề sách"
  const PlaceholderAuthor: string := "Tác giả"
  const PlaceholderGenre: string := "Tiểu thuyết"
  const PlaceholderDescription: string := "Đây là mô tả mô phỏng bằng tiếng Việt vì không tìm thấy khóa API."
  const PlaceholderAnalysis: ScannedData := ScannedData(
    Some(PlaceholderTitle), Some(PlaceholderAuthor), Some(PlaceholderDescription), None, Some(PlaceholderGenre))

  /**
   * `analyzeBookCover`: without a key the call always succeeds with the fixed
   * placeholder (the service outcome is ignored); with a key the service's
   * outcome passes through, failures included.
   */
  function AnalyzeCover(hasKey: bool, service: Analysis): (r: Analysis)
    ensures !hasKey ==>
      && r.Success? && r.value.title == Some(PlaceholderTitle)
      && r.value.author == Some(PlaceholderAuthor) && r.value.genre == Some(PlaceholderGenre)
      && r.value.description == Some(PlaceholderDescription) && r.value.coverUrl.None?
    ensures hasKey ==> r == service
  {
    if hasKey then service else Success(PlaceholderAnalysis)
  }

  class CaptureSession {
    // The component's state cells.
    var isFlashOn: bool
    var isProcessing: bool
    var stream: Option<MediaStream>
    var cameraError: string
    // The hidden canvas and whether it yields a 2D context.
    var canvasWidth: nat
    var canvasHeight: nat
    const hasContext: bool
    // Effects outside the component: the review handoff, the alerts shown,
    // the streams whose tracks are running, the torch setting on the device.
    var handoff: Option<Handoff>
    var notices: seq<string>
    var live: set<MediaStream>
    var torch: bool
    /** `stream` as seen by the cleanup that the mount effect registers: the first render's value. */
    const firstRenderStream: Option<MediaStream>

    /** The held stream, if any, is running; the first render held none. */
    ghost predicate Valid()
      reads this
    {
      && (stream.Some? ==> stream.value in live)
      && firstRenderStream == None
    }

    /** The first render; `hasContext` says whether the canvas yields a 2D drawing context. */
    constructor (hasContext: bool)
      ensures Valid()
      ensures !isFlashOn && !isProcessing && stream == None && cameraError == ""
      ensures this.hasContext == hasContext && firstRenderStream == None
      ensures handoff == None && notices == [] && live == {} && !torch
    {
      this.hasContext := hasContext;
      isFlashOn, isProcessing, stream, cameraError := false, false, None, "";
      canvasWidth, canvasHeight := 0, 0;
      handoff, notices, live, torch := None, [], {}, false;
      firstRenderStream := None;
    }

    /** The video element is rendered, so `videoRef.current` is set, only while there is no camera error. */
    predicate VideoShown()
      reads this
    {
      cameraError == ""
    }

    /** The shutter button is disabled while processing and while a camera error is shown. */
    predicate ShutterEnabled()
      reads this
    {
      !isProcessing && cameraError == ""
    }

    /** `startCamera`: clear the error, then hold the acquired stream or show the error message. */
    method StartCamera(outcome: Acquisition)
      requires Valid()
      modifies this`stream, this`cameraError, this`live
      ensures Valid()
      ensures outcome.Acquired? ==>
        stream == Some(outcome.stream) && cameraError == "" && live == old(live) + {outcome.stream}
      ensures outcome.AcquisitionFailed? ==>
        stream == old(stream) && cameraError == CameraErrorMessage && cameraError != "" && live == old(live)
    {
      cameraError := "";
      if outcome.Acquired? {
        stream := Some(outcome.stream);
        live := live + {outcome.stream};
      } else {
        cameraError := CameraErrorMessage;
      }
    }

    /** `stopCamera` as a closure that sees `seen` for `stream`: stop its tracks and clear the cell. */
    method StopCameraSeeing(seen: Option<MediaStream>)
      modifies this`stream, this`live
      ensures seen.Some? ==> stream == None && live == old(live) - {seen.value}
      ensures seen.None? ==> stream == old(stream) && live == old(live)
    {
      if seen.Some? {
        live := live - {seen.value};
        stream := None;
      }
    }

    /** The mount effect's cleanup as written: its `stopCamera` sees the first render's `stream`, which is null. */
    method UnmountAsWritten()
      requires Valid()
      modifies this`stream, this`live
      ensures Valid() && stream == old(stream) && live == old(live)
    {
      StopCameraSeeing(firstRenderStream);
    }

    /** The cleanup as intended: stop the stream currently held. */
    method Unmount()
      requires Valid()
      modifies this`stream, this`live
      ensures Valid() && stream == None
      ensures old(stream).Some? ==> live == old(live) - {old(stream).value}
      ensures old(stream).None? ==> live == old(live)
    {
      StopCameraSeeing(stream);
    }

    /** The data URL `getResizedImage` returns for a source of the given size. */
    function Encoded(width: nat, height: nat, encode: (nat, nat) -> string): string {
      match Fit(width, height)
      case None => ""
      case Some(s) => if hasContext then encode(s.width, s.height) else ""
    }

    /** `getResizedImage`: size the canvas by the dimension rule, draw, and encode. */
    method GetResizedImage(width: nat, height: nat, encode: (nat, nat) -> string) returns (url: string)
      modifies this`canvasWidth, this`canvasHeight
      ensures url == Encoded(width, height, encode)
      ensures Fit(width, height).None? ==> canvasWidth == old(canvasWidth) && canvasHeight == old(canvasHeight)
      ensures Fit(width, height).Some? ==> Size(canvasWidth, canvasHeight) == Fit(width, height).value
    {
      var w, h := width, height;
      if w == 0 || h == 0 {
        return "";
      }
      if w > h {
        if w > MaxDimension {
          h := Scaled(h, w);
          w := MaxDimension;
        }
      } else {
        if h > MaxDimension {
          w := Scaled(w, h);
          h := MaxDimension;
        }
      }
      canvasWidth, canvasHeight := w, h;
      if hasContext {
        url := encode(w, h);
      } else {
        url := "";
      }
    }

    /** `processImage`: analyse the image, then hand both to the review screen, or report the failure. */
    method ProcessImage(image: string, hasKey: bool, service: Analysis)
      modifies this`handoff, this`isProcessing, this`notices
      ensures var analysis := AnalyzeCover(hasKey, service);
        if analysis.Success? then
          handoff == Some(Handoff(image, analysis.value)) && isProcessing == old(isProcessing) && notices == old(notices)
        else
          handoff == old(handoff) && !isProcessing && notices == old(notices) + [AnalysisFailedNotice]
    {
      var analysis := AnalyzeCover(hasKey, service);
      if analysis.Success? {
        handoff := Some(Handoff(image, analysis.value));
      } else {
        isProcessing := false;
        notices := notices + [AnalysisFailedNotice];
      }
    }

    /** `handleCapture`: grab the current frame, normalise it, analyse it. */
    method HandleCapture(frame: VideoFrame, encode: (nat, nat) -> string, hasKey: bool, service: Analysis)
      modifies this`isProcessing, this`canvasWidth, this`canvasHeight, this`handoff, this`notices
      ensures !VideoShown() || frame.readyState < 2 || frame.videoWidth == 0 ==>
        && isProcessing == old(isProcessing) && handoff == old(handoff) && notices == old(notices)
        && canvasWidth == old(canvasWidth) && canvasHeight == old(canvasHeight)
      ensures VideoShown() && frame.readyState >= 2 && frame.videoWidth > 0 ==>
        && (Fit(frame.videoWidth, frame.videoHeight).None? ==>
              canvasWidth == old(canvasWidth) && canvasHeight == old(canvasHeight))
        && (Fit(frame.videoWidth, frame.videoHeight).Some? ==>
              Size(canvasWidth, canvasHeight) == Fit(frame.videoWidth, frame.videoHeight).value)
      ensures VideoShown() && frame.readyState >= 2 && frame.videoWidth > 0 ==>
        var url := Encoded(frame.videoWidth, frame.videoHeight, encode);
        var analysis := AnalyzeCover(hasKey, service);
        if url != "" && |url| > 100 then
          if analysis.Success? then
            isProcessing && handoff == Some(Handoff(url, analysis.value)) && notices == old(notices)
          else
            !isProcessing && handoff == old(handoff) && notices == old(notices) + [AnalysisFailedNotice]
        else
          !isProcessing && handoff == old(handoff) && notices == old(notices) + [CaptureFailedNotice]
    {
      if !VideoShown() {
        return;
      }
      if frame.readyState < 2 || frame.videoWidth == 0 {
        return;
      }
      isProcessing := true;
      var url := GetResizedImage(frame.videoWidth, frame.videoHeight, encode);
      if url != "" && |url| > 100 {
        ProcessImage(url, hasKey, service);
      } else {
        isProcessing := false;
        notices := notices + [CaptureFailedNotice];
      }
    }

    /**
     * A press of the shutter button: the button is disabled while processing
     * and while a camera error is shown, so such a press does nothing;
     * otherwise it runs `handleCapture`.
     */
    method PressShutter(frame: VideoFrame, encode: (nat, nat) -> string, hasKey: bool, service: Analysis)
      modifies this`isProcessing, this`canvasWidth, this`canvasHeight, this`handoff, this`notices
      ensures !old(ShutterEnabled()) ==>
        && isProcessing == old(isProcessing) && handoff == old(handoff) && notices == old(notices)
        && canvasWidth == old(canvasWidth) && canvasHeight == old(canvasHeight)
      ensures old(ShutterEnabled()) && (frame.readyState < 2 || frame.videoWidth == 0) ==>
        && ShutterEnabled() && handoff == old(handoff) && notices == old(notices)
        && canvasWidth == old(canvasWidth) && canvasHeight == old(canvasHeight)
      ensures old(ShutterEnabled()) && frame.readyState >= 2 && frame.videoWidth > 0 ==>
        var url := Encoded(frame.videoWidth, frame.videoHeight, encode);
        var analysis := AnalyzeCover(hasKey, service);
        && (Fit(frame.videoWidth, frame.videoHeight).Some? ==>
              Size(canvasWidth, canvasHeight) == Fit(frame.videoWidth, frame.videoHeight).value)
        && if url != "" && |url| > 100 && analysis.Success? then
             !ShutterEnabled() && handoff == Some(Handoff(url, analysis.value)) && notices == old(notices)
           else
             && ShutterEnabled() && handoff == old(handoff)
             && notices == old(notices) + [if url != "" && |url| > 100 then AnalysisFailedNotice else CaptureFailedNotice]
    {
      if ShutterEnabled() {
        HandleCapture(frame, encode, hasKey, service);
      }
    }

    /** `handleFileUpload` with its reader and image callbacks: read, decode, normalise, analyse. */
    method HandleFileUpload(file: FileEvent, encode: (nat, nat) -> string, hasKey: bool, service: Analysis)
      modifies this`isProcessing, this`canvasWidth, this`canvasHeight, this`handoff, this`notices
      ensures !file.Decoded? ==> canvasWidth == old(canvasWidth) && canvasHeight == old(canvasHeight)
      ensures file.Decoded? ==>
        && (Fit(file.width, file.height).None? ==>
              canvasWidth == old(canvasWidth) && canvasHeight == old(canvasHeight))
        && (Fit(file.width, file.height).Some? ==>
              Size(canvasWidth, canvasHeight) == Fit(file.width, file.height).value)
      ensures file.NoFile? ==>
        isProcessing == old(isProcessing) && handoff == old(handoff) && notices == old(notices)
      ensures file.NeverLoaded? ==>
        isProcessing && handoff == old(handoff) && notices == old(notices)
      ensures file.DecodeFailed? ==>
        !isProcessing && handoff == old(handoff) && notices == old(notices) + [BadFileNotice]
      ensures file.Decoded? ==>
        var url := Encoded(file.width, file.height, encode);
        var analysis := AnalyzeCover(hasKey, service);
        if url != "" then
          if analysis.Success? then
            isProcessing && handoff == Some(Handoff(url, analysis.value)) && notices == old(notices)
          else
            !isProcessing && handoff == old(handoff) && notices == old(notices) + [AnalysisFailedNotice]
        else
          !isProcessing && handoff == old(handoff) && notices == old(notices) + [ResizeFailedNotice]
    {
      if file.NoFile? {
        return;
      }
      isProcessing := true;
      match file
      case NeverLoaded =>
      case DecodeFailed =>
        isProcessing := false;
        notices := notices + [BadFileNotice];
      case Decoded(w, h) =>
        var url := GetResizedImage(w, h, encode);
        if url != "" {
          ProcessImage(url, hasKey, service);
        } else {
          isProcessing := false;
          notices := notices + [ResizeFailedNotice];
        }
    }

    /** `toggleFlash`: flip the indicator; ask the held stream's track for the torch when it supports one. */
    method ToggleFlash(torchSupported: bool, applied: bool)
      modifies this`isFlashOn, this`torch
      ensures isFlashOn == !old(isFlashOn)
      ensures torch == if stream.Some? && torchSupported && applied then !old(isFlashOn) else old(torch)
    {
      var wasOn := isFlashOn;
      isFlashOn := !isFlashOn;
      if stream.Some? && torchSupported && applied {
        torch := !wasOn;
      }
    }
  }

  /**
   * Two presses of the shutter in a row: the first capture succeeds and
   * disables the button, so the second press is ignored and the hand-off
   * still carries the first analysis.
   */
  method DoublePressKeepsFirstCapture(frame: VideoFrame, encode: (nat, nat) -> string, first: Analysis, second: Analysis)
    returns (session: CaptureSession)
    requires frame.readyState >= 2 && frame.videoWidth > 0 && frame.videoHeight > 0
    requires |encode(Fit(frame.videoWidth, frame.videoHeight).value.width,
                     Fit(frame.videoWidth, frame.videoHeight).value.height)| > 100
    requires first.Success?
    ensures session.handoff == Some(Handoff(encode(Fit(frame.videoWidth, frame.videoHeight).value.width,
                                                   Fit(frame.videoWidth, frame.videoHeight).value.height), first.value))
    ensures session.isProcessing && !session.ShutterEnabled()
  {
    session := new CaptureSession(true);
    session.StartCamera(Acquired(0));
    session.PressShutter(frame, encode, true, first);
    session.PressShutter(frame, encode, true, second);
  }

  /** Without a service key, a successful capture hands off the placeholder analysis, whatever the service would say. */
  method NoKeyCaptureHandsOffPlaceholder(frame: VideoFrame, encode: (nat, nat) -> string, service: Analysis)
    returns (session: CaptureSession)
    requires frame.readyState >= 2 && frame.videoWidth > 0 && frame.videoHeight > 0
    requires |encode(Fit(frame.videoWidth, frame.videoHeight).value.width,
                     Fit(frame.videoWidth, frame.videoHeight).value.height)| > 100
    ensures session.handoff.Some? && session.handoff.value.analysis == PlaceholderAnalysis
    ensures session.handoff.value.image == encode(Fit(frame.videoWidth, frame.videoHeight).value.width,
                                                  Fit(frame.videoWidth, frame.videoHeight).value.height)
  {
    session := new CaptureSession(true);
    session.StartCamera(Acquired(0));
    session.PressShutter(frame, encode, false, service);
  }

  /** As written, leaving the screen after the camera started leaves the camera running. */
  method StaleCleanupKeepsCamera(s: MediaStream) returns (session: CaptureSession)
    ensures session.stream == Some(s) && s in session.live
  {
    session := new CaptureSession(true);
    session.StartCamera(Acquired(s));
    session.UnmountAsWritten();
  }

  /** With the cleanup seeing the current stream, leaving the screen releases the camera. */
  method CleanupReleasesCamera(s: MediaStream) returns (session: CaptureSession)
    ensures session.stream == None && session.live == {}
  {
    session := new CaptureSession(true);
    session.StartCamera(Acquired(s));
    session.Unmount();
  }
}
