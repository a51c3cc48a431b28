/**
  The emotion-analysis modal of `principal.jsx`: who owns the camera stream, the flags
  `cameraActive` and `analysisVisible`, the simulated analysis that picks one of four fixed
  results after a delay, and the fixed playlist table. `getUserMedia`, the file picker and
  the 2000 ms timer are events of their own; `Math.random` becomes the chosen index.
 */
module EmotionCapture {
  import opened Text

  /** A `MediaStreamTrack`. */
  class Track {
    var live: bool

    constructor ()
      ensures live
    {
      live := true;
    }

    /** `track.stop()`. */
    method Stop()
      modifies this
      ensures !live
    {
      live := false;
    }
  }

  /** A `MediaStream`; `getTracks()` returns `tracks`. */
  class MediaStream {
    const tracks: seq<Track>

    constructor (tracks: seq<Track>)
      ensures this.tracks == tracks
    {
      this.tracks := tracks;
    }
  }

  function TracksOf(s: MediaStream?): set<Track> {
    if s == null then {} else set t | t in s.tracks
  }

  /** `stream.getTracks().forEach((t) => t.stop())`. */
  method StopTracks(s: MediaStream)
    modifies TracksOf(s)
    ensures forall t :: t in s.tracks ==> !t.live
  {
    for i := 0 to |s.tracks|
      invariant forall j :: 0 <= j < i ==> !s.tracks[j].live
    {
      s.tracks[i].Stop();
    }
  }

  /** The `emotion` state: what the result panel shows. */
  datatype Emotion = Emotion(name: string, icon: string, confidence: string)

  /** One entry of the fixed result list. */
  datatype Category = Category(name: string, icon: string, confidence: nat)

  /** The placeholder shown while the analysis runs and after a reset. */
  const Analyzing := Emotion("Analizando...", "😊", "--")

  const Categories: seq<Category> := [
    Category("Felicidad", "😊", 85),
    Category("Calma", "😌", 78),
    Category("Energía", "🎵", 92),
    Category("Concentración", "🧘", 67)
  ]

  /** `{ name, icon, confidence: `${confidence}%` }`. */
  function Rendered(c: Category): Emotion {
    Emotion(c.name, c.icon, NatToString(c.confidence) + "%")
  }

  /** The four results as the panel shows them. */
  lemma RenderedCategories()
    ensures Rendered(Categories[0]) == Emotion("Felicidad", "😊", "85%")
    ensures Rendered(Categories[1]) == Emotion("Calma", "😌", "78%")
    ensures Rendered(Categories[2]) == Emotion("Energía", "🎵", "92%")
    ensures Rendered(Categories[3]) == Emotion("Concentración", "🧘", "67%")
  {
    assert NatToString(85) == "85" by { assert NatToString(8) == "8"; }
    assert NatToString(78) == "78" by { assert NatToString(7) == "7"; }
    assert NatToString(92) == "92" by { assert NatToString(9) == "9"; }
    assert NatToString(67) == "67" by { assert NatToString(6) == "6"; }
  }

  const FallbackPlaylist := ["Música personalizada para ti"]

  predicate IsCategoryName(name: string) {
    || name == Categories[0].name || name == Categories[1].name
    || name == Categories[2].name || name == Categories[3].name
  }

  /** `generatePlaylist`: `playlists[emo] || ["Música personalizada para ti"]`. */
  function GeneratePlaylist(name: string): (tracks: seq<string>)
    ensures IsCategoryName(name) ==> |tracks| == 3
    ensures !IsCategoryName(name) ==> tracks == FallbackPlaylist
  {
    if name == "Felicidad" then ["Happy - Pharrell Williams", "Good as Hell - Lizzo", "Uptown Funk - Bruno Mars"]
    else if name == "Calma" then ["Weightless - Marconi Union", "River - Joni Mitchell", "Mad World - Gary Jules"]
    else if name == "Energía" then ["Eye of the Tiger - Survivor", "Thunder - Imagine Dragons", "High Hopes - Panic!"]
    else if name == "Concentración" then ["Clair de Lune - Debussy", "Gymnopédie No.1 - Satie", "The Blue Notebooks - Max Richter"]
    else FallbackPlaylist
  }

  /** What the `camera-preview` element holds. */
  datatype Preview =
    | Unmounted    // the modal is not rendered, `previewRef.current` is null
    | CameraPrompt // the icon and "Activa tu cámara para comenzar"
    | Video        // a <video> element showing a stream
    | Photo        // an <img> with an uploaded picture

  class EmotionModal {
    /** Whether the `Principal` component is mounted. */
    var mounted: bool
    var isEmotionOpen: bool
    /** `document.body.style.overflow`. */
    var bodyOverflow: string
    var cameraActive: bool
    var analysisVisible: bool
    var emotion: Emotion
    var playlist: seq<string>
    /** `cameraStreamRef.current`. */
    var stream: MediaStream?
    var preview: Preview
    /** Calls to `getUserMedia` that have not answered yet. */
    var cameraRequests: nat
    /** Analysis timers armed and not yet fired; closing the modal does not cancel them. */
    var analysisTimers: nat

    ghost predicate Valid()
      reads this
    {
      preview.Unmounted? <==> !(mounted && isEmotionOpen)
    }

    constructor ()
      ensures Valid() && mounted && !isEmotionOpen && bodyOverflow == ""
      ensures !cameraActive && !analysisVisible && emotion == Analyzing && playlist == []
      ensures stream == null && preview == Unmounted && cameraRequests == 0 && analysisTimers == 0
    {
      mounted, isEmotionOpen, bodyOverflow := true, false, "";
      cameraActive, analysisVisible, emotion, playlist := false, false, Analyzing, [];
      stream, preview, cameraRequests, analysisTimers := null, Unmounted, 0, 0;
    }

    /** `openEmotionAnalysis`: shows the modal and locks page scrolling. */
    method OpenEmotionAnalysis()
      requires Valid() && mounted
      modifies this`isEmotionOpen, this`bodyOverflow, this`preview
      ensures Valid() && isEmotionOpen && bodyOverflow == "hidden"
      ensures preview == if old(preview).Unmounted? then CameraPrompt else old(preview)
    {
      isEmotionOpen := true;
      bodyOverflow := "hidden";
      if preview.Unmounted? {
        preview := CameraPrompt;
      }
    }

    /** `resetCameraInterface`. */
    method ResetCameraInterface()
      requires Valid()
      modifies this`preview, this`cameraActive, this`analysisVisible, this`emotion, this`playlist
      ensures Valid()
      ensures preview == if old(preview).Unmounted? then Unmounted else CameraPrompt
      ensures !cameraActive && !analysisVisible && emotion == Analyzing && playlist == []
    {
      if !preview.Unmounted? {
        preview := CameraPrompt;
      }
      cameraActive, analysisVisible, emotion, playlist := false, false, Analyzing, [];
    }

    /** `closeEmotionModal`: releases any held stream and resets the result panel, whatever
        the state before; only the armed callbacks survive it. */
    method CloseEmotionModal()
      requires Valid() && mounted
      modifies this, TracksOf(stream)
      ensures Valid() && mounted && !isEmotionOpen && bodyOverflow == "auto"
      ensures stream == null && forall t :: t in TracksOf(old(stream)) ==> !t.live
      ensures !cameraActive && !analysisVisible && emotion == Analyzing && playlist == []
      ensures preview == Unmounted
      ensures cameraRequests == old(cameraRequests) && analysisTimers == old(analysisTimers)
    {
      isEmotionOpen := false;
      preview := Unmounted;
      bodyOverflow := "auto";
      if stream != null {
        StopTracks(stream);
        stream := null;
      }
      ResetCameraInterface();
    }

    /** `startCamera` up to its `await`; the "Activar Cámara" button is only rendered while
        the camera is not active. */
    method StartCamera()
      requires Valid() && mounted && isEmotionOpen && !cameraActive
      modifies this`cameraActive, this`cameraRequests
      ensures Valid() && cameraActive && cameraRequests == old(cameraRequests) + 1
    {
      if preview.Unmounted? {
        return;
      }
      cameraActive := true;
      cameraRequests := cameraRequests + 1;
    }

    /** The rest of `startCamera`, when `getUserMedia` answers: `granted` is the stream, or
        null when access was refused. A stream is stored before the preview is touched, so
        one granted after the modal closed is kept (and `cameraActive` reset by the `catch`). */
    method CameraAnswered(granted: MediaStream?)
      requires Valid() && cameraRequests > 0
      modifies this`stream, this`preview, this`cameraActive, this`cameraRequests
      ensures Valid() && cameraRequests == old(cameraRequests) - 1
      ensures granted == null ==> stream == old(stream) && preview == old(preview)
      ensures granted == null ==> cameraActive == (old(cameraActive) && !mounted)
      ensures granted != null ==> stream == granted
      ensures granted != null && !old(preview).Unmounted? ==> preview == Video && cameraActive == old(cameraActive)
      ensures granted != null && old(preview).Unmounted? ==>
        preview == Unmounted && cameraActive == (old(cameraActive) && !mounted)
    {
      cameraRequests := cameraRequests - 1;
      if granted == null {
        if mounted { cameraActive := false; }
        return;
      }
      stream := granted;
      if preview.Unmounted? {
        if mounted { cameraActive := false; }
        return;
      }
      preview := Video;
    }

    /** `showAnalysisResults` up to its `setTimeout`. */
    method ShowAnalysisResults()
      requires Valid()
      modifies this`analysisVisible, this`emotion, this`playlist, this`analysisTimers
      ensures Valid() && analysisVisible && emotion == Analyzing && playlist == []
      ensures analysisTimers == old(analysisTimers) + 1
    {
      analysisVisible := true;
      emotion := Analyzing;
      playlist := [];
      analysisTimers := analysisTimers + 1;
    }

    /** `capturePhoto`; the button is disabled while the camera is not active. Without a
        <video> in the preview nothing changes. */
    method CapturePhoto()
      requires Valid() && mounted && isEmotionOpen && cameraActive
      modifies this, TracksOf(stream)
      ensures Valid()
      ensures !old(preview).Video? ==> unchanged(this) && unchanged(TracksOf(old(stream)))
      ensures old(preview).Video? ==>
        && stream == null && !cameraActive && (forall t :: t in TracksOf(old(stream)) ==> !t.live)
        && analysisVisible && emotion == Analyzing && playlist == []
        && analysisTimers == old(analysisTimers) + 1
        && preview == old(preview) && isEmotionOpen && mounted && bodyOverflow == old(bodyOverflow)
        && cameraRequests == old(cameraRequests)
    {
      if !preview.Video? {
        return;
      }
      ShowAnalysisResults();
      if stream != null {
        StopTracks(stream);
        stream := null;
      }
      cameraActive := false;
    }

    /** `uploadPhoto`, once the picker and the reader are done; `chosen` is false when no file
        was picked. It never touches the stream or `cameraActive`. */
    method UploadPhoto(chosen: bool)
      requires Valid() && mounted && isEmotionOpen
      modifies this`preview, this`analysisVisible, this`emotion, this`playlist, this`analysisTimers
      ensures Valid() && stream == old(stream) && cameraActive == old(cameraActive)
      ensures !chosen ==>
        && preview == old(preview) && analysisVisible == old(analysisVisible)
        && emotion == old(emotion) && playlist == old(playlist) && analysisTimers == old(analysisTimers)
      ensures chosen ==>
        && preview == Photo && analysisVisible && emotion == Analyzing && playlist == []
        && analysisTimers == old(analysisTimers) + 1
    {
      if !chosen {
        return;
      }
      preview := Photo;
      ShowAnalysisResults();
    }

    /** The 2000 ms analysis timer fires; `index` is `Math.floor(Math.random() * 4)`. It is
        not cancelled on close, so it writes the result even into a closed modal; once the
        component is unmounted React ignores the updates. */
    method AnalysisTimerFires(index: nat)
      requires Valid() && analysisTimers > 0 && index < |Categories|
      modifies this`emotion, this`playlist, this`analysisTimers
      ensures Valid() && analysisTimers == old(analysisTimers) - 1
      ensures mounted ==> emotion == Rendered(Categories[index]) && playlist == GeneratePlaylist(Categories[index].name)
      ensures !mounted ==> emotion == old(emotion) && playlist == old(playlist)
    {
      analysisTimers := analysisTimers - 1;
      if mounted {
        var selected := Categories[index];
        emotion := Rendered(selected);
        playlist := GeneratePlaylist(selected.name);
      }
    }

    /** The cleanup of the unmount effect: stops and drops any held stream. */
    method Unmount()
      requires Valid() && mounted
      modifies this, TracksOf(stream)
      ensures Valid() && !mounted && preview == Unmounted
      ensures stream == null && forall t :: t in TracksOf(old(stream)) ==> !t.live
      ensures isEmotionOpen == old(isEmotionOpen) && cameraActive == old(cameraActive)
      ensures analysisVisible == old(analysisVisible) && emotion == old(emotion) && playlist == old(playlist)
      ensures bodyOverflow == old(bodyOverflow)
      ensures cameraRequests == old(cameraRequests) && analysisTimers == old(analysisTimers)
    {
      if stream != null {
        StopTracks(stream);
        stream := null;
      }
      mounted := false;
      preview := Unmounted;
    }
  }

  /** Closing twice leaves the same state as closing once. */
  method CloseTwice(m: EmotionModal) returns (same: bool)
    requires m.Valid() && m.mounted
    modifies m, TracksOf(m.stream)
    ensures same && m.stream == null && !m.isEmotionOpen
  {
    m.CloseEmotionModal();
    var first := (m.isEmotionOpen, m.bodyOverflow, m.cameraActive, m.analysisVisible, m.emotion, m.playlist, m.stream, m.preview);
    m.CloseEmotionModal();
    var second := (m.isEmotionOpen, m.bodyOverflow, m.cameraActive, m.analysisVisible, m.emotion, m.playlist, m.stream, m.preview);
    same := first == second;
  }

  /** Camera granted, photo captured, timer fired with some index: the stream is released
      and that result with its three songs is shown. */
  method CaptureScenario(index: nat) returns (released: bool, shown: Emotion, songs: nat)
    requires index < |Categories|
    ensures released && shown == Rendered(Categories[index]) && songs == 3
  {
    var m := new EmotionModal();
    m.OpenEmotionAnalysis();
    m.StartCamera();
    var t := new Track();
    var s := new MediaStream([t]);
    m.CameraAnswered(s);
    m.CapturePhoto();
    m.AnalysisTimerFires(index);
    released, shown, songs := m.stream == null && !t.live, m.emotion, |m.playlist|;
  }

  /** An upload, then a close before the timer fires: the late timer still writes a result
      into the closed modal. */
  method LateResultAfterClose(index: nat) returns (open: bool, visible: bool, name: string, songs: nat)
    requires index < |Categories|
    ensures !open && !visible && name == Categories[index].name && songs == 3
  {
    var m := new EmotionModal();
    m.OpenEmotionAnalysis();
    m.UploadPhoto(true);
    m.CloseEmotionModal();
    m.AnalysisTimerFires(index);
    open, visible, name, songs := m.isEmotionOpen, m.analysisVisible, m.emotion.name, |m.playlist|;
  }
}
