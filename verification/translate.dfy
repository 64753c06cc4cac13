/** The translator page: the webcam lifecycle (start, stop, pause), the
    simulated translation feed, and the reset of the translated text.
    Camera acquisition, the `<video>` element and the interval timer are
    modelled as inputs and effects. */
module Translate {
  import opened Wrappers

  /** An opaque `MediaStreamTrack`. */
  type Track = nat

  /** The `MediaStream` returned by `getUserMedia`. */
  datatype Stream = Stream(tracks: seq<Track>)

  /** The page's React state plus `streamRef.current`. */
  datatype Page = Page(webcamActive: bool, isPaused: bool, translatedText: string, stream: Option<Stream>)

  const Initial := Page(false, false, "", None)

  /** The interval callback set up by `simulateTranslation`: the
      `isPaused` and `webcamActive` values its closure captured, and its
      private phrase counter. */
  datatype Feed = Feed(seenPaused: bool, seenActive: bool, index: nat)

  /** What a handler does to the world besides setting state. */
  datatype Effect =
    | StopTrack(track: Track)   // `track.stop()`
    | PauseVideo                // `videoRef.current.pause()`
    | PlayVideo                 // `videoRef.current.play()`
    | LogError                  // `console.error` on a failed `getUserMedia`
    | StartFeed(feed: Feed)     // `simulateTranslation()` starts an interval

  /** The outcome of `getUserMedia`, supplied from outside. */
  datatype Acquisition = Granted(stream: Stream) | Refused

  datatype Transition = Transition(page: Page, effects: seq<Effect>)

  predicate StopsSomething(effects: seq<Effect>) {
    exists i :: 0 <= i < |effects| && effects[i].StopTrack?
  }

  // ---------------------------------------------------------------------
  // Render rules
  // ---------------------------------------------------------------------

  /** The `<video ref={videoRef}>` element is rendered only while the
      webcam is active, so `videoRef.current` is non-null exactly then. */
  predicate SurfaceMounted(p: Page) { p.webcamActive }

  /** "Enable Camera" is in the placeholder that replaces the video. */
  predicate EnableButtonShown(p: Page) { !p.webcamActive }

  /** The pause and stop overlay is rendered only while active. */
  predicate ControlsShown(p: Page) { p.webcamActive }

  /** Reset, read-aloud and copy are disabled while the text is empty. */
  predicate TextButtonsEnabled(p: Page) { p.translatedText != "" }

  /** The two branches of the video panel exclude each other: the video
      (with its overlay) and "Enable Camera" are never both rendered, and
      one of them always is. */
  lemma RenderBranchesExclusive(p: Page)
    ensures SurfaceMounted(p) != EnableButtonShown(p)
    ensures ControlsShown(p) == SurfaceMounted(p)
    ensures EnableButtonShown(p) ==> !ControlsShown(p)
  {
  }

  // ---------------------------------------------------------------------
  // Handlers
  // ---------------------------------------------------------------------

  /** The continuation of `startWebcam` once `getUserMedia` settles, given
      whether `videoRef.current` is set at that moment. A refusal is only
      logged; a granted stream is committed only when a surface exists,
      and otherwise is dropped without stopping its tracks. The new feed
      captures the flags of the page the handler was created in. */
  function CompleteStart(p: Page, surface: bool, acq: Acquisition): (t: Transition)
    ensures acq.Refused? ==> t == Transition(p, [LogError])
    ensures t.page.webcamActive <==> (acq.Granted? && surface) || p.webcamActive
    ensures acq.Granted? && surface ==>
              !t.page.isPaused && t.page.stream == Some(acq.stream)
              && t.effects == [StartFeed(Feed(p.isPaused, p.webcamActive, 0))]
    ensures !(acq.Granted? && surface) ==> t.page == p
    ensures t.page.translatedText == p.translatedText
    ensures !StopsSomething(t.effects)
  {
    match acq
    case Refused => Transition(p, [LogError])
    case Granted(s) =>
      if surface then
        Transition(p.(webcamActive := true, isPaused := false, stream := Some(s)),
                   [StartFeed(Feed(p.isPaused, p.webcamActive, 0))])
      else Transition(p, [])
  }

  /** `startWebcam` as wired in the page: the surface exists only if the
      page is already active. So a click on "Enable Camera" never turns
      the camera on, and a granted stream is neither kept nor stopped. */
  function StartWebcam(p: Page, acq: Acquisition): (t: Transition)
    ensures EnableButtonShown(p) ==> t.page == p && !StopsSomething(t.effects)
    ensures EnableButtonShown(p) && acq.Granted? ==> t.effects == []
  {
    CompleteStart(p, SurfaceMounted(p), acq)
  }

  /** `startWebcam` with the video element kept mounted (hidden while
      inactive), so the stream always has a surface to attach to. */
  function StartWebcamMounted(p: Page, acq: Acquisition): (t: Transition)
    ensures acq.Granted? ==> t.page.webcamActive && !t.page.isPaused && t.page.stream == Some(acq.stream)
    ensures acq.Refused? ==> t.page == p
  {
    CompleteStart(p, true, acq)
  }

  /** Every track of `tracks`, stopped in order. */
  function StopAll(tracks: seq<Track>): (es: seq<Effect>)
    ensures |es| == |tracks|
    ensures forall i :: 0 <= i < |es| ==> es[i] == StopTrack(tracks[i])
  {
    if |tracks| == 0 then [] else [StopTrack(tracks[0])] + StopAll(tracks[1..])
  }

  /** `stopWebcam`: with a held stream, stop all its tracks, forget it,
      deactivate and clear the text, leaving the pause flag alone;
      without one, do nothing. */
  function StopWebcam(p: Page): (t: Transition)
    ensures t.page.stream.None? && t.page.isPaused == p.isPaused
    ensures p.stream.None? ==> t == Transition(p, [])
    ensures p.stream.Some? ==>
              !t.page.webcamActive && t.page.translatedText == ""
              && forall k :: k in p.stream.value.tracks ==> StopTrack(k) in t.effects
    ensures forall e :: e in t.effects ==> e.StopTrack? && p.stream.Some? && e.track in p.stream.value.tracks
  {
    match p.stream
    case None => Transition(p, [])
    case Some(s) =>
      var es := StopAll(s.tracks);
      assert forall k :: k in s.tracks ==> StopTrack(k) in es by {
        forall k | k in s.tracks ensures StopTrack(k) in es {
          var i :| 0 <= i < |s.tracks| && s.tracks[i] == k;
          assert es[i] == StopTrack(k);
        }
      }
      Transition(Page(false, p.isPaused, "", None), es)
  }

  /** A second stop finds no stream and does nothing. */
  lemma StopIdempotent(p: Page)
    ensures StopWebcam(StopWebcam(p).page) == Transition(StopWebcam(p).page, [])
  {
  }

  /** `togglePause`: flip the flag; when the video is mounted, pause it if
      the session was running and play it if it was paused. */
  function TogglePause(p: Page): (t: Transition)
    ensures t.page.isPaused != p.isPaused
    ensures t.page.(isPaused := p.isPaused) == p
    ensures !SurfaceMounted(p) ==> t.effects == []
    ensures SurfaceMounted(p) ==> |t.effects| == 1 && (t.effects[0] == PauseVideo <==> t.page.isPaused)
                                  && (t.effects[0] == PlayVideo <==> !t.page.isPaused)
  {
    var es := if SurfaceMounted(p) then [if !p.isPaused then PauseVideo else PlayVideo] else [];
    Transition(p.(isPaused := !p.isPaused), es)
  }

  /** Two toggles restore the page and leave the video as it was: one
      pause and one play, in the order the starting flag dictates. */
  lemma TogglePauseTwice(p: Page)
    ensures TogglePause(TogglePause(p).page).page == p
    ensures SurfaceMounted(p) ==>
              multiset(TogglePause(p).effects + TogglePause(TogglePause(p).page).effects)
              == multiset{PauseVideo, PlayVideo}
  {
  }

  /** `resetTranslation`: clear the text and nothing else. */
  function ResetTranslation(p: Page): (t: Transition)
    ensures t.page.translatedText == "" && !TextButtonsEnabled(t.page)
    ensures t.page.(translatedText := p.translatedText) == p
    ensures t.effects == []
  {
    Transition(p.(translatedText := ""), [])
  }

  // ---------------------------------------------------------------------
  // The simulated translation feed
  // ---------------------------------------------------------------------

  const Phrases: seq<string> := [
    "Hello, how are you?",
    "My name is John",
    "Nice to meet you",
    "Thank you for your help",
    "I am learning sign language",
    "Can you help me?",
    "I understand",
    "I don't understand",
    "Please repeat that",
    "Good morning"
  ]

  function Phrase(index: nat): (s: string)
    ensures s in Phrases && s != ""
  {
    Phrases[index % |Phrases|]
  }

  /** The state updater of one tick: an empty text becomes the phrase,
      otherwise the phrase follows a single space. */
  function AppendPhrase(text: string, index: nat): (r: string)
    ensures text <= r && |r| > |text|
    ensures text == "" <==> r == Phrase(index)
    ensures text != "" ==> r[|text|] == ' ' && r[|text| + 1..] == Phrase(index)
  {
    if text == "" then Phrase(index) else text + " " + Phrase(index)
  }

  /** One interval tick as written: the guard reads the captured flags,
      not the page's current ones. */
  function FeedTick(f: Feed, p: Page): (r: (Feed, Page))
    ensures f.seenPaused || !f.seenActive ==> r == (f, p)
    ensures !f.seenPaused && f.seenActive ==>
              r.0.index == f.index + 1 && r.1.translatedText == AppendPhrase(p.translatedText, f.index)
    ensures r.1.(translatedText := p.translatedText) == p
  {
    if !f.seenPaused && f.seenActive then
      (f.(index := f.index + 1), p.(translatedText := AppendPhrase(p.translatedText, f.index)))
    else (f, p)
  }

  /** One interval tick reading the page's current flags. */
  function FeedTickLive(f: Feed, p: Page): (r: (Feed, Page))
    ensures p.isPaused || !p.webcamActive ==> r == (f, p)
    ensures !p.isPaused && p.webcamActive ==>
              r.0.index == f.index + 1 && r.1.translatedText == AppendPhrase(p.translatedText, f.index)
    ensures r.1.(translatedText := p.translatedText) == p
  {
    if !p.isPaused && p.webcamActive then
      (f.(index := f.index + 1), p.(translatedText := AppendPhrase(p.translatedText, f.index)))
    else (f, p)
  }

  /** Any feed created by the start handler of the "Enable Camera" view
      captured `webcamActive == false`, so no tick of it ever changes the
      page, even one that is active and running. */
  lemma StaleFeedNeverAppends(p0: Page, p: Page, acq: Acquisition, f: Feed)
    requires EnableButtonShown(p0)
    requires StartFeed(f) in CompleteStart(p0, true, acq).effects
    ensures FeedTick(f, p) == (f, p)
  {
  }

  // ---------------------------------------------------------------------
  // The transcript the feed spells
  // ---------------------------------------------------------------------

  /** Words separated by single spaces. */
  function Join(ws: seq<string>): string
    decreases |ws|
  {
    if |ws| == 0 then "" else if |ws| == 1 then ws[0] else ws[0] + " " + Join(ws[1..])
  }

  lemma {:induction false} JoinSnoc(ws: seq<string>, w: string)
    requires |ws| > 0
    ensures Join(ws + [w]) == Join(ws) + " " + w
    decreases |ws|
  {
    if |ws| > 1 {
      assert (ws + [w])[1..] == ws[1..] + [w];
      JoinSnoc(ws[1..], w);
    } else {
      assert (ws + [w])[1..] == [w];
    }
  }

  lemma {:induction false} JoinNonEmpty(ws: seq<string>)
    requires |ws| > 0 && ws[0] != ""
    ensures Join(ws) != ""
  {
  }

  /** The first `n` phrases, cycling through the list of ten. */
  function Transcript(n: nat): string {
    Join(seq(n, i requires 0 <= i => Phrase(i)))
  }

  /** The tick with counter `n` extends the transcript of `n` phrases to
      the transcript of `n + 1`. */
  lemma AppendExtendsTranscript(n: nat)
    ensures AppendPhrase(Transcript(n), n) == Transcript(n + 1)
  {
    var ws := seq(n, i requires 0 <= i => Phrase(i));
    assert seq(n + 1, i requires 0 <= i => Phrase(i)) == ws + [Phrase(n)];
    if n == 0 {
      assert Transcript(0) == "";
    } else {
      JoinNonEmpty(ws);
      JoinSnoc(ws, Phrase(n));
    }
  }

  // ---------------------------------------------------------------------
  // Sessions: the page driven by clicks, ticks and acquisitions
  // ---------------------------------------------------------------------

  /** Which start handler and tick guard the page uses: the code as it
      stands, or with the video kept mounted and the guard reading live
      state. */
  datatype Wiring = AsWritten | Corrected

  /** A user action, a tick of the `i`-th interval, or the unmount cleanup. */
  datatype Op = ClickStart(acq: Acquisition) | ClickStop | ClickPause | ClickReset | Tick(i: nat) | Unmount

  /** The page, the intervals started so far (never cleared), and the
      streams that were acquired and whose tracks have not been stopped. */
  datatype Session = Session(page: Page, feeds: seq<Feed>, open: seq<Stream>)

  const InitialSession := Session(Initial, [], [])

  function FeedsStarted(es: seq<Effect>): seq<Feed> {
    if |es| == 0 then []
    else (if es[0].StartFeed? then [es[0].feed] else []) + FeedsStarted(es[1..])
  }

  function Without(ss: seq<Stream>, s: Stream): (r: seq<Stream>)
    ensures s !in r
    ensures forall x :: x in r <==> x in ss && x != s
  {
    if |ss| == 0 then []
    else (if ss[0] == s then [] else [ss[0]]) + Without(ss[1..], s)
  }

  function Start(w: Wiring, p: Page, acq: Acquisition): Transition {
    match w
    case AsWritten => StartWebcam(p, acq)
    case Corrected => StartWebcamMounted(p, acq)
  }

  function TickWith(w: Wiring, f: Feed, p: Page): (Feed, Page) {
    match w
    case AsWritten => FeedTick(f, p)
    case Corrected => FeedTickLive(f, p)
  }

  /** `stopWebcam` on a session: the held stream, if any, is no longer open. */
  function Halt(s: Session): (r: Session)
    ensures r.page == StopWebcam(s.page).page && r.feeds == s.feeds
    ensures s.page.stream.None? ==> r == s
    ensures s.page.stream.Some? ==> r.open == Without(s.open, s.page.stream.value)
  {
    var t := StopWebcam(s.page);
    Session(t.page, s.feeds, if s.page.stream.Some? then Without(s.open, s.page.stream.value) else s.open)
  }

  /** A click on "Enable Camera", which exists only while inactive. */
  function OnStart(w: Wiring, s: Session, acq: Acquisition): (r: Session)
    ensures !EnableButtonShown(s.page) ==> r == s
    ensures EnableButtonShown(s.page) ==> r.open == s.open + (if acq.Granted? then [acq.stream] else [])
    ensures s.feeds <= r.feeds
    ensures r.page.translatedText == s.page.translatedText
  {
    if !EnableButtonShown(s.page) then s
    else
      var t := Start(w, s.page, acq);
      Session(t.page, s.feeds + FeedsStarted(t.effects),
              if acq.Granted? then s.open + [acq.stream] else s.open)
  }

  /** A tick of the `i`-th interval ever started. */
  function OnTick(w: Wiring, s: Session, i: nat): (r: Session)
    ensures r.open == s.open && |r.feeds| == |s.feeds|
    ensures r.page.(translatedText := s.page.translatedText) == s.page
    ensures s.page.translatedText <= r.page.translatedText
  {
    if i < |s.feeds| then
      var (f, p) := TickWith(w, s.feeds[i], s.page);
      Session(p, s.feeds[i := f], s.open)
    else s
  }

  /** One event. A click on a control that is not rendered does nothing. */
  function Step(w: Wiring, s: Session, op: Op): (r: Session)
    ensures op.ClickStart? && !EnableButtonShown(s.page) ==> r == s
    ensures (op.ClickStop? || op.ClickPause?) && !ControlsShown(s.page) ==> r == s
    ensures op.ClickReset? && !TextButtonsEnabled(s.page) ==> r == s
    ensures |r.feeds| >= |s.feeds|
  {
    match op
    case ClickStart(acq) => OnStart(w, s, acq)
    case ClickStop => if ControlsShown(s.page) then Halt(s) else s
    case Unmount => Halt(s)
    case ClickPause => if ControlsShown(s.page) then s.(page := TogglePause(s.page).page) else s
    case ClickReset => if TextButtonsEnabled(s.page) then s.(page := ResetTranslation(s.page).page) else s
    case Tick(i) => OnTick(w, s, i)
  }

  function Run(w: Wiring, s: Session, ops: seq<Op>): Session
    decreases |ops|
  {
    if |ops| == 0 then s else Run(w, Step(w, s, ops[0]), ops[1..])
  }

  lemma RunUnfold(w: Wiring, s: Session, ops: seq<Op>)
    requires |ops| > 0
    ensures Run(w, s, ops) == Run(w, Step(w, s, ops[0]), ops[1..])
  {
  }

  /** The streams `op` is granted: none unless it is an acquisition that succeeds. */
  function GrantedBy(op: Op): seq<Stream> {
    if op.ClickStart? && op.acq.Granted? then [op.acq.stream] else []
  }

  /** The streams the acquisitions in `ops` grant, in order. */
  function GrantedStreams(ops: seq<Op>): seq<Stream> {
    if |ops| == 0 then [] else GrantedBy(ops[0]) + GrantedStreams(ops[1..])
  }

  /** As written, every event on the initial page leaves it as it is and
      only adds the stream it was granted to the open ones. */
  lemma AsWrittenStepInert(open: seq<Stream>, op: Op)
    ensures Step(AsWritten, Session(Initial, [], open), op) == Session(Initial, [], open + GrantedBy(op))
  {
  }

  /** As written, no sequence of clicks, acquisitions and ticks ever moves
      the page off its initial state, no interval is ever started, and
      every stream the page acquires stays open. */
  lemma {:induction false} AsWrittenPageNeverChanges(open: seq<Stream>, ops: seq<Op>)
    ensures Run(AsWritten, Session(Initial, [], open), ops) == Session(Initial, [], open + GrantedStreams(ops))
    decreases |ops|
  {
    if |ops| == 0 {
      assert open + [] == open;
    } else {
      var g := GrantedBy(ops[0]);
      calc {
        Run(AsWritten, Session(Initial, [], open), ops);
        { AsWrittenRunUnfold(open, ops); }
        Run(AsWritten, Session(Initial, [], open + g), ops[1..]);
        { AsWrittenPageNeverChanges(open + g, ops[1..]); }
        Session(Initial, [], open + g + GrantedStreams(ops[1..]));
        { GrantedStreamsUnfold(open, ops); }
        Session(Initial, [], open + GrantedStreams(ops));
      }
    }
  }

  lemma GrantedStreamsUnfold(open: seq<Stream>, ops: seq<Op>)
    requires |ops| > 0
    ensures open + GrantedBy(ops[0]) + GrantedStreams(ops[1..]) == open + GrantedStreams(ops)
  {
    assert GrantedStreams(ops) == GrantedBy(ops[0]) + GrantedStreams(ops[1..]);
  }

  /** As written, the first event of a run from the initial page only adds
      the stream it was granted to the open ones. */
  lemma AsWrittenRunUnfold(open: seq<Stream>, ops: seq<Op>)
    requires |ops| > 0
    ensures Run(AsWritten, Session(Initial, [], open), ops)
         == Run(AsWritten, Session(Initial, [], open + GrantedBy(ops[0])), ops[1..])
  {
    AsWrittenStepInert(open, ops[0]);
    RunUnfold(AsWritten, Session(Initial, [], open), ops);
  }

  /** The corrected page's resource invariant: a stream is held exactly
      while active, the held stream is the only open one, and the text is
      empty whenever the camera is off. */
  predicate Healthy(s: Session) {
    && (s.page.stream.Some? <==> s.page.webcamActive)
    && s.open == (if s.page.stream.Some? then [s.page.stream.value] else [])
    && (!s.page.webcamActive ==> s.page.translatedText == "")
  }

  lemma CorrectedStepHealthy(s: Session, op: Op)
    requires Healthy(s)
    ensures Healthy(Step(Corrected, s, op))
  {
    match op
    case ClickStop =>
      if s.page.stream.Some? {
        assert Without([s.page.stream.value], s.page.stream.value) == [];
      }
    case Unmount =>
      if s.page.stream.Some? {
        assert Without([s.page.stream.value], s.page.stream.value) == [];
      }
    case ClickStart(acq) =>
    case ClickPause =>
    case ClickReset =>
    case Tick(i) =>
  }

  /** With the corrected wiring every reachable session is healthy: the
      page never holds more than one open stream and never leaks one. */
  lemma {:induction false} CorrectedRunHealthy(s: Session, ops: seq<Op>)
    requires Healthy(s)
    ensures Healthy(Run(Corrected, s, ops))
    decreases |ops|
  {
    if |ops| > 0 {
      CorrectedStepHealthy(s, ops[0]);
      CorrectedRunHealthy(Step(Corrected, s, ops[0]), ops[1..]);
    }
  }

  /** `n` ticks of the first interval. */
  function TickTimes(w: Wiring, s: Session, n: nat): Session {
    if n == 0 then s else Step(w, TickTimes(w, s, n - 1), Tick(0))
  }

  /** The session `n` ticks after a corrected, granted start. */
  function Spelling(st: Stream, n: nat): Session {
    Session(Page(true, false, Transcript(n), Some(st)), [Feed(false, false, n)], [st])
  }

  /** With the corrected wiring a granted start from the initial page
      activates the camera, holds the stream and starts one feed. */
  lemma CorrectedStartActivates(st: Stream)
    ensures Step(Corrected, InitialSession, ClickStart(Granted(st))) == Spelling(st, 0)
  {
    var t := StartWebcamMounted(Initial, Granted(st));
    assert t.effects == [StartFeed(Feed(false, false, 0))];
    assert FeedsStarted(t.effects) == [Feed(false, false, 0)];
    assert Transcript(0) == "";
  }

  /** Each live tick appends the next phrase. */
  lemma CorrectedTickAppends(st: Stream, n: nat)
    ensures Step(Corrected, Spelling(st, n), Tick(0)) == Spelling(st, n + 1)
  {
    AppendExtendsTranscript(n);
    assert [Feed(false, false, n)][0 := Feed(false, false, n + 1)] == [Feed(false, false, n + 1)];
  }

  /** With the corrected wiring, `n` ticks after a granted start the text
      is the first `n` phrases. */
  lemma {:induction false} CorrectedStartSpellsTranscript(st: Stream, n: nat)
    ensures TickTimes(Corrected, Step(Corrected, InitialSession, ClickStart(Granted(st))), n) == Spelling(st, n)
  {
    if n == 0 {
      CorrectedStartActivates(st);
    } else {
      CorrectedStartSpellsTranscript(st, n - 1);
      CorrectedTickAppends(st, n - 1);
    }
  }
}
