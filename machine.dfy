/**
 * The wrapper's closure state and every transition on it, as functions: the
 * specification the `Camera` class is proved against, and the place where
 * the properties of the event-driven state machine are proved.
 */
module Machine {
  import opened Wrappers
  import opened Options
  import opened Registry
  import Preview
  import Ledger

  /**
   * The closure's variables: the last status read, the status listeners, the
   * preview subscribers, the created-file ledger, the commands written to the
   * FIFO, the preview timers pending and the delay of the last one scheduled,
   * every call into caller code so far, and the next call number.
   */
  datatype State = State(
    status: Option<string>,
    listeners: seq<Listener>,
    previewSubs: seq<nat>,
    createdFiles: seq<string>,
    commands: seq<string>,
    pendingTimers: nat,
    scheduledDelay: real,
    trace: seq<Event>,
    nextToken: nat)

  /** The variables as declared, before the first status read. */
  const Fresh: State := State(None, [], [], [], [], 0, 0.0, [], 0)

  // ----- preview worker -----

  /** `clearTimeout(handle)`: cancels the timer the handle names, if it is still pending. */
  function StopPreview(st: State): State {
    st.(pendingTimers := if st.pendingTimers == 0 then 0 else st.pendingTimers - 1)
  }

  /** `startPreviewImageUpdate(delay)`: cancel the previous timer, then set a new one. */
  function SchedulePreview(st: State, delay: real): State {
    var stopped := StopPreview(st);
    stopped.(pendingTimers := stopped.pendingTimers + 1, scheduledDelay := delay)
  }

  /** `updatePreviewImage`: hand the frame to every subscriber, then reschedule after the adjusted delay. */
  function PreviewImage(st: State, fps: Fps, elapsed: real): State {
    SchedulePreview(st.(trace := st.trace + Preview.Frames(st.previewSubs)), Preview.Delay(fps, elapsed))
  }

  /** `updatePreviewWorkerState`: stop when halted or unwatched, otherwise deliver a frame at once. */
  function PreviewWorker(st: State, fps: Fps, elapsed: real): State {
    if st.status == Some("halted") then StopPreview(st)
    else if |st.previewSubs| == 0 then StopPreview(st)
    else PreviewImage(st, fps, elapsed)
  }

  // ----- status tracker -----

  /**
   * `updateStatus` with the file's contents: an empty or unchanged reading is
   * dropped; otherwise the status is set, the preview worker re-evaluated, and
   * then the listeners registered at that moment are called in order.
   */
  function StatusRead(st: State, fps: Fps, reading: string, elapsed: real): State {
    if reading == "" || st.status == Some(reading) then st
    else Announce(PreviewWorker(st.(status := Some(reading)), fps, elapsed), reading)
  }

  /** The `_.each` over the listener list as it stands when the pass begins. */
  function Announce(st: State, status: string): State {
    var pass := Fanout(st.listeners, status, st.createdFiles, Pass(st.listeners, st.trace));
    st.(listeners := pass.listeners, trace := pass.trace)
  }

  /** The status file's watch handler: only 'change' events re-read the file. */
  function StatusFileEvent(st: State, fps: Fps, event: string, contents: string, elapsed: real): State {
    if event == "change" then StatusRead(st, fps, contents, elapsed) else st
  }

  /** The pending preview timer fires and runs `updatePreviewImage`. */
  function TimerFired(st: State, fps: Fps, elapsed: real): State {
    if st.pendingTimers == 0 then st
    else PreviewImage(st.(pendingTimers := st.pendingTimers - 1), fps, elapsed)
  }

  /** The media folder's watch handler, for any event kind. */
  function MediaFileEvent(st: State, folder: string, fileName: string): State {
    st.(createdFiles := Ledger.Record(st.createdFiles, folder + fileName))
  }

  /** Construction after the checks: one status read, then the first preview update. */
  function Initial(fps: Fps, initialStatus: string, elapsed: real): State {
    PreviewImage(StatusRead(Fresh, fps, initialStatus, elapsed), fps, elapsed)
  }

  // ----- the returned API -----

  function OnStatusChange(st: State, id: nat): State {
    st.(listeners := st.listeners + [User(id)])
  }

  /** The disposer `onStatusChange` returns. */
  function DisposeStatusListener(st: State, id: nat): State {
    st.(listeners := Without(st.listeners, User(id)))
  }

  function OnPreviewImage(st: State, id: nat): State {
    st.(previewSubs := st.previewSubs + [id])
  }

  /** The disposer `onPreviewImage` returns. */
  function DisposePreviewListener(st: State, id: nat): State {
    st.(previewSubs := Without(st.previewSubs, id))
  }

  /** Call number `nextToken` registers its one-shot listener, then writes its command. */
  function Install(st: State, op: Op, command: string): State {
    st.(listeners := st.listeners + [OneShot(st.nextToken, op)],
        commands := st.commands + [command],
        nextToken := st.nextToken + 1)
  }

  /** Call number `nextToken` returns at once, installing nothing. */
  function Refuse(st: State): State {
    st.(nextToken := st.nextToken + 1)
  }

  function StartCamera(st: State): State {
    if st.status != Some("halted") then Refuse(st) else Install(st, StartCameraOp, "ru 1")
  }

  function StopCamera(st: State): State {
    if st.status != Some("ready") then Refuse(st) else Install(st, StopCameraOp, "ru 0")
  }

  function TakePicture(st: State): State {
    Install(st.(createdFiles := []), TakePictureOp, "im")
  }

  /** The interval is fixed: the command is "tl " followed by 1 * 10. */
  function StartTimelapse(st: State): State {
    st.(createdFiles := [], commands := st.commands + ["tl 10"])
  }

  function StopTimelapse(st: State): State {
    Install(st, StopTimelapseOp, "tl 0")
  }

  // ----- runs of events -----

  /** Everything that can happen to a constructed wrapper. */
  datatype Input =
    | StatusFileChanged(event: string, contents: string, elapsed: real)
    | MediaFileChanged(event: string, fileName: string)
    | PreviewTimerFired(elapsed: real)
    | SubscribeStatus(id: nat)
    | UnsubscribeStatus(id: nat)
    | SubscribePreview(id: nat)
    | UnsubscribePreview(id: nat)
    | StartCameraCall
    | StopCameraCall
    | TakePictureCall
    | StartTimelapseCall
    | StopTimelapseCall

  function Step(st: State, cfg: Config, input: Input): State {
    match input
    case StatusFileChanged(event, contents, elapsed) => StatusFileEvent(st, cfg.fps, event, contents, elapsed)
    case MediaFileChanged(_, fileName) => MediaFileEvent(st, cfg.mediaFolder, fileName)
    case PreviewTimerFired(elapsed) => TimerFired(st, cfg.fps, elapsed)
    case SubscribeStatus(id) => OnStatusChange(st, id)
    case UnsubscribeStatus(id) => DisposeStatusListener(st, id)
    case SubscribePreview(id) => OnPreviewImage(st, id)
    case UnsubscribePreview(id) => DisposePreviewListener(st, id)
    case StartCameraCall => StartCamera(st)
    case StopCameraCall => StopCamera(st)
    case TakePictureCall => TakePicture(st)
    case StartTimelapseCall => StartTimelapse(st)
    case StopTimelapseCall => StopTimelapse(st)
  }

  function Run(st: State, cfg: Config, inputs: seq<Input>): State
    decreases |inputs|
  {
    if inputs == [] then st else Run(Step(st, cfg, inputs[0]), cfg, inputs[1..])
  }

  // ----- invariants -----

  /**
   * The state every reachable wrapper is in: the listener list and the calls
   * made are coherent, call numbers are all below `nextToken`, at most one
   * preview timer is pending, and the ledger holds distinct paths inside the
   * media folder.
   */
  ghost predicate Consistent(st: State, folder: string) {
    && Coherent(Pass(st.listeners, st.trace))
    && (forall t :: t >= st.nextToken ==> NotPending(st.listeners, t) && NotResolved(st.trace, t))
    && st.pendingTimers <= 1
    && Ledger.NoDuplicates(st.createdFiles)
    && (forall f :: f in st.createdFiles ==> folder <= f)
  }

  /** Call `t` was made, has nothing registered, and its callback has not run. */
  predicate Dormant(st: State, t: nat) {
    t < st.nextToken && NotPending(st.listeners, t) && NotResolved(st.trace, t)
  }

  lemma PreviewImageConsistent(st: State, folder: string, fps: Fps, elapsed: real)
    requires Consistent(st, folder)
    ensures Consistent(PreviewImage(st, fps, elapsed), folder)
    ensures forall t :: Dormant(st, t) ==> Dormant(PreviewImage(st, fps, elapsed), t)
  {
    AppendUnresolved(st.trace, Preview.Frames(st.previewSubs));
  }

  lemma PreviewWorkerConsistent(st: State, folder: string, fps: Fps, elapsed: real)
    requires Consistent(st, folder)
    ensures Consistent(PreviewWorker(st, fps, elapsed), folder)
    ensures forall t :: Dormant(st, t) ==> Dormant(PreviewWorker(st, fps, elapsed), t)
  {
    if st.status != Some("halted") && |st.previewSubs| != 0 {
      PreviewImageConsistent(st, folder, fps, elapsed);
    }
  }

  lemma AnnounceConsistent(st: State, folder: string, status: string)
    requires Consistent(st, folder)
    ensures Consistent(Announce(st, status), folder)
    ensures forall t :: Dormant(st, t) ==> Dormant(Announce(st, status), t)
  {
    var p := Pass(st.listeners, st.trace);
    var q := Fanout(st.listeners, status, st.createdFiles, p);
    var r := Announce(st, status);
    FanoutCoherent(st.listeners, status, st.createdFiles, p);
    FanoutListeners(st.listeners, status, st.createdFiles, p);
    FanoutMakesCalls(st.listeners, status, st.createdFiles, p);
    CallsContents(st.listeners, status, st.createdFiles);
    forall t | NotPending(st.listeners, t) && NotResolved(st.trace, t)
      ensures NotPending(r.listeners, t) && NotResolved(r.trace, t)
    {
      assert NotResolved(Calls(st.listeners, status, st.createdFiles), t);
    }
  }

  lemma StatusReadConsistent(st: State, folder: string, fps: Fps, reading: string, elapsed: real)
    requires Consistent(st, folder)
    ensures Consistent(StatusRead(st, fps, reading, elapsed), folder)
    ensures forall t :: Dormant(st, t) ==> Dormant(StatusRead(st, fps, reading, elapsed), t)
  {
    if reading != "" && st.status != Some(reading) {
      var withStatus := st.(status := Some(reading));
      PreviewWorkerConsistent(withStatus, folder, fps, elapsed);
      AnnounceConsistent(PreviewWorker(withStatus, fps, elapsed), folder, reading);
    }
  }

  lemma InstallConsistent(st: State, folder: string, op: Op, command: string)
    requires Consistent(st, folder)
    ensures Consistent(Install(st, op, command), folder)
    ensures forall t :: Dormant(st, t) ==> Dormant(Install(st, op, command), t)
  {
    UniqueTokensSnoc(st.listeners, OneShot(st.nextToken, op));
  }

  /** Every step keeps a wrapper consistent and a dormant call dormant. */
  lemma StepConsistent(st: State, cfg: Config, input: Input)
    requires Consistent(st, cfg.mediaFolder)
    ensures Consistent(Step(st, cfg, input), cfg.mediaFolder)
    ensures forall t :: Dormant(st, t) ==> Dormant(Step(st, cfg, input), t)
  {
    match input
    case StatusFileChanged(event, contents, elapsed) =>
      StatusReadConsistent(st, cfg.mediaFolder, cfg.fps, contents, elapsed);
    case MediaFileChanged(_, fileName) =>
    case PreviewTimerFired(elapsed) =>
      if st.pendingTimers > 0 {
        PreviewImageConsistent(st.(pendingTimers := st.pendingTimers - 1), cfg.mediaFolder, cfg.fps, elapsed);
      }
    case SubscribeStatus(id) =>
      UniqueTokensSnoc(st.listeners, User(id));
    case UnsubscribeStatus(id) =>
      WithoutUniqueTokens(st.listeners, User(id));
    case SubscribePreview(id) =>
    case UnsubscribePreview(id) =>
    case StartCameraCall =>
      InstallConsistent(st, cfg.mediaFolder, StartCameraOp, "ru 1");
    case StopCameraCall =>
      InstallConsistent(st, cfg.mediaFolder, StopCameraOp, "ru 0");
    case TakePictureCall =>
      InstallConsistent(st.(createdFiles := []), cfg.mediaFolder, TakePictureOp, "im");
    case StartTimelapseCall =>
    case StopTimelapseCall =>
      InstallConsistent(st, cfg.mediaFolder, StopTimelapseOp, "tl 0");
  }

  lemma {:induction false} RunConsistent(st: State, cfg: Config, inputs: seq<Input>)
    requires Consistent(st, cfg.mediaFolder)
    ensures Consistent(Run(st, cfg, inputs), cfg.mediaFolder)
    ensures forall t :: Dormant(st, t) ==> Dormant(Run(st, cfg, inputs), t)
    decreases |inputs|
  {
    if inputs != [] {
      StepConsistent(st, cfg, inputs[0]);
      RunConsistent(Step(st, cfg, inputs[0]), cfg, inputs[1..]);
    }
  }

  /** A freshly constructed wrapper is consistent, with its first preview update pending. */
  lemma InitialConsistent(cfg: Config, initialStatus: string, elapsed: real)
    ensures Consistent(Initial(cfg.fps, initialStatus, elapsed), cfg.mediaFolder)
    ensures Initial(cfg.fps, initialStatus, elapsed).status == if initialStatus == "" then None else Some(initialStatus)
    ensures Initial(cfg.fps, initialStatus, elapsed).pendingTimers == 1
    ensures Initial(cfg.fps, initialStatus, elapsed).trace == []
  {
    assert Fanout([], initialStatus, [], Pass([], [])) == Pass([], []);
  }

  // ----- the properties -----

  /**
   * A status reading: empty or unchanged, nothing happens; otherwise the new
   * status is recorded, the preview loop runs exactly when the camera is not
   * halted and has subscribers (delivering one frame to each first), then every
   * listener of the list as it stood is called in order, and exactly the
   * one-shots waiting for this status leave the list, the others keeping
   * their order and their number of entries.
   */
  lemma StatusReadEffect(st: State, fps: Fps, reading: string, elapsed: real)
    requires st.pendingTimers <= 1
    ensures reading == "" || st.status == Some(reading) ==> StatusRead(st, fps, reading, elapsed) == st
    ensures reading != "" && st.status != Some(reading) ==>
      var r := StatusRead(st, fps, reading, elapsed);
      var runs := Preview.ShouldRun(Some(reading), st.previewSubs);
      && r.status == Some(reading)
      && r.trace == st.trace + (if runs then Preview.Frames(st.previewSubs) else []) + Calls(st.listeners, reading, st.createdFiles)
      && (forall l :: l in r.listeners <==> l in st.listeners && !Fires(l, reading))
      && r.listeners == Survivors(st.listeners, st.listeners, reading)
      && r.pendingTimers == (if runs then 1 else 0)
      && (runs ==> r.scheduledDelay == Preview.Delay(fps, elapsed))
      && r.previewSubs == st.previewSubs
      && r.createdFiles == st.createdFiles
      && r.commands == st.commands
      && r.nextToken == st.nextToken
  {
    if reading != "" && st.status != Some(reading) {
      var changed := PreviewWorker(st.(status := Some(reading)), fps, elapsed);
      assert StatusRead(st, fps, reading, elapsed) == Announce(changed, reading);
      var p := Pass(changed.listeners, changed.trace);
      FanoutListeners(changed.listeners, reading, changed.createdFiles, p);
      FanoutSurvivors(changed.listeners, reading, changed.createdFiles, p);
      FanoutMakesCalls(changed.listeners, reading, changed.createdFiles, p);
      if !Preview.ShouldRun(Some(reading), st.previewSubs) {
        assert changed.trace == st.trace + [];
      }
    }
  }

  /**
   * A registered one-shot ignores every status but its target; on its target
   * it leaves the list and its caller is called back with the operation's result.
   */
  lemma OneShotLifecycle(st: State, folder: string, fps: Fps, reading: string, elapsed: real, token: nat, op: Op)
    requires Consistent(st, folder) && OneShot(token, op) in st.listeners
    requires reading != "" && st.status != Some(reading)
    ensures var r := StatusRead(st, fps, reading, elapsed);
      if reading == TargetOf(op) then
        Resolved(token, PayloadOf(op, st.createdFiles)) in r.trace && NotPending(r.listeners, token)
      else
        OneShot(token, op) in r.listeners && NotResolved(r.trace, token)
  {
    var l := OneShot(token, op);
    StatusReadEffect(st, fps, reading, elapsed);
    CallsContents(st.listeners, reading, st.createdFiles);
    var r := StatusRead(st, fps, reading, elapsed);
    if reading == TargetOf(op) {
      forall m | m in r.listeners && m.OneShot? ensures m.token != token {
        if m.token == token {
          SameToken(st.listeners, m, l);
        }
      }
    } else {
      assert NotResolved(st.trace, token);
      forall m | m in st.listeners && Fires(m, reading) ensures m.token != token {
        if m.token == token {
          SameToken(st.listeners, m, l);
        }
      }
      assert NoneFires(st.listeners, reading, token);
      var frames := if Preview.ShouldRun(Some(reading), st.previewSubs) then Preview.Frames(st.previewSubs) else [];
      AppendUnresolved(st.trace, frames);
      assert NotResolved(st.trace + frames, token);
    }
  }

  /** Whatever happens after a consistent state, no completion callback is ever called twice. */
  lemma CompletionAtMostOnce(st: State, cfg: Config, inputs: seq<Input>)
    requires Consistent(st, cfg.mediaFolder)
    ensures ResolvedOnce(Run(st, cfg, inputs).trace)
  {
    RunConsistent(st, cfg, inputs);
  }

  /**
   * `startCamera` acts only from 'halted' and `stopCamera` only from 'ready':
   * then it registers its one-shot and writes "ru 1" or "ru 0"; otherwise it
   * writes nothing, registers nothing, and its callback is never called,
   * whatever happens afterwards.
   */
  lemma CameraCallGuard(st: State, cfg: Config, call: Input, inputs: seq<Input>)
    requires Consistent(st, cfg.mediaFolder)
    requires call == StartCameraCall || call == StopCameraCall
    ensures
      var from := if call == StartCameraCall then "halted" else "ready";
      var command := if call == StartCameraCall then "ru 1" else "ru 0";
      var op := if call == StartCameraCall then StartCameraOp else StopCameraOp;
      var r := Step(st, cfg, call);
      if st.status == Some(from) then
        r.commands == st.commands + [command] && r.listeners == st.listeners + [OneShot(st.nextToken, op)]
      else
        r.commands == st.commands && r.listeners == st.listeners
        && NotResolved(Run(r, cfg, inputs).trace, st.nextToken)
  {
    var from := if call == StartCameraCall then "halted" else "ready";
    if st.status != Some(from) {
      var r := Step(st, cfg, call);
      assert Dormant(r, st.nextToken);
      StepConsistent(st, cfg, call);
      RunConsistent(r, cfg, inputs);
    }
  }

  /** A new preview subscriber starts nothing by itself. */
  lemma PreviewSubscribeIsPassive(st: State, id: nat)
    ensures OnPreviewImage(st, id).pendingTimers == st.pendingTimers
    ensures OnPreviewImage(st, id).trace == st.trace
    ensures OnPreviewImage(st, id).previewSubs == st.previewSubs + [id]
  {
  }

  /** A preview subscriber gets its first frame at the next change to a status other than 'halted', before any status listener runs. */
  lemma PreviewSubscriberFirstFrame(st: State, fps: Fps, id: nat, reading: string, elapsed: real)
    requires st.pendingTimers <= 1
    requires reading != "" && reading != "halted" && st.status != Some(reading)
    ensures
      var s1 := OnPreviewImage(st, id);
      var r := StatusRead(s1, fps, reading, elapsed);
      && |r.trace| > |st.trace| + |st.previewSubs|
      && r.trace[|st.trace| + |st.previewSubs|] == Frame(id)
      && r.pendingTimers == 1
      && r.scheduledDelay == Preview.Delay(fps, elapsed)
  {
    var s1 := OnPreviewImage(st, id);
    StatusReadEffect(s1, fps, reading, elapsed);
    assert Preview.ShouldRun(Some(reading), s1.previewSubs);
    var frames := Preview.Frames(s1.previewSubs);
    assert frames[|st.previewSubs|] == Frame(id);
  }

  /** The media events that report `names`, one after the other. */
  function MediaInputs(names: seq<string>): seq<Input>
    decreases |names|
  {
    if names == [] then [] else [MediaFileChanged("rename", names[0])] + MediaInputs(names[1..])
  }

  /** The paths the watch handler builds from `names`. */
  function InFolder(folder: string, names: seq<string>): seq<string>
    decreases |names|
  {
    if names == [] then [] else [folder + names[0]] + InFolder(folder, names[1..])
  }

  /** A run of media events only grows the ledger, and by exactly `RecordAll`. */
  lemma {:induction false} RunMediaEvents(st: State, cfg: Config, names: seq<string>)
    ensures Run(st, cfg, MediaInputs(names)) == st.(createdFiles := Ledger.RecordAll(st.createdFiles, InFolder(cfg.mediaFolder, names)))
    decreases |names|
  {
    if names != [] {
      var inputs := MediaInputs(names);
      assert inputs[0] == MediaFileChanged("rename", names[0]) && inputs[1..] == MediaInputs(names[1..]);
      RunMediaEvents(MediaFileEvent(st, cfg.mediaFolder, names[0]), cfg, names[1..]);
    }
  }

  /**
   * `takePicture` from 'ready': once the camera passes through 'image' and is
   * 'ready' again, the caller receives exactly the files reported since the
   * call, each once, in the order they first appeared.
   */
  lemma TakePictureReportsNewFiles(st: State, cfg: Config, names: seq<string>, e1: real, e2: real)
    requires Consistent(st, cfg.mediaFolder) && st.status == Some("ready")
    ensures
      var s1 := Run(TakePicture(st), cfg, MediaInputs(names));
      var s2 := StatusRead(s1, cfg.fps, "image", e1);
      var s3 := StatusRead(s2, cfg.fps, "ready", e2);
      Resolved(st.nextToken, Files(Ledger.RecordAll([], InFolder(cfg.mediaFolder, names)))) in s3.trace
  {
    var folder := cfg.mediaFolder;
    var l := OneShot(st.nextToken, TakePictureOp);
    var s0 := TakePicture(st);
    assert Consistent(s0, folder) && l in s0.listeners by {
      StepConsistent(st, cfg, TakePictureCall);
    }
    var s1 := Run(s0, cfg, MediaInputs(names));
    assert Consistent(s1, folder) && l in s1.listeners && s1.status == Some("ready")
        && s1.createdFiles == Ledger.RecordAll([], InFolder(folder, names)) by {
      RunMediaEvents(s0, cfg, names);
      RunConsistent(s0, cfg, MediaInputs(names));
    }
    var s2 := StatusRead(s1, cfg.fps, "image", e1);
    assert Consistent(s2, folder) && l in s2.listeners && s2.status == Some("image")
        && s2.createdFiles == s1.createdFiles by {
      StatusReadConsistent(s1, folder, cfg.fps, "image", e1);
      StatusReadEffect(s1, cfg.fps, "image", e1);
      OneShotLifecycle(s1, folder, cfg.fps, "image", e1, st.nextToken, TakePictureOp);
    }
    OneShotLifecycle(s2, folder, cfg.fps, "ready", e2, st.nextToken, TakePictureOp);
  }
}
