/**
 * The wrapper object `raspbianMJpeg(options)` returns, with the closure's
 * variables as fields. Each method does what the source does, step by step,
 * and is proved to leave the fields as the matching `Machine` transition says;
 * `Valid()` carries the invariants proved there.
 */
module Camera {
  import opened Wrappers
  import opened Options
  import opened Registry
  import Preview
  import Machine

  class Camera {
    const cfg: Config
    var activeStatus: Option<string>
    var listeners: seq<Listener>
    var previewSubs: seq<nat>
    var createdFiles: seq<string>
    /** The commands handed to `exec` for the FIFO, in call order. */
    var commands: seq<string>
    var pendingTimers: nat
    var scheduledDelay: real
    /** Every call into caller code, oldest first. */
    var trace: seq<Event>
    /** The number the next `startCamera`/`stopCamera`/`takePicture`/`stopTimelapse` call gets. */
    var nextToken: nat
    /** The calls that returned without registering anything. */
    ghost var refused: set<nat>

    function Snapshot(): Machine.State
      reads this
    {
      Machine.State(activeStatus, listeners, previewSubs, createdFiles, commands, pendingTimers, scheduledDelay, trace, nextToken)
    }

    ghost predicate Valid()
      reads this
    {
      && ValidConfig(cfg)
      && Machine.Consistent(Snapshot(), cfg.mediaFolder)
      && forall t :: t in refused ==> Machine.Dormant(Snapshot(), t)
    }

    /** Everything after the option checks: the first status read, then the first preview update. */
    constructor (cfg: Config, initialStatus: string, elapsed: real)
      requires ValidConfig(cfg)
      ensures Valid() && this.cfg == cfg && refused == {}
      ensures Snapshot() == Machine.Initial(cfg.fps, initialStatus, elapsed)
    {
      this.cfg := cfg;
      activeStatus := None;
      listeners := [];
      previewSubs := [];
      createdFiles := [];
      commands := [];
      pendingTimers := 0;
      scheduledDelay := 0.0;
      trace := [];
      nextToken := 0;
      refused := {};
      new;
      UpdateStatus(initialStatus, elapsed);
      UpdatePreviewImage(elapsed);
      Machine.InitialConsistent(cfg, initialStatus, elapsed);
    }

    // ----- preview loop -----

    method StopPreviewImageUpdate()
      modifies this`pendingTimers
      ensures Snapshot() == Machine.StopPreview(old(Snapshot()))
    {
      if pendingTimers > 0 {
        pendingTimers := pendingTimers - 1;
      }
    }

    method StartPreviewImageUpdate(delay: real)
      modifies this`pendingTimers, this`scheduledDelay
      ensures Snapshot() == Machine.SchedulePreview(old(Snapshot()), delay)
    {
      StopPreviewImageUpdate();
      pendingTimers := pendingTimers + 1;
      scheduledDelay := delay;
    }

    /** Hands the frame to each subscriber of the list as it stands, then reschedules. */
    method UpdatePreviewImage(elapsed: real)
      modifies this`trace, this`pendingTimers, this`scheduledDelay
      ensures Snapshot() == Machine.PreviewImage(old(Snapshot()), cfg.fps, elapsed)
    {
      var subscribers := previewSubs;
      var i := 0;
      while i < |subscribers|
        invariant 0 <= i <= |subscribers|
        invariant trace == old(trace) + Preview.Frames(subscribers[..i])
        invariant pendingTimers == old(pendingTimers) && scheduledDelay == old(scheduledDelay)
      {
        trace := trace + [Frame(subscribers[i])];
        assert subscribers[..i + 1][..i] == subscribers[..i];
        i := i + 1;
      }
      assert subscribers[..i] == subscribers;
      StartPreviewImageUpdate(Preview.Delay(cfg.fps, elapsed));
    }

    method UpdatePreviewWorkerState(elapsed: real)
      modifies this`trace, this`pendingTimers, this`scheduledDelay
      ensures Snapshot() == Machine.PreviewWorker(old(Snapshot()), cfg.fps, elapsed)
    {
      if activeStatus == Some("halted") {
        StopPreviewImageUpdate();
      } else if |previewSubs| == 0 {
        StopPreviewImageUpdate();
      } else {
        UpdatePreviewImage(elapsed);
      }
    }

    // ----- status tracker -----

    /** The `_.each` over the listener list: disposers replace `listeners`, the loop keeps its snapshot. */
    method NotifyStatusListeners(status: string)
      modifies this`listeners, this`trace
      ensures Snapshot() == Machine.Announce(old(Snapshot()), status)
    {
      var snapshot := listeners;
      var i := 0;
      while i < |snapshot|
        invariant 0 <= i <= |snapshot|
        invariant Pass(listeners, trace) == Fanout(snapshot[..i], status, createdFiles, Pass(snapshot, old(trace)))
      {
        var l := snapshot[i];
        match l {
          case User(id) =>
            trace := trace + [Notice(id, status)];
          case OneShot(token, op) =>
            if status == TargetOf(op) {
              listeners := Without(listeners, l);
              trace := trace + [Resolved(token, PayloadOf(op, createdFiles))];
            }
        }
        assert snapshot[..i + 1][..i] == snapshot[..i];
        i := i + 1;
      }
      assert snapshot[..i] == snapshot;
    }

    method UpdateStatus(newStatus: string, elapsed: real)
      modifies this`activeStatus, this`listeners, this`trace, this`pendingTimers, this`scheduledDelay
      ensures Snapshot() == Machine.StatusRead(old(Snapshot()), cfg.fps, newStatus, elapsed)
    {
      if newStatus != "" && activeStatus != Some(newStatus) {
        activeStatus := Some(newStatus);
        UpdatePreviewWorkerState(elapsed);
        NotifyStatusListeners(newStatus);
      }
    }

    method AddCommand(command: string)
      modifies this`commands
      ensures commands == old(commands) + [command]
    {
      commands := commands + [command];
    }

    // ----- events from the watches and the timer -----

    /** The status file's watch handler. */
    method StatusFileEvent(event: string, contents: string, elapsed: real)
      requires Valid()
      modifies this`activeStatus, this`listeners, this`trace, this`pendingTimers, this`scheduledDelay
      ensures Valid()
      ensures Snapshot() == Machine.StatusFileEvent(old(Snapshot()), cfg.fps, event, contents, elapsed)
    {
      if event == "change" {
        UpdateStatus(contents, elapsed);
      }
      Machine.StepConsistent(old(Snapshot()), cfg, Machine.StatusFileChanged(event, contents, elapsed));
    }

    /** The media folder's watch handler. */
    method MediaFileEvent(event: string, fileName: string)
      requires Valid()
      modifies this`createdFiles
      ensures Valid()
      ensures Snapshot() == Machine.MediaFileEvent(old(Snapshot()), cfg.mediaFolder, fileName)
    {
      var path := cfg.mediaFolder + fileName;
      if path !in createdFiles {
        createdFiles := createdFiles + [path];
      }
      Machine.StepConsistent(old(Snapshot()), cfg, Machine.MediaFileChanged(event, fileName));
    }

    /** The pending preview timer fires. */
    method PreviewTimerFired(elapsed: real)
      requires Valid()
      modifies this`trace, this`pendingTimers, this`scheduledDelay
      ensures Valid()
      ensures Snapshot() == Machine.TimerFired(old(Snapshot()), cfg.fps, elapsed)
    {
      if pendingTimers > 0 {
        pendingTimers := pendingTimers - 1;
        UpdatePreviewImage(elapsed);
      }
      Machine.StepConsistent(old(Snapshot()), cfg, Machine.PreviewTimerFired(elapsed));
    }

    // ----- the returned API -----

    method OnStatusChange(id: nat)
      requires Valid()
      modifies this`listeners
      ensures Valid()
      ensures Snapshot() == Machine.OnStatusChange(old(Snapshot()), id)
    {
      listeners := listeners + [User(id)];
      Machine.StepConsistent(old(Snapshot()), cfg, Machine.SubscribeStatus(id));
    }

    method DisposeStatusListener(id: nat)
      requires Valid()
      modifies this`listeners
      ensures Valid()
      ensures Snapshot() == Machine.DisposeStatusListener(old(Snapshot()), id)
    {
      listeners := Without(listeners, User(id));
      Machine.StepConsistent(old(Snapshot()), cfg, Machine.UnsubscribeStatus(id));
    }

    method OnPreviewImage(id: nat)
      requires Valid()
      modifies this`previewSubs
      ensures Valid()
      ensures Snapshot() == Machine.OnPreviewImage(old(Snapshot()), id)
    {
      previewSubs := previewSubs + [id];
      Machine.StepConsistent(old(Snapshot()), cfg, Machine.SubscribePreview(id));
    }

    method DisposePreviewListener(id: nat)
      requires Valid()
      modifies this`previewSubs
      ensures Valid()
      ensures Snapshot() == Machine.DisposePreviewListener(old(Snapshot()), id)
    {
      previewSubs := Without(previewSubs, id);
      Machine.StepConsistent(old(Snapshot()), cfg, Machine.UnsubscribePreview(id));
    }

    /** Returns the call's number; a refused call's callback can never run. */
    method StartCamera() returns (token: nat)
      requires Valid()
      modifies this`listeners, this`commands, this`nextToken, this`refused
      ensures Valid()
      ensures token == old(nextToken)
      ensures Snapshot() == Machine.StartCamera(old(Snapshot()))
      ensures refused == if old(activeStatus) == Some("halted") then old(refused) else old(refused) + {token}
    {
      token := nextToken;
      nextToken := nextToken + 1;
      if activeStatus != Some("halted") {
        refused := refused + {token};
      } else {
        listeners := listeners + [OneShot(token, StartCameraOp)];
        AddCommand("ru 1");
      }
      Machine.StepConsistent(old(Snapshot()), cfg, Machine.StartCameraCall);
    }

    method StopCamera() returns (token: nat)
      requires Valid()
      modifies this`listeners, this`commands, this`nextToken, this`refused
      ensures Valid()
      ensures token == old(nextToken)
      ensures Snapshot() == Machine.StopCamera(old(Snapshot()))
      ensures refused == if old(activeStatus) == Some("ready") then old(refused) else old(refused) + {token}
    {
      token := nextToken;
      nextToken := nextToken + 1;
      if activeStatus != Some("ready") {
        refused := refused + {token};
      } else {
        listeners := listeners + [OneShot(token, StopCameraOp)];
        AddCommand("ru 0");
      }
      Machine.StepConsistent(old(Snapshot()), cfg, Machine.StopCameraCall);
    }

    method TakePicture() returns (token: nat)
      requires Valid()
      modifies this`createdFiles, this`listeners, this`commands, this`nextToken
      ensures Valid()
      ensures token == old(nextToken)
      ensures Snapshot() == Machine.TakePicture(old(Snapshot()))
    {
      createdFiles := [];
      token := nextToken;
      nextToken := nextToken + 1;
      listeners := listeners + [OneShot(token, TakePictureOp)];
      AddCommand("im");
      Machine.StepConsistent(old(Snapshot()), cfg, Machine.TakePictureCall);
    }

    method StartTimelapse()
      requires Valid()
      modifies this`createdFiles, this`commands
      ensures Valid()
      ensures Snapshot() == Machine.StartTimelapse(old(Snapshot()))
    {
      createdFiles := [];
      AddCommand("tl 10");
      Machine.StepConsistent(old(Snapshot()), cfg, Machine.StartTimelapseCall);
    }

    method StopTimelapse() returns (token: nat)
      requires Valid()
      modifies this`listeners, this`commands, this`nextToken
      ensures Valid()
      ensures token == old(nextToken)
      ensures Snapshot() == Machine.StopTimelapse(old(Snapshot()))
    {
      token := nextToken;
      nextToken := nextToken + 1;
      listeners := listeners + [OneShot(token, StopTimelapseOp)];
      AddCommand("tl 0");
      Machine.StepConsistent(old(Snapshot()), cfg, Machine.StopTimelapseCall);
    }
  }

  /**
   * `raspbianMJpeg(options)`: throws (here: fails) on the first option check
   * that does not hold, otherwise returns a wrapper that has read the status
   * once and scheduled its first preview update.
   */
  method Create(options: RawOptions, existing: set<string>, initialStatus: string, elapsed: real)
    returns (r: Result<Camera, ConfigError>)
    ensures Configure(options, existing).Failure? ==> r == Failure(Configure(options, existing).error)
    ensures Configure(options, existing).Success? ==>
      && r.Success? && fresh(r.value) && r.value.Valid()
      && r.value.cfg == Configure(options, existing).value
      && r.value.Snapshot() == Machine.Initial(r.value.cfg.fps, initialStatus, elapsed)
  {
    var c := Configure(options, existing);
    if c.Failure? {
      return Failure(c.error);
    }
    var camera := new Camera(c.value, initialStatus, elapsed);
    return Success(camera);
  }
}
