# raspbian-mjpeg in Dafny

A model of `raspbian-mjpeg.js`. It is a Node.js wrapper around the RPi Cam
Web Interface's `raspimjpeg` daemon. The wrapper works through three kinds
of file:

- It watches a status file, drops empty and unchanged readings, and calls the
  status listeners registered with `onStatusChange`, which returns a disposer
  built on `_.without`.
- It writes one-line commands to a FIFO. `startCamera` writes "ru 1",
  `stopCamera` "ru 0", `takePicture` "im", `startTimelapse` "tl 10" and
  `stopTimelapse` "tl 0". Each of these, except `startTimelapse`, installs a
  one-shot status listener. The listener disposes itself and calls the caller
  back when the target status appears.
- It keeps a preview loop. The loop reads the MJPEG frame, hands it to every
  `onPreviewImage` subscriber, and reschedules itself after
  `max(0, 1000/fps - elapsed)` milliseconds.

A watch on the media folder records each reported file once in the
created-file ledger. `takePicture` and `stopTimelapse` hand the ledger to
their callback.

Modules:

- `Text`: JavaScript's `indexOf` and the `String.prototype.endsWith` polyfill
  built on it.
- `Options`: construction-time option merging, media-folder normalisation,
  and the checks in the order construction meets them, including the read of
  the preview file and the watch on the media folder, which throw when their
  path is missing.
- `Ledger`: the created-file ledger.
- `Registry`: the status-listener list, the `_.without` disposers, and one
  notification pass. The pass walks the snapshot it started with, while
  disposers replace the list.
- `Preview`: the frame delay, the frames handed out, and the loop's start/stop
  rule.
- `Machine`: the closure's state as a datatype, with one function per event or
  API call, and `Run` over a sequence of inputs. It is the specification the
  class is proved against. The invariants and scenario properties are proved
  on it.
- `Camera`: the wrapper object as a class whose fields are the closure's
  variables. Each method does the source's steps, loops included. Every
  method except `AddCommand` is proved to change the fields exactly as the
  matching `Machine` function says; `AddCommand` only appends its command to
  `commands`. The constructor, the watch handlers, the timer handler and the
  API methods also keep `Valid()`, which carries `Machine.Consistent` plus
  the fact that calls refused by `startCamera`/`stopCamera` stay dormant
  forever. The internal helpers are called only from those methods.

Calls into caller code are recorded in a trace, in order:

- `Frame(subscriber)`: a preview frame handed to a subscriber.
- `Notice(listener, status)`: a status listener called with a status.
- `Resolved(token, payload)`: the completion callback of call number `token`.

Callers are identified by numbers. File contents, the clock and watch events
are inputs.

## Model

| member | source | states |
|---|---|---|
| Text.ClampIndex | raspbian-mjpeg/raspbian-mjpeg.js:10 | the start position `indexOf` uses lies between 0 and the length of the string and equals the argument when that is already in range |
| Text.IndexFrom | raspbian-mjpeg/raspbian-mjpeg.js:10 | the result is -1 or a match at or after the start, and no match lies between the start and the result (none at all when -1) |
| Text.IndexOf | raspbian-mjpeg/raspbian-mjpeg.js:10 | `indexOf(sub, from)` returns the first occurrence at or after the clamped `from`, or -1 when there is none |
| Text.EndsWith | raspbian-mjpeg/raspbian-mjpeg.js:8-12 | the polyfill: `indexOf(suffix, length - suffix.length) !== -1`; its meaning is given by EndsWithIsSuffix |
| Text.EndsWithIsSuffix | raspbian-mjpeg/raspbian-mjpeg.js:8-12 | the polyfilled `endsWith` is true exactly when the argument is a suffix, including when the argument is longer than the string |
| Text.EndsWithAppended | raspbian-mjpeg/raspbian-mjpeg.js:128-130 | a string with `suffix` appended ends with `suffix` |
| Options.Given | raspbian-mjpeg/raspbian-mjpeg.js:26-35 | `_.extend`: a key the caller gave overrides the default; see ConfigureSucceedsIff and DefaultFps |
| Options.IsPath | raspbian-mjpeg/raspbian-mjpeg.js:112-126 | `_.isString(v) && v != ''`, the test every path option must pass; see ConfigureSucceedsIff |
| Options.NormaliseFolder | raspbian-mjpeg/raspbian-mjpeg.js:128-130 | the media folder ends in "/" afterwards; it is unchanged if it already did, otherwise exactly one "/" is appended |
| Options.NormaliseIdempotent | raspbian-mjpeg/raspbian-mjpeg.js:128-130 | normalising an already normalised folder changes nothing |
| Options.Configure | raspbian-mjpeg/raspbian-mjpeg.js:104-158 | a configuration that passes every check has a positive frame rate of at most 30, three non-empty paths and a media folder ending in "/" |
| Options.ConfigureSucceedsIff | raspbian-mjpeg/raspbian-mjpeg.js:26-158 | construction succeeds if and only if fps (default 25) is a number in (0, 30], the four paths are non-empty strings, and the status file, the FIFO, the MJPEG file and the normalised media folder exist; on success the wrapper keeps the given values with the folder normalised |
| Options.MissingMediaFolderRejected | raspbian-mjpeg/raspbian-mjpeg.js:104-158 | whenever every check before the watch passes but the normalised media folder is not on disk, construction fails with `MediaFolderMissing` |
| Options.DefaultFps | raspbian-mjpeg/raspbian-mjpeg.js:26-35 | leaving `fps` out gives 25 frames per second |
| Ledger.Record | raspbian-mjpeg/raspbian-mjpeg.js:158-164 | one watch event adds the path if and only if it is new, at the end, keeping every earlier entry in place; a ledger without duplicates stays so |
| Ledger.RecordAll | raspbian-mjpeg/raspbian-mjpeg.js:158-164 | a burst of watch events recorded one after the other; see RecordAllNoDuplicates, RecordAllMembers and RecordAllExtends |
| Ledger.RecordAllNoDuplicates | raspbian-mjpeg/raspbian-mjpeg.js:158-164 | after any burst of events the ledger holds each path at most once |
| Ledger.RecordAllMembers | raspbian-mjpeg/raspbian-mjpeg.js:158-164 | after a burst the ledger holds exactly the paths it held or was sent |
| Ledger.RecordAllExtends | raspbian-mjpeg/raspbian-mjpeg.js:158-164 | a burst never reorders or drops what the ledger held; new paths go at the end |
| Ledger.RecordIdempotent | raspbian-mjpeg/raspbian-mjpeg.js:161-163 | reporting the same path twice leaves the ledger as reporting it once |
| Ledger.ResetThenRecord | raspbian-mjpeg/raspbian-mjpeg.js:158-164 | from an empty ledger, p1, p1, then p2 leaves exactly `[p1, p2]` |
| Registry.TargetOf | raspbian-mjpeg/raspbian-mjpeg.js:199-250 | the status each one-shot waits for: 'ready' for `startCamera`, `takePicture` and `stopTimelapse`, 'halted' for `stopCamera`; see OneShotLifecycle |
| Registry.PayloadOf | raspbian-mjpeg/raspbian-mjpeg.js:227-250 | `takePicture` and `stopTimelapse` hand over the ledger, the camera operations nothing; see TakePictureReportsNewFiles |
| Registry.EventsOf | raspbian-mjpeg/raspbian-mjpeg.js:199-250 | the calls one listener makes for a status; see NotifyEmits and CallsContents |
| Registry.Calls | raspbian-mjpeg/raspbian-mjpeg.js:70-72 | the calls a pass over a snapshot makes, in registration order; see CallsContents and FanoutMakesCalls |
| Registry.Notify | raspbian-mjpeg/raspbian-mjpeg.js:199-204 | one listener's callback, a matching one-shot disposing itself before calling the caller; see NotifyEmits |
| Registry.Fanout | raspbian-mjpeg/raspbian-mjpeg.js:70-72 | the `_.each` pass over the snapshot while disposers replace the list; see FanoutMakesCalls, FanoutSurvivors and FanoutCoherent |
| Registry.Without | raspbian-mjpeg/raspbian-mjpeg.js:186-188 | a disposer leaves every other listener registered and the disposed one nowhere in the list |
| Registry.WithoutConcat | raspbian-mjpeg/raspbian-mjpeg.js:186-188 | a disposer keeps the remaining listeners in their registration order |
| Registry.WithoutAbsent | raspbian-mjpeg/raspbian-mjpeg.js:261-263 | disposing a callback that is not registered changes nothing |
| Registry.WithoutIdempotent | raspbian-mjpeg/raspbian-mjpeg.js:186-188 | calling a disposer a second time changes nothing |
| Registry.WithoutKeepsCount | raspbian-mjpeg/raspbian-mjpeg.js:261-263 | every other callback stays registered exactly as many times as before |
| Registry.WithoutCommutes | raspbian-mjpeg/raspbian-mjpeg.js:186-188 | two disposers give the same list whichever runs first |
| Registry.CallsContents | raspbian-mjpeg/raspbian-mjpeg.js:70-72 | a pass calls every status listener of the snapshot with the new status, resolves every one-shot waiting for that status, resolves no call that is not pending or whose listener does not match, and delivers no frames |
| Registry.FanoutMakesCalls | raspbian-mjpeg/raspbian-mjpeg.js:70-72 | the calls a pass makes, with disposers replacing the list as it goes, are exactly those of its snapshot in registration order |
| Registry.NotifyEmits | raspbian-mjpeg/raspbian-mjpeg.js:199-204 | a one-shot's callback calls the caller exactly when the status is its target; a listener from `onStatusChange` always gets a notice |
| Registry.FanoutListeners | raspbian-mjpeg/raspbian-mjpeg.js:199-204 | after a pass the list holds what it held minus exactly the one-shots of the snapshot that matched the status |
| Registry.Survivors | raspbian-mjpeg/raspbian-mjpeg.js:186-188 | the list with the snapshot's firing one-shots taken out holds exactly the listeners that were registered and did not fire |
| Registry.SurvivorsKeepCount | raspbian-mjpeg/raspbian-mjpeg.js:186-188 | a fired one-shot is gone entirely, and every other listener stays registered exactly as many times as before |
| Registry.SurvivorsSnoc | raspbian-mjpeg/raspbian-mjpeg.js:199-204 | one more firing one-shot in the snapshot takes exactly that listener out with `_.without` |
| Registry.FanoutSurvivors | raspbian-mjpeg/raspbian-mjpeg.js:70-72 | after a pass, with disposers replacing the list as it goes, the list is exactly the one it started from minus the snapshot's one-shots that fired, the others in their order and number |
| Registry.FanoutCoherent | raspbian-mjpeg/raspbian-mjpeg.js:70-72 | a pass keeps listener call numbers distinct and resolves each call at most once; no listener still registered has already been resolved |
| Preview.Period | raspbian-mjpeg/raspbian-mjpeg.js:59 | the frame period is positive and period × fps = 1000 ms |
| Preview.Delay | raspbian-mjpeg/raspbian-mjpeg.js:59 | the delay is never negative, and never more than one period when the elapsed time is not negative; elapsed time plus delay is at least one period, exactly one period when the frame took no longer than a period, and the delay is 0 when it took a period or more |
| Preview.Frames | raspbian-mjpeg/raspbian-mjpeg.js:51-53 | one frame goes to each subscriber, in subscription order |
| Preview.ShouldRun | raspbian-mjpeg/raspbian-mjpeg.js:77-87 | the loop runs after a status change only when not halted and with subscribers; see StatusReadEffect |
| Preview.Cadence | raspbian-mjpeg/raspbian-mjpeg.js:46-60 | the time from one read to the read after a run of frames; see CadenceKeepsRate and CadenceNeverFaster |
| Preview.CadenceKeepsRate | raspbian-mjpeg/raspbian-mjpeg.js:46-60 | while each frame takes no longer than a period, n reads span exactly n periods, so no drift builds up |
| Preview.CadenceNeverFaster | raspbian-mjpeg/raspbian-mjpeg.js:46-60 | however long frames take, n reads span at least n periods |
| Machine.StopPreview | raspbian-mjpeg/raspbian-mjpeg.js:42-44 | `clearTimeout`: the pending preview timer, if any, is cancelled; see PreviewImageConsistent |
| Machine.SchedulePreview | raspbian-mjpeg/raspbian-mjpeg.js:37-40 | cancel the pending timer, then set one with the given delay; see PreviewImageConsistent |
| Machine.PreviewImage | raspbian-mjpeg/raspbian-mjpeg.js:46-60 | frames to every subscriber, then a reschedule after `Preview.Delay`; see PreviewSubscriberFirstFrame and PreviewImageConsistent |
| Machine.PreviewWorker | raspbian-mjpeg/raspbian-mjpeg.js:76-88 | stop when halted or unwatched, otherwise a frame at once; see StatusReadEffect |
| Machine.StatusRead | raspbian-mjpeg/raspbian-mjpeg.js:62-74 | the filter, the status set, the preview decision, then the pass; see StatusReadEffect and StatusReadConsistent |
| Machine.Announce | raspbian-mjpeg/raspbian-mjpeg.js:70-72 | the pass over the listener list as it stands; see StatusReadEffect and AnnounceConsistent |
| Machine.StatusFileEvent | raspbian-mjpeg/raspbian-mjpeg.js:152-156 | only a 'change' event re-reads the status; see StepConsistent |
| Machine.TimerFired | raspbian-mjpeg/raspbian-mjpeg.js:39 | a pending preview timer runs the preview update; see StepConsistent |
| Machine.MediaFileEvent | raspbian-mjpeg/raspbian-mjpeg.js:158-164 | `folder + fileName` recorded in the ledger; see RunMediaEvents |
| Machine.Initial | raspbian-mjpeg/raspbian-mjpeg.js:148-150 | one status read, then the first preview update; see InitialConsistent |
| Machine.OnStatusChange | raspbian-mjpeg/raspbian-mjpeg.js:184 | the listener appended; see StepConsistent |
| Machine.DisposeStatusListener | raspbian-mjpeg/raspbian-mjpeg.js:186-188 | the list replaced by `_.without`; see Registry.WithoutKeepsCount and StepConsistent |
| Machine.OnPreviewImage | raspbian-mjpeg/raspbian-mjpeg.js:259 | the subscriber appended; see PreviewSubscribeIsPassive |
| Machine.DisposePreviewListener | raspbian-mjpeg/raspbian-mjpeg.js:261-263 | the subscriber list replaced by `_.without`; see Registry.WithoutKeepsCount |
| Machine.Install | raspbian-mjpeg/raspbian-mjpeg.js:199-206 | a one-shot under a fresh call number, then its command; see InstallConsistent |
| Machine.Refuse | raspbian-mjpeg/raspbian-mjpeg.js:195-197 | the call returns at once, installing nothing; see CameraCallGuard |
| Machine.StartCamera | raspbian-mjpeg/raspbian-mjpeg.js:190-208 | 'halted' guard, one-shot waiting for 'ready', "ru 1"; see CameraCallGuard |
| Machine.StopCamera | raspbian-mjpeg/raspbian-mjpeg.js:209-226 | 'ready' guard, one-shot waiting for 'halted', "ru 0"; see CameraCallGuard |
| Machine.TakePicture | raspbian-mjpeg/raspbian-mjpeg.js:227-238 | ledger reset, one-shot waiting for 'ready', "im"; see TakePictureReportsNewFiles |
| Machine.StartTimelapse | raspbian-mjpeg/raspbian-mjpeg.js:239-243 | ledger reset, "tl 10", no listener; see StepConsistent |
| Machine.StopTimelapse | raspbian-mjpeg/raspbian-mjpeg.js:244-253 | one-shot waiting for 'ready', "tl 0"; see OneShotLifecycle |
| Machine.Step | raspbian-mjpeg/raspbian-mjpeg.js:152-263 | one event or API call on a constructed wrapper; see StepConsistent |
| Machine.Run | raspbian-mjpeg/raspbian-mjpeg.js:152-263 | a sequence of events and calls; see RunConsistent and CompletionAtMostOnce |
| Machine.StatusReadEffect | raspbian-mjpeg/raspbian-mjpeg.js:62-88 | an empty or unchanged reading changes nothing; otherwise the status is set, the preview loop runs exactly when not halted and watched (frames first, one timer pending, delay as computed) and is stopped otherwise, then every listener of the snapshot is called, and the list becomes exactly the old one minus the matching one-shots, the others in their order and number |
| Machine.OneShotLifecycle | raspbian-mjpeg/raspbian-mjpeg.js:199-250 | a registered one-shot ignores every status but its target; on its target it leaves the list and its caller gets the operation's result |
| Machine.CompletionAtMostOnce | raspbian-mjpeg/raspbian-mjpeg.js:199-250 | whatever events follow, no completion callback is ever called twice |
| Machine.CameraCallGuard | raspbian-mjpeg/raspbian-mjpeg.js:190-226 | `startCamera` acts only from 'halted' and `stopCamera` only from 'ready', registering a one-shot and writing "ru 1"/"ru 0"; otherwise nothing is written or registered and the callback is never called, whatever follows |
| Machine.PreviewImageConsistent | raspbian-mjpeg/raspbian-mjpeg.js:37-60 | a preview update keeps the state consistent, leaving at most one timer pending |
| Machine.PreviewWorkerConsistent | raspbian-mjpeg/raspbian-mjpeg.js:76-88 | the start/stop decision keeps the state consistent |
| Machine.AnnounceConsistent | raspbian-mjpeg/raspbian-mjpeg.js:70-72 | a notification pass keeps the state consistent and a dormant call dormant |
| Machine.StatusReadConsistent | raspbian-mjpeg/raspbian-mjpeg.js:62-74 | a status reading keeps the state consistent and a dormant call dormant |
| Machine.InstallConsistent | raspbian-mjpeg/raspbian-mjpeg.js:199-206 | registering a one-shot under a fresh call number and writing its command keeps the state consistent |
| Machine.StepConsistent | raspbian-mjpeg/raspbian-mjpeg.js:152-263 | every event and API call keeps the state consistent and a dormant call dormant |
| Machine.RunConsistent | raspbian-mjpeg/raspbian-mjpeg.js:152-263 | any sequence of events and calls keeps the state consistent and a dormant call dormant |
| Machine.InitialConsistent | raspbian-mjpeg/raspbian-mjpeg.js:148-150 | a new wrapper is consistent, holds the first non-empty status read, has made no calls and has exactly one preview update pending |
| Machine.PreviewSubscribeIsPassive | raspbian-mjpeg/raspbian-mjpeg.js:254-260 | subscribing to previews appends the subscriber and starts or delivers nothing by itself |
| Machine.PreviewSubscriberFirstFrame | raspbian-mjpeg/raspbian-mjpeg.js:76-88 | a new preview subscriber gets a frame at the next change to a status other than 'halted', right after the earlier subscribers and before any status listener runs |
| Machine.RunMediaEvents | raspbian-mjpeg/raspbian-mjpeg.js:158-164 | a run of media events changes only the ledger, recording `folder + name` for each name in order |
| Machine.TakePictureReportsNewFiles | raspbian-mjpeg/raspbian-mjpeg.js:227-238 | `takePicture` from 'ready', then the files, then 'image' and 'ready': the caller gets exactly the files reported since the call, each once, in order of first report |
| Camera.Camera.constructor | raspbian-mjpeg/raspbian-mjpeg.js:148-150 | a new wrapper reads the status once, runs the first preview update, and starts valid |
| Camera.Camera.StopPreviewImageUpdate | raspbian-mjpeg/raspbian-mjpeg.js:42-44 | cancels the pending preview timer, if there is one |
| Camera.Camera.StartPreviewImageUpdate | raspbian-mjpeg/raspbian-mjpeg.js:37-40 | cancels the pending timer, then schedules one with the given delay |
| Camera.Camera.UpdatePreviewImage | raspbian-mjpeg/raspbian-mjpeg.js:46-60 | the loop hands a frame to each subscriber of the list as it stood, in order, then reschedules after `Preview.Delay` |
| Camera.Camera.UpdatePreviewWorkerState | raspbian-mjpeg/raspbian-mjpeg.js:76-88 | stops the loop when halted or unwatched, otherwise delivers a frame at once |
| Camera.Camera.NotifyStatusListeners | raspbian-mjpeg/raspbian-mjpeg.js:70-72 | the loop over the snapshot, with matching one-shots disposing themselves, leaves the list and the calls made as one `Fanout` pass does |
| Camera.Camera.UpdateStatus | raspbian-mjpeg/raspbian-mjpeg.js:62-74 | drops empty and unchanged readings; otherwise sets the status, re-evaluates the preview loop, then notifies |
| Camera.Camera.AddCommand | raspbian-mjpeg/raspbian-mjpeg.js:90-98 | the command is appended to those written to the FIFO |
| Camera.Camera.StatusFileEvent | raspbian-mjpeg/raspbian-mjpeg.js:152-156 | only a 'change' event re-reads the status; the wrapper stays valid |
| Camera.Camera.MediaFileEvent | raspbian-mjpeg/raspbian-mjpeg.js:158-164 | `folder + fileName` is recorded unless already present; the wrapper stays valid |
| Camera.Camera.PreviewTimerFired | raspbian-mjpeg/raspbian-mjpeg.js:39 | a pending timer runs the preview update; the wrapper stays valid |
| Camera.Camera.OnStatusChange | raspbian-mjpeg/raspbian-mjpeg.js:179-185 | appends the listener; the wrapper stays valid |
| Camera.Camera.DisposeStatusListener | raspbian-mjpeg/raspbian-mjpeg.js:186-188 | replaces the list by `_.without`; the wrapper stays valid |
| Camera.Camera.OnPreviewImage | raspbian-mjpeg/raspbian-mjpeg.js:254-260 | appends the subscriber; the wrapper stays valid |
| Camera.Camera.DisposePreviewListener | raspbian-mjpeg/raspbian-mjpeg.js:261-263 | replaces the subscriber list by `_.without`; the wrapper stays valid |
| Camera.Camera.StartCamera | raspbian-mjpeg/raspbian-mjpeg.js:190-208 | from 'halted', registers the one-shot and writes "ru 1"; otherwise the call is refused and stays dormant for good |
| Camera.Camera.StopCamera | raspbian-mjpeg/raspbian-mjpeg.js:209-226 | from 'ready', registers the one-shot and writes "ru 0"; otherwise the call is refused and stays dormant for good |
| Camera.Camera.TakePicture | raspbian-mjpeg/raspbian-mjpeg.js:227-238 | empties the ledger, registers the one-shot waiting for 'ready', and writes "im", from any status |
| Camera.Camera.StartTimelapse | raspbian-mjpeg/raspbian-mjpeg.js:239-243 | empties the ledger and writes "tl 10"; no callback is registered |
| Camera.Camera.StopTimelapse | raspbian-mjpeg/raspbian-mjpeg.js:244-253 | registers the one-shot waiting for 'ready' and writes "tl 0", from any status |
| Camera.Create | raspbian-mjpeg/raspbian-mjpeg.js:21-164 | fails with the first failing check, including a missing preview file or media folder; otherwise returns a new, valid wrapper built from the checked options |

## Left out

- File reads, `fs.watch` and `exec` are I/O. The status file's contents, watch events, and the set of existing paths are inputs. A command handed to `exec` is appended to `commands`, in call order.
- `addCommand` writes to the literal relative path `FIFO`, not to the configured `fifoFilePath`, and only logs send errors. No send failure ever reaches a caller, so none is modelled.
- Timers and `now()`: a pending `setTimeout` is a count, and its firing is an input. The time a preview update takes is the `elapsed` input. The model cannot tell which timer handle `clearTimeout` receives; it assumes the last one set.
- Frame bytes and the `console.log` of exec errors are not modelled. A frame delivery is recorded as `Frame(subscriber)`.
- The `TypeError` thrown when a callback argument is not a function is not modelled. Callers are numbers, so every argument is a callback.
- Options.Configure: a NaN `fps` passes the source's checks, but Dafny's reals have no NaN, so the model has no such input.
- Options.Configure: the out-of-range branch evaluates `new new VError(...)`, which itself throws a TypeError. The model reports `FpsOutOfRange` for it, as a failure.
- The `_.isObject(options)` check at line 100 can never throw, because `_.extend` always returns the object it extends. It has no counterpart.
- Callbacks run caller code, which is opaque here. A callback that re-enters the wrapper during a pass is not modelled. A listener added during a pass would not be reached, because `_.each` reads the list's length once, when the pass begins.
- Reads after construction are assumed to succeed. In the source, a failing read at line 48 (from the timer or from the worker at line 68) or at line 63 (from the status watch) throws out of the timer callback or the watch handler; one reached through line 68 also skips the listener pass at lines 70-72.
- Callbacks are assumed to return normally. In the source, a status listener that throws ends the `_.each` at lines 70-72 after the status is set and the preview decision taken; later listeners, including one-shots that would have resolved, are not called, and the exception leaves the watch handler at lines 152-156. A preview subscriber that throws ends `updatePreviewImage` before line 59, so the loop stops rescheduling.
- When the media-folder watch at line 158 throws, the status watch set at line 152 and the preview timer set at line 150 are already running and are never cleaned up. The model reports only the failure.
- `takePicture` and `stopTimelapse` hand callers the ledger array itself, and later watch events mutate it. The model hands over the value at the time of the call, so this aliasing is not captured.
- An `fs.watch` event with a `null` file name (the string "null" once concatenated) is not distinguished from other names.
- `this.onStatusChange` inside the operations depends on how the method is called. The model assumes it is called on the returned object.
- The code behaves as follows, and the model follows it:
  - `takePicture`, `startTimelapse` and `stopTimelapse` check no status before acting.
  - A refused `startCamera`/`stopCamera` returns silently and never calls back; no error reaches the caller.
  - `startTimelapse` takes no interval and no callback; it always writes "tl 10".
  - After a status change, the preview worker is re-evaluated (line 68) before the listeners are called (lines 70-72).
  - The preview loop keeps rescheduling after the last subscriber leaves until the next status change, and it starts at construction even when halted.
  - The ledger has no transient-suffix filter, and the media watch records events of every kind.
  - There is no recording, no tuning setter, no `getStatus` and no `disposeCamera`.
- Preview.CadenceKeepsRate: assumes each timer fires exactly after the delay it was given and that arithmetic is exact over reals. Node waits at least 1 ms, uses 1 ms for any delay above 2147483647 ms, and computes with doubles, so "exactly n periods" and period × fps = 1000 hold only up to rounding.
- Preview.CadenceNeverFaster: assumes the same exact timers. For fps below about 4.7e-7 the period exceeds 2147483647 ms; Node then fires after 1 ms, and the source reads far faster than its rate.
