/**
 * Construction of a camera wrapper: the defaults merged in with `_.extend`,
 * the fail-fast option checks, the media folder normalised to end in "/",
 * and the existence checks on the files the constructor reads.
 */
module Options {
  import opened Wrappers
  import opened Text

  /** A frame rate the constructor accepts: more than 0, at most 30. */
  type Fps = r: real | 0.0 < r <= 30.0 witness 25.0

  /** The JavaScript values an option can hold, as far as the checks tell them apart. */
  datatype JsValue = Undefined | Null | Number(n: real) | Str(s: string) | Other

  /** The caller's options object; `None` is a key the caller did not give. */
  datatype RawOptions = RawOptions(
    fps: Option<JsValue>,
    mJpegFilePath: Option<JsValue>,
    statusFilePath: Option<JsValue>,
    fifoFilePath: Option<JsValue>,
    mediaFolder: Option<JsValue>)

  /** Why construction throws, one variant per check, in the order they run. */
  datatype ConfigError =
    | FpsNotANumber
    | FpsOutOfRange
    | MJpegPathInvalid
    | StatusPathInvalid
    | FifoPathInvalid
    | MediaFolderInvalid
    | StatusFileMissing
    | FifoFileMissing
    | MJpegFileMissing
    | MediaFolderMissing

  /** The options a constructed wrapper works with. */
  datatype Config = Config(
    fps: Fps,
    mJpegFilePath: string,
    statusFilePath: string,
    fifoFilePath: string,
    mediaFolder: string)

  predicate ValidConfig(c: Config) {
    && c.mJpegFilePath != ""
    && c.statusFilePath != ""
    && c.fifoFilePath != ""
    && EndsWith(c.mediaFolder, "/")
  }

  /** `_.extend(baseOptions, options)`: a key the caller gave overrides the default. */
  function Given(v: Option<JsValue>, default: JsValue): JsValue {
    match v
    case Some(x) => x
    case None => default
  }

  /** `_.isString(v) && v != ''`. */
  predicate IsPath(v: JsValue) {
    v.Str? && v.s != ""
  }

  /** Appends "/" unless the polyfilled `endsWith` already finds it. */
  function NormaliseFolder(folder: string): (r: string)
    ensures EndsWith(r, "/")
    ensures r == folder || r == folder + "/"
    ensures EndsWith(folder, "/") ==> r == folder
  {
    if EndsWith(folder, "/") then folder
    else
      EndsWithAppended(folder, "/");
      folder + "/"
  }

  /** Normalising twice is normalising once. */
  lemma NormaliseIdempotent(folder: string)
    ensures NormaliseFolder(NormaliseFolder(folder)) == NormaliseFolder(folder)
  {
  }

  /**
   * The constructor's checks, in the order construction meets them; `existing`
   * is the set of paths present on disk. The status file and the FIFO are
   * checked with `existsSync`; then the preview file is read once, and the
   * normalised media folder is watched, so a missing one of either makes the
   * constructor throw as well.
   */
  function Configure(options: RawOptions, existing: set<string>): (r: Result<Config, ConfigError>)
    ensures r.Success? ==> ValidConfig(r.value)
  {
    var fps := Given(options.fps, Number(25.0));
    var mJpeg := Given(options.mJpegFilePath, Null);
    var status := Given(options.statusFilePath, Null);
    var fifo := Given(options.fifoFilePath, Null);
    var media := Given(options.mediaFolder, Null);
    if !fps.Number? then Failure(FpsNotANumber)
    else if fps.n <= 0.0 || fps.n > 30.0 then Failure(FpsOutOfRange)
    else if !IsPath(mJpeg) then Failure(MJpegPathInvalid)
    else if !IsPath(status) then Failure(StatusPathInvalid)
    else if !IsPath(fifo) then Failure(FifoPathInvalid)
    else if !IsPath(media) then Failure(MediaFolderInvalid)
    else if status.s !in existing then Failure(StatusFileMissing)
    else if fifo.s !in existing then Failure(FifoFileMissing)
    else if mJpeg.s !in existing then Failure(MJpegFileMissing)
    else if NormaliseFolder(media.s) !in existing then Failure(MediaFolderMissing)
    else Success(Config(fps.n, mJpeg.s, status.s, fifo.s, NormaliseFolder(media.s)))
  }

  /**
   * Construction succeeds exactly when the frame rate is a number in (0, 30],
   * the four paths are non-empty strings, and the three files and the
   * normalised media folder exist; the wrapper then keeps the given values
   * with the media folder normalised.
   */
  lemma ConfigureSucceedsIff(options: RawOptions, existing: set<string>)
    ensures
      var fps := Given(options.fps, Number(25.0));
      var mJpeg := Given(options.mJpegFilePath, Null);
      var status := Given(options.statusFilePath, Null);
      var fifo := Given(options.fifoFilePath, Null);
      var media := Given(options.mediaFolder, Null);
      var r := Configure(options, existing);
      && (r.Success? <==>
            && fps.Number? && 0.0 < fps.n <= 30.0
            && IsPath(mJpeg) && IsPath(status) && IsPath(fifo) && IsPath(media)
            && status.s in existing && fifo.s in existing && mJpeg.s in existing
            && NormaliseFolder(media.s) in existing)
      && (r.Success? ==>
            && r.value.fps == fps.n
            && r.value.mJpegFilePath == mJpeg.s
            && r.value.statusFilePath == status.s
            && r.value.fifoFilePath == fifo.s
            && r.value.mediaFolder == NormaliseFolder(media.s))
  {
  }

  /**
   * With every check before the watch passing, a media folder that is not on
   * disk makes construction fail, and with that error.
   */
  lemma MissingMediaFolderRejected(options: RawOptions, existing: set<string>)
    requires var fps := Given(options.fps, Number(25.0)); fps.Number? && 0.0 < fps.n <= 30.0
    requires IsPath(Given(options.mJpegFilePath, Null)) && IsPath(Given(options.statusFilePath, Null))
    requires IsPath(Given(options.fifoFilePath, Null)) && IsPath(Given(options.mediaFolder, Null))
    requires Given(options.statusFilePath, Null).s in existing
    requires Given(options.fifoFilePath, Null).s in existing
    requires Given(options.mJpegFilePath, Null).s in existing
    requires NormaliseFolder(Given(options.mediaFolder, Null).s) !in existing
    ensures Configure(options, existing) == Failure(MediaFolderMissing)
  {
  }

  /** Leaving `fps` out selects the default of 25 frames per second. */
  lemma DefaultFps(options: RawOptions, existing: set<string>)
    requires options.fps == None
    requires Configure(options, existing).Success?
    ensures Configure(options, existing).value.fps == 25.0
  {
  }
}
