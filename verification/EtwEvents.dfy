/** The decoded ETW records the trace processor consumes, and the rows it produces. */
module EtwEvents {
  import opened Wrappers

  const U64_LIMIT: int := 0x1_0000_0000_0000_0000

  /** Addresses and kernel pointers. Only module ends are computed from them, with saturation. */
  type u64 = x: int | 0 <= x < U64_LIMIT

  datatype LifecycleKind = ProcessStart | ProcessEnd | ThreadStart | ThreadEnd | ImageLoad | ImageUnload

  datatype FileIoKind =
    | FileName | FileCreateName | FileDeleteName | FileRundown
    | Create | Cleanup | Close | Read | Write | SetInfo | Delete | Rename
    | DirEnum | Flush | QueryInfo | FsControl | OpEnd | DirNotify

  datatype PathSource = OpenPath | NameProperty | FileObjectCache | FileKeyCache

  datatype LifecycleEvent = LifecycleEvent(
    timestamp: int, thread: nat, kind: LifecycleKind, pid: nat,
    tid: Option<nat>, parentPid: Option<nat>,
    imagePath: Option<string>, imageBase: Option<u64>, imageSize: Option<u64>,
    stack: seq<u64>)

  /** Properties of a file event that the processor copies without looking at them. */
  datatype IoDetails = IoDetails(
    ttid: Option<nat>, offset: Option<u64>, ioSize: Option<u64>, ioFlags: Option<nat>,
    createOptions: Option<nat>, fileAttributes: Option<nat>, shareAccess: Option<nat>, infoClass: Option<nat>)

  datatype FileIoEvent = FileIoEvent(
    timestamp: int, thread: nat, kind: FileIoKind, pid: nat,
    path: Option<string>, pathSource: Option<PathSource>,
    fileObject: Option<u64>, fileKey: Option<u64>, irp: Option<u64>,
    details: IoDetails, extraInfo: Option<u64>, ntStatus: Option<nat>,
    stack: seq<u64>)

  datatype StackWalkEvent = StackWalkEvent(timestamp: int, process: nat, thread: nat, addresses: seq<u64>)

  datatype Event =
    | Lifecycle(lifecycle: LifecycleEvent)
    | FileIo(fileIo: FileIoEvent)
    | StackWalk(stackWalk: StackWalkEvent)

  /** One frame of a finished stack: an offset into a module, or a bare address. */
  datatype Frame = InModule(name: string, offset: u64) | Unknown(address: u64)

  datatype LifecycleRow = LifecycleRow(
    sequence: nat, kind: LifecycleKind, pid: nat, tid: Option<nat>, parentPid: Option<nat>,
    imagePath: Option<string>, imageBase: Option<u64>, imageSize: Option<u64>,
    stack: seq<Frame>)

  /** What a matching OpEnd adds to the row of its begin event. */
  datatype Completion = Completion(pid: nat, thread: nat, sequence: nat)

  datatype FileIoRow = FileIoRow(
    sequence: nat, kind: FileIoKind, pid: nat, thread: nat,
    path: Option<string>, pathSource: Option<PathSource>,
    fileObject: Option<u64>, fileKey: Option<u64>, irp: Option<u64>,
    details: IoDetails, extraInfo: Option<u64>, ntStatus: Option<nat>,
    stack: seq<Frame>, completion: Option<Completion>)

  /** A row of either table. */
  datatype StackTarget = LifecycleTarget(index: nat) | FileIoTarget(index: nat)

  /** Which event sets the profile asked for. */
  datatype Settings = Settings(process: bool, fileIo: bool, stacks: bool)

  /** The file events of a history, in order. */
  function FileIoEvents(history: seq<Event>): seq<FileIoEvent> {
    if history == [] then []
    else
      var e := history[|history| - 1];
      FileIoEvents(history[..|history| - 1]) + if e.FileIo? then [e.fileIo] else []
  }

  /** The lifecycle events of the target process, in order. */
  function TargetLifecycle(history: seq<Event>, target: nat): seq<LifecycleEvent> {
    if history == [] then []
    else
      var e := history[|history| - 1];
      TargetLifecycle(history[..|history| - 1], target) +
      if e.Lifecycle? && e.lifecycle.pid == target then [e.lifecycle] else []
  }

  /** The StackWalk events of a history, in order. */
  function StackWalks(history: seq<Event>): seq<StackWalkEvent> {
    if history == [] then []
    else
      var e := history[|history| - 1];
      StackWalks(history[..|history| - 1]) + if e.StackWalk? then [e.stackWalk] else []
  }
}
