/**
  The disk journal: a segmented WAL, snapshot files, a manifest and segment garbage collection
  (journal_impl.rs, gc.rs and the parts of wal.rs they call). `D` is a journalled delta and `S` a
  snapshot's content. `Past` remembers what was appended and which offsets callers were given.
 */
module JournalModel {
  import opened Basics

  datatype Offset = Offset(segment: nat, position: nat)

  const START: Offset := Offset(1, 0)

  /** One WAL record: length prefix, payload and checksum. */
  datatype Frame<D> = Frame(delta: D, payload: nat)

  function FrameSize<D>(f: Frame<D>): nat {
    4 + f.payload + 4
  }

  datatype File<S> = Whole(content: S) | Partial

  /** `Torn` is a manifest whose rewrite was cut short: `write_manifest` truncates and writes in place. */
  datatype Manifest = Absent | Torn | Saved(snapshot: nat, offset: Offset)

  type Segments<D> = map<nat, seq<Frame<D>>>

  datatype Store<D, S> = Store(
    segments: Segments<D>,
    current: nat,
    rotation: nat,
    manifest: Manifest,
    snapshots: map<nat, File<S>>,
    newest: nat)

  // ---- Reading ------------------------------------------------------------

  function Size<D>(frames: seq<Frame<D>>): nat {
    if frames == [] then 0 else FrameSize(frames[0]) + Size(frames[1..])
  }

  function Deltas<D>(frames: seq<Frame<D>>): seq<D> {
    seq(|frames|, i requires 0 <= i < |frames| => frames[i].delta)
  }

  /**
    What reading from a byte position yields: the frames after it, none past the end. Inside a frame
    it fails, unless fewer than four bytes are left, which read as the end.
   */
  function After<D>(frames: seq<Frame<D>>, position: nat): Option<seq<Frame<D>>> {
    if position == 0 || frames == [] then Some(frames)
    else if position < FrameSize(frames[0]) then if Size(frames) < position + 4 then Some([]) else None
    else After(frames[1..], position - FrameSize(frames[0]))
  }

  /** Every delta of the existing segments numbered `lo` to `hi`, in order. */
  function Span<D>(segments: Segments<D>, lo: nat, hi: nat): seq<D>
    decreases hi + 1 - lo
  {
    if lo > hi then [] else (if lo in segments then Deltas(segments[lo]) else []) + Span(segments, lo + 1, hi)
  }

  /** `stream_from`: the rest of the offset's segment, if it still exists, and all later segments. */
  function Stream<D, S>(s: Store<D, S>, o: Offset): Option<seq<D>> {
    if o.segment > s.current then Some([])
    else if o.segment !in s.segments then Some(Span(s.segments, o.segment + 1, s.current))
    else
      match After(s.segments[o.segment], o.position)
      case None => None
      case Some(rest) => Some(Deltas(rest) + Span(s.segments, o.segment + 1, s.current))
  }

  /** The frames of the segment being written. */
  function Open<D, S>(s: Store<D, S>): seq<Frame<D>> {
    if s.current in s.segments then s.segments[s.current] else []
  }

  function EndOffset<D, S>(s: Store<D, S>): Offset {
    Offset(s.current, Size(Open(s)))
  }

  // ---- Writing ------------------------------------------------------------

  function Rotate<D, S>(s: Store<D, S>): Store<D, S> {
    s.(segments := s.segments[s.current + 1 := []], current := s.current + 1)
  }

  function Push<D, S>(s: Store<D, S>, f: Frame<D>): Store<D, S> {
    s.(segments := s.segments[s.current := Open(s) + [f]])
  }

  /** `WalWriter::append`: rotate when the frame would overflow the segment, even an empty one. */
  function Append<D, S>(s: Store<D, S>, f: Frame<D>): Store<D, S> {
    if Size(Open(s)) + FrameSize(f) > s.rotation then Push(Rotate(s), f) else Push(s, f)
  }

  /** Where `write_snapshot` is cut short. */
  datatype Crash = NoCrash | BeforeFile | InsideFile | BeforeManifest | InsideManifest

  function SnapshotFile<S>(content: S, crash: Crash): File<S> {
    if crash.InsideFile? then Partial else Whole(content)
  }

  /** `write_snapshot`: a new snapshot file, then the manifest pointing at it and the WAL end. */
  function WriteSnapshot<D, S>(s: Store<D, S>, content: S, crash: Crash): Store<D, S> {
    if crash.BeforeFile? then s
    else
      var id := s.newest + 1;
      var filed := s.(snapshots := s.snapshots[id := SnapshotFile(content, crash)], newest := id);
      match crash
      case NoCrash => filed.(manifest := Saved(id, EndOffset(s)))
      case InsideManifest => filed.(manifest := Torn)
      case _ => filed
  }

  /** `gc_compact`: every segment before the offset's goes, except the one being written. */
  function Collect<D, S>(s: Store<D, S>, since: Offset): Store<D, S> {
    s.(segments := map k | k in s.segments && (k >= since.segment || k == s.current) :: s.segments[k])
  }

  // ---- Recovery -----------------------------------------------------------

  /** Start-up: the manifest's snapshot and the deltas to apply on top of it. */
  datatype Recovery<D, S> = Failed | Fresh(deltas: seq<D>) | Resumed(content: S, deltas: seq<D>)

  function Recover<D, S>(s: Store<D, S>): Recovery<D, S> {
    match s.manifest
    case Torn => Failed
    case Absent =>
      var deltas := Stream(s, START);
      if deltas.None? then Failed else Fresh(deltas.value)
    case Saved(id, offset) =>
      var deltas := Stream(s, offset);
      if id !in s.snapshots || s.snapshots[id].Partial? || deltas.None? then Failed
      else Resumed(s.snapshots[id].content, deltas.value)
  }

  // ---- Runs ---------------------------------------------------------------

  /** The appended deltas, the last completed snapshot with its log position, and the offsets returned. */
  datatype Past<D, S> = Past(log: seq<D>, saved: Option<(S, nat)>, given: set<Offset>)

  datatype System<D, S> = System(store: Store<D, S>, past: Past<D, S>)

  datatype Action<D, S> =
    | AppendAction(frame: Frame<D>)
    | SnapshotAction(content: S, crash: Crash)
    | GcAction(since: Offset)

  /** Garbage collection is only asked for with an offset that a completed snapshot returned. */
  predicate Enabled<D, S>(y: System<D, S>, a: Action<D, S>) {
    a.GcAction? ==> a.since in y.past.given
  }

  function Step<D, S>(y: System<D, S>, a: Action<D, S>): System<D, S> {
    match a
    case AppendAction(f) => System(Append(y.store, f), y.past.(log := y.past.log + [f.delta]))
    case SnapshotAction(content, crash) =>
      System(WriteSnapshot(y.store, content, crash),
             if crash.NoCrash? then
               Past(y.past.log, Some((content, |y.past.log|)), y.past.given + {EndOffset(y.store)})
             else y.past)
    case GcAction(since) => y.(store := Collect(y.store, since))
  }

  function Blank<D, S>(rotation: nat): System<D, S> {
    System(Store(map[1 := []], 1, rotation, Absent, map[], 0), Past([], None, {}))
  }
}
