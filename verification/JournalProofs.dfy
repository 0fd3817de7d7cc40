/** Snapshots and garbage collection never lose data. */
module JournalProofs {
  import opened Basics
  import opened JournalModel

  /** Segments `first` to `current` exist, and no others. */
  ghost predicate Contiguous<D, S>(s: Store<D, S>, first: nat) {
    1 <= first <= s.current && forall k :: k in s.segments <==> first <= k <= s.current
  }

  /** The position is the start of a frame, or the end of the last one. */
  predicate Boundary<D>(frames: seq<Frame<D>>, position: nat) {
    position == 0 ||
    (frames != [] && position >= FrameSize(frames[0]) && Boundary(frames[1..], position - FrameSize(frames[0])))
  }

  /** An offset in an existing segment, between two of its frames. */
  ghost predicate Within<D, S>(s: Store<D, S>, o: Offset) {
    o.segment in s.segments && Boundary(s.segments[o.segment], o.position)
  }

  /** An offset is readable and yields exactly the log from `mark` on. */
  ghost predicate Reads<D, S>(y: System<D, S>, o: Offset, mark: nat) {
    mark <= |y.past.log| && Within(y.store, o) && Stream(y.store, o) == Some(y.past.log[mark..])
  }

  /** The manifest, when whole, names the last completed snapshot and an offset that reads the rest of the log. */
  ghost predicate ManifestOk<D, S>(y: System<D, S>) {
    match y.store.manifest
    case Torn => true
    case Absent => y.past.saved.None? && Reads(y, START, 0)
    case Saved(id, offset) =>
      y.past.saved.Some? && id in y.store.snapshots && y.store.snapshots[id] == Whole(y.past.saved.value.0) &&
      Reads(y, offset, y.past.saved.value.1)
  }

  /** Given offsets never point past the manifest's, so collecting with them spares what it needs. */
  ghost predicate GivenOk<D, S>(y: System<D, S>) {
    (forall o :: o in y.past.given ==> o.segment <= y.store.current) &&
    match y.store.manifest
    case Torn => true
    case Absent => y.past.given == {}
    case Saved(_, offset) => forall o :: o in y.past.given ==> o.segment <= offset.segment
  }

  ghost predicate Sound<D, S>(y: System<D, S>, first: nat) {
    Contiguous(y.store, first) && (forall id :: id in y.store.snapshots ==> id <= y.store.newest) &&
    ManifestOk(y) && GivenOk(y)
  }

  // ---- Streams ------------------------------------------------------------

  lemma {:induction false} AfterSnoc<D>(frames: seq<Frame<D>>, position: nat, f: Frame<D>)
    requires Boundary(frames, position)
    ensures After(frames, position).Some? && After(frames + [f], position) == Some(After(frames, position).value + [f])
    ensures Boundary(frames + [f], position)
    decreases |frames|
  {
    if position > 0 {
      assert (frames + [f])[1..] == frames[1..] + [f];
      AfterSnoc(frames[1..], position - FrameSize(frames[0]), f);
    }
  }

  lemma {:induction false} AfterAll<D>(frames: seq<Frame<D>>)
    ensures After(frames, Size(frames)) == Some([]) && Boundary(frames, Size(frames))
    decreases |frames|
  {
    if frames != [] {
      AfterAll(frames[1..]);
    }
  }

  lemma {:induction false} SpanSame<D>(a: Segments<D>, b: Segments<D>, lo: nat, hi: nat)
    requires forall k :: lo <= k <= hi ==> (k in a <==> k in b) && (k in a ==> a[k] == b[k])
    ensures Span(a, lo, hi) == Span(b, lo, hi)
    decreases hi + 1 - lo
  {
    if lo <= hi {
      SpanSame(a, b, lo + 1, hi);
    }
  }

  /** Pushing a frame onto the last segment appends its delta to every span that reaches it. */
  lemma {:induction false} SpanPush<D, S>(s: Store<D, S>, f: Frame<D>, lo: nat)
    requires s.current in s.segments && lo <= s.current
    ensures Span(Push(s, f).segments, lo, s.current) == Span(s.segments, lo, s.current) + [f.delta]
    decreases s.current - lo
  {
    var pushed := Push(s, f).segments;
    if lo == s.current {
      assert Span(pushed, lo + 1, s.current) == [] && Span(s.segments, lo + 1, s.current) == [];
      assert Deltas(pushed[lo]) == Deltas(s.segments[lo]) + [f.delta];
    } else {
      SpanPush(s, f, lo + 1);
    }
  }

  lemma {:induction false} SpanRotate<D, S>(s: Store<D, S>, lo: nat)
    requires lo <= s.current + 1
    ensures Span(Rotate(s).segments, lo, s.current + 1) == Span(s.segments, lo, s.current)
    decreases s.current + 1 - lo
  {
    if lo <= s.current {
      SpanRotate(s, lo + 1);
    } else {
      assert Span(Rotate(s).segments, lo + 1, s.current + 1) == [];
      assert Deltas(Rotate(s).segments[lo]) == [];
    }
  }

  lemma PushStream<D, S>(s: Store<D, S>, f: Frame<D>, o: Offset)
    requires s.current in s.segments && o.segment <= s.current && Within(s, o) && Stream(s, o).Some?
    ensures Stream(Push(s, f), o) == Some(Stream(s, o).value + [f.delta]) && Within(Push(s, f), o)
  {
    var rest := After(s.segments[o.segment], o.position).value;
    if o.segment == s.current {
      AfterSnoc(s.segments[o.segment], o.position, f);
      assert Deltas(rest + [f]) + [] == Deltas(rest) + [] + [f.delta];
    } else {
      SpanPush(s, f, o.segment + 1);
      assert Deltas(rest) + (Span(s.segments, o.segment + 1, s.current) + [f.delta]) ==
             Deltas(rest) + Span(s.segments, o.segment + 1, s.current) + [f.delta];
    }
  }

  lemma RotateStream<D, S>(s: Store<D, S>, o: Offset)
    requires o.segment <= s.current && o.segment in s.segments
    ensures Stream(Rotate(s), o) == Stream(s, o)
  {
    SpanRotate(s, o.segment + 1);
  }

  /** Appending, with or without rotation, adds one delta to the end of every readable stream. */
  lemma AppendStream<D, S>(s: Store<D, S>, f: Frame<D>, o: Offset)
    requires s.current in s.segments && o.segment <= s.current && Within(s, o) && Stream(s, o).Some?
    ensures Stream(Append(s, f), o) == Some(Stream(s, o).value + [f.delta]) && Within(Append(s, f), o)
  {
    if Size(s.segments[s.current]) + FrameSize(f) > s.rotation {
      RotateStream(s, o);
      PushStream(Rotate(s), f, o);
    } else {
      PushStream(s, f, o);
    }
  }

  lemma EndStream<D, S>(s: Store<D, S>)
    requires s.current in s.segments
    ensures Stream(s, EndOffset(s)) == Some([]) && Within(s, EndOffset(s))
  {
    AfterAll(s.segments[s.current]);
    assert Span(s.segments, s.current + 1, s.current) == [] && Deltas<D>([]) + [] == [];
  }

  /** Collection leaves every stream alone that starts at or after the given segment. */
  lemma CollectStream<D, S>(s: Store<D, S>, since: Offset, o: Offset)
    requires o.segment in s.segments && since.segment <= o.segment
    ensures Stream(Collect(s, since), o) == Stream(s, o) && o.segment in Collect(s, since).segments
  {
    SpanSame(s.segments, Collect(s, since).segments, o.segment + 1, s.current);
  }

  /** How many deltas of the segments `lo` to `hi` a collection deletes. */
  function Lost<D, S>(s: Store<D, S>, since: Offset, lo: nat, hi: nat): nat
    decreases hi + 1 - lo
  {
    if lo > hi then 0
    else
      (if lo in s.segments && lo < since.segment && lo != s.current then |s.segments[lo]| else 0) +
      Lost(s, since, lo + 1, hi)
  }

  lemma {:induction false} CollectSpan<D, S>(s: Store<D, S>, since: Offset, lo: nat, hi: nat)
    ensures |Span(s.segments, lo, hi)| == |Span(Collect(s, since).segments, lo, hi)| + Lost(s, since, lo, hi)
    ensures Lost(s, since, lo, hi) == 0 ==> Span(s.segments, lo, hi) == Span(Collect(s, since).segments, lo, hi)
    decreases hi + 1 - lo
  {
    if lo <= hi {
      CollectSpan(s, since, lo + 1, hi);
    }
  }

  /**
    Exactly when collecting with an arbitrary offset is harmless to a reader at `o`: it deletes no
    delta after `o`, neither in the reader's own segment nor in a later one.
   */
  lemma CollectHarmlessIff<D, S>(s: Store<D, S>, since: Offset, o: Offset)
    requires o.segment in s.segments && o.segment <= s.current && Stream(s, o).Some?
    ensures Stream(Collect(s, since), o) == Stream(s, o) <==>
            Lost(s, since, o.segment + 1, s.current) == 0 &&
            (o.segment >= since.segment || o.segment == s.current ||
             After(s.segments[o.segment], o.position) == Some([]))
  {
    var after := Collect(s, since);
    CollectSpan(s, since, o.segment + 1, s.current);
    var rest := After(s.segments[o.segment], o.position).value;
    assert |Deltas(rest)| == |rest| && (rest == [] ==> Deltas(rest) == []);
    var tail, left := Span(s.segments, o.segment + 1, s.current), Span(after.segments, o.segment + 1, s.current);
    assert Stream(s, o) == Some(Deltas(rest) + tail);
    if o.segment in after.segments {
      assert Stream(after, o) == Some(Deltas(rest) + left);
    } else {
      assert Stream(after, o) == Some(left);
    }
    assert [] + tail == tail;
  }

  // ---- Steps --------------------------------------------------------------

  lemma AppendKeeps<D, S>(y: System<D, S>, first: nat, f: Frame<D>)
    requires Sound(y, first)
    ensures Sound(Step(y, AppendAction(f)), first)
  {
    var z := Step(y, AppendAction(f));
    match y.store.manifest {
      case Torn =>
      case Absent =>
        AppendStream(y.store, f, START);
        assert z.past.log[0..] == y.past.log[0..] + [f.delta];
      case Saved(_, o) =>
        AppendStream(y.store, f, o);
        assert z.past.log[y.past.saved.value.1..] == y.past.log[y.past.saved.value.1..] + [f.delta];
    }
  }

  lemma SnapshotKeeps<D, S>(y: System<D, S>, first: nat, content: S, crash: Crash)
    requires Sound(y, first)
    ensures Sound(Step(y, SnapshotAction(content, crash)), first)
  {
    EndStream(y.store);
    var z := Step(y, SnapshotAction(content, crash));
    assert y.past.log[|y.past.log|..] == [];
    match y.store.manifest {
      case Torn =>
      case Absent => assert Stream(z.store, START) == Stream(y.store, START);
      case Saved(_, o) => assert Stream(z.store, o) == Stream(y.store, o);
    }
    assert Stream(z.store, EndOffset(y.store)) == Stream(y.store, EndOffset(y.store));
  }

  lemma CollectKeeps<D, S>(y: System<D, S>, first: nat, since: Offset)
    requires Sound(y, first) && since in y.past.given
    ensures Sound(Step(y, GcAction(since)), if first < since.segment then since.segment else first)
  {
    if y.store.manifest.Saved? {
      CollectStream(y.store, since, y.store.manifest.offset);
    }
  }

  ghost predicate IsRun<D, S>(rotation: nat, trace: seq<System<D, S>>, actions: seq<Action<D, S>>) {
    |trace| == |actions| + 1 && trace[0] == Blank(rotation) &&
    forall i :: 0 <= i < |actions| ==> Enabled(trace[i], actions[i]) && trace[i + 1] == Step(trace[i], actions[i])
  }

  lemma {:induction false} RunSound<D, S>(rotation: nat, trace: seq<System<D, S>>, actions: seq<Action<D, S>>, i: nat)
    returns (first: nat)
    requires IsRun(rotation, trace, actions) && i < |trace|
    ensures Sound(trace[i], first)
    decreases i
  {
    if i == 0 {
      first := 1;
      EndStream(trace[0].store);
      assert trace[0].past.log[0..] == [];
    } else {
      first := RunSound(rotation, trace, actions, i - 1);
      var y, a := trace[i - 1], actions[i - 1];
      match a {
        case AppendAction(f) => AppendKeeps(y, first, f);
        case SnapshotAction(content, crash) => SnapshotKeeps(y, first, content, crash);
        case GcAction(since) =>
          CollectKeeps(y, first, since);
          first := if first < since.segment then since.segment else first;
      }
    }
  }

  /**
    Snapshot and GC never lose data. At every point of every interleaving of appends, rotations,
    snapshots (completed or cut short anywhere) and collections with any earlier snapshot's offset,
    recovery yields the last completed snapshot and exactly the deltas appended since, in order. It
    fails only while the manifest is torn.
   */
  lemma RunRecovers<D, S>(rotation: nat, trace: seq<System<D, S>>, actions: seq<Action<D, S>>, i: nat)
    requires IsRun(rotation, trace, actions) && i < |trace|
    ensures trace[i].past.saved.Some? && !trace[i].store.manifest.Torn? ==>
              trace[i].past.saved.value.1 <= |trace[i].past.log|
    ensures var y := trace[i];
            Recover(y.store) ==
              if y.store.manifest.Torn? then Failed
              else if y.past.saved.None? then Fresh(y.past.log)
              else Resumed(y.past.saved.value.0, y.past.log[y.past.saved.value.1..])
  {
    var first := RunSound(rotation, trace, actions, i);
    assert trace[i].past.log[0..] == trace[i].past.log;
  }

  /** The manifest is torn exactly when the last rewrite of it was cut short. */
  lemma {:induction false} TornMeans<D, S>(rotation: nat, trace: seq<System<D, S>>, actions: seq<Action<D, S>>, i: nat)
    requires IsRun(rotation, trace, actions) && i < |trace|
    ensures trace[i].store.manifest.Torn? <==>
            exists j :: 0 <= j < i && actions[j].SnapshotAction? && actions[j].crash.InsideManifest? &&
              forall k :: j < k < i && actions[k].SnapshotAction? ==> !actions[k].crash.NoCrash?
    decreases i
  {
    if i > 0 {
      TornMeans(rotation, trace, actions, i - 1);
      var a := actions[i - 1];
      if a.SnapshotAction? && a.crash.InsideManifest? {
        assert 0 <= i - 1 < i && actions[i - 1].SnapshotAction?;
      } else if trace[i - 1].store.manifest.Torn? && !(a.SnapshotAction? && a.crash.NoCrash?) {
        var j :| 0 <= j < i - 1 && actions[j].SnapshotAction? && actions[j].crash.InsideManifest? &&
          forall k :: j < k < i - 1 && actions[k].SnapshotAction? ==> !actions[k].crash.NoCrash?;
        assert 0 <= j < i && forall k :: j < k < i && actions[k].SnapshotAction? ==> !actions[k].crash.NoCrash?;
      }
    }
  }

  /** A run in which a torn manifest makes recovery fail although every delta is still on disk. */
  lemma TornManifestLosesRecovery<D, S>(rotation: nat, f: Frame<D>, content: S)
    ensures var y1 := Step(Blank<D, S>(rotation), AppendAction(f));
            var y2 := Step(y1, SnapshotAction(content, InsideManifest));
            Recover(y2.store).Failed? && Stream(y2.store, START) == Some([f.delta])
  {
    var y0 := Blank<D, S>(rotation);
    EndStream(y0.store);
    assert [] + [f.delta] == [f.delta];
    AppendStream(y0.store, f, START);
    var y1 := Step(y0, AppendAction(f));
    assert Stream(Step(y1, SnapshotAction(content, InsideManifest)).store, START) == Stream(y1.store, START);
  }

  // ---- How full segments get ----------------------------------------------

  /** The bytes of a segment file: each payload with its length prefix and checksum, of four bytes each. */
  function Bytes<D>(frames: seq<Frame<D>>): nat {
    if frames == [] then 0 else Bytes(frames[..|frames| - 1]) + frames[|frames| - 1].payload + 8
  }

  lemma {:induction false} BytesAre<D>(frames: seq<Frame<D>>, f: Frame<D>)
    ensures Size(frames + [f]) == Size(frames) + f.payload + 8
  {
    if frames == [] {
      assert (frames + [f])[1..] == [];
    } else {
      assert (frames + [f])[1..] == frames[1..] + [f];
      BytesAre(frames[1..], f);
    }
  }

  lemma {:induction false} SizeInBytes<D>(frames: seq<Frame<D>>)
    ensures Size(frames) == Bytes(frames)
    decreases |frames|
  {
    if frames != [] {
      var front, last := frames[..|frames| - 1], frames[|frames| - 1];
      SizeInBytes(front);
      BytesAre(front, last);
      assert front + [last] == frames;
    }
  }

  /** Only a single frame may exceed the rotation size, and a segment is left only for a frame that would not fit. */
  ghost predicate Packed<D, S>(s: Store<D, S>) {
    s.current in s.segments && (forall k :: k in s.segments ==> k <= s.current) &&
    (forall k :: k in s.segments && |s.segments[k]| > 1 ==> Bytes(s.segments[k]) <= s.rotation) &&
    forall k :: k in s.segments && k + 1 in s.segments ==>
      s.segments[k + 1] != [] && Bytes(s.segments[k]) + s.segments[k + 1][0].payload + 8 > s.rotation
  }

  lemma BytesSnoc<D>(frames: seq<Frame<D>>, f: Frame<D>)
    ensures Bytes(frames + [f]) == Bytes(frames) + f.payload + 8
  {
    assert (frames + [f])[..|frames|] == frames && (frames + [f])[|frames|] == f;
  }

  lemma PushPacks<D, S>(s: Store<D, S>, f: Frame<D>)
    requires Packed(s) && Bytes(Open(s)) + f.payload + 8 <= s.rotation
    ensures Packed(Push(s, f))
  {
    BytesSnoc(Open(s), f);
    hide Bytes;
    var t := Push(s, f);
    forall k | k in t.segments && k + 1 in t.segments
      ensures t.segments[k + 1] != [] && Bytes(t.segments[k]) + t.segments[k + 1][0].payload + 8 > t.rotation
    {
      assert t.segments[k] == s.segments[k];
    }
  }

  lemma RotatePacks<D, S>(s: Store<D, S>, f: Frame<D>)
    requires Packed(s) && Bytes(Open(s)) + f.payload + 8 > s.rotation
    ensures Packed(Push(Rotate(s), f))
  {
    hide Bytes;
    assert [] + [f] == [f];
    var t := Push(Rotate(s), f);
    assert t.segments == s.segments[s.current + 1 := [f]];
  }

  lemma AppendPacks<D, S>(s: Store<D, S>, f: Frame<D>)
    requires Packed(s)
    ensures Packed(Append(s, f)) && Append(s, f).rotation == s.rotation
  {
    SizeInBytes(Open(s));
    if Bytes(Open(s)) + f.payload + 8 > s.rotation {
      RotatePacks(s, f);
    } else {
      PushPacks(s, f);
    }
    hide Packed, Bytes, Size;
  }

  /** At every point of every run the segments are filled as far as the rotation size allows. */
  lemma {:induction false} RunPacks<D, S>(rotation: nat, trace: seq<System<D, S>>, actions: seq<Action<D, S>>, i: nat)
    requires IsRun(rotation, trace, actions) && i < |trace|
    ensures Packed(trace[i].store) && trace[i].store.rotation == rotation
  {
    hide Packed;
    if i == 0 {
      StartsPacked<D, S>(rotation);
    } else {
      RunPacks(rotation, trace, actions, i - 1);
      var y, a := trace[i - 1], actions[i - 1];
      match a {
        case AppendAction(f) => AppendPacks(y.store, f);
        case SnapshotAction(content, crash) => SnapshotPacks(y.store, content, crash);
        case GcAction(since) => CollectPacks(y.store, since);
      }
    }
  }

  lemma StartsPacked<D, S>(rotation: nat)
    ensures Packed(Blank<D, S>(rotation).store)
  {
  }

  lemma SnapshotPacks<D, S>(s: Store<D, S>, content: S, crash: Crash)
    requires Packed(s)
    ensures Packed(WriteSnapshot(s, content, crash)) && WriteSnapshot(s, content, crash).rotation == s.rotation
  {
    var t := WriteSnapshot(s, content, crash);
    assert t.segments == s.segments && t.current == s.current && t.rotation == s.rotation;
  }

  lemma CollectPacks<D, S>(s: Store<D, S>, since: Offset)
    requires Packed(s)
    ensures Packed(Collect(s, since)) && Collect(s, since).rotation == s.rotation
  {
    hide Bytes;
  }
}
