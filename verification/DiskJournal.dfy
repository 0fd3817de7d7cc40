/**
  The disk journal as the program runs it: an object over its segments, snapshots and manifest.
  `segments` holds what can be parsed of each file and `junk` the torn bytes after that.
 */
module DiskJournal {
  import opened Basics
  import opened JournalModel
  import opened JournalProofs
  import opened JournalFaults
  import Wal

  class DiskJournal<D, S> {
    var segments: Segments<D>
    var junk: map<nat, Junk>
    var current: nat
    const rotation: nat
    var manifest: Manifest
    var snapshots: map<nat, File<S>>
    var newest: nat
    var deltaCounter: nat
    var lastSnapshotId: nat
    ghost var over: nat
    ghost var landed: seq<Landing<D>>
    ghost var past: Past<D, S>
    ghost var first: nat

    /** The manifest with its position at the end of what could be parsed when the snapshot was taken. */
    ghost function TrueManifest(): Manifest
      reads this
    {
      match manifest
      case Saved(id, o) => Saved(id, Offset(o.segment, SatSub(o.position, over)))
      case m => m
    }

    ghost function View(): System<D, S>
      reads this
    {
      System(Store(segments, current, rotation, TrueManifest(), snapshots, newest), past)
    }

    ghost function Files(): Disk<D, S>
      reads this
    {
      Disk(View(), junk, over, landed)
    }

    ghost predicate Valid()
      reads this
    {
      Sane(Files(), first) && (manifest.Saved? ==> over <= manifest.offset.position)
    }

    constructor (rotation: nat)
      ensures Valid() && Files() == Unwritten(rotation)
    {
      this.rotation := rotation;
      segments, current, manifest, snapshots, newest := map[1 := []], 1, Absent, map[], 0;
      deltaCounter, lastSnapshotId := 0, 0;
      junk, over, landed := map[], 0, [];
      past, first := Past([], None, {}), 1;
      new;
      var k := FaultyRunSane(rotation, [Files()], [], 0);
      first := k;
    }

    /** `append_delta` through `WalWriter::append`; a failure is only printed. */
    method AppendDelta(f: Frame<D>, fault: Option<Failure>)
      requires Valid() && Possible(Files(), Attempt(f, fault))
      modifies this
      ensures Valid() && Files() == Next(old(Files()), Attempt(f, fault))
      ensures deltaCounter == old(deltaCounter) + if fault.None? then 1 else 0
    {
      hide Sane, Size;
      var after := NextSane(Files(), first, Attempt(f, fault));
      if fault == Some(NothingWritten) {
        return;
      }
      Roll(f);
      first := after;
      if fault == Some(RotatedOnly) {
        return;
      }
      if fault.Some? && fault.value.Torn? {
        var written := fault.value.written;
        var torn := if current in junk then junk[current].(follows := junk[current].follows + 4 + written)
                    else Junk(f.payload, written, 0);
        junk := junk[current := torn];
        return;
      }
      deltaCounter := deltaCounter + if fault.None? then 1 else 0;
      WriteFrame(f);
    }

    /** The rotation at the head of an append; the size counts whole records only. */
    method Roll(f: Frame<D>)
      modifies this`current, this`segments
      ensures Files() == Rolled(old(Files()), f)
    {
      var frames := if current in segments then segments[current] else [];
      var size := Size(frames) + if current in junk then junk[current].counted else 0;
      if size + FrameSize(f) > rotation {
        current := current + 1;
        segments := segments[current := []];
      }
    }

    method WriteFrame(f: Frame<D>)
      modifies this`segments, this`junk, this`past, this`landed
      ensures Files() == Written(old(Files()), f)
    {
      if current in junk {
        var j := junk[current];
        junk := junk[current := Junk(j.length, j.follows + FrameSize(f), j.counted + FrameSize(f))];
        landed := landed + [Landing(f.delta, Behind(current))];
      } else {
        segments := segments[current := (if current in segments then segments[current] else []) + [f]];
        past := past.(log := past.log + [f.delta]);
        landed := landed + [Landing(f.delta, Kept)];
      }
    }

    /** `write_snapshot`, possibly cut short; only a completed one returns its offset, the writer's end. */
    method WriteSnapshot(content: S, crash: Crash) returns (offset: Option<Offset>)
      requires Valid()
      modifies this
      ensures Valid() && Files() == Next(old(Files()), Snap(content, crash))
      ensures offset == if crash.NoCrash? then Some(Offset(current, WriterSize(old(Files())))) else None
      ensures crash.NoCrash? ==> deltaCounter == 0 && lastSnapshotId == newest && Possible(Files(), Gc(offset.value))
    {
      hide Sane, Size, Open, Possible, Counted;
      var after := NextSnap(content, crash);
      hide Next;
      first := after;
      offset := None;
      if crash == BeforeFile {
        return;
      }
      var end, counted := WriterEnd();
      ghost var parsed := EndOffset(View().store);
      newest := newest + 1;
      snapshots := snapshots[newest := SnapshotFile(content, crash)];
      if crash == InsideManifest {
        manifest := Manifest.Torn;
      } else if crash == NoCrash {
        PointManifest(newest, content, end, counted, parsed);
        offset := Some(end);
      }
    }

    lemma NextSnap(content: S, crash: Crash) returns (after: nat)
      requires Sane(Files(), first)
      ensures Sane(Next(Files(), Snap(content, crash)), after)
      ensures var y, whole := View(), crash.NoCrash?;
              var manifest := if whole then Saved(newest + 1, EndOffset(y.store))
                              else if crash.InsideManifest? then Manifest.Torn else TrueManifest();
              var filed := if crash.BeforeFile? then y.store else
                y.store.(snapshots := snapshots[newest + 1 := SnapshotFile(content, crash)], newest := newest + 1);
              var saved := Past(past.log, Some((content, |past.log|)), past.given + {EndOffset(y.store)});
              Next(Files(), Snap(content, crash)) ==
              Disk(System(filed.(manifest := manifest), if whole then saved else past), junk,
                   if whole then Counted(Files()) else over, if whole then [] else landed)
    {
      after := NextSane(Files(), first, Snap(content, crash));
    }

    /** The manifest is written and the counters follow. */
    method PointManifest(id: nat, content: S, end: Offset, ghost counted: nat, ghost parsed: Offset)
      requires end == Offset(parsed.segment, parsed.position + counted)
      modifies this`manifest, this`over, this`landed, this`deltaCounter, this`lastSnapshotId, this`past
      ensures TrueManifest() == Saved(id, parsed) && over == counted && landed == []
      ensures manifest == Saved(id, end) && deltaCounter == 0 && lastSnapshotId == id
      ensures past == Past(old(past).log, Some((content, |old(past).log|)), old(past).given + {parsed})
      ensures Possible(Files(), Gc(end))
    {
      manifest, over, landed := Saved(id, end), counted, [];
      deltaCounter, lastSnapshotId := 0, id;
      past := Past(past.log, Some((content, |past.log|)), past.given + {parsed});
      assert parsed in past.given && parsed.segment == end.segment;
    }

    /** `Store::end_offset`: the writer's size, torn bytes left out. */
    method WriterEnd() returns (end: Offset, counted: nat)
      ensures counted == Counted(Files()) && end == Offset(current, WriterSize(Files()))
      ensures end == Offset(current, EndOffset(View().store).position + counted)
    {
      counted := if current in junk then junk[current].counted else 0;
      end := Offset(current, Size(if current in segments then segments[current] else []) + counted);
    }

    /** `run_gc`: the loop of `gc_compact` over the segments on disk; sound for any earlier snapshot's offset. */
    method RunGc(since: Offset)
      requires Valid()
      modifies this
      ensures Files() == Next(old(Files()), Gc(since)) && (Possible(old(Files()), Gc(since)) ==> Valid())
    {
      hide Sane, Size;
      ghost var possible := Possible(Files(), Gc(since));
      ghost var after := first;
      if possible {
        after := GcSane(Files(), first, since);
      }
      DeleteBefore(since);
      junk := map k | k in junk && k in segments :: junk[k];
      first := after;
    }

    method DeleteBefore(since: Offset)
      modifies this`segments
      ensures segments == Collect(old(View()).store, since).segments
    {
      var todo := segments.Keys;
      while todo != {}
        invariant todo <= segments.Keys <= old(segments).Keys
        invariant forall k :: k in segments ==> segments[k] == old(segments)[k]
        invariant forall k :: k in old(segments) && k !in segments ==> k < since.segment && k != current
        invariant forall k :: k in segments && k !in todo ==> k >= since.segment || k == current
        decreases |todo|
      {
        var k :| k in todo;
        if k < since.segment && k != current {
          segments := segments - {k};
        }
        todo := todo - {k};
      }
    }

    /** `DiskJournal::open`: a torn frame is cut off with all behind it, or the last segment is refused. */
    method Reopen() returns (ok: bool)
      requires Valid()
      modifies this`junk, this`landed
      ensures Valid() && ok == Opens(old(Files()))
      ensures Files() == if ok then Next(old(Files()), Event.Reopen) else old(Files())
    {
      hide Sane;
      OpenedSane(Files(), first);
      ok := current in junk ==> Wal.CutsOff(junk[current].length, junk[current].follows);
      if ok && current in junk {
        junk, landed := junk - {current}, CutBehind(landed, current);
      }
    }

    /**
      Opening, `load_latest_snapshot` and the stream after it: the snapshot and what is left of the
      records since, or a failure for one of the reasons there are.
     */
    method LoadAndReplay() returns (r: Recovery<D, S>)
      requires Valid()
      ensures r == Recovered(Files()) && (r.Failed? <==> !Recovers(Files()))
      ensures r.Fresh? ==> past.saved.None? && r.deltas == KeptOf(landed)
      ensures r.Resumed? ==>
                past.saved.Some? && r.content == past.saved.value.0 && Skipped(Files()).value <= |KeptOf(landed)| &&
                r.deltas == KeptOf(landed)[Skipped(Files()).value..]
    {
      SaneRecovers(Files(), first);
      OpenedFiles();
      hide Sane, Skipped, KeptOf, FileSize, Opened, Stream, Recovers;
      var opens := current in junk ==> Wal.CutsOff(junk[current].length, junk[current].follows);
      if !opens || manifest.Torn? {
        return Recovery.Failed;
      }
      var from := if manifest.Saved? then manifest.offset else START;
      assert from == Physical(Files()) == Physical(Opened(Files()));
      var blocked := ReadsJunk(from);
      if blocked {
        return Recovery.Failed;
      }
      var read := ReadFrom(from);
      if read.None? || (manifest.Saved? && (manifest.snapshot !in snapshots || snapshots[manifest.snapshot].Partial?)) {
        return Recovery.Failed;
      }
      r := if manifest.Saved? then Resumed(snapshots[manifest.snapshot].content, read.value) else Fresh(read.value);
    }

    lemma OpenedFiles()
      ensures Physical(Opened(Files())) == Physical(Files())
      ensures MustReadJunk(Opened(Files())) <==>
              exists k :: k in junk && k != current && k >= Physical(Files()).segment &&
                (k > Physical(Files()).segment || Physical(Files()).position + 4 <= FileSize(Files(), k))
    {
      var d, e := Files(), Opened(Files());
      assert forall k :: k in e.junk <==> k in d.junk && (current in d.junk ==> k != current);
      assert forall k :: k in e.junk ==> k in d.junk && FileSize(e, k) == FileSize(d, k);
    }

    /** Whether the stream from an offset meets torn bytes, once the last segment is repaired. */
    method ReadsJunk(from: Offset) returns (blocked: bool)
      ensures blocked <==>
              exists k :: k in junk && k != current && k >= from.segment &&
                (k > from.segment || from.position + 4 <= FileSize(Files(), k))
    {
      blocked := false;
      var todo := junk.Keys;
      while todo != {}
        invariant todo <= junk.Keys
        invariant blocked <==>
          exists k :: k in junk && k !in todo && k != current && k >= from.segment &&
            (k > from.segment || from.position + 4 <= FileSize(Files(), k))
        decreases |todo|
      {
        var k :| k in todo;
        todo := todo - {k};
        var size := Size(if k in segments then segments[k] else []) + 4 + junk[k].follows;
        if k != current && k >= from.segment && (k > from.segment || from.position + 4 <= size) {
          blocked := true;
        }
      }
    }

    /** `WalStream`: finish the offset's segment, then read the following ones to the end. */
    method ReadFrom(o: Offset) returns (r: Option<seq<D>>)
      ensures r == Stream(View().store, o)
    {
      var deltas: seq<D> := [];
      if o.segment in segments && o.segment <= current {
        var rest := After(segments[o.segment], o.position);
        if rest.None? {
          return None;
        }
        deltas := Deltas(rest.value);
      }
      var k := o.segment + 1;
      assert o.segment > current ==> Stream(View().store, o) == Some([]);
      while k <= current
        invariant o.segment < k && (k <= current + 1 || o.segment > current) && Stream(View().store, o).Some?
        invariant deltas + Span(segments, k, current) == Stream(View().store, o).value
      {
        ghost var before := deltas;
        if k in segments {
          deltas := deltas + Deltas(segments[k]);
        }
        assert before + Span(segments, k, current) == deltas + Span(segments, k + 1, current);
        k := k + 1;
      }
      assert deltas + [] == deltas;
      r := Some(deltas);
    }
  }
}
