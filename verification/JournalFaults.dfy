/**
  The disk journal when appends fail. `append_delta` only prints the error and goes on, so further
  records may land behind torn bytes. Opening then cuts the torn frame off together with them, or
  refuses; this module says exactly what recovery yields and which records are silently lost.
 */
module JournalFaults {
  import opened Basics
  import Wal
  import opened JournalModel
  import opened JournalProofs

  /** How an append fails: `Torn` after the length prefix and `written` more bytes, `Landed` after the whole record. */
  datatype Failure = NothingWritten | RotatedOnly | Torn(written: nat) | Landed

  /**
    The torn bytes of a segment and everything behind them: the length that the torn prefix claims,
    the bytes that follow that prefix, and how many of those the writer counts as whole records.
   */
  datatype Junk = Junk(length: nat, follows: nat, counted: nat)

  /** What became of a record that was written whole. */
  datatype Fate = Kept | Behind(segment: nat) | Cut

  datatype Landing<D> = Landing(delta: D, fate: Fate)

  /**
    The journal as far as it can be parsed; the torn bytes by segment; by how much the manifest's
    position overshoots the parsed end at the time of its snapshot; and every record written whole
    since the last completed snapshot.
   */
  datatype Disk<D, S> = Disk(sys: System<D, S>, junk: map<nat, Junk>, over: nat, landed: seq<Landing<D>>)

  datatype Event<D, S> =
    | Attempt(frame: Frame<D>, fault: Option<Failure>)
    | Snap(content: S, crash: Crash)
    | Gc(since: Offset)
    | Reopen

  /** The record reached the disk whole, whether or not the append said so. */
  predicate Lands<D, S>(a: Event<D, S>) {
    a.Attempt? && (a.fault.None? || a.fault == Some(Landed))
  }

  predicate Writes<D, S>(a: Event<D, S>) {
    a.Attempt? && (a.fault.None? || a.fault.value.Torn? || a.fault.value.Landed?)
  }

  // ---- Appending ----------------------------------------------------------

  function Counted<D, S>(d: Disk<D, S>): nat {
    if d.sys.store.current in d.junk then d.junk[d.sys.store.current].counted else 0
  }

  /** `WalWriter::size`: whole records, torn bytes left out. */
  function WriterSize<D, S>(d: Disk<D, S>): nat {
    Size(Open(d.sys.store)) + Counted(d)
  }

  /** The rotation at the head of an append; torn bytes stay behind in the old segment. */
  function Rolled<D, S>(d: Disk<D, S>, f: Frame<D>): Disk<D, S> {
    if WriterSize(d) + FrameSize(f) > d.sys.store.rotation then d.(sys := d.sys.(store := Rotate(d.sys.store))) else d
  }

  /** A whole record: at the end of the log, or behind torn bytes. */
  function Written<D, S>(d: Disk<D, S>, f: Frame<D>): Disk<D, S> {
    var k := d.sys.store.current;
    if k in d.junk then
      var j := d.junk[k];
      d.(junk := d.junk[k := Junk(j.length, j.follows + FrameSize(f), j.counted + FrameSize(f))],
         landed := d.landed + [Landing(f.delta, Behind(k))])
    else
      d.(sys := System(Push(d.sys.store, f), d.sys.past.(log := d.sys.past.log + [f.delta])),
         landed := d.landed + [Landing(f.delta, Kept)])
  }

  function Tore<D, S>(d: Disk<D, S>, f: Frame<D>, written: nat): Disk<D, S> {
    var k := d.sys.store.current;
    var j := if k in d.junk then d.junk[k].(follows := d.junk[k].follows + 4 + written)
             else Junk(f.payload, written, 0);
    d.(junk := d.junk[k := j])
  }

  function Attempted<D, S>(d: Disk<D, S>, f: Frame<D>, fault: Option<Failure>): Disk<D, S> {
    match fault
    case Some(NothingWritten) => d
    case Some(RotatedOnly) => Rolled(d, f)
    case Some(Torn(written)) => Tore(Rolled(d, f), f, written)
    case _ => Written(Rolled(d, f), f)
  }

  // ---- Opening ------------------------------------------------------------

  predicate Opens<D, S>(d: Disk<D, S>) {
    var k := d.sys.store.current;
    k in d.junk ==> Wal.CutsOff(d.junk[k].length, d.junk[k].follows)
  }

  function CutBehind<D>(landed: seq<Landing<D>>, segment: nat): seq<Landing<D>> {
    seq(|landed|, i requires 0 <= i < |landed| =>
      if landed[i].fate == Behind(segment) then Landing(landed[i].delta, Cut) else landed[i])
  }

  /** Cutting at the torn frame drops it and every record behind it; no checksum is looked at. */
  function Opened<D, S>(d: Disk<D, S>): Disk<D, S> {
    var k := d.sys.store.current;
    if k in d.junk then d.(junk := d.junk - {k}, landed := CutBehind(d.landed, k)) else d
  }

  predicate Possible<D, S>(d: Disk<D, S>, a: Event<D, S>) {
    match a
    case Attempt(f, Some(Torn(written))) => written < f.payload + 4
    case Gc(since) => exists o :: o in d.sys.past.given && o.segment == since.segment
    case Reopen => Opens(d)
    case _ => true
  }

  function Next<D, S>(d: Disk<D, S>, a: Event<D, S>): Disk<D, S> {
    match a
    case Attempt(f, fault) => Attempted(d, f, fault)
    case Snap(content, crash) =>
      var sys := Step(d.sys, SnapshotAction(content, crash));
      if crash.NoCrash? then Disk(sys, d.junk, Counted(d), []) else d.(sys := sys)
    case Gc(since) =>
      var sys := Step(d.sys, GcAction(since));
      d.(sys := sys, junk := map k | k in d.junk && k in sys.store.segments :: d.junk[k])
    case Reopen => Opened(d)
  }

  // ---- Recovery -----------------------------------------------------------

  function ReadsFrom(m: Manifest): Offset {
    if m.Saved? then m.offset else START
  }

  /** The manifest's position as it is written on disk. */
  function Physical<D, S>(d: Disk<D, S>): Offset {
    var o := ReadsFrom(d.sys.store.manifest);
    if d.sys.store.manifest.Saved? then Offset(o.segment, o.position + d.over) else o
  }

  /** The bytes of a segment with torn bytes. */
  function FileSize<D, S>(d: Disk<D, S>, k: nat): nat
    requires k in d.junk
  {
    (if k in d.sys.store.segments then Size(d.sys.store.segments[k]) else 0) + 4 + d.junk[k].follows
  }

  /** Recovery reads torn bytes: in a later segment, or in its first one unless it starts at that one's end. */
  predicate MustReadJunk<D, S>(d: Disk<D, S>) {
    exists k :: k in d.junk && k >= Physical(d).segment &&
                (k > Physical(d).segment || Physical(d).position + 4 <= FileSize(d, k))
  }

  /** The store with the manifest as it is written on disk. */
  function Shifted<D, S>(d: Disk<D, S>): Store<D, S> {
    match d.sys.store.manifest
    case Saved(id, _) => d.sys.store.(manifest := Saved(id, Physical(d)))
    case _ => d.sys.store
  }

  /** Open, load the snapshot and stream what follows; torn bytes read as a record fail the checksum. */
  function Recovered<D, S>(d: Disk<D, S>): Recovery<D, S> {
    if !Opens(d) || MustReadJunk(Opened(d)) then Failed else Recover(Shifted(d))
  }

  /** How many frames a position past the parsed end at its time now skips; `None` if it falls inside one. */
  function SkipOver<D>(frames: seq<Frame<D>>, over: nat): Option<nat> {
    if over == 0 || frames == [] then Some(0)
    else if over < FrameSize(frames[0]) then if Size(frames) < over + 4 then Some(|frames|) else None
    else
      match SkipOver(frames[1..], over - FrameSize(frames[0]))
      case None => None
      case Some(n) => Some(n + 1)
  }

  /** The frames of the manifest's segment that were written after its snapshot. */
  function SinceManifest<D, S>(s: Store<D, S>): seq<Frame<D>> {
    var o := ReadsFrom(s.manifest);
    if o.segment in s.segments then
      match After(s.segments[o.segment], o.position)
      case Some(rest) => rest
      case None => []
    else []
  }

  function Skipped<D, S>(d: Disk<D, S>): Option<nat> {
    if d.sys.store.manifest.Saved? then SkipOver(SinceManifest(d.sys.store), d.over) else Some(0)
  }

  function KeptOf<D>(landed: seq<Landing<D>>): seq<D> {
    if landed == [] then []
    else
      var last := landed[|landed| - 1];
      KeptOf(landed[..|landed| - 1]) + if last.fate.Kept? then [last.delta] else []
  }

  function DeltasOf<D>(landed: seq<Landing<D>>): seq<D> {
    seq(|landed|, i requires 0 <= i < |landed| => landed[i].delta)
  }

  // ---- Every run ----------------------------------------------------------

  function Unwritten<D, S>(rotation: nat): Disk<D, S> {
    Disk(Blank(rotation), map[], 0, [])
  }

  ghost predicate IsRun<D, S>(rotation: nat, trace: seq<Disk<D, S>>, events: seq<Event<D, S>>) {
    |trace| == |events| + 1 && trace[0] == Unwritten(rotation) &&
    forall i :: 0 <= i < |events| ==> Possible(trace[i], events[i]) && trace[i + 1] == Next(trace[i], events[i])
  }

  /** The deltas of all records written whole since the last completed snapshot. */
  function SinceSnapshot<D, S>(events: seq<Event<D, S>>): seq<D> {
    if events == [] then []
    else
      var last := events[|events| - 1];
      if last.Snap? && last.crash.NoCrash? then []
      else SinceSnapshot(events[..|events| - 1]) + if Lands(last) then [last.frame.delta] else []
  }

  /** Where in the log the last completed snapshot stands. */
  function Mark<D, S>(p: Past<D, S>): nat {
    if p.saved.Some? then p.saved.value.1 else 0
  }

  ghost predicate FateOk<D, S>(d: Disk<D, S>, l: Landing<D>) {
    match l.fate
    case Behind(k) => k in d.junk && k >= ReadsFrom(d.sys.store.manifest).segment
    case _ => true
  }

  /** The parsed journal is sound, torn bytes lie in existing segments, and every landing has its fate. */
  ghost predicate Sane<D, S>(d: Disk<D, S>, first: nat) {
    Sound(d.sys, first) && (forall k :: k in d.junk ==> k in d.sys.store.segments) &&
    Mark(d.sys.past) <= |d.sys.past.log| && KeptOf(d.landed) == d.sys.past.log[Mark(d.sys.past)..] &&
    (!d.sys.store.manifest.Torn? ==> forall l :: l in d.landed ==> FateOk(d, l))
  }

  lemma RotateKeeps<D, S>(y: System<D, S>, first: nat)
    requires Sound(y, first)
    ensures Sound(y.(store := Rotate(y.store)), first)
  {
    match y.store.manifest {
      case Torn =>
      case Absent => RotateStream(y.store, START);
      case Saved(_, o) => RotateStream(y.store, o);
    }
  }

  lemma PushKeeps<D, S>(y: System<D, S>, first: nat, f: Frame<D>)
    requires Sound(y, first)
    ensures Sound(System(Push(y.store, f), y.past.(log := y.past.log + [f.delta])), first)
  {
    var log := y.past.log + [f.delta];
    match y.store.manifest {
      case Torn =>
      case Absent =>
        PushStream(y.store, f, START);
        assert log[0..] == y.past.log[0..] + [f.delta];
      case Saved(_, o) =>
        PushStream(y.store, f, o);
        assert log[y.past.saved.value.1..] == y.past.log[y.past.saved.value.1..] + [f.delta];
    }
  }

  lemma KeptSnoc<D>(landed: seq<Landing<D>>, l: Landing<D>)
    ensures KeptOf(landed + [l]) == KeptOf(landed) + if l.fate.Kept? then [l.delta] else []
  {
    assert (landed + [l])[..|landed|] == landed;
  }

  lemma {:induction false} CutKeepsKept<D>(landed: seq<Landing<D>>, segment: nat)
    ensures KeptOf(CutBehind(landed, segment)) == KeptOf(landed)
    ensures DeltasOf(CutBehind(landed, segment)) == DeltasOf(landed)
  {
    if landed != [] {
      var front := landed[..|landed| - 1];
      CutKeepsKept(front, segment);
      assert CutBehind(landed, segment)[..|landed| - 1] == CutBehind(front, segment);
    }
  }

  lemma RolledSane<D, S>(d: Disk<D, S>, first: nat, f: Frame<D>)
    requires Sane(d, first)
    ensures Sane(Rolled(d, f), first) && Rolled(d, f).sys.past == d.sys.past && Rolled(d, f).landed == d.landed
  {
    RotateKeeps(d.sys, first);
    hide Sound, KeptOf, Size;
    var e := Rolled(d, f);
    forall l | l in e.landed && !e.sys.store.manifest.Torn? ensures FateOk(e, l) {
      assert FateOk(d, l);
    }
  }

  lemma WrittenSane<D, S>(d: Disk<D, S>, first: nat, f: Frame<D>)
    requires Sane(d, first)
    ensures Sane(Written(d, f), first)
    ensures DeltasOf(Written(d, f).landed) == DeltasOf(d.landed) + [f.delta]
  {
    PushKeeps(d.sys, first, f);
    var e, k := Written(d, f), d.sys.store.current;
    var l := Landing(f.delta, if k in d.junk then Behind(k) else Kept);
    assert e.landed == d.landed + [l];
    KeptSnoc(d.landed, l);
    CurrentIsLast(d.sys, first);
    hide Sound, KeptOf, Size;
    var mark := Mark(d.sys.past);
    assert (d.sys.past.log + [f.delta])[mark..] == d.sys.past.log[mark..] + [f.delta];
    forall x | x in e.landed && !e.sys.store.manifest.Torn? ensures FateOk(e, x) {
      assert x in d.landed ==> FateOk(d, x);
    }
  }

  lemma CurrentIsLast<D, S>(y: System<D, S>, first: nat)
    requires Sound(y, first)
    ensures y.store.current in y.store.segments
    ensures !y.store.manifest.Torn? ==> ReadsFrom(y.store.manifest).segment <= y.store.current
  {
  }

  lemma ToreSane<D, S>(d: Disk<D, S>, first: nat, f: Frame<D>, written: nat)
    requires Sane(d, first)
    ensures Sane(Tore(d, f, written), first) && Tore(d, f, written).landed == d.landed
  {
    var e := Tore(d, f, written);
    CurrentIsLast(d.sys, first);
    hide Sound, KeptOf, Size;
    forall l | l in e.landed && !e.sys.store.manifest.Torn? ensures FateOk(e, l) {
      assert FateOk(d, l);
    }
  }

  lemma OpenedSane<D, S>(d: Disk<D, S>, first: nat)
    requires Sane(d, first)
    ensures Sane(Opened(d), first) && Opened(d).sys == d.sys && DeltasOf(Opened(d).landed) == DeltasOf(d.landed)
    ensures KeptOf(Opened(d).landed) == KeptOf(d.landed)
  {
    var e, k := Opened(d), d.sys.store.current;
    CutKeepsKept(d.landed, k);
    hide Sound, KeptOf, Size;
    forall l | l in e.landed && !e.sys.store.manifest.Torn? ensures FateOk(e, l) {
      if k in d.junk {
        var i :| 0 <= i < |e.landed| && e.landed[i] == l;
        assert d.landed[i] in d.landed && FateOk(d, d.landed[i]);
      } else {
        assert FateOk(d, l);
      }
    }
  }

  lemma GcSane<D, S>(d: Disk<D, S>, first: nat, since: Offset) returns (after: nat)
    requires Sane(d, first) && Possible(d, Gc(since))
    ensures Sane(Next(d, Gc(since)), after) && Next(d, Gc(since)).landed == d.landed
  {
    var o :| o in d.sys.past.given && o.segment == since.segment;
    CollectKeeps(d.sys, first, o);
    after := if first < since.segment then since.segment else first;
    var e := Next(d, Gc(since));
    assert Collect(d.sys.store, o) == Collect(d.sys.store, since);
    GivenBounded(d.sys, first, o);
    hide Sound, KeptOf, Size;
    forall l | l in e.landed && !e.sys.store.manifest.Torn? ensures FateOk(e, l) {
      assert FateOk(d, l);
    }
  }

  lemma GivenBounded<D, S>(y: System<D, S>, first: nat, o: Offset)
    requires Sound(y, first) && o in y.past.given
    ensures !y.store.manifest.Torn? ==> o.segment <= ReadsFrom(y.store.manifest).segment
  {
  }

  lemma SnapSane<D, S>(d: Disk<D, S>, first: nat, content: S, crash: Crash)
    requires Sane(d, first)
    ensures Sane(Next(d, Snap(content, crash)), first)
    ensures Next(d, Snap(content, crash)).landed == if crash.NoCrash? then [] else d.landed
  {
    SnapshotKeeps(d.sys, first, content, crash);
    hide Sound, Size;
    var e := Next(d, Snap(content, crash));
    assert d.sys.past.log[|d.sys.past.log|..] == [];
    forall l | l in e.landed && !e.sys.store.manifest.Torn? ensures FateOk(e, l) {
      assert FateOk(d, l);
    }
  }

  lemma NextSane<D, S>(d: Disk<D, S>, first: nat, a: Event<D, S>) returns (after: nat)
    requires Sane(d, first) && Possible(d, a)
    ensures Sane(Next(d, a), after)
    ensures DeltasOf(Next(d, a).landed) ==
            if a.Snap? && a.crash.NoCrash? then [] else DeltasOf(d.landed) + if Lands(a) then [a.frame.delta] else []
  {
    hide Sane, Rolled, Written, Tore, Opened, Opens;
    after := first;
    match a
    case Attempt(f, fault) =>
      RolledSane(d, first, f);
      WrittenSane(Rolled(d, f), first, f);
      if fault.Some? && fault.value.Torn? {
        ToreSane(Rolled(d, f), first, f, fault.value.written);
      }
    case Snap(content, crash) => SnapSane(d, first, content, crash);
    case Gc(since) => after := GcSane(d, first, since);
    case Reopen => OpenedSane(d, first);
  }

  lemma {:induction false} FaultyRunSane<D, S>(rotation: nat, trace: seq<Disk<D, S>>, events: seq<Event<D, S>>, i: nat)
    returns (first: nat)
    requires IsRun(rotation, trace, events) && i < |trace|
    ensures Sane(trace[i], first) && DeltasOf(trace[i].landed) == SinceSnapshot(events[..i])
    decreases i
  {
    if i == 0 {
      first := JournalProofs.RunSound(rotation, [trace[0].sys], [], 0);
      assert Blank<D, S>(rotation).past.log[0..] == [];
    } else {
      hide Sane, Next, Possible;
      first := FaultyRunSane(rotation, trace, events, i - 1);
      first := NextSane(trace[i - 1], first, events[i - 1]);
      assert events[..i][..i - 1] == events[..i - 1];
    }
  }

  // ---- What recovery yields -----------------------------------------------

  lemma {:induction false} SkipMeans<D>(frames: seq<Frame<D>>, over: nat)
    ensures match SkipOver(frames, over)
            case None => After(frames, over).None?
            case Some(n) => n <= |frames| && After(frames, over) == Some(frames[n..])
    ensures SkipOver(frames, over) == Some(0) <==> over == 0 || frames == []
    decreases |frames|
  {
    if over > 0 && frames != [] {
      if over < FrameSize(frames[0]) {
        assert frames[|frames|..] == [];
      } else {
        SkipMeans(frames[1..], over - FrameSize(frames[0]));
      }
    }
  }

  lemma {:induction false} AfterShift<D>(frames: seq<Frame<D>>, position: nat, over: nat)
    requires Boundary(frames, position)
    ensures After(frames, position).Some?
    ensures After(frames, position + over) == After(After(frames, position).value, over)
    decreases |frames|
  {
    if position > 0 {
      AfterShift(frames[1..], position - FrameSize(frames[0]), over);
    }
  }

  /** Reading from the manifest's position on disk skips what `SkipOver` says, and nothing else. */
  lemma ShiftedStream<D, S>(s: Store<D, S>, o: Offset, over: nat)
    requires Within(s, o) && o.segment <= s.current
    ensures After(s.segments[o.segment], o.position).Some? && Stream(s, o).Some?
    ensures var rest := After(s.segments[o.segment], o.position).value;
            match SkipOver(rest, over)
            case None => Stream(s, Offset(o.segment, o.position + over)).None?
            case Some(n) => n <= |Stream(s, o).value| &&
                            Stream(s, Offset(o.segment, o.position + over)) == Some(Stream(s, o).value[n..])
  {
    AfterShift(s.segments[o.segment], o.position, 0);
    AfterShift(s.segments[o.segment], o.position, over);
    var rest := After(s.segments[o.segment], o.position).value;
    SkipMeans(rest, over);
    var tail := Span(s.segments, o.segment + 1, s.current);
    if SkipOver(rest, over).Some? {
      var n := SkipOver(rest, over).value;
      assert (Deltas(rest) + tail)[n..] == Deltas(rest[n..]) + tail;
    }
  }

  /** Recovery succeeds: the last segment opens, no torn bytes need to be read, and the position hits no frame. */
  predicate Recovers<D, S>(d: Disk<D, S>) {
    !d.sys.store.manifest.Torn? && Opens(d) && !MustReadJunk(Opened(d)) && Skipped(d).Some?
  }

  lemma SaneRecovers<D, S>(d: Disk<D, S>, first: nat)
    requires Sane(d, first)
    ensures Skipped(d).Some? && !d.sys.store.manifest.Torn? ==> Skipped(d).value <= |KeptOf(d.landed)|
    ensures Recovered(d) ==
            if !Recovers(d) then Failed
            else if d.sys.past.saved.None? then Fresh(KeptOf(d.landed))
            else Resumed(d.sys.past.saved.value.0, KeptOf(d.landed)[Skipped(d).value..])
  {
    CurrentIsLast(d.sys, first);
    match d.sys.store.manifest {
      case Torn =>
      case Absent =>
        assert KeptOf(d.landed) == d.sys.past.log;
        hide KeptOf, Stream, MustReadJunk, Opens, Contiguous, GivenOk;
      case Saved(_, o) =>
        ShiftedStream(d.sys.store, o, d.over);
        hide KeptOf, Stream, SkipOver, MustReadJunk, Opens, Contiguous, GivenOk, After;
    }
  }

  /** The record lies in the manifest's own segment, whose end the stale position has passed. */
  predicate PassedOver<D, S>(d: Disk<D, S>, fate: Fate) {
    fate.Behind? && fate.segment == Physical(d).segment && fate.segment in d.junk &&
    Physical(d).position + 4 > FileSize(d, fate.segment)
  }

  /**
    Recovery under append failures. At every point of every run, reopenings included, it yields the
    last completed snapshot and the records written whole since, minus exactly those behind a torn
    frame that opening cut off or cuts off now, and minus what a stale manifest position passes
    over. It fails exactly if the manifest is torn, opening refuses the last segment, torn bytes
    must be read, or the stale position falls inside a record.
   */
  lemma FaultyRunRecovers<D, S>(rotation: nat, trace: seq<Disk<D, S>>, events: seq<Event<D, S>>, i: nat)
    requires IsRun(rotation, trace, events) && i < |trace|
    ensures var d := trace[i];
            var landed := Opened(d).landed;
            DeltasOf(landed) == SinceSnapshot(events[..i]) &&
            (Recovers(d) ==> (forall l :: l in landed ==> l.fate.Kept? || l.fate.Cut? || PassedOver(d, l.fate)) &&
                             Skipped(d).value <= |KeptOf(landed)|) &&
            Recovered(d) ==
              if !Recovers(d) then Failed
              else if d.sys.past.saved.None? then Fresh(KeptOf(landed))
              else Resumed(d.sys.past.saved.value.0, KeptOf(landed)[Skipped(d).value..])
  {
    var first := FaultyRunSane(rotation, trace, events, i);
    SaneRecovers(trace[i], first);
    OpenedSane(trace[i], first);
    hide Sound, KeptOf, Opens, Skipped, Recovered, FileSize;
    var e := Opened(trace[i]);
    assert e.sys == trace[i].sys && Physical(e) == Physical(trace[i]);
    forall l | l in e.landed && Recovers(trace[i]) ensures l.fate.Kept? || l.fate.Cut? || PassedOver(trace[i], l.fate) {
      assert FateOk(e, l);
      assert l.fate.Behind? ==> l.fate.segment in e.junk && l.fate.segment >= Physical(e).segment;
    }
  }

  lemma {:induction false} AllKeptIff<D>(landed: seq<Landing<D>>)
    ensures |KeptOf(landed)| <= |landed|
    ensures KeptOf(landed) == DeltasOf(landed) <==> forall l :: l in landed ==> l.fate.Kept?
    ensures |KeptOf(landed)| == |landed| <==> forall l :: l in landed ==> l.fate.Kept?
  {
    if landed != [] {
      var front, last := landed[..|landed| - 1], landed[|landed| - 1];
      AllKeptIff(front);
      assert forall l :: l in landed <==> l in front || l == last;
      assert DeltasOf(landed) == DeltasOf(front) + [last.delta];
      if last.fate.Kept? {
        assert (KeptOf(front) + [last.delta])[..|KeptOf(front)|] == KeptOf(front);
        assert (DeltasOf(front) + [last.delta])[..|front|] == DeltasOf(front);
      }
    }
  }

  /**
    Silent loss, exactly: a recovery that succeeds misses a record written whole since the snapshot
    if and only if opening cut off a torn frame with such a record behind it, or a stale manifest
    position passes over one.
   */
  lemma SilentLossIff<D, S>(rotation: nat, trace: seq<Disk<D, S>>, events: seq<Event<D, S>>, i: nat)
    requires IsRun(rotation, trace, events) && i < |trace| && Recovers(trace[i])
    ensures var landed := Opened(trace[i]).landed;
            !Recovered(trace[i]).Failed? &&
            (Recovered(trace[i]).deltas == SinceSnapshot(events[..i]) <==>
             (forall l :: l in landed ==> l.fate.Kept?) &&
             (trace[i].sys.past.saved.None? || Skipped(trace[i]) == Some(0)))
  {
    FaultyRunRecovers(rotation, trace, events, i);
    var landed := Opened(trace[i]).landed;
    hide IsRun, Recovers, Recovered, Opened, Skipped, SinceSnapshot, KeptOf;
    AllKeptIff(landed);
    var n := Skipped(trace[i]).value;
    assert n == 0 ==> KeptOf(landed)[n..] == KeptOf(landed);
  }

  // ---- Complete journals --------------------------------------------------

  /** The deltas of all records written whole, and all that were to be journalled. */
  function Landings<D, S>(events: seq<Event<D, S>>): seq<D> {
    if events == [] then []
    else
      var last := events[|events| - 1];
      Landings(events[..|events| - 1]) + if Lands(last) then [last.frame.delta] else []
  }

  function Emitted<D, S>(events: seq<Event<D, S>>): seq<D> {
    if events == [] then []
    else
      var last := events[|events| - 1];
      Emitted(events[..|events| - 1]) + if last.Attempt? then [last.frame.delta] else []
  }

  /** Every delta was written whole if and only if no append fell short of that. */
  lemma {:induction false} CompleteIff<D, S>(events: seq<Event<D, S>>)
    ensures |Landings(events)| <= |Emitted(events)|
    ensures Landings(events) == Emitted(events) <==> forall a :: a in events && a.Attempt? ==> Lands(a)
  {
    if events != [] {
      var front, last := events[..|events| - 1], events[|events| - 1];
      CompleteIff(front);
      assert forall a :: a in events <==> a in front || a == last;
      var landed, emitted := Landings(front), Emitted(front);
      if !last.Attempt? {
        assert landed + [] == landed && emitted + [] == emitted;
      } else if Lands(last) {
        var more := [last.frame.delta];
        assert (landed + more)[..|landed|] == landed && (emitted + more)[..|emitted|] == emitted;
      } else {
        assert last in events;
      }
    }
  }

  /** No torn bytes except perhaps at the end of the last segment with nothing behind them, and nothing lost. */
  ghost predicate Tidy<D, S>(d: Disk<D, S>) {
    d.over == 0 && (forall l :: l in d.landed ==> l.fate.Kept?) &&
    forall k :: k in d.junk ==> k == d.sys.store.current && d.junk[k].counted == 0
  }

  lemma TidyNext<D, S>(d: Disk<D, S>, a: Event<D, S>)
    requires Tidy(d) && (a.Attempt? && a.fault != Some(NothingWritten) ==> d.sys.store.current !in d.junk)
    ensures Tidy(Next(d, a))
  {
    hide Size;
    var e := Next(d, a);
    forall l | l in e.landed ensures l.fate.Kept? {
      if a.Reopen? && d.sys.store.current in d.junk {
        var i :| 0 <= i < |e.landed| && e.landed[i] == l;
        assert d.landed[i] in d.landed;
      }
    }
  }

  /**
    A careful run reopens after every torn append before it touches the segment again. Then nothing
    is ever lost: whatever recovery yields is every record written whole since the snapshot.
   */
  lemma {:induction false} CarefulRun<D, S>(rotation: nat, trace: seq<Disk<D, S>>, events: seq<Event<D, S>>, i: nat)
    requires IsRun(rotation, trace, events) && i < |trace|
    requires forall j :: 0 <= j < i && events[j].Attempt? && events[j].fault != Some(NothingWritten) ==>
               trace[j].sys.store.current !in trace[j].junk
    ensures Tidy(trace[i])
    ensures Recovered(trace[i]).Failed? || Recovered(trace[i]).deltas == SinceSnapshot(events[..i])
    decreases i
  {
    hide Next, Possible;
    if i > 0 {
      CarefulRun(rotation, trace, events, i - 1);
      TidyNext(trace[i - 1], events[i - 1]);
    }
    FaultyRunRecovers(rotation, trace, events, i);
    hide Recovered;
    if Recovers(trace[i]) {
      SilentLossIff(rotation, trace, events, i);
      TidyNext(trace[i], Reopen);
      NothingSkipped(trace[i]);
    }
  }

  lemma NothingSkipped<D, S>(d: Disk<D, S>)
    requires d.over == 0
    ensures Skipped(d) == Some(0)
  {
  }

  // ---- Two ways to lose an acknowledged record ----------------------------

  /** A whole record, then one torn after its length prefix. */
  function TornAt<D, S>(rotation: nat, f: Frame<D>, g: Frame<D>): Disk<D, S> {
    Next(Next(Unwritten(rotation), Attempt(f, None)), Attempt(g, Some(Failure.Torn(0))))
  }

  lemma TornDisk<D, S>(rotation: nat, f: Frame<D>, g: Frame<D>)
    requires FrameSize(f) + FrameSize(g) <= rotation
    ensures var sys := System(Store(map[1 := [f]], 1, rotation, Absent, map[], 0), Past([f.delta], None, {}));
            TornAt<D, S>(rotation, f, g) == Disk(sys, map[1 := Junk(g.payload, 0, 0)], 0, [Landing(f.delta, Kept)])
  {
    SizeOne(f);
    assert [] + [f] == [f] && [] + [f.delta] == [f.delta];
    assert [] + [Landing(f.delta, Kept)] == [Landing(f.delta, Kept)];
    assert map[1 := []][1 := [f]] == map[1 := [f]];
  }

  lemma SizeOne<D>(f: Frame<D>)
    ensures Size<D>([]) == 0 && Size([f]) == FrameSize(f) && Deltas([f]) == [f.delta]
  {
    assert [f][1..] == [];
  }

  /**
    A torn record, then a successful one behind it. Before the second, recovery yields what was
    whole. After it, recovery still yields only that, so the acknowledged record is silently gone,
    if the torn length is 5 to 8 more than the payload behind it; otherwise it fails.
   */
  lemma TornThenAppend<D, S>(rotation: nat, f: Frame<D>, g: Frame<D>, h: Frame<D>)
    requires FrameSize(f) + FrameSize(g) <= rotation && FrameSize(f) + FrameSize(h) <= rotation
    ensures var d := TornAt<D, S>(rotation, f, g);
            Recovered(d) == Fresh([f.delta]) &&
            Recovered(Next(d, Attempt(h, None))) ==
              if h.payload + 5 <= g.payload <= h.payload + 8 then Fresh([f.delta]) else Failed
  {
    TornDisk<D, S>(rotation, f, g);
    SizeOne(f);
    var d := TornAt<D, S>(rotation, f, g);
    var e := Next(d, Attempt(h, None));
    assert e == d.(junk := map[1 := Junk(g.payload, FrameSize(h), FrameSize(h))],
                   landed := d.landed + [Landing(h.delta, Behind(1))]);
    assert Opened(d).junk == map[] && Opened(e).junk == map[];
    WholeStream<D, S>(rotation, f);
  }

  lemma WholeStream<D, S>(rotation: nat, f: Frame<D>)
    ensures var s: Store<D, S> := Store(map[1 := [f]], 1, rotation, Absent, map[], 0);
            Stream(s, START) == Some([f.delta])
  {
    SizeOne(f);
    assert Span(map[1 := [f]], 2, 1) == [] && [f.delta] + [] == [f.delta];
  }

  /**
    A snapshot taken over such a record leaves a stale position: after the cut, a further record is
    silently skipped if it is less than four bytes longer than the lost one, and otherwise makes
    recovery fail.
   */
  lemma StalePosition<D, S>(rotation: nat, f: Frame<D>, g: Frame<D>, h: Frame<D>, content: S, k: Frame<D>)
    requires FrameSize(f) + FrameSize(g) <= rotation && FrameSize(f) + FrameSize(h) <= rotation
    requires FrameSize(f) + FrameSize(k) <= rotation && h.payload + 5 <= g.payload <= h.payload + 8
    ensures var d1 := Next(TornAt<D, S>(rotation, f, g), Attempt(h, None));
            var d2 := Next(Next(d1, Snap(content, NoCrash)), Reopen);
            Possible(Next(d1, Snap(content, NoCrash)), Reopen) && Recovered(d2) == Resumed(content, []) &&
            Recovered(Next(d2, Attempt(k, None))) ==
              if k.payload < h.payload + 4 then Resumed(content, []) else Failed
  {
    TornDisk<D, S>(rotation, f, g);
    StaleDisk(TornAt<D, S>(rotation, f, g), f, g, h, content);
    var d1 := Next(TornAt<D, S>(rotation, f, g), Attempt(h, None));
    var d2 := Next(Next(d1, Snap(content, NoCrash)), Reopen);
    hide Next, TornAt, Possible;
    StaleAppend(d2, f, k);
    StaleReads(d2, f, FrameSize(h), content, [f], k);
    StaleReads(Next(d2, Attempt(k, None)), f, FrameSize(h), content, [f, k], k);
  }

  /** The disk after the snapshot over a lost record and the cut. */
  ghost predicate Stale<D, S>(d: Disk<D, S>, f: Frame<D>, over: nat, content: S, frames: seq<Frame<D>>) {
    d.junk == map[] && d.over == over && d.sys.past.saved.Some? && d.sys.store.segments == map[1 := frames] &&
    d.sys.store.current == 1 && d.sys.store.manifest == Saved(1, Offset(1, FrameSize(f))) &&
    d.sys.store.snapshots == map[1 := Whole(content)]
  }

  lemma StaleDisk<D, S>(d: Disk<D, S>, f: Frame<D>, g: Frame<D>, h: Frame<D>, content: S)
    requires h.payload + 5 <= g.payload <= h.payload + 8
    requires FrameSize(f) + FrameSize(h) <= d.sys.store.rotation
    requires d.sys.store == Store(map[1 := [f]], 1, d.sys.store.rotation, Absent, map[], 0)
    requires d.junk == map[1 := Junk(g.payload, 0, 0)]
    ensures var snapped := Next(Next(d, Attempt(h, None)), Snap(content, NoCrash));
            var e := Next(snapped, Reopen);
            Possible(snapped, Reopen) && Stale(e, f, FrameSize(h), content, [f]) &&
            e.sys.store.rotation == d.sys.store.rotation
  {
    SizeOne(f);
    var d1 := Next(d, Attempt(h, None));
    assert d1.junk == map[1 := Junk(g.payload, FrameSize(h), FrameSize(h))] && d1.sys == d.sys;
    var d2 := Next(Next(d1, Snap(content, NoCrash)), Reopen);
    assert d2.junk == map[];
    assert d2.sys.store.snapshots == map[1 := Whole(content)];
  }

  lemma StaleAppend<D, S>(d: Disk<D, S>, f: Frame<D>, k: Frame<D>)
    requires d.junk == map[] && d.sys.store.segments == map[1 := [f]] && d.sys.store.current == 1
    requires FrameSize(f) + FrameSize(k) <= d.sys.store.rotation
    ensures var e := Next(d, Attempt(k, None));
            e.junk == map[] && e.over == d.over && e.sys.past.saved == d.sys.past.saved &&
            e.sys.store == d.sys.store.(segments := map[1 := [f, k]])
  {
    SizeOne(f);
    assert [f] + [k] == [f, k] && map[1 := [f]][1 := [f, k]] == map[1 := [f, k]];
  }

  lemma StaleReads<D, S>(d: Disk<D, S>, f: Frame<D>, over: nat, content: S, frames: seq<Frame<D>>, k: Frame<D>)
    requires Stale(d, f, over, content, frames) && over > 0 && (frames == [f] || frames == [f, k])
    ensures Recovered(d) ==
            if frames == [f] || FrameSize(k) < over + 4 then Resumed(content, []) else Failed
  {
    StaleAfter(f, over, k);
    hide After, Size;
    assert Span(d.sys.store.segments, 2, 1) == [] && Deltas<D>([]) + [] == [];
    assert Physical(d) == Offset(1, FrameSize(f) + over) && Opened(d) == d;
  }

  lemma StaleAfter<D>(f: Frame<D>, over: nat, k: Frame<D>)
    requires over > 0
    ensures After([f], FrameSize(f) + over) == Some([])
    ensures After([f, k], FrameSize(f) + over) == if FrameSize(k) < over + 4 then Some([]) else None
  {
    SizeOne(k);
    assert [f][1..] == [] && [f, k][1..] == [k] && [k][1..] == [];
    assert After([f], FrameSize(f) + over) == After<D>([], over) == Some([]);
    assert After([f, k], FrameSize(f) + over) == After([k], over);
    if over >= FrameSize(k) {
      assert After([k], over) == After<D>([], over - FrameSize(k)) == Some([]);
    }
  }
}
