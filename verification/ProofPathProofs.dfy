/** Exactly-once, replay and commitment properties of the ProofPath ledger. */
module ProofPathProofs {
  import opened Basics
  import opened Text
  import opened Wal
  import opened ProofPathModel

  // ---- Builder and validator ---------------------------------------------

  lemma ProperDigest(h: Crypto, body: Body)
    requires ProperRefs(h) && Digest(h, body).Some?
    ensures ValidRef(Digest(h, body).value)
  {
  }

  /** A record built from any normalised input passes every check of `apply_record`. */
  lemma BuilderAgreesWithValidator(h: Crypto, namespace: string, state: Ledger, input: Input)
    requires ProperRefs(h) && NormalizeInput(input).Ok?
    ensures var norm := NormalizeInput(input).value;
            var body := Build(h, namespace, state, norm);
            body.ingestionKey !in state.records && Digest(h, body).Some? ==>
            ApplyRecord(h, namespace, state, Record(body, Digest(h, body).value)) ==
            Ok(Ledger(state.nextSequence + 1, Digest(h, body),
                      state.records[body.ingestionKey := Record(body, Digest(h, body).value)]))
  {
    var norm := NormalizeInput(input).value;
    var body := Build(h, namespace, state, norm);
    assert ValidRef(h.shaText(KeySeed(namespace, norm.logicalOperationId)));
    if Digest(h, body).Some? {
      ProperDigest(h, body);
    }
  }

  /** On an unpoisoned ledger `append` fails only on bad input, a conflict, or storage or encoding trouble. */
  lemma AppendErrors(h: Crypto, namespace: string, m: Machine, input: Input, fault: Option<Fault>)
    requires ProperRefs(h) && m.memory.Opened?
    ensures var r := Append(h, namespace, m, input, fault).result;
            r.Err? ==>
              (r.error.PoisonedAfterStorageFailure? && m.memory.poisoned) ||
              (NormalizeInput(input).Err? && r.error == NormalizeInput(input).error) ||
              r.error.IdempotencyConflict? || r.error.Encoding? || (r.error.Storage? && fault.Some?)
  {
    if NormalizeInput(input).Ok? {
      BuilderAgreesWithValidator(h, namespace, m.memory.state, input);
    }
  }

  predicate NoNul(s: string) {
    '\0' !in s
  }

  lemma NamespaceHasNoNul(value: string)
    requires NormalizeNamespace(value).Ok?
    ensures NoNul(value)
  {
    forall i | 0 <= i < |value| ensures value[i] != '\0' {
      assert IsAlphanumeric(value[i]) || value[i] in ".-_";
    }
  }

  /** The text behind the idempotency key determines namespace and operation. */
  lemma KeySeedInjective(ns1: string, op1: string, ns2: string, op2: string)
    requires NormalizeNamespace(ns1).Ok? && NormalizeNamespace(ns2).Ok?
    ensures KeySeed(ns1, op1) == KeySeed(ns2, op2) ==> ns1 == ns2 && op1 == op2
  {
    if KeySeed(ns1, op1) == KeySeed(ns2, op2) {
      NamespaceHasNoNul(ns1);
      NamespaceHasNoNul(ns2);
      var seed := KeySeed(ns1, op1);
      assert seed[|ns1|] == '\0' && seed[|ns2|] == '\0';
      assert seed[..|ns1|] == ns1 && seed[..|ns2|] == ns2;
      assert |ns1| == |ns2|;
      assert seed[|ns1| + 1..|seed| - |RECORD_KIND| - 1] == op1;
      assert seed[|ns2| + 1..|seed| - |RECORD_KIND| - 1] == op2;
    }
  }

  // ---- What a replayed WAL looks like -------------------------------------

  lemma ReplaySnoc(h: Crypto, namespace: string, wal: seq<Record>, record: Record)
    requires Replay(h, namespace, wal).Ok?
    ensures Replay(h, namespace, wal + [record]) ==
            ApplyRecord(h, namespace, Replay(h, namespace, wal).value, record)
  {
    assert (wal + [record])[..|wal|] == wal;
  }

  /** What an accepted record is, and what accepting it does. */
  lemma Accepted(h: Crypto, namespace: string, state: Ledger, record: Record)
    requires ApplyRecord(h, namespace, state, record).Ok?
    ensures var key := record.body.ingestionKey;
            key !in state.records && key == IngestionKey(h, namespace, record.body.logicalOperationId) &&
            record.body.sequence == state.nextSequence && record.body.previousRecordHash == state.head &&
            Digest(h, record.body) == Some(record.recordHash) &&
            ApplyRecord(h, namespace, state, record).value ==
              Ledger(state.nextSequence + 1, Some(record.recordHash), state.records[key := record])
  {
  }

  /** The records of a WAL by ingestion key. */
  function ByKey(wal: seq<Record>): map<string, Record> {
    if wal == [] then map[]
    else var last := wal[|wal| - 1]; ByKey(wal[..|wal| - 1])[last.body.ingestionKey := last]
  }

  ghost predicate KeptAt(h: Crypto, namespace: string, byKey: map<string, Record>, wal: seq<Record>, i: int) {
    0 <= i < |wal| ==>
      var body := wal[i].body;
      body.sequence == i + 1 && body.ingestionKey == IngestionKey(h, namespace, body.logicalOperationId) &&
      body.ingestionKey in byKey && byKey[body.ingestionKey] == wal[i]
  }

  ghost predicate ListedIn(byKey: map<string, Record>, wal: seq<Record>, key: string) {
    key in byKey ==>
      var body := byKey[key].body;
      body.ingestionKey == key && 1 <= body.sequence <= |wal| && wal[body.sequence - 1] == byKey[key]
  }

  ghost predicate KeysOk(h: Crypto, namespace: string, wal: seq<Record>) {
    (forall i :: KeptAt(h, namespace, ByKey(wal), wal, i)) && (forall key :: ListedIn(ByKey(wal), wal, key))
  }

  ghost predicate KeysListed(h: Crypto, namespace: string, wal: seq<Record>) {
    (forall i :: 0 <= i < |wal| ==> wal[i].body.sequence == i + 1) &&
    (forall i :: 0 <= i < |wal| ==>
      wal[i].body.ingestionKey == IngestionKey(h, namespace, wal[i].body.logicalOperationId)) &&
    (forall i :: 0 <= i < |wal| ==> wal[i].body.ingestionKey in ByKey(wal)) &&
    (forall i :: 0 <= i < |wal| ==> ByKey(wal)[wal[i].body.ingestionKey] == wal[i]) &&
    (forall key :: key in ByKey(wal) ==> ByKey(wal)[key] in wal && ByKey(wal)[key].body.ingestionKey == key)
  }

  /** The replayed state lists exactly the WAL's records, each under its own, unique key. */
  lemma ReplayedState(h: Crypto, namespace: string, wal: seq<Record>)
    requires Replay(h, namespace, wal).Ok?
    ensures Replay(h, namespace, wal).value ==
            Ledger(|wal| + 1, if wal == [] then None else Some(wal[|wal| - 1].recordHash), ByKey(wal))
    ensures KeysListed(h, namespace, wal)
  {
    ReplayedKeys(h, namespace, wal);
    hide Replay, ByKey, IngestionKey, KeptAt, ListedIn;
    KeysMean(h, namespace, ByKey(wal), wal);
  }

  lemma KeysMean(h: Crypto, namespace: string, byKey: map<string, Record>, wal: seq<Record>)
    requires (forall i :: KeptAt(h, namespace, byKey, wal, i)) && forall key :: ListedIn(byKey, wal, key)
    ensures forall i :: 0 <= i < |wal| ==> wal[i].body.sequence == i + 1
    ensures forall i :: 0 <= i < |wal| ==>
              wal[i].body.ingestionKey == IngestionKey(h, namespace, wal[i].body.logicalOperationId)
    ensures forall i :: 0 <= i < |wal| ==> wal[i].body.ingestionKey in byKey
    ensures forall i :: 0 <= i < |wal| ==> byKey[wal[i].body.ingestionKey] == wal[i]
    ensures forall key :: key in byKey ==> byKey[key] in wal && byKey[key].body.ingestionKey == key
  {
    hide IngestionKey;
    forall i | 0 <= i < |wal|
      ensures wal[i].body.sequence == i + 1 && wal[i].body.ingestionKey in byKey &&
              byKey[wal[i].body.ingestionKey] == wal[i]
      ensures wal[i].body.ingestionKey == IngestionKey(h, namespace, wal[i].body.logicalOperationId)
    {
      assert KeptAt(h, namespace, byKey, wal, i);
    }
    forall key | key in byKey ensures byKey[key] in wal && byKey[key].body.ingestionKey == key {
      assert ListedIn(byKey, wal, key);
    }
  }

  lemma {:induction false} ReplayedKeys(h: Crypto, namespace: string, wal: seq<Record>)
    requires Replay(h, namespace, wal).Ok?
    ensures Replay(h, namespace, wal).value ==
            Ledger(|wal| + 1, if wal == [] then None else Some(wal[|wal| - 1].recordHash), ByKey(wal))
    ensures KeysOk(h, namespace, wal)
  {
    hide ApplyRecord, IngestionKey, Digest, KeysOk;
    if wal == [] {
      NoKeys(h, namespace);
    } else {
      var prefix, last := wal[..|wal| - 1], wal[|wal| - 1];
      ReplayedKeys(h, namespace, prefix);
      Accepted(h, namespace, Replay(h, namespace, prefix).value, last);
      KeysSnoc(h, namespace, prefix, last);
      assert prefix + [last] == wal;
    }
  }

  lemma NoKeys(h: Crypto, namespace: string)
    ensures KeysOk(h, namespace, [])
  {
  }

  lemma KeysSnoc(h: Crypto, namespace: string, wal: seq<Record>, last: Record)
    requires KeysOk(h, namespace, wal) && last.body.sequence == |wal| + 1 && last.body.ingestionKey !in ByKey(wal)
    requires last.body.ingestionKey == IngestionKey(h, namespace, last.body.logicalOperationId)
    ensures KeysOk(h, namespace, wal + [last])
  {
    hide IngestionKey;
    var longer := wal + [last];
    assert ByKey(longer) == ByKey(wal)[last.body.ingestionKey := last] by {
      assert longer[..|wal|] == wal;
    }
    hide ByKey;
    var byKey, more := ByKey(wal), ByKey(longer);
    forall i ensures KeptAt(h, namespace, more, longer, i) {
      assert KeptAt(h, namespace, byKey, wal, i);
    }
    forall key ensures ListedIn(more, longer, key) {
      assert ListedIn(byKey, wal, key);
    }
  }

  /** A WAL that replays has at most one record for each logical operation. */
  lemma AtMostOneRecord(h: Crypto, namespace: string, wal: seq<Record>, i: nat, j: nat)
    requires Replay(h, namespace, wal).Ok? && i < |wal| && j < |wal|
    requires wal[i].body.logicalOperationId == wal[j].body.logicalOperationId
    ensures i == j
  {
    hide ApplyRecord, ByKey, Replay, IngestionKey;
    ReplayedState(h, namespace, wal);
  }

  // ---- Every run ----------------------------------------------------------

  /** The state is that of the whole WAL or of all but its last record. */
  ghost predicate Lags(h: Crypto, namespace: string, state: Ledger, wal: seq<Record>) {
    Replay(h, namespace, wal) == Ok(state) || (wal != [] && Replay(h, namespace, wal[..|wal| - 1]) == Ok(state))
  }

  /**
    The WAL replays; an unpoisoned ledger sits on a clean tail and holds exactly the replayed
    state; a poisoned one misses at most the last record.
   */
  ghost predicate Sound(h: Crypto, namespace: string, m: Machine) {
    Replay(h, namespace, m.disk.wal).Ok? &&
    (m.memory.Opened? && !m.memory.poisoned ==>
      m.disk.tail.Clean? && m.memory.state == Replay(h, namespace, m.disk.wal).value) &&
    (m.memory.Opened? && m.memory.poisoned ==> Lags(h, namespace, m.memory.state, m.disk.wal))
  }

  lemma StepSound(h: Crypto, namespace: string, m: Machine, a: Action)
    requires ProperRefs(h) && Sound(h, namespace, m)
    ensures Sound(h, namespace, Step(h, namespace, m, a))
    ensures m.disk.wal <= Step(h, namespace, m, a).disk.wal
  {
    hide ApplyRecord, Build, NormalizeInput;
    if a.AppendAction? && m.memory.Opened? && !m.memory.poisoned && NormalizeInput(a.input).Ok? {
      var norm := NormalizeInput(a.input).value;
      var body := Build(h, namespace, m.memory.state, norm);
      if Digest(h, body).Some? {
        var record := Record(body, Digest(h, body).value);
        ReplaySnoc(h, namespace, m.disk.wal, record);
        assert (m.disk.wal + [record])[..|m.disk.wal|] == m.disk.wal;
      }
    }
  }

  /**
    Exactly-once, part one. In every run of appends, ambiguous store failures, closes and opens, the
    WAL replays without error, an unpoisoned ledger's memory is the replay of its WAL, no operation
    has two records, and the WAL only grows, so a record keeps the times its first writer gave it.
   */
  lemma {:induction false} RunSound(h: Crypto, namespace: string, trace: seq<Machine>, actions: seq<Action>, i: nat)
    requires ProperRefs(h) && IsRun(h, namespace, trace, actions) && i < |trace|
    ensures Sound(h, namespace, trace[i])
    ensures forall j :: 0 <= j <= i ==> trace[j].disk.wal <= trace[i].disk.wal
    ensures var wal := trace[i].disk.wal;
            forall j, k :: 0 <= j < k < |wal| ==> wal[j].body.logicalOperationId != wal[k].body.logicalOperationId
  {
    hide Step, ApplyRecord, ProperRefs;
    if i > 0 {
      RunSound(h, namespace, trace, actions, i - 1);
      StepSound(h, namespace, trace[i - 1], actions[i - 1]);
    }
    OneRecordEach(h, namespace, trace[i].disk.wal);
  }

  lemma OneRecordEach(h: Crypto, namespace: string, wal: seq<Record>)
    requires Replay(h, namespace, wal).Ok?
    ensures forall j, k :: 0 <= j < k < |wal| ==> wal[j].body.logicalOperationId != wal[k].body.logicalOperationId
  {
    forall j, k | 0 <= j < k < |wal| ensures wal[j].body.logicalOperationId != wal[k].body.logicalOperationId {
      if wal[j].body.logicalOperationId == wal[k].body.logicalOperationId {
        AtMostOneRecord(h, namespace, wal, j, k);
      }
    }
  }

  /** From a sound disk, opening fails exactly when a partial payload was left behind. */
  lemma OpenSucceeds(h: Crypto, namespace: string, m: Machine)
    requires Sound(h, namespace, m)
    ensures Open(h, namespace, m.disk).Ok? <==> !m.disk.tail.TornPayload?
    ensures Open(h, namespace, m.disk).Ok? ==>
              Sound(h, namespace, Open(h, namespace, m.disk).value) &&
              Open(h, namespace, m.disk).value.disk.wal == m.disk.wal
  {
  }

  /** The same evidence for the same operation; times and admission references may differ. */
  predicate SameEvidence(a: Input, b: Input) {
    a.logicalOperationId == b.logicalOperationId && a.sourceEventBytes == b.sourceEventBytes &&
    a.admissionReportBytes == b.admissionReportBytes && a.sourceReceiptRef == b.sourceReceiptRef &&
    a.validTimeMs == b.validTimeMs
  }

  ghost predicate HoldsOnce(wal: seq<Record>, operation: string, record: Record) {
    record in wal && record.body.logicalOperationId == operation &&
    forall r :: r in wal && r.body.logicalOperationId == operation ==> r == record
  }

  lemma LookupMeansPresent(h: Crypto, namespace: string, wal: seq<Record>, record: Record)
    requires Replay(h, namespace, wal).Ok? && record in wal
    ensures HoldsOnce(wal, record.body.logicalOperationId, record)
    ensures var key := IngestionKey(h, namespace, record.body.logicalOperationId);
            key in Replay(h, namespace, wal).value.records && Replay(h, namespace, wal).value.records[key] == record
  {
    ReplayedState(h, namespace, wal);
    forall r | r in wal && r.body.logicalOperationId == record.body.logicalOperationId ensures r == record {
      var i, j :| 0 <= i < |wal| && 0 <= j < |wal| && wal[i] == r && wal[j] == record;
      AtMostOneRecord(h, namespace, wal, i, j);
    }
  }

  /** The two ways to succeed, and what reaches the disk when the store fails. */
  lemma AppendCases(h: Crypto, namespace: string, m: Machine, input: Input, fault: Option<Fault>)
    requires ProperRefs(h) && m.memory.Opened? && !m.memory.poisoned && NormalizeInput(input).Ok?
    ensures var key := IngestionKey(h, namespace, input.logicalOperationId);
            var body := Build(h, namespace, m.memory.state, input);
            var r := Append(h, namespace, m, input, fault);
            NormalizeInput(input).value == input &&
            if key in m.memory.state.records then
              var found := m.memory.state.records[key];
              r == Appended(m, if EquivalentSemanticInput(h, found, input) then Ok(AlreadyPresent(found))
                               else Err(IdempotencyConflict))
            else if Digest(h, body).None? then r == Appended(m, Err(Encoding))
            else
              var record := Record(body, Digest(h, body).value);
              r.machine.disk == StoreAppend(m.disk, record, fault) && r.machine.memory.Opened? &&
              if fault.None? then r.result == Ok(Inserted(record))
              else r.result == Err(Storage) && r.machine.memory.poisoned
  {
    BuilderAgreesWithValidator(h, namespace, m.memory.state, input);
  }

  /** A successful append leaves exactly one record of the operation in the WAL: the one it returns. */
  lemma SuccessHoldsOnce(h: Crypto, namespace: string, m: Machine, input: Input)
    requires ProperRefs(h) && Sound(h, namespace, m) && m.memory.Opened?
    requires Append(h, namespace, m, input, None).result.Ok?
    ensures var r := Append(h, namespace, m, input, None);
            var record := r.result.value.record;
            HoldsOnce(r.machine.disk.wal, input.logicalOperationId, record) &&
            r.machine.disk.wal == (if r.result.value.Inserted? then m.disk.wal + [record] else m.disk.wal) &&
            (r.result.value.Inserted? ==> record.body.transactionTimeMs == input.transactionTimeMs)
  {
    StepSound(h, namespace, m, AppendAction(input, None));
    AppendCases(h, namespace, m, input, None);
    hide ApplyRecord, Append, NormalizeInput, Replay;
    ReplayedState(h, namespace, m.disk.wal);
    var r := Append(h, namespace, m, input, None);
    LookupMeansPresent(h, namespace, r.machine.disk.wal, r.result.value.record);
  }

  /** Closing and opening after a repairable failure: same WAL, memory equal to its replay. */
  function Reopened(h: Crypto, namespace: string, m: Machine): Machine {
    Step(h, namespace, Step(h, namespace, m, CloseAction), OpenAction)
  }

  lemma ReopenSound(h: Crypto, namespace: string, m: Machine)
    requires ProperRefs(h) && Sound(h, namespace, m) && !m.disk.tail.TornPayload?
    ensures var r := Reopened(h, namespace, m);
            Sound(h, namespace, r) && r.memory.Opened? && !r.memory.poisoned && r.disk.wal == m.disk.wal
  {
  }

  /**
    Exactly-once, part two. After an append that failed in storage, reopening and retrying the same
    evidence succeeds with exactly one record of the operation in the WAL; if the failed attempt had
    landed, that record is the first attempt's, times included. Only a retry that differs from a
    first attempt that did not land can fail, and only because it does not encode.
   */
  lemma RetryAfterFailure(h: Crypto, namespace: string, m: Machine, input: Input, fault: Fault, retry: Input)
    requires ProperRefs(h) && Sound(h, namespace, m) && m.memory.Opened?
    requires Append(h, namespace, m, input, Some(fault)).result == Err(Storage)
    requires !fault.PayloadTorn?
    requires SameEvidence(input, retry) && NormalizeInput(retry).Ok?
    ensures var failed := Append(h, namespace, m, input, Some(fault)).machine;
            failed.memory.Opened? && failed.memory.poisoned && Reopened(h, namespace, failed).memory.Opened? &&
            var r := Append(h, namespace, Reopened(h, namespace, failed), retry, None);
            r.result == Err(Encoding) ||
            (r.result.Ok? && HoldsOnce(r.machine.disk.wal, input.logicalOperationId, r.result.value.record) &&
             r.result.value.record.body.transactionTimeMs ==
               if fault.Landed? then input.transactionTimeMs else retry.transactionTimeMs)
    ensures var failed := Append(h, namespace, m, input, Some(fault)).machine;
            var r := Append(h, namespace, Reopened(h, namespace, failed), retry, None);
            fault.Landed? || retry == input ==> r.result.Ok?
  {
    AppendErrors(h, namespace, m, input, Some(fault));
    assert !m.memory.poisoned && NormalizeInput(input).Ok?;
    StepSound(h, namespace, m, AppendAction(input, Some(fault)));
    AppendCases(h, namespace, m, input, Some(fault));
    var failed := Append(h, namespace, m, input, Some(fault)).machine;
    hide ApplyRecord, Append, NormalizeInput, Replay, Step;
    ReopenSound(h, namespace, failed);
    var reopened := Reopened(h, namespace, failed);
    AppendCases(h, namespace, reopened, retry, None);
    if fault.Landed? {
      var body := Build(h, namespace, m.memory.state, input);
      LookupMeansPresent(h, namespace, failed.disk.wal, Record(body, Digest(h, body).value));
    }
    if Append(h, namespace, reopened, retry, None).result.Ok? {
      SuccessHoldsOnce(h, namespace, reopened, retry);
    }
  }

  // ---- The head hash ------------------------------------------------------

  /** Two different bodies, one from each log, with the same digest. */
  ghost predicate Collision(h: Crypto, a: seq<Record>, b: seq<Record>) {
    exists i, j :: 0 <= i < |a| && 0 <= j < |b| && a[i].body != b[j].body &&
      Digest(h, a[i].body) == Digest(h, b[j].body)
  }

  lemma CollisionGrows(h: Crypto, a: seq<Record>, b: seq<Record>, x: Record, y: Record)
    requires Collision(h, a, b)
    ensures Collision(h, a + [x], b + [y])
  {
    var i, j :| 0 <= i < |a| && 0 <= j < |b| && a[i].body != b[j].body && Digest(h, a[i].body) == Digest(h, b[j].body);
    assert (a + [x])[i] == a[i] && (b + [y])[j] == b[j];
  }

  /** Two WALs that replay to the same head are equal record for record, or exhibit a digest collision. */
  lemma {:induction false} HeadCommitsToHistory(h: Crypto, namespace: string, a: seq<Record>, b: seq<Record>)
    requires Replay(h, namespace, a).Ok? && Replay(h, namespace, b).Ok?
    requires Replay(h, namespace, a).value.head == Replay(h, namespace, b).value.head
    ensures a == b || Collision(h, a, b)
  {
    hide ApplyRecord, Digest, KeysListed, ByKey;
    ReplayedState(h, namespace, a);
    ReplayedState(h, namespace, b);
    if a != [] && b != [] {
      var a', b' := a[..|a| - 1], b[..|b| - 1];
      var x, y := a[|a| - 1], b[|b| - 1];
      Accepted(h, namespace, Replay(h, namespace, a').value, x);
      Accepted(h, namespace, Replay(h, namespace, b').value, y);
      assert Digest(h, x.body) == Digest(h, y.body);
      if x.body == y.body {
        ReplayedState(h, namespace, a');
        ReplayedState(h, namespace, b');
        HeadCommitsToHistory(h, namespace, a', b');
        assert a == a' + [x] && b == b' + [y];
        if a' != b' {
          CollisionGrows(h, a', b', x, y);
        }
      } else {
        assert a[|a| - 1].body != b[|b| - 1].body;
      }
    }
  }
}
