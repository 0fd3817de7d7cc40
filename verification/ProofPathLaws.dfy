/** What the ProofPath ledger accepts, field by field, and what it answers (proofpath_durable.rs). */
module ProofPathLaws {
  import opened Basics
  import opened Text
  import opened TextLaws
  import opened Wal
  import opened ProofPathModel
  import opened ProofPathProofs

  // ---- Which WALs replay --------------------------------------------------

  /** What a record must say about itself, apart from its place in the log. */
  ghost predicate SelfConsistent(h: Crypto, namespace: string, r: Record) {
    var b := r.body;
    b.schema == "liminaldb.proofpath-durable-record.v0.1" &&
    b.profile == "org.liminaldb.proofpath-durable-ledger.v0.1" && b.namespace == namespace &&
    h.cbor(b).Some? && r.recordHash == h.sha(h.cbor(b).value) && IsRef(r.recordHash) &&
    IsRef(b.sourceReceiptRef) && IsRef(b.storageAdmissionRef) &&
    b.logicalOperationId != "" && Trim(b.logicalOperationId) == b.logicalOperationId &&
    0 < b.validTimeMs <= b.transactionTimeMs &&
    b.ingestionKey == h.shaText(KeySeed(namespace, b.logicalOperationId)) && IsRef(b.ingestionKey) &&
    b.sourceEventSha256 == h.sha(b.sourceEventBytes) && b.admissionReportSha256 == h.sha(b.admissionReportBytes) &&
    b.producerRepository == "safal207/ProofPath" && b.producerCapabilityId == "proofpath.scig.v0.1" &&
    b.producerCapabilityCommit == "685d50e256a5125a21f4c4584b326411caaa64ad" &&
    b.consumerRepository == "safal207/LiminalDB" &&
    b.consumerImportCommit == "00580ff097dee61b45ad3c8a3c36ae5f548f572d" &&
    b.consumerContractBlobSha == "fd733971aaae089df770062bcf7f2c2d6d19ca1d" &&
    b.persistenceScope == "local_test_only" && b.storageWriteAuthorized && !b.executionAuthorized &&
    !b.mutationAuthorized && !b.externalEffectsAuthorized
  }

  /** Record `i` sits where it says, behind the record it names, and no earlier one has its key. */
  ghost predicate InPlace(wal: seq<Record>, i: nat)
    requires i < |wal|
  {
    wal[i].body.sequence == i + 1 &&
    wal[i].body.previousRecordHash == (if i == 0 then None else Some(wal[i - 1].recordHash)) &&
    forall j :: 0 <= j < i ==> wal[j].body.ingestionKey != wal[i].body.ingestionKey
  }

  ghost predicate WellFormed(h: Crypto, namespace: string, wal: seq<Record>) {
    forall i :: 0 <= i < |wal| ==> SelfConsistent(h, namespace, wal[i]) && InPlace(wal, i)
  }

  /** Each check of `apply_record` is needed, and no other is made. */
  lemma AcceptedIff(h: Crypto, namespace: string, state: Ledger, r: Record)
    ensures ApplyRecord(h, namespace, state, r).Ok? <==>
            SelfConsistent(h, namespace, r) && r.body.sequence == state.nextSequence &&
            r.body.previousRecordHash == state.head && r.body.ingestionKey !in state.records
  {
    RefMeans(r.recordHash);
    RefMeans(r.body.sourceReceiptRef);
    RefMeans(r.body.storageAdmissionRef);
    RefMeans(r.body.ingestionKey);
    hide ValidRef, IsRef, Trim, KeySeed;
  }

  /** A WAL replays exactly when every record is consistent in itself and in its place. */
  lemma {:induction false} ReplaysIff(h: Crypto, namespace: string, wal: seq<Record>)
    ensures Replay(h, namespace, wal).Ok? <==> WellFormed(h, namespace, wal)
  {
    hide SelfConsistent, ApplyRecord;
    if wal != [] {
      var front, last := wal[..|wal| - 1], wal[|wal| - 1];
      ReplaysIff(h, namespace, front);
      PrefixWellFormed(h, namespace, front, last);
      assert front + [last] == wal;
      if WellFormed(h, namespace, front) {
        var state := Replay(h, namespace, front).value;
        AcceptedIff(h, namespace, state, last);
        ReplayedState(h, namespace, front);
        KeysAre(h, namespace, front, last.body.ingestionKey);
      }
    }
  }

  lemma KeysAre(h: Crypto, namespace: string, wal: seq<Record>, key: string)
    requires KeysListed(h, namespace, wal)
    ensures key !in ByKey(wal) <==> forall j :: 0 <= j < |wal| ==> wal[j].body.ingestionKey != key
  {
    if key in ByKey(wal) {
      var j :| 0 <= j < |wal| && wal[j] == ByKey(wal)[key];
      assert wal[j].body.ingestionKey == key;
    }
  }

  lemma SamePlace(front: seq<Record>, last: Record, i: nat)
    requires i < |front|
    ensures InPlace(front, i) <==> InPlace(front + [last], i)
  {
    var wal := front + [last];
    assert wal[i] == front[i] && (i > 0 ==> wal[i - 1] == front[i - 1]);
    assert forall j :: 0 <= j < i ==> wal[j] == front[j];
  }

  lemma PrefixWellFormed(h: Crypto, namespace: string, front: seq<Record>, last: Record)
    ensures WellFormed(h, namespace, front + [last]) <==>
            WellFormed(h, namespace, front) && SelfConsistent(h, namespace, last) && InPlace(front + [last], |front|)
  {
    hide SelfConsistent, InPlace;
    var wal := front + [last];
    forall i | 0 <= i < |front| ensures wal[i] == front[i] && (InPlace(front, i) <==> InPlace(wal, i)) {
      SamePlace(front, last, i);
    }
    assert wal[|front|] == last;
    if WellFormed(h, namespace, wal) {
      forall i | 0 <= i < |front| ensures SelfConsistent(h, namespace, front[i]) && InPlace(front, i) {
        assert wal[i] == front[i];
      }
    }
  }

  // ---- What an input must be ----------------------------------------------

  /** An input is accepted, unchanged, exactly under these conditions. */
  lemma InputAcceptedIff(input: Input)
    ensures NormalizeInput(input).Ok? <==>
            input.logicalOperationId != "" && Trim(input.logicalOperationId) == input.logicalOperationId &&
            input.sourceEventBytes != [] && input.admissionReportBytes != [] && IsRef(input.sourceReceiptRef) &&
            IsRef(input.storageAdmissionRef) && 0 < input.validTimeMs <= input.transactionTimeMs
    ensures NormalizeInput(input).Ok? ==> NormalizeInput(input).value == input
  {
    RefMeans(input.sourceReceiptRef);
    RefMeans(input.storageAdmissionRef);
    hide ValidRef, IsRef, Trim;
  }

  /** A namespace is up to 64 letters, digits, dots, dashes and underscores, a letter or digit first. */
  lemma NamespaceAcceptedIff(value: string)
    ensures NormalizeNamespace(value).Ok? <==>
            1 <= |value| <= 64 && IsAlphanumeric(value[0]) &&
            forall c :: c in value ==> IsAlphanumeric(c) || c == '.' || c == '-' || c == '_'
    ensures NormalizeNamespace(value).Ok? ==> NormalizeNamespace(value).value == value
  {
    if 1 <= |value| <= 64 && IsAlphanumeric(value[0]) &&
       forall c :: c in value ==> IsAlphanumeric(c) || c == '.' || c == '-' || c == '_'
    {
      assert !IsSpace(value[0]) && value[|value| - 1] in value && !IsSpace(value[|value| - 1]);
      assert Trim(value) == value;
      forall i | 0 <= i < |value| ensures IsAlphanumeric(value[i]) || value[i] in ".-_" {
        assert value[i] in value;
      }
    }
  }

  // ---- What an append answers ---------------------------------------------

  /** An open ledger that has not failed. */
  ghost predicate Healthy(h: Crypto, namespace: string, m: Machine) {
    Sound(h, namespace, m) && m.memory.Opened? && !m.memory.poisoned
  }

  /**
    An operation that already has a record: the answer is that record if and only if the four pieces
    of evidence are the recorded ones, and a conflict otherwise; the machine stays as it is.
   */
  lemma AnswerToRepeat(h: Crypto, namespace: string, m: Machine, input: Input, fault: Option<Fault>, record: Record)
    requires Healthy(h, namespace, m) && NormalizeInput(input).Ok?
    requires record in m.disk.wal && record.body.logicalOperationId == input.logicalOperationId
    ensures var a := Append(h, namespace, m, input, fault);
            a.machine == m &&
            a.result ==
              if input.sourceEventBytes == record.body.sourceEventBytes &&
                 input.admissionReportBytes == record.body.admissionReportBytes &&
                 input.sourceReceiptRef == record.body.sourceReceiptRef && input.validTimeMs == record.body.validTimeMs
              then Ok(AlreadyPresent(record)) else Err(IdempotencyConflict)
  {
    InputAcceptedIff(input);
    LookupMeansPresent(h, namespace, m.disk.wal, record);
    ReplaysIff(h, namespace, m.disk.wal);
    assert SelfConsistent(h, namespace, record);
    hide Replay, NormalizeInput, Trim, IsRef, IngestionKey, ApplyRecord;
  }

  /**
    An operation without a record: without a fault the answer is the new last record of the WAL, which
    holds the input's evidence, names its predecessor and grants nothing but the write.
   */
  lemma AnswerToFirst(h: Crypto, namespace: string, m: Machine, input: Input)
    requires ProperRefs(h) && Healthy(h, namespace, m) && NormalizeInput(input).Ok?
    requires forall r :: r in m.disk.wal ==> r.body.ingestionKey != IngestionKey(h, namespace, input.logicalOperationId)
    requires Append(h, namespace, m, input, None).result != Err(Encoding)
    ensures var a := Append(h, namespace, m, input, None);
            a.result.Ok? && a.result.value.Inserted? &&
            a.machine.disk == Disk(m.disk.wal + [a.result.value.record], Clean) &&
            Healthy(h, namespace, a.machine) && Holds(a.result.value.record.body, input) &&
            WellFormed(h, namespace, a.machine.disk.wal)
  {
    InputAcceptedIff(input);
    var key := IngestionKey(h, namespace, input.logicalOperationId);
    assert key !in m.memory.state.records by {
      ReplayedState(h, namespace, m.disk.wal);
      KeysAre(h, namespace, m.disk.wal, key);
    }
    BuilderAgreesWithValidator(h, namespace, m.memory.state, input);
    StepSound(h, namespace, m, AppendAction(input, None));
    ReplaysIff(h, namespace, Append(h, namespace, m, input, None).machine.disk.wal);
    hide Replay, NormalizeInput, Trim, IsRef, IngestionKey, ApplyRecord, WellFormed, KeysListed, ByKey;
  }

  /** The body carries the input's evidence, times and references. */
  predicate Holds(b: Body, input: Input) {
    b.logicalOperationId == input.logicalOperationId && b.sourceEventBytes == input.sourceEventBytes &&
    b.admissionReportBytes == input.admissionReportBytes && b.sourceReceiptRef == input.sourceReceiptRef &&
    b.storageAdmissionRef == input.storageAdmissionRef && b.validTimeMs == input.validTimeMs &&
    b.transactionTimeMs == input.transactionTimeMs
  }
}
