/** The ProofPath ledger as the program runs it: a ledger object over a WAL store, updated in place. */
module ProofPathLedger {
  import opened Basics
  import opened Text
  import opened Wal
  import opened ProofPathModel
  import opened ProofPathProofs

  class Store {
    var wal: seq<Record>
    var tail: Tail

    constructor ()
      ensures wal == [] && tail == Clean
    {
      wal, tail := [], Clean;
    }

    /** `Store::append`; a fault leaves what it says and reports an error. */
    method Append(record: Record, fault: Option<Fault>) returns (ok: bool)
      modifies this
      ensures ok == fault.None? && Disk(wal, tail) == StoreAppend(old(Disk(wal, tail)), record, fault)
    {
      match fault {
        case None => wal, tail := wal + [record], Clean;
        case Some(NothingWritten) =>
        case Some(FrameTorn) => tail := TornFrame;
        case Some(PayloadTorn) => tail := TornPayload;
        case Some(Landed) => wal, tail := wal + [record], Clean;
      }
      ok := fault.None?;
    }

    /** `Store::open`: cut a torn frame off, refuse a partial payload. */
    method Recover() returns (ok: bool)
      modifies this
      ensures wal == old(wal) && ok == !old(tail).TornPayload?
      ensures tail == if ok then Clean else old(tail)
    {
      if tail == TornPayload {
        return false;
      }
      tail := Clean;
      ok := true;
    }
  }

  /** An error found in a prefix is the error of the whole replay. */
  lemma {:induction false} ReplayStops(h: Crypto, namespace: string, wal: seq<Record>, k: nat)
    requires k <= |wal| && Replay(h, namespace, wal[..k]).Err?
    ensures Replay(h, namespace, wal) == Replay(h, namespace, wal[..k])
    decreases |wal|
  {
    if k < |wal| {
      assert wal[..|wal| - 1][..k] == wal[..k];
      ReplayStops(h, namespace, wal[..|wal| - 1], k);
    } else {
      assert wal[..k] == wal;
    }
  }

  /** `replay_from`: one pass over the WAL with the state updated record by record. */
  method ReplayFrom(h: Crypto, namespace: string, wal: seq<Record>) returns (r: Result<Ledger>)
    ensures r == Replay(h, namespace, wal)
  {
    hide ApplyRecord;
    var state := GENESIS;
    for i := 0 to |wal|
      invariant Replay(h, namespace, wal[..i]) == Ok(state)
    {
      assert wal[..i + 1][..i] == wal[..i];
      var next := ApplyRecord(h, namespace, state, wal[i]);
      if next.Err? {
        ReplayStops(h, namespace, wal, i + 1);
        return next;
      }
      state := next.value;
    }
    assert wal[..|wal|] == wal;
    return Ok(state);
  }

  class ProofPathLedger {
    const h: Crypto
    const namespace: string
    const store: Store
    var nextSequence: nat
    var headRecordHash: Option<string>
    var records: map<string, Record>
    var poisoned: bool

    function State(): Ledger
      reads this
    {
      Ledger(nextSequence, headRecordHash, records)
    }

    ghost function View(): Machine
      reads this, store
    {
      Machine(Disk(store.wal, store.tail), Opened(State(), poisoned))
    }

    ghost predicate Valid()
      reads this, store
    {
      ProperRefs(h) && Sound(h, namespace, View())
    }

    constructor (h: Crypto, namespace: string, store: Store, state: Ledger)
      ensures this.h == h && this.namespace == namespace && this.store == store
      ensures State() == state && !poisoned
    {
      this.h, this.namespace, this.store := h, namespace, store;
      nextSequence, headRecordHash, records := state.nextSequence, state.head, state.records;
      poisoned := false;
    }

    /** `open`: validate the namespace, recover the store, replay the WAL from its start. */
    static method Open(h: Crypto, value: string, store: Store) returns (r: Result<ProofPathLedger>)
      requires ProperRefs(h)
      modifies store
      ensures store.wal == old(store.wal)
      ensures NormalizeNamespace(value).Err? ==> r == Err(InvalidNamespace)
      ensures NormalizeNamespace(value).Ok? ==>
                match ProofPathModel.Open(h, value, old(Disk(store.wal, store.tail)))
                case Err(e) => r == Err(e)
                case Ok(m) => r.Ok? && r.value.h == h && r.value.namespace == value && r.value.store == store &&
                              r.value.View() == m && r.value.Valid()
    {
      var namespace := NormalizeNamespace(value);
      if namespace.Err? {
        return Err(namespace.error);
      }
      var ok := store.Recover();
      if !ok {
        return Err(Storage);
      }
      var state := ReplayFrom(h, namespace.value, store.wal);
      if state.Err? {
        return Err(state.error);
      }
      var ledger := new ProofPathLedger(h, namespace.value, store, state.value);
      r := Ok(ledger);
    }

    /** `append`: one `Append` step of the machine; every outcome keeps the ledger sound. */
    method Append(input: Input, fault: Option<Fault>) returns (r: Result<Outcome>)
      requires Valid()
      modifies this, store
      ensures Valid()
      ensures Appended(View(), r) == ProofPathModel.Append(h, namespace, old(View()), input, fault)
    {
      hide ApplyRecord, Build, NormalizeInput;
      StepSound(h, namespace, View(), AppendAction(input, fault));
      if poisoned {
        return Err(PoisonedAfterStorageFailure);
      }
      var norm := NormalizeInput(input);
      if norm.Err? {
        return Err(norm.error);
      }
      var key := IngestionKey(h, namespace, norm.value.logicalOperationId);
      if key in records {
        if EquivalentSemanticInput(h, records[key], norm.value) {
          return Ok(AlreadyPresent(records[key]));
        }
        return Err(IdempotencyConflict);
      }
      var body := Build(h, namespace, State(), norm.value);
      var hash := Digest(h, body);
      if hash.None? {
        return Err(Encoding);
      }
      var record := Record(body, hash.value);
      var candidate := ApplyRecord(h, namespace, State(), record);
      if candidate.Err? {
        return Err(candidate.error);
      }
      var ok := store.Append(record, fault);
      if !ok {
        poisoned := true;
        return Err(Storage);
      }
      nextSequence, headRecordHash, records :=
        candidate.value.nextSequence, candidate.value.head, candidate.value.records;
      return Ok(Inserted(record));
    }

    /** `get`: a WAL record of the operation, and on a healthy ledger always if there is one. */
    method Get(operation: string) returns (r: Option<Record>)
      requires Valid()
      ensures Trim(operation) == "" ==> r == None
      ensures r.Some? ==> r.value in store.wal
      ensures r.Some? ==>
                IngestionKey(h, namespace, r.value.body.logicalOperationId) ==
                  IngestionKey(h, namespace, Trim(operation))
      ensures Trim(operation) != "" && !poisoned ==>
                forall record :: record in store.wal && record.body.logicalOperationId == Trim(operation) ==>
                  r == Some(record)
    {
      hide ApplyRecord, Trim;
      ghost var whole := Replay(h, namespace, store.wal) == Ok(State());
      ghost var known := if whole then store.wal else store.wal[..|store.wal| - 1];
      ReplayedState(h, namespace, known);
      hide Replay, ByKey;
      var trimmed := Trim(operation);
      if trimmed == "" {
        return None;
      }
      var key := IngestionKey(h, namespace, trimmed);
      r := if key in records then Some(records[key]) else None;
    }
  }
}
