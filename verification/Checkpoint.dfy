/**
  Signed checkpoint chains and the external anti-rollback anchor (checkpoint.rs). SHA-256, the
  canonical encoding, hex parsing and Ed25519 (sections 5.1.6 and 5.1.7 of RFC 8032) are parameters.
 */
module Checkpoint {
  import opened Basics
  import opened Text

  type Bytes = seq<bv8>

  const CHECKPOINT_SCHEMA := "liminaldb.signed-checkpoint-manifest.v0.1"
  const CHECKPOINT_PROFILE := "org.liminaldb.signed-checkpoint.v0.1"
  const SIGNATURE_ALGORITHM := "Ed25519"

  datatype Material = Material(
    ledgerProfile: string,
    storageRootIdentity: string,
    eventChainHead: string,
    lastSequence: nat,
    walSegment: nat,
    walOffset: nat,
    projectionDigest: string,
    snapshotDigest: string)

  datatype Body = Body(
    schema: string,
    checkpointProfile: string,
    material: Material,
    signerId: string,
    keyId: string,
    issuedAtMs: nat,
    expiresAtMs: Option<nat>,
    previousRef: Option<string>)

  datatype Manifest = Manifest(body: Body, manifestRef: string, algorithm: string, signatureHex: string)

  datatype TrustedKey = TrustedKey(
    signerId: string,
    keyId: string,
    publicKeyHex: string,
    validFromMs: nat,
    validUntilMs: Option<nat>,
    revokedAtMs: Option<nat>)

  datatype Anchor = Anchor(
    providerProfile: string,
    anchorId: string,
    checkpointRef: string,
    storageRootIdentity: string,
    eventChainHead: string,
    lastSequence: nat,
    anchoredAtMs: nat)

  datatype Error =
    | Encoding
    | InvalidField(what: string)
    | InvalidReference(what: string)
    | InvalidHex(what: string)
    | UnsupportedSignatureAlgorithm
    | ManifestReferenceMismatch
    | SignatureVerificationFailed
    | UnknownKey
    | KeyNotYetValid
    | KeyExpired
    | KeyRevoked
    | CheckpointFromFuture
    | CheckpointExpired
    | InvalidExpiry
    | EmptyChain
    | ChainIdentityMismatch
    | PreviousCheckpointMismatch
    | NonMonotonicCheckpoint
    | LedgerHeadNotAdvanced
    | ExternalAnchorRollback
    | ExternalAnchorFork
    | ExternalAnchorNotInChain

  type Secret = seq<bv8>
  type PublicKey = seq<bv8>
  type Signature = seq<bv8>

  /** The primitives the checks rest on; `None` stands for an encoding or parsing error. */
  datatype Suite = Suite(
    sha: Bytes -> string,
    canonical: Body -> Option<Bytes>,
    parseKey: string -> Option<PublicKey>,
    parseSignature: string -> Option<Signature>,
    verifies: (PublicKey, Bytes, Signature) -> bool,
    publicHex: Secret -> string,
    signHex: (Secret, Bytes) -> string)

  /** Keys by slot: signer id, NUL, key id. */
  type Registry = map<string, TrustedKey>

  function KeySlot(signerId: string, keyId: string): string {
    signerId + ['\0'] + keyId
  }

  // ---- One checkpoint -----------------------------------------------------

  predicate Blank(s: string) {
    Trim(s) == ""
  }

  function CheckMaterial(m: Material): Option<Error> {
    if Blank(m.ledgerProfile) then Some(InvalidField("ledger_profile"))
    else if !ValidRef(m.storageRootIdentity) then Some(InvalidReference("storage_root_identity"))
    else if !ValidRef(m.eventChainHead) then Some(InvalidReference("event_chain_head"))
    else if !ValidRef(m.projectionDigest) then Some(InvalidReference("projection_digest"))
    else if !ValidRef(m.snapshotDigest) then Some(InvalidReference("snapshot_digest"))
    else if m.lastSequence == 0 then Some(InvalidField("last_sequence"))
    else None
  }

  predicate BadExpiry(issuedAtMs: nat, expiresAtMs: Option<nat>) {
    expiresAtMs.Some? && expiresAtMs.value <= issuedAtMs
  }

  predicate BadPrevious(previousRef: Option<string>) {
    previousRef.Some? && !ValidRef(previousRef.value)
  }

  function CheckBody(b: Body): Option<Error> {
    if b.schema != CHECKPOINT_SCHEMA || b.checkpointProfile != CHECKPOINT_PROFILE
    then Some(InvalidField("schema_or_profile"))
    else if CheckMaterial(b.material).Some? then CheckMaterial(b.material)
    else if Blank(b.signerId) then Some(InvalidField("signer_id"))
    else if Blank(b.keyId) then Some(InvalidField("key_id"))
    else if BadExpiry(b.issuedAtMs, b.expiresAtMs) then Some(InvalidExpiry)
    else if BadPrevious(b.previousRef) then Some(InvalidReference("previous_checkpoint_ref"))
    else None
  }

  function CheckSignature(suite: Suite, key: TrustedKey, message: Bytes, signatureHex: string): Option<Error> {
    var publicKey := suite.parseKey(key.publicKeyHex);
    var signature := suite.parseSignature(signatureHex);
    if publicKey.None? then Some(InvalidHex("public_key_hex"))
    else if signature.None? then Some(InvalidHex("signature_hex"))
    else if !suite.verifies(publicKey.value, message, signature.value) then Some(SignatureVerificationFailed)
    else None
  }

  /** `verify_signed_checkpoint`: the first failing check, in source order. */
  function CheckManifest(suite: Suite, m: Manifest, keys: Registry, nowMs: nat): Option<Error> {
    if CheckBody(m.body).Some? then CheckBody(m.body)
    else if m.algorithm != SIGNATURE_ALGORITHM then Some(UnsupportedSignatureAlgorithm)
    else if suite.canonical(m.body).None? then Some(Encoding)
    else
      var message := suite.canonical(m.body).value;
      var slot := KeySlot(m.body.signerId, m.body.keyId);
      if m.manifestRef != suite.sha(message) then Some(ManifestReferenceMismatch)
      else if slot !in keys then Some(UnknownKey)
      else
        var key := keys[slot];
        if m.body.issuedAtMs > nowMs then Some(CheckpointFromFuture)
        else if nowMs < key.validFromMs then Some(KeyNotYetValid)
        else if key.validUntilMs.Some? && nowMs > key.validUntilMs.value then Some(KeyExpired)
        else if key.revokedAtMs.Some? && nowMs >= key.revokedAtMs.value then Some(KeyRevoked)
        else if m.body.expiresAtMs.Some? && nowMs > m.body.expiresAtMs.value then Some(CheckpointExpired)
        else CheckSignature(suite, key, message, m.signatureHex)
  }

  // ---- Chains -------------------------------------------------------------

  /** Lexicographic order on (segment, offset). */
  predicate Before(a: Material, b: Material) {
    a.walSegment < b.walSegment || (a.walSegment == b.walSegment && a.walOffset < b.walOffset)
  }

  function CheckLink(previous: Manifest, current: Manifest): Option<Error> {
    var p, c := previous.body.material, current.body.material;
    if c.ledgerProfile != p.ledgerProfile || c.storageRootIdentity != p.storageRootIdentity ||
       current.body.signerId != previous.body.signerId
    then Some(ChainIdentityMismatch)
    else if current.body.previousRef != Some(previous.manifestRef) then Some(PreviousCheckpointMismatch)
    else if c.lastSequence <= p.lastSequence || !Before(p, c) || current.body.issuedAtMs < previous.body.issuedAtMs
    then Some(NonMonotonicCheckpoint)
    else if c.eventChainHead == p.eventChainHead then Some(LedgerHeadNotAdvanced)
    else None
  }

  function CheckEach(suite: Suite, chain: seq<Manifest>, keys: Registry, nowMs: nat): Option<Error> {
    if chain == [] then None
    else if CheckManifest(suite, chain[0], keys, nowMs).Some? then CheckManifest(suite, chain[0], keys, nowMs)
    else CheckEach(suite, chain[1..], keys, nowMs)
  }

  function CheckLinks(chain: seq<Manifest>): Option<Error> {
    if |chain| < 2 then None
    else if CheckLink(chain[0], chain[1]).Some? then CheckLink(chain[0], chain[1])
    else CheckLinks(chain[1..])
  }

  function CheckAnchorFields(a: Anchor): Option<Error> {
    if Blank(a.providerProfile) then Some(InvalidField("provider_profile"))
    else if Blank(a.anchorId) then Some(InvalidField("anchor_id"))
    else if !ValidRef(a.checkpointRef) then Some(InvalidReference("checkpoint_ref"))
    else if !ValidRef(a.storageRootIdentity) then Some(InvalidReference("storage_root_identity"))
    else if !ValidRef(a.eventChainHead) then Some(InvalidReference("event_chain_head"))
    else if a.lastSequence == 0 then Some(InvalidField("last_sequence"))
    else None
  }

  /** The first checkpoint with the anchored reference, if any. */
  function FindAnchored(chain: seq<Manifest>, ref: string): (r: Option<nat>)
    ensures r.Some? ==> r.value < |chain| && chain[r.value].manifestRef == ref
    ensures r.None? ==> forall i :: 0 <= i < |chain| ==> chain[i].manifestRef != ref
  {
    if chain == [] then None
    else if chain[0].manifestRef == ref then Some(0)
    else
      match FindAnchored(chain[1..], ref)
      case None => None
      case Some(i) => Some(i + 1)
  }

  predicate Contradicts(m: Manifest, a: Anchor) {
    m.body.material.lastSequence == a.lastSequence &&
    (m.body.material.eventChainHead != a.eventChainHead ||
     m.body.material.storageRootIdentity != a.storageRootIdentity)
  }

  function CheckAnchor(chain: seq<Manifest>, a: Anchor): Option<Error>
    requires chain != []
  {
    if CheckAnchorFields(a).Some? then CheckAnchorFields(a)
    else if chain[|chain| - 1].body.material.lastSequence < a.lastSequence then Some(ExternalAnchorRollback)
    else
      match FindAnchored(chain, a.checkpointRef)
      case None =>
        if exists m :: m in chain && Contradicts(m, a) then Some(ExternalAnchorFork) else Some(ExternalAnchorNotInChain)
      case Some(i) =>
        var m := chain[i].body.material;
        if m.storageRootIdentity != a.storageRootIdentity || m.eventChainHead != a.eventChainHead ||
           m.lastSequence != a.lastSequence
        then Some(ExternalAnchorFork) else None
  }

  /** `verify_checkpoint_chain`: `None` when the chain is accepted. */
  function CheckChain(suite: Suite, chain: seq<Manifest>, keys: Registry, anchor: Option<Anchor>,
                      nowMs: nat): Option<Error>
  {
    if chain == [] then Some(EmptyChain)
    else if CheckEach(suite, chain, keys, nowMs).Some? then CheckEach(suite, chain, keys, nowMs)
    else if CheckLinks(chain).Some? then CheckLinks(chain)
    else if anchor.Some? then CheckAnchor(chain, anchor.value)
    else None
  }

  predicate Accepted(suite: Suite, chain: seq<Manifest>, keys: Registry, anchor: Option<Anchor>, nowMs: nat) {
    CheckChain(suite, chain, keys, anchor, nowMs).None?
  }

  // ---- From the loops to all positions ------------------------------------

  lemma {:induction false} EachPasses(suite: Suite, chain: seq<Manifest>, keys: Registry, nowMs: nat)
    ensures CheckEach(suite, chain, keys, nowMs).None? <==>
            forall i :: 0 <= i < |chain| ==> CheckManifest(suite, chain[i], keys, nowMs).None?
  {
    hide CheckManifest;
    if chain != [] {
      var rest := chain[1..];
      EachPasses(suite, rest, keys, nowMs);
      assert forall i :: 0 <= i < |rest| ==> rest[i] == chain[i + 1];
      assert forall i :: 1 <= i < |chain| ==> chain[i] == rest[i - 1];
    }
  }

  ghost predicate LinksPass(chain: seq<Manifest>) {
    forall i :: 0 < i < |chain| ==> CheckLink(chain[i - 1], chain[i]).None?
  }

  lemma {:induction false} EachLinkPasses(chain: seq<Manifest>)
    ensures CheckLinks(chain).None? <==> LinksPass(chain)
  {
    hide CheckLink;
    if |chain| >= 2 {
      var rest := chain[1..];
      EachLinkPasses(rest);
      assert forall i :: 0 < i < |rest| ==> rest[i - 1] == chain[i] && rest[i] == chain[i + 1];
      if LinksPass(rest) && CheckLink(chain[0], chain[1]).None? {
        forall i | 0 < i < |chain| ensures CheckLink(chain[i - 1], chain[i]).None? {
          if i > 1 {
            assert rest[i - 2] == chain[i - 1] && rest[i - 1] == chain[i];
          }
        }
      }
      if LinksPass(chain) {
        forall i | 0 < i < |rest| ensures CheckLink(rest[i - 1], rest[i]).None? {
          assert CheckLink(chain[i + 1 - 1], chain[i + 1]).None?;
        }
      }
    }
  }

  /** Acceptance without an anchor, position by position. */
  lemma AcceptedMeans(suite: Suite, chain: seq<Manifest>, keys: Registry, nowMs: nat)
    ensures Accepted(suite, chain, keys, None, nowMs) <==>
            chain != [] && LinksPass(chain) &&
            forall i :: 0 <= i < |chain| ==> CheckManifest(suite, chain[i], keys, nowMs).None?
  {
    hide CheckManifest;
    EachPasses(suite, chain, keys, nowMs);
    EachLinkPasses(chain);
  }

  lemma AnchorOnlyAdds(suite: Suite, chain: seq<Manifest>, keys: Registry, anchor: Option<Anchor>, nowMs: nat)
    requires Accepted(suite, chain, keys, anchor, nowMs)
    ensures Accepted(suite, chain, keys, None, nowMs)
  {
  }

  // ---- Local checks give global order -------------------------------------

  predicate Ordered(a: Manifest, b: Manifest) {
    var p, c := a.body.material, b.body.material;
    p.ledgerProfile == c.ledgerProfile && p.storageRootIdentity == c.storageRootIdentity &&
    a.body.signerId == b.body.signerId &&
    p.lastSequence < c.lastSequence && Before(p, c) && a.body.issuedAtMs <= b.body.issuedAtMs
  }

  lemma {:induction false} GlobalOrderFrom(chain: seq<Manifest>, i: nat, j: nat)
    requires LinksPass(chain) && i < j < |chain|
    ensures Ordered(chain[i], chain[j])
    decreases j
  {
    assert CheckLink(chain[j - 1], chain[j]).None?;
    if i < j - 1 {
      GlobalOrderFrom(chain, i, j - 1);
    }
  }

  /** In an accepted chain identity is constant, sequence and WAL position rise strictly, times never fall. */
  lemma GlobalOrder(suite: Suite, chain: seq<Manifest>, keys: Registry, anchor: Option<Anchor>, nowMs: nat)
    requires Accepted(suite, chain, keys, anchor, nowMs)
    ensures forall i, j :: 0 <= i < j < |chain| ==> Ordered(chain[i], chain[j])
  {
    hide CheckManifest, Ordered;
    AnchorOnlyAdds(suite, chain, keys, anchor, nowMs);
    AcceptedMeans(suite, chain, keys, nowMs);
    forall i, j | 0 <= i < j < |chain| ensures Ordered(chain[i], chain[j]) {
      GlobalOrderFrom(chain, i, j);
    }
  }

  /** Every non-empty contiguous part of an accepted chain is accepted without an anchor. */
  lemma SubchainAccepted(suite: Suite, chain: seq<Manifest>, keys: Registry, anchor: Option<Anchor>, nowMs: nat,
                         lo: nat, hi: nat)
    requires Accepted(suite, chain, keys, anchor, nowMs) && lo < hi <= |chain|
    ensures Accepted(suite, chain[lo..hi], keys, None, nowMs)
  {
    hide CheckManifest, CheckLink;
    AnchorOnlyAdds(suite, chain, keys, anchor, nowMs);
    AcceptedMeans(suite, chain, keys, nowMs);
    var part := chain[lo..hi];
    forall i | 0 < i < |part| ensures CheckLink(part[i - 1], part[i]).None? {
      assert part[i - 1] == chain[lo + i - 1] && part[i] == chain[lo + i];
    }
    AcceptedMeans(suite, part, keys, nowMs);
  }

  // ---- Time ---------------------------------------------------------------

  /** The checks of one manifest that do not look at the clock. */
  predicate TimelessOk(suite: Suite, m: Manifest, keys: Registry) {
    CheckBody(m.body).None? && m.algorithm == SIGNATURE_ALGORITHM && suite.canonical(m.body).Some? &&
    m.manifestRef == suite.sha(suite.canonical(m.body).value) && KeySlot(m.body.signerId, m.body.keyId) in keys &&
    CheckSignature(suite, keys[KeySlot(m.body.signerId, m.body.keyId)], suite.canonical(m.body).value,
                   m.signatureHex).None?
  }

  /** The times at which one manifest passes: from the later start to the earliest end. */
  predicate InWindow(m: Manifest, key: TrustedKey, nowMs: nat) {
    Max(m.body.issuedAtMs, key.validFromMs) <= nowMs &&
    (key.validUntilMs.Some? ==> nowMs <= key.validUntilMs.value) &&
    (key.revokedAtMs.Some? ==> nowMs < key.revokedAtMs.value) &&
    (m.body.expiresAtMs.Some? ==> nowMs <= m.body.expiresAtMs.value)
  }

  lemma ManifestWindow(suite: Suite, m: Manifest, keys: Registry, nowMs: nat)
    ensures CheckManifest(suite, m, keys, nowMs).None? <==>
            TimelessOk(suite, m, keys) && InWindow(m, keys[KeySlot(m.body.signerId, m.body.keyId)], nowMs)
  {
  }

  /** A chain accepted at two times is accepted at every time between them, with or without an anchor. */
  lemma AcceptanceIsAnInterval(suite: Suite, chain: seq<Manifest>, keys: Registry, anchor: Option<Anchor>,
                               early: nat, nowMs: nat, late: nat)
    requires early <= nowMs <= late
    requires Accepted(suite, chain, keys, anchor, early) && Accepted(suite, chain, keys, anchor, late)
    ensures Accepted(suite, chain, keys, anchor, nowMs)
  {
    hide CheckManifest, CheckLinks, CheckAnchor, TimelessOk;
    EachPasses(suite, chain, keys, early);
    EachPasses(suite, chain, keys, late);
    EachPasses(suite, chain, keys, nowMs);
    forall i | 0 <= i < |chain| ensures CheckManifest(suite, chain[i], keys, nowMs).None? {
      ManifestWindow(suite, chain[i], keys, early);
      ManifestWindow(suite, chain[i], keys, late);
      ManifestWindow(suite, chain[i], keys, nowMs);
    }
  }

  // ---- No fork below an anchor --------------------------------------------

  /** Two different bodies, one from each chain, whose digests agree although both encode. */
  ghost predicate Collision(suite: Suite, a: seq<Manifest>, b: seq<Manifest>) {
    exists i, j :: 0 <= i < |a| && 0 <= j < |b| && a[i].body != b[j].body && a[i].manifestRef == b[j].manifestRef &&
      suite.canonical(a[i].body).Some? && suite.canonical(b[j].body).Some? &&
      a[i].manifestRef == suite.sha(suite.canonical(a[i].body).value) &&
      b[j].manifestRef == suite.sha(suite.canonical(b[j].body).value)
  }

  ghost predicate Authentic(suite: Suite, chain: seq<Manifest>) {
    forall i :: 0 <= i < |chain| ==>
      suite.canonical(chain[i].body).Some? && chain[i].manifestRef == suite.sha(suite.canonical(chain[i].body).value)
  }

  /** From a common reference backwards, the bodies are equal as far as both chains reach. */
  lemma {:induction false} SharedPast(suite: Suite, a: seq<Manifest>, b: seq<Manifest>, i: nat, j: nat, k: nat)
    requires Authentic(suite, a) && Authentic(suite, b) && LinksPass(a) && LinksPass(b)
    requires i < |a| && j < |b| && a[i].manifestRef == b[j].manifestRef && k <= i && k <= j
    ensures Collision(suite, a, b) || (a[i - k].body == b[j - k].body && a[i - k].manifestRef == b[j - k].manifestRef)
    decreases k
  {
    if k == 0 {
      if a[i].body != b[j].body {
        assert Collision(suite, a, b);
      }
    } else {
      SharedPast(suite, a, b, i, j, k - 1);
      var x, y := i - (k - 1), j - (k - 1);
      if a[x].body == b[y].body {
        assert CheckLink(a[x - 1], a[x]).None? && CheckLink(b[y - 1], b[y]).None?;
        assert a[x - 1].manifestRef == b[y - 1].manifestRef;
        if a[x - 1].body != b[y - 1].body {
          assert Collision(suite, a, b);
        }
      }
    }
  }

  /** What acceptance with an anchor says about the anchored position. */
  lemma AnchoredPosition(suite: Suite, chain: seq<Manifest>, keys: Registry, anchor: Anchor, nowMs: nat)
    returns (i: nat)
    requires Accepted(suite, chain, keys, Some(anchor), nowMs)
    ensures i < |chain| && chain[i].manifestRef == anchor.checkpointRef
    ensures chain[i].body.material.lastSequence == anchor.lastSequence
    ensures chain[i].body.material.eventChainHead == anchor.eventChainHead
    ensures chain[|chain| - 1].body.material.lastSequence >= anchor.lastSequence
    ensures Authentic(suite, chain) && LinksPass(chain)
  {
    hide CheckManifest, CheckBody, CheckSignature;
    AnchorOnlyAdds(suite, chain, keys, Some(anchor), nowMs);
    AcceptedMeans(suite, chain, keys, nowMs);
    i := FindAnchored(chain, anchor.checkpointRef).value;
    forall x | 0 <= x < |chain| ensures suite.canonical(chain[x].body).Some? &&
        chain[x].manifestRef == suite.sha(suite.canonical(chain[x].body).value)
    {
      ManifestWindow(suite, chain[x], keys, nowMs);
    }
  }

  /**
    No fork below an anchor. Two chains accepted with the same anchor, by any registries at any
    times, both contain the anchored checkpoint, agree body for body from it back as far as both
    reach (or exhibit a digest collision), and end at a sequence no lower than the anchor's.
   */
  lemma NoForkBelowAnchor(suite: Suite, a: seq<Manifest>, b: seq<Manifest>, keysA: Registry, keysB: Registry,
                          anchor: Anchor, nowA: nat, nowB: nat) returns (i: nat, j: nat)
    requires Accepted(suite, a, keysA, Some(anchor), nowA) && Accepted(suite, b, keysB, Some(anchor), nowB)
    ensures i < |a| && j < |b| && a[i].manifestRef == anchor.checkpointRef == b[j].manifestRef
    ensures a[i].body.material.lastSequence == anchor.lastSequence == b[j].body.material.lastSequence
    ensures SamePast(a, b, i, j) || Collision(suite, a, b)
    ensures a[|a| - 1].body.material.lastSequence >= anchor.lastSequence
    ensures b[|b| - 1].body.material.lastSequence >= anchor.lastSequence
  {
    hide CheckLink, Collision, Accepted;
    i := AnchoredPosition(suite, a, keysA, anchor, nowA);
    j := AnchoredPosition(suite, b, keysB, anchor, nowB);
    forall x, y | 0 <= x <= i && 0 <= y <= j && i - x == j - y
      ensures Collision(suite, a, b) || a[x].body == b[y].body
    {
      SharedPast(suite, a, b, i, j, i - x);
    }
  }

  /** The chains agree from positions `i` and `j` back as far as both reach. */
  ghost predicate SamePast(a: seq<Manifest>, b: seq<Manifest>, i: nat, j: nat)
    requires i < |a| && j < |b|
  {
    forall x, y :: 0 <= x <= i && 0 <= y <= j && i - x == j - y ==> a[x].body == b[y].body
  }

  // ---- Signing ------------------------------------------------------------

  datatype Signer = Signer(signerId: string, keyId: string, secret: Secret)

  datatype Signed = Signed(manifest: Manifest) | Refused(error: Error)

  /** `CheckpointSigner::sign`. */
  function Sign(suite: Suite, signer: Signer, m: Material, issuedAtMs: nat, expiresAtMs: Option<nat>,
                previousRef: Option<string>): Signed
  {
    if CheckMaterial(m).Some? then Refused(CheckMaterial(m).value)
    else if BadExpiry(issuedAtMs, expiresAtMs) then Refused(InvalidExpiry)
    else if BadPrevious(previousRef) then Refused(InvalidReference("previous_checkpoint_ref"))
    else
      var body := Body(CHECKPOINT_SCHEMA, CHECKPOINT_PROFILE, m, signer.signerId, signer.keyId, issuedAtMs, expiresAtMs,
                       previousRef);
      match suite.canonical(body)
      case None => Refused(Encoding)
      case Some(message) =>
        Signed(Manifest(body, suite.sha(message), SIGNATURE_ALGORITHM, suite.signHex(signer.secret, message)))
  }

  /** A signature verifies under the key of the secret that made it. */
  ghost predicate SignatureLaw(suite: Suite) {
    forall secret, message ::
      suite.parseKey(suite.publicHex(secret)).Some? && suite.parseSignature(suite.signHex(secret, message)).Some? &&
      suite.verifies(suite.parseKey(suite.publicHex(secret)).value, message,
                     suite.parseSignature(suite.signHex(secret, message)).value)
  }

  /** What `sign` produces, `verify_signed_checkpoint` accepts exactly while the key and checkpoint are valid. */
  lemma SignThenVerify(suite: Suite, signer: Signer, key: TrustedKey, keys: Registry, m: Material, issuedAtMs: nat,
                       expiresAtMs: Option<nat>, previousRef: Option<string>, nowMs: nat)
    requires SignatureLaw(suite) && !Blank(signer.signerId) && !Blank(signer.keyId)
    requires key.publicKeyHex == suite.publicHex(signer.secret)
    requires KeySlot(signer.signerId, signer.keyId) in keys && keys[KeySlot(signer.signerId, signer.keyId)] == key
    ensures var s := Sign(suite, signer, m, issuedAtMs, expiresAtMs, previousRef);
            s.Signed? ==> (CheckManifest(suite, s.manifest, keys, nowMs).None? <==> InWindow(s.manifest, key, nowMs))
  {
    var s := Sign(suite, signer, m, issuedAtMs, expiresAtMs, previousRef);
    if s.Signed? {
      ManifestWindow(suite, s.manifest, keys, nowMs);
      var message := suite.canonical(s.manifest.body).value;
      assert suite.parseSignature(suite.signHex(signer.secret, message)).Some?;
    }
  }
}
