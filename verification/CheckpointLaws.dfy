/** What an accepted checkpoint chain consists of, field by field, and what is refused (checkpoint.rs). */
module CheckpointLaws {
  import opened Basics
  import opened Text
  import opened TextLaws
  import opened Checkpoint

  // ---- One manifest -------------------------------------------------------

  predicate NotBlank(s: string) {
    Trim(s) != ""
  }

  predicate GoodMaterial(m: Material) {
    NotBlank(m.ledgerProfile) && IsRef(m.storageRootIdentity) && IsRef(m.eventChainHead) &&
    IsRef(m.projectionDigest) && IsRef(m.snapshotDigest) && m.lastSequence > 0
  }

  /** What a body must contain to be checked any further. */
  predicate GoodBody(b: Body) {
    b.schema == "liminaldb.signed-checkpoint-manifest.v0.1" &&
    b.checkpointProfile == "org.liminaldb.signed-checkpoint.v0.1" && GoodMaterial(b.material) &&
    NotBlank(b.signerId) && NotBlank(b.keyId) &&
    (b.expiresAtMs.Some? ==> b.issuedAtMs < b.expiresAtMs.value) && (b.previousRef.Some? ==> IsRef(b.previousRef.value))
  }

  lemma MaterialChecked(m: Material)
    ensures CheckMaterial(m).None? <==> GoodMaterial(m)
  {
    RefMeans(m.storageRootIdentity);
    RefMeans(m.eventChainHead);
    RefMeans(m.projectionDigest);
    RefMeans(m.snapshotDigest);
    hide ValidRef, IsRef, Trim;
  }

  lemma BodyChecked(b: Body)
    ensures CheckBody(b).None? <==> GoodBody(b)
  {
    MaterialChecked(b.material);
    if b.previousRef.Some? {
      RefMeans(b.previousRef.value);
    }
    hide CheckMaterial, GoodMaterial, ValidRef, IsRef, Trim;
  }

  /** The place of a signer's key in the registry: the two ids around a NUL character. */
  function Slot(b: Body): string {
    b.signerId + "\0" + b.keyId
  }

  /** The manifest names its body by digest, and a registered key's slot. */
  predicate Bound(suite: Suite, m: Manifest, keys: Registry) {
    m.algorithm == "Ed25519" && suite.canonical(m.body).Some? &&
    m.manifestRef == suite.sha(suite.canonical(m.body).value) && Slot(m.body) in keys
  }

  /** The checkpoint and its key are valid at this time. */
  predicate Timely(m: Manifest, key: TrustedKey, nowMs: nat) {
    m.body.issuedAtMs <= nowMs && key.validFromMs <= nowMs &&
    (m.body.expiresAtMs.Some? ==> nowMs <= m.body.expiresAtMs.value) &&
    (key.validUntilMs.Some? ==> nowMs <= key.validUntilMs.value) &&
    (key.revokedAtMs.Some? ==> nowMs < key.revokedAtMs.value)
  }

  /** Key and signature parse. */
  predicate Parses(suite: Suite, m: Manifest, key: TrustedKey) {
    suite.parseKey(key.publicKeyHex).Some? && suite.parseSignature(m.signatureHex).Some?
  }

  /** The primitive accepts the signature over the canonical body under the key. */
  predicate Genuine(suite: Suite, m: Manifest, key: TrustedKey)
    requires suite.canonical(m.body).Some? && Parses(suite, m, key)
  {
    suite.verifies(suite.parseKey(key.publicKeyHex).value, suite.canonical(m.body).value,
                   suite.parseSignature(m.signatureHex).value)
  }

  /** A manifest passes exactly when nothing about it is wrong. */
  lemma ManifestAcceptedIff(suite: Suite, m: Manifest, keys: Registry, nowMs: nat)
    ensures CheckManifest(suite, m, keys, nowMs).None? <==>
            GoodBody(m.body) && Bound(suite, m, keys) && Timely(m, keys[Slot(m.body)], nowMs) &&
            Parses(suite, m, keys[Slot(m.body)]) && Genuine(suite, m, keys[Slot(m.body)])
  {
    BodyChecked(m.body);
    SlotMeans(m.body);
    hide CheckBody, GoodBody, KeySlot, Slot;
  }

  lemma SlotMeans(b: Body)
    ensures KeySlot(b.signerId, b.keyId) == Slot(b)
  {
  }

  /** A manifest with nothing wrong but its signature is refused for its signature. */
  lemma ForgeryRefused(suite: Suite, m: Manifest, keys: Registry, nowMs: nat)
    requires GoodBody(m.body) && Bound(suite, m, keys) && Timely(m, keys[Slot(m.body)], nowMs)
    requires Parses(suite, m, keys[Slot(m.body)]) && !Genuine(suite, m, keys[Slot(m.body)])
    ensures CheckManifest(suite, m, keys, nowMs) == Some(SignatureVerificationFailed)
  {
    BodyChecked(m.body);
    SlotMeans(m.body);
    hide CheckBody, GoodBody, KeySlot, Slot;
  }

  /** A forged checkpoint anywhere in a chain keeps the whole chain from being accepted. */
  lemma ForgedChainRefused(suite: Suite, chain: seq<Manifest>, keys: Registry, anchor: Option<Anchor>, nowMs: nat,
                           i: nat)
    requires i < |chain| && Bound(suite, chain[i], keys) && Parses(suite, chain[i], keys[Slot(chain[i].body)])
    requires !Genuine(suite, chain[i], keys[Slot(chain[i].body)])
    ensures !Accepted(suite, chain, keys, anchor, nowMs)
  {
    ManifestAcceptedIff(suite, chain[i], keys, nowMs);
    EachPasses(suite, chain, keys, nowMs);
    hide CheckManifest, CheckEach, Genuine;
  }

  /**
    Every checkpoint of an accepted chain, whatever the anchor, is signed: its signer's key is
    registered, key and signature parse, and the primitive verifies the signature over the body.
   */
  lemma AcceptedChainIsSigned(suite: Suite, chain: seq<Manifest>, keys: Registry, anchor: Option<Anchor>, nowMs: nat,
                              i: nat)
    requires Accepted(suite, chain, keys, anchor, nowMs) && i < |chain|
    ensures var m := chain[i];
            var slot := m.body.signerId + "\0" + m.body.keyId;
            slot in keys && suite.parseKey(keys[slot].publicKeyHex).Some? &&
            suite.parseSignature(m.signatureHex).Some? && suite.canonical(m.body).Some? &&
            m.manifestRef == suite.sha(suite.canonical(m.body).value) &&
            suite.verifies(suite.parseKey(keys[slot].publicKeyHex).value, suite.canonical(m.body).value,
                           suite.parseSignature(m.signatureHex).value)
  {
    EachPasses(suite, chain, keys, nowMs);
    ManifestAcceptedIff(suite, chain[i], keys, nowMs);
    hide CheckManifest, CheckEach, GoodBody;
  }

  // ---- Chains -------------------------------------------------------------

  /** One checkpoint follows another: same ledger and signer, named as predecessor, further on in everything. */
  predicate Follows(p: Manifest, c: Manifest) {
    var from, to := p.body.material, c.body.material;
    to.ledgerProfile == from.ledgerProfile && to.storageRootIdentity == from.storageRootIdentity &&
    c.body.signerId == p.body.signerId && c.body.previousRef == Some(p.manifestRef) &&
    from.lastSequence < to.lastSequence && p.body.issuedAtMs <= c.body.issuedAtMs &&
    (from.walSegment < to.walSegment || (from.walSegment == to.walSegment && from.walOffset < to.walOffset)) &&
    to.eventChainHead != from.eventChainHead
  }

  lemma LinkAcceptedIff(p: Manifest, c: Manifest)
    ensures CheckLink(p, c).None? <==> Follows(p, c)
  {
  }

  /** The anchored storage, head and sequence. */
  predicate Agrees(m: Material, a: Anchor) {
    m.storageRootIdentity == a.storageRootIdentity && m.eventChainHead == a.eventChainHead &&
    m.lastSequence == a.lastSequence
  }

  predicate GoodAnchor(a: Anchor) {
    NotBlank(a.providerProfile) && NotBlank(a.anchorId) && IsRef(a.checkpointRef) && IsRef(a.storageRootIdentity) &&
    IsRef(a.eventChainHead) && a.lastSequence > 0
  }

  /** Checkpoint `i` is the first one with the anchored reference. */
  predicate FirstNamed(chain: seq<Manifest>, a: Anchor, i: nat) {
    i < |chain| && chain[i].manifestRef == a.checkpointRef &&
    forall j :: 0 <= j < i ==> chain[j].manifestRef != a.checkpointRef
  }

  lemma AnchorChecked(a: Anchor)
    ensures CheckAnchorFields(a).None? <==> GoodAnchor(a)
  {
    RefMeans(a.checkpointRef);
    RefMeans(a.storageRootIdentity);
    RefMeans(a.eventChainHead);
    hide ValidRef, IsRef, Trim;
  }

  lemma {:induction false} FindsFirst(chain: seq<Manifest>, a: Anchor)
    ensures var i := FindAnchored(chain, a.checkpointRef); i.Some? ==> FirstNamed(chain, a, i.value)
  {
    if chain != [] && chain[0].manifestRef != a.checkpointRef {
      FindsFirst(chain[1..], a);
      assert forall j :: 0 <= j < |chain[1..]| ==> chain[1..][j] == chain[j + 1];
      assert forall j :: 1 <= j < |chain| ==> chain[j] == chain[1..][j - 1];
    }
  }

  /** No checkpoint has the anchored reference. */
  predicate NotNamed(chain: seq<Manifest>, a: Anchor) {
    forall m :: m in chain ==> m.manifestRef != a.checkpointRef
  }

  /** The first checkpoint with the anchored reference is the anchored one. */
  ghost predicate Anchored(chain: seq<Manifest>, a: Anchor) {
    exists i: nat :: FirstNamed(chain, a, i) && Agrees(chain[i].body.material, a)
  }

  lemma AnchoredIff(chain: seq<Manifest>, a: Anchor)
    ensures var i := FindAnchored(chain, a.checkpointRef);
            (i.None? <==> NotNamed(chain, a)) &&
            (Anchored(chain, a) <==> i.Some? && Agrees(chain[i.value].body.material, a))
  {
    FindsFirst(chain, a);
    hide Agrees;
    var found := FindAnchored(chain, a.checkpointRef);
    if i: nat :| FirstNamed(chain, a, i) && Agrees(chain[i].body.material, a) {
      assert chain[i] in chain && found.Some? && i == found.value;
    }
    if found.Some? {
      assert chain[found.value] in chain;
    }
  }

  /** What a well-formed anchor says about a chain, verdict by verdict. */
  lemma AnchorVerdict(chain: seq<Manifest>, a: Anchor)
    requires chain != [] && GoodAnchor(a)
    ensures var tip := chain[|chain| - 1].body.material.lastSequence;
            CheckAnchor(chain, a) ==
              if tip < a.lastSequence then Some(ExternalAnchorRollback)
              else if Anchored(chain, a) then None
              else if NotNamed(chain, a) && NoRival(chain, a) then Some(ExternalAnchorNotInChain)
              else Some(ExternalAnchorFork)
  {
    AnchorChecked(a);
    AnchoredIff(chain, a);
    hide CheckAnchorFields, GoodAnchor, FindAnchored, Anchored, NotNamed;
  }

  /** No checkpoint at the anchored sequence has another head or storage. */
  predicate NoRival(chain: seq<Manifest>, a: Anchor) {
    forall m :: m in chain && m.body.material.lastSequence == a.lastSequence ==>
      m.body.material.eventChainHead == a.eventChainHead && m.body.material.storageRootIdentity == a.storageRootIdentity
  }

  /** The anchor is well formed and anchored in a chain that reaches it. */
  ghost predicate Fits(chain: seq<Manifest>, a: Anchor)
    requires chain != []
  {
    GoodAnchor(a) && chain[|chain| - 1].body.material.lastSequence >= a.lastSequence && Anchored(chain, a)
  }

  ghost predicate AllFollow(chain: seq<Manifest>) {
    forall i :: 0 < i < |chain| ==> Follows(chain[i - 1], chain[i])
  }

  lemma LinksFollow(chain: seq<Manifest>)
    ensures LinksPass(chain) <==> AllFollow(chain)
  {
    forall i | 0 < i < |chain| ensures CheckLink(chain[i - 1], chain[i]).None? <==> Follows(chain[i - 1], chain[i]) {
      LinkAcceptedIff(chain[i - 1], chain[i]);
    }
    hide CheckLink, Follows;
  }

  lemma FitsIff(chain: seq<Manifest>, a: Anchor)
    requires chain != []
    ensures CheckAnchor(chain, a).None? <==> Fits(chain, a)
  {
    AnchorChecked(a);
    if GoodAnchor(a) {
      AnchorVerdict(chain, a);
    }
    hide GoodAnchor, Anchored, FindAnchored, CheckAnchorFields;
  }

  /** A chain is accepted exactly when all its checkpoints, their links and the anchored position are right. */
  lemma ChainAcceptedIff(suite: Suite, chain: seq<Manifest>, keys: Registry, anchor: Option<Anchor>, nowMs: nat)
    ensures Accepted(suite, chain, keys, anchor, nowMs) <==>
            chain != [] && (forall m :: m in chain ==> CheckManifest(suite, m, keys, nowMs).None?) &&
            AllFollow(chain) && (anchor.Some? ==> Fits(chain, anchor.value))
  {
    EachPasses(suite, chain, keys, nowMs);
    EachLinkPasses(chain);
    LinksFollow(chain);
    if chain != [] && anchor.Some? {
      FitsIff(chain, anchor.value);
    }
    hide CheckManifest, CheckEach, CheckLinks, CheckAnchor, LinksPass, AllFollow, Fits;
  }
}
