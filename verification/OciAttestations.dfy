/**
 What a walk makes of an attestation: every one of its statements names the digest of its subject, and what it records
 is exactly what they state. Each leaf of an accepted walk is recorded, as an image or as an attestation.
 */
module OciAttestations {
  import opened Basics
  import opened OciArchive
  import opened OciDetach
  import opened OciMerge
  import opened OciImages

  /** The layer is a readable in-toto statement that names the subject. */
  predicate StatementFits(m: Members, l: Descriptor, subject: Digest) {
    && BlobFits(m, l, {InToto}) && 0 < l.size <= 16_777_216
    && m[Blob(l.digest)].doc.Some? && m[Blob(l.digest)].doc.value.statement.Some?
    && subject in m[Blob(l.digest)].doc.value.statement.value.subjects
  }

  predicate StatementsFit(m: Members, layers: seq<Descriptor>, subject: Digest) {
    forall k :: 0 <= k < |layers| ==> StatementFits(m, layers[k], subject)
  }

  /** The layer states this predicate type. */
  predicate States(m: Members, l: Descriptor, predicateType: string) {
    && Blob(l.digest) in m && m[Blob(l.digest)].doc.Some? && m[Blob(l.digest)].doc.value.statement.Some?
    && m[Blob(l.digest)].doc.value.statement.value.predicateType == predicateType
  }

  ghost predicate TypesAre(m: Members, layers: seq<Descriptor>, types: set<string>) {
    forall t :: t in types <==> exists k :: 0 <= k < |layers| && States(m, layers[k], t)
  }

  predicate IsDocument(m: Members, d: Option<Descriptor>, mediaType: MediaType) {
    d.Some? && BlobFits(m, d.value, {mediaType}) && 0 < d.value.size <= 2_000_000 && m[Blob(d.value.digest)].doc.Some?
  }

  predicate ForArch(arch: Arch, p: Platform) { p.os in {None, Some(Linux)} && p.arch in {None, Some(arch)} }

  /** An artifact of OCI 1.1 has an empty config and names its subject itself. */
  predicate ArtifactFits(arch: Arch, m: Members, d: Descriptor, data: Doc) {
    && data.artifact == Some(AttestationArtifact) && (d.artifact.Some? ==> d.artifact.value == AttestationArtifact)
    && IsDocument(m, data.config, EmptyConfigType) && data.config.value.size == 2 && m[Blob(data.config.value.digest)].doc.value.empty
    && data.subject.Some? && BlobFits(m, data.subject.value, {ManifestType})
    && (data.subject.value.platform.Some? ==> ForArch(arch, data.subject.value.platform.value))
    && (d.referenceDigest.Some? ==> d.referenceDigest.value == data.subject.value.digest)
  }

  /** The older form has a config for an unknown platform, and an annotation names its subject. */
  predicate LegacyFits(m: Members, d: Descriptor, data: Doc) {
    && data.artifact.None? && d.artifact.None? && data.subject.None?
    && IsDocument(m, data.config, ConfigType)
    && m[Blob(data.config.value.digest)].doc.value.platform.os == Some(UnknownOs)
    && m[Blob(data.config.value.digest)].doc.value.platform.arch == Some(UnknownArch)
    && d.referenceDigest.Some? && Blob(d.referenceDigest.value) in m
  }

  /** The manifest that the attestation is about. */
  ghost predicate IsSubject(m: Members, d: Descriptor, data: Doc, subject: Key) {
    if data.artifact.Some? then data.subject.Some? && subject == KeyOf(data.subject.value)
    else
      && d.referenceDigest.Some? && Blob(d.referenceDigest.value) in m
      && subject == Key(ManifestType, d.referenceDigest.value, m[Blob(d.referenceDigest.value)].size)
  }

  /** All that is asked of an attestation but the budget. */
  ghost predicate AttestationFits(arch: Arch, m: Members, d: Descriptor, data: Doc, subject: Key) {
    && d.platform.Some? && d.platform.value.os == Some(UnknownOs) && d.platform.value.arch == Some(UnknownArch)
    && (d.reference.Some? ==> d.reference.value == AttestationManifest)
    && (ArtifactFits(arch, m, d, data) || LegacyFits(m, d, data)) && IsSubject(m, d, data, subject)
    && data.layers.Some? && 1 <= |data.layers.value| <= 4096 && StatementsFit(m, data.layers.value, subject.digest)
  }

  function StatementsSize(layers: seq<Descriptor>): nat {
    if layers == [] then 0 else layers[0].size + StatementsSize(layers[1..])
  }

  /** Statements were read, nothing else changed. */
  ghost predicate StatementsDone(m: Members, w: Walk, r: Walk, layers: seq<Descriptor>) {
    && r.metadataBytes == w.metadataBytes + StatementsSize(layers)
    && r.metadataNames == w.metadataNames + NamesOf(layers) && r.attestationNames == w.attestationNames + NamesOf(layers)
    && r == w.(metadataBytes := r.metadataBytes, metadataNames := r.metadataNames, attestationNames := r.attestationNames,
               sized := r.sized)
  }

  lemma OneStatement(m: Members, w: Walk, l: Descriptor, subject: Digest)
    ensures var name := Blob(l.digest);
      var checked := CheckBlob(m, w, l, {InToto});
      var read := if checked.Accept? then ReadJson(m, checked.value, name, MAX_ATTESTATION_JSON) else Reject;
      && (read.Accept? && read.value.0.statement.Some? && subject in read.value.0.statement.value.subjects <==>
            StatementFits(m, l, subject) && w.metadataBytes + l.size <= MAX_JSON_TOTAL)
      && (read.Accept? ==>
            && m[name].doc == Some(read.value.0)
            && read.value.1 == w.(sized := w.sized + {name}, metadataNames := w.metadataNames + {name}, metadataBytes := w.metadataBytes + l.size))
  {
  }

  lemma StatementsFront(m: Members, layers: seq<Descriptor>, subject: Digest)
    requires layers != []
    ensures StatementsFit(m, layers, subject) <==> StatementFits(m, layers[0], subject) && StatementsFit(m, layers[1..], subject)
  {
    assert forall k :: 1 <= k < |layers| ==> layers[1..][k - 1] == layers[k];
    assert forall k :: 0 <= k < |layers| - 1 ==> layers[1..][k] == layers[k + 1];
  }

  lemma TypesFront(m: Members, layers: seq<Descriptor>, rest: set<string>, t: string)
    requires layers != [] && States(m, layers[0], t) && TypesAre(m, layers[1..], rest)
    ensures TypesAre(m, layers, rest + {t})
  {
    forall x ensures x in rest + {t} <==> exists k :: 0 <= k < |layers| && States(m, layers[k], x) {
      if k :| 0 <= k < |layers[1..]| && States(m, layers[1..][k], x) {
        assert States(m, layers[k + 1], x);
      }
      if k :| 0 <= k < |layers| && States(m, layers[k], x) {
        assert k > 0 ==> States(m, layers[1..][k - 1], x);
      }
    }
  }

  /** Statements are accepted when each of them fits and their bytes are within the budget left. */
  lemma {:induction false} StatementsExactly(m: Members, w: Walk, layers: seq<Descriptor>, subject: Digest)
    ensures var r := ReadStatements(m, w, layers, subject);
      && (r.Accept? <==>
            StatementsFit(m, layers, subject) && (layers == [] || w.metadataBytes + StatementsSize(layers) <= MAX_JSON_TOTAL))
      && (r.Accept? ==> StatementsDone(m, w, r.value.1, layers) && TypesAre(m, layers, r.value.0))
    decreases |layers|
  {
    if layers != [] {
      var name := Blob(layers[0].digest);
      OneStatement(m, w, layers[0], subject);
      StatementsFront(m, layers, subject);
      if StatementFits(m, layers[0], subject) && w.metadataBytes + layers[0].size <= MAX_JSON_TOTAL {
        var w2 := ReadJson(m, CheckBlob(m, w, layers[0], {InToto}).value, name, MAX_ATTESTATION_JSON).value.1;
        var w3 := w2.(attestationNames := w2.attestationNames + {name});
        StatementsExactly(m, w3, layers[1..], subject);
        NamesFront(layers);
        var rest := ReadStatements(m, w3, layers[1..], subject);
        if rest.Accept? {
          TypesFront(m, layers, rest.value.0, m[name].doc.value.statement.value.predicateType);
        }
      }
    }
  }
  function Subject(arch: Arch, m: Members, w: Walk, d: Descriptor, data: Doc): Result<(Key, Walk)> {
    if data.artifact.Some? then ArtifactSubject(arch, m, w, d, data) else LegacySubject(m, w, d, data)
  }

  /** Only the config was read. */
  ghost predicate ConfigDone(w: Walk, r: Walk, config: Descriptor) {
    && r.metadataBytes == w.metadataBytes + config.size && r.metadataNames == w.metadataNames + {Blob(config.digest)}
    && r == w.(metadataBytes := r.metadataBytes, metadataNames := r.metadataNames, sized := r.sized)
  }

  lemma DocumentExactly(m: Members, w: Walk, d: Option<Descriptor>, mediaType: MediaType)
    ensures var r := ReadBlob(m, w, d, {mediaType});
      && (r.Accept? <==> IsDocument(m, d, mediaType) && w.metadataBytes + d.value.size <= MAX_JSON_TOTAL)
      && (r.Accept? ==> ConfigDone(w, r.value.1, d.value) && m[Blob(d.value.digest)].doc == Some(r.value.0))
  {
  }

  lemma ArtifactExactly(arch: Arch, m: Members, w: Walk, d: Descriptor, data: Doc)
    requires data.artifact.Some?
    ensures var r := ArtifactSubject(arch, m, w, d, data);
      && (r.Accept? <==> ArtifactFits(arch, m, d, data) && w.metadataBytes + data.config.value.size <= MAX_JSON_TOTAL)
      && (r.Accept? ==> ConfigDone(w, r.value.1, data.config.value) && IsSubject(m, d, data, r.value.0))
  {
    hide ReadBlob;
    DocumentExactly(m, w, data.config, EmptyConfigType);
  }

  lemma LegacyExactly(m: Members, w: Walk, d: Descriptor, data: Doc)
    requires data.artifact.None?
    ensures var r := LegacySubject(m, w, d, data);
      && (r.Accept? <==> LegacyFits(m, d, data) && w.metadataBytes + data.config.value.size <= MAX_JSON_TOTAL)
      && (r.Accept? ==> ConfigDone(w, r.value.1, data.config.value) && IsSubject(m, d, data, r.value.0))
  {
    hide ReadBlob;
    DocumentExactly(m, w, data.config, ConfigType);
  }

  lemma SubjectExactly(arch: Arch, m: Members, w: Walk, d: Descriptor, data: Doc)
    ensures var r := Subject(arch, m, w, d, data);
      && (r.Accept? <==>
            && (ArtifactFits(arch, m, d, data) || LegacyFits(m, d, data))
            && w.metadataBytes + data.config.value.size <= MAX_JSON_TOTAL)
      && (r.Accept? ==> ConfigDone(w, r.value.1, data.config.value) && IsSubject(m, d, data, r.value.0))
  {
    hide ArtifactSubject, LegacySubject;
    if data.artifact.Some? {
      ArtifactExactly(arch, m, w, d, data);
    } else {
      LegacyExactly(m, w, d, data);
    }
  }

  /** What accepting an attestation makes of the walk. */
  ghost predicate AttestationDone(m: Members, w: Walk, r: Walk, d: Descriptor, data: Doc, t: Attestation)
    requires data.config.Some? && data.layers.Some?
  {
    var config, layers := data.config.value, data.layers.value;
    && t.digest == d.digest && IsSubject(m, d, data, t.subject) && TypesAre(m, layers, t.predicateTypes)
    && r.attestations == w.attestations + [t]
    && r.metadataBytes == w.metadataBytes + config.size + StatementsSize(layers)
    && r.metadataNames == w.metadataNames + {Blob(config.digest)} + NamesOf(layers)
    && r.attestationNames == w.attestationNames + NamesOf(layers)
    && r == w.(attestations := r.attestations, metadataBytes := r.metadataBytes, metadataNames := r.metadataNames,
               attestationNames := r.attestationNames, sized := r.sized)
  }

  /** An attestation is accepted exactly when it fits and the budget is not exceeded. */
  lemma AttestationExactly(arch: Arch, m: Members, w: Walk, d: Descriptor, data: Doc)
    ensures var r := AttestationLeaf(arch, m, w, d, data);
      && (r.Accept? <==>
            && (exists subject :: AttestationFits(arch, m, d, data, subject))
            && w.metadataBytes + data.config.value.size + StatementsSize(data.layers.value) <= 32_000_000)
      && (r.Accept? ==>
            && |r.value.attestations| == |w.attestations| + 1
            && var t := r.value.attestations[|w.attestations|];
               AttestationFits(arch, m, d, data, t.subject) && AttestationDone(m, w, r.value, d, data, t))
  {
    hide ArtifactSubject, LegacySubject, ReadStatements, ArtifactFits, LegacyFits, StatementsFit;
    SubjectExactly(arch, m, w, d, data);
    var s := Subject(arch, m, w, d, data);
    if s.Accept? && data.layers.Some? {
      StatementsExactly(m, s.value.1, data.layers.value, s.value.0.digest);
      forall subject | AttestationFits(arch, m, d, data, subject) ensures AttestationFits(arch, m, d, data, s.value.0) {
        assert subject == s.value.0;
      }
      var fits := AttestationFits(arch, m, d, data, s.value.0);
      assert fits <==> exists subject :: AttestationFits(arch, m, d, data, subject);
      assert StatementsFit(m, data.layers.value, s.value.0.digest) || !fits;
    }
  }
  // ----- over a whole walk

  /** The leaf is an attestation, and this is what its manifest and statements say. */
  ghost predicate IsAttestation(arch: Arch, m: Members, d: Descriptor, t: Attestation) {
    && Blob(d.digest) in m && m[Blob(d.digest)].doc.Some? && t.digest == d.digest
    && var data := m[Blob(d.digest)].doc.value;
       && (d.reference == Some(AttestationManifest) || data.artifact == Some(AttestationArtifact))
       && AttestationFits(arch, m, d, data, t.subject) && TypesAre(m, data.layers.value, t.predicateTypes)
  }

  ghost predicate LeafRecorded(arch: Arch, m: Members, w: Walk, d: Descriptor) {
    (exists i :: i in w.images && IsImage(arch, m, d, i)) || (exists t :: t in w.attestations && IsAttestation(arch, m, d, t))
  }

  /** Leaves and records match: each image and attestation is a leaf's, and each leaf is one of the two. */
  ghost predicate Recorded(arch: Arch, m: Members, w: Walk) {
    && (forall t :: t in w.attestations ==> exists d :: d in w.leaves && IsAttestation(arch, m, d, t))
    && (forall i :: i in w.images ==> exists d :: d in w.leaves && IsImage(arch, m, d, i))
    && (forall d :: d in w.leaves ==> LeafRecorded(arch, m, w, d))
  }

  /** One more leaf with its record. */
  lemma LeafAdded(arch: Arch, m: Members, w: Walk, r: Walk, d: Descriptor)
    requires Recorded(arch, m, w) && r.leaves == w.leaves + [d]
    requires || (r.images == w.images && |r.attestations| == |w.attestations| + 1
                 && r.attestations == w.attestations + [r.attestations[|w.attestations|]]
                 && IsAttestation(arch, m, d, r.attestations[|w.attestations|]))
             || (r.attestations == w.attestations && |r.images| == |w.images| + 1
                 && r.images == w.images + [r.images[|w.images|]]
                 && IsImage(arch, m, d, r.images[|w.images|]))
    ensures Recorded(arch, m, r)
  {
    hide IsAttestation, IsImage;
    assert d in r.leaves && LeafRecorded(arch, m, r, d);
    forall t | t in r.attestations ensures exists l :: l in r.leaves && IsAttestation(arch, m, l, t) {
      if t in w.attestations {
        var l :| l in w.leaves && IsAttestation(arch, m, l, t);
        assert l in r.leaves;
      }
    }
    forall i | i in r.images ensures exists l :: l in r.leaves && IsImage(arch, m, l, i) {
      if i in w.images {
        var l :| l in w.leaves && IsImage(arch, m, l, i);
        assert l in r.leaves;
      }
    }
    forall l | l in w.leaves ensures LeafRecorded(arch, m, r, l) {
      assert LeafRecorded(arch, m, w, l);
    }
  }

  lemma VisitRecords(arch: Arch, m: Members, w: Walk, d: Descriptor, data: Doc)
    requires ImagesOk(arch, m, w) && Recorded(arch, m, w) && Blob(d.digest) in m && m[Blob(d.digest)].doc == Some(data)
    requires VisitLeaf(Native(arch), m, w, d, data).Accept?
    ensures Recorded(arch, m, VisitLeaf(Native(arch), m, w, d, data).value)
  {
    hide ImageLeaf, AttestationLeaf, Recorded, ImagesOk, AttestationFits, ImageFits;
    var r := VisitLeaf(Native(arch), m, w, d, data).value;
    if d.reference == Some(AttestationManifest) || data.artifact == Some(AttestationArtifact) {
      AttestationExactly(arch, m, w, d, data);
      assert IsAttestation(arch, m, d, r.attestations[|w.attestations|]);
    } else {
      ImagesRemembered(arch, m, w);
      ImageExactly(arch, m, w, d, data);
      assert IsImage(arch, m, d, r.images[|w.images|]);
    }
    LeafAdded(arch, m, w, r, d);
  }

  lemma ImagesRemembered(arch: Arch, m: Members, w: Walk)
    requires ImagesOk(arch, m, w)
    ensures Remembered(m, w)
  {
  }

  lemma SameRecords(arch: Arch, m: Members, w: Walk, r: Walk)
    requires Recorded(arch, m, w) && r.leaves == w.leaves && r.images == w.images && r.attestations == w.attestations
    ensures Recorded(arch, m, r)
  {
    hide IsAttestation, IsImage;
    forall d | d in r.leaves ensures LeafRecorded(arch, m, r, d) {
      assert LeafRecorded(arch, m, w, d);
    }
  }

  lemma EnterSame(m: Members, d: Descriptor, depth: nat, w: Walk)
    requires Enter(m, d, depth, w).Accept?
    ensures var r := Enter(m, d, depth, w).value.1;
      depth <= 8 && r.leaves == w.leaves && r.images == w.images && r.attestations == w.attestations
  {
  }

  lemma {:induction false} WalkOneRecords(arch: Arch, m: Members, d: Descriptor, depth: nat, w: Walk)
    requires depth <= 9 && ImagesOk(arch, m, w) && Recorded(arch, m, w) && WalkOne(Native(arch), m, d, depth, w).Accept?
    ensures Recorded(arch, m, WalkOne(Native(arch), m, d, depth, w).value)
    decreases 10 - depth, 0, 0
  {
    hide Enter, VisitLeaf, Recorded, ImagesOk, MetadataOnly;
    EnterReads(m, d, depth, w);
    EnterSame(m, d, depth, w);
    var (data, w1) := Enter(m, d, depth, w).value;
    MetadataKeepsImages(arch, m, w, w1);
    SameRecords(arch, m, w, w1);
    if d.mediaType == IndexType {
      WalkAllRecords(arch, m, data.manifests.value, depth + 1, w1);
    } else {
      VisitRecords(arch, m, w1, d, data);
    }
  }

  lemma {:induction false} WalkAllRecords(arch: Arch, m: Members, children: seq<Descriptor>, depth: nat, w: Walk)
    requires depth <= 9 && ImagesOk(arch, m, w) && Recorded(arch, m, w) && WalkAll(Native(arch), m, children, depth, w).Accept?
    ensures Recorded(arch, m, WalkAll(Native(arch), m, children, depth, w).value)
    decreases 10 - depth, 1, |children|
  {
    hide WalkOne, Recorded, ImagesOk;
    if children != [] {
      var most := children[..|children| - 1];
      WalkAllRecords(arch, m, most, depth, w);
      WalkAllImages(arch, m, most, depth, w);
      WalkOneRecords(arch, m, children[|children| - 1], depth, WalkAll(Native(arch), m, most, depth, w).value);
    }
  }

  /** An accepted native walk records each of its leaves as the image or the attestation that it is, and nothing else. */
  lemma ArchiveRecords(arch: Arch, m: Members)
    requires WalkArchive(Native(arch), m).Accept?
    ensures Recorded(arch, m, WalkArchive(Native(arch), m).value)
  {
    hide WalkAll;
    var w1 := ReadJson(m, START, Layout, MAX_JSON).value.1;
    var (root, w2) := ReadJson(m, w1, Root, MAX_JSON).value;
    assert ImagesOk(arch, m, w2) && Recorded(arch, m, w2);
    WalkAllRecords(arch, m, root.manifests.value, 0, w2);
  }
}
