/** A walk depends only on the metadata it read, the layers it decoded and the sizes it checked. */
module OciReplay {
  import opened Basics
  import opened OciArchive

  /** Everything touched is in the archive, and all metadata but the layout and the root are blobs. */
  ghost predicate Within(a: Members, w: Walk) {
    && w.metadataNames + w.layerNames + w.sized <= a.Keys
    && forall n :: n in w.metadataNames ==> n.Blob? || n == Layout || n == Root
  }

  ghost predicate Below(a: Members, w: Walk, w': Walk) {
    && w.metadataNames <= w'.metadataNames && w.layerNames <= w'.layerNames && w.sized <= w'.sized
    && (Within(a, w) ==> Within(a, w'))
  }

  /** `b` has every member the walk used: whole where it was read, of the same size where that was all. */
  ghost predicate Agree(a: Members, b: Members, w: Walk) {
    && (forall n :: n in w.metadataNames + w.layerNames ==> n in a && n in b && b[n] == a[n])
    && (forall n :: n in w.sized ==> n in a && n in b && b[n].size == a[n].size)
  }

  lemma CheckBlobReplays(a: Members, b: Members, w: Walk, d: Descriptor, types: set<MediaType>)
    requires CheckBlob(a, w, d, types).Accept?
    ensures var w' := CheckBlob(a, w, d, types).value;
      Below(a, w, w') && (Agree(a, b, w') ==> CheckBlob(b, w, d, types) == Accept(w'))
  {
    assert Blob(d.digest) in CheckBlob(a, w, d, types).value.sized;
  }

  lemma ReadJsonReplays(a: Members, b: Members, w: Walk, name: Name, limit: nat)
    requires ReadJson(a, w, name, limit).Accept? && !name.Extension?
    ensures var r := ReadJson(a, w, name, limit);
      Below(a, w, r.value.1) && (Agree(a, b, r.value.1) ==> ReadJson(b, w, name, limit) == r)
  {
    assert name in ReadJson(a, w, name, limit).value.1.metadataNames;
  }

  lemma ReadBlobReplays(a: Members, b: Members, w: Walk, d: Option<Descriptor>, types: set<MediaType>)
    requires ReadBlob(a, w, d, types).Accept?
    ensures var r := ReadBlob(a, w, d, types);
      Below(a, w, r.value.1) && (Agree(a, b, r.value.1) ==> ReadBlob(b, w, d, types) == r)
  {
    CheckBlobReplays(a, b, w, d.value, types);
    var w1 := CheckBlob(a, w, d.value, types).value;
    ReadJsonReplays(a, b, w1, Blob(d.value.digest), MAX_JSON);
  }

  lemma {:induction false} CheckBlobsReplay(a: Members, b: Members, w: Walk, ds: seq<Descriptor>, types: set<MediaType>)
    requires CheckBlobs(a, w, ds, types).Accept?
    ensures var r := CheckBlobs(a, w, ds, types);
      Below(a, w, r.value) && (Agree(a, b, r.value) ==> CheckBlobs(b, w, ds, types) == r)
    decreases |ds|
  {
    if ds != [] {
      CheckBlobReplays(a, b, w, ds[0], types);
      CheckBlobsReplay(a, b, CheckBlob(a, w, ds[0], types).value, ds[1..], types);
    }
  }

  lemma LayerDigestReplays(a: Members, b: Members, w: Walk, d: Descriptor)
    requires LayerDigest(a, w, d).Accept?
    ensures var r := LayerDigest(a, w, d);
      Below(a, w, r.value.1) && (Agree(a, b, r.value.1) ==> LayerDigest(b, w, d) == r)
  {
    var key := (d.digest, d.mediaType);
    assert key !in w.layerIdentities ==> Blob(d.digest) in LayerDigest(a, w, d).value.1.layerNames;
  }

  lemma {:induction false} CheckLayersReplay(a: Members, b: Members, w: Walk, layers: seq<Descriptor>, diffIds: seq<Digest>)
    requires |layers| == |diffIds| && CheckLayers(a, w, layers, diffIds).Accept?
    ensures var r := CheckLayers(a, w, layers, diffIds);
      Below(a, w, r.value) && (Agree(a, b, r.value) ==> CheckLayers(b, w, layers, diffIds) == r)
    decreases |layers|
  {
    if layers != [] {
      LayerDigestReplays(a, b, w, layers[0]);
      CheckLayersReplay(a, b, LayerDigest(a, w, layers[0]).value.1, layers[1..], diffIds[1..]);
    }
  }

  lemma ImageReplays(arch: Arch, a: Members, b: Members, w: Walk, d: Descriptor, data: Doc)
    requires ImageLeaf(arch, a, w, d, data).Accept?
    ensures var r := ImageLeaf(arch, a, w, d, data);
      Below(a, w, r.value) && (Agree(a, b, r.value) ==> ImageLeaf(arch, b, w, d, data) == r)
  {
    hide ReadBlob, CheckBlobs, CheckLayers;
    ReadBlobReplays(a, b, w, data.config, {ConfigType});
    var (details, w1) := ReadBlob(a, w, data.config, {ConfigType}).value;
    CheckBlobsReplay(a, b, w1, data.layers.value, LAYER_TYPES);
    var w2 := CheckBlobs(a, w1, data.layers.value, LAYER_TYPES).value;
    CheckLayersReplay(a, b, w2, data.layers.value, details.diffIds.value);
  }

  lemma {:induction false} StatementsReplay(a: Members, b: Members, w: Walk, layers: seq<Descriptor>, subject: Digest)
    requires ReadStatements(a, w, layers, subject).Accept?
    ensures var r := ReadStatements(a, w, layers, subject);
      Below(a, w, r.value.1) && (Agree(a, b, r.value.1) ==> ReadStatements(b, w, layers, subject) == r)
    decreases |layers|
  {
    if layers != [] {
      var name := Blob(layers[0].digest);
      CheckBlobReplays(a, b, w, layers[0], {InToto});
      var w1 := CheckBlob(a, w, layers[0], {InToto}).value;
      ReadJsonReplays(a, b, w1, name, MAX_ATTESTATION_JSON);
      var w2 := ReadJson(a, w1, name, MAX_ATTESTATION_JSON).value.1;
      StatementsReplay(a, b, w2.(attestationNames := w2.attestationNames + {name}), layers[1..], subject);
    }
  }

  lemma ArtifactReplays(arch: Arch, a: Members, b: Members, w: Walk, d: Descriptor, data: Doc)
    requires ArtifactSubject(arch, a, w, d, data).Accept?
    ensures var r := ArtifactSubject(arch, a, w, d, data);
      Below(a, w, r.value.1) && (Agree(a, b, r.value.1) ==> ArtifactSubject(arch, b, w, d, data) == r)
  {
    ReadBlobReplays(a, b, w, data.config, {EmptyConfigType});
    var w1 := ReadBlob(a, w, data.config, {EmptyConfigType}).value.1;
    CheckBlobReplays(a, b, w1, data.subject.value, {ManifestType});
  }

  lemma LegacyReplays(a: Members, b: Members, w: Walk, d: Descriptor, data: Doc)
    requires LegacySubject(a, w, d, data).Accept?
    ensures var r := LegacySubject(a, w, d, data);
      Below(a, w, r.value.1) && (Agree(a, b, r.value.1) ==> LegacySubject(b, w, d, data) == r)
  {
    ReadBlobReplays(a, b, w, data.config, {ConfigType});
    assert Blob(d.referenceDigest.value) in LegacySubject(a, w, d, data).value.1.sized;
  }

  lemma AttestationReplays(arch: Arch, a: Members, b: Members, w: Walk, d: Descriptor, data: Doc)
    requires AttestationLeaf(arch, a, w, d, data).Accept?
    ensures var r := AttestationLeaf(arch, a, w, d, data);
      Below(a, w, r.value) && (Agree(a, b, r.value) ==> AttestationLeaf(arch, b, w, d, data) == r)
  {
    hide ArtifactSubject, LegacySubject, ReadStatements;
    var s := if data.artifact.Some? then ArtifactSubject(arch, a, w, d, data) else LegacySubject(a, w, d, data);
    if data.artifact.Some? {
      ArtifactReplays(arch, a, b, w, d, data);
    } else {
      LegacyReplays(a, b, w, d, data);
    }
    StatementsReplay(a, b, s.value.1, data.layers.value, s.value.0.digest);
  }

  lemma LeafReplays(p: Profile, a: Members, b: Members, w: Walk, d: Descriptor, data: Doc)
    requires Leaf(p, a, w, d, data).Accept?
    ensures var r := Leaf(p, a, w, d, data);
      Below(a, w, r.value) && (Agree(a, b, r.value) ==> Leaf(p, b, w, d, data) == r)
  {
    if p.Native? {
      if d.reference == Some(AttestationManifest) || data.artifact == Some(AttestationArtifact) {
        AttestationReplays(p.arch, a, b, w, d, data);
      } else {
        ImageReplays(p.arch, a, b, w, d, data);
      }
    } else if p.BothPlatforms? {
      ImageReplays(d.platform.value.arch.value, a, b, w, d, data);
    }
  }

  lemma EnterReplays(a: Members, b: Members, d: Descriptor, depth: nat, w: Walk)
    requires Enter(a, d, depth, w).Accept?
    ensures var r := Enter(a, d, depth, w);
      depth <= 8 && Below(a, w, r.value.1) && (Agree(a, b, r.value.1) ==> Enter(b, d, depth, w) == r)
  {
    ReadBlobReplays(a, b, w.(visited := w.visited + 1), Some(d), {IndexType, ManifestType});
  }

  lemma VisitReplays(p: Profile, a: Members, b: Members, w: Walk, d: Descriptor, data: Doc)
    requires VisitLeaf(p, a, w, d, data).Accept?
    ensures var r := VisitLeaf(p, a, w, d, data);
      Below(a, w, r.value) && (Agree(a, b, r.value) ==> VisitLeaf(p, b, w, d, data) == r)
  {
    LeafReplays(p, a, b, w, d, data);
  }

  lemma {:induction false} WalkOneReplays(p: Profile, a: Members, b: Members, d: Descriptor, depth: nat, w: Walk)
    requires depth <= 9 && WalkOne(p, a, d, depth, w).Accept?
    ensures var r := WalkOne(p, a, d, depth, w);
      Below(a, w, r.value) && (Agree(a, b, r.value) ==> WalkOne(p, b, d, depth, w) == r)
    decreases 10 - depth, 0, 0
  {
    hide Enter, VisitLeaf, WalkIndex;
    EnterReplays(a, b, d, depth, w);
    var (data, w1) := Enter(a, d, depth, w).value;
    if d.mediaType == IndexType {
      WalkIndexReplays(p, a, b, data, depth + 1, w1);
    } else {
      VisitReplays(p, a, b, w1, d, data);
    }
  }

  lemma {:induction false} WalkIndexReplays(p: Profile, a: Members, b: Members, data: Doc, depth: nat, w: Walk)
    requires depth <= 9 && WalkIndex(p, a, data, depth, w).Accept?
    ensures var r := WalkIndex(p, a, data, depth, w);
      Below(a, w, r.value) && (Agree(a, b, r.value) ==> WalkIndex(p, b, data, depth, w) == r)
    decreases 10 - depth, 2, 0
  {
    WalkAllReplays(p, a, b, data.manifests.value, depth, w);
  }

  lemma {:induction false} WalkAllReplays(p: Profile, a: Members, b: Members, children: seq<Descriptor>, depth: nat, w: Walk)
    requires depth <= 9 && WalkAll(p, a, children, depth, w).Accept?
    ensures var r := WalkAll(p, a, children, depth, w);
      Below(a, w, r.value) && (Agree(a, b, r.value) ==> WalkAll(p, b, children, depth, w) == r)
    decreases 10 - depth, 1, |children|
  {
    hide WalkOne;
    if children != [] {
      var most := children[..|children| - 1];
      WalkAllReplays(p, a, b, most, depth, w);
      WalkOneReplays(p, a, b, children[|children| - 1], depth, WalkAll(p, a, most, depth, w).value);
    }
  }

  /** The frame of a whole walk. */
  lemma WalkReplays(p: Profile, a: Members, b: Members)
    requires WalkArchive(p, a).Accept?
    ensures Within(a, WalkArchive(p, a).value)
    ensures Agree(a, b, WalkArchive(p, a).value) ==> WalkArchive(p, b) == WalkArchive(p, a)
  {
    hide ReadJson, WalkAll;
    ReadJsonReplays(a, b, START, Layout, MAX_JSON);
    var w1 := ReadJson(a, START, Layout, MAX_JSON).value.1;
    ReadJsonReplays(a, b, w1, Root, MAX_JSON);
    var (root, w2) := ReadJson(a, w1, Root, MAX_JSON).value;
    WalkAllReplays(p, a, b, root.manifests.value, 0, w2);
  }
}
