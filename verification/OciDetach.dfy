/**
 Detaching: two native archives become one set of runnable blobs plus the saved graph metadata, from
 which each original walk can be replayed.
 */
module OciDetach {
  import opened Basics
  import opened OciArchive
  import opened OciReplay

  /** Blobs are named by their digest: `bytesOf` gives the one content a digest stands for. */
  ghost predicate ContentAddressed(m: Members, bytesOf: Digest -> Content) {
    forall d: Digest :: Blob(d) in m ==> m[Blob(d)] == bytesOf(d)
  }

  // ----- what a native walk leaves behind

  /** The image's manifest, config and layers. */
  function RuntimeNames(m: Members, i: Image): set<Name> {
    {Blob(i.descriptor.digest), Blob(i.config)} + LayerNamesOf(m, i.descriptor.digest)
  }

  function LayerNamesOf(m: Members, manifest: Digest): set<Name> {
    if Blob(manifest) in m && m[Blob(manifest)].doc.Some? && m[Blob(manifest)].doc.value.layers.Some? then
      NamesOf(m[Blob(manifest)].doc.value.layers.value)
    else {}
  }

  function NamesOf(ds: seq<Descriptor>): set<Name> {
    set d | d in ds :: Blob(d.digest)
  }

  /** An image in the result was built for `arch`, says its config. */
  ghost predicate BuiltFor(arch: Arch, m: Members, i: Image) {
    && Blob(i.descriptor.digest) in m && Blob(i.config) in m
    && m[Blob(i.descriptor.digest)].doc.Some? && m[Blob(i.config)].doc.Some?
    && m[Blob(i.descriptor.digest)].doc.value.config.Some?
    && m[Blob(i.descriptor.digest)].doc.value.config.value.digest == i.config
    && m[Blob(i.config)].doc.value.platform.arch == Some(arch)
  }

  /** Layers were decoded, and sizes alone checked, only for images and for attestation subjects. */
  ghost predicate Footprint(arch: Arch, m: Members, w: Walk) {
    && (forall n :: n in w.layerNames ==> exists i :: i in w.images && n in RuntimeNames(m, i))
    && (forall n :: n in w.sized ==>
          || n in w.metadataNames
          || (exists i :: i in w.images && n in RuntimeNames(m, i))
          || (exists t :: t in w.attestations && n == Blob(t.subject.digest)))
    && (forall i :: i in w.images ==> BuiltFor(arch, m, i))
  }

  /** Same results so far; only listed names were added to what was touched. */
  ghost predicate Touches(w: Walk, w': Walk, layers: set<Name>, sized: set<Name>) {
    && w'.images == w.images && w'.attestations == w.attestations && w'.leaves == w.leaves
    && w.metadataNames <= w'.metadataNames
    && w'.layerNames <= w.layerNames + layers
    && w'.sized <= w.sized + w'.metadataNames + sized
  }

  lemma ReadBlobTouches(m: Members, w: Walk, d: Option<Descriptor>, types: set<MediaType>)
    requires ReadBlob(m, w, d, types).Accept?
    ensures var r := ReadBlob(m, w, d, types).value;
      Touches(w, r.1, {}, {}) && Blob(d.value.digest) in m && m[Blob(d.value.digest)].doc == Some(r.0)
  {
  }

  lemma {:induction false} CheckBlobsTouches(m: Members, w: Walk, ds: seq<Descriptor>, types: set<MediaType>)
    requires CheckBlobs(m, w, ds, types).Accept?
    ensures Touches(w, CheckBlobs(m, w, ds, types).value, {}, NamesOf(ds))
    decreases |ds|
  {
    if ds != [] {
      CheckBlobsTouches(m, CheckBlob(m, w, ds[0], types).value, ds[1..], types);
    }
  }

  lemma {:induction false} CheckLayersTouches(m: Members, w: Walk, layers: seq<Descriptor>, diffIds: seq<Digest>)
    requires |layers| == |diffIds| && CheckLayers(m, w, layers, diffIds).Accept?
    ensures Touches(w, CheckLayers(m, w, layers, diffIds).value, NamesOf(layers), {})
    decreases |layers|
  {
    if layers != [] {
      CheckLayersTouches(m, LayerDigest(m, w, layers[0]).value.1, layers[1..], diffIds[1..]);
    }
  }

  lemma {:induction false} StatementsTouch(m: Members, w: Walk, layers: seq<Descriptor>, subject: Digest)
    requires ReadStatements(m, w, layers, subject).Accept?
    ensures Touches(w, ReadStatements(m, w, layers, subject).value.1, {}, {})
    decreases |layers|
  {
    if layers != [] {
      var name := Blob(layers[0].digest);
      var w2 := ReadJson(m, CheckBlob(m, w, layers[0], {InToto}).value, name, MAX_ATTESTATION_JSON).value.1;
      StatementsTouch(m, w2.(attestationNames := w2.attestationNames + {name}), layers[1..], subject);
    }
  }

  lemma ImageFootprint(arch: Arch, m: Members, w: Walk, d: Descriptor, data: Doc)
    requires Footprint(arch, m, w) && ImageLeaf(arch, m, w, d, data).Accept?
    requires Blob(d.digest) in m && m[Blob(d.digest)].doc == Some(data)
    ensures Footprint(arch, m, ImageLeaf(arch, m, w, d, data).value)
  {
    var r := ImageLeaf(arch, m, w, d, data).value;
    ReadBlobTouches(m, w, data.config, {ConfigType});
    var (details, w1) := ReadBlob(m, w, data.config, {ConfigType}).value;
    CheckBlobsTouches(m, w1, data.layers.value, LAYER_TYPES);
    var w2 := CheckBlobs(m, w1, data.layers.value, LAYER_TYPES).value;
    CheckLayersTouches(m, w2, data.layers.value, details.diffIds.value);
    var i := Image(KeyOf(d), data.config.value.digest);
    assert r.images == w.images + [i];
    assert LayerNamesOf(m, i.descriptor.digest) == NamesOf(data.layers.value);
    assert i in r.images && forall j :: j in w.images ==> j in r.images;
    assert r.layerNames <= w.layerNames + RuntimeNames(m, i);
    assert r.sized <= w.sized + r.metadataNames + RuntimeNames(m, i);
  }

  lemma SubjectTouches(arch: Arch, m: Members, w: Walk, d: Descriptor, data: Doc)
    requires (if data.artifact.Some? then ArtifactSubject(arch, m, w, d, data) else LegacySubject(m, w, d, data)).Accept?
    ensures var (subject, w1) :=
        (if data.artifact.Some? then ArtifactSubject(arch, m, w, d, data) else LegacySubject(m, w, d, data)).value;
      Touches(w, w1, {}, {Blob(subject.digest)})
  {
  }

  lemma AttestationFootprint(arch: Arch, m: Members, w: Walk, d: Descriptor, data: Doc)
    requires Footprint(arch, m, w) && AttestationLeaf(arch, m, w, d, data).Accept?
    ensures Footprint(arch, m, AttestationLeaf(arch, m, w, d, data).value)
  {
    var r := AttestationLeaf(arch, m, w, d, data).value;
    SubjectTouches(arch, m, w, d, data);
    var (subject, w1) :=
      (if data.artifact.Some? then ArtifactSubject(arch, m, w, d, data) else LegacySubject(m, w, d, data)).value;
    StatementsTouch(m, w1, data.layers.value, subject.digest);
    var t := r.attestations[|r.attestations| - 1];
    assert r.attestations == w.attestations + [t] && t.subject == subject;
    assert t in r.attestations && forall j :: j in w.attestations ==> j in r.attestations;
    assert r.sized <= w.sized + r.metadataNames + {Blob(subject.digest)};
  }

  lemma {:induction false} WalkOneFootprint(arch: Arch, m: Members, d: Descriptor, depth: nat, w: Walk)
    requires depth <= 9 && Footprint(arch, m, w) && WalkOne(Native(arch), m, d, depth, w).Accept?
    ensures Footprint(arch, m, WalkOne(Native(arch), m, d, depth, w).value)
    decreases 10 - depth, 0, 0
  {
    hide ReadBlob, ImageLeaf, AttestationLeaf;
    var w0 := w.(visited := w.visited + 1);
    ReadBlobTouches(m, w0, Some(d), {IndexType, ManifestType});
    var (data, w1) := ReadBlob(m, w0, Some(d), {IndexType, ManifestType}).value;
    assert Footprint(arch, m, w1);
    if d.mediaType == IndexType {
      WalkAllFootprint(arch, m, data.manifests.value, depth + 1, w1);
    } else if d.reference == Some(AttestationManifest) || data.artifact == Some(AttestationArtifact) {
      AttestationFootprint(arch, m, w1, d, data);
    } else {
      ImageFootprint(arch, m, w1, d, data);
    }
  }

  lemma {:induction false} WalkAllFootprint(arch: Arch, m: Members, children: seq<Descriptor>, depth: nat, w: Walk)
    requires depth <= 9 && Footprint(arch, m, w) && WalkAll(Native(arch), m, children, depth, w).Accept?
    ensures Footprint(arch, m, WalkAll(Native(arch), m, children, depth, w).value)
    decreases 10 - depth, 1, |children|
  {
    if children != [] {
      var most := children[..|children| - 1];
      WalkAllFootprint(arch, m, most, depth, w);
      WalkOneFootprint(arch, m, children[|children| - 1], depth, WalkAll(Native(arch), m, most, depth, w).value);
    }
  }

  lemma ArchiveFootprint(arch: Arch, m: Members)
    requires WalkArchive(Native(arch), m).Accept?
    ensures Footprint(arch, m, WalkArchive(Native(arch), m).value)
  {
    var w1 := ReadJson(m, START, Layout, MAX_JSON).value.1;
    var (root, w2) := ReadJson(m, w1, Root, MAX_JSON).value;
    WalkAllFootprint(arch, m, root.manifests.value, 0, w2);
  }

  // ----- splitting and overlaying

  function Restrict(m: Members, names: set<Name>): Members {
    map n | n in m && n in names :: m[n]
  }

  function RuntimeBlobs(m: Members, w: Walk): Members
    requires CompleteGraph(w)
  {
    Restrict(m, RuntimeNames(m, w.images[0]))
  }

  /** Every metadata blob the walk read, byte for byte. */
  function SavedMetadata(m: Members, w: Walk): Members {
    Restrict(m, set n | n in w.metadataNames && n.Blob?)
  }

  /** The runnable archive: its own generated index and both platforms' runnable blobs. */
  function Runnable(generated: Members, a: Members, wa: Walk, b: Members, wb: Walk): Members
    requires CompleteGraph(wa) && CompleteGraph(wb)
  {
    RuntimeBlobs(a, wa) + RuntimeBlobs(b, wb) + generated
  }

  /** What is replayed: the runnable archive, the saved metadata of both, and one original's root and layout. */
  function Overlay(runnable: Members, metadata: Members, original: Members): Members
    requires Root in original && Layout in original
  {
    runnable + metadata + map[Root := original[Root], Layout := original[Layout]]
  }

  /** A blob in the overlay is the archive's own: both are named by their digest. */
  lemma SameBlob(m: Members, runnable: Members, metadata: Members, bytesOf: Digest -> Content, n: Name)
    requires ContentAddressed(m, bytesOf) && ContentAddressed(runnable, bytesOf) && ContentAddressed(metadata, bytesOf)
    requires Root in m && Layout in m && n in m && n.Blob? && n in runnable.Keys + metadata.Keys
    ensures n in Overlay(runnable, metadata, m) && Overlay(runnable, metadata, m)[n] == m[n]
  {
    assert m[Blob(n.digest)] == bytesOf(n.digest);
  }

  lemma OverlayAgrees(arch: Arch, m: Members, w: Walk, runnable: Members, metadata: Members, bytesOf: Digest -> Content)
    requires CompleteGraph(w) && Root in m && Layout in m && Within(m, w) && Footprint(arch, m, w)
    requires ContentAddressed(m, bytesOf) && ContentAddressed(runnable, bytesOf) && ContentAddressed(metadata, bytesOf)
    requires RuntimeBlobs(m, w).Keys <= runnable.Keys && SavedMetadata(m, w).Keys <= metadata.Keys
    requires forall n :: n in metadata ==> n.Blob?
    ensures Agree(m, Overlay(runnable, metadata, m), w)
  {
    var o := Overlay(runnable, metadata, m);
    forall n | n in w.metadataNames + w.layerNames + w.sized
      ensures n in o && o[n] == m[n]
    {
      if n in w.metadataNames {
        if n.Blob? {
          assert n in SavedMetadata(m, w);
          SameBlob(m, runnable, metadata, bytesOf, n);
        }
      } else {
        RuntimeListed(arch, m, w, n);
        SameBlob(m, runnable, metadata, bytesOf, n);
      }
    }
  }

  lemma RuntimeListed(arch: Arch, m: Members, w: Walk, n: Name)
    requires CompleteGraph(w) && Within(m, w) && Footprint(arch, m, w)
    requires n in w.layerNames + w.sized && n !in w.metadataNames
    ensures n in RuntimeBlobs(m, w) && n.Blob?
  {
    hide Footprint;
    RuntimeOnly(arch, m, w, n);
  }

  /** Beyond its metadata, a complete native walk touched only the blobs of its one image. */
  lemma RuntimeOnly(arch: Arch, m: Members, w: Walk, n: Name)
    requires Footprint(arch, m, w) && CompleteGraph(w) && n in w.layerNames + w.sized && n !in w.metadataNames
    ensures n in RuntimeNames(m, w.images[0])
  {
    if t :| t in w.attestations && n == Blob(t.subject.digest) {
      var k :| 0 <= k < |w.attestations| && w.attestations[k] == t;
    } else {
      var i :| i in w.images && n in RuntimeNames(m, i);
      var k :| 0 <= k < |w.images| && w.images[k] == i;
    }
  }

  lemma RootIsRead(p: Profile, m: Members)
    requires WalkArchive(p, m).Accept?
    ensures Root in m && Layout in m
  {
  }

  /** One platform's walk is replayed from the runnable blobs and the saved metadata. */
  lemma ReplaysFrom(arch: Arch, m: Members, w: Walk, runnable: Members, metadata: Members, bytesOf: Digest -> Content)
    requires WalkArchive(Native(arch), m) == Accept(w) && CompleteGraph(w)
    requires ContentAddressed(m, bytesOf) && ContentAddressed(runnable, bytesOf) && ContentAddressed(metadata, bytesOf)
    requires RuntimeBlobs(m, w).Keys <= runnable.Keys && SavedMetadata(m, w).Keys <= metadata.Keys
    requires forall n :: n in metadata ==> n.Blob?
    ensures Root in m && Layout in m
    ensures WalkArchive(Native(arch), Overlay(runnable, metadata, m)) == Accept(w)
  {
    RootIsRead(Native(arch), m);
    ArchiveFootprint(arch, m);
    WalkReplays(Native(arch), m, Overlay(runnable, metadata, m));
    OverlayAgrees(arch, m, w, runnable, metadata, bytesOf);
  }

  /**
   Detach loses nothing: for both platforms the walk of the overlay ends exactly as the walk of the
   original did - leaves, images, attestations, budgets and names - and each saved metadata blob is used.
   */
  lemma DetachLosesNothing(a: Members, wa: Walk, b: Members, wb: Walk, generated: Members, bytesOf: Digest -> Content)
    requires WalkArchive(Native(Amd64), a) == Accept(wa) && CompleteGraph(wa)
    requires WalkArchive(Native(Arm64), b) == Accept(wb) && CompleteGraph(wb)
    requires ContentAddressed(a, bytesOf) && ContentAddressed(b, bytesOf) && ContentAddressed(generated, bytesOf)
    ensures Root in a && Layout in a && Root in b && Layout in b
    ensures var runnable := Runnable(generated, a, wa, b, wb);
      var metadata := SavedMetadata(a, wa) + SavedMetadata(b, wb);
      && WalkArchive(Native(Amd64), Overlay(runnable, metadata, a)) == Accept(wa)
      && WalkArchive(Native(Arm64), Overlay(runnable, metadata, b)) == Accept(wb)
      && metadata.Keys <= wa.metadataNames + wb.metadataNames
  {
    var runnable := Runnable(generated, a, wa, b, wb);
    var metadata := SavedMetadata(a, wa) + SavedMetadata(b, wb);
    ReplaysFrom(Amd64, a, wa, runnable, metadata, bytesOf);
    ReplaysFrom(Arm64, b, wb, runnable, metadata, bytesOf);
  }
}
