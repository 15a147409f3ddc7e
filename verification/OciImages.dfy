/**
 What a walk makes of a runnable image: which conditions depend on the image alone, and which on the budgets
 that the walk has left.
 */
module OciImages {
  import opened Basics
  import opened OciArchive
  import opened OciDetach
  import opened OciMerge

  // ----- one image

  predicate BlobFits(m: Members, d: Descriptor, types: set<MediaType>) {
    d.mediaType in types && d.plain && Blob(d.digest) in m && m[Blob(d.digest)].size == d.size
  }

  /** The layer decodes to the listed digest, within the limit for one layer. */
  predicate LayerFits(m: Members, d: Descriptor, diffId: Digest) {
    && Blob(d.digest) in m && d.mediaType in m[Blob(d.digest)].expanded
    && m[Blob(d.digest)].expanded[d.mediaType].0 == diffId && m[Blob(d.digest)].expanded[d.mediaType].1 <= 8_589_934_592
  }

  /** The decoded size of all layers. */
  function LayersSize(m: Members, layers: seq<Descriptor>): nat {
    if layers == [] then 0
    else DecodedSize(m, layers[0]) + LayersSize(m, layers[1..])
  }

  predicate ConfigFits(m: Members, config: Option<Descriptor>) {
    && config.Some? && BlobFits(m, config.value, {ConfigType})
    && 0 < config.value.size <= 2_000_000 && m[Blob(config.value.digest)].doc.Some?
  }

  /** Linux on this architecture, in no variant but v8 on ARM, and nothing more is required. */
  predicate PlatformFits(arch: Arch, p: Platform) {
    && p.os == Some(Linux) && p.arch == Some(arch) && !p.requirements
    && (p.variant.Some? ==> arch == Arm64 && p.variant.value == "v8")
  }

  /** All that is asked of an image but the budgets. */
  predicate ImageFits(arch: Arch, m: Members, d: Descriptor, data: Doc) {
    && ConfigFits(m, data.config)
    && var details := m[Blob(data.config.value.digest)].doc.value;
       && d.platform.Some? && PlatformFits(arch, d.platform.value) && PlatformFits(arch, details.platform) && details.labelsOk
       && data.layers.Some? && |data.layers.value| <= 4096
       && (forall k :: 0 <= k < |data.layers.value| ==> BlobFits(m, data.layers.value[k], {LayerType(0), LayerType(1), LayerType(2)}))
       && details.diffIds.Some? && |details.diffIds.value| == |data.layers.value|
       && LayersFit(m, data.layers.value, details.diffIds.value)
  }

  predicate LayersFit(m: Members, layers: seq<Descriptor>, diffIds: seq<Digest>)
    requires |layers| == |diffIds|
  {
    forall k :: 0 <= k < |layers| ==> LayerFits(m, layers[k], diffIds[k])
  }

  /** The blob decodes to this digest and size. */
  predicate Decodes(m: Members, key: (Digest, MediaType), decoded: (Digest, nat)) {
    && Blob(key.0) in m && key.1 in m[Blob(key.0)].expanded && m[Blob(key.0)].expanded[key.1] == decoded
    && decoded.1 <= 8_589_934_592
  }

  /** What the walk remembers of a layer is what its blob decodes to. */
  ghost predicate Remembered(m: Members, w: Walk) {
    && w.rootfsBytes <= MAX_ROOTFS_BYTES
    && forall key :: key in w.layerIdentities ==> Decodes(m, key, w.layerIdentities[key]) && Blob(key.0) in w.layerNames
  }

  lemma {:induction false} BlobsExactly(m: Members, w: Walk, ds: seq<Descriptor>, types: set<MediaType>)
    ensures var r := CheckBlobs(m, w, ds, types);
      && (r.Accept? <==> forall k :: 0 <= k < |ds| ==> BlobFits(m, ds[k], types))
      && (r.Accept? ==> r.value == w.(sized := r.value.sized))
    decreases |ds|
  {
    if ds != [] {
      assert forall k :: 1 <= k < |ds| ==> ds[1..][k - 1] == ds[k];
      var first := CheckBlob(m, w, ds[0], types);
      if first.Accept? {
        BlobsExactly(m, first.value, ds[1..], types);
        assert forall k :: 0 <= k < |ds| - 1 ==> ds[1..][k] == ds[k + 1];
      }
    }
  }

  function DecodedSize(m: Members, d: Descriptor): nat {
    var name := Blob(d.digest);
    if name in m && d.mediaType in m[name].expanded then m[name].expanded[d.mediaType].1 else 0
  }

  /** What accepting a layer makes of the walk: its size is used up and its blob recorded as one of the layers. */
  ghost predicate LayerDone(m: Members, w: Walk, r: Walk, d: Descriptor) {
    && Remembered(m, r) && r.rootfsBytes == w.rootfsBytes + DecodedSize(m, d) && r.layerNames == w.layerNames + {Blob(d.digest)}
    && r == w.(rootfsBytes := r.rootfsBytes, layerNames := r.layerNames, layerIdentities := r.layerIdentities)
  }

  lemma LayerAccepted(m: Members, w: Walk, d: Descriptor, diffId: Digest)
    requires Remembered(m, w)
    ensures var r := LayerDigest(m, w, d);
      r.Accept? && r.value.0 == diffId <==> LayerFits(m, d, diffId) && w.rootfsBytes + DecodedSize(m, d) <= MAX_ROOTFS_BYTES
  {
    var key := (d.digest, d.mediaType);
    assert key in w.layerIdentities ==> Decodes(m, key, w.layerIdentities[key]);
  }

  lemma LayerRecorded(m: Members, w: Walk, d: Descriptor)
    requires Remembered(m, w) && LayerDigest(m, w, d).Accept?
    ensures LayerDone(m, w, LayerDigest(m, w, d).value.1, d)
  {
    var key, r := (d.digest, d.mediaType), LayerDigest(m, w, d).value.1;
    if key in w.layerIdentities {
      LayerKnown(m, w, r, d, key);
    } else {
      LayerNew(m, w, r, d, key);
    }
  }

  lemma LayerKnown(m: Members, w: Walk, r: Walk, d: Descriptor, key: (Digest, MediaType))
    requires Remembered(m, w) && key == (d.digest, d.mediaType) && key in w.layerIdentities
    requires r == w.(rootfsBytes := w.rootfsBytes + w.layerIdentities[key].1) && r.rootfsBytes <= MAX_ROOTFS_BYTES
    ensures LayerDone(m, w, r, d)
  {
    assert Decodes(m, key, w.layerIdentities[key]) && Blob(key.0) in w.layerNames;
    assert r.layerNames == w.layerNames + {Blob(d.digest)};
  }

  lemma LayerNew(m: Members, w: Walk, r: Walk, d: Descriptor, key: (Digest, MediaType))
    requires Remembered(m, w) && key == (d.digest, d.mediaType) && Blob(d.digest) in m && d.mediaType in m[Blob(d.digest)].expanded
    requires var decoded: (Digest, nat) := m[Blob(d.digest)].expanded[d.mediaType];
      && decoded.1 <= MAX_LAYER_BYTES && w.rootfsBytes + decoded.1 <= MAX_ROOTFS_BYTES
      && r == w.(rootfsBytes := w.rootfsBytes + decoded.1, layerNames := w.layerNames + {Blob(d.digest)},
                 layerIdentities := w.layerIdentities[key := decoded])
    ensures LayerDone(m, w, r, d)
  {
    forall k | k in r.layerIdentities ensures Decodes(m, k, r.layerIdentities[k]) && Blob(k.0) in r.layerNames {
      if k != key {
        assert k in w.layerIdentities;
      }
    }
  }

  /** Layers are accepted when each of them fits and all of them are within the budget left. */
  lemma {:induction false} LayersExactly(m: Members, w: Walk, layers: seq<Descriptor>, diffIds: seq<Digest>)
    requires |layers| == |diffIds| && Remembered(m, w)
    ensures var r := CheckLayers(m, w, layers, diffIds);
      && (r.Accept? <==> LayersFit(m, layers, diffIds) && w.rootfsBytes + LayersSize(m, layers) <= MAX_ROOTFS_BYTES)
      && (r.Accept? ==> LayersDone(m, w, r.value, layers))
    decreases |layers|
  {
    if layers != [] {
      LayerAccepted(m, w, layers[0], diffIds[0]);
      FitFront(m, layers, diffIds);
      var first := LayerDigest(m, w, layers[0]);
      if first.Accept? && first.value.0 == diffIds[0] {
        LayerRecorded(m, w, layers[0]);
        LayersExactly(m, first.value.1, layers[1..], diffIds[1..]);
        NamesFront(layers);
      }
    }
  }

  ghost predicate LayersDone(m: Members, w: Walk, r: Walk, layers: seq<Descriptor>) {
    && Remembered(m, r) && r.rootfsBytes == w.rootfsBytes + LayersSize(m, layers) && r.layerNames == w.layerNames + NamesOf(layers)
    && r == w.(rootfsBytes := r.rootfsBytes, layerNames := r.layerNames, layerIdentities := r.layerIdentities)
  }

  lemma FitFront(m: Members, layers: seq<Descriptor>, diffIds: seq<Digest>)
    requires |layers| == |diffIds| > 0
    ensures LayersFit(m, layers, diffIds) <==> LayerFits(m, layers[0], diffIds[0]) && LayersFit(m, layers[1..], diffIds[1..])
  {
    if LayersFit(m, layers[1..], diffIds[1..]) && LayerFits(m, layers[0], diffIds[0]) {
      forall k | 0 <= k < |layers| ensures LayerFits(m, layers[k], diffIds[k]) {
        assert k > 0 ==> LayerFits(m, layers[1..][k - 1], diffIds[1..][k - 1]);
      }
    }
  }

  lemma NamesFront(layers: seq<Descriptor>)
    requires layers != []
    ensures NamesOf(layers) == {Blob(layers[0].digest)} + NamesOf(layers[1..])
  {
    assert layers == [layers[0]] + layers[1..];
  }

  /** What accepting an image makes of the walk. */
  ghost predicate ImageDone(m: Members, w: Walk, r: Walk, d: Descriptor, data: Doc)
    requires data.config.Some? && data.layers.Some?
  {
    var config, layers := data.config.value, data.layers.value;
    && Remembered(m, r) && r.rootfsBytes == w.rootfsBytes + LayersSize(m, layers) && r.layerNames == w.layerNames + NamesOf(layers)
    && r.metadataBytes == w.metadataBytes + config.size && r.metadataNames == w.metadataNames + {Blob(config.digest)}
    && r.images == w.images + [Image(KeyOf(d), config.digest)]
    && r == w.(rootfsBytes := r.rootfsBytes, layerNames := r.layerNames, layerIdentities := r.layerIdentities,
               metadataBytes := r.metadataBytes, metadataNames := r.metadataNames, sized := r.sized, images := r.images)
  }

  lemma PlatformExactly(arch: Arch, declared: Platform, built: Platform)
    ensures PlatformOk(arch, declared, built) <==> PlatformFits(arch, declared) && PlatformFits(arch, built)
  {
    VariantExactly(declared.variant);
    VariantExactly(built.variant);
  }

  lemma VariantExactly(variant: Option<string>)
    ensures variant in {None, Some("v8")} <==> (variant.Some? ==> variant.value == "v8")
    ensures variant in {None} <==> variant.None?
  {
    if variant.Some? && variant.value == "v8" {
      assert variant == Some("v8");
    }
  }

  lemma ConfigExactly(m: Members, w: Walk, config: Option<Descriptor>)
    ensures var r := ReadBlob(m, w, config, {ConfigType});
      && (r.Accept? <==> ConfigFits(m, config) && w.metadataBytes + config.value.size <= 32_000_000)
      && (r.Accept? ==> ConfigRead(m, w, r.value.1, config, r.value.0))
  {
  }

  /** What reading a config makes of the walk. */
  ghost predicate ConfigRead(m: Members, w: Walk, r: Walk, config: Option<Descriptor>, details: Doc) {
    && config.Some? && Blob(config.value.digest) in m && m[Blob(config.value.digest)].doc == Some(details)
    && r == w.(sized := w.sized + {Blob(config.value.digest)}, metadataNames := w.metadataNames + {Blob(config.value.digest)},
               metadataBytes := w.metadataBytes + config.value.size)
  }

  /** What is asked of an image beside its config's blob. */
  predicate DetailsFit(arch: Arch, m: Members, d: Descriptor, data: Doc, details: Doc) {
    && d.platform.Some? && PlatformFits(arch, d.platform.value) && PlatformFits(arch, details.platform) && details.labelsOk
    && data.layers.Some? && |data.layers.value| <= 4096
    && (forall k :: 0 <= k < |data.layers.value| ==> BlobFits(m, data.layers.value[k], {LayerType(0), LayerType(1), LayerType(2)}))
    && details.diffIds.Some? && |details.diffIds.value| == |data.layers.value|
    && LayersFit(m, data.layers.value, details.diffIds.value)
  }

  lemma FitsByParts(arch: Arch, m: Members, d: Descriptor, data: Doc, details: Doc)
    requires data.config.Some? && Blob(data.config.value.digest) in m && m[Blob(data.config.value.digest)].doc == Some(details)
    ensures ImageFits(arch, m, d, data) <==> ConfigFits(m, data.config) && DetailsFit(arch, m, d, data, details)
  {
    hide PlatformFits, BlobFits, LayersFit;
  }

  /** The part of `ImageLeaf` after the config is read. */
  function AfterConfig(arch: Arch, m: Members, w1: Walk, d: Descriptor, data: Doc, details: Doc): Result<Walk>
    requires data.config.Some?
  {
    var _ :- Need(d.platform.Some? && PlatformOk(arch, d.platform.value, details.platform) && details.labelsOk);
    var _ :- Need(data.layers.Some? && |data.layers.value| <= MAX_LAYERS);
    var w2 :- CheckBlobs(m, w1, data.layers.value, LAYER_TYPES);
    var _ :- Need(details.diffIds.Some? && |details.diffIds.value| == |data.layers.value|);
    var w3 :- CheckLayers(m, w2, data.layers.value, details.diffIds.value);
    Accept(w3.(images := w3.images + [Image(KeyOf(d), data.config.value.digest)]))
  }

  lemma LeafByParts(arch: Arch, m: Members, w: Walk, d: Descriptor, data: Doc)
    ensures var read := ReadBlob(m, w, data.config, {ConfigType});
      && (read.Accept? ==> data.config.Some?)
      && ImageLeaf(arch, m, w, d, data) ==
           if read.Accept? then AfterConfig(arch, m, read.value.1, d, data, read.value.0) else Reject
  {
    hide PlatformOk, CheckBlobs, CheckLayers, LAYER_TYPES;
  }

  lemma {:induction false} DetailsExactly(arch: Arch, m: Members, w: Walk, w1: Walk, d: Descriptor, data: Doc, details: Doc)
    requires Remembered(m, w) && ConfigRead(m, w, w1, data.config, details)
    ensures var r := AfterConfig(arch, m, w1, d, data, details);
      && (r.Accept? <==> DetailsFit(arch, m, d, data, details) && w.rootfsBytes + LayersSize(m, data.layers.value) <= 34_359_738_368)
      && (r.Accept? ==> ImageDone(m, w, r.value, d, data))
  {
    hide PlatformOk, PlatformFits, BlobFits, LayersFit, LayersSize, CheckBlobs, CheckLayers, Decodes;
    if d.platform.Some? {
      PlatformExactly(arch, d.platform.value, details.platform);
    }
    if data.layers.Some? {
      BlobsExactly(m, w1, data.layers.value, LAYER_TYPES);
      var blobs := CheckBlobs(m, w1, data.layers.value, LAYER_TYPES);
      if blobs.Accept? && details.diffIds.Some? && |details.diffIds.value| == |data.layers.value| {
        LayersExactly(m, blobs.value, data.layers.value, details.diffIds.value);
      }
    }
  }

  /** An image is accepted when it fits and the budgets are not exceeded. */
  lemma {:induction false} ImageExactly(arch: Arch, m: Members, w: Walk, d: Descriptor, data: Doc)
    requires Remembered(m, w)
    ensures var r := ImageLeaf(arch, m, w, d, data);
      && (r.Accept? <==>
            && ImageFits(arch, m, d, data) && w.metadataBytes + data.config.value.size <= 32_000_000
            && w.rootfsBytes + LayersSize(m, data.layers.value) <= 34_359_738_368)
      && (r.Accept? ==> ImageDone(m, w, r.value, d, data))
  {
    hide ImageLeaf, ReadBlob, AfterConfig, LayersSize, LayersFit, Remembered;
    ConfigExactly(m, w, data.config);
    LeafByParts(arch, m, w, d, data);
    var read := ReadBlob(m, w, data.config, {ConfigType});
    if read.Accept? {
      FitsByParts(arch, m, d, data, read.value.0);
      DetailsExactly(arch, m, w, read.value.1, d, data, read.value.0);
    }
  }

  // ----- the images of a native walk

  /** The manifest of an accepted leaf that is an image. */
  ghost predicate IsImage(arch: Arch, m: Members, d: Descriptor, i: Image) {
    && Blob(d.digest) in m && m[Blob(d.digest)].doc.Some? && KeyOf(d) == i.descriptor
    && var data := m[Blob(d.digest)].doc.value;
       && data.artifact.None? && data.subject.None? && d.artifact.None? && d.reference.None?
       && ImageFits(arch, m, d, data) && data.config.value.digest == i.config
  }

  function ManifestSize(m: Members, digest: Digest): nat {
    if Blob(digest) in m && m[Blob(digest)].doc.Some? && m[Blob(digest)].doc.value.layers.Some?
    then LayersSize(m, m[Blob(digest)].doc.value.layers.value)
    else 0
  }

  function ImagesSize(m: Members, images: seq<Image>): nat {
    if images == [] then 0
    else ImagesSize(m, images[..|images| - 1]) + ManifestSize(m, images[|images| - 1].descriptor.digest)
  }

  /** Every image is a leaf that fits, and the budget used is the decoded size of their layers. */
  ghost predicate ImagesOk(arch: Arch, m: Members, w: Walk) {
    && Remembered(m, w) && w.rootfsBytes == ImagesSize(m, w.images)
    && (forall i :: i in w.images ==> exists d :: d in w.leaves && IsImage(arch, m, d, i))
    && (forall n :: n in w.metadataNames ==> ReadWithin(m, w, n))
  }

  /** A document that was read: only one read as a statement may be larger than the other documents. */
  predicate ReadWithin(m: Members, w: Walk, n: Name) {
    n in m && 0 < m[n].size <= if n in w.attestationNames then MAX_ATTESTATION_JSON else MAX_JSON
  }

  /** Only metadata was read. */
  ghost predicate MetadataOnly(m: Members, w: Walk, r: Walk) {
    && r.images == w.images && r.leaves == w.leaves
    && r.rootfsBytes == w.rootfsBytes && r.layerNames == w.layerNames && r.layerIdentities == w.layerIdentities
    && w.attestationNames <= r.attestationNames
    && forall n :: n in r.metadataNames ==> n in w.metadataNames || ReadWithin(m, r, n)
  }

  lemma {:induction false} StatementsRead(m: Members, w: Walk, layers: seq<Descriptor>, subject: Digest)
    requires ReadStatements(m, w, layers, subject).Accept?
    ensures MetadataOnly(m, w, ReadStatements(m, w, layers, subject).value.1)
    decreases |layers|
  {
    if layers != [] {
      var name := Blob(layers[0].digest);
      var w2 := ReadJson(m, CheckBlob(m, w, layers[0], {InToto}).value, name, MAX_ATTESTATION_JSON).value.1;
      StatementsRead(m, w2.(attestationNames := w2.attestationNames + {name}), layers[1..], subject);
    }
  }

  lemma SubjectRead(arch: Arch, m: Members, w: Walk, d: Descriptor, data: Doc)
    requires (if data.artifact.Some? then ArtifactSubject(arch, m, w, d, data) else LegacySubject(m, w, d, data)).Accept?
    ensures MetadataOnly(m, w,
      (if data.artifact.Some? then ArtifactSubject(arch, m, w, d, data) else LegacySubject(m, w, d, data)).value.1)
  {
  }

  lemma AttestationRead(arch: Arch, m: Members, w: Walk, d: Descriptor, data: Doc)
    requires AttestationLeaf(arch, m, w, d, data).Accept?
    ensures MetadataOnly(m, w, AttestationLeaf(arch, m, w, d, data).value)
  {
    SubjectRead(arch, m, w, d, data);
    var s := if data.artifact.Some? then ArtifactSubject(arch, m, w, d, data) else LegacySubject(m, w, d, data);
    StatementsRead(m, s.value.1, data.layers.value, s.value.0.digest);
  }

  lemma MetadataKeepsImages(arch: Arch, m: Members, w: Walk, r: Walk)
    requires ImagesOk(arch, m, w) && MetadataOnly(m, w, r)
    ensures ImagesOk(arch, m, r)
  {
    forall n | n in r.metadataNames ensures ReadWithin(m, r, n) {
      assert n in w.metadataNames ==> ReadWithin(m, w, n);
    }
  }

  lemma LeafKeepsImages(arch: Arch, m: Members, w: Walk, r: Walk, d: Descriptor)
    requires ImagesOk(arch, m, w) && r == w.(leaves := w.leaves + [d])
    ensures ImagesOk(arch, m, r)
  {
    forall i | i in r.images ensures exists l :: l in r.leaves && IsImage(arch, m, l, i) {
      var l :| l in w.leaves && IsImage(arch, m, l, i);
      assert l in r.leaves;
    }
  }

  lemma ImageAdded(arch: Arch, m: Members, w: Walk, r: Walk, d: Descriptor, data: Doc)
    requires ImagesOk(arch, m, w) && Blob(d.digest) in m && m[Blob(d.digest)].doc == Some(data)
    requires data.artifact.None? && data.subject.None? && d.artifact.None? && d.reference.None? && ImageFits(arch, m, d, data)
    requires ImageDone(m, w, r, d, data)
    ensures ImagesOk(arch, m, r.(leaves := r.leaves + [d]))
  {
    var i := Image(KeyOf(d), data.config.value.digest);
    var all := r.leaves + [d];
    assert r.images[..|w.images|] == w.images && r.images[|w.images|] == i;
    assert IsImage(arch, m, d, i) && d in all;
    forall j | j in r.images ensures exists l :: l in all && IsImage(arch, m, l, j) {
      if j != i {
        assert j in w.images;
        var l :| l in w.leaves && IsImage(arch, m, l, j);
        assert l in all;
      }
    }
  }

  lemma VisitImages(arch: Arch, m: Members, w: Walk, d: Descriptor, data: Doc)
    requires ImagesOk(arch, m, w) && Blob(d.digest) in m && m[Blob(d.digest)].doc == Some(data)
    requires VisitLeaf(Native(arch), m, w, d, data).Accept?
    ensures ImagesOk(arch, m, VisitLeaf(Native(arch), m, w, d, data).value)
  {
    var r := Leaf(Native(arch), m, w, d, data).value;
    if d.reference == Some(AttestationManifest) || data.artifact == Some(AttestationArtifact) {
      AttestationRead(arch, m, w, d, data);
      MetadataKeepsImages(arch, m, w, r);
      LeafKeepsImages(arch, m, r, r.(leaves := r.leaves + [d]), d);
    } else {
      ImageExactly(arch, m, w, d, data);
      ImageAdded(arch, m, w, r, d, data);
    }
  }

  lemma EnterReads(m: Members, d: Descriptor, depth: nat, w: Walk)
    requires Enter(m, d, depth, w).Accept?
    ensures var (data, w1) := Enter(m, d, depth, w).value;
      MetadataOnly(m, w, w1) && Blob(d.digest) in m && m[Blob(d.digest)].doc == Some(data)
  {
  }

  lemma {:induction false} WalkOneImages(arch: Arch, m: Members, d: Descriptor, depth: nat, w: Walk)
    requires depth <= 9 && ImagesOk(arch, m, w) && WalkOne(Native(arch), m, d, depth, w).Accept?
    ensures ImagesOk(arch, m, WalkOne(Native(arch), m, d, depth, w).value)
    decreases 10 - depth, 0, 0
  {
    EnterReads(m, d, depth, w);
    var (data, w1) := Enter(m, d, depth, w).value;
    MetadataKeepsImages(arch, m, w, w1);
    if d.mediaType == IndexType {
      WalkAllImages(arch, m, data.manifests.value, depth + 1, w1);
    } else {
      VisitImages(arch, m, w1, d, data);
    }
  }

  lemma {:induction false} WalkAllImages(arch: Arch, m: Members, children: seq<Descriptor>, depth: nat, w: Walk)
    requires depth <= 9 && ImagesOk(arch, m, w) && WalkAll(Native(arch), m, children, depth, w).Accept?
    ensures ImagesOk(arch, m, WalkAll(Native(arch), m, children, depth, w).value)
    decreases 10 - depth, 1, |children|
  {
    if children != [] {
      var most := children[..|children| - 1];
      WalkAllImages(arch, m, most, depth, w);
      WalkOneImages(arch, m, children[|children| - 1], depth, WalkAll(Native(arch), m, most, depth, w).value);
    }
  }

  /** Of every image that a native walk found there is a leaf that fits, and its layers are what the budget was used for. */
  lemma ArchiveImages(arch: Arch, m: Members)
    requires WalkArchive(Native(arch), m).Accept?
    ensures ImagesOk(arch, m, WalkArchive(Native(arch), m).value)
    ensures Root in m && Layout in m && 0 < m[Root].size <= MAX_JSON && 0 < m[Layout].size <= MAX_JSON
  {
    var w1 := ReadJson(m, START, Layout, MAX_JSON).value.1;
    var (root, w2) := ReadJson(m, w1, Root, MAX_JSON).value;
    assert ImagesOk(arch, m, w2);
    WalkAllImages(arch, m, root.manifests.value, 0, w2);
  }
}
