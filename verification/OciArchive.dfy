/**
 The bounded walk over one OCI archive (OCI Image Format Specification: Image Index, Image Manifest,
 Content Descriptors). JSON documents are records of the fields the walk reads; a field that is
 missing or of the wrong shape is `None`. Digests are opaque, read as numbers.
 */
module OciArchive {
  import opened Basics

  const MAX_JSON: nat := 2_000_000
  const MAX_ATTESTATION_JSON: nat := 16_777_216
  const MAX_JSON_TOTAL: nat := 32_000_000
  const MAX_LAYER_BYTES: nat := 8_589_934_592
  const MAX_ROOTFS_BYTES: nat := 34_359_738_368
  const MAX_LIST: nat := 1024
  const MAX_LAYERS: nat := 4096

  type Digest = nat

  /** The walk either accepts with a value or rejects the archive. */
  datatype Result<+T> = Reject | Accept(value: T) {
    predicate IsFailure() { Reject? }
    function PropagateFailure<U>(): Result<U> requires Reject? { Reject }
    function Extract(): T requires Accept? { value }
  }

  datatype MediaType = IndexType | ManifestType | ConfigType | EmptyConfigType | LayerType(compression: nat) | InToto | OtherType
  datatype Os = Linux | UnknownOs | OtherOs
  datatype Arch = Amd64 | Arm64 | UnknownArch | OtherArch
  datatype Artifact = AttestationArtifact | OtherArtifact
  datatype Reference = AttestationManifest | OtherReference

  datatype Platform = Platform(os: Option<Os>, arch: Option<Arch>, variant: Option<string>, requirements: bool)

  /** `plain`: no external URLs and no embedded content other than the empty config. */
  datatype Descriptor = Descriptor(
    mediaType: MediaType, digest: Digest, size: nat, plain: bool,
    platform: Option<Platform>,
    annotationsOk: bool,
    reference: Option<Reference>,          // vnd.docker.reference.type
    referenceDigest: Option<Digest>,       // vnd.docker.reference.digest
    artifact: Option<Artifact>)

  datatype Statement = Statement(predicateType: string, subjects: set<Digest>)

  datatype Doc = Doc(
    schemaVersion: Option<int>,
    mediaType: Option<MediaType>,
    artifact: Option<Artifact>,
    manifests: Option<seq<Descriptor>>,
    config: Option<Descriptor>,
    layers: Option<seq<Descriptor>>,
    subject: Option<Descriptor>,
    layoutOk: bool,                        // imageLayoutVersion is 1.0.0
    platform: Platform,                    // os, architecture, variant of a config document
    labelsOk: bool,                        // version and revision labels match
    diffIds: Option<seq<Digest>>,          // rootfs of type layers
    empty: bool,
    statement: Option<Statement>)          // a well-formed in-toto statement

  /** A member's bytes: their length, the document they parse to, and each decoding's digest and length. */
  datatype Content = Content(size: nat, doc: Option<Doc>, expanded: map<MediaType, (Digest, nat)>)

  datatype Name = Layout | Root | Blob(digest: Digest) | Extension(name: string)

  type Members = map<Name, Content>

  datatype Key = Key(mediaType: MediaType, digest: Digest, size: nat)
  datatype Image = Image(descriptor: Key, config: Digest)
  datatype Attestation = Attestation(digest: Digest, subject: Key, predicateTypes: set<string>)

  /** `layerNames` and `sized` record which blobs were read as layers or only checked for their size. */
  datatype Walk = Walk(
    leaves: seq<Descriptor>,
    images: seq<Image>,
    attestations: seq<Attestation>,
    visited: nat,
    metadataBytes: nat,
    rootfsBytes: nat,
    metadataNames: set<Name>,
    attestationNames: set<Name>,
    layerIdentities: map<(Digest, MediaType), (Digest, nat)>,
    layerNames: set<Name>,
    sized: set<Name>)

  const START := Walk([], [], [], 0, 0, 0, {}, {}, map[], {}, {})

  /** Which leaves an archive may hold: one native platform with its attestations, an image of each platform, or any at all. */
  datatype Profile = Native(arch: Arch) | BothPlatforms | Structure

  function Need(condition: bool): Result<()> { if condition then Accept(()) else Reject }

  // ----- reading and checking members

  function ReadJson(m: Members, w: Walk, name: Name, limit: nat): Result<(Doc, Walk)> {
    if name in m && 0 < m[name].size <= limit && w.metadataBytes + m[name].size <= MAX_JSON_TOTAL && m[name].doc.Some? then
      Accept((m[name].doc.value,
              w.(metadataNames := w.metadataNames + {name}, metadataBytes := w.metadataBytes + m[name].size)))
    else Reject
  }

  function CheckBlob(m: Members, w: Walk, d: Descriptor, types: set<MediaType>): Result<Walk> {
    var name := Blob(d.digest);
    if d.mediaType in types && d.plain && name in m && m[name].size == d.size then Accept(w.(sized := w.sized + {name}))
    else Reject
  }

  function ReadBlob(m: Members, w: Walk, d: Option<Descriptor>, types: set<MediaType>): Result<(Doc, Walk)> {
    if d.None? then Reject
    else
      var w1 :- CheckBlob(m, w, d.value, types);
      ReadJson(m, w1, Blob(d.value.digest), MAX_JSON)
  }

  function CheckBlobs(m: Members, w: Walk, ds: seq<Descriptor>, types: set<MediaType>): Result<Walk>
    decreases |ds|
  {
    if ds == [] then Accept(w)
    else
      var w1 :- CheckBlob(m, w, ds[0], types);
      CheckBlobs(m, w1, ds[1..], types)
  }

  /** The digest of a layer's decoded bytes, remembered for each digest and media type. */
  function LayerDigest(m: Members, w: Walk, d: Descriptor): Result<(Digest, Walk)> {
    var key := (d.digest, d.mediaType);
    var name := Blob(d.digest);
    if key in w.layerIdentities then
      var (checked, size) := w.layerIdentities[key];
      if w.rootfsBytes + size <= MAX_ROOTFS_BYTES then Accept((checked, w.(rootfsBytes := w.rootfsBytes + size)))
      else Reject
    else if name in m && d.mediaType in m[name].expanded then
      var (checked, size) := m[name].expanded[d.mediaType];
      if size <= MAX_LAYER_BYTES && w.rootfsBytes + size <= MAX_ROOTFS_BYTES then
        Accept((checked, w.(rootfsBytes := w.rootfsBytes + size, layerNames := w.layerNames + {name},
                            layerIdentities := w.layerIdentities[key := (checked, size)])))
      else Reject
    else Reject
  }

  function CheckLayers(m: Members, w: Walk, layers: seq<Descriptor>, diffIds: seq<Digest>): Result<Walk>
    requires |layers| == |diffIds|
    decreases |layers|
  {
    if layers == [] then Accept(w)
    else
      var (digest, w1) :- LayerDigest(m, w, layers[0]);
      var _ :- Need(digest == diffIds[0]);
      CheckLayers(m, w1, layers[1..], diffIds[1..])
  }

  function KeyOf(d: Descriptor): Key { Key(d.mediaType, d.digest, d.size) }

  const LAYER_TYPES: set<MediaType> := {LayerType(0), LayerType(1), LayerType(2)}

  predicate PlatformOk(arch: Arch, declared: Platform, built: Platform) {
    var variants := if arch == Arm64 then {None, Some("v8")} else {None};
    && declared.os == built.os == Some(Linux)
    && declared.arch == built.arch == Some(arch)
    && declared.variant in variants && built.variant in variants
    && !declared.requirements && !built.requirements
  }

  // ----- leaves

  function ImageLeaf(arch: Arch, m: Members, w: Walk, d: Descriptor, data: Doc): Result<Walk> {
    var (details, w1) :- ReadBlob(m, w, data.config, {ConfigType});
    var _ :- Need(d.platform.Some? && PlatformOk(arch, d.platform.value, details.platform) && details.labelsOk);
    var _ :- Need(data.layers.Some? && |data.layers.value| <= MAX_LAYERS);
    var w2 :- CheckBlobs(m, w1, data.layers.value, LAYER_TYPES);
    var _ :- Need(details.diffIds.Some? && |details.diffIds.value| == |data.layers.value|);
    var w3 :- CheckLayers(m, w2, data.layers.value, details.diffIds.value);
    Accept(w3.(images := w3.images + [Image(KeyOf(d), data.config.value.digest)]))
  }

  function ReadStatements(m: Members, w: Walk, layers: seq<Descriptor>, subject: Digest): Result<(set<string>, Walk)>
    decreases |layers|
  {
    if layers == [] then Accept(({}, w))
    else
      var name := Blob(layers[0].digest);
      var w1 :- CheckBlob(m, w, layers[0], {InToto});
      var (doc, w2) :- ReadJson(m, w1, name, MAX_ATTESTATION_JSON);
      var _ :- Need(doc.statement.Some? && subject in doc.statement.value.subjects);
      var (rest, w3) :- ReadStatements(m, w2.(attestationNames := w2.attestationNames + {name}), layers[1..], subject);
      Accept((rest + {doc.statement.value.predicateType}, w3))
  }

  /** The subject of an OCI 1.1 artifact, whose config is the empty document. */
  function ArtifactSubject(arch: Arch, m: Members, w: Walk, d: Descriptor, data: Doc): Result<(Key, Walk)> {
    var _ :- Need(data.artifact == Some(AttestationArtifact) && d.artifact in {None, Some(AttestationArtifact)});
    var (details, w1) :- ReadBlob(m, w, data.config, {EmptyConfigType});
    var _ :- Need(details.empty && data.config.value.size == 2);
    var _ :- Need(data.subject.Some?);
    var subject := data.subject.value;
    var w2 :- CheckBlob(m, w1, subject, {ManifestType});
    var _ :- Need(subject.platform.None?
                  || (subject.platform.value.os in {None, Some(Linux)} && subject.platform.value.arch in {None, Some(arch)}));
    var _ :- Need(d.referenceDigest in {None, Some(subject.digest)});
    Accept((KeyOf(subject), w2))
  }

  /** The subject of a BuildKit attestation, named by an annotation. */
  function LegacySubject(m: Members, w: Walk, d: Descriptor, data: Doc): Result<(Key, Walk)> {
    var _ :- Need(d.artifact.None? && data.subject.None?);
    var (details, w1) :- ReadBlob(m, w, data.config, {ConfigType});
    var _ :- Need(details.platform.os == Some(UnknownOs) && details.platform.arch == Some(UnknownArch));
    var _ :- Need(d.referenceDigest.Some? && Blob(d.referenceDigest.value) in m);
    var name := Blob(d.referenceDigest.value);
    Accept((Key(ManifestType, d.referenceDigest.value, m[name].size), w1.(sized := w1.sized + {name})))
  }

  function AttestationLeaf(arch: Arch, m: Members, w: Walk, d: Descriptor, data: Doc): Result<Walk> {
    var _ :- Need(d.platform.Some? && d.platform.value.os == Some(UnknownOs) && d.platform.value.arch == Some(UnknownArch)
                  && d.reference in {None, Some(AttestationManifest)});
    var (subject, w1) :- if data.artifact.Some? then ArtifactSubject(arch, m, w, d, data) else LegacySubject(m, w, d, data);
    var _ :- Need(data.layers.Some? && 0 < |data.layers.value| <= MAX_LAYERS);
    var (types, w2) :- ReadStatements(m, w1, data.layers.value, subject.digest);
    Accept(w2.(attestations := w2.attestations + [Attestation(d.digest, subject, types)]))
  }

  function Leaf(p: Profile, m: Members, w: Walk, d: Descriptor, data: Doc): Result<Walk> {
    match p
    case Structure => Accept(w)
    case Native(arch) =>
      if d.reference == Some(AttestationManifest) || data.artifact == Some(AttestationArtifact) then
        AttestationLeaf(arch, m, w, d, data)
      else
        var _ :- Need(d.artifact.None? && data.artifact.None? && data.subject.None? && d.reference.None?);
        ImageLeaf(arch, m, w, d, data)
    case BothPlatforms =>
      var _ :- Need(d.reference != Some(AttestationManifest) && data.artifact != Some(AttestationArtifact));
      var _ :- Need(d.artifact.None? && data.artifact.None? && data.subject.None? && d.reference.None?);
      var _ :- Need(IsNewPlatform(w, d));
      ImageLeaf(d.platform.value.arch.value, m, w, d, data)
  }

  /** One of the two platforms, of which no leaf came before. */
  predicate IsNewPlatform(w: Walk, d: Descriptor) {
    && d.platform.Some? && d.platform.value.os == Some(Linux) && d.platform.value.arch in {Some(Amd64), Some(Arm64)}
    && forall l :: l in w.leaves && l.platform.Some? ==> l.platform.value.arch != d.platform.value.arch
  }

  // ----- the walk

  function AddLeaf(w: Walk, d: Descriptor): Result<Walk> {
    if exists i :: 0 <= i < |w.leaves| && w.leaves[i].digest == d.digest then Reject
    else Accept(w.(leaves := w.leaves + [d]))
  }

  /** A descriptor is counted, then read; at most 1,024 are visited, at most eight levels down. */
  function Enter(m: Members, d: Descriptor, depth: nat, w: Walk): Result<(Doc, Walk)> {
    var w0 := w.(visited := w.visited + 1);
    var _ :- Need(depth <= 8 && w0.visited <= MAX_LIST);
    var (data, w1) :- ReadBlob(m, w0, Some(d), {IndexType, ManifestType});
    var _ :- Need(data.schemaVersion == Some(2) && data.mediaType in {None, Some(d.mediaType)});
    Accept((data, w1))
  }

  function VisitLeaf(p: Profile, m: Members, w: Walk, d: Descriptor, data: Doc): Result<Walk> {
    var _ :- Need(d.annotationsOk);
    var w1 :- Leaf(p, m, w, d, data);
    AddLeaf(w1, d)
  }

  function WalkIndex(p: Profile, m: Members, data: Doc, depth: nat, w: Walk): Result<Walk>
    requires depth <= 9
    decreases 10 - depth, 2, 0
  {
    var _ :- Need(data.schemaVersion == Some(2) && data.mediaType in {None, Some(IndexType)});
    var _ :- Need(data.subject.None? && data.artifact.None?);
    var _ :- Need(data.manifests.Some? && 0 < |data.manifests.value| <= MAX_LIST);
    WalkAll(p, m, data.manifests.value, depth, w)
  }

  function WalkAll(p: Profile, m: Members, children: seq<Descriptor>, depth: nat, w: Walk): Result<Walk>
    requires depth <= 9
    decreases 10 - depth, 1, |children|
  {
    if children == [] then Accept(w)
    else
      var w1 :- WalkAll(p, m, children[..|children| - 1], depth, w);
      WalkOne(p, m, children[|children| - 1], depth, w1)
  }

  function WalkOne(p: Profile, m: Members, d: Descriptor, depth: nat, w: Walk): Result<Walk>
    requires depth <= 9
    decreases 10 - depth, 0, 0
  {
    var (data, w1) :- Enter(m, d, depth, w);
    if d.mediaType == IndexType then WalkIndex(p, m, data, depth + 1, w1) else VisitLeaf(p, m, w1, d, data)
  }

  /** The layout marker, then the root index. */
  function WalkArchive(p: Profile, m: Members): Result<Walk> {
    var (layout, w1) :- ReadJson(m, START, Layout, MAX_JSON);
    var _ :- Need(layout.layoutOk);
    var (root, w2) :- ReadJson(m, w1, Root, MAX_JSON);
    WalkIndex(p, m, root, 0, w2)
  }

  /** One runnable image, and every attestation is about it. */
  predicate CompleteGraph(w: Walk) {
    && |w.images| == 1
    && forall i :: 0 <= i < |w.attestations| ==> w.attestations[i].subject == w.images[0].descriptor
  }
}
