/**
 The detached pair: a runnable archive of both platforms and a sidecar with the rest of both original graphs.
 `detach` writes a pair and keeps it only when the pair check accepts it.
 */
module OciPair {
  import opened Basics
  import opened OciArchive
  import opened OciDetach
  import opened OciMerge
  import opened OciImages

  const MAX_BLOBS: nat := 4096
  const PROVENANCE_TYPES: set<string> := {"https://slsa.dev/provenance/v0.2", "https://slsa.dev/provenance/v1"}

  /** The index and layout that one input came with. */
  datatype Original = Original(root: Content, layout: Content)

  /** The runnable archive, and the sidecar's blobs and inputs. */
  datatype Pair = Pair(image: Members, blobs: Members, amd64: Original, arm64: Original)

  /** The generated members for an image of each platform. */
  type Canonical = (Descriptor, Descriptor) -> Generated

  ghost predicate IsCanonical(canonical: Canonical, bytesOf: Digest -> Content) {
    forall x, y :: IsGenerated(canonical(x, y), [x, y]) && canonical(x, y).inner == bytesOf(canonical(x, y).innerDigest)
  }

  predicate HasProvenance(w: Walk) {
    exists i :: 0 <= i < |w.attestations| && w.attestations[i].predicateTypes * PROVENANCE_TYPES != {}
  }

  // ----- decoding the sidecar

  ghost function TotalBytes(m: Members): nat {
    if m == map[] then 0
    else
      var n :| n in m;
      m[n].size + TotalBytes(m - {n})
  }

  /** The order in which sizes are added does not matter. */
  lemma {:induction false} TotalWithout(m: Members, n: Name)
    requires n in m
    ensures TotalBytes(m) == m[n].size + TotalBytes(m - {n})
    decreases |m|
  {
    var k :| k in m && TotalBytes(m) == m[k].size + TotalBytes(m - {k});
    if k != n {
      TotalWithout(m - {k}, n);
      TotalWithout(m - {n}, k);
      assert m - {k} - {n} == m - {n} - {k};
    }
  }

  predicate Decodable(c: Content, limit: nat) { 0 < c.size <= limit }

  function TopBytes(o: Original): nat { o.root.size + o.layout.size }

  predicate TopDecodes(o: Original) { Decodable(o.root, MAX_JSON) && Decodable(o.layout, MAX_JSON) }

  ghost predicate BlobsDecode(blobs: Members) {
    forall n :: n in blobs ==> Decodable(blobs[n], MAX_ATTESTATION_JSON)
  }

  /** Each blob is within its own limit, and all of them with both originals' index and layout within one budget. */
  ghost predicate Decoded(p: Pair) {
    && BlobsDecode(p.blobs) && TopDecodes(p.amd64) && TopDecodes(p.arm64)
    && TotalBytes(p.blobs) + TopBytes(p.amd64) + TopBytes(p.arm64) <= MAX_JSON_TOTAL
  }

  /** One document of the sidecar, counted against the budget used so far. */
  method DecodeOne(c: Content, used: nat, limit: nat) returns (r: Option<nat>)
    requires used <= MAX_JSON_TOTAL
    ensures r == if Decodable(c, limit) && used + c.size <= MAX_JSON_TOTAL then Some(used + c.size) else None
  {
    if 0 < c.size <= limit && used + c.size <= MAX_JSON_TOTAL {
      return Some(used + c.size);
    }
    return None;
  }

  /** The blobs in any order: what decides is each one's size and their total. */
  method DecodeBlobs(blobs: Members) returns (r: Option<nat>)
    ensures r.Some? <==> BlobsDecode(blobs) && TotalBytes(blobs) <= MAX_JSON_TOTAL
    ensures r.Some? ==> r.value == TotalBytes(blobs)
  {
    var used: nat, left := 0, blobs;
    while left != map[]
      invariant left.Keys <= blobs.Keys && forall n :: n in left ==> left[n] == blobs[n]
      invariant used <= MAX_JSON_TOTAL && used + TotalBytes(left) == TotalBytes(blobs)
      invariant forall n :: n in blobs && n !in left ==> Decodable(blobs[n], MAX_ATTESTATION_JSON)
      decreases |left|
    {
      var n :| n in left;
      TotalWithout(left, n);
      var next := DecodeOne(left[n], used, MAX_ATTESTATION_JSON);
      if next.None? {
        return None;
      }
      used, left := next.value, left - {n};
    }
    return Some(used);
  }

  /** The sidecar decodes exactly when every document is within its limit and all are within the budget. */
  method Decode(p: Pair) returns (ok: bool)
    ensures ok <==> Decoded(p)
  {
    var used := DecodeBlobs(p.blobs);
    if used.None? { return false; }
    used := DecodeOne(p.amd64.root, used.value, MAX_JSON);
    if used.None? { return false; }
    used := DecodeOne(p.amd64.layout, used.value, MAX_JSON);
    if used.None? { return false; }
    used := DecodeOne(p.arm64.root, used.value, MAX_JSON);
    if used.None? { return false; }
    used := DecodeOne(p.arm64.layout, used.value, MAX_JSON);
    return used.Some?;
  }

  // ----- the pair check

  predicate IsFor(arch: Arch, d: Descriptor) { d.platform.Some? && d.platform.value.arch == Some(arch) }

  /** One image of each platform was found. */
  predicate BothFound(w: Walk) {
    && |w.images| == |w.leaves| == 2
    && ((IsFor(Amd64, w.leaves[0]) && IsFor(Arm64, w.leaves[1])) || (IsFor(Amd64, w.leaves[1]) && IsFor(Arm64, w.leaves[0])))
  }

  function ImagesFound(w: Walk): (Descriptor, Descriptor)
    requires BothFound(w)
  {
    if IsFor(Amd64, w.leaves[0]) then (w.leaves[0], w.leaves[1]) else (w.leaves[1], w.leaves[0])
  }

  ghost predicate Holds(m: Members, part: Members) {
    forall n :: n in part ==> n in m && m[n] == part[n]
  }

  /** The runnable archive: both images under the canonical index, and nothing else. */
  ghost predicate RunnableOk(canonical: Canonical, m: Members) {
    var r := WalkArchive(BothPlatforms, m);
    && r.Accept? && BothFound(r.value)
    && var (x, y) := ImagesFound(r.value);
       && Holds(m, GeneratedMembers(canonical(x, y)))
       && m.Keys == r.value.metadataNames + r.value.layerNames
  }

  function OverlayOf(p: Pair, o: Original): Members {
    Overlay(p.image, p.blobs, map[Root := o.root, Layout := o.layout])
  }

  /** One platform's original graph is accepted, is about the runnable image, and has provenance. */
  predicate EvidenceOk(r: Result<Walk>, image: Descriptor) {
    r.Accept? && CompleteGraph(r.value) && r.value.images[0].descriptor == KeyOf(image) && HasProvenance(r.value)
  }

  ghost predicate ReplaysOk(p: Pair, x: Descriptor, y: Descriptor) {
    var rx, ry := WalkArchive(Native(Amd64), OverlayOf(p, p.amd64)), WalkArchive(Native(Arm64), OverlayOf(p, p.arm64));
    && EvidenceOk(rx, x) && EvidenceOk(ry, y)
    && p.blobs.Keys <= rx.value.metadataNames + ry.value.metadataNames
  }

  ghost predicate PairOk(canonical: Canonical, bytesOf: Digest -> Content, p: Pair) {
    && |p.blobs| <= MAX_BLOBS && (forall n :: n in p.blobs ==> n.Blob?)
    && ContentAddressed(p.blobs, bytesOf) && ContentAddressed(p.image, bytesOf)
    && Decoded(p) && RunnableOk(canonical, p.image)
    && var (x, y) := ImagesFound(WalkArchive(BothPlatforms, p.image).value); ReplaysOk(p, x, y)
  }

  // ----- the walk of a runnable archive

  /** Another archive that holds the image's blobs has the same image. */
  lemma ImageMoves(arch: Arch, a: Members, m: Members, d: Descriptor, i: Image, bytesOf: Digest -> Content)
    requires ContentAddressed(a, bytesOf) && ContentAddressed(m, bytesOf)
    requires IsImage(arch, a, d, i) && LeafReadable(a, d) && RuntimeNames(a, i) <= m.Keys
    ensures IsImage(arch, m, d, i) && LeafReadable(m, d) && ManifestSize(m, d.digest) == ManifestSize(a, d.digest)
    ensures RuntimeNames(m, i) == RuntimeNames(a, i)
  {
    var data := a[Blob(d.digest)].doc.value;
    SameContent(a, m, d.digest, bytesOf);
    SameContent(a, m, i.config, bytesOf);
    forall l | l in data.layers.value ensures Blob(l.digest) in m && m[Blob(l.digest)] == a[Blob(l.digest)] {
      assert Blob(l.digest) in NamesOf(data.layers.value);
      var k :| 0 <= k < |data.layers.value| && data.layers.value[k] == l;
      assert BlobFits(a, data.layers.value[k], LAYER_TYPES);
      SameContent(a, m, l.digest, bytesOf);
    }
    LayersMove(a, m, data.layers.value, a[Blob(i.config)].doc.value.diffIds.value);
  }

  lemma SameContent(a: Members, m: Members, digest: Digest, bytesOf: Digest -> Content)
    requires ContentAddressed(a, bytesOf) && ContentAddressed(m, bytesOf) && Blob(digest) in a && Blob(digest) in m
    ensures m[Blob(digest)] == a[Blob(digest)]
  {
    assert a[Blob(digest)] == bytesOf(digest);
  }

  lemma {:induction false} LayersMove(a: Members, m: Members, layers: seq<Descriptor>, diffIds: seq<Digest>)
    requires |layers| == |diffIds| && LayersFit(a, layers, diffIds)
    requires forall l :: l in layers ==> Blob(l.digest) in m && Blob(l.digest) in a && m[Blob(l.digest)] == a[Blob(l.digest)]
    ensures LayersFit(m, layers, diffIds) && LayersSize(m, layers) == LayersSize(a, layers)
    decreases |layers|
  {
    if layers != [] {
      FitFront(a, layers, diffIds);
      FitFront(m, layers, diffIds);
      assert layers[0] in layers && forall l :: l in layers[1..] ==> l in layers;
      LayersMove(a, m, layers[1..], diffIds[1..]);
    }
  }

  /** What visiting an image makes of the walk. */
  ghost predicate Visited(m: Members, w: Walk, r: Walk, d: Descriptor, i: Image) {
    && Remembered(m, r) && r.leaves == w.leaves + [d] && r.images == w.images + [i]
    && r.visited == w.visited + 1 && r.metadataBytes <= w.metadataBytes + 2 * MAX_JSON
    && r.metadataNames == w.metadataNames + {Blob(d.digest), Blob(i.config)}
    && r.layerNames == w.layerNames + LayerNamesOf(m, d.digest)
    && r.rootfsBytes == w.rootfsBytes + ManifestSize(m, d.digest)
  }

  /** An image of a platform not seen before is accepted exactly when its layers are within the budget that is left. */
  lemma {:induction false} ImageVisited(arch: Arch, m: Members, w: Walk, d: Descriptor, i: Image)
    requires IsImage(arch, m, d, i) && LeafReadable(m, d) && IsNewPlatform(w, d) && !Listed(w.leaves, d) && Remembered(m, w)
    requires w.visited < MAX_LIST && w.metadataBytes + 2 * MAX_JSON <= MAX_JSON_TOTAL
    ensures var r := WalkOne(BothPlatforms, m, d, 1, w);
      && (r.Accept? <==> w.rootfsBytes + ManifestSize(m, d.digest) <= MAX_ROOTFS_BYTES)
      && (r.Accept? ==> Visited(m, w, r.value, d, i))
  {
    hide ImageLeaf;
    var data := m[Blob(d.digest)].doc.value;
    var entered := Enter(m, d, 1, w);
    assert entered.Accept? && entered.value.0 == data;
    var w1 := entered.value.1;
    ImageExactly(arch, m, w1, d, data);
    assert d.platform.value.arch == Some(arch);
    var r := ImageLeaf(arch, m, w1, d, data);
    assert Leaf(BothPlatforms, m, w1, d, data) == r;
  }

  /** The walk of both images under their canonical index: when it is accepted, and what it then reaches. */
  lemma RunnableWalk(m: Members, g: Generated, x: Descriptor, i: Image, y: Descriptor, j: Image)
    requires IsGenerated(g, [x, y]) && Holds(m, GeneratedMembers(g)) && x.digest != y.digest
    requires IsImage(Amd64, m, x, i) && IsImage(Arm64, m, y, j) && LeafReadable(m, x) && LeafReadable(m, y)
    requires ManifestSize(m, x.digest) <= MAX_ROOTFS_BYTES
    ensures var r := WalkArchive(BothPlatforms, m);
      && (r.Accept? <==> g.inner.size <= MAX_JSON && ManifestSize(m, x.digest) + ManifestSize(m, y.digest) <= MAX_ROOTFS_BYTES)
      && (r.Accept? ==>
            && r.value.leaves == [x, y] && r.value.images == [i, j]
            && r.value.metadataNames + r.value.layerNames == GeneratedMembers(g).Keys + RuntimeNames(m, i) + RuntimeNames(m, j))
  {
    var leaves := [x, y];
    var w := GeneratedTop(BothPlatforms, g, m, leaves);
    OneChild(BothPlatforms, m, IndexEntry(g), w);
    var inner := GeneratedInner(BothPlatforms, g, m, leaves, w);
    if inner.Accept? {
      assert inner.value.metadataBytes == g.layout.size + g.root.size + g.inner.size;
      BothVisited(m, inner.value, x, i, y, j);
      assert GeneratedMembers(g).Keys == inner.value.metadataNames;
    }
  }

  lemma {:induction false} BothVisited(m: Members, w: Walk, x: Descriptor, i: Image, y: Descriptor, j: Image)
    requires IsImage(Amd64, m, x, i) && IsImage(Arm64, m, y, j) && LeafReadable(m, x) && LeafReadable(m, y)
    requires ManifestSize(m, x.digest) <= MAX_ROOTFS_BYTES && x.digest != y.digest
    requires w == START.(visited := 1, metadataBytes := w.metadataBytes, metadataNames := w.metadataNames, sized := w.sized)
    requires w.metadataBytes <= 3 * MAX_JSON
    ensures var r := WalkAll(BothPlatforms, m, [x, y], 1, w);
      && (r.Accept? <==> ManifestSize(m, x.digest) + ManifestSize(m, y.digest) <= MAX_ROOTFS_BYTES)
      && (r.Accept? ==>
            && r.value.leaves == [x, y] && r.value.images == [i, j]
            && r.value.metadataNames + r.value.layerNames == w.metadataNames + RuntimeNames(m, i) + RuntimeNames(m, j))
  {
    TwoChildren(m, x, y, w);
    ImageVisited(Amd64, m, w, x, i);
    var first := WalkOne(BothPlatforms, m, x, 1, w);
    SecondVisited(m, w, first.value, x, i, y, j);
  }

  lemma {:induction false} SecondVisited(m: Members, w: Walk, first: Walk, x: Descriptor, i: Image, y: Descriptor, j: Image)
    requires IsImage(Amd64, m, x, i) && IsImage(Arm64, m, y, j) && LeafReadable(m, y) && x.digest != y.digest
    requires w.leaves == [] && w.images == [] && w.layerNames == {} && w.rootfsBytes == 0 && w.visited == 1
    requires w.metadataBytes <= 3 * MAX_JSON && Visited(m, w, first, x, i)
    ensures var r := WalkOne(BothPlatforms, m, y, 1, first);
      && (r.Accept? <==> ManifestSize(m, x.digest) + ManifestSize(m, y.digest) <= MAX_ROOTFS_BYTES)
      && (r.Accept? ==>
            && r.value.leaves == [x, y] && r.value.images == [i, j]
            && r.value.metadataNames + r.value.layerNames == w.metadataNames + RuntimeNames(m, i) + RuntimeNames(m, j))
  {
    assert first.leaves == [x];
    ImageVisited(Arm64, m, first, y, j);
  }

  lemma {:induction false} TwoChildren(m: Members, x: Descriptor, y: Descriptor, w: Walk)
    ensures WalkAll(BothPlatforms, m, [x, y], 1, w) ==
      var first := WalkOne(BothPlatforms, m, x, 1, w);
      if first.Accept? then WalkOne(BothPlatforms, m, y, 1, first.value) else Reject
  {
    assert [x, y][..1] == [x] && [x][..0] == [];
    assert WalkAll(BothPlatforms, m, [], 1, w) == Accept(w);
    assert WalkAll(BothPlatforms, m, [x], 1, w) == WalkOne(BothPlatforms, m, x, 1, w);
  }

  // ----- detaching

  /** The leaf that is the image, the first with its digest. */
  function FirstWith(leaves: seq<Descriptor>, digest: Digest): Descriptor
    requires exists i :: 0 <= i < |leaves| && leaves[i].digest == digest
  {
    if leaves[0].digest == digest then leaves[0] else FirstWith(leaves[1..], digest)
  }

  lemma {:induction false} FirstIsOnly(leaves: seq<Descriptor>, d: Descriptor)
    requires DistinctDigests(leaves) && d in leaves
    ensures FirstWith(leaves, d.digest) == d
  {
    if leaves[0] != d {
      var k :| 0 <= k < |leaves| && leaves[k] == d;
      assert leaves[1..][k - 1] == d;
      FirstIsOnly(leaves[1..], d);
    }
  }

  /** An input that the walk accepts as one complete native graph. */
  ghost predicate Accepted(arch: Arch, m: Members) {
    WalkArchive(Native(arch), m).Accept? && CompleteGraph(WalkArchive(Native(arch), m).value)
  }

  function WalkOf(arch: Arch, m: Members): Walk
    requires Accepted(arch, m)
  {
    WalkArchive(Native(arch), m).value
  }

  /** The input's image is among its leaves, and was accepted. */
  lemma ImageIsLeaf(arch: Arch, m: Members)
    requires Accepted(arch, m)
    ensures var w := WalkOf(arch, m); var i := w.images[0];
      && (exists k :: 0 <= k < |w.leaves| && w.leaves[k].digest == i.descriptor.digest)
      && IsImage(arch, m, FirstWith(w.leaves, i.descriptor.digest), i)
      && LeafReadable(m, FirstWith(w.leaves, i.descriptor.digest))
      && w.rootfsBytes == ManifestSize(m, i.descriptor.digest) <= MAX_ROOTFS_BYTES
  {
    var w := WalkOf(arch, m);
    var i := w.images[0];
    ArchiveImages(arch, m);
    ArchiveLeaves(Native(arch), m);
    assert i in w.images;
    var d :| d in w.leaves && IsImage(arch, m, d, i);
    FirstIsOnly(w.leaves, d);
    assert w.images[..0] == [] && ImagesSize(m, w.images) == ImagesSize(m, w.images[..0]) + ManifestSize(m, d.digest);
  }

  function ImageOf(arch: Arch, m: Members): Descriptor
    requires Accepted(arch, m)
  {
    ImageIsLeaf(arch, m);
    FirstWith(WalkOf(arch, m).leaves, WalkOf(arch, m).images[0].descriptor.digest)
  }

  /** What is collected from an input: its manifest is read once more, and each document of the graph again in full. */
  ghost predicate Collected(arch: Arch, m: Members)
    requires Accepted(arch, m)
  {
    var w := WalkOf(arch, m);
    && HasProvenance(w)
    && ReadJson(m, w, Blob(ImageOf(arch, m).digest), MAX_JSON).Accept?
    && forall n :: n in w.metadataNames ==> ReadWithin(m, w, n)
  }

  function OriginalOf(m: Members): Original
    requires Root in m && Layout in m
  {
    Original(m[Root], m[Layout])
  }

  function Metadata(a: Members, b: Members): Members
    requires Accepted(Amd64, a) && Accepted(Arm64, b)
  {
    SavedMetadata(a, WalkOf(Amd64, a)) + SavedMetadata(b, WalkOf(Arm64, b))
  }

  /** The pair written for two inputs. */
  function Written(canonical: Canonical, a: Members, b: Members): Pair
    requires Accepted(Amd64, a) && Accepted(Arm64, b)
  {
    RootIsRead(Native(Amd64), a);
    RootIsRead(Native(Arm64), b);
    var generated := GeneratedMembers(canonical(ImageOf(Amd64, a), ImageOf(Arm64, b)));
    Pair(Runnable(generated, a, WalkOf(Amd64, a), b, WalkOf(Arm64, b)), Metadata(a, b), OriginalOf(a), OriginalOf(b))
  }

  /** A document that both inputs have must be the same in both. */
  ghost predicate SameMetadata(a: Members, b: Members)
    requires Accepted(Amd64, a) && Accepted(Arm64, b)
  {
    var x, y := SavedMetadata(a, WalkOf(Amd64, a)), SavedMetadata(b, WalkOf(Arm64, b));
    forall n :: n in x && n in y ==> x[n] == y[n]
  }

  /** Detaching succeeds: both inputs are accepted and collected, and the pair written passes the pair check. */
  ghost predicate Detaches(canonical: Canonical, bytesOf: Digest -> Content, a: Members, b: Members) {
    && Accepted(Amd64, a) && Accepted(Arm64, b)
    && Collected(Amd64, a) && Collected(Arm64, b) && SameMetadata(a, b)
    && PairOk(canonical, bytesOf, Written(canonical, a, b))
  }

  /** What each input needs on its own: provenance, and room to read its image's manifest once more. */
  ghost predicate Ready(arch: Arch, m: Members) {
    && Accepted(arch, m) && HasProvenance(WalkOf(arch, m))
    && WalkOf(arch, m).metadataBytes + ImageOf(arch, m).size <= MAX_JSON_TOTAL
  }

  /** What both inputs need together. */
  ghost predicate FitTogether(canonical: Canonical, a: Members, b: Members)
    requires Accepted(Amd64, a) && Accepted(Arm64, b)
  {
    RootIsRead(Native(Amd64), a);
    RootIsRead(Native(Arm64), b);
    && |Metadata(a, b)| <= 4096
    && TotalBytes(Metadata(a, b)) + TopBytes(OriginalOf(a)) + TopBytes(OriginalOf(b)) <= 32_000_000
    && canonical(ImageOf(Amd64, a), ImageOf(Arm64, b)).inner.size <= 2_000_000
    && WalkOf(Amd64, a).rootfsBytes + WalkOf(Arm64, b).rootfsBytes <= 34_359_738_368
  }

  lemma CollectedExactly(arch: Arch, m: Members)
    requires Accepted(arch, m)
    ensures Collected(arch, m) <==> Ready(arch, m)
  {
    ImageIsLeaf(arch, m);
    ArchiveImages(arch, m);
  }

  /**
   Detaching succeeds exactly when each input is ready and the two fit together: at most 4096 documents, their bytes within
   one 32 MB budget, the index of both images within 2 MB, and the layers of both within one 32 GiB budget.
   */
  lemma DetachExactly(canonical: Canonical, bytesOf: Digest -> Content, a: Members, b: Members)
    requires ContentAddressed(a, bytesOf) && ContentAddressed(b, bytesOf) && IsCanonical(canonical, bytesOf)
    ensures Detaches(canonical, bytesOf, a, b) <==> Ready(Amd64, a) && Ready(Arm64, b) && FitTogether(canonical, a, b)
  {
    if Accepted(Amd64, a) && Accepted(Arm64, b) {
      CollectedExactly(Amd64, a);
      CollectedExactly(Arm64, b);
      MetadataAgrees(a, b, bytesOf);
      if Ready(Amd64, a) && Ready(Arm64, b) {
        PairExactly(canonical, bytesOf, a, b);
      }
    }
  }

  lemma MetadataAgrees(a: Members, b: Members, bytesOf: Digest -> Content)
    requires Accepted(Amd64, a) && Accepted(Arm64, b) && ContentAddressed(a, bytesOf) && ContentAddressed(b, bytesOf)
    ensures SameMetadata(a, b) && ContentAddressed(Metadata(a, b), bytesOf) && forall n :: n in Metadata(a, b) ==> n.Blob?
  {
    var x, y := SavedMetadata(a, WalkOf(Amd64, a)), SavedMetadata(b, WalkOf(Arm64, b));
    forall n | n in x && n in y ensures x[n] == y[n] {
      SameContent(a, b, n.digest, bytesOf);
    }
  }

  lemma DecodedExactly(a: Members, b: Members, p: Pair)
    requires Accepted(Amd64, a) && Accepted(Arm64, b) && Root in a && Layout in a && Root in b && Layout in b
    requires p.blobs == Metadata(a, b) && p.amd64 == OriginalOf(a) && p.arm64 == OriginalOf(b)
    ensures Decoded(p) <==> TotalBytes(Metadata(a, b)) + TopBytes(OriginalOf(a)) + TopBytes(OriginalOf(b)) <= MAX_JSON_TOTAL
  {
    ArchiveImages(Amd64, a);
    ArchiveImages(Arm64, b);
    forall n | n in p.blobs ensures Decodable(p.blobs[n], MAX_ATTESTATION_JSON) {
      assert n in WalkOf(Amd64, a).metadataNames ==> ReadWithin(a, WalkOf(Amd64, a), n);
      assert n in WalkOf(Arm64, b).metadataNames ==> ReadWithin(b, WalkOf(Arm64, b), n);
    }
  }

  /** The pair check accepts the pair written for two inputs that are ready exactly when they fit together. */
  lemma PairExactly(canonical: Canonical, bytesOf: Digest -> Content, a: Members, b: Members)
    requires ContentAddressed(a, bytesOf) && ContentAddressed(b, bytesOf) && IsCanonical(canonical, bytesOf)
    requires Ready(Amd64, a) && Ready(Arm64, b)
    ensures PairOk(canonical, bytesOf, Written(canonical, a, b)) <==> FitTogether(canonical, a, b)
  {
    RootIsRead(Native(Amd64), a);
    RootIsRead(Native(Arm64), b);
    var p := Written(canonical, a, b);
    DecodedExactly(a, b, p);
    MetadataAgrees(a, b, bytesOf);
    ImageWritten(canonical, bytesOf, a, b);
    RunnableExactly(canonical, bytesOf, a, b, p.image);
    ReplaysWritten(canonical, bytesOf, a, b);
  }

  lemma ImageWritten(canonical: Canonical, bytesOf: Digest -> Content, a: Members, b: Members)
    requires ContentAddressed(a, bytesOf) && ContentAddressed(b, bytesOf) && IsCanonical(canonical, bytesOf)
    requires Accepted(Amd64, a) && Accepted(Arm64, b)
    ensures var m, g := Written(canonical, a, b).image, GeneratedMembers(canonical(ImageOf(Amd64, a), ImageOf(Arm64, b)));
      && ContentAddressed(m, bytesOf) && Holds(m, g)
      && m.Keys == g.Keys + RuntimeNames(a, WalkOf(Amd64, a).images[0]) + RuntimeNames(b, WalkOf(Arm64, b).images[0])
  {
    var x, y := ImageOf(Amd64, a), ImageOf(Arm64, b);
    assert IsGenerated(canonical(x, y), [x, y]);
    ImageHeld(Amd64, a);
    ImageHeld(Arm64, b);
    RunnableHolds(canonical(x, y), a, WalkOf(Amd64, a), b, WalkOf(Arm64, b), bytesOf);
  }

  lemma RunnableHolds(g: Generated, a: Members, wa: Walk, b: Members, wb: Walk, bytesOf: Digest -> Content)
    requires ContentAddressed(a, bytesOf) && ContentAddressed(b, bytesOf) && g.inner == bytesOf(g.innerDigest)
    requires CompleteGraph(wa) && RuntimeNames(a, wa.images[0]) <= a.Keys
    requires CompleteGraph(wb) && RuntimeNames(b, wb.images[0]) <= b.Keys
    ensures var m, top := Runnable(GeneratedMembers(g), a, wa, b, wb), GeneratedMembers(g);
      && ContentAddressed(m, bytesOf) && Holds(m, top)
      && m.Keys == top.Keys + RuntimeNames(a, wa.images[0]) + RuntimeNames(b, wb.images[0])
  {
    hide RuntimeNames;
  }

  /** An accepted input holds all blobs of its image. */
  lemma ImageHeld(arch: Arch, m: Members)
    requires Accepted(arch, m)
    ensures RuntimeNames(m, WalkOf(arch, m).images[0]) <= m.Keys
  {
    ImageIsLeaf(arch, m);
    var data := m[Blob(ImageOf(arch, m).digest)].doc.value;
    forall l | l in data.layers.value ensures Blob(l.digest) in m {
      var k :| 0 <= k < |data.layers.value| && data.layers.value[k] == l;
      assert BlobFits(m, data.layers.value[k], LAYER_TYPES);
    }
  }

  /** The runnable archive is accepted exactly when its index and the layers of both images are within the limits. */
  lemma RunnableExactly(canonical: Canonical, bytesOf: Digest -> Content, a: Members, b: Members, m: Members)
    requires ContentAddressed(a, bytesOf) && ContentAddressed(b, bytesOf) && ContentAddressed(m, bytesOf)
    requires Accepted(Amd64, a) && Accepted(Arm64, b) && IsCanonical(canonical, bytesOf)
    requires var g := GeneratedMembers(canonical(ImageOf(Amd64, a), ImageOf(Arm64, b)));
      && Holds(m, g)
      && m.Keys == g.Keys + RuntimeNames(a, WalkOf(Amd64, a).images[0]) + RuntimeNames(b, WalkOf(Arm64, b).images[0])
    ensures RunnableOk(canonical, m) <==>
      && canonical(ImageOf(Amd64, a), ImageOf(Arm64, b)).inner.size <= MAX_JSON
      && WalkOf(Amd64, a).rootfsBytes + WalkOf(Arm64, b).rootfsBytes <= MAX_ROOTFS_BYTES
    ensures RunnableOk(canonical, m) ==>
      ImagesFound(WalkArchive(BothPlatforms, m).value) == (ImageOf(Amd64, a), ImageOf(Arm64, b))
  {
    var x, y, i, j := ImageOf(Amd64, a), ImageOf(Arm64, b), WalkOf(Amd64, a).images[0], WalkOf(Arm64, b).images[0];
    ImageIsLeaf(Amd64, a);
    ImageIsLeaf(Arm64, b);
    ImagesNeverShared(a, WalkOf(Amd64, a), b, WalkOf(Arm64, b), bytesOf);
    BothRunnable(canonical, bytesOf, a, x, i, b, y, j, m);
  }

  lemma ImageIsFor(arch: Arch, m: Members, d: Descriptor, i: Image)
    requires IsImage(arch, m, d, i)
    ensures IsFor(arch, d)
  {
  }

  lemma BothRunnable(canonical: Canonical, bytesOf: Digest -> Content, a: Members, x: Descriptor, i: Image,
                     b: Members, y: Descriptor, j: Image, m: Members)
    requires ContentAddressed(a, bytesOf) && ContentAddressed(b, bytesOf) && ContentAddressed(m, bytesOf)
    requires IsImage(Amd64, a, x, i) && IsImage(Arm64, b, y, j) && LeafReadable(a, x) && LeafReadable(b, y) && x.digest != y.digest
    requires ManifestSize(a, x.digest) <= MAX_ROOTFS_BYTES && IsCanonical(canonical, bytesOf)
    requires var g := GeneratedMembers(canonical(x, y));
      Holds(m, g) && m.Keys == g.Keys + RuntimeNames(a, i) + RuntimeNames(b, j)
    ensures RunnableOk(canonical, m) <==>
      canonical(x, y).inner.size <= MAX_JSON && ManifestSize(a, x.digest) + ManifestSize(b, y.digest) <= MAX_ROOTFS_BYTES
    ensures RunnableOk(canonical, m) ==> ImagesFound(WalkArchive(BothPlatforms, m).value) == (x, y)
  {
    hide IsImage, LeafReadable, RuntimeNames, ManifestSize, WalkArchive;
    var g := canonical(x, y);
    assert IsGenerated(g, [x, y]);
    ImageMoves(Amd64, a, m, x, i, bytesOf);
    ImageMoves(Arm64, b, m, y, j, bytesOf);
    RunnableWalk(m, g, x, i, y, j);
    ImageIsFor(Amd64, a, x, i);
    ImageIsFor(Arm64, b, y, j);
  }

  /** Both originals replay over the pair, are about its images, and use every blob. */
  lemma ReplaysWritten(canonical: Canonical, bytesOf: Digest -> Content, a: Members, b: Members)
    requires ContentAddressed(a, bytesOf) && ContentAddressed(b, bytesOf) && IsCanonical(canonical, bytesOf)
    requires Ready(Amd64, a) && Ready(Arm64, b)
    ensures ReplaysOk(Written(canonical, a, b), ImageOf(Amd64, a), ImageOf(Arm64, b))
  {
    var x, y := ImageOf(Amd64, a), ImageOf(Arm64, b);
    assert IsGenerated(canonical(x, y), [x, y]);
    ImageIsLeaf(Amd64, a);
    ImageIsLeaf(Arm64, b);
    ReplaysAccepted(canonical(x, y), a, WalkOf(Amd64, a), x, b, WalkOf(Arm64, b), y, bytesOf, Written(canonical, a, b));
  }

  lemma ReplaysAccepted(g: Generated, a: Members, wa: Walk, x: Descriptor, b: Members, wb: Walk, y: Descriptor,
                        bytesOf: Digest -> Content, p: Pair)
    requires WalkArchive(Native(Amd64), a) == Accept(wa) && CompleteGraph(wa) && HasProvenance(wa)
    requires WalkArchive(Native(Arm64), b) == Accept(wb) && CompleteGraph(wb) && HasProvenance(wb)
    requires wa.images[0].descriptor == KeyOf(x) && wb.images[0].descriptor == KeyOf(y)
    requires ContentAddressed(a, bytesOf) && ContentAddressed(b, bytesOf) && g.inner == bytesOf(g.innerDigest)
    requires Root in a && Layout in a && p.amd64 == OriginalOf(a) && Root in b && Layout in b && p.arm64 == OriginalOf(b)
    requires p.image == Runnable(GeneratedMembers(g), a, wa, b, wb) && p.blobs == SavedMetadata(a, wa) + SavedMetadata(b, wb)
    ensures ReplaysOk(p, x, y)
  {
    hide WalkArchive, Runnable, SavedMetadata;
    DetachLosesNothing(a, wa, b, wb, GeneratedMembers(g), bytesOf);
  }
}
