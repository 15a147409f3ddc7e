/**
 What the walk of a runnable archive accepts: images alone, of the two platforms, one of each at most, all of them within
 one budget; and what makes one input ready to be detached.
 */
module OciRunnable {
  import opened Basics
  import opened OciArchive
  import opened OciMerge
  import opened OciImages
  import opened OciGraph
  import opened OciPair

  /** The leaf is marked neither as an attestation nor as about another one. */
  predicate IsPlain(d: Descriptor, data: Doc) {
    d.artifact.None? && d.reference.None? && data.artifact.None? && data.subject.None?
  }

  /** The leaf is for this platform. */
  predicate IsLinux(arch: Arch, d: Descriptor) {
    d.platform.Some? && d.platform.value.os == Some(Linux) && d.platform.value.arch == Some(arch)
  }

  /** No leaf before it was for the platform. */
  ghost predicate IsFirst(w: Walk, arch: Arch) {
    forall k :: 0 <= k < |w.leaves| && w.leaves[k].platform.Some? ==> w.leaves[k].platform.value.arch != Some(arch)
  }

  /** A runnable leaf is the first image of its platform, and of its digest, and within the budgets. */
  lemma {:induction false} LeafExactly(m: Members, w: Walk, d: Descriptor, data: Doc)
    requires Remembered(m, w)
    ensures VisitLeaf(BothPlatforms, m, w, d, data).Accept? <==>
      && d.annotationsOk && IsPlain(d, data) && !Listed(w.leaves, d)
      && exists arch: Arch :: (arch == Amd64 || arch == Arm64) && IsLinux(arch, d) && IsFirst(w, arch)
           && ImageFits(arch, m, d, data) && w.metadataBytes + data.config.value.size <= 32_000_000
           && w.rootfsBytes + LayersSize(m, data.layers.value) <= 34_359_738_368
    ensures VisitLeaf(BothPlatforms, m, w, d, data).Accept? ==>
      && data.config.Some? && data.layers.Some?
      && exists r :: ImageDone(m, w, r, d, data) && VisitLeaf(BothPlatforms, m, w, d, data).value == r.(leaves := w.leaves + [d])
  {
    hide ImageLeaf, ImageFits, ImageDone;
    NewPlatform(w, d);
    if IsNewPlatform(w, d) && IsPlain(d, data) {
      var arch := d.platform.value.arch.value;
      ImageExactly(arch, m, w, d, data);
      FitsHaveParts(arch, m, d, data);
      var r := ImageLeaf(arch, m, w, d, data);
      assert Leaf(BothPlatforms, m, w, d, data) == r;
      if r.Accept? {
        DoneKeepsLeaves(m, w, r.value, d, data);
      }
    }
  }

  lemma FitsHaveParts(arch: Arch, m: Members, d: Descriptor, data: Doc)
    ensures ImageFits(arch, m, d, data) ==> data.config.Some? && data.layers.Some?
  {
  }

  lemma DoneKeepsLeaves(m: Members, w: Walk, r: Walk, d: Descriptor, data: Doc)
    requires data.config.Some? && data.layers.Some? && ImageDone(m, w, r, d, data)
    ensures r.leaves == w.leaves
  {
  }

  lemma NewPlatform(w: Walk, d: Descriptor)
    ensures IsNewPlatform(w, d) <==>
      exists arch: Arch :: (arch == Amd64 || arch == Arm64) && IsLinux(arch, d) && IsFirst(w, arch)
  {
    if IsNewPlatform(w, d) {
      var arch := d.platform.value.arch.value;
      assert IsLinux(arch, d) && IsFirst(w, arch);
    }
  }

  // ----- the whole walk

  /** The leaf is an image of one of the two platforms. */
  ghost predicate IsRunnable(m: Members, d: Descriptor, i: Image) {
    (IsLinux(Amd64, d) && IsImage(Amd64, m, d, i)) || (IsLinux(Arm64, d) && IsImage(Arm64, m, d, i))
  }

  /** Every leaf is the image recorded at its place, no two are for one platform, and their layers use up the budget. */
  ghost predicate RunnableRecorded(m: Members, w: Walk) {
    && Remembered(m, w) && w.attestations == [] && |w.images| == |w.leaves| && w.rootfsBytes == ImagesSize(m, w.images)
    && (forall k :: 0 <= k < |w.leaves| ==> IsRunnable(m, w.leaves[k], w.images[k]))
    && (forall j, k :: 0 <= j < k < |w.leaves| ==> w.leaves[j].platform != w.leaves[k].platform && w.leaves[j].digest != w.leaves[k].digest)
  }

  lemma RunnableAdded(m: Members, w: Walk, r: Walk, d: Descriptor, data: Doc, arch: Arch)
    requires RunnableRecorded(m, w) && Blob(d.digest) in m && m[Blob(d.digest)].doc == Some(data) && IsPlain(d, data)
    requires (arch == Amd64 || arch == Arm64) && IsLinux(arch, d) && IsFirst(w, arch) && !Listed(w.leaves, d)
    requires ImageFits(arch, m, d, data) && ImageDone(m, w, r, d, data)
    ensures RunnableRecorded(m, r.(leaves := w.leaves + [d]))
  {
    hide ImageFits, LayersSize, ImagesSize, IsImage, DecodedSize, Decodes;
    FitsHaveParts(arch, m, d, data);
    var i := Image(KeyOf(d), data.config.value.digest);
    FitsMakeImage(arch, m, d, data, i);
    assert r.images[..|w.images|] == w.images && r.images[|w.images|] == i;
    SizeAdded(m, w.images, i, data);
  }

  lemma FitsMakeImage(arch: Arch, m: Members, d: Descriptor, data: Doc, i: Image)
    requires Blob(d.digest) in m && m[Blob(d.digest)].doc == Some(data) && IsPlain(d, data) && ImageFits(arch, m, d, data)
    requires i == Image(KeyOf(d), data.config.value.digest)
    ensures IsImage(arch, m, d, i)
  {
  }

  lemma {:induction false} SizeAdded(m: Members, images: seq<Image>, i: Image, data: Doc)
    requires Blob(i.descriptor.digest) in m && m[Blob(i.descriptor.digest)].doc == Some(data) && data.layers.Some?
    ensures ImagesSize(m, images + [i]) == ImagesSize(m, images) + LayersSize(m, data.layers.value)
  {
    assert (images + [i])[..|images|] == images;
  }

  lemma LeafRunnable(m: Members, w: Walk, d: Descriptor, data: Doc)
    requires RunnableRecorded(m, w) && Blob(d.digest) in m && m[Blob(d.digest)].doc == Some(data)
    requires VisitLeaf(BothPlatforms, m, w, d, data).Accept?
    ensures RunnableRecorded(m, VisitLeaf(BothPlatforms, m, w, d, data).value)
  {
    hide VisitLeaf, RunnableRecorded, ImageFits, ImageDone, IsFirst;
    RunnableRemembers(m, w);
    LeafExactly(m, w, d, data);
    var arch :| (arch == Amd64 || arch == Arm64) && IsLinux(arch, d) && IsFirst(w, arch) && ImageFits(arch, m, d, data);
    var r :| ImageDone(m, w, r, d, data) && VisitLeaf(BothPlatforms, m, w, d, data).value == r.(leaves := w.leaves + [d]);
    RunnableAdded(m, w, r, d, data, arch);
  }

  lemma RunnableRemembers(m: Members, w: Walk)
    requires RunnableRecorded(m, w)
    ensures Remembered(m, w)
  {
  }

  lemma EnteredRunnable(m: Members, w: Walk, d: Descriptor, depth: nat)
    requires RunnableRecorded(m, w) && Enter(m, d, depth, w).Accept?
    ensures var r := Enter(m, d, depth, w).value;
      RunnableRecorded(m, r.1) && depth <= 8 && Blob(d.digest) in m && m[Blob(d.digest)].doc == Some(r.0)
  {
    hide IsRunnable;
    EnterExactly(m, d, depth, w);
  }

  lemma {:induction false} WalkOneRunnable(m: Members, d: Descriptor, depth: nat, w: Walk)
    requires depth <= 9 && RunnableRecorded(m, w) && WalkOne(BothPlatforms, m, d, depth, w).Accept?
    ensures RunnableRecorded(m, WalkOne(BothPlatforms, m, d, depth, w).value)
    decreases 10 - depth, 0, 0
  {
    hide Enter, VisitLeaf, RunnableRecorded;
    EnteredRunnable(m, w, d, depth);
    var (data, w1) := Enter(m, d, depth, w).value;
    if d.mediaType == IndexType {
      WalkAllRunnable(m, data.manifests.value, depth + 1, w1);
    } else {
      LeafRunnable(m, w1, d, data);
    }
  }

  lemma {:induction false} WalkAllRunnable(m: Members, children: seq<Descriptor>, depth: nat, w: Walk)
    requires depth <= 9 && RunnableRecorded(m, w) && WalkAll(BothPlatforms, m, children, depth, w).Accept?
    ensures RunnableRecorded(m, WalkAll(BothPlatforms, m, children, depth, w).value)
    decreases 10 - depth, 1, |children|
  {
    hide WalkOne, RunnableRecorded;
    if children != [] {
      var most := children[..|children| - 1];
      WalkAllRunnable(m, most, depth, w);
      WalkOneRunnable(m, children[|children| - 1], depth, WalkAll(BothPlatforms, m, most, depth, w).value);
    }
  }

  /** An accepted runnable archive has images alone, at most one of each platform. */
  lemma ArchiveRunnable(m: Members)
    requires WalkArchive(BothPlatforms, m).Accept?
    ensures RunnableRecorded(m, WalkArchive(BothPlatforms, m).value)
  {
    hide WalkAll;
    var w1 := ReadJson(m, START, Layout, MAX_JSON).value.1;
    var (root, w2) := ReadJson(m, w1, Root, MAX_JSON).value;
    assert RunnableRecorded(m, w2);
    WalkAllRunnable(m, root.manifests.value, 0, w2);
  }

  // ----- one input of a pair

  /** The attestation states where the image comes from. */
  predicate StatesProvenance(t: Attestation) {
    "https://slsa.dev/provenance/v0.2" in t.predicateTypes || "https://slsa.dev/provenance/v1" in t.predicateTypes
  }

  /** An input is ready when it is one image with attestations of it alone, one of its provenance, and its manifest can be read again. */
  lemma ReadyExactly(arch: Arch, m: Members)
    ensures Ready(arch, m) <==>
      && WalkArchive(Native(arch), m).Accept?
      && var w := WalkArchive(Native(arch), m).value;
         exists d, i :: w.images == [i] && d in w.leaves && IsImage(arch, m, d, i)
           && (forall t :: t in w.attestations ==> t.subject == KeyOf(d))
           && (exists t :: t in w.attestations && StatesProvenance(t))
           && w.metadataBytes + d.size <= 32_000_000
  {
    hide WalkArchive, IsImage;
    if WalkArchive(Native(arch), m).Accept? {
      var w := WalkArchive(Native(arch), m).value;
      GraphExactly(w);
      ProvenanceExactly(w);
      ImageIsItself(arch, m, w);
      if Accepted(arch, m) {
        ImageIsLeaf(arch, m);
        LeafIsListed(w.leaves, w.images[0].descriptor.digest);
      }
    }
  }

  lemma GraphExactly(w: Walk)
    ensures CompleteGraph(w) <==> exists i :: w.images == [i] && forall t :: t in w.attestations ==> t.subject == i.descriptor
  {
    if CompleteGraph(w) {
      assert w.images == [w.images[0]];
    }
  }

  lemma ProvenanceExactly(w: Walk)
    ensures HasProvenance(w) <==> exists t :: t in w.attestations && StatesProvenance(t)
  {
    forall t: Attestation ensures t.predicateTypes * PROVENANCE_TYPES != {} <==> StatesProvenance(t) {
      if StatesProvenance(t) {
        var x := if "https://slsa.dev/provenance/v1" in t.predicateTypes then "https://slsa.dev/provenance/v1" else "https://slsa.dev/provenance/v0.2";
        assert x in t.predicateTypes * PROVENANCE_TYPES;
      } else {
        assert forall x :: x !in t.predicateTypes * PROVENANCE_TYPES;
      }
    }
  }

  lemma ImageIsItself(arch: Arch, m: Members, w: Walk)
    ensures forall d, i :: IsImage(arch, m, d, i) ==> i.descriptor == KeyOf(d)
  {
  }

  lemma {:induction false} LeafIsListed(leaves: seq<Descriptor>, digest: Digest)
    requires exists k :: 0 <= k < |leaves| && leaves[k].digest == digest
    ensures FirstWith(leaves, digest) in leaves && FirstWith(leaves, digest).digest == digest
  {
    if leaves[0].digest != digest {
      LeafIsListed(leaves[1..], digest);
    }
  }
}
