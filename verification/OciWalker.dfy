/** The archive object: its fields accumulate while the walk goes down the graph. */
module OciWalker {
  import opened Basics
  import opened OciArchive
  import opened OciAttestations

  class Archive {
    const members: Members
    const profile: Profile
    var leaves: seq<Descriptor>
    var images: seq<Image>
    var attestations: seq<Attestation>
    var visited: nat
    var metadataBytes: nat
    var rootfsBytes: nat
    var metadataNames: set<Name>
    var attestationNames: set<Name>
    var layerIdentities: map<(Digest, MediaType), (Digest, nat)>
    var layerNames: set<Name>
    var sized: set<Name>

    function State(): Walk
      reads this
    {
      Walk(leaves, images, attestations, visited, metadataBytes, rootfsBytes, metadataNames, attestationNames,
           layerIdentities, layerNames, sized)
    }

    constructor (members: Members, profile: Profile)
      ensures this.members == members && this.profile == profile && State() == START
    {
      this.members, this.profile := members, profile;
      leaves, images, attestations := [], [], [];
      visited, metadataBytes, rootfsBytes := 0, 0, 0;
      metadataNames, attestationNames, layerIdentities, layerNames, sized := {}, {}, map[], {}, {};
    }

    /** Record what a leaf's checks accumulated. */
    method Accumulate(w: Walk)
      modifies this
      ensures State() == w
    {
      leaves, images, attestations := w.leaves, w.images, w.attestations;
      visited, metadataBytes, rootfsBytes := w.visited, w.metadataBytes, w.rootfsBytes;
      metadataNames, attestationNames := w.metadataNames, w.attestationNames;
      layerIdentities, layerNames, sized := w.layerIdentities, w.layerNames, w.sized;
    }

    method ReadJson(name: Name, limit: nat) returns (doc: Option<Doc>)
      modifies this`metadataNames, this`metadataBytes
      ensures match OciArchive.ReadJson(members, old(State()), name, limit)
        case Accept((d, w)) => doc == Some(d) && State() == w
        case Reject => doc.None?
    {
      metadataNames := metadataNames + {name};
      if name !in members || !(0 < members[name].size <= limit) {
        return None;
      }
      metadataBytes := metadataBytes + members[name].size;
      if metadataBytes > MAX_JSON_TOTAL {
        return None;
      }
      doc := members[name].doc;
    }

    method ReadBlob(d: Descriptor, types: set<MediaType>) returns (doc: Option<Doc>)
      modifies this`metadataNames, this`metadataBytes, this`sized
      ensures match OciArchive.ReadBlob(members, old(State()), Some(d), types)
        case Accept((v, w)) => doc == Some(v) && State() == w
        case Reject => doc.None?
    {
      var name := Blob(d.digest);
      if d.mediaType !in types || !d.plain || name !in members || members[name].size != d.size {
        return None;
      }
      sized := sized + {name};
      doc := ReadJson(name, MAX_JSON);
    }

    method WalkIndex(data: Doc, depth: nat) returns (ok: bool)
      requires depth <= 9
      modifies this
      ensures var r := OciArchive.WalkIndex(profile, members, data, depth, old(State()));
        ok == r.Accept? && (ok ==> State() == r.value)
      decreases 10 - depth, 1
    {
      hide State, OciArchive.WalkOne;
      if data.schemaVersion != Some(2) || data.mediaType !in {None, Some(IndexType)}
         || data.subject.Some? || data.artifact.Some?
         || data.manifests.None? || !(0 < |data.manifests.value| <= MAX_LIST) {
        return false;
      }
      var children := data.manifests.value;
      for i := 0 to |children|
        invariant WalkAll(profile, members, children[..i], depth, old(State())) == Accept(State())
      {
        assert children[..i + 1][..i] == children[..i];
        var next := WalkOne(children[i], depth);
        if !next {
          StaysRejected(profile, members, children, depth, old(State()), i + 1);
          return false;
        }
      }
      assert children[..|children|] == children;
      ok := true;
    }

    method WalkOne(d: Descriptor, depth: nat) returns (ok: bool)
      requires depth <= 9
      modifies this
      ensures var r := OciArchive.WalkOne(profile, members, d, depth, old(State()));
        ok == r.Accept? && (ok ==> State() == r.value)
      decreases 10 - depth, 0
    {
      var doc := Enter(d, depth);
      if doc.None? {
        return false;
      }
      if d.mediaType == IndexType {
        ok := WalkIndex(doc.value, depth + 1);
      } else {
        ok := VisitLeaf(d, doc.value);
      }
    }

    method Enter(d: Descriptor, depth: nat) returns (doc: Option<Doc>)
      modifies this
      ensures match OciArchive.Enter(members, d, depth, old(State()))
        case Accept((v, w)) => doc == Some(v) && State() == w
        case Reject => doc.None?
    {
      visited := visited + 1;
      if depth > 8 || visited > MAX_LIST {
        return None;
      }
      doc := ReadBlob(d, {IndexType, ManifestType});
      if doc.None? || doc.value.schemaVersion != Some(2) || doc.value.mediaType !in {None, Some(d.mediaType)} {
        return None;
      }
    }

    method VisitLeaf(d: Descriptor, doc: Doc) returns (ok: bool)
      modifies this
      ensures var r := OciArchive.VisitLeaf(profile, members, old(State()), d, doc);
        ok == r.Accept? && (ok ==> State() == r.value)
    {
      if !d.annotationsOk {
        return false;
      }
      var leaf := Leaf(profile, members, State(), d, doc);
      if leaf.Reject? {
        return false;
      }
      Accumulate(leaf.value);
      if exists i :: 0 <= i < |leaves| && leaves[i].digest == d.digest {
        return false;
      }
      leaves := leaves + [d];
      ok := true;
    }

    method Run() returns (ok: bool)
      requires State() == START
      modifies this
      ensures var r := WalkArchive(profile, members); ok == r.Accept? && (ok ==> State() == r.value)
      ensures ok && profile.Native? ==> Recorded(profile.arch, members, State())
    {
      hide Recorded, OciArchive.WalkOne, WalkAll;
      var layout := ReadJson(Layout, MAX_JSON);
      if layout.None? || !layout.value.layoutOk {
        return false;
      }
      var root := ReadJson(Root, MAX_JSON);
      if root.None? {
        return false;
      }
      ok := WalkIndex(root.value, 0);
      if ok && profile.Native? {
        ArchiveRecords(profile.arch, members);
      }
    }
  }

  /** A list is rejected as soon as one of its prefixes is. */
  lemma {:induction false} StaysRejected(p: Profile, m: Members, children: seq<Descriptor>, depth: nat, w: Walk, i: nat)
    requires depth <= 9 && i <= |children| && WalkAll(p, m, children[..i], depth, w).Reject?
    ensures WalkAll(p, m, children, depth, w).Reject?
    decreases |children| - i
  {
    if i == |children| {
      assert children[..i] == children;
    } else {
      assert children[..i + 1][..i] == children[..i];
      StaysRejected(p, m, children, depth, w, i + 1);
    }
  }
}
