/**
 Which descriptors a walk visits: every path down the indexes of an accepted archive is short, all that lies on it
 fits, and it ends at a leaf of the walk; and each leaf of the walk is the end of such a path.
 */
module OciGraph {
  import opened Basics
  import opened OciArchive
  import opened OciImages
  import OciMerge

  /** The document is an index that may be walked. */
  ghost predicate IndexFits(data: Doc) {
    && data.schemaVersion == Some(2) && (data.mediaType.Some? ==> data.mediaType.value == IndexType)
    && data.subject.None? && data.artifact.None?
    && data.manifests.Some? && 1 <= |data.manifests.value| <= 1024
  }

  /** The descriptor is of an index or a manifest that is there and says what it is. */
  ghost predicate DescriptorFits(m: Members, d: Descriptor) {
    && (d.mediaType == IndexType || d.mediaType == ManifestType) && BlobFits(m, d, {d.mediaType})
    && 0 < d.size <= 2_000_000 && m[Blob(d.digest)].doc.Some?
    && var data := m[Blob(d.digest)].doc.value;
       data.schemaVersion == Some(2) && (data.mediaType.Some? ==> data.mediaType.value == d.mediaType)
  }

  lemma EnterExactly(m: Members, d: Descriptor, depth: nat, w: Walk)
    ensures var r := Enter(m, d, depth, w);
      && (r.Accept? <==>
            DescriptorFits(m, d) && depth <= 8 && w.visited + 1 <= 1024 && w.metadataBytes + d.size <= 32_000_000)
      && (r.Accept? ==>
            && Blob(d.digest) in m && m[Blob(d.digest)].doc == Some(r.value.0)
            && r.value.1 == w.(visited := w.visited + 1, metadataBytes := w.metadataBytes + d.size,
                               metadataNames := w.metadataNames + {Blob(d.digest)}, sized := w.sized + {Blob(d.digest)}))
  {
    assert d.mediaType in {IndexType, ManifestType} <==> d.mediaType == IndexType || d.mediaType == ManifestType;
    if Blob(d.digest) in m && m[Blob(d.digest)].doc.Some? {
      var data := m[Blob(d.digest)].doc.value;
      assert data.mediaType in {None, Some(d.mediaType)} <==> (data.mediaType.Some? ==> data.mediaType.value == d.mediaType);
    }
  }

  lemma {:induction false} IndexExactly(p: Profile, m: Members, data: Doc, depth: nat, w: Walk)
    requires depth <= 9
    ensures WalkIndex(p, m, data, depth, w) ==
      if IndexFits(data) then WalkAll(p, m, data.manifests.value, depth, w) else Reject
  {
    hide WalkAll;
  }

  /** The manifests that a descriptor leads to. */
  function Below(m: Members, d: Descriptor): seq<Descriptor> {
    if d.mediaType == IndexType && Blob(d.digest) in m && m[Blob(d.digest)].doc.Some? && m[Blob(d.digest)].doc.value.manifests.Some?
    then m[Blob(d.digest)].doc.value.manifests.value
    else []
  }

  /** One descriptor after the other, each below the one before it. */
  ghost predicate IsPath(m: Members, children: seq<Descriptor>, path: seq<Descriptor>)
    decreases |path|
  {
    path != [] && path[0] in children && (|path| > 1 ==> IsPath(m, Below(m, path[0]), path[1..]))
  }

  /** What holds at the end of a path in a walk that ends well. */
  ghost predicate EndFits(m: Members, r: Walk, path: seq<Descriptor>)
    requires path != []
  {
    var d := path[|path| - 1];
    && DescriptorFits(m, d)
    && if d.mediaType == IndexType then IndexFits(m[Blob(d.digest)].doc.value) else d in r.leaves && d.annotationsOk
  }

  lemma LeafKeepsAll(p: Profile, m: Members, w: Walk, d: Descriptor, data: Doc)
    requires VisitLeaf(p, m, w, d, data).Accept?
    ensures VisitLeaf(p, m, w, d, data).value.leaves == w.leaves + [d] && d.annotationsOk
  {
    hide Leaf;
    OciMerge.LeafKeepsLeaves(p, m, w, d, data);
  }

  lemma {:induction false} PathFrom(m: Members, d: Descriptor, path: seq<Descriptor>)
    ensures IsPath(m, [d], path) ==> path[0] == d && (path == [d] || (|path| > 1 && IsPath(m, Below(m, d), path[1..])))
    ensures IsPath(m, [d], path) && d.mediaType != IndexType ==> path == [d]
  {
    if IsPath(m, [d], path) && |path| == 1 {
      assert path == [path[0]];
    }
  }

  lemma {:induction false} OneReaches(p: Profile, m: Members, d: Descriptor, depth: nat, w: Walk, path: seq<Descriptor>)
    requires depth <= 9 && WalkOne(p, m, d, depth, w).Accept?
    ensures forall l :: l in w.leaves ==> l in WalkOne(p, m, d, depth, w).value.leaves
    ensures IsPath(m, [d], path) ==> depth + |path| <= 9 && EndFits(m, WalkOne(p, m, d, depth, w).value, path)
    decreases 10 - depth, 0, 0
  {
    hide Enter, WalkIndex, VisitLeaf, DescriptorFits, IndexFits;
    EnterExactly(m, d, depth, w);
    var (data, w1) := Enter(m, d, depth, w).value;
    var r := WalkOne(p, m, d, depth, w).value;
    if d.mediaType == IndexType {
      IndexExactly(p, m, data, depth + 1, w1);
      IndexHasManifests(data);
      var rest := if path == [] then [] else path[1..];
      AllReach(p, m, data.manifests.value, depth + 1, w1, rest);
      assert Below(m, d) == data.manifests.value;
      assert rest != [] ==> rest[|rest| - 1] == path[|path| - 1];
      PathFrom(m, d, path);
    } else {
      LeafKeepsAll(p, m, w1, d, data);
      PathFrom(m, d, path);
    }
  }

  lemma IndexHasManifests(data: Doc)
    requires IndexFits(data)
    ensures data.manifests.Some?
  {
  }

  lemma {:induction false} AllReach(p: Profile, m: Members, children: seq<Descriptor>, depth: nat, w: Walk, path: seq<Descriptor>)
    requires depth <= 9 && WalkAll(p, m, children, depth, w).Accept?
    ensures forall l :: l in w.leaves ==> l in WalkAll(p, m, children, depth, w).value.leaves
    ensures IsPath(m, children, path) ==> depth + |path| <= 9 && EndFits(m, WalkAll(p, m, children, depth, w).value, path)
    decreases 10 - depth, 1, |children|
  {
    hide WalkOne, DescriptorFits, IndexFits;
    if children != [] {
      var most, last := children[..|children| - 1], children[|children| - 1];
      assert children == most + [last];
      AllReach(p, m, most, depth, w, path);
      OneReaches(p, m, last, depth, WalkAll(p, m, most, depth, w).value, path);
      assert IsPath(m, children, path) ==> IsPath(m, most, path) || IsPath(m, [last], path);
    }
  }

  // ----- every leaf is reached

  ghost predicate IsReached(m: Members, children: seq<Descriptor>, d: Descriptor) {
    exists path :: IsPath(m, children, path) && path[|path| - 1] == d
  }

  lemma ReachedBelow(m: Members, children: seq<Descriptor>, d: Descriptor, l: Descriptor)
    requires d in children && IsReached(m, Below(m, d), l)
    ensures IsReached(m, children, l)
  {
    var path :| IsPath(m, Below(m, d), path) && path[|path| - 1] == l;
    var longer := [d] + path;
    assert longer[1..] == path && longer[|longer| - 1] == l;
    assert IsPath(m, children, longer);
  }

  lemma ReachedHere(m: Members, children: seq<Descriptor>, d: Descriptor)
    requires d in children
    ensures IsReached(m, children, d)
  {
    assert IsPath(m, children, [d]) && [d][|[d]| - 1] == d;
  }

  lemma ReachedAmong(m: Members, some: seq<Descriptor>, children: seq<Descriptor>, d: Descriptor)
    requires IsReached(m, some, d) && forall x :: x in some ==> x in children
    ensures IsReached(m, children, d)
  {
    var path :| IsPath(m, some, path) && path[|path| - 1] == d;
    assert IsPath(m, children, path);
  }

  lemma {:induction false} OneReached(p: Profile, m: Members, d: Descriptor, depth: nat, w: Walk, l: Descriptor)
    requires depth <= 9 && WalkOne(p, m, d, depth, w).Accept? && l in WalkOne(p, m, d, depth, w).value.leaves && l !in w.leaves
    ensures IsReached(m, [d], l) && l.mediaType == ManifestType
    decreases 10 - depth, 0, 0
  {
    hide Enter, WalkIndex, VisitLeaf, IndexFits, IsReached;
    EnterExactly(m, d, depth, w);
    var (data, w1) := Enter(m, d, depth, w).value;
    if d.mediaType == IndexType {
      IndexExactly(p, m, data, depth + 1, w1);
      IndexHasManifests(data);
      AllReached(p, m, data.manifests.value, depth + 1, w1, l);
      ReachedBelow(m, [d], d, l);
    } else {
      LeafKeepsAll(p, m, w1, d, data);
      ReachedHere(m, [d], d);
    }
  }

  lemma {:induction false} AllReached(p: Profile, m: Members, children: seq<Descriptor>, depth: nat, w: Walk, l: Descriptor)
    requires depth <= 9 && WalkAll(p, m, children, depth, w).Accept? && l in WalkAll(p, m, children, depth, w).value.leaves && l !in w.leaves
    ensures IsReached(m, children, l) && l.mediaType == ManifestType
    decreases 10 - depth, 1, |children|
  {
    hide WalkOne, IsReached;
    if children != [] {
      var most, last := children[..|children| - 1], children[|children| - 1];
      var before := WalkAll(p, m, most, depth, w).value;
      assert forall x :: x in most ==> x in children;
      if l in before.leaves {
        AllReached(p, m, most, depth, w, l);
        ReachedAmong(m, most, children, l);
      } else {
        OneReached(p, m, last, depth, before, l);
        ReachedAmong(m, [last], children, l);
      }
    }
  }

  /** The manifests of the root index. */
  function Top(m: Members): seq<Descriptor> {
    if Root in m && m[Root].doc.Some? && m[Root].doc.value.manifests.Some? then m[Root].doc.value.manifests.value else []
  }

  /** In an accepted archive every path is at most nine long and ends well, and its ends that are no indexes are the leaves. */
  lemma {:induction false} ArchiveReaches(p: Profile, m: Members)
    requires WalkArchive(p, m).Accept?
    ensures Root in m && m[Root].doc.Some? && IndexFits(m[Root].doc.value) && Layout in m && m[Layout].doc.Some? && m[Layout].doc.value.layoutOk
    ensures var w := WalkArchive(p, m).value;
      && (forall path :: IsPath(m, Top(m), path) ==> |path| <= 9 && EndFits(m, w, path))
      && (forall d :: d in w.leaves <==> IsReached(m, Top(m), d) && d.mediaType == ManifestType)
  {
    hide WalkAll, EndFits, DescriptorFits;
    var w1 := ReadJson(m, START, Layout, MAX_JSON).value.1;
    var (root, w2) := ReadJson(m, w1, Root, MAX_JSON).value;
    var w := WalkArchive(p, m).value;
    IndexExactly(p, m, root, 0, w2);
    forall path | IsPath(m, Top(m), path) ensures |path| <= 9 && EndFits(m, w, path) {
      AllReach(p, m, Top(m), 0, w2, path);
    }
    forall d ensures d in w.leaves <==> IsReached(m, Top(m), d) && d.mediaType == ManifestType {
      if d in w.leaves {
        AllReached(p, m, Top(m), 0, w2, d);
      }
      if d.mediaType == ManifestType {
        ReachedEnds(m, w, d);
      }
    }
  }

  lemma {:induction false} ReachedEnds(m: Members, w: Walk, d: Descriptor)
    requires d.mediaType == ManifestType && forall path :: IsPath(m, Top(m), path) ==> EndFits(m, w, path)
    ensures IsReached(m, Top(m), d) ==> d in w.leaves
  {
    if path :| IsPath(m, Top(m), path) && path[|path| - 1] == d {
      assert EndFits(m, w, path);
    }
  }
}
