/** Merging two native archives under one generated index, and what a walk of the result reaches. */
module OciMerge {
  import opened Basics
  import opened OciArchive
  import opened OciReplay
  import opened OciDetach

  // ----- order of the leaves

  function ArchRank(d: Descriptor): nat {
    if d.platform.None? || d.platform.value.arch.None? then 4
    else match d.platform.value.arch.value
         case Amd64 => 0
         case Arm64 => 1
         case UnknownArch => 2
         case OtherArch => 3
  }

  predicate IsUnknown(d: Descriptor) { d.platform.Some? && d.platform.value.os == Some(UnknownOs) }

  /** Runnable images first, then by architecture (in text order), then by digest. */
  predicate Before(x: Descriptor, y: Descriptor) {
    || (!IsUnknown(x) && IsUnknown(y))
    || (IsUnknown(x) == IsUnknown(y)
        && (ArchRank(x) < ArchRank(y) || (ArchRank(x) == ArchRank(y) && x.digest < y.digest)))
  }

  /** Stable: a leaf goes after all that are not after it. */
  function Insert(s: seq<Descriptor>, d: Descriptor): seq<Descriptor> {
    if s == [] || !Before(d, s[|s| - 1]) then s + [d]
    else Insert(s[..|s| - 1], d) + [s[|s| - 1]]
  }

  function Sort(s: seq<Descriptor>): seq<Descriptor> {
    if s == [] then [] else Insert(Sort(s[..|s| - 1]), s[|s| - 1])
  }

  predicate Sorted(s: seq<Descriptor>) {
    forall i, j :: 0 <= i < j < |s| ==> !Before(s[j], s[i])
  }

  predicate DistinctDigests(s: seq<Descriptor>) {
    forall i, j :: 0 <= i < j < |s| ==> s[i].digest != s[j].digest
  }

  lemma {:induction false} InsertAdds(s: seq<Descriptor>, d: Descriptor)
    ensures multiset(Insert(s, d)) == multiset(s) + multiset{d}
    ensures forall i :: 0 <= i < |Insert(s, d)| ==> Insert(s, d)[i] == d || Insert(s, d)[i] in s
  {
    if s != [] && Before(d, s[|s| - 1]) {
      InsertAdds(s[..|s| - 1], d);
      assert s == s[..|s| - 1] + [s[|s| - 1]];
    }
  }

  lemma {:induction false} InsertSorts(s: seq<Descriptor>, d: Descriptor)
    requires Sorted(s)
    ensures Sorted(Insert(s, d))
  {
    if s != [] && Before(d, s[|s| - 1]) {
      var most, last := s[..|s| - 1], s[|s| - 1];
      InsertSorts(most, d);
      InsertAdds(most, d);
      forall i | 0 <= i < |Insert(most, d)| ensures !Before(last, Insert(most, d)[i]) {
        assert Insert(most, d)[i] == d || exists j :: 0 <= j < |most| && most[j] == Insert(most, d)[i];
      }
    }
  }

  lemma {:induction false} SortKeeps(s: seq<Descriptor>)
    ensures Sorted(Sort(s)) && multiset(Sort(s)) == multiset(s)
  {
    if s != [] {
      SortKeeps(s[..|s| - 1]);
      assert s == s[..|s| - 1] + [s[|s| - 1]];
      InsertAdds(Sort(s[..|s| - 1]), s[|s| - 1]);
      InsertSorts(Sort(s[..|s| - 1]), s[|s| - 1]);
    }
  }

  lemma SameMembers(s: seq<Descriptor>, t: seq<Descriptor>)
    requires multiset(s) == multiset(t)
    ensures |s| == |t| && forall d :: d in s <==> d in t
  {
    assert |multiset(s)| == |s| && |multiset(t)| == |t|;
    forall d ensures d in s <==> d in t {
      assert d in s <==> d in multiset(s);
      assert d in t <==> d in multiset(t);
    }
  }

  /** Leaves between which the order says nothing. */
  predicate Tied(x: Descriptor, y: Descriptor) { !Before(x, y) && !Before(y, x) }

  /** When only equal leaves tie, only one order is sorted. */
  lemma {:induction false} SortedUnique(s: seq<Descriptor>, t: seq<Descriptor>)
    requires Sorted(s) && Sorted(t) && multiset(s) == multiset(t)
    requires forall x, y :: x in s && y in s && Tied(x, y) ==> x == y
    ensures s == t
    decreases |s|
  {
    SameMembers(s, t);
    if s != [] {
      LastIsSame(s, t);
      DropLast(s);
      DropLast(t);
      SortedUnique(s[..|s| - 1], t[..|t| - 1]);
    }
  }

  lemma DropLast(s: seq<Descriptor>)
    requires s != []
    ensures var most, last := s[..|s| - 1], s[|s| - 1];
      s == most + [last] && multiset(most) == multiset(s) - multiset{last} && forall x :: x in most ==> x in s
  {
    assert s == s[..|s| - 1] + [s[|s| - 1]];
  }

  lemma LastIsSame(s: seq<Descriptor>, t: seq<Descriptor>)
    requires Sorted(s) && Sorted(t) && |s| == |t| > 0 && forall d :: d in s <==> d in t
    requires forall x, y :: x in s && y in s && Tied(x, y) ==> x == y
    ensures s[|s| - 1] == t[|t| - 1]
  {
    var a, b := s[|s| - 1], t[|t| - 1];
    assert a in t && b in s;
    var i :| 0 <= i < |t| && t[i] == a;
    var j :| 0 <= j < |s| && s[j] == b;
    assert !Before(b, a) || i == |t| - 1;
    assert !Before(a, b) || j == |s| - 1;
  }

  /** The leaves that tie with `x`, in their order. */
  function TiesOf(s: seq<Descriptor>, x: Descriptor): seq<Descriptor> {
    if s == [] then [] else TiesOf(s[..|s| - 1], x) + if Tied(s[|s| - 1], x) then [s[|s| - 1]] else []
  }

  lemma {:induction false} TiesOfSum(s: seq<Descriptor>, t: seq<Descriptor>, x: Descriptor)
    ensures TiesOf(s + t, x) == TiesOf(s, x) + TiesOf(t, x)
    decreases |t|
  {
    if t == [] {
      assert s + t == s;
    } else {
      TiesOfSum(s, t[..|t| - 1], x);
      assert (s + t)[..|s + t| - 1] == s + t[..|t| - 1];
    }
  }

  lemma {:induction false} InsertTies(s: seq<Descriptor>, d: Descriptor, x: Descriptor)
    ensures TiesOf(Insert(s, d), x) == TiesOf(s, x) + if Tied(d, x) then [d] else []
  {
    if s == [] || !Before(d, s[|s| - 1]) {
      assert (s + [d])[..|s|] == s;
    } else {
      InsertTies(s[..|s| - 1], d, x);
      var r := Insert(s[..|s| - 1], d) + [s[|s| - 1]];
      assert r[..|r| - 1] == Insert(s[..|s| - 1], d);
    }
  }

  /** Sorting is stable. */
  lemma {:induction false} SortTies(s: seq<Descriptor>, x: Descriptor)
    ensures TiesOf(Sort(s), x) == TiesOf(s, x)
  {
    if s != [] {
      SortTies(s[..|s| - 1], x);
      InsertTies(Sort(s[..|s| - 1]), s[|s| - 1], x);
    }
  }

  /** A leaf ties with itself alone among leaves with distinct digests. */
  lemma {:induction false} TiesOfOne(s: seq<Descriptor>, x: Descriptor, y: Descriptor)
    requires DistinctDigests(s) && Tied(x, y)
    ensures x in s ==> TiesOf(s, y) == [x]
    ensures (forall z :: z in s ==> z.digest != y.digest) ==> TiesOf(s, y) == []
  {
    if s != [] {
      var most, last := s[..|s| - 1], s[|s| - 1];
      assert s == most + [last];
      TiesOfOne(most, x, y);
      assert x in s ==> x in most || x == last;
      if x == last {
        assert forall z :: z in most ==> z.digest != y.digest;
      }
    }
  }

  /**
   The index lists the leaves in the same order whichever input comes first exactly when leaves of the two that
   tie - by kind, architecture and digest - are the same descriptor.
   */
  lemma {:induction false} OrderIndependent(s: seq<Descriptor>, t: seq<Descriptor>)
    requires DistinctDigests(s) && DistinctDigests(t)
    ensures Sort(s + t) == Sort(t + s) <==> forall x, y :: x in s && y in t && Tied(x, y) ==> x == y
  {
    if forall x, y :: x in s && y in t && Tied(x, y) ==> x == y {
      OnlyEqualTie(s, t);
      SortKeeps(s + t);
      SortKeeps(t + s);
      SameMembers(Sort(s + t), s + t);
      assert multiset(s + t) == multiset(s) + multiset(t) == multiset(t + s);
      SortedUnique(Sort(s + t), Sort(t + s));
    }
    if Sort(s + t) == Sort(t + s) {
      forall x, y | x in s && y in t && Tied(x, y) ensures x == y {
        TieIsSeen(s, t, x, y);
      }
    }
  }

  lemma OnlyEqualTie(s: seq<Descriptor>, t: seq<Descriptor>)
    requires DistinctDigests(s) && DistinctDigests(t)
    requires forall x, y :: x in s && y in t && Tied(x, y) ==> x == y
    ensures forall x, y :: x in s + t && y in s + t && Tied(x, y) ==> x == y
  {
    forall x, y | x in s + t && y in s + t && Tied(x, y) ensures x == y {
      OwnTies(s, x, y);
      OwnTies(t, x, y);
      assert Tied(y, x);
    }
  }

  lemma OwnTies(s: seq<Descriptor>, x: Descriptor, y: Descriptor)
    requires DistinctDigests(s) && Tied(x, y)
    ensures x in s && y in s ==> x == y
  {
    assert Tied(x, y) ==> x.digest == y.digest;
  }

  /** Of two leaves that tie, the one of the first input is listed first. */
  lemma {:induction false} TieIsSeen(s: seq<Descriptor>, t: seq<Descriptor>, x: Descriptor, y: Descriptor)
    requires DistinctDigests(s) && DistinctDigests(t) && x in s && y in t && Tied(x, y)
    ensures TiesOf(Sort(s + t), x) == [x, y] && TiesOf(Sort(t + s), x) == [y, x]
  {
    SortTies(s + t, x);
    SortTies(t + s, x);
    TiesOfSum(s, t, x);
    TiesOfSum(t, s, x);
    TiesOfOne(s, x, x);
    TiesOfOne(t, y, x);
  }

  /**
   No leaf of an unknown system is listed before another leaf; among leaves of one kind none for ARM is listed before one
   for AMD, and among those of one platform the digests grow.
   */
  lemma {:induction false} ImagesFirst(s: seq<Descriptor>, i: nat, j: nat)
    requires i < j < |Sort(s)| && Sort(s)[i].platform.Some? && Sort(s)[j].platform.Some?
    ensures var p, q := Sort(s)[i].platform.value, Sort(s)[j].platform.value;
      && (p.os == Some(UnknownOs) ==> q.os == Some(UnknownOs))
      && ((p.os == Some(UnknownOs) <==> q.os == Some(UnknownOs)) ==>
            && (p.arch == Some(Arm64) ==> q.arch != Some(Amd64))
            && (p.arch == q.arch ==> Sort(s)[i].digest <= Sort(s)[j].digest))
  {
    SortKeeps(s);
  }

  // ----- the merged archive

  /** The three generated members; sizes are those of the canonical JSON text. */
  datatype Generated = Generated(layout: Content, root: Content, inner: Content, innerDigest: Digest)

  function IndexDoc(manifests: seq<Descriptor>): Doc {
    Doc(Some(2), Some(IndexType), None, Some(manifests), None, None, None, false,
        Platform(None, None, None, false), false, None, false, None)
  }

  function IndexEntry(g: Generated): Descriptor {
    Descriptor(IndexType, g.innerDigest, g.inner.size, true, None, true, None, None, None)
  }

  ghost predicate IsGenerated(g: Generated, leaves: seq<Descriptor>) {
    && g.layout.doc.Some? && g.layout.doc.value.layoutOk && 0 < g.layout.size <= 1000
    && g.root.doc == Some(IndexDoc([IndexEntry(g)])) && 0 < g.root.size <= 1000
    && g.inner.doc == Some(IndexDoc(leaves)) && 0 < g.inner.size
  }

  function GeneratedMembers(g: Generated): Members {
    map[Layout := g.layout, Root := g.root, Blob(g.innerDigest) := g.inner]
  }

  function Blobs(m: Members): Members {
    map n | n in m && n.Blob? :: m[n]
  }

  function Merged(g: Generated, a: Members, b: Members): Members {
    Blobs(a) + Blobs(b) + GeneratedMembers(g)
  }

  /** The table with all entries but those that are left. */
  predicate Added(before: Members, entries: Members, left: set<Name>, blobs: Members) { blobs == before + (entries - left) }

  /** None of the entries that were added had another size before. */
  ghost predicate SameSizes(before: Members, entries: Members, left: set<Name>) {
    forall n :: n in entries && n !in left && n in before ==> before[n].size == entries[n].size
  }

  lemma OneBlobMore(before: Members, entries: Members, left: set<Name>, n: Name, blobs: Members)
    requires Added(before, entries, left, blobs) && n in left && n in entries
    ensures Added(before, entries, left - {n}, blobs[n := entries[n]])
    ensures n in blobs <==> n in before
    ensures n in before ==> blobs[n] == before[n]
  {
    assert before + (entries - (left - {n})) == (before + (entries - left))[n := entries[n]];
  }

  lemma AllAdded(before: Members, entries: Members)
    ensures Added(before, entries, entries.Keys, before) && SameSizes(before, entries, entries.Keys)
    ensures forall blobs :: Added(before, entries, {}, blobs) ==> blobs == before + entries
    ensures SameSizes(before, entries, {}) <==> forall n :: n in entries && n in before ==> before[n].size == entries[n].size
  {
    assert entries - {} == entries;
    assert before + (entries - entries.Keys) == before;
  }

  lemma OneSizeMore(before: Members, entries: Members, left: set<Name>, n: Name)
    requires SameSizes(before, entries, left) && n in left && n in entries
    requires n in before ==> before[n].size == entries[n].size
    ensures SameSizes(before, entries, left - {n})
  {
  }

  /** Add one archive's blobs; a name already there must have the same size. */
  method AddBlobs(before: Members, entries: Members) returns (ok: bool, blobs: Members)
    ensures ok == forall n :: n in entries && n in before ==> before[n].size == entries[n].size
    ensures ok ==> blobs == before + entries
  {
    hide Added, SameSizes;
    AllAdded(before, entries);
    blobs := before;
    var left := entries.Keys;
    while left != {}
      invariant left <= entries.Keys
      invariant Added(before, entries, left, blobs) && SameSizes(before, entries, left)
      decreases |left|
    {
      var n :| n in left;
      OneBlobMore(before, entries, left, n, blobs);
      if n in blobs && blobs[n].size != entries[n].size {
        return false, blobs;
      }
      OneSizeMore(before, entries, left, n);
      blobs, left := blobs[n := entries[n]], left - {n};
    }
    ok := true;
  }

  /** The blobs of both archives, refused only when a shared name has two sizes. */
  method CollectBlobs(a: Members, b: Members) returns (ok: bool, blobs: Members)
    ensures ok == forall n :: n in Blobs(a) && n in Blobs(b) ==> a[n].size == b[n].size
    ensures ok ==> blobs == Blobs(a) + Blobs(b)
  {
    ok, blobs := AddBlobs(map[], Blobs(a));
    assert map[] + Blobs(a) == Blobs(a);
    ok, blobs := AddBlobs(blobs, Blobs(b));
  }

  /** Every input blob is in the result, unchanged. */
  lemma BlobsKept(g: Generated, a: Members, b: Members, bytesOf: Digest -> Content, n: Name)
    requires ContentAddressed(a, bytesOf) && ContentAddressed(b, bytesOf) && g.inner == bytesOf(g.innerDigest)
    requires n.Blob? && (n in a || n in b)
    ensures n in Merged(g, a, b) && Merged(g, a, b)[n] == if n in a then a[n] else b[n]
  {
    assert n in a ==> a[Blob(n.digest)] == bytesOf(n.digest);
    assert n in b ==> b[Blob(n.digest)] == bytesOf(n.digest);
  }

  /** The merged archive with one input's own members in place of the generated ones, blobs aside. */
  function UnderRootOf(merged: Members, input: Members): Members {
    merged + map n | n in input && !n.Blob? :: input[n]
  }

  lemma InputKept(g: Generated, a: Members, b: Members, bytesOf: Digest -> Content, input: Members, n: Name)
    requires ContentAddressed(a, bytesOf) && ContentAddressed(b, bytesOf) && g.inner == bytesOf(g.innerDigest)
    requires (input == a || input == b) && n in input
    ensures var m := UnderRootOf(Merged(g, a, b), input); n in m && m[n] == input[n]
  {
    if n.Blob? {
      BlobsKept(g, a, b, bytesOf, n);
      assert n in a ==> a[Blob(n.digest)] == bytesOf(n.digest);
      assert n in b ==> b[Blob(n.digest)] == bytesOf(n.digest);
    }
  }

  /**
   Merging keeps what each input passed: under its own root, the full platform walk of an input - layers,
   attestations and budgets included - ends on the merged blobs as it did before.
   */
  lemma InputsReplay(g: Generated, a: Members, b: Members, bytesOf: Digest -> Content, arch: Arch, input: Members)
    requires ContentAddressed(a, bytesOf) && ContentAddressed(b, bytesOf) && g.inner == bytesOf(g.innerDigest)
    requires (input == a || input == b) && WalkArchive(Native(arch), input).Accept?
    ensures WalkArchive(Native(arch), UnderRootOf(Merged(g, a, b), input)) == WalkArchive(Native(arch), input)
  {
    var w, m := WalkArchive(Native(arch), input).value, UnderRootOf(Merged(g, a, b), input);
    forall n | n in input ensures n in m && m[n] == input[n] {
      InputKept(g, a, b, bytesOf, input, n);
    }
    SupersetReplays(Native(arch), input, m, w);
  }

  /** A walk replays on any archive that has all members of the first. */
  lemma SupersetReplays(p: Profile, a: Members, m: Members, w: Walk)
    requires WalkArchive(p, a) == Accept(w) && forall n :: n in a ==> n in m && m[n] == a[n]
    ensures WalkArchive(p, m) == Accept(w)
  {
    WalkReplays(p, a, m);
    assert Agree(a, m, w);
  }

  // ----- leaves of a native walk can be read again

  ghost predicate LeafReadable(m: Members, d: Descriptor) {
    && d.mediaType == ManifestType && d.plain && d.annotationsOk
    && Blob(d.digest) in m
    && var c := m[Blob(d.digest)];
       && c.size == d.size && 0 < c.size <= MAX_JSON && c.doc.Some?
       && c.doc.value.schemaVersion == Some(2) && c.doc.value.mediaType in {None, Some(ManifestType)}
  }

  ghost predicate LeavesOk(m: Members, w: Walk) {
    && DistinctDigests(w.leaves)
    && |w.images| <= |w.leaves| <= w.visited
    && forall i :: 0 <= i < |w.leaves| ==> LeafReadable(m, w.leaves[i])
  }

  lemma LeafKeepsLeaves(p: Profile, m: Members, w: Walk, d: Descriptor, data: Doc)
    requires Leaf(p, m, w, d, data).Accept?
    ensures var r := Leaf(p, m, w, d, data).value; r.leaves == w.leaves && r.visited == w.visited && |r.images| <= |w.images| + 1
  {
    if p.Native? {
      if d.reference == Some(AttestationManifest) || data.artifact == Some(AttestationArtifact) {
        AttestationKeepsLeaves(p.arch, m, w, d, data);
      } else {
        ImageKeepsLeaves(p.arch, m, w, d, data);
      }
    } else if p.BothPlatforms? {
      ImageKeepsLeaves(d.platform.value.arch.value, m, w, d, data);
    }
  }

  lemma {:induction false} CheckBlobsKeepLeaves(m: Members, w: Walk, ds: seq<Descriptor>, types: set<MediaType>)
    requires CheckBlobs(m, w, ds, types).Accept?
    ensures var r := CheckBlobs(m, w, ds, types).value; r.leaves == w.leaves && r.visited == w.visited && r.images == w.images
    decreases |ds|
  {
    if ds != [] {
      CheckBlobsKeepLeaves(m, CheckBlob(m, w, ds[0], types).value, ds[1..], types);
    }
  }

  lemma {:induction false} CheckLayersKeepLeaves(m: Members, w: Walk, layers: seq<Descriptor>, diffIds: seq<Digest>)
    requires |layers| == |diffIds| && CheckLayers(m, w, layers, diffIds).Accept?
    ensures var r := CheckLayers(m, w, layers, diffIds).value; r.leaves == w.leaves && r.visited == w.visited && r.images == w.images
    decreases |layers|
  {
    if layers != [] {
      CheckLayersKeepLeaves(m, LayerDigest(m, w, layers[0]).value.1, layers[1..], diffIds[1..]);
    }
  }

  lemma ImageKeepsLeaves(arch: Arch, m: Members, w: Walk, d: Descriptor, data: Doc)
    requires ImageLeaf(arch, m, w, d, data).Accept?
    ensures var r := ImageLeaf(arch, m, w, d, data).value; r.leaves == w.leaves && r.visited == w.visited && |r.images| <= |w.images| + 1
  {
    var (details, w1) := ReadBlob(m, w, data.config, {ConfigType}).value;
    CheckBlobsKeepLeaves(m, w1, data.layers.value, LAYER_TYPES);
    CheckLayersKeepLeaves(m, CheckBlobs(m, w1, data.layers.value, LAYER_TYPES).value, data.layers.value, details.diffIds.value);
  }

  lemma {:induction false} StatementsKeepLeaves(m: Members, w: Walk, layers: seq<Descriptor>, subject: Digest)
    requires ReadStatements(m, w, layers, subject).Accept?
    ensures var r := ReadStatements(m, w, layers, subject).value.1; r.leaves == w.leaves && r.visited == w.visited && r.images == w.images
    decreases |layers|
  {
    if layers != [] {
      var name := Blob(layers[0].digest);
      var w2 := ReadJson(m, CheckBlob(m, w, layers[0], {InToto}).value, name, MAX_ATTESTATION_JSON).value.1;
      StatementsKeepLeaves(m, w2.(attestationNames := w2.attestationNames + {name}), layers[1..], subject);
    }
  }

  lemma AttestationKeepsLeaves(arch: Arch, m: Members, w: Walk, d: Descriptor, data: Doc)
    requires AttestationLeaf(arch, m, w, d, data).Accept?
    ensures var r := AttestationLeaf(arch, m, w, d, data).value; r.leaves == w.leaves && r.visited == w.visited && r.images == w.images
  {
    var s := if data.artifact.Some? then ArtifactSubject(arch, m, w, d, data) else LegacySubject(m, w, d, data);
    assert s.value.1.leaves == w.leaves && s.value.1.visited == w.visited && s.value.1.images == w.images;
    StatementsKeepLeaves(m, s.value.1, data.layers.value, s.value.0.digest);
  }

  lemma {:induction false} WalkOneLeaves(p: Profile, m: Members, d: Descriptor, depth: nat, w: Walk)
    requires depth <= 9 && LeavesOk(m, w) && WalkOne(p, m, d, depth, w).Accept?
    ensures LeavesOk(m, WalkOne(p, m, d, depth, w).value)
    decreases 10 - depth, 0, 0
  {
    hide Leaf;
    var w0 := w.(visited := w.visited + 1);
    var (data, w1) := ReadBlob(m, w0, Some(d), {IndexType, ManifestType}).value;
    if d.mediaType == IndexType {
      WalkAllLeaves(p, m, data.manifests.value, depth + 1, w1);
    } else {
      LeafKeepsLeaves(p, m, w1, d, data);
    }
  }

  lemma {:induction false} WalkAllLeaves(p: Profile, m: Members, children: seq<Descriptor>, depth: nat, w: Walk)
    requires depth <= 9 && LeavesOk(m, w) && WalkAll(p, m, children, depth, w).Accept?
    ensures LeavesOk(m, WalkAll(p, m, children, depth, w).value)
    decreases 10 - depth, 1, |children|
  {
    if children != [] {
      var most := children[..|children| - 1];
      WalkAllLeaves(p, m, most, depth, w);
      WalkOneLeaves(p, m, children[|children| - 1], depth, WalkAll(p, m, most, depth, w).value);
    }
  }

  lemma ArchiveLeaves(p: Profile, m: Members)
    requires WalkArchive(p, m).Accept?
    ensures LeavesOk(m, WalkArchive(p, m).value)
  {
    var w1 := ReadJson(m, START, Layout, MAX_JSON).value.1;
    var (root, w2) := ReadJson(m, w1, Root, MAX_JSON).value;
    WalkAllLeaves(p, m, root.manifests.value, 0, w2);
  }

  // ----- walking the merged archive

  function TotalSize(leaves: seq<Descriptor>): nat {
    if leaves == [] then 0 else TotalSize(leaves[..|leaves| - 1]) + leaves[|leaves| - 1].size
  }

  /** The part of a structural walk that decides it. */
  datatype Tally = Tally(leaves: seq<Descriptor>, visited: nat, bytes: nat)

  function TallyOf(w: Walk): Tally { Tally(w.leaves, w.visited, w.metadataBytes) }

  predicate Listed(leaves: seq<Descriptor>, d: Descriptor) {
    exists i :: 0 <= i < |leaves| && leaves[i].digest == d.digest
  }

  function CountLeaf(t: Tally, d: Descriptor): Result<Tally> {
    if t.visited < MAX_LIST && t.bytes + d.size <= MAX_JSON_TOTAL && !Listed(t.leaves, d) then
      Accept(Tally(t.leaves + [d], t.visited + 1, t.bytes + d.size))
    else Reject
  }

  function CountAll(t: Tally, leaves: seq<Descriptor>): Result<Tally> {
    if leaves == [] then Accept(t)
    else
      var before :- CountAll(t, leaves[..|leaves| - 1]);
      CountLeaf(before, leaves[|leaves| - 1])
  }

  ghost predicate Matches(r: Result<Walk>, t: Result<Tally>) {
    r.Accept? == t.Accept? && (r.Accept? ==> TallyOf(r.value) == t.value)
  }

  lemma {:induction false} OneLeaf(m: Members, d: Descriptor, w: Walk)
    requires LeafReadable(m, d)
    ensures Matches(WalkOne(Structure, m, d, 1, w), CountLeaf(TallyOf(w), d))
  {
  }

  lemma {:induction false} WalkCounts(m: Members, leaves: seq<Descriptor>, w: Walk)
    requires forall d :: d in leaves ==> LeafReadable(m, d)
    ensures Matches(WalkAll(Structure, m, leaves, 1, w), CountAll(TallyOf(w), leaves))
    decreases |leaves|
  {
    if leaves != [] {
      var most, last := leaves[..|leaves| - 1], leaves[|leaves| - 1];
      WalkCounts(m, most, w);
      var before := WalkAll(Structure, m, most, 1, w);
      if before.Accept? {
        OneLeaf(m, last, before.value);
      }
    }
  }

  lemma DistinctByLast(s: seq<Descriptor>)
    requires s != []
    ensures var most, last := s[..|s| - 1], s[|s| - 1];
      DistinctDigests(s) <==> DistinctDigests(most) && !Listed(most, last)
  {
    var most, last := s[..|s| - 1], s[|s| - 1];
    if DistinctDigests(most) && !Listed(most, last) {
      forall i, j | 0 <= i < j < |s| ensures s[i].digest != s[j].digest {
        assert s[i] == most[i] && (j < |most| ==> s[j] == most[j]);
      }
    }
    if i :| 0 <= i < |most| && most[i].digest == last.digest {
      assert s[i].digest == s[|most|].digest;
    }
  }

  /** Counting a list from a start without leaves: exactly when it ends well, and with what. */
  lemma {:induction false} CountLeaves(t: Tally, leaves: seq<Descriptor>)
    requires t.leaves == [] && t.visited <= MAX_LIST && t.bytes <= MAX_JSON_TOTAL
    ensures var r := CountAll(t, leaves);
      && (r.Accept? <==> DistinctDigests(leaves) && t.visited + |leaves| <= MAX_LIST
                         && t.bytes + TotalSize(leaves) <= MAX_JSON_TOTAL)
      && (r.Accept? ==> r.value == Tally(leaves, t.visited + |leaves|, t.bytes + TotalSize(leaves)))
    decreases |leaves|
  {
    if leaves != [] {
      DropLast(leaves);
      DistinctByLast(leaves);
      CountLeaves(t, leaves[..|leaves| - 1]);
    }
  }

  /**
   Re-walking the merged archive succeeds exactly when it lists at most 1023 leaves, no leaf manifest is
   shared by the inputs, and the generated index and all manifests fit the JSON budgets; the walk then
   reaches exactly the leaves of both inputs, runnable images first.
   */
  lemma MergedWalk(g: Generated, a: Members, wa: Walk, b: Members, wb: Walk, bytesOf: Digest -> Content)
    requires WalkArchive(Native(Amd64), a) == Accept(wa) && CompleteGraph(wa)
    requires WalkArchive(Native(Arm64), b) == Accept(wb) && CompleteGraph(wb)
    requires ContentAddressed(a, bytesOf) && ContentAddressed(b, bytesOf) && g.inner == bytesOf(g.innerDigest)
    requires IsGenerated(g, Sort(wa.leaves + wb.leaves))
    ensures var leaves := Sort(wa.leaves + wb.leaves);
      var r := WalkArchive(Structure, Merged(g, a, b));
      && (r.Accept? <==>
            && |leaves| <= 1023
            && DistinctDigests(leaves)
            && g.inner.size <= 2_000_000
            && g.layout.size + g.root.size + g.inner.size + TotalSize(leaves) <= 32_000_000)
      && (r.Accept? ==> r.value.leaves == leaves)
      && multiset(leaves) == multiset(wa.leaves) + multiset(wb.leaves)
  {
    var leaves, m := Sort(wa.leaves + wb.leaves), Merged(g, a, b);
    SortKeeps(wa.leaves + wb.leaves);
    SameMembers(leaves, wa.leaves + wb.leaves);
    ArchiveLeaves(Native(Amd64), a);
    ArchiveLeaves(Native(Arm64), b);
    forall d | d in leaves ensures LeafReadable(m, d) {
      assert d in wa.leaves || d in wb.leaves;
      BlobsKept(g, a, b, bytesOf, Blob(d.digest));
      assert Blob(d.digest) in a ==> a[Blob(d.digest)] == bytesOf(d.digest);
      assert Blob(d.digest) in b ==> b[Blob(d.digest)] == bytesOf(d.digest);
    }
    assert wa.leaves != [];
    MergedTop(g, m, leaves);
  }

  lemma {:induction false} MergedTop(g: Generated, m: Members, leaves: seq<Descriptor>)
    requires IsGenerated(g, leaves) && leaves != []
    requires forall n :: n in GeneratedMembers(g) ==> n in m && m[n] == GeneratedMembers(g)[n]
    requires forall d :: d in leaves ==> LeafReadable(m, d)
    ensures var r := WalkArchive(Structure, m);
      && (r.Accept? <==>
            && |leaves| <= 1023
            && DistinctDigests(leaves)
            && g.inner.size <= MAX_JSON
            && g.layout.size + g.root.size + g.inner.size + TotalSize(leaves) <= MAX_JSON_TOTAL)
      && (r.Accept? ==> r.value.leaves == leaves)
  {
    var w := GeneratedTop(Structure, g, m, leaves);
    OneChild(Structure, m, IndexEntry(g), w);
    var inner := GeneratedInner(Structure, g, m, leaves, w);
    if inner.Accept? {
      WalkCounts(m, leaves, inner.value);
      CountLeaves(TallyOf(inner.value), leaves);
    }
  }

  /** The generated layout and root are read; one index entry is left to visit. */
  lemma GeneratedTop(p: Profile, g: Generated, m: Members, leaves: seq<Descriptor>) returns (w: Walk)
    requires IsGenerated(g, leaves)
    requires forall n :: n in GeneratedMembers(g) ==> n in m && m[n] == GeneratedMembers(g)[n]
    ensures WalkArchive(p, m) == WalkAll(p, m, [IndexEntry(g)], 0, w)
    ensures w == START.(metadataNames := {Layout, Root}, metadataBytes := g.layout.size + g.root.size)
  {
    assert Layout in GeneratedMembers(g) && Root in GeneratedMembers(g);
    var w1 := ReadJson(m, START, Layout, MAX_JSON).value.1;
    w := ReadJson(m, w1, Root, MAX_JSON).value.1;
    assert ReadJson(m, w1, Root, MAX_JSON).value.0 == IndexDoc([IndexEntry(g)]);
  }

  /** The inner index is read exactly when it fits; its leaves are then walked one level down. */
  lemma GeneratedInner(p: Profile, g: Generated, m: Members, leaves: seq<Descriptor>, w: Walk) returns (inner: Result<Walk>)
    requires IsGenerated(g, leaves) && leaves != [] && TallyOf(w) == Tally([], 0, g.layout.size + g.root.size)
    requires forall n :: n in GeneratedMembers(g) ==> n in m && m[n] == GeneratedMembers(g)[n]
    ensures inner.Accept? <==> g.inner.size <= MAX_JSON && g.layout.size + g.root.size + g.inner.size <= MAX_JSON_TOTAL
    ensures inner.Accept? ==> inner.value == w.(visited := 1, metadataBytes := g.layout.size + g.root.size + g.inner.size,
      metadataNames := w.metadataNames + {Blob(g.innerDigest)}, sized := w.sized + {Blob(g.innerDigest)})
    ensures WalkOne(p, m, IndexEntry(g), 0, w) ==
      if inner.Accept? && |leaves| <= MAX_LIST then WalkAll(p, m, leaves, 1, inner.value) else Reject
  {
    assert Blob(g.innerDigest) in GeneratedMembers(g);
    var entered := Enter(m, IndexEntry(g), 0, w);
    inner := if entered.Accept? then Accept(entered.value.1) else Reject;
    assert entered.Accept? ==> entered.value.0 == IndexDoc(leaves);
  }

  lemma {:induction false} OneChild(p: Profile, m: Members, d: Descriptor, w: Walk)
    ensures WalkAll(p, m, [d], 0, w) == WalkOne(p, m, d, 0, w)
  {
    assert [d][..0] == [];
    assert WalkAll(p, m, [], 0, w) == Accept(w);
  }

  /** The inputs never share a runnable image, because its config names its architecture. */
  lemma ImagesNeverShared(a: Members, wa: Walk, b: Members, wb: Walk, bytesOf: Digest -> Content)
    requires WalkArchive(Native(Amd64), a) == Accept(wa) && CompleteGraph(wa)
    requires WalkArchive(Native(Arm64), b) == Accept(wb) && CompleteGraph(wb)
    requires ContentAddressed(a, bytesOf) && ContentAddressed(b, bytesOf)
    ensures wa.images[0].descriptor.digest != wb.images[0].descriptor.digest
  {
    ArchiveFootprint(Amd64, a);
    ArchiveFootprint(Arm64, b);
    assert BuiltFor(Amd64, a, wa.images[0]) && BuiltFor(Arm64, b, wb.images[0]);
    assert a[Blob(wa.images[0].descriptor.digest)] == bytesOf(wa.images[0].descriptor.digest);
    assert b[Blob(wb.images[0].descriptor.digest)] == bytesOf(wb.images[0].descriptor.digest);
    assert a[Blob(wa.images[0].config)] == bytesOf(wa.images[0].config);
    assert b[Blob(wb.images[0].config)] == bytesOf(wb.images[0].config);
  }
}
