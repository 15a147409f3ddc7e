/**
 Replacing an imported frontend tree, with a failure allowed at every filesystem step of the import and of
 its rollback. A rename or replace takes effect whole or not at all; removing a tree or writing a file may
 stop halfway; and any step may take effect and still raise, as when an interrupt arrives just after it.
 */
module ImportTransaction {
  /** A tree that is still whole, named by what it holds, or one whose removal stopped halfway. */
  datatype Tree = Absent | Whole(id: nat) | Broken

  datatype Text = Missing | Bytes(content: string) | Torn

  /** The destination, `work/previous` and `work/payload`, and the manifest beside the one staged in `work`. */
  datatype Files = Files(destination: Tree, previous: Tree, payload: Tree, manifest: Text, staged: Text)

  datatype Outcome = Done | Refused | Partial | Interrupted

  /** How each step of one import turns out. */
  datatype Outcomes = Outcomes(
    moveOld: Outcome, install: Outcome, publish: Outcome,
    dropNew: Outcome, restoreTree: Outcome, restoreManifest: Outcome,
    dropPrevious: Outcome, dropWork: Outcome)

  /** How an import ends: through, undone and raised again, or raised with neither finished. */
  datatype End = Committed | RolledBack | Stuck

  predicate Happens(o: Outcome) { o == Done || o == Interrupted }

  /** What an import starts from. */
  predicate Ready(f: Files) {
    !f.destination.Broken? && f.previous == Absent && f.payload.Whole? && !f.manifest.Torn?
  }

  /** The new tree is in place, and so is its manifest where there is one outside the tree. */
  predicate InPlace(f: Files, start: Files, external: bool) {
    f.destination == start.payload && f.manifest == if external then start.staged else start.manifest
  }

  predicate Restored(f: Files, start: Files) { f.destination == start.destination && f.manifest == start.manifest }

  /** The old tree, if there was one, can still be had whole, unless the new one is in place. */
  predicate Safe(f: Files, start: Files, external: bool) {
    start.destination == Absent || f.destination == start.destination || f.previous == start.destination || InPlace(f, start, external)
  }

  // ----- the filesystem steps: the disk after each, and whether it raised

  function MoveOld(f: Files, o: Outcome): (Files, bool) {
    if f.destination == Absent then (f, false)
    else (if Happens(o) then f.(destination := Absent, previous := f.destination) else f, o != Done)
  }

  function Install(f: Files, o: Outcome): (Files, bool) {
    (if Happens(o) then f.(destination := f.payload, payload := Absent) else f, o != Done)
  }

  /** The staged manifest replaces one that lies outside the tree; otherwise only an interrupt raises here. */
  function Publish(f: Files, external: bool, o: Outcome): (Files, bool) {
    (if external && Happens(o) then f.(manifest := f.staged, staged := Missing) else f, o != Done)
  }

  function DropNew(f: Files, o: Outcome): (Files, bool) {
    (if Happens(o) then f.(destination := Absent) else if o == Partial then f.(destination := Broken) else f, o != Done)
  }

  /** A tree is never renamed over another one. */
  function RestoreTree(f: Files, o: Outcome): (Files, bool) {
    if f.previous == Absent then (f, false)
    else if f.destination != Absent then (f, true)
    else (if Happens(o) then f.(destination := f.previous, previous := Absent) else f, o != Done)
  }

  function RestoreManifest(f: Files, external: bool, saved: Text, o: Outcome): (Files, bool) {
    if !external then (f, false)
    else (
      if Happens(o) then f.(manifest := saved)
      else if o == Partial && saved != Missing then f.(manifest := Torn)
      else f, o != Done)
  }

  function DropPrevious(f: Files, o: Outcome): (Files, bool) {
    if f.previous == Absent then (f, false)
    else (if Happens(o) then f.(previous := Absent) else if o == Partial then f.(previous := Broken) else f, o != Done)
  }

  /** The work directory goes only when no previous tree lies in it. */
  function DropWork(f: Files, o: Outcome): (Files, bool) {
    if f.previous != Absent then (f, false)
    else (
      if Happens(o) then f.(payload := Absent, staged := Missing)
      else if o == Partial then f.(payload := if f.payload == Absent then Absent else Broken)
      else f, o != Done)
  }

  class Frontend {
    var files: Files
    ghost var trace: seq<Files>          // every state of the disk, oldest first

    constructor (files: Files)
      ensures this.files == files && trace == [files]
    {
      this.files := files;
      trace := [files];
    }

    /** Nothing the disk went through since `since` endangered the old tree. */
    ghost predicate SafeSince(since: nat, start: Files, external: bool)
      reads this
    {
      since <= |trace| && forall i :: since <= i < |trace| ==> Safe(trace[i], start, external)
    }

    method Do(step: (Files, bool)) returns (raised: bool)
      modifies this
      ensures files == step.0 && raised == step.1 && trace == old(trace) + [files]
    {
      files, raised := step.0, step.1;
      trace := trace + [files];
    }

    /** The rollback, which may itself stop at any step. */
    method RestorePrevious(ghost start: Files, external: bool, saved: Text, promoted: bool, o: Outcomes) returns (raised: bool)
      requires Ready(start) && saved == start.manifest && files.previous == start.destination
      requires files.destination in {Absent, start.payload} && (promoted ==> files.destination == start.payload)
      requires !external ==> files.manifest == start.manifest
      modifies this
      ensures old(trace) <= trace && SafeSince(|old(trace)|, start, external)
      ensures start.destination == Absent || start.destination in {files.destination, files.previous}
      ensures !raised ==> files.previous == Absent && files.manifest == start.manifest
      ensures !raised ==> files.destination == if !promoted && start.destination == Absent then old(files).destination else start.destination
      ensures raised <==>
        || (promoted && o.dropNew != Done)
        || (start.destination != Absent && ((!promoted && old(files).destination != Absent) || o.restoreTree != Done))
        || (external && o.restoreManifest != Done)
    {
      if promoted {
        raised := Do(DropNew(files, o.dropNew));
        if raised {
          return;
        }
      }
      raised := Do(RestoreTree(files, o.restoreTree));
      if raised {
        return;
      }
      raised := Do(RestoreManifest(files, external, saved, o.restoreManifest));
    }

    method PromotePayload(external: bool, o: Outcomes) returns (end: End)
      requires Ready(files)
      modifies this
      ensures old(trace) <= trace && SafeSince(|old(trace)|, old(files), external)
      ensures end == Committed ==> InPlace(files, old(files), external) && files.previous == Absent
      ensures Safe(files, old(files), external) && (end == RolledBack ==> files.previous == Absent)
      ensures end == RolledBack ==> (Restored(files, old(files)) <==> !(old(files).destination == Absent && o.install == Interrupted))
      ensures end == Committed <==> Commits(old(files), o)
      ensures end == RolledBack <==> RollsBack(old(files), external, o)
    {
      ghost var start := files;
      var saved := files.manifest;
      var raised := Do(MoveOld(files, o.moveOld));
      if raised {
        return Stuck;
      }
      var promoted := false;
      raised := Do(Install(files, o.install));
      if !raised {
        promoted := true;
        raised := Do(Publish(files, external, o.publish));
      }
      if raised {
        raised := RestorePrevious(start, external, saved, promoted, o);
        return if raised then Stuck else RolledBack;
      }
      raised := Do(DropPrevious(files, o.dropPrevious));
      end := if raised then Stuck else Committed;
    }

    /** The import: whatever fails, the old tree is never lost before the new one is in place. */
    method ImportRelease(external: bool, o: Outcomes) returns (end: End)
      requires Ready(files)
      modifies this
      ensures old(trace) <= trace && SafeSince(|old(trace)|, old(files), external)
      ensures end == Committed ==> InPlace(files, old(files), external)
      ensures end == RolledBack ==> (Restored(files, old(files)) <==> !(old(files).destination == Absent && o.install == Interrupted))
      ensures end == Committed <==> Commits(old(files), o)
      ensures end == RolledBack <==> RollsBack(old(files), external, o)
      ensures end != Stuck ==> files.previous == Absent
      ensures end != Stuck && o.dropWork == Done ==> files.payload == Absent && files.staged == Missing
    {
      end := PromotePayload(external, o);
      ghost var before := trace;
      var _ := Do(DropWork(files, o.dropWork));
      assert forall i :: 0 <= i < |before| ==> trace[i] == before[i];
    }
  }

  /** Every step up to the removal of the old tree went through; without an old tree nothing moves aside. */
  predicate Commits(f: Files, o: Outcomes) {
    && o.install == Done && o.publish == Done
    && (f.destination != Absent ==> o.moveOld == Done && o.dropPrevious == Done)
  }

  /** The new tree or its manifest failed, and every step of the rollback that had something to do went through. */
  predicate RollsBack(f: Files, external: bool, o: Outcomes) {
    && !(o.install == Done && o.publish == Done)
    && (f.destination != Absent ==> o.moveOld == Done && o.install != Interrupted && o.restoreTree == Done)
    && (o.install == Done ==> o.dropNew == Done)
    && (external ==> o.restoreManifest == Done)
  }

  /** The files after a step and its outcome: what it does at all, it does once, and what fails leaves the rest alone. */
  ghost predicate IsStep(f: Files, through: Files, torn: Files, r: (Files, bool), o: Outcome) {
    && r.1 == (o != Done)
    && r.0 == match o
              case Done => through
              case Interrupted => through
              case Refused => f
              case Partial => torn
  }

  /** A rename is whole or nothing, a removal can leave half a tree, and a manifest that is written back can be torn. */
  lemma StepsExactly(f: Files, external: bool, saved: Text, o: Outcome)
    ensures f.destination != Absent ==> IsStep(f, f.(destination := Absent, previous := f.destination), f, MoveOld(f, o), o)
    ensures IsStep(f, f.(destination := f.payload, payload := Absent), f, Install(f, o), o)
    ensures external ==> IsStep(f, f.(manifest := f.staged, staged := Missing), f, Publish(f, external, o), o)
    ensures IsStep(f, f.(destination := Absent), f.(destination := Broken), DropNew(f, o), o)
    ensures f.previous != Absent && f.destination == Absent ==>
      IsStep(f, f.(destination := f.previous, previous := Absent), f, RestoreTree(f, o), o)
    ensures external ==>
      IsStep(f, f.(manifest := saved), if saved == Missing then f else f.(manifest := Torn), RestoreManifest(f, external, saved, o), o)
    ensures f.previous != Absent ==> IsStep(f, f.(previous := Absent), f.(previous := Broken), DropPrevious(f, o), o)
    ensures f.previous == Absent && f.payload != Absent ==>
      IsStep(f, f.(payload := Absent, staged := Missing), f.(payload := Broken), DropWork(f, o), o)
    ensures f.previous != Absent ==> DropWork(f, o) == (f, false)
  {
  }
}
