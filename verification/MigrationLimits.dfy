/**
 * Where the guarantees of a run end: the discipline its safety rests on is
 * needed exactly when the snapshot records a version besides the storage
 * version, and a run may settle on a version other than its target.
 */
module MigrationLimits {
  import opened Wrappers
  import opened ApiServer
  import opened Migration
  import opened MigrationHistory
  import opened MigrationSafety
  import opened MigrationProgress

  /** The snapshot records nothing besides its storage version. */
  ghost predicate Narrow(crd: Crd) {
    forall v :: v in crd.stored ==> v == StorageOf(crd)
  }

  /** A narrow snapshot needs no discipline of the other clients. */
  lemma NarrowIsDisciplined(h: seq<Store>, snap: Snapshot)
    requires Narrow(snap.crd)
    ensures Disciplined(h, snap)
  {
  }

  /** If every snapshot the run selected is narrow, every moment of the run is safe, whatever the others do. */
  lemma NarrowRunIsSafe(w: World, target: string, names: seq<string>, skipCheck: bool)
    requires WellFormed(w.store) && Safe(w.store)
    requires forall snap :: snap in Selected(w, target, names, skipCheck) ==> Narrow(snap.crd)
    ensures var h := History(FullRun(w, target, names, skipCheck).0);
            forall i :: |History(w)| <= i < |h| ==> Safe(h[i])
  {
    var h := History(FullRun(w, target, names, skipCheck).0);
    forall snap | snap in Selected(w, target, names, skipCheck) ensures Disciplined(h, snap) {
      NarrowIsDisciplined(h, snap);
    }
    RunIsSafe(w, target, names, skipCheck);
  }

  const QUIET := Turn([], NoFault)

  function QuietTurns(n: nat): seq<Turn> {
    seq(n, _ => QUIET)
  }

  lemma QuietTurnsCons(n: nat, tail: seq<Turn>)
    ensures QuietTurns(n + 1) + tail == [QUIET] + (QuietTurns(n) + tail)
  {
  }

  /** The rewrite loop of one definition, undisturbed, uses up one turn for the List and one per object. */
  lemma {:induction false} UndisturbedItems(w: World, items: seq<Item>, tail: seq<Turn>)
    requires WellFormed(w.store) && Fresh(w.store.objs, items) && w.script == QuietTurns(|items|) + tail
    ensures var (w', r) := MigrateItems(w, items);
            r.Ok? && w'.script == tail && w'.store.crds == w.store.crds
    decreases |items|
  {
    if items != [] {
      var item := items[0];
      QuietTurnsCons(|items| - 1, tail);
      assert NextTurn(w) == QUIET && w.script[1..] == QuietTurns(|items| - 1) + tail;
      var w1 := PutItem(w, item).0;
      assert TryUpdate(w, item, MAX_ATTEMPTS).0 == w1;
      UndisturbedItems(w1, items[1..], tail);
    } else {
      assert QuietTurns(0) + tail == tail;
    }
  }

  lemma UndisturbedRewrite(w: World, snap: Snapshot, n: nat, tail: seq<Turn>)
    requires WellFormed(w.store) && snap.name in w.store.crds
    requires n == |LiveItems(w.store.objs, snap.name, 0)| && w.script == QuietTurns(n + 1) + tail
    ensures var (w', r) := MigrateAll(w, [snap]);
            r.Ok? && w'.script == tail && w'.store.crds == w.store.crds
  {
    QuietTurnsCons(n, tail);
    assert NextTurn(w) == QUIET && w.script[1..] == QuietTurns(n) + tail;
    LiveItemsFresh(w.store.objs, snap.name, 0);
    var l := List(w, snap.name).0;
    UndisturbedItems(l, LiveItems(w.store.objs, snap.name, 0), tail);
    var w1 := MigrateResources(w, snap.name).0;
    assert MigrateAll(w1, []) == (w1, Ok(()));
  }

  /** While the run fetches the latest definition, another client moves the storage version away and back. */
  function Flip(c: string, v: string, x: string): Turn {
    Turn([ReplaceSpec(c, [Version(x, true), Version(v, false)]), CreateObject(c),
          ReplaceSpec(c, [Version(x, false), Version(v, true)])], NoFault)
  }

  lemma FlippedStore(s: Store, c: string, v: string, x: string)
    requires c in s.crds && StorageOf(s.crds[c]) == v && x in s.crds[c].stored && v in s.crds[c].stored
    ensures var acts := Flip(c, v, x).others;
            var s' := Apply(acts[2], Apply(acts[1], Apply(acts[0], s)));
            && c in s'.crds && StorageOf(s'.crds[c]) == v && s'.crds[c].stored == s.crds[c].stored
            && |s'.objs| == |s.objs| + 1
            && s'.objs[|s.objs|].live && s'.objs[|s.objs|].crd == c && s'.objs[|s.objs|].enc == x
  {
    var vs, us := [Version(x, true), Version(v, false)], [Version(x, false), Version(v, true)];
    assert vs[0].storage && OneStorageVersion(vs);
    assert us[1].storage && OneStorageVersion(us);
    assert us[1..] == [Version(v, true)];
    assert StorageVersion(vs) == x && StorageVersion(us) == v;
    var s1 := Apply(ReplaceSpec(c, vs), s);
    assert s1.objs == s.objs && StorageOf(s1.crds[c]) == x && s1.crds[c].stored == s.crds[c].stored;
    var s2 := Apply(CreateObject(c), s1);
    assert s2.crds == s1.crds && s2.objs[|s.objs|] == Object(c, true, x, s1.rev + 1);
  }

  lemma ThreeOthers(w: World, acts: seq<Action>)
    requires |acts| == 3
    ensures Others(w, acts).store == Apply(acts[2], Apply(acts[1], Apply(acts[0], w.store)))
    ensures Others(w, acts).script == w.script
  {
    var w1 := Advance(w, Apply(acts[0], w.store));
    var w2 := Advance(w1, Apply(acts[1], w1.store));
    var w3 := Advance(w2, Apply(acts[2], w2.store));
    assert acts[1..][1..] == [acts[2]] && acts[1..][1..][1..] == [];
    assert Others(w2, [acts[2]]) == Others(w3, []);
    assert Others(w1, acts[1..]) == Others(w2, acts[1..][1..]);
  }

  lemma FlippedPatch(w: World, snap: Snapshot, x: string)
    requires snap.name in w.store.crds && w.store.crds[snap.name] == snap.crd
    requires x != StorageOf(snap.crd) && x in snap.crd.stored && StorageOf(snap.crd) in snap.crd.stored
    requires w.script == [Flip(snap.name, StorageOf(snap.crd), x)]
    ensures var (w', r) := PatchAll(w, [snap]); r.Ok? && !Safe(w'.store)
  {
    var c, v := snap.name, StorageOf(snap.crd);
    FlippedStore(w.store, c, v, x);
    ThreeOthers(w, Flip(c, v, x).others);
    var (g, r) := Get(w, c);
    var id := |w.store.objs|;
    assert g.script == [];
    assert g.store.objs[id].enc == x && g.store.objs[id].live && g.store.objs[id].crd == c;
    assert StoredVersionsAdded(snap.crd, r.value.crd) == {};
    var (w1, r1) := PatchOne(w, snap);
    assert r1 == Ok(()) && w1.store.objs == g.store.objs;
    assert w1.store.crds[c].stored == [v];
    assert PatchAll(w1, []) == (w1, Ok(()));
    assert w1.store.objs[id].enc !in w1.store.crds[c].stored;
  }

  /**
   * From every safe store in which a definition records a version besides the target, some
   * interleaving makes the run report success and leave an object in an unrecorded version: the
   * storage version moves to the recorded version and back, unseen by the comparison with the snapshot.
   */
  lemma WideCanBreak(s: Store, c: string, target: string, x: string, skipCheck: bool)
    requires WellFormed(s) && Safe(s) && c in s.crds && StorageOf(s.crds[c]) == target
    requires x in s.crds[c].stored && x != target
    ensures exists script :: var (w', r) := FullRun(World([], s, script, []), target, [c], skipCheck);
                             r == Ok(true) && !Safe(w'.store)
  {
    var n := |LiveItems(s.objs, c, 0)|;
    var tail := [Flip(c, target, x)];
    var rest := QuietTurns(n + 1) + tail;
    var script := (if skipCheck then [QUIET] else [QUIET, QUIET]) + rest;
    var w := World([], s, script, []);
    SelectOne(w, target, c, skipCheck, rest);
    var (w1, r1) := Select(w, target, [c], skipCheck);
    var snap := r1.value[0];
    UndisturbedRewrite(w1, snap, n, tail);
    var w2 := MigrateAll(w1, [snap]).0;
    FlippedPatch(w2, snap, x);
    assert FullRun(w, target, [c], skipCheck).0 == PatchAll(w2, [snap]).0;
  }

  ghost predicate Breaks(w: World, script: seq<Turn>, snap: Snapshot) {
    var (w', r) := Migrate(w.(script := script), [snap]);
    r.Ok? && !Safe(w'.store)
  }

  lemma NarrowNeverBreaks(w: World, script: seq<Turn>, snap: Snapshot)
    requires Collected(w, [snap]) && Safe(w.store) && Narrow(snap.crd)
    ensures !Breaks(w, script, snap)
  {
    var w0 := w.(script := script);
    assert History(w0) == History(w);
    assert Tracked(History(w), [snap][0]);
    var w' := Migrate(w0, [snap]).0;
    NarrowIsDisciplined(History(w'), snap);
    MigrateExplained(w0, [snap]);
    var h := History(w');
    assert h[|History(w)| - 1] == History(w)[|History(w)| - 1];
    ExplainedIsSafe(h, |History(w)|, |h|, [snap]);
    assert h[|h| - 1] == w'.store;
    if |h| == |History(w)| {
      assert h == History(w);
    }
  }

  lemma WideBreaks(w: World, snap: Snapshot) returns (script: seq<Turn>)
    requires WellFormed(w.store) && Safe(w.store) && Current(w.store, snap) && !Narrow(snap.crd)
    ensures Breaks(w, script, snap)
  {
    var x :| x in snap.crd.stored && x != StorageOf(snap.crd);
    var n := |LiveItems(w.store.objs, snap.name, 0)|;
    var tail := [Flip(snap.name, StorageOf(snap.crd), x)];
    script := QuietTurns(n + 1) + tail;
    var w0 := w.(script := script);
    UndisturbedRewrite(w0, snap, n, tail);
    var w1 := MigrateAll(w0, [snap]).0;
    FlippedPatch(w1, snap, x);
  }

  /**
   * From a safe store with an up-to-date snapshot, some interleaving makes the migration succeed and
   * leaves an object in an unrecorded version, exactly when the snapshot records a version besides
   * its storage version.
   */
  lemma BreakableIff(w: World, snap: Snapshot)
    requires Collected(w, [snap]) && Safe(w.store) && Current(w.store, snap)
    ensures (exists script :: Breaks(w, script, snap)) <==> !Narrow(snap.crd)
  {
    if Narrow(snap.crd) {
      forall script ensures !Breaks(w, script, snap) {
        NarrowNeverBreaks(w, script, snap);
      }
    } else {
      var script := WideBreaks(w, snap);
    }
  }

  lemma SelectOne(w: World, target: string, c: string, skipCheck: bool, rest: seq<Turn>)
    requires c in w.store.crds && StorageOf(w.store.crds[c]) == target
    requires exists x :: x in w.store.crds[c].stored && x != target
    requires w.script == (if skipCheck then [QUIET] else [QUIET, QUIET]) + rest
    ensures var (w', r) := Select(w, target, [c], skipCheck);
            && w'.store == w.store && w'.script == rest
            && r == Ok([Snapshot(c, w.store.crds[c], |w.past|)])
  {
    var crd := w.store.crds[c];
    var (w1, r1) := Get(w, c);
    var snap := Snapshot(c, crd, |w.past|);
    assert (w1.store, r1) == (w.store, Ok(snap));
    assert [] + [snap] == [snap] && [c][1..] == [];
    assert Ensure(w1, target, [], [snap]) == (w1, Ok((true, [snap])));
    assert Ensure(w, target, [c], []) == (w1, Ok((true, [snap])));
    if !skipCheck {
      assert w1.script == [QUIET] + rest;
      var (w2, r2) := Get(w1, c);
      assert NeedsMigration(crd, target);
      assert Discover(w2, target, [], [snap]) == (w2, Ok([snap]));
    }
  }

  /* ---------- What a successful run writes ---------- */

  /** Transition i sets the stored versions of the snapshot's definition to `stored`. */
  ghost predicate Writes(h: seq<Store>, i: nat, snap: Snapshot, stored: seq<string>) {
    && 0 < i < |h| && snap.name in h[i - 1].crds
    && h[i] == PutCrd(h[i - 1], snap.name, h[i - 1].crds[snap.name].(stored := stored))
  }

  /** Some transition from moment `from` on writes the snapshot's storage version and nothing else. */
  ghost predicate WritesItsOwn(h: seq<Store>, from: nat, snap: Snapshot) {
    exists i :: from <= i && Writes(h, i, snap, [StorageOf(snap.crd)])
  }

  ghost predicate AllWriteTheirOwn(h: seq<Store>, from: nat, crds: seq<Snapshot>) {
    forall snap :: snap in crds ==> WritesItsOwn(h, from, snap)
  }

  lemma WritesOnExtension(h: seq<Store>, h': seq<Store>, from: nat, snap: Snapshot)
    requires h <= h' && WritesItsOwn(h, from, snap)
    ensures WritesItsOwn(h', from, snap)
  {
    var i: nat :| from <= i && Writes(h, i, snap, [StorageOf(snap.crd)]);
    assert Writes(h', i, snap, [StorageOf(snap.crd)]);
  }

  lemma PatchOneWrites(w: World, snap: Snapshot)
    requires WellFormed(w.store) && PatchOne(w, snap).1.Ok?
    ensures WritesItsOwn(History(PatchOne(w, snap).0), |History(w)|, snap)
  {
    var w1 := Get(w, snap.name).0;
    var a := Arrive(w1, UpdateStatus(snap.name));
    var w' := PatchOne(w, snap).0;
    ArriveIsGentle(w, GetCrd(snap.name));
    ArriveIsGentle(w1, UpdateStatus(snap.name));
    assert History(w') == History(a) + [w'.store];
    assert Writes(History(w'), |w'.past|, snap, [StorageOf(snap.crd)]);
  }

  lemma {:induction false} PatchAllWrites(w: World, crds: seq<Snapshot>)
    requires WellFormed(w.store) && PatchAll(w, crds).1.Ok?
    ensures AllWriteTheirOwn(History(PatchAll(w, crds).0), |History(w)|, crds)
    decreases |crds|
  {
    if crds != [] {
      var w1, w' := PatchOne(w, crds[0]).0, PatchAll(w, crds).0;
      PatchOneExtends(w, crds[0]);
      PatchAllExtends(w, crds);
      PatchOneWrites(w, crds[0]);
      WritesOnExtension(History(w1), History(w'), |History(w)|, crds[0]);
      PatchAllWrites(w1, crds[1..]);
      forall snap | snap in crds ensures WritesItsOwn(History(w'), |History(w)|, snap) {
        if snap != crds[0] {
          assert snap in crds[1..] && WritesItsOwn(History(w'), |History(w1)|, snap);
        }
      }
    }
  }

  /** The run, at some moment, set the stored versions of the snapshot's definition to the target alone. */
  ghost predicate WroteTarget(w: World, w': World, snap: Snapshot, target: string) {
    exists i :: |History(w)| <= i && Writes(History(w'), i, snap, [target])
  }

  /** A successful run writes for each selected definition the storage version of its snapshot. */
  lemma RunWritesSelected(w: World, target: string, names: seq<string>, skipCheck: bool)
    requires WellFormed(w.store) && FullRun(w, target, names, skipCheck).1 == Ok(true)
    ensures forall snap :: snap in Selected(w, target, names, skipCheck) ==>
              WroteTarget(w, FullRun(w, target, names, skipCheck).0, snap, StorageOf(snap.crd))
  {
    SelectCollects(w, target, names, skipCheck);
    var (w1, r1) := Select(w, target, names, skipCheck);
    MigrateAllSweeps(w1, r1.value);
    var w2 := MigrateAll(w1, r1.value).0;
    PatchAllWrites(w2, r1.value);
    var w' := FullRun(w, target, names, skipCheck).0;
    forall snap | snap in r1.value ensures WroteTarget(w, w', snap, StorageOf(snap.crd)) {
      var i: nat :| |History(w2)| <= i && Writes(History(w'), i, snap, [StorageOf(snap.crd)]);
    }
  }

  /**
   * When a successful run keeps its promise: under the discipline, its certified patches set the
   * stored versions of all selected definitions to the target exactly if the target was the storage
   * version of each of them when the run read it for the last time before migrating.
   */
  lemma SettlesOnTargetIff(w: World, target: string, names: seq<string>, skipCheck: bool)
    requires WellFormed(w.store) && RunDisciplined(w, target, names, skipCheck)
    requires FullRun(w, target, names, skipCheck).1 == Ok(true)
    ensures var h := History(FullRun(w, target, names, skipCheck).0);
            var crds := Selected(w, target, names, skipCheck);
            && ((forall snap :: snap in crds ==> CertifiedTarget(h, snap, target)) <==>
                forall snap :: snap in crds ==> StorageOf(snap.crd) == target)
  {
    var h := History(FullRun(w, target, names, skipCheck).0);
    RunExplained(w, target, names, skipCheck);
    forall snap | snap in Selected(w, target, names, skipCheck)
      ensures CertifiedTarget(h, snap, target) <==> StorageOf(snap.crd) == target
    {
      var i: nat :| CertifiedPatch(h, i, snap);
      PatchWritesStorage(h, i, snap);
      if CertifiedTarget(h, snap, target) {
        var k: nat :| CertifiedPatch(h, k, snap) && snap.name in h[k].crds && h[k].crds[snap.name].stored == [target];
        PatchWritesStorage(h, k, snap);
        assert [target][0] == [StorageOf(snap.crd)][0];
      }
    }
  }

  /** A certified patch for the snapshot leaves the target alone recorded. */
  ghost predicate CertifiedTarget(h: seq<Store>, snap: Snapshot, target: string) {
    exists i: nat :: CertifiedPatch(h, i, snap) && snap.name in h[i].crds && h[i].crds[snap.name].stored == [target]
  }

  lemma PatchWritesStorage(h: seq<Store>, i: nat, snap: Snapshot)
    requires CertifiedPatch(h, i, snap)
    ensures snap.name in h[i].crds && h[i].crds[snap.name].stored == [StorageOf(snap.crd)]
  {
    assert StorageIs(h[i - 1], snap.name, StorageOf(snap.crd));
  }

  /** With the check skipped a successful run always writes the target for every selected definition, whatever the others do. */
  lemma SkippedRunWritesTarget(w: World, target: string, names: seq<string>)
    requires WellFormed(w.store) && FullRun(w, target, names, true).1 == Ok(true)
    ensures forall snap :: snap in Selected(w, target, names, true) ==>
              WroteTarget(w, FullRun(w, target, names, true).0, snap, target)
    ensures RunDisciplined(w, target, names, true) ==>
              forall snap :: snap in Selected(w, target, names, true) ==>
                CertifiedTarget(History(FullRun(w, target, names, true).0), snap, target)
  {
    SkippedCheckSelectsTarget(w, target, names, []);
    RunWritesSelected(w, target, names, true);
    if RunDisciplined(w, target, names, true) {
      SettlesOnTargetIff(w, target, names, true);
    }
  }

  /** The snapshots that the preflight returns store the target. */
  lemma {:induction false} SkippedCheckSelectsTarget(w: World, target: string, names: seq<string>, crds: seq<Snapshot>)
    requires forall snap :: snap in crds ==> StorageOf(snap.crd) == target
    ensures var r := Ensure(w, target, names, crds).1;
            r.Ok? ==> forall snap :: snap in r.value.1 ==> StorageOf(snap.crd) == target
    decreases |names|
  {
    if names != [] {
      var (w', r) := Get(w, names[0]);
      if r.Ok? && StorageOf(r.value.crd) == target {
        SkippedCheckSelectsTarget(w', target, names[1..], crds + [r.value]);
      }
    }
  }

  /** The storage version moves between the preflight and the second read. */
  function Moved(c: string, target: string, u: string): Turn {
    Turn([ReplaceSpec(c, [Version(u, true), Version(target, false)])], NoFault)
  }

  lemma MovedSelect(w: World, c: string, target: string, u: string)
    requires WellFormed(w.store) && c in w.store.crds && StorageOf(w.store.crds[c]) == target && u != target
    requires target in w.store.crds[c].stored && w.script == [QUIET, Moved(c, target, u)]
    ensures var (w', r) := Select(w, target, [c], false);
            && r.Ok? && |r.value| == 1 && r.value[0].name == c && StorageOf(r.value[0].crd) == u
            && WellFormed(w'.store) && w'.script == [] && AllCurrent(w'.store, r.value)
            && w'.store.crds.Keys == w.store.crds.Keys
  {
    var move := Moved(c, target, u).others[0];
    assert OneStorageVersion(move.versions) by {
      assert move.versions[0].storage;
    }
    ApplyIsGentle(move, w.store);
    var (w1, r1) := Get(w, c);
    assert [r1.value] == [] + [r1.value] && [c][1..] == [];
    assert Ensure(w1, target, [], [r1.value]) == (w1, Ok((true, [r1.value])));
    assert w1.script == [Moved(c, target, u)];
    assert Others(w1, [move]) == Others(Advance(w1, Apply(move, w1.store)), []);
    var (w2, r2) := Get(w1, c);
    assert [r2.value] == [] + [r2.value];
    assert target in r2.value.crd.stored && u in r2.value.crd.stored;
    assert Discover(w2, target, [], [r2.value]) == (w2, Ok([r2.value]));
  }

  /**
   * A run whose storage version moved before its second read reports success with `storedVersions`
   * set to that other version, not to its target.
   */
  lemma CanSettleElsewhere(s: Store, c: string, target: string, u: string)
    requires WellFormed(s) && c in s.crds && StorageOf(s.crds[c]) == target && u != target
    requires target in s.crds[c].stored
    ensures exists script :: var (w', r) := FullRun(World([], s, script, []), target, [c], false);
                             r == Ok(true) && w'.store.crds.Keys == s.crds.Keys && w'.store.crds[c].stored == [u]
  {
    var w := World([], s, [QUIET, Moved(c, target, u)], []);
    MovedSelect(w, c, target, u);
    var (w1, r1) := Select(w, target, [c], false);
    QuietMigrate(w1, r1.value, u);
    assert Names(r1.value, c) by {
      assert r1.value[0] in r1.value;
    }
  }
}
