/**
 * Safety of a migration run over every interleaving with other clients:
 * the rewrite loop, the comparison with the snapshot and the compare-and-set
 * of the status together make every narrowing of `storedVersions` sound.
 */
module MigrationSafety {
  import opened Wrappers
  import opened ApiServer
  import opened Migration
  import opened MigrationHistory

  /** Whenever the storage version leaves the one of the snapshot, it goes to a version the snapshot did not record. */
  ghost predicate Disciplined(h: seq<Store>, snap: Snapshot) {
    forall i :: snap.at < i < |h| && snap.name in h[i - 1].crds && snap.name in h[i].crds ==>
      || StorageOf(h[i - 1].crds[snap.name]) != StorageOf(snap.crd)
      || StorageOf(h[i].crds[snap.name]) == StorageOf(snap.crd)
      || StorageOf(h[i].crds[snap.name]) !in snap.crd.stored
  }

  /** A stored version the snapshot comparison will object to. */
  ghost predicate Poisoned(s: Store, snap: Snapshot) {
    snap.name in s.crds
    && exists v :: v in s.crds[snap.name].stored && v !in snap.crd.stored && v != StorageOf(snap.crd)
  }

  ghost predicate ConstantSince(h: seq<Store>, snap: Snapshot) {
    Constant(h, snap.at, |h|, snap.name, StorageOf(snap.crd))
  }

  /** The snapshot was read from this history, and any drift since then has left a trace. */
  ghost predicate Tracked(h: seq<Store>, snap: Snapshot) {
    && snap.at < |h|
    && snap.name in h[snap.at].crds
    && h[snap.at].crds[snap.name] == snap.crd
    && snap.name in h[|h| - 1].crds
    && (Disciplined(h, snap) ==> ConstantSince(h, snap) || Poisoned(h[|h| - 1], snap))
  }

  /** If the storage version has not moved since the snapshot, every live object is encoded in it. */
  ghost predicate Swept(h: seq<Store>, snap: Snapshot) {
    |h| > 0 && (ConstantSince(h, snap) ==> Clean(h[|h| - 1], snap.name, StorageOf(snap.crd)))
  }

  /**
   * Transition `i` narrows the stored versions of the snapshot's definition to the one storage
   * version, which has been constant since the snapshot and in which every live object is encoded.
   */
  ghost predicate CertifiedPatch(h: seq<Store>, i: nat, snap: Snapshot) {
    && snap.at < i < |h|
    && Constant(h, snap.at, i, snap.name, StorageOf(snap.crd))
    && Clean(h[i - 1], snap.name, StorageOf(snap.crd))
    && h[i] == PutCrd(h[i - 1], snap.name, h[i - 1].crds[snap.name].(stored := [StorageOf(snap.crd)]))
  }

  ghost predicate Explained(h: seq<Store>, i: nat, crds: seq<Snapshot>) {
    0 < i < |h| && (Gentle(h[i - 1], h[i]) || exists snap :: snap in crds && CertifiedPatch(h, i, snap))
  }

  /** Every transition from moment `from` on is explained. */
  ghost predicate AllExplained(h: seq<Store>, from: nat, crds: seq<Snapshot>) {
    forall i :: 0 < i && from <= i < |h| ==> Explained(h, i, crds)
  }

  /* ---------- Tracking a snapshot along a history ---------- */

  /** A transition that cannot hide drift from `snap`. */
  ghost predicate Harmless(h: seq<Store>, i: nat, snap: Snapshot) {
    0 < i < |h| && (Gentle(h[i - 1], h[i])
                    || exists p :: CertifiedPatch(h, i, p) && (p.name == snap.name ==> p.at <= snap.at))
  }

  /** A transition that keeps what the definition records keeps the snapshot tracked. */
  lemma TrackedStepKept(h: seq<Store>, h': seq<Store>, snap: Snapshot)
    requires |h'| == |h| + 1 && h <= h' && Tracked(h, snap)
    requires var i, c := |h|, snap.name;
             c in h'[i].crds && (h'[i].crds[c] == h'[i - 1].crds[c] || KeptCrd(h'[i - 1].crds[c], h'[i].crds[c]))
    ensures Tracked(h', snap)
  {
    var i, c := |h|, snap.name;
    assert h[i - 1] == h'[i - 1] && h[snap.at] == h'[snap.at];
    if Disciplined(h', snap) {
      DisciplinedPrefix(h, h', snap);
      if ConstantSince(h, snap) {
        assert StorageIs(h[i - 1], c, StorageOf(snap.crd));
        if StorageOf(h'[i].crds[c]) == StorageOf(snap.crd) {
          forall k | snap.at <= k < |h'| ensures StorageIs(h'[k], c, StorageOf(snap.crd)) {
            if k < i {
              assert StorageIs(h[k], c, StorageOf(snap.crd));
            }
          }
        }
      }
    }
  }

  lemma TrackedStepPatched(h: seq<Store>, h': seq<Store>, snap: Snapshot, p: Snapshot)
    requires |h'| == |h| + 1 && h <= h' && Tracked(h, snap)
    requires CertifiedPatch(h', |h|, p) && p.name == snap.name && p.at <= snap.at
    ensures Tracked(h', snap)
  {
    var i, c := |h|, snap.name;
    assert h[snap.at] == h'[snap.at];
    assert StorageIs(h'[snap.at], c, StorageOf(p.crd)) && StorageIs(h'[i - 1], c, StorageOf(p.crd));
    forall k | snap.at <= k < |h'| ensures StorageIs(h'[k], c, StorageOf(snap.crd)) {
      if k < i {
        assert StorageIs(h'[k], c, StorageOf(p.crd));
      }
    }
  }

  lemma TrackedStep(h: seq<Store>, h': seq<Store>, snap: Snapshot)
    requires |h'| == |h| + 1 && h <= h' && Tracked(h, snap) && Harmless(h', |h|, snap)
    ensures Tracked(h', snap)
  {
    var i := |h|;
    assert h[i - 1] == h'[i - 1];
    if Gentle(h'[i - 1], h'[i]) {
      TrackedStepKept(h, h', snap);
    } else {
      var p :| CertifiedPatch(h', i, p) && (p.name == snap.name ==> p.at <= snap.at);
      if p.name == snap.name {
        TrackedStepPatched(h, h', snap, p);
      } else {
        TrackedStepKept(h, h', snap);
      }
    }
  }

  lemma SweptStep(h: seq<Store>, h': seq<Store>, snap: Snapshot)
    requires |h'| == |h| + 1 && h <= h' && snap.at < |h| && Swept(h, snap) && Harmless(h', |h|, snap)
    ensures Swept(h', snap)
  {
    var i := |h|;
    if ConstantSince(h', snap) {
      assert forall k :: 0 <= k < i ==> h[k] == h'[k];
      assert forall k :: snap.at <= k < i ==> StorageIs(h'[k], snap.name, StorageOf(snap.crd));
      assert ConstantSince(h, snap);
      assert Grew(h'[i - 1], h'[i]);
      CoveredSurvives(h', i - 1, i, snap.name, StorageOf(snap.crd), []);
    }
  }

  ghost predicate Kept(h: seq<Store>, swept: bool, snap: Snapshot) {
    Tracked(h, snap) && (swept ==> Swept(h, snap))
  }

  lemma {:induction false} KeptAlong(h: seq<Store>, n: nat, swept: bool, snap: Snapshot)
    requires 0 < n <= |h| && Kept(h[..n], swept, snap)
    requires forall i :: n <= i < |h| ==> Harmless(h, i, snap)
    ensures Kept(h, swept, snap)
    decreases |h| - n
  {
    if n == |h| {
      assert h[..n] == h;
    } else {
      var a, b := h[..n], h[..n + 1];
      assert Harmless(h, n, snap);
      assert Harmless(b, n, snap) by {
        if !Gentle(h[n - 1], h[n]) {
          var p :| CertifiedPatch(h, n, p) && (p.name == snap.name ==> p.at <= snap.at);
          CertifiedOnPrefix(h, n + 1, n, p);
        }
      }
      TrackedStep(a, b, snap);
      if swept {
        SweptStep(a, b, snap);
      }
      KeptAlong(h, n + 1, swept, snap);
    }
  }

  lemma CertifiedOnPrefix(h: seq<Store>, n: nat, i: nat, p: Snapshot)
    requires i < n <= |h|
    ensures CertifiedPatch(h[..n], i, p) <==> CertifiedPatch(h, i, p)
  {
    var b := h[..n];
    assert forall k :: 0 <= k < n ==> b[k] == h[k];
    if CertifiedPatch(h, i, p) {
      forall k | p.at <= k < i ensures StorageIs(b[k], p.name, StorageOf(p.crd)) {
        assert StorageIs(h[k], p.name, StorageOf(p.crd));
      }
    }
    if CertifiedPatch(b, i, p) {
      forall k | p.at <= k < i ensures StorageIs(h[k], p.name, StorageOf(p.crd)) {
        assert StorageIs(b[k], p.name, StorageOf(p.crd));
      }
    }
  }

  lemma KeptByGentleRun(w: World, w': World, swept: bool, snap: Snapshot)
    requires GentleRun(w, w') && Kept(History(w), swept, snap)
    ensures Kept(History(w'), swept, snap)
  {
    var h := History(w');
    assert h[..|History(w)|] == History(w);
    forall i | |History(w)| <= i < |h| ensures Harmless(h, i, snap) {
      assert Gentle(h[i - 1], h[i]);
    }
    KeptAlong(h, |History(w)|, swept, snap);
  }

  /* ---------- Choosing the definitions ---------- */

  ghost predicate Ordered(crds: seq<Snapshot>) {
    forall j, k :: 0 <= j < k < |crds| ==> crds[j].at <= crds[k].at
  }

  /** The snapshots collected so far are tracked, in the order they were read. */
  ghost predicate Collected(w: World, crds: seq<Snapshot>) {
    && WellFormed(w.store)
    && Ordered(crds)
    && forall j :: 0 <= j < |crds| ==> Tracked(History(w), crds[j])
  }

  lemma CollectedAfter(w: World, w': World, crds: seq<Snapshot>)
    requires Collected(w, crds) && GentleRun(w, w')
    ensures Collected(w', crds)
  {
    forall j | 0 <= j < |crds| ensures Tracked(History(w'), crds[j]) {
      KeptByGentleRun(w, w', false, crds[j]);
    }
  }

  lemma GetCollects(w: World, name: string, crds: seq<Snapshot>)
    requires Collected(w, crds)
    ensures var (w', r) := Get(w, name);
            GentleRun(w, w') && Collected(w', crds) && (r.Ok? ==> Collected(w', crds + [r.value]))
  {
    ArriveIsGentle(w, GetCrd(name));
    var w' := Get(w, name).0;
    CollectedAfter(w, w', crds);
  }

  lemma {:induction false} EnsureCollects(w: World, target: string, names: seq<string>, crds: seq<Snapshot>)
    requires Collected(w, crds)
    ensures var (w', r) := Ensure(w, target, names, crds);
            GentleRun(w, w') && (r.Ok? ==> Collected(w', r.value.1))
    decreases |names|
  {
    if names != [] {
      var (w', r) := Get(w, names[0]);
      GetCollects(w, names[0], crds);
      if r.Ok? && StorageOf(r.value.crd) == target {
        EnsureCollects(w', target, names[1..], crds + [r.value]);
        GentleTrans(w, w', Ensure(w, target, names, crds).0);
      }
    }
  }

  lemma {:induction false} DiscoverCollects(w: World, target: string, names: seq<string>, crds: seq<Snapshot>)
    requires Collected(w, crds)
    ensures var (w', r) := Discover(w, target, names, crds);
            GentleRun(w, w') && (r.Ok? ==> Collected(w', r.value))
    decreases |names|
  {
    if names != [] {
      var (w', r) := Get(w, names[0]);
      GetCollects(w, names[0], crds);
      if r.Ok? {
        DiscoverCollects(w', target, names[1..], if NeedsMigration(r.value.crd, target) then crds + [r.value] else crds);
        GentleTrans(w, w', Discover(w, target, names, crds).0);
      }
    }
  }

  lemma SelectCollects(w: World, target: string, names: seq<string>, skipCheck: bool)
    requires WellFormed(w.store)
    ensures var (w', r) := Select(w, target, names, skipCheck);
            GentleRun(w, w') && (r.Ok? ==> Collected(w', r.value))
  {
    EnsureCollects(w, target, names, []);
    var (w', r) := Ensure(w, target, names, []);
    if r.Ok? && r.value.0 && !skipCheck {
      DiscoverCollects(w', target, names, []);
      GentleTrans(w, w', Discover(w', target, names, []).0);
    }
  }

  /* ---------- Rewriting the objects ---------- */

  lemma {:induction false} LiveItemsComplete(objs: seq<Object>, c: string, from: nat)
    requires from <= |objs|
    ensures forall i :: from <= i < |objs| && objs[i].live && objs[i].crd == c ==>
              Item(i, objs[i].rv) in LiveItems(objs, c, from)
    decreases |objs| - from
  {
    if from < |objs| {
      LiveItemsComplete(objs, c, from + 1);
    }
  }

  /**
   * One write attempt: whatever it answers, the objects stay covered; when the answer is success,
   * NotFound or Conflict, the listed object needs no further attention.
   */
  lemma PutItemSweeps(w: World, item: Item, rest: seq<Item>, c: string, v: string)
    requires WellFormed(w.store) && Covered(w.store, c, v, [item] + rest)
    requires var w' := PutItem(w, item).0; Constant(History(w'), |w.past|, |w'.past|, c, v)
    ensures var (w', r) := PutItem(w, item);
            Covered(w'.store, c, v, if r.Ok? || r == Err(NotFound) || r == Err(Conflict) then rest else [item] + rest)
  {
    var call := Update(item.id, item.rv);
    var a := Arrive(w, call);
    var (w', r) := PutItem(w, item);
    ArriveIsGentle(w, call);
    PutItemIsGentle(w, item);
    var h := History(w');
    forall k | |w.past| <= k < |a.past| ensures StorageIs(History(a)[k], c, v) {
      assert StorageIs(h[k], c, v);
    }
    CoveredSurvivesRun(w, a, c, v, [item] + rest);
    if w' != a {
      assert h[|a.past|] == a.store && StorageIs(h[|a.past|], c, v);
    }
  }

  lemma {:induction false} TryUpdateSweeps(w: World, item: Item, rest: seq<Item>, steps: nat, c: string, v: string)
    requires WellFormed(w.store) && steps > 0 && Covered(w.store, c, v, [item] + rest)
    ensures var (w', r) := TryUpdate(w, item, steps);
            GentleRun(w, w')
            && (Constant(History(w'), |w.past|, |w'.past|, c, v) && (r.Ok? || r == Err(NotFound) || r == Err(Conflict)) ==>
                  Covered(w'.store, c, v, rest))
    decreases steps
  {
    var (w1, r1) := PutItem(w, item);
    var w' := TryUpdate(w, item, steps).0;
    PutItemIsGentle(w, item);
    var last := HandleUpdateErr(r1).Ok? || steps == 1;
    if !last {
      TryUpdateIsGentle(w1, item, steps - 1);
      GentleTrans(w, w1, w');
    }
    if Constant(History(w'), |w.past|, |w'.past|, c, v) {
      ConstantOnPrefix(w, w1, w', c, v);
      PutItemSweeps(w, item, rest, c, v);
      if !last {
        TryUpdateSweeps(w1, item, rest, steps - 1, c, v);
      }
    }
  }

  lemma {:induction false} TryUpdateIsGentle(w: World, item: Item, steps: nat)
    requires WellFormed(w.store) && steps > 0
    ensures GentleRun(w, TryUpdate(w, item, steps).0)
    decreases steps
  {
    var (w1, r1) := PutItem(w, item);
    PutItemIsGentle(w, item);
    if HandleUpdateErr(r1).Err? && steps != 1 {
      TryUpdateIsGentle(w1, item, steps - 1);
      GentleTrans(w, w1, TryUpdate(w, item, steps).0);
    }
  }

  lemma ConstantOnPrefix(w: World, w1: World, w': World, c: string, v: string)
    requires GentleRun(w, w1) && GentleRun(w1, w') && Constant(History(w'), |w.past|, |w'.past|, c, v)
    ensures Constant(History(w1), |w.past|, |w1.past|, c, v) && Constant(History(w'), |w1.past|, |w'.past|, c, v)
  {
    var h1, h' := History(w1), History(w');
    forall k | |w.past| <= k < |w1.past| ensures StorageIs(h1[k], c, v) {
      assert h1[k] == h'[k] && StorageIs(h'[k], c, v);
    }
  }

  lemma {:induction false} MigrateItemsSweeps(w: World, items: seq<Item>, c: string, v: string)
    requires WellFormed(w.store)
    ensures var (w', r) := MigrateItems(w, items);
            GentleRun(w, w')
            && (Covered(w.store, c, v, items) && r.Ok? && Constant(History(w'), |w.past|, |w'.past|, c, v) ==>
                  Clean(w'.store, c, v))
    decreases |items|
  {
    if items != [] {
      var (w1, r1) := TryUpdate(w, items[0], MAX_ATTEMPTS);
      var w' := MigrateItems(w, items).0;
      TryUpdateIsGentle(w, items[0], MAX_ATTEMPTS);
      if HandleUpdateErr(r1).Ok? {
        MigrateItemsSweeps(w1, items[1..], c, v);
        GentleTrans(w, w1, w');
        if Covered(w.store, c, v, items) && Constant(History(w'), |w.past|, |w'.past|, c, v) {
          assert items == [items[0]] + items[1..];
          TryUpdateSweeps(w, items[0], items[1..], MAX_ATTEMPTS, c, v);
          ConstantOnPrefix(w, w1, w', c, v);
        }
      }
    }
  }

  /**
   * The rewrite loop returned without error: if the storage version of the definition has been `v`
   * from the moment of the List on, every live object of it is now encoded in `v`, although
   * NotFound and Conflict answers were taken for success.
   */
  lemma MigrateResourcesSweeps(w: World, c: string, v: string)
    requires WellFormed(w.store)
    ensures var (w', r) := MigrateResources(w, c);
            GentleRun(w, w')
            && (r.Ok? && Constant(History(w'), |List(w, c).0.past|, |w'.past|, c, v) ==> Clean(w'.store, c, v))
  {
    var (w1, r1) := List(w, c);
    ArriveIsGentle(w, ListOf(c));
    if r1.Ok? {
      LiveItemsComplete(w1.store.objs, c, 0);
      MigrateItemsSweeps(w1, r1.value, c, v);
      GentleTrans(w, w1, MigrateResources(w, c).0);
    }
  }

  lemma MigrateOneSweeps(w: World, snap: Snapshot)
    requires WellFormed(w.store) && snap.at < |History(w)|
    ensures var (w', r) := MigrateResources(w, snap.name);
            GentleRun(w, w') && (r.Ok? ==> Swept(History(w'), snap))
  {
    var w' := MigrateResources(w, snap.name).0;
    MigrateResourcesSweeps(w, snap.name, StorageOf(snap.crd));
    var (l, _) := List(w, snap.name);
    ArriveIsGentle(w, ListOf(snap.name));
    if ConstantSince(History(w'), snap) {
      assert Constant(History(w'), |l.past|, |w'.past|, snap.name, StorageOf(snap.crd));
    }
  }

  lemma {:induction false} MigrateAllSweeps(w: World, crds: seq<Snapshot>)
    requires Collected(w, crds)
    ensures var (w', r) := MigrateAll(w, crds);
            GentleRun(w, w') && (r.Ok? ==> AllSwept(History(w'), crds))
    decreases |crds|
  {
    if crds != [] {
      CollectedTail(w, crds);
      var snap := crds[0];
      var (w1, r1) := MigrateResources(w, snap.name);
      MigrateOneSweeps(w, snap);
      if r1.Ok? {
        CollectedAfter(w, w1, crds);
        CollectedTail(w1, crds);
        MigrateAllSweeps(w1, crds[1..]);
        var (w', r) := MigrateAll(w1, crds[1..]);
        GentleTrans(w, w1, w');
        if r.Ok? {
          KeptByGentleRun(w1, w', true, snap);
          AllSweptCons(History(w'), crds);
        }
      }
    }
  }

  ghost predicate AllSwept(h: seq<Store>, crds: seq<Snapshot>) {
    forall snap :: snap in crds ==> Swept(h, snap)
  }

  lemma AllSweptCons(h: seq<Store>, crds: seq<Snapshot>)
    requires crds != [] && Swept(h, crds[0]) && AllSwept(h, crds[1..])
    ensures AllSwept(h, crds)
  {
    assert crds == [crds[0]] + crds[1..];
  }

  lemma CollectedTail(w: World, crds: seq<Snapshot>)
    requires crds != [] && Collected(w, crds)
    ensures Collected(w, crds[1..]) && Tracked(History(w), crds[0])
  {
    assert forall j :: 0 <= j < |crds| - 1 ==> crds[1..][j] == crds[j + 1];
  }

  /* ---------- Narrowing the stored versions ---------- */

  ghost predicate Ready(w: World, crds: seq<Snapshot>) {
    Collected(w, crds) && AllSwept(History(w), crds)
  }

  lemma ReadyAfter(w: World, w': World, crds: seq<Snapshot>, n: nat)
    requires Ready(w, crds) && n <= |crds| && History(w) <= History(w') && WellFormed(w'.store)
    requires forall i, j :: |History(w)| <= i < |History(w')| && n <= j < |crds| ==> Harmless(History(w'), i, crds[j])
    ensures Ready(w', crds[n..])
  {
    var h := History(w');
    assert h[..|History(w)|] == History(w);
    forall j | n <= j < |crds| ensures Kept(h, true, crds[j]) {
      KeptAlong(h, |History(w)|, true, crds[j]);
    }
    assert forall j :: 0 <= j < |crds[n..]| ==> crds[n..][j] == crds[n + j];
  }

  lemma DisciplinedPrefix(h: seq<Store>, h': seq<Store>, snap: Snapshot)
    requires h <= h' && Disciplined(h', snap)
    ensures Disciplined(h, snap)
  {
    assert forall k :: 0 <= k < |h| ==> h[k] == h'[k];
  }

  /** The write of one status: certified, or no write at all. */
  lemma PatchOneExplained(w: World, snap: Snapshot)
    requires Ready(w, [snap]) && Disciplined(History(PatchOne(w, snap).0), snap)
    ensures var (w', r) := PatchOne(w, snap);
            && History(w) <= History(w') && WellFormed(w'.store)
            && AllExplained(History(w'), |History(w)|, [snap])
            && (r.Ok? ==> CertifiedPatch(History(w'), |w'.past|, snap))
  {
    var (w1, r1) := Get(w, snap.name);
    var (w', r) := PatchOne(w, snap);
    ArriveIsGentle(w, GetCrd(snap.name));
    ExplainedByGentle(w, w1, [snap]);
    if r1.Ok? && !UnexpectedlyChanged(snap.crd, r1.value.crd) {
      var a := Arrive(w1, UpdateStatus(snap.name));
      ArriveIsGentle(w1, UpdateStatus(snap.name));
      GentleTrans(w, w1, a);
      ExplainedByGentle(w, a, [snap]);
      if w' != a {
        assert History(w') == History(a) + [w'.store];
        DisciplinedPrefix(History(a), History(w'), snap);
        assert Tracked(History(w), [snap][0]) && Swept(History(w), [snap][0]);
        KeptByGentleRun(w, a, true, snap);
        CheckedPatch(w1, a, snap, r1.value.crd);
        CertifiedAppend(a, w', snap);
        ExplainedAppend(a, w', |History(w)|, snap);
      }
    }
  }

  lemma ExplainedByGentle(w: World, w': World, crds: seq<Snapshot>)
    requires GentleRun(w, w')
    ensures AllExplained(History(w'), |History(w)|, crds)
  {
    var h := History(w');
    forall i | 0 < i && |History(w)| <= i < |h| ensures Explained(h, i, crds) {
      assert Gentle(h[i - 1], h[i]);
    }
  }

  /**
   * The comparison with the snapshot and the resourceVersion together: if the latest definition
   * passed the check and is still there at the write, the storage version never moved.
   */
  lemma CheckedPatch(w: World, a: World, snap: Snapshot, latest: Crd)
    requires GentleRun(w, a) && Kept(History(a), true, snap) && Disciplined(History(a), snap)
    requires snap.name in w.store.crds && w.store.crds[snap.name] == latest
    requires !UnexpectedlyChanged(snap.crd, latest) && a.store.crds[snap.name].rv == latest.rv
    ensures ConstantSince(History(a), snap) && a.store.crds[snap.name] == latest
    ensures Clean(a.store, snap.name, StorageOf(snap.crd))
  {
    var h := History(a);
    assert h[|w.past|] == History(w)[|w.past|] == w.store;
    SameRvSameCrd(h, |w.past|, |a.past|, snap.name);
    forall v | v in latest.stored && v !in snap.crd.stored ensures v == StorageOf(snap.crd) {
      assert v in StoredVersionsAdded(snap.crd, latest);
    }
  }

  lemma CertifiedAppend(a: World, w': World, snap: Snapshot)
    requires History(w') == History(a) + [w'.store] && snap.at < |History(a)|
    requires ConstantSince(History(a), snap) && Clean(a.store, snap.name, StorageOf(snap.crd))
    requires snap.name in a.store.crds
    requires w'.store == PutCrd(a.store, snap.name, a.store.crds[snap.name].(stored := [StorageOf(snap.crd)]))
    ensures CertifiedPatch(History(w'), |w'.past|, snap)
  {
    var h, h' := History(a), History(w');
    forall k | snap.at <= k < |h| ensures StorageIs(h'[k], snap.name, StorageOf(snap.crd)) {
      assert StorageIs(h[k], snap.name, StorageOf(snap.crd));
    }
  }

  lemma ExplainedAppend(a: World, w': World, from: nat, snap: Snapshot)
    requires History(w') == History(a) + [w'.store] && AllExplained(History(a), from, [snap])
    requires CertifiedPatch(History(w'), |w'.past|, snap)
    ensures AllExplained(History(w'), from, [snap])
  {
    ExplainedOnExtension(History(a), History(w'), from, |History(a)|, [snap], [snap]);
    assert snap in [snap];
  }

  lemma ExplainedOnExtension(h: seq<Store>, h': seq<Store>, from: nat, to: nat, crds: seq<Snapshot>, more: seq<Snapshot>)
    requires h <= h' && to <= |h| && AllExplained(h, from, crds) && forall s :: s in crds ==> s in more
    ensures forall i :: 0 < i && from <= i < to ==> Explained(h', i, more)
  {
    assert h == h'[..|h|];
    forall i | 0 < i && from <= i < to ensures Explained(h', i, more) {
      assert Explained(h, i, crds);
      if !Gentle(h[i - 1], h[i]) {
        var snap :| snap in crds && CertifiedPatch(h, i, snap);
        CertifiedOnPrefix(h', |h|, i, snap);
      }
    }
  }

  /** Patching the first definition leaves the later ones ready. */
  lemma ReadyAfterFirst(w: World, crds: seq<Snapshot>)
    requires crds != [] && Ready(w, crds) && Disciplined(History(PatchOne(w, crds[0]).0), crds[0])
    ensures Ready(PatchOne(w, crds[0]).0, crds[1..])
  {
    var snap := crds[0];
    var w1 := PatchOne(w, snap).0;
    PatchOneExplained(w, snap);
    forall i, j | |History(w)| <= i < |History(w1)| && 1 <= j < |crds| ensures Harmless(History(w1), i, crds[j]) {
      assert Explained(History(w1), i, [snap]);
    }
    ReadyAfter(w, w1, crds, 1);
  }

  ghost predicate AllCertified(h: seq<Store>, crds: seq<Snapshot>) {
    forall snap :: snap in crds ==> exists i :: CertifiedPatch(h, i, snap)
  }

  lemma CertifiedTogether(h: seq<Store>, h': seq<Store>, i: nat, crds: seq<Snapshot>)
    requires crds != [] && h <= h' && CertifiedPatch(h, i, crds[0]) && AllCertified(h', crds[1..])
    ensures AllCertified(h', crds)
  {
    CertifiedOnPrefix(h', |h|, i, crds[0]);
    assert h == h'[..|h|];
    forall s | s in crds ensures exists k :: CertifiedPatch(h', k, s) {
      if s == crds[0] {
        assert CertifiedPatch(h', i, s);
      } else {
        assert s in crds[1..];
      }
    }
  }

  lemma {:induction false} PatchAllExplained(w: World, crds: seq<Snapshot>)
    requires Ready(w, crds)
    requires forall snap :: snap in crds ==> Disciplined(History(PatchAll(w, crds).0), snap)
    ensures var (w', r) := PatchAll(w, crds);
            && History(w) <= History(w') && WellFormed(w'.store)
            && AllExplained(History(w'), |History(w)|, crds)
            && (r.Ok? ==> AllCertified(History(w'), crds))
    decreases |crds|
  {
    if crds != [] {
      var snap := crds[0];
      var (w1, r1) := PatchOne(w, snap);
      var h1, h' := History(w1), History(PatchAll(w, crds).0);
      PatchAllExtends(w, crds);
      DisciplinedPrefix(h1, h', snap);
      PatchOneExplained(w, snap);
      ExplainedOnExtension(h1, h', |History(w)|, |h1|, [snap], crds);
      if r1.Ok? {
        ReadyAfterFirst(w, crds);
        PatchAllExplained(w1, crds[1..]);
        ExplainedOnExtension(h', h', |h1|, |h'|, crds[1..], crds);
        if PatchAll(w, crds).1.Ok? {
          CertifiedTogether(h1, h', |w1.past|, crds);
        }
      }
    }
  }

  lemma PutStatusExtends(w: World, name: string, crd: Crd)
    requires WellFormed(w.store)
    ensures var w' := PutStatus(w, name, crd).0;
            History(w) <= History(w') && WellFormed(w'.store)
  {
    ArriveIsGentle(w, UpdateStatus(name));
  }

  lemma PatchOneExtends(w: World, snap: Snapshot)
    requires WellFormed(w.store)
    ensures History(w) <= History(PatchOne(w, snap).0) && WellFormed(PatchOne(w, snap).0.store)
  {
    var (w1, r1) := Get(w, snap.name);
    ArriveIsGentle(w, GetCrd(snap.name));
    if r1.Ok? && !UnexpectedlyChanged(snap.crd, r1.value.crd) {
      PutStatusExtends(w1, snap.name, r1.value.crd.(stored := [StorageOf(snap.crd)]));
    }
  }

  lemma {:induction false} PatchAllExtends(w: World, crds: seq<Snapshot>)
    requires WellFormed(w.store)
    ensures History(w) <= History(PatchAll(w, crds).0)
    ensures crds != [] ==> History(PatchOne(w, crds[0]).0) <= History(PatchAll(w, crds).0)
    decreases |crds|
  {
    if crds != [] {
      PatchOneExtends(w, crds[0]);
      PatchAllExtends(PatchOne(w, crds[0]).0, crds[1..]);
    }
  }

  /* ---------- Whole runs ---------- */

  /** The definitions a run set out to migrate; none when it stopped before that. */
  ghost function Selected(w: World, target: string, names: seq<string>, skipCheck: bool): seq<Snapshot> {
    var r := Select(w, target, names, skipCheck).1;
    if r.Ok? then r.value else []
  }

  ghost predicate RunDisciplined(w: World, target: string, names: seq<string>, skipCheck: bool) {
    forall snap :: snap in Selected(w, target, names, skipCheck) ==>
      Disciplined(History(FullRun(w, target, names, skipCheck).0), snap)
  }

  lemma MigrateExplained(w: World, crds: seq<Snapshot>)
    requires Collected(w, crds)
    requires forall snap :: snap in crds ==> Disciplined(History(Migrate(w, crds).0), snap)
    ensures var (w', r) := Migrate(w, crds);
            && History(w) <= History(w')
            && AllExplained(History(w'), |History(w)|, crds)
            && (r.Ok? ==> AllCertified(History(w'), crds))
  {
    var (w1, r1) := MigrateAll(w, crds);
    MigrateAllSweeps(w, crds);
    CollectedAfter(w, w1, crds);
    ExplainedByGentle(w, w1, crds);
    if r1.Ok? {
      PatchAllExplained(w1, crds);
      ExplainedOnExtension(History(w1), History(Migrate(w, crds).0), |History(w)|, |History(w1)|, crds, crds);
    }
  }

  /**
   * Every transition of a run, its own and the other clients', either loses no stored version or is
   * a certified patch; a successful migration has a certified patch for every selected definition.
   */
  lemma RunExplained(w: World, target: string, names: seq<string>, skipCheck: bool)
    requires WellFormed(w.store) && RunDisciplined(w, target, names, skipCheck)
    ensures var (w', r) := FullRun(w, target, names, skipCheck);
            var crds := Selected(w, target, names, skipCheck);
            && History(w) <= History(w')
            && AllExplained(History(w'), |History(w)|, crds)
            && (r == Ok(true) ==> AllCertified(History(w'), crds))
  {
    var (w1, r1) := Select(w, target, names, skipCheck);
    var crds := Selected(w, target, names, skipCheck);
    SelectCollects(w, target, names, skipCheck);
    ExplainedByGentle(w, w1, crds);
    if r1.Ok? && (skipCheck || crds != []) {
      MigrateExplained(w1, crds);
      ExplainedOnExtension(History(w1), History(Migrate(w1, crds).0), |History(w)|, |History(w1)|, crds, crds);
    }
  }

  lemma PatchKeepsSafe(h: seq<Store>, i: nat, snap: Snapshot)
    requires CertifiedPatch(h, i, snap) && Safe(h[i - 1])
    ensures Safe(h[i])
  {
    assert StorageIs(h[i - 1], snap.name, StorageOf(snap.crd));
  }

  lemma {:induction false} ExplainedIsSafe(h: seq<Store>, from: nat, end: nat, crds: seq<Snapshot>)
    requires 0 < from <= end <= |h| && AllExplained(h, from, crds) && Safe(h[from - 1])
    ensures forall i :: from <= i < end ==> Safe(h[i])
    decreases end
  {
    if from != end {
      ExplainedIsSafe(h, from, end - 1, crds);
      var i := end - 1;
      assert Explained(h, i, crds) && Safe(h[i - 1]);
      if Gentle(h[i - 1], h[i]) {
        GentleKeepsSafe(h[i - 1], h[i]);
      } else {
        var snap :| snap in crds && CertifiedPatch(h, i, snap);
        PatchKeepsSafe(h, i, snap);
      }
    }
  }

  /** No step of a run, whatever it answers and wherever it stops, persists an unrecorded version. */
  lemma RunIsSafe(w: World, target: string, names: seq<string>, skipCheck: bool)
    requires WellFormed(w.store) && Safe(w.store) && RunDisciplined(w, target, names, skipCheck)
    ensures var h := History(FullRun(w, target, names, skipCheck).0);
            forall i :: |History(w)| <= i < |h| ==> Safe(h[i])
  {
    RunExplained(w, target, names, skipCheck);
    var h := History(FullRun(w, target, names, skipCheck).0);
    assert h[|History(w)| - 1] == History(w)[|History(w)| - 1];
    ExplainedIsSafe(h, |History(w)|, |h|, Selected(w, target, names, skipCheck));
  }
}
