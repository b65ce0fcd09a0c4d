/**
 * What a run costs, what a failed run leaves alone, and why running again is
 * enough: in a quiet cluster every run that passes the preflight completes.
 */
module MigrationProgress {
  import opened Wrappers
  import opened ApiServer
  import opened Migration
  import opened MigrationHistory
  import opened MigrationSafety

  /* ---------- The requests of the rewrite loop ---------- */

  function Repeat(call: Call, n: nat): seq<Call> {
    seq(n, _ => call)
  }

  /** `counts[k]` updates of item k, in order. */
  function Attempts(items: seq<Item>, counts: seq<nat>): seq<Call>
    requires |counts| <= |items|
    decreases |counts|
  {
    if counts == [] then []
    else Repeat(Update(items[0].id, items[0].rv), counts[0]) + Attempts(items[1..], counts[1..])
  }

  lemma OthersKeepsScript(w: World, acts: seq<Action>)
    ensures var w' := Others(w, acts); w'.calls == w.calls && w'.script == w.script
    decreases |acts|
  {
    if acts != [] {
      OthersKeepsScript(Advance(w, Apply(acts[0], w.store)), acts[1..]);
    }
  }

  lemma {:induction false} TryUpdateCalls(w: World, item: Item, steps: nat) returns (n: nat)
    requires steps > 0
    ensures var (w', r) := TryUpdate(w, item, steps);
            && 1 <= n <= steps
            && w'.calls == w.calls + Repeat(Update(item.id, item.rv), n)
            && (r.Ok? || r == Err(NotFound) || r == Err(Conflict) || n == steps)
    decreases steps
  {
    var (w1, r1) := PutItem(w, item);
    var call := Update(item.id, item.rv);
    OthersKeepsScript(w, NextTurn(w).others);
    if HandleUpdateErr(r1).Ok? || steps == 1 {
      n := 1;
      assert Repeat(call, 1) == [call];
    } else {
      var m := TryUpdateCalls(w1, item, steps - 1);
      n := m + 1;
      assert [call] + Repeat(call, m) == Repeat(call, m + 1);
    }
  }

  /**
   * Each listed object gets one to three updates, in the order of the list; the loop stops only
   * after three failed attempts on one object, and then sends nothing for the later ones.
   */
  lemma {:induction false} MigrateItemsCalls(w: World, items: seq<Item>) returns (counts: seq<nat>)
    ensures var (w', r) := MigrateItems(w, items);
            && |counts| <= |items|
            && (forall k :: 0 <= k < |counts| ==> 1 <= counts[k] <= 3)
            && w'.calls == w.calls + Attempts(items, counts)
            && (r.Ok? ==> |counts| == |items|)
            && (r.Err? ==> |counts| > 0 && counts[|counts| - 1] == 3)
    decreases |items|
  {
    counts := [];
    if items != [] {
      var (w1, r1) := TryUpdate(w, items[0], MAX_ATTEMPTS);
      var n := TryUpdateCalls(w, items[0], MAX_ATTEMPTS);
      var rest := [];
      if HandleUpdateErr(r1).Ok? {
        rest := MigrateItemsCalls(w1, items[1..]);
      }
      counts := [n] + rest;
      AttemptsCons(w.calls, items, n, rest);
    }
  }

  lemma AttemptsCons(calls: seq<Call>, items: seq<Item>, n: nat, rest: seq<nat>)
    requires |rest| < |items|
    ensures calls + Attempts(items, [n] + rest)
         == calls + Repeat(Update(items[0].id, items[0].rv), n) + Attempts(items[1..], rest)
  {
    assert ([n] + rest)[1..] == rest;
  }

  ghost predicate NoStatusWrite(calls: seq<Call>, from: nat) {
    forall k :: from <= k < |calls| ==> !calls[k].UpdateStatus?
  }

  lemma {:induction false} AttemptsAreUpdates(items: seq<Item>, counts: seq<nat>)
    requires |counts| <= |items|
    ensures NoStatusWrite(Attempts(items, counts), 0)
    decreases |counts|
  {
    if counts != [] {
      AttemptsAreUpdates(items[1..], counts[1..]);
    }
  }

  lemma {:induction false} MigrateAllCalls(w: World, crds: seq<Snapshot>)
    ensures var w' := MigrateAll(w, crds).0;
            w.calls <= w'.calls && NoStatusWrite(w'.calls, |w.calls|)
    decreases |crds|
  {
    if crds != [] {
      var (l, r) := List(w, crds[0].name);
      OthersKeepsScript(w, NextTurn(w).others);
      if r.Ok? {
        var counts := MigrateItemsCalls(l, r.value);
        AttemptsAreUpdates(r.value, counts);
        var (w1, r1) := MigrateResources(w, crds[0].name);
        if r1.Ok? {
          MigrateAllCalls(w1, crds[1..]);
        }
      }
    }
  }

  lemma {:induction false} EnsureCalls(w: World, target: string, names: seq<string>, crds: seq<Snapshot>)
    ensures var w' := Ensure(w, target, names, crds).0;
            w.calls <= w'.calls && forall k :: |w.calls| <= k < |w'.calls| ==> w'.calls[k].GetCrd?
    decreases |names|
  {
    if names != [] {
      OthersKeepsScript(w, NextTurn(w).others);
      var (w1, r) := Get(w, names[0]);
      if r.Ok? && StorageOf(r.value.crd) == target {
        EnsureCalls(w1, target, names[1..], crds + [r.value]);
      }
    }
  }

  lemma {:induction false} DiscoverCalls(w: World, target: string, names: seq<string>, crds: seq<Snapshot>)
    ensures var w' := Discover(w, target, names, crds).0;
            w.calls <= w'.calls && forall k :: |w.calls| <= k < |w'.calls| ==> w'.calls[k].GetCrd?
    decreases |names|
  {
    if names != [] {
      OthersKeepsScript(w, NextTurn(w).others);
      var (w1, r) := Get(w, names[0]);
      if r.Ok? {
        DiscoverCalls(w1, target, names[1..], if NeedsMigration(r.value.crd, target) then crds + [r.value] else crds);
      }
    }
  }

  /**
   * A run that fails before every object was rewritten writes no definition's status, and no
   * definition loses a stored version during it, whatever the other clients did.
   */
  lemma FailedRewriteLeavesStatuses(w: World, target: string, names: seq<string>, skipCheck: bool)
    requires WellFormed(w.store)
    requires var (w1, r1) := Select(w, target, names, skipCheck); r1.Err? || MigrateAll(w1, r1.value).1.Err?
    ensures var (w', r) := FullRun(w, target, names, skipCheck);
            r.Err? && GentleRun(w, w') && NoStatusWrite(w'.calls, |w.calls|)
  {
    var (w1, r1) := Select(w, target, names, skipCheck);
    SelectCollects(w, target, names, skipCheck);
    EnsureCalls(w, target, names, []);
    DiscoverCalls(Ensure(w, target, names, []).0, target, names, []);
    if r1.Ok? {
      MigrateAllSweeps(w1, r1.value);
      MigrateAllCalls(w1, r1.value);
      GentleTrans(w, w1, MigrateAll(w1, r1.value).0);
    }
  }

  /* ---------- A quiet cluster ---------- */

  /** From now on nobody else acts and no request fails. */
  ghost predicate Quiet(w: World) {
    forall t :: t in w.script ==> t == Turn([], NoFault)
  }

  lemma QuietArrive(w: World, call: Call)
    requires Quiet(w)
    ensures var a := Arrive(w, call);
            a.store == w.store && a.past == w.past && Quiet(a) && NextTurn(w).fault == NoFault
  {
    if w.script != [] {
      assert w.script == [w.script[0]] + w.script[1..];
      assert w.script[0] in w.script;
    }
    forall t | t in Arrive(w, call).script ensures t in w.script {
    }
  }

  ghost predicate StoresTarget(s: Store, target: string, names: seq<string>) {
    forall n :: n in names ==> n in s.crds && StorageOf(s.crds[n]) == target
  }

  ghost predicate Current(s: Store, snap: Snapshot) {
    snap.name in s.crds && s.crds[snap.name] == snap.crd
  }

  ghost predicate AllCurrent(s: Store, crds: seq<Snapshot>) {
    forall snap :: snap in crds ==> Current(s, snap)
  }

  ghost predicate Names(crds: seq<Snapshot>, name: string) {
    exists snap :: snap in crds && snap.name == name
  }

  /** In a quiet cluster the preflight passes exactly when every named definition stores the target. */
  lemma {:induction false} QuietEnsure(w: World, target: string, names: seq<string>, crds: seq<Snapshot>)
    requires Quiet(w) && AllCurrent(w.store, crds)
    ensures var (w', r) := Ensure(w, target, names, crds);
            && w'.store == w.store && Quiet(w')
            && (r.Ok? && r.value.0 <==> StoresTarget(w.store, target, names))
            && (r.Ok? && r.value.0 ==> AllCurrent(w.store, r.value.1))
            && (r.Ok? && r.value.0 ==> forall n :: n in names || Names(crds, n) <==> Names(r.value.1, n))
    decreases |names|
  {
    if names == [] {
    } else {
      QuietArrive(w, GetCrd(names[0]));
      var (w1, r1) := Get(w, names[0]);
      assert names == [names[0]] + names[1..];
      if r1.Ok? && StorageOf(r1.value.crd) == target {
        var more := crds + [r1.value];
        NamesAppend(crds, r1.value);
        QuietEnsure(w1, target, names[1..], more);
        assert StoresTarget(w.store, target, names) <==> StoresTarget(w.store, target, names[1..]);
        forall n ensures n in names || Names(crds, n) <==> n in names[1..] || Names(more, n) {
        }
      } else {
        assert names[0] in names;
      }
    }
  }

  lemma NamesAppend(crds: seq<Snapshot>, snap: Snapshot)
    ensures forall n :: Names(crds + [snap], n) <==> Names(crds, n) || n == snap.name
  {
    forall n ensures Names(crds + [snap], n) <==> Names(crds, n) || n == snap.name {
      assert snap in crds + [snap];
      if Names(crds, n) {
        var s :| s in crds && s.name == n;
        assert s in crds + [snap];
      }
    }
  }

  lemma {:induction false} QuietDiscover(w: World, target: string, names: seq<string>, crds: seq<Snapshot>)
    requires Quiet(w) && AllCurrent(w.store, crds) && StoresTarget(w.store, target, names)
    ensures var (w', r) := Discover(w, target, names, crds);
            && w'.store == w.store && Quiet(w') && r.Ok? && AllCurrent(w.store, r.value)
            && (forall n :: Names(r.value, n) <==>
                  Names(crds, n) || (n in names && NeedsMigration(w.store.crds[n], target)))
    decreases |names|
  {
    if names != [] {
      QuietArrive(w, GetCrd(names[0]));
      var (w1, r1) := Get(w, names[0]);
      var snap := r1.value;
      var more := if NeedsMigration(snap.crd, target) then crds + [snap] else crds;
      assert names == [names[0]] + names[1..];
      NamesAppend(crds, snap);
      QuietDiscover(w1, target, names[1..], more);
      forall n ensures Names(Discover(w, target, names, crds).1.value, n) <==>
                         Names(crds, n) || (n in names && NeedsMigration(w.store.crds[n], target)) {
        assert n in names <==> n == names[0] || n in names[1..];
      }
    }
  }

  ghost predicate Fresh(objs: seq<Object>, items: seq<Item>) {
    && (forall k :: 0 <= k < |items| ==> items[k].id < |objs| && objs[items[k].id].live && objs[items[k].id].rv == items[k].rv)
    && (forall j, k :: 0 <= j < k < |items| ==> items[j].id < items[k].id)
  }

  lemma {:induction false} LiveItemsFresh(objs: seq<Object>, c: string, from: nat)
    requires from <= |objs|
    ensures Fresh(objs, LiveItems(objs, c, from)) && AllFrom(LiveItems(objs, c, from), from)
    decreases |objs| - from
  {
    if from < |objs| {
      LiveItemsFresh(objs, c, from + 1);
      FreshCons(objs, LiveItems(objs, c, from + 1), from);
    }
  }

  ghost predicate AllFrom(items: seq<Item>, from: nat) {
    forall k :: 0 <= k < |items| ==> from <= items[k].id
  }

  lemma FreshCons(objs: seq<Object>, items: seq<Item>, id: nat)
    requires id < |objs| && Fresh(objs, items) && AllFrom(items, id + 1)
    ensures AllFrom(items, id)
    ensures objs[id].live ==>
              var more := [Item(id, objs[id].rv)] + items;
              Fresh(objs, more) && AllFrom(more, id)
  {
  }

  /** From `w` on, up to `w'`, no definition was written. */
  ghost predicate SameCrds(w: World, w': World) {
    && History(w) <= History(w') && w'.store.crds == w.store.crds
    && forall k :: |w.past| <= k < |History(w')| ==> History(w')[k].crds == w.store.crds
  }

  lemma SameCrdsTrans(w: World, w': World, w'': World)
    requires SameCrds(w, w') && SameCrds(w', w'')
    ensures SameCrds(w, w'')
  {
    var h', h'' := History(w'), History(w'');
    assert h'[|w'.past|] == w'.store;
    forall k | |w.past| <= k < |h''| ensures h''[k].crds == w.store.crds {
      if k < |h'| {
        assert h''[k] == h'[k];
      }
    }
  }

  lemma SameCrdsConstant(w: World, w': World, from: nat, c: string)
    requires SameCrds(w, w') && c in w.store.crds && |w.past| <= from
    ensures Constant(History(w'), from, |w'.past|, c, StorageOf(w.store.crds[c]))
  {
  }

  lemma QuietPutItem(w: World, item: Item)
    requires Quiet(w) && WellFormed(w.store)
    requires item.id < |w.store.objs| && w.store.objs[item.id].live && w.store.objs[item.id].rv == item.rv
    ensures var (w', r) := PutItem(w, item);
            r == Ok(()) && Quiet(w') && SameCrds(w, w') && w'.store == PutObj(w.store, item.id)
  {
    QuietArrive(w, Update(item.id, item.rv));
    assert History(PutItem(w, item).0) == History(w) + [PutObj(w.store, item.id)];
  }

  lemma {:induction false} QuietItems(w: World, items: seq<Item>)
    requires Quiet(w) && WellFormed(w.store) && Fresh(w.store.objs, items)
    ensures var (w', r) := MigrateItems(w, items);
            r.Ok? && Quiet(w') && SameCrds(w, w')
    decreases |items|
  {
    if items != [] {
      var item := items[0];
      QuietPutItem(w, item);
      var w1 := PutItem(w, item).0;
      assert TryUpdate(w, item, MAX_ATTEMPTS).0 == w1;
      QuietItems(w1, items[1..]);
      SameCrdsTrans(w, w1, MigrateItems(w1, items[1..]).0);
    }
  }

  /** A definition all of whose live objects are encoded in its storage version stays that way. */
  lemma CleanStays(w: World, w': World)
    requires SameCrds(w, w') && GentleRun(w, w')
    ensures forall c, v :: StorageIs(w.store, c, v) && Clean(w.store, c, v) ==> Clean(w'.store, c, v)
  {
    forall c, v | StorageIs(w.store, c, v) && Clean(w.store, c, v) ensures Clean(w'.store, c, v) {
      SameCrdsConstant(w, w', |w.past|, c);
      CoveredSurvivesRun(w, w', c, v, []);
    }
  }

  lemma QuietResources(w: World, c: string)
    requires Quiet(w) && WellFormed(w.store) && c in w.store.crds
    ensures var (w', r) := MigrateResources(w, c);
            && r.Ok? && Quiet(w') && SameCrds(w, w') && GentleRun(w, w')
            && Clean(w'.store, c, StorageOf(w.store.crds[c]))
  {
    QuietArrive(w, ListOf(c));
    LiveItemsFresh(w.store.objs, c, 0);
    var l := List(w, c).0;
    assert History(l) == History(w);
    QuietItems(l, List(w, c).1.value);
    var w' := MigrateResources(w, c).0;
    SameCrdsTrans(w, l, w');
    MigrateResourcesSweeps(w, c, StorageOf(w.store.crds[c]));
    SameCrdsConstant(w, w', |l.past|, c);
  }

  ghost predicate AllClean(s: Store, crds: seq<Snapshot>, target: string) {
    forall snap :: snap in crds ==> Clean(s, snap.name, target)
  }

  ghost predicate AllStore(s: Store, crds: seq<Snapshot>, target: string) {
    forall snap :: snap in crds ==> StorageIs(s, snap.name, target)
  }

  /** In a quiet cluster the rewrite succeeds, writes no definition, and leaves every live object in the target. */
  lemma {:induction false} QuietMigrateAll(w: World, crds: seq<Snapshot>, target: string)
    requires Quiet(w) && WellFormed(w.store) && AllStore(w.store, crds, target)
    ensures var (w', r) := MigrateAll(w, crds);
            && r.Ok? && Quiet(w') && SameCrds(w, w') && GentleRun(w, w')
            && AllClean(w'.store, crds, target)
    decreases |crds|
  {
    if crds != [] {
      var c := crds[0].name;
      assert crds[0] in crds && StorageIs(w.store, c, target);
      QuietResources(w, c);
      var w1 := MigrateResources(w, c).0;
      assert AllStore(w1.store, crds[1..], target);
      QuietMigrateAll(w1, crds[1..], target);
      var w' := MigrateAll(w1, crds[1..]).0;
      SameCrdsTrans(w, w1, w');
      GentleTrans(w, w1, w');
      CleanStays(w1, w');
      AllCleanCons(w'.store, crds, target);
    }
  }

  lemma AllCleanCons(s: Store, crds: seq<Snapshot>, target: string)
    requires crds != [] && Clean(s, crds[0].name, target) && AllClean(s, crds[1..], target)
    ensures AllClean(s, crds, target)
  {
    assert crds == [crds[0]] + crds[1..];
  }

  ghost predicate Patchable(s: Store, target: string, snap: Snapshot) {
    && snap.name in s.crds && StorageOf(s.crds[snap.name]) == StorageOf(snap.crd) == target
    && (forall v :: v in s.crds[snap.name].stored ==> v in snap.crd.stored || v == target)
  }

  ghost predicate AllPatchable(s: Store, target: string, crds: seq<Snapshot>) {
    forall snap :: snap in crds ==> Patchable(s, target, snap)
  }

  /** The named definitions record the target alone; the others record what they did. */
  ghost predicate Narrowed(s: Store, s': Store, crds: seq<Snapshot>, target: string) {
    && s'.crds.Keys == s.crds.Keys
    && forall n :: n in s.crds ==>
         && StorageOf(s'.crds[n]) == StorageOf(s.crds[n])
         && s'.crds[n].stored == (if Names(crds, n) then [target] else s.crds[n].stored)
  }

  lemma {:induction false} QuietPatchAll(w: World, crds: seq<Snapshot>, target: string)
    requires Quiet(w) && AllPatchable(w.store, target, crds)
    ensures var (w', r) := PatchAll(w, crds);
            r.Ok? && Quiet(w') && Narrowed(w.store, w'.store, crds, target) && w'.store.objs == w.store.objs
    decreases |crds|
  {
    if crds != [] {
      var snap := crds[0];
      assert snap in crds && Patchable(w.store, target, snap);
      QuietPatchOne(w, snap, target);
      var w1 := PatchOne(w, snap).0;
      StillPatchable(w.store, w1.store, crds, target);
      QuietPatchAll(w1, crds[1..], target);
      NarrowedCons(w.store, w1.store, PatchAll(w1, crds[1..]).0.store, crds, target);
    }
  }

  lemma QuietPatchOne(w: World, snap: Snapshot, target: string)
    requires Quiet(w) && Patchable(w.store, target, snap)
    ensures var (w', r) := PatchOne(w, snap);
            r.Ok? && Quiet(w') && Narrowed(w.store, w'.store, [snap], target) && w'.store.objs == w.store.objs
  {
    QuietArrive(w, GetCrd(snap.name));
    var (g, r) := Get(w, snap.name);
    QuietArrive(g, UpdateStatus(snap.name));
    var added := StoredVersionsAdded(snap.crd, r.value.crd);
    assert added != {} ==> added == {target};
    NamesPrepend(snap, []);
  }

  lemma StillPatchable(s: Store, s': Store, crds: seq<Snapshot>, target: string)
    requires crds != [] && AllPatchable(s, target, crds) && Narrowed(s, s', [crds[0]], target)
    ensures AllPatchable(s', target, crds[1..])
  {
    forall snap | snap in crds[1..] ensures Patchable(s', target, snap) {
      assert snap in crds && Patchable(s, target, snap);
      assert s'.crds[snap.name].stored == [target] || s'.crds[snap.name].stored == s.crds[snap.name].stored;
    }
  }

  lemma NarrowedCons(s: Store, s1: Store, s': Store, crds: seq<Snapshot>, target: string)
    requires crds != [] && Narrowed(s, s1, [crds[0]], target) && Narrowed(s1, s', crds[1..], target)
    ensures Narrowed(s, s', crds, target)
  {
    NamesPrepend(crds[0], []);
    NamesPrepend(crds[0], crds[1..]);
    assert crds == [crds[0]] + crds[1..];
  }

  lemma NamesPrepend(snap: Snapshot, crds: seq<Snapshot>)
    ensures forall n :: Names([snap] + crds, n) <==> n == snap.name || Names(crds, n)
  {
    forall n ensures Names([snap] + crds, n) <==> n == snap.name || Names(crds, n) {
      assert snap in [snap] + crds;
      if Names(crds, n) {
        var s :| s in crds && s.name == n;
        assert s in [snap] + crds;
      }
    }
  }

  /** What a completed migration means for one definition. */
  ghost predicate Migrated(s: Store, target: string, n: string) {
    n in s.crds && StorageOf(s.crds[n]) == target && (s.crds[n].stored == [] || s.crds[n].stored == [target])
  }

  /** After a run that took the store from `s` to `s'`: the objects are encoded in the target. */
  ghost predicate Rewritten(s: Store, s': Store, target: string, names: seq<string>, skipCheck: bool) {
    forall n :: n in names && n in s.crds && (skipCheck || NeedsMigration(s.crds[n], target) || Safe(s)) ==>
      Clean(s', n, target)
  }

  lemma QuietMigrate(w: World, crds: seq<Snapshot>, target: string)
    requires Quiet(w) && WellFormed(w.store) && AllCurrent(w.store, crds)
    requires forall snap :: snap in crds ==> StorageOf(snap.crd) == target
    ensures var (w', r) := Migrate(w, crds);
            && r.Ok? && Quiet(w') && Narrowed(w.store, w'.store, crds, target)
            && AllClean(w'.store, crds, target)
            && forall c :: StorageIs(w.store, c, target) && Clean(w.store, c, target) ==> Clean(w'.store, c, target)
  {
    QuietMigrateAll(w, crds, target);
    CleanStays(w, MigrateAll(w, crds).0);
    QuietPatchAll(MigrateAll(w, crds).0, crds, target);
  }

  /** The definitions chosen: all of those named, or those that record more than the target. */
  lemma QuietSelect(w: World, target: string, names: seq<string>, skipCheck: bool)
    requires Quiet(w) && StoresTarget(w.store, target, names)
    ensures var (w', r) := Select(w, target, names, skipCheck);
            && w'.store == w.store && Quiet(w') && r.Ok? && AllCurrent(w.store, r.value)
            && (forall n :: Names(r.value, n) <==> n in names && (skipCheck || NeedsMigration(w.store.crds[n], target)))
  {
    QuietEnsure(w, target, names, []);
    if !skipCheck {
      QuietDiscover(Ensure(w, target, names, []).0, target, names, []);
    }
  }

  /**
   * A run in a quiet cluster that passes the preflight succeeds from any store, and afterwards every
   * named definition records no stored version or the target alone; with the check skipped, the
   * target alone. Every live object of a migrated definition is encoded in the target, and every
   * live object of the others too if the cluster was safe.
   */
  lemma QuietRunConverges(w: World, target: string, names: seq<string>, skipCheck: bool)
    requires Quiet(w) && WellFormed(w.store) && StoresTarget(w.store, target, names)
    ensures var (w', r) := FullRun(w, target, names, skipCheck);
            && r == Ok(skipCheck || exists n :: n in names && NeedsMigration(w.store.crds[n], target))
            && Quiet(w')
            && (forall n :: n in names ==> Migrated(w'.store, target, n))
            && (skipCheck ==> forall n :: n in names ==> w'.store.crds[n].stored == [target])
            && Rewritten(w.store, w'.store, target, names, skipCheck)
  {
    QuietSelect(w, target, names, skipCheck);
    var (w1, r1) := Select(w, target, names, skipCheck);
    var crds := r1.value;
    if crds != [] {
      assert crds[0] in crds && Names(crds, crds[0].name);
    }
    forall snap | snap in crds ensures StorageOf(snap.crd) == target {
      assert Names(crds, snap.name);
    }
    QuietMigrate(w1, crds, target);
    var w' := FullRun(w, target, names, skipCheck).0;
    forall n | n in names && (skipCheck || NeedsMigration(w.store.crds[n], target) || Safe(w.store))
      ensures Clean(w'.store, n, target)
    {
      if skipCheck || NeedsMigration(w.store.crds[n], target) {
        assert Names(crds, n);
      } else {
        RecordedAloneIsClean(w.store, n, target);
      }
    }
  }

  lemma RecordedAloneIsClean(s: Store, n: string, target: string)
    requires Safe(s) && StorageIs(s, n, target) && !NeedsMigration(s.crds[n], target)
    ensures Clean(s, n, target)
  {
    assert target in s.crds[n].stored;
  }

  lemma {:induction false} RunKeepsWellFormed(w: World, target: string, names: seq<string>, skipCheck: bool)
    requires WellFormed(w.store)
    ensures WellFormed(FullRun(w, target, names, skipCheck).0.store)
  {
    SelectCollects(w, target, names, skipCheck);
    var (w1, r1) := Select(w, target, names, skipCheck);
    if r1.Ok? {
      MigrateAllSweeps(w1, r1.value);
      PatchAllKeepsWellFormed(MigrateAll(w1, r1.value).0, r1.value);
    }
  }

  lemma {:induction false} PatchAllKeepsWellFormed(w: World, crds: seq<Snapshot>)
    requires WellFormed(w.store)
    ensures WellFormed(PatchAll(w, crds).0.store)
    decreases |crds|
  {
    if crds != [] {
      PatchOneExtends(w, crds[0]);
      PatchAllKeepsWellFormed(PatchOne(w, crds[0]).0, crds[1..]);
    }
  }

  /**
   * Resuming: after any run whatsoever, failed at any step or not, a second run in a quiet cluster
   * that passes the preflight completes the migration, and a third one finds nothing to do and
   * changes nothing.
   */
  lemma ResumedRunConverges(w: World, script: seq<Turn>, target: string, names: seq<string>, first: bool, second: bool)
    requires WellFormed(w.store)
    requires var again := FullRun(w, target, names, first).0.(script := script);
             Quiet(again) && StoresTarget(again.store, target, names)
    ensures var again := FullRun(w, target, names, first).0.(script := script);
            var (w', r) := FullRun(again, target, names, second);
            var (w'', r'') := FullRun(w', target, names, false);
            && r.Ok? && (forall n :: n in names ==> Migrated(w'.store, target, n))
            && Rewritten(again.store, w'.store, target, names, second)
            && r'' == Ok(false) && w''.store == w'.store && NoStatusWrite(w''.calls, |w'.calls|)
  {
    var again := FullRun(w, target, names, first).0.(script := script);
    RunKeepsWellFormed(w, target, names, first);
    QuietRunConverges(again, target, names, second);
    var w' := FullRun(again, target, names, second).0;
    RunKeepsWellFormed(again, target, names, second);
    forall n | n in names ensures !NeedsMigration(w'.store.crds[n], target) {
      assert Migrated(w'.store, target, n);
    }
    QuietRunConverges(w', target, names, false);
    QuietEnsure(w', target, names, []);
    var w1 := Ensure(w', target, names, []).0;
    QuietDiscover(w1, target, names, []);
    EnsureCalls(w', target, names, []);
    DiscoverCalls(w1, target, names, []);
  }
}
