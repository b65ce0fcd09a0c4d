/**
 * How a run may end: which answers it absorbs, what it has seen of every
 * named definition before it reports success, and which errors are left when
 * no request fails.
 */
module MigrationOutcomes {
  import opened Wrappers
  import opened ApiServer
  import opened Migration
  import opened MigrationHistory
  import opened MigrationSafety
  import opened MigrationProgress

  /* ---------- The comparisons ---------- */

  /** A definition is migrated unless it records nothing or the target alone. */
  lemma NeedsMigrationExact(crd: Crd, target: string)
    ensures NeedsMigration(crd, target) <==> crd.stored != [] && crd.stored != [target]
  {
  }

  /**
   * The comparison objects exactly when the storage version differs or a version other than it is
   * recorded that the snapshot did not record.
   */
  lemma UnexpectedlyChangedExact(snap: Crd, latest: Crd)
    ensures UnexpectedlyChanged(snap, latest) <==>
              || StorageOf(latest) != StorageOf(snap)
              || exists v :: v in latest.stored && v !in snap.stored && v != StorageOf(snap)
  {
    var added := StoredVersionsAdded(snap, latest);
    assert forall v :: v in added <==> v in latest.stored && v !in snap.stored;
    if forall v :: v in latest.stored ==> v in snap.stored || v == StorageOf(snap) {
      assert added == {} || added == {StorageOf(snap)};
    } else {
      var v :| v in latest.stored && v !in snap.stored && v != StorageOf(snap);
      assert v in added;
    }
  }

  /* ---------- Without failing requests ---------- */

  /** No request fails from now on; the other clients may do anything. */
  ghost predicate Faultless(w: World) {
    forall t :: t in w.script ==> t.fault == NoFault
  }

  lemma OthersKeepKeys(w: World, acts: seq<Action>)
    ensures Others(w, acts).store.crds.Keys == w.store.crds.Keys
    decreases |acts|
  {
    if acts != [] {
      OthersKeepKeys(Advance(w, Apply(acts[0], w.store)), acts[1..]);
    }
  }

  lemma FaultlessArrive(w: World, call: Call)
    requires Faultless(w)
    ensures var a := Arrive(w, call);
            && NextTurn(w).fault == NoFault && Faultless(a)
            && a.calls == w.calls + [call] && a.store.crds.Keys == w.store.crds.Keys
  {
    OthersKeepsScript(w, NextTurn(w).others);
    OthersKeepKeys(w, NextTurn(w).others);
    if w.script != [] {
      assert w.script[0] in w.script;
      assert forall t :: t in w.script[1..] ==> t in w.script;
    }
  }

  /** One update per item, in order. */
  function Updates(items: seq<Item>): seq<Call> {
    seq(|items|, i requires 0 <= i < |items| => Update(items[i].id, items[i].rv))
  }

  lemma FaultlessPutItem(w: World, item: Item)
    requires Faultless(w)
    ensures var (w', r) := PutItem(w, item);
            && (r == Ok(()) || r == Err(NotFound) || r == Err(Conflict)) && Faultless(w')
            && w'.calls == w.calls + [Update(item.id, item.rv)] && w'.store.crds.Keys == w.store.crds.Keys
  {
    FaultlessArrive(w, Update(item.id, item.rv));
  }

  /** NotFound and Conflict need no second attempt. */
  lemma FirstAttemptIsEnough(w: World, item: Item)
    requires var r := PutItem(w, item).1; r == Ok(()) || r == Err(NotFound) || r == Err(Conflict)
    ensures TryUpdate(w, item, MAX_ATTEMPTS) == PutItem(w, item)
  {
  }

  /** Without failing requests one attempt per object is enough, whatever other clients did to the object. */
  lemma {:induction false} FaultlessItems(w: World, items: seq<Item>)
    requires Faultless(w)
    ensures var (w', r) := MigrateItems(w, items);
            && r.Ok? && Faultless(w') && w'.calls == w.calls + Updates(items)
            && w'.store.crds.Keys == w.store.crds.Keys
    decreases |items|
  {
    if items != [] {
      var item := items[0];
      FaultlessPutItem(w, item);
      FirstAttemptIsEnough(w, item);
      FaultlessItems(PutItem(w, item).0, items[1..]);
      assert Updates(items) == [Update(item.id, item.rv)] + Updates(items[1..]);
    }
  }

  lemma FaultlessResources(w: World, c: string) returns (items: seq<Item>)
    requires Faultless(w) && c in w.store.crds
    ensures var (w', r) := MigrateResources(w, c);
            && r.Ok? && Faultless(w') && w'.store.crds.Keys == w.store.crds.Keys
            && List(w, c).1 == Ok(items) && w'.calls == w.calls + ([ListOf(c)] + Updates(items))
  {
    FaultlessArrive(w, ListOf(c));
    var (l, r) := List(w, c);
    items := r.value;
    FaultlessItems(l, items);
  }

  /** The requests of the rewrite phase: a List of each definition, then one update per listed object. */
  function Requests(crds: seq<Snapshot>, listed: seq<seq<Item>>): seq<Call>
    requires |crds| == |listed|
  {
    if crds == [] then [] else [ListOf(crds[0].name)] + Updates(listed[0]) + Requests(crds[1..], listed[1..])
  }

  lemma RequestsCons(calls: seq<Call>, crds: seq<Snapshot>, items: seq<Item>, rest: seq<seq<Item>>)
    requires crds != [] && |rest| == |crds| - 1
    ensures calls + ([ListOf(crds[0].name)] + Updates(items)) + Requests(crds[1..], rest)
         == calls + Requests(crds, [items] + rest)
  {
    assert ([items] + rest)[1..] == rest;
  }

  ghost predicate AllExist(s: Store, crds: seq<Snapshot>) {
    forall snap :: snap in crds ==> snap.name in s.crds
  }

  /**
   * If no request fails and the selected definitions exist, the rewrite phase succeeds whatever the
   * other clients do - objects that they delete or change meanwhile included - and sends exactly one
   * update per listed object.
   */
  lemma {:induction false} FaultlessMigrateAll(w: World, crds: seq<Snapshot>) returns (listed: seq<seq<Item>>)
    requires Faultless(w) && AllExist(w.store, crds)
    ensures var (w', r) := MigrateAll(w, crds);
            && r.Ok? && Faultless(w') && w'.store.crds.Keys == w.store.crds.Keys
            && |listed| == |crds| && w'.calls == w.calls + Requests(crds, listed)
            && (crds != [] ==> List(w, crds[0].name).1 == Ok(listed[0]))
    decreases |crds|
  {
    listed := [];
    if crds != [] {
      assert crds[0] in crds;
      var items := FaultlessResources(w, crds[0].name);
      var w1 := MigrateResources(w, crds[0].name).0;
      var rest := FaultlessMigrateAll(w1, crds[1..]);
      listed := [items] + rest;
      RequestsCons(w.calls, crds, items, rest);
    }
  }

  lemma {:induction false} FaultlessEnsure(w: World, target: string, names: seq<string>, crds: seq<Snapshot>)
    requires Faultless(w) && AllExist(w.store, crds) && forall n :: n in names ==> n in w.store.crds
    ensures var (w', r) := Ensure(w, target, names, crds);
            && r.Ok? && Faultless(w') && w'.store.crds.Keys == w.store.crds.Keys && AllExist(w'.store, r.value.1)
    decreases |names|
  {
    if names != [] {
      assert names[0] in names;
      FaultlessArrive(w, GetCrd(names[0]));
      var (w1, r1) := Get(w, names[0]);
      if StorageOf(r1.value.crd) == target {
        FaultlessEnsure(w1, target, names[1..], crds + [r1.value]);
      }
    }
  }

  lemma {:induction false} FaultlessDiscover(w: World, target: string, names: seq<string>, crds: seq<Snapshot>)
    requires Faultless(w) && AllExist(w.store, crds) && forall n :: n in names ==> n in w.store.crds
    ensures var (w', r) := Discover(w, target, names, crds);
            && r.Ok? && Faultless(w') && w'.store.crds.Keys == w.store.crds.Keys && AllExist(w'.store, r.value)
    decreases |names|
  {
    if names != [] {
      assert names[0] in names;
      FaultlessArrive(w, GetCrd(names[0]));
      var (w1, r1) := Get(w, names[0]);
      FaultlessDiscover(w1, target, names[1..], if NeedsMigration(r1.value.crd, target) then crds + [r1.value] else crds);
    }
  }

  lemma FaultlessPatchOne(w: World, snap: Snapshot)
    requires Faultless(w) && snap.name in w.store.crds
    ensures var (w', r) := PatchOne(w, snap);
            && Faultless(w') && w'.store.crds.Keys == w.store.crds.Keys
            && (r.Ok? || r == Err(UnexpectedChange) || r == Err(Conflict))
  {
    FaultlessArrive(w, GetCrd(snap.name));
    FaultlessArrive(Get(w, snap.name).0, UpdateStatus(snap.name));
  }

  lemma {:induction false} FaultlessPatchAll(w: World, crds: seq<Snapshot>)
    requires Faultless(w) && AllExist(w.store, crds)
    ensures var r := PatchAll(w, crds).1; r.Ok? || r == Err(UnexpectedChange) || r == Err(Conflict)
    decreases |crds|
  {
    if crds != [] {
      assert crds[0] in crds;
      FaultlessPatchOne(w, crds[0]);
      FaultlessPatchAll(PatchOne(w, crds[0]).0, crds[1..]);
    }
  }

  /**
   * If no request fails and the named definitions exist, only three things stop a run: a definition
   * that does not store the target, a change the comparison objects to, and a concurrent status write.
   */
  lemma FaultlessRun(w: World, target: string, names: seq<string>, skipCheck: bool)
    requires Faultless(w) && forall n :: n in names ==> n in w.store.crds
    ensures var r := FullRun(w, target, names, skipCheck).1;
            r.Ok? || r == Err(Preflight) || r == Err(UnexpectedChange) || r == Err(Conflict)
  {
    FaultlessEnsure(w, target, names, []);
    var (w1, r1) := Ensure(w, target, names, []);
    if r1.value.0 {
      FaultlessDiscover(w1, target, names, []);
      var (w2, r2) := Select(w, target, names, skipCheck);
      var listed := FaultlessMigrateAll(w2, r2.value);
      FaultlessPatchAll(MigrateAll(w2, r2.value).0, r2.value);
    }
  }

  /* ---------- What a run has seen ---------- */

  /** At some moment from `from` on, the definition stored the target. */
  ghost predicate SeenStoring(h: seq<Store>, from: nat, n: string, target: string) {
    exists k: nat :: from <= k < |h| && StorageIs(h[k], n, target)
  }

  ghost predicate SeenElsewhere(h: seq<Store>, from: nat, n: string, target: string) {
    exists k: nat :: from <= k < |h| && n in h[k].crds && StorageOf(h[k].crds[n]) != target
  }

  /** At some moment from `from` on, the definition recorded nothing or the target alone. */
  ghost predicate SeenDone(h: seq<Store>, from: nat, n: string, target: string) {
    exists k: nat :: from <= k < |h| && n in h[k].crds && (h[k].crds[n].stored == [] || h[k].crds[n].stored == [target])
  }

  lemma SeenLater(h: seq<Store>, h': seq<Store>, from: nat, n: string, target: string)
    requires h <= h'
    ensures SeenStoring(h, from, n, target) ==> SeenStoring(h', from, n, target)
    ensures SeenDone(h, from, n, target) ==> SeenDone(h', from, n, target)
    ensures SeenElsewhere(h, from, n, target) ==> SeenElsewhere(h', from, n, target)
  {
    assert forall k :: 0 <= k < |h| ==> h'[k] == h[k];
  }

  lemma SeenSooner(h: seq<Store>, from: nat, later: nat, target: string)
    requires from <= later
    ensures forall n :: SeenStoring(h, later, n, target) ==> SeenStoring(h, from, n, target)
    ensures forall n :: SeenElsewhere(h, later, n, target) ==> SeenElsewhere(h, from, n, target)
  {
  }

  lemma GetSees(w: World, name: string)
    requires WellFormed(w.store) && Get(w, name).1.Ok?
    ensures var (w', r) := Get(w, name);
            && GentleRun(w, w') && |w.past| <= |w'.past| < |History(w')|
            && r.value.name == name && name in w'.store.crds && w'.store.crds[name] == r.value.crd
            && History(w')[|w'.past|] == w'.store
  {
    ArriveIsGentle(w, GetCrd(name));
  }

  lemma {:induction false} EnsureSees(w: World, target: string, names: seq<string>, crds: seq<Snapshot>)
    requires WellFormed(w.store)
    ensures var (w', r) := Ensure(w, target, names, crds);
            && GentleRun(w, w')
            && (r.Ok? && r.value.0 ==>
                  && (forall n :: n in names ==> SeenStoring(History(w'), |w.past|, n, target))
                  && (forall n :: n in names || Names(crds, n) ==> Names(r.value.1, n)))
            && (r.Ok? && !r.value.0 ==> exists n :: n in names && SeenElsewhere(History(w'), |w.past|, n, target))
    decreases |names|
  {
    if names != [] {
      var (w1, r1) := Get(w, names[0]);
      ArriveIsGentle(w, GetCrd(names[0]));
      if r1.Ok? {
        GetSees(w, names[0]);
        var from, n := |w.past|, names[0];
        var w' := Ensure(w, target, names, crds).0;
        if StorageOf(r1.value.crd) == target {
          assert SeenStoring(History(w1), from, n, target);
          NamesAppend(crds, r1.value);
          EnsureSees(w1, target, names[1..], crds + [r1.value]);
          GentleTrans(w, w1, w');
          SeenLater(History(w1), History(w'), from, n, target);
          assert names == [n] + names[1..];
          SeenSooner(History(w'), from, |w1.past|, target);
        } else {
          assert SeenElsewhere(History(w1), from, n, target);
        }
      }
    }
  }

  /** What a finished selection knows: every name was selected or seen to be done, and nothing else was selected. */
  ghost predicate Chosen(h: seq<Store>, from: nat, names: seq<string>, target: string, crds: seq<Snapshot>, found: seq<Snapshot>) {
    && (forall n :: n in names ==> SeenDone(h, from, n, target) || Names(found, n))
    && (forall n :: Names(crds, n) ==> Names(found, n))
    && (forall snap :: snap in found ==>
          snap in crds || (snap.name in names && snap.crd.stored != [] && snap.crd.stored != [target]))
  }

  lemma ChosenCons(h: seq<Store>, from: nat, later: nat, names: seq<string>, target: string,
                   crds: seq<Snapshot>, snap: Snapshot, found: seq<Snapshot>)
    requires from <= later && names != [] && snap.name == names[0]
    requires var more := if NeedsMigration(snap.crd, target) then crds + [snap] else crds;
             Chosen(h, later, names[1..], target, more, found)
    requires !NeedsMigration(snap.crd, target) ==> SeenDone(h, from, names[0], target)
    ensures Chosen(h, from, names, target, crds, found)
  {
    NeedsMigrationExact(snap.crd, target);
    NamesAppend(crds, snap);
    assert names == [names[0]] + names[1..];
    forall n | n in names[1..] && SeenDone(h, later, n, target) ensures SeenDone(h, from, n, target) {
    }
  }

  lemma {:induction false} DiscoverSees(w: World, target: string, names: seq<string>, crds: seq<Snapshot>)
    requires WellFormed(w.store)
    ensures var (w', r) := Discover(w, target, names, crds);
            && GentleRun(w, w')
            && (r.Ok? ==> Chosen(History(w'), |w.past|, names, target, crds, r.value))
    decreases |names|
  {
    if names != [] {
      var (w1, r1) := Get(w, names[0]);
      ArriveIsGentle(w, GetCrd(names[0]));
      if r1.Ok? {
        GetSees(w, names[0]);
        var (w', r) := Discover(w, target, names, crds);
        var more := if NeedsMigration(r1.value.crd, target) then crds + [r1.value] else crds;
        DiscoverSees(w1, target, names[1..], more);
        GentleTrans(w, w1, w');
        if !NeedsMigration(r1.value.crd, target) {
          NeedsMigrationExact(r1.value.crd, target);
          assert SeenDone(History(w1), |w.past|, names[0], target);
          SeenLater(History(w1), History(w'), |w.past|, names[0], target);
        }
        if r.Ok? {
          ChosenCons(History(w'), |w.past|, |w1.past|, names, target, crds, r1.value, r.value);
        }
      }
    }
  }

  lemma SelectSees(w: World, target: string, names: seq<string>, skipCheck: bool)
    requires WellFormed(w.store) && Select(w, target, names, skipCheck).1.Ok?
    ensures var (w', r) := Select(w, target, names, skipCheck);
            && GentleRun(w, w')
            && (forall n :: n in names ==> SeenStoring(History(w'), |w.past|, n, target))
            && (skipCheck ==> forall n :: n in names ==> Names(r.value, n))
            && (!skipCheck ==> Chosen(History(w'), |w.past|, names, target, [], r.value))
  {
    var (w1, r1) := Ensure(w, target, names, []);
    EnsureSees(w, target, names, []);
    if !skipCheck {
      DiscoverSees(w1, target, names, []);
      var (w2, r2) := Discover(w1, target, names, []);
      GentleTrans(w, w1, w2);
      forall n | n in names
        ensures SeenStoring(History(w2), |w.past|, n, target)
        ensures SeenDone(History(w2), |w1.past|, n, target) ==> SeenDone(History(w2), |w.past|, n, target)
      {
        SeenLater(History(w1), History(w2), |w.past|, n, target);
      }
    }
  }

  /**
   * Success is earned for every name, in every interleaving: each named definition stored the target
   * at some moment of the run, and it either was selected or, unless the check is skipped, was seen
   * to record nothing or the target alone. Nothing else is ever selected, and the result tells
   * whether anything was.
   */
  lemma RunChecksEveryName(w: World, target: string, names: seq<string>, skipCheck: bool)
    requires WellFormed(w.store) && FullRun(w, target, names, skipCheck).1.Ok?
    ensures var (w', r) := FullRun(w, target, names, skipCheck);
            var crds := Selected(w, target, names, skipCheck);
            && (forall n :: n in names ==> SeenStoring(History(w'), |w.past|, n, target))
            && (forall n :: n in names ==> Names(crds, n) || (!skipCheck && SeenDone(History(w'), |w.past|, n, target)))
            && (!skipCheck ==> forall snap :: snap in crds ==>
                  snap.name in names && snap.crd.stored != [] && snap.crd.stored != [target])
            && r == Ok(skipCheck || crds != [])
  {
    SelectSees(w, target, names, skipCheck);
    var (w1, r1) := Select(w, target, names, skipCheck);
    var w' := FullRun(w, target, names, skipCheck).0;
    MigrateKeepsHistory(w1, r1.value);
    forall n | n in names
      ensures SeenStoring(History(w'), |w.past|, n, target)
      ensures Names(r1.value, n) || (!skipCheck && SeenDone(History(w'), |w.past|, n, target))
    {
      SeenLater(History(w1), History(w'), |w.past|, n, target);
    }
  }

  lemma MigrateKeepsHistory(w: World, crds: seq<Snapshot>)
    requires WellFormed(w.store)
    ensures History(w) <= History(Migrate(w, crds).0)
  {
    MigrateAllIsGentle(w, crds);
    PatchAllExtends(MigrateAll(w, crds).0, crds);
  }

  lemma {:induction false} MigrateAllIsGentle(w: World, crds: seq<Snapshot>)
    requires WellFormed(w.store)
    ensures GentleRun(w, MigrateAll(w, crds).0)
    decreases |crds|
  {
    if crds != [] {
      var (w1, r1) := MigrateResources(w, crds[0].name);
      MigrateResourcesSweeps(w, crds[0].name, "");
      MigrateAllIsGentle(w1, crds[1..]);
      if r1.Ok? {
        GentleTrans(w, w1, MigrateAll(w1, crds[1..]).0);
      }
    }
  }

  /** A run is refused for its target only if some named definition was seen to store another version, and it has only read. */
  lemma RefusedRunOnlyReads(w: World, target: string, names: seq<string>, skipCheck: bool)
    requires WellFormed(w.store) && FullRun(w, target, names, skipCheck).1 == Err(Preflight)
    ensures var w' := FullRun(w, target, names, skipCheck).0;
            && (exists n :: n in names && SeenElsewhere(History(w'), |w.past|, n, target))
            && w.calls <= w'.calls && forall k :: |w.calls| <= k < |w'.calls| ==> w'.calls[k].GetCrd?
  {
    var (w1, r1) := Ensure(w, target, names, []);
    EnsureSees(w, target, names, []);
    EnsureCalls(w, target, names, []);
    NoOtherPreflight(w, target, names, skipCheck);
  }

  /** No later phase answers with the refusal. */
  lemma NoOtherPreflight(w: World, target: string, names: seq<string>, skipCheck: bool)
    requires FullRun(w, target, names, skipCheck).1 == Err(Preflight)
    ensures Ensure(w, target, names, []).1.Ok? && !Ensure(w, target, names, []).1.value.0
  {
    var (w1, r1) := Ensure(w, target, names, []);
    EnsureErrors(w, target, names, []);
    DiscoverErrors(w1, target, names, []);
    var (w2, r2) := Select(w, target, names, skipCheck);
    if r2.Ok? {
      MigrateAllErrors(w2, r2.value);
      PatchAllErrors(MigrateAll(w2, r2.value).0, r2.value);
    }
  }

  lemma {:induction false} EnsureErrors(w: World, target: string, names: seq<string>, crds: seq<Snapshot>)
    ensures Ensure(w, target, names, crds).1 != Err(Preflight)
    decreases |names|
  {
    if names != [] {
      var (w1, r1) := Get(w, names[0]);
      if r1.Ok? {
        EnsureErrors(w1, target, names[1..], crds + [r1.value]);
      }
    }
  }

  lemma {:induction false} DiscoverErrors(w: World, target: string, names: seq<string>, crds: seq<Snapshot>)
    ensures Discover(w, target, names, crds).1 != Err(Preflight)
    decreases |names|
  {
    if names != [] {
      var (w1, r1) := Get(w, names[0]);
      if r1.Ok? {
        DiscoverErrors(w1, target, names[1..], if NeedsMigration(r1.value.crd, target) then crds + [r1.value] else crds);
      }
    }
  }

  lemma {:induction false} TryUpdateErrors(w: World, item: Item, steps: nat)
    requires steps > 0
    ensures TryUpdate(w, item, steps).1 != Err(Preflight)
    decreases steps
  {
    if steps > 1 {
      TryUpdateErrors(PutItem(w, item).0, item, steps - 1);
    }
  }

  lemma {:induction false} MigrateItemsErrors(w: World, items: seq<Item>)
    ensures MigrateItems(w, items).1 != Err(Preflight)
    decreases |items|
  {
    if items != [] {
      TryUpdateErrors(w, items[0], MAX_ATTEMPTS);
      MigrateItemsErrors(TryUpdate(w, items[0], MAX_ATTEMPTS).0, items[1..]);
    }
  }

  lemma {:induction false} MigrateAllErrors(w: World, crds: seq<Snapshot>)
    ensures MigrateAll(w, crds).1 != Err(Preflight)
    decreases |crds|
  {
    if crds != [] {
      var (l, r) := List(w, crds[0].name);
      if r.Ok? {
        MigrateItemsErrors(l, r.value);
      }
      MigrateAllErrors(MigrateResources(w, crds[0].name).0, crds[1..]);
    }
  }

  lemma {:induction false} PatchAllErrors(w: World, crds: seq<Snapshot>)
    ensures PatchAll(w, crds).1 != Err(Preflight)
    decreases |crds|
  {
    if crds != [] {
      PatchAllErrors(PatchOne(w, crds[0]).0, crds[1..]);
    }
  }
}
