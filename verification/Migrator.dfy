/**
 * The storage-version migrator: what a run does to the world, as functions,
 * and the loops of the program proved to do exactly that.
 */
module Migration {
  import opened Wrappers
  import opened ApiServer

  const MAX_ATTEMPTS := 3

  type Failing = Result<(), Error>

  /** NotFound and Conflict mean the object needs no further write. */
  function HandleUpdateErr(r: Failing): Failing {
    if r == Err(NotFound) || r == Err(Conflict) then Ok(()) else r
  }

  function StoredVersionsAdded(older: Crd, newer: Crd): set<string> {
    (set v | v in newer.stored) - (set v | v in older.stored)
  }

  /** The storage version is not the one of the snapshot, or a version besides it has been added to the stored ones. */
  predicate UnexpectedlyChanged(snap: Crd, latest: Crd) {
    var added := StoredVersionsAdded(snap, latest);
    StorageOf(latest) != StorageOf(snap) || (|added| != 0 && added != {StorageOf(snap)})
  }

  predicate NeedsMigration(crd: Crd, target: string) {
    |crd.stored| > 1 || (|crd.stored| == 1 && crd.stored[0] != target)
  }

  /* ---------- What each phase does ---------- */

  function Ensure(w: World, target: string, names: seq<string>, crds: seq<Snapshot>)
    : (World, Result<(bool, seq<Snapshot>), Error>)
    decreases |names|
  {
    if names == [] then (w, Ok((true, crds)))
    else
      var (w', r) := Get(w, names[0]);
      match r
      case Err(e) => (w', Err(e))
      case Ok(snap) =>
        if StorageOf(snap.crd) != target then (w', Ok((false, [])))
        else Ensure(w', target, names[1..], crds + [snap])
  }

  function Discover(w: World, target: string, names: seq<string>, crds: seq<Snapshot>)
    : (World, Result<seq<Snapshot>, Error>)
    decreases |names|
  {
    if names == [] then (w, Ok(crds))
    else
      var (w', r) := Get(w, names[0]);
      match r
      case Err(e) => (w', Err(e))
      case Ok(snap) =>
        Discover(w', target, names[1..], if NeedsMigration(snap.crd, target) then crds + [snap] else crds)
  }

  /** The preflight checks, then the choice of the definitions to migrate. */
  function Select(w: World, target: string, names: seq<string>, skipCheck: bool)
    : (World, Result<seq<Snapshot>, Error>)
  {
    var (w', r) := Ensure(w, target, names, []);
    match r
    case Err(e) => (w', Err(e))
    case Ok((all, crds)) =>
      if !all then (w', Err(Preflight))
      else if skipCheck then (w', Ok(crds))
      else Discover(w', target, names, [])
  }

  function TryUpdate(w: World, item: Item, steps: nat): (World, Failing)
    requires steps > 0
    decreases steps
  {
    var (w', r) := PutItem(w, item);
    if HandleUpdateErr(r).Ok? || steps == 1 then (w', r) else TryUpdate(w', item, steps - 1)
  }

  function MigrateItems(w: World, items: seq<Item>): (World, Failing)
    decreases |items|
  {
    if items == [] then (w, Ok(()))
    else
      var (w', r) := TryUpdate(w, items[0], MAX_ATTEMPTS);
      if HandleUpdateErr(r).Err? then (w', r) else MigrateItems(w', items[1..])
  }

  function MigrateResources(w: World, crd: string): (World, Failing) {
    var (w', r) := List(w, crd);
    match r
    case Err(e) => (w', Err(e))
    case Ok(items) => MigrateItems(w', items)
  }

  function MigrateAll(w: World, crds: seq<Snapshot>): (World, Failing)
    decreases |crds|
  {
    if crds == [] then (w, Ok(()))
    else
      var (w', r) := MigrateResources(w, crds[0].name);
      if r.Err? then (w', r) else MigrateAll(w', crds[1..])
  }

  function PatchOne(w: World, snap: Snapshot): (World, Failing) {
    var (w', r) := Get(w, snap.name);
    match r
    case Err(e) => (w', Err(e))
    case Ok(latest) =>
      if UnexpectedlyChanged(snap.crd, latest.crd) then (w', Err(UnexpectedChange))
      else PutStatus(w', snap.name, latest.crd.(stored := [StorageOf(snap.crd)]))
  }

  function PatchAll(w: World, crds: seq<Snapshot>): (World, Failing)
    decreases |crds|
  {
    if crds == [] then (w, Ok(()))
    else
      var (w', r) := PatchOne(w, crds[0]);
      if r.Err? then (w', r) else PatchAll(w', crds[1..])
  }

  function Migrate(w: World, crds: seq<Snapshot>): (World, Failing) {
    var (w', r) := MigrateAll(w, crds);
    if r.Err? then (w', r) else PatchAll(w', crds)
  }

  /** A whole run; true means that a migration was performed. */
  function FullRun(w: World, target: string, names: seq<string>, skipCheck: bool): (World, Result<bool, Error>) {
    var (w', r) := Select(w, target, names, skipCheck);
    match r
    case Err(e) => (w', Err(e))
    case Ok(crds) =>
      if !skipCheck && crds == [] then (w', Ok(false))
      else
        var (w'', m) := Migrate(w', crds);
        if m.Err? then (w'', Err(m.error)) else (w'', Ok(true))
  }

  /* ---------- The program ---------- */

  method StorageVersionForCrd(crd: Crd) returns (v: string)
    ensures v == StorageOf(crd)
    ensures || (v == "" && forall i :: 0 <= i < |crd.versions| ==> !crd.versions[i].storage)
            || exists i :: 0 <= i < |crd.versions| && crd.versions[i].storage && v == crd.versions[i].name
                           && forall j :: 0 <= j < i ==> !crd.versions[j].storage
  {
    v := "";
    var i := 0;
    while i < |crd.versions|
      invariant i <= |crd.versions|
      invariant StorageOf(crd) == StorageVersion(crd.versions[i..])
      invariant forall j :: 0 <= j < i ==> !crd.versions[j].storage
    {
      if crd.versions[i].storage {
        return crd.versions[i].name;
      }
      i := i + 1;
    }
  }

  class Migrator {
    const client: Client
    const skipStoredVersionCheck: bool

    constructor (client: Client, skipStoredVersionCheck: bool)
      ensures this.client == client && this.skipStoredVersionCheck == skipStoredVersionCheck
    {
      this.client := client;
      this.skipStoredVersionCheck := skipStoredVersionCheck;
    }

    method Run(target: string, names: seq<string>) returns (r: Result<bool, Error>)
      modifies client
      ensures (client.w, r) == FullRun(old(client.w), target, names, skipStoredVersionCheck)
    {
      var checked := EnsureCrdStorageVersionEquals(target, names);
      if checked.Err? {
        return Err(checked.error);
      }
      if !checked.value.0 {
        return Err(Preflight);
      }
      var crds := checked.value.1;
      if !skipStoredVersionCheck {
        var discovered := DiscoverCrdsRequiringMigration(target, names);
        if discovered.Err? {
          return Err(discovered.error);
        }
        crds := discovered.value;
        if |crds| == 0 {
          return Ok(false);
        }
      }
      var m := MigrateEach(crds);
      if m.Err? {
        return Err(m.error);
      }
      var p := PatchCrdStoredVersions(crds);
      if p.Err? {
        return Err(p.error);
      }
      return Ok(true);
    }

    /** The loop over the selected definitions. */
    method MigrateEach(crds: seq<Snapshot>) returns (r: Failing)
      modifies client
      ensures (client.w, r) == MigrateAll(old(client.w), crds)
    {
      var i := 0;
      while i < |crds|
        invariant i <= |crds|
        invariant MigrateAll(old(client.w), crds) == MigrateAll(client.w, crds[i..])
      {
        r := MigrateResourcesForCrd(crds[i]);
        if r.Err? {
          return;
        }
        i := i + 1;
      }
      return Ok(());
    }

    method EnsureCrdStorageVersionEquals(target: string, names: seq<string>)
      returns (r: Result<(bool, seq<Snapshot>), Error>)
      modifies client
      ensures (client.w, r) == Ensure(old(client.w), target, names, [])
    {
      var crds := [];
      var i := 0;
      while i < |names|
        invariant i <= |names|
        invariant Ensure(old(client.w), target, names, []) == Ensure(client.w, target, names[i..], crds)
      {
        var g := client.GetCrd(names[i]);
        if g.Err? {
          return Err(g.error);
        }
        var v := StorageVersionForCrd(g.value.crd);
        if v != target {
          return Ok((false, []));
        }
        crds := crds + [g.value];
        i := i + 1;
      }
      return Ok((true, crds));
    }

    method DiscoverCrdsRequiringMigration(target: string, names: seq<string>)
      returns (r: Result<seq<Snapshot>, Error>)
      modifies client
      ensures (client.w, r) == Discover(old(client.w), target, names, [])
    {
      var crds := [];
      var i := 0;
      while i < |names|
        invariant i <= |names|
        invariant Discover(old(client.w), target, names, []) == Discover(client.w, target, names[i..], crds)
      {
        var g := client.GetCrd(names[i]);
        i := i + 1;
        if g.Err? {
          return Err(g.error);
        }
        var stored := g.value.crd.stored;
        if |stored| == 0 {
          continue;
        }
        if |stored| > 1 || stored[0] != target {
          crds := crds + [g.value];
        }
      }
      return Ok(crds);
    }

    method MigrateResourcesForCrd(snap: Snapshot) returns (r: Failing)
      modifies client
      ensures (client.w, r) == MigrateResources(old(client.w), snap.name)
    {
      var list := client.ListObjects(snap.name);
      if list.Err? {
        return Err(list.error);
      }
      ghost var listed := client.w;
      var items := list.value;
      var i := 0;
      while i < |items|
        invariant i <= |items|
        invariant MigrateItems(listed, items) == MigrateItems(client.w, items[i..])
      {
        var u := RetryOnError(items[i]);
        if HandleUpdateErr(u).Err? {
          return u;
        }
        i := i + 1;
      }
      return Ok(());
    }

    method RetryOnError(item: Item) returns (r: Failing)
      modifies client
      ensures (client.w, r) == TryUpdate(old(client.w), item, MAX_ATTEMPTS)
    {
      var steps := MAX_ATTEMPTS;
      while true
        invariant steps > 0
        invariant TryUpdate(old(client.w), item, MAX_ATTEMPTS) == TryUpdate(client.w, item, steps)
        decreases steps
      {
        r := client.UpdateObject(item);
        if HandleUpdateErr(r).Ok? || steps == 1 {
          return;
        }
        steps := steps - 1;
      }
    }

    method PatchCrdStoredVersions(crds: seq<Snapshot>) returns (r: Failing)
      modifies client
      ensures (client.w, r) == PatchAll(old(client.w), crds)
    {
      var i := 0;
      while i < |crds|
        invariant i <= |crds|
        invariant PatchAll(old(client.w), crds) == PatchAll(client.w, crds[i..])
      {
        var latest := client.GetCrd(crds[i].name);
        if latest.Err? {
          return Err(latest.error);
        }
        var expected := StorageVersionForCrd(crds[i].crd);
        var found := StorageVersionForCrd(latest.value.crd);
        if found != expected {
          return Err(UnexpectedChange);
        }
        var newlyAdded := StoredVersionsAdded(crds[i].crd, latest.value.crd);
        if |newlyAdded| != 0 && newlyAdded != {expected} {
          return Err(UnexpectedChange);
        }
        var put := client.UpdateCrdStatus(crds[i].name, latest.value.crd.(stored := [expected]));
        if put.Err? {
          return put;
        }
        i := i + 1;
      }
      return Ok(());
    }
  }
}
