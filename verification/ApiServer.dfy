/**
 * The Kubernetes API server as the storage-version migrator sees it: a store
 * of CustomResourceDefinitions and of the objects they define.  Every request
 * takes the next turn of a script; a turn lists what other clients do just
 * before the request is served and whether the request fails.  A statement
 * about every script is a statement about every interleaving.
 */
module ApiServer {
  import opened Wrappers

  datatype Version = Version(name: string, storage: bool)

  datatype Crd = Crd(versions: seq<Version>, stored: seq<string>, rv: nat)

  /** An object name is its position in the store; `enc` is the version it is persisted in. */
  datatype Object = Object(crd: string, live: bool, enc: string, rv: nat)

  datatype Store = Store(rev: nat, crds: map<string, Crd>, objs: seq<Object>)

  datatype Error = NotFound | Conflict | Failure | Preflight | UnexpectedChange

  /** Another client's request. */
  datatype Action =
    | CreateObject(crd: string)
    | PutObject(id: nat)
    | DeleteObject(id: nat)
    | ReplaceSpec(name: string, versions: seq<Version>)
    | AddStored(name: string, version: string)

  /** Refused: the request never reached the server.  LostReply: it took effect, but the client saw an error. */
  datatype Fault = NoFault | Refused | LostReply

  datatype Turn = Turn(others: seq<Action>, fault: Fault)

  /** The migrator's own requests, in the order it made them. */
  datatype Call = GetCrd(crd: string) | ListOf(crd: string) | Update(id: nat, rv: nat) | UpdateStatus(crd: string)

  datatype World = World(past: seq<Store>, store: Store, script: seq<Turn>, calls: seq<Call>)

  /** What a Get returned and the moment of the history at which it was served. */
  datatype Snapshot = Snapshot(name: string, crd: Crd, at: nat)

  datatype Item = Item(id: nat, rv: nat)

  function StorageVersion(versions: seq<Version>): string {
    if versions == [] then ""
    else if versions[0].storage then versions[0].name
    else StorageVersion(versions[1..])
  }

  function StorageOf(crd: Crd): string {
    StorageVersion(crd.versions)
  }

  /** The server rejects a definition without exactly one storage version. */
  predicate OneStorageVersion(versions: seq<Version>) {
    exists i :: 0 <= i < |versions| && versions[i].storage
                && forall j :: 0 <= j < |versions| && versions[j].storage ==> j == i
  }

  function PutCrd(s: Store, name: string, crd: Crd): Store {
    s.(rev := s.rev + 1, crds := s.crds[name := crd.(rv := s.rev + 1)])
  }

  /** Every object write encodes in the storage version of that moment. */
  function PutObj(s: Store, id: nat): Store
    requires id < |s.objs| && s.objs[id].crd in s.crds
  {
    var o := s.objs[id];
    s.(rev := s.rev + 1, objs := s.objs[id := Object(o.crd, true, StorageOf(s.crds[o.crd]), s.rev + 1)])
  }

  function Apply(a: Action, s: Store): Store {
    match a
    case CreateObject(c) =>
      if c in s.crds then
        s.(rev := s.rev + 1, objs := s.objs + [Object(c, true, StorageOf(s.crds[c]), s.rev + 1)])
      else s
    case PutObject(id) =>
      if id < |s.objs| && s.objs[id].crd in s.crds then PutObj(s, id) else s
    case DeleteObject(id) =>
      if id < |s.objs| then s.(rev := s.rev + 1, objs := s.objs[id := s.objs[id].(live := false)]) else s
    case ReplaceSpec(c, vs) =>
      if c in s.crds && OneStorageVersion(vs) then
        var v, stored := StorageVersion(vs), s.crds[c].stored;
        PutCrd(s, c, Crd(vs, if v in stored then stored else stored + [v], 0))
      else s
    case AddStored(c, v) =>
      if c in s.crds then PutCrd(s, c, s.crds[c].(stored := s.crds[c].stored + [v])) else s
  }

  /* ---------- Requests ---------- */

  function History(w: World): seq<Store> {
    w.past + [w.store]
  }

  function Advance(w: World, s: Store): World {
    w.(past := w.past + [w.store], store := s)
  }

  function NextTurn(w: World): Turn {
    if w.script == [] then Turn([], NoFault) else w.script[0]
  }

  function Others(w: World, acts: seq<Action>): World
    decreases |acts|
  {
    if acts == [] then w else Others(Advance(w, Apply(acts[0], w.store)), acts[1..])
  }

  /** The moment just before a request is served: the other clients of this turn have acted. */
  function Arrive(w: World, call: Call): World {
    Others(w, NextTurn(w).others).(script := if w.script == [] then [] else w.script[1..], calls := w.calls + [call])
  }

  function Get(w: World, name: string): (World, Result<Snapshot, Error>) {
    var a := Arrive(w, GetCrd(name));
    if NextTurn(w).fault != NoFault then (a, Err(Failure))
    else if name !in a.store.crds then (a, Err(NotFound))
    else (a, Ok(Snapshot(name, a.store.crds[name], |a.past|)))
  }

  function LiveItems(objs: seq<Object>, crd: string, from: nat): seq<Item>
    requires from <= |objs|
    decreases |objs| - from
  {
    if from == |objs| then []
    else (if objs[from].live && objs[from].crd == crd then [Item(from, objs[from].rv)] else [])
         + LiveItems(objs, crd, from + 1)
  }

  function List(w: World, crd: string): (World, Result<seq<Item>, Error>) {
    var a := Arrive(w, ListOf(crd));
    if NextTurn(w).fault != NoFault then (a, Err(Failure))
    else if crd !in a.store.crds then (a, Err(NotFound))
    else (a, Ok(LiveItems(a.store.objs, crd, 0)))
  }

  function PutItem(w: World, item: Item): (World, Result<(), Error>) {
    var a := Arrive(w, Update(item.id, item.rv));
    var fault := NextTurn(w).fault;
    if fault == Refused then (a, Err(Failure))
    else if item.id >= |a.store.objs| || !a.store.objs[item.id].live || a.store.objs[item.id].crd !in a.store.crds then
      (a, Err(if fault == NoFault then NotFound else Failure))
    else if a.store.objs[item.id].rv != item.rv then
      (a, Err(if fault == NoFault then Conflict else Failure))
    else
      (Advance(a, PutObj(a.store, item.id)), if fault == NoFault then Ok(()) else Err(Failure))
  }

  /** Compare-and-set of `status.storedVersions`; the spec is not writable through the status. */
  function PutStatus(w: World, name: string, crd: Crd): (World, Result<(), Error>) {
    var a := Arrive(w, UpdateStatus(name));
    var fault := NextTurn(w).fault;
    if fault == Refused then (a, Err(Failure))
    else if name !in a.store.crds then (a, Err(if fault == NoFault then NotFound else Failure))
    else if a.store.crds[name].rv != crd.rv then (a, Err(if fault == NoFault then Conflict else Failure))
    else
      (Advance(a, PutCrd(a.store, name, a.store.crds[name].(stored := crd.stored))),
       if fault == NoFault then Ok(()) else Err(Failure))
  }

  /** The client handle: the world is the shared, mutable cluster behind it. */
  class Client {
    var w: World

    constructor (w: World)
      ensures this.w == w
    {
      this.w := w;
    }

    method GetCrd(name: string) returns (r: Result<Snapshot, Error>)
      modifies this
      ensures (w, r) == Get(old(w), name)
    {
      var res := Get(w, name);
      w, r := res.0, res.1;
    }

    method ListObjects(crd: string) returns (r: Result<seq<Item>, Error>)
      modifies this
      ensures (w, r) == List(old(w), crd)
    {
      var res := List(w, crd);
      w, r := res.0, res.1;
    }

    method UpdateObject(item: Item) returns (r: Result<(), Error>)
      modifies this
      ensures (w, r) == PutItem(old(w), item)
    {
      var res := PutItem(w, item);
      w, r := res.0, res.1;
    }

    method UpdateCrdStatus(name: string, crd: Crd) returns (r: Result<(), Error>)
      modifies this
      ensures (w, r) == PutStatus(old(w), name, crd)
    {
      var res := PutStatus(w, name, crd);
      w, r := res.0, res.1;
    }
  }
}
