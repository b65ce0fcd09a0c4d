/**
 * Histories: what a single transition of the store may do, and what survives
 * any number of such transitions.  Nothing here depends on the migrator.
 */
module MigrationHistory {
  import opened ApiServer

  ghost predicate WellFormed(s: Store) {
    && (forall c :: c in s.crds ==> s.crds[c].rv <= s.rev)
    && (forall i :: 0 <= i < |s.objs| ==> s.objs[i].crd in s.crds)
  }

  /** The invariant of the cluster: no object is persisted in a version that is not recorded as stored. */
  ghost predicate Safe(s: Store) {
    && (forall c :: c in s.crds ==> StorageOf(s.crds[c]) in s.crds[c].stored)
    && (forall i :: 0 <= i < |s.objs| && s.objs[i].live ==>
          s.objs[i].crd in s.crds && s.objs[i].enc in s.crds[s.objs[i].crd].stored)
  }

  /** Objects are only ever written in the storage version, and definitions neither come nor go. */
  ghost predicate Grew(s: Store, s': Store) {
    && s.crds.Keys == s'.crds.Keys
    && (forall i :: 0 <= i < |s'.objs| && s'.objs[i].live ==>
          || (i < |s.objs| && s'.objs[i] == s.objs[i])
          || (s'.objs[i].crd in s.crds && s'.objs[i].enc == StorageOf(s.crds[s'.objs[i].crd])))
  }

  ghost predicate KeptCrd(a: Crd, b: Crd) {
    && (a == b || a.rv < b.rv)
    && (forall v :: v in a.stored ==> v in b.stored)
    && (StorageOf(a) == StorageOf(b) || StorageOf(b) in b.stored)
  }

  /** A transition that loses no stored version and records every new storage version. */
  ghost predicate Gentle(s: Store, s': Store) {
    && WellFormed(s')
    && Grew(s, s')
    && (forall c :: c in s.crds && c in s'.crds ==> KeptCrd(s.crds[c], s'.crds[c]))
  }

  ghost predicate GentleSteps(h: seq<Store>, from: nat) {
    forall i :: 0 < i && from <= i < |h| ==> Gentle(h[i - 1], h[i])
  }

  ghost predicate GentleRun(w: World, w': World) {
    History(w) <= History(w') && GentleSteps(History(w'), |History(w)|) && WellFormed(w'.store)
  }

  ghost predicate StorageIs(s: Store, c: string, v: string) {
    c in s.crds && StorageOf(s.crds[c]) == v
  }

  /** From moment `from` up to but not including `to`, the storage version of `c` was `v`. */
  ghost predicate Constant(h: seq<Store>, from: nat, to: nat, c: string, v: string) {
    to <= |h| && forall k :: from <= k < to ==> StorageIs(h[k], c, v)
  }

  /** Every live object of `c` is encoded in `v` or is one of `items`, unchanged. */
  ghost predicate Covered(s: Store, c: string, v: string, items: seq<Item>) {
    forall i :: 0 <= i < |s.objs| && s.objs[i].live && s.objs[i].crd == c ==>
      s.objs[i].enc == v || Item(i, s.objs[i].rv) in items
  }

  ghost predicate Clean(s: Store, c: string, v: string) {
    Covered(s, c, v, [])
  }

  /* ---------- Transitions of the server ---------- */

  lemma ApplyIsGentle(a: Action, s: Store)
    requires WellFormed(s)
    ensures Gentle(s, Apply(a, s))
  {
  }

  lemma PutObjIsGentle(s: Store, id: nat)
    requires WellFormed(s) && id < |s.objs| && s.objs[id].crd in s.crds
    ensures Gentle(s, PutObj(s, id))
  {
  }

  lemma GentleTrans(w: World, w': World, w'': World)
    requires GentleRun(w, w') && GentleRun(w', w'')
    ensures GentleRun(w, w'')
  {
    var h, h', h'' := History(w), History(w'), History(w'');
    forall i | 0 < i && |h| <= i < |h''| ensures Gentle(h''[i - 1], h''[i]) {
      if i < |h'| {
        assert h''[i - 1] == h'[i - 1] && h''[i] == h'[i];
      }
    }
  }

  lemma AdvanceIsGentle(w: World, s: Store)
    requires Gentle(w.store, s)
    ensures GentleRun(w, Advance(w, s))
  {
    var h := History(Advance(w, s));
    assert h == History(w) + [s];
  }

  lemma OthersIsGentle(w: World, acts: seq<Action>)
    requires WellFormed(w.store)
    ensures GentleRun(w, Others(w, acts))
    decreases |acts|
  {
    if acts != [] {
      var s := Apply(acts[0], w.store);
      ApplyIsGentle(acts[0], w.store);
      AdvanceIsGentle(w, s);
      OthersIsGentle(Advance(w, s), acts[1..]);
      GentleTrans(w, Advance(w, s), Others(w, acts));
    }
  }

  lemma ArriveIsGentle(w: World, call: Call)
    requires WellFormed(w.store)
    ensures GentleRun(w, Arrive(w, call))
  {
    OthersIsGentle(w, NextTurn(w).others);
    assert History(Arrive(w, call)) == History(Others(w, NextTurn(w).others));
  }

  lemma PutItemIsGentle(w: World, item: Item)
    requires WellFormed(w.store)
    ensures GentleRun(w, PutItem(w, item).0)
  {
    var a := Arrive(w, Update(item.id, item.rv));
    ArriveIsGentle(w, Update(item.id, item.rv));
    if PutItem(w, item).0 != a {
      PutObjIsGentle(a.store, item.id);
      AdvanceIsGentle(a, PutObj(a.store, item.id));
      GentleTrans(w, a, PutItem(w, item).0);
    }
  }

  /* ---------- What survives ---------- */

  lemma {:induction false} CoveredSurvives(h: seq<Store>, m: nat, n: nat, c: string, v: string, items: seq<Item>)
    requires m <= n < |h| && Covered(h[m], c, v, items) && Constant(h, m, n, c, v)
    requires forall i :: m < i <= n ==> Grew(h[i - 1], h[i])
    ensures Covered(h[n], c, v, items)
    decreases n
  {
    if m < n {
      CoveredSurvives(h, m, n - 1, c, v, items);
      assert Grew(h[n - 1], h[n]) && StorageIs(h[n - 1], c, v);
    }
  }

  lemma CoveredSurvivesRun(w: World, w': World, c: string, v: string, items: seq<Item>)
    requires GentleRun(w, w') && Covered(w.store, c, v, items)
    requires Constant(History(w'), |w.past|, |w'.past|, c, v)
    ensures Covered(w'.store, c, v, items)
  {
    var h := History(w');
    assert h[|w.past|] == History(w)[|w.past|] == w.store;
    forall i | |w.past| < i <= |w'.past| ensures Grew(h[i - 1], h[i]) {
      assert Gentle(h[i - 1], h[i]);
    }
    CoveredSurvives(h, |w.past|, |w'.past|, c, v, items);
  }

  /** An unchanged resourceVersion means an unchanged definition. */
  lemma {:induction false} SameRvSameCrd(h: seq<Store>, m: nat, n: nat, c: string)
    requires m <= n < |h| && GentleSteps(h, m + 1) && c in h[m].crds
    ensures c in h[n].crds && (h[n].crds[c] == h[m].crds[c] || h[m].crds[c].rv < h[n].crds[c].rv)
    decreases n
  {
    if m < n {
      SameRvSameCrd(h, m, n - 1, c);
      assert Gentle(h[n - 1], h[n]);
      assert KeptCrd(h[n - 1].crds[c], h[n].crds[c]);
    }
  }

  lemma GentleKeepsSafe(s: Store, s': Store)
    requires Safe(s) && Gentle(s, s')
    ensures Safe(s')
  {
    forall c | c in s'.crds ensures StorageOf(s'.crds[c]) in s'.crds[c].stored {
      assert c in s.crds && KeptCrd(s.crds[c], s'.crds[c]);
    }
    forall i | 0 <= i < |s'.objs| && s'.objs[i].live
      ensures s'.objs[i].crd in s'.crds && s'.objs[i].enc in s'.crds[s'.objs[i].crd].stored
    {
      var c := s'.objs[i].crd;
      assert c in s.crds;
      assert KeptCrd(s.crds[c], s'.crds[c]);
    }
  }
}
