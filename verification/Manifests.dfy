/**
 * Release manifests: the documents Helm stores for a release, and the pass
 * that marks every CustomResourceDefinition in them to be kept.
 */
module Manifests {
  import opened Wrappers

  const CRD_GROUP := "apiextensions.k8s.io"
  const CRD_KIND := "CustomResourceDefinition"
  const POLICY := "helm.sh/resource-policy"
  const KEEP := "keep"

  /**
   * One document. `Malformed` does not parse; a document that is not `encodable` parses but cannot
   * be written back.
   */
  datatype Doc =
    | Malformed(text: string)
    | Doc(group: string, version: string, kind: string, name: string,
          annotations: Option<map<string, string>>, body: string, encodable: bool)

  predicate IsCrd(d: Doc) {
    d.Doc? && d.kind == CRD_KIND && d.group == CRD_GROUP && (d.version == "v1" || d.version == "v1beta1")
  }

  predicate IsKept(d: Doc) {
    d.Doc? && d.annotations.Some? && POLICY in d.annotations.value && d.annotations.value[POLICY] == KEEP
  }

  predicate LacksKeep(d: Doc) {
    IsCrd(d) && !IsKept(d)
  }

  function Annotations(d: Doc): map<string, string> {
    if d.Doc? && d.annotations.Some? then d.annotations.value else map[]
  }

  function Mark(d: Doc): Doc {
    if LacksKeep(d) then d.(annotations := Some(Annotations(d)[POLICY := KEEP])) else d
  }

  predicate Unreadable(d: Doc) {
    d.Malformed? || (LacksKeep(d) && !d.encodable)
  }

  function MarkAll(docs: seq<Doc>): (r: seq<Doc>) {
    seq(|docs|, i requires 0 <= i < |docs| => Mark(docs[i]))
  }

  /* ---------- Keys ---------- */

  /** The keys under which a manifest of n documents is split, in the order of the documents. */
  function Keys(n: nat): seq<nat> {
    seq(n, i => i)
  }

  /** Some order in which a map with the keys 0..n-1 may be iterated. */
  ghost predicate IterationOrder(order: seq<nat>, n: nat) {
    && |order| == n
    && (forall i :: 0 <= i < n ==> order[i] < n)
    && (forall i, j :: 0 <= i < j < n ==> order[i] != order[j])
    && (forall k :: 0 <= k < n ==> k in order)
  }

  function Insert(x: nat, s: seq<nat>): (r: seq<nat>)
    ensures |r| == |s| + 1
  {
    if s == [] || x <= s[0] then [x] + s else [s[0]] + Insert(x, s[1..])
  }

  /** Numeric order. */
  function Sort(s: seq<nat>): (r: seq<nat>)
    ensures |r| == |s|
  {
    if s == [] then [] else Insert(s[0], Sort(s[1..]))
  }

  ghost predicate Ascending(s: seq<nat>) {
    forall i, j :: 0 <= i < j < |s| ==> s[i] < s[j]
  }

  lemma {:induction false} InsertSorts(x: nat, s: seq<nat>)
    requires Ascending(s) && x !in s
    ensures Ascending(Insert(x, s)) && forall y :: y in Insert(x, s) <==> y == x || y in s
  {
    if s != [] && x > s[0] {
      InsertSorts(x, s[1..]);
      assert s == [s[0]] + s[1..];
      assert forall k :: 0 <= k < |Insert(x, s[1..])| ==> Insert(x, s[1..])[k] in Insert(x, s[1..]);
    }
  }

  lemma {:induction false} SortSorts(s: seq<nat>)
    requires forall i, j :: 0 <= i < j < |s| ==> s[i] != s[j]
    ensures Ascending(Sort(s)) && forall y :: y in Sort(s) <==> y in s
  {
    if s != [] {
      SortSorts(s[1..]);
      assert s[0] !in s[1..];
      InsertSorts(s[0], Sort(s[1..]));
      assert s == [s[0]] + s[1..];
    }
  }

  /** Sorting the keys recovers the order of the documents, whatever order they were collected in. */
  lemma SortedKeys(order: seq<nat>, n: nat)
    requires IterationOrder(order, n)
    ensures Sort(order) == Keys(n)
  {
    SortSorts(order);
    var s := Sort(order);
    forall i | 0 <= i < n ensures s[i] == i {
      LowerBound(s, i);
      UpperBound(s, n, i);
    }
  }

  lemma {:induction false} LowerBound(s: seq<nat>, i: nat)
    requires i < |s| && Ascending(s)
    ensures s[i] >= i
  {
    if i > 0 {
      LowerBound(s, i - 1);
    }
  }

  lemma {:induction false} UpperBound(s: seq<nat>, n: nat, i: nat)
    requires i < |s| == n && Ascending(s) && (forall y :: y in s ==> y < n)
    ensures s[i] <= i
    decreases n - i
  {
    assert s[i] in s;
    if i + 1 < n {
      UpperBound(s, n, i + 1);
    }
  }

  /* ---------- The pass ---------- */

  datatype Status = Deployed | OtherStatus(name: string)

  datatype Release = Release(status: Status, docs: seq<Doc>)

  /** Why the pass stopped before storing anything. */
  datatype PassError = Unreachable | InvalidName | NoRelease | NotDeployed | BadManifest

  /** The release store that the pass reads and updates. */
  class Releases {
    var last: Option<Release>

    constructor (last: Option<Release>)
      ensures this.last == last
    {
      this.last := last;
    }
  }

  /** The release after the pass: with every document marked, if one lacked the mark and the store took it. */
  function PassOutcome(last: Option<Release>, reachable: bool, validName: bool, stores: bool)
    : (Option<Release>, Result<bool, PassError>)
  {
    if !reachable then (last, Err(Unreachable))
    else if !validName then (last, Err(InvalidName))
    else if last.None? then (last, Err(NoRelease))
    else if last.value.status != Deployed then (last, Err(NotDeployed))
    else if exists d :: d in last.value.docs && Unreadable(d) then (last, Err(BadManifest))
    else
      var found := exists d :: d in last.value.docs && LacksKeep(d);
      (if found && stores then Some(last.value.(docs := MarkAll(last.value.docs))) else last, Ok(found))
  }

  /** What the split manifest holds once the documents under `seen` have been visited. */
  ghost predicate Visited(manifests: map<nat, Doc>, docs: seq<Doc>, seen: seq<nat>) {
    && (forall k: nat :: k in manifests <==> k < |docs|)
    && (forall k: nat :: k < |docs| ==> manifests[k] == if k in seen then Mark(docs[k]) else docs[k])
  }

  ghost predicate Readable(docs: seq<Doc>, seen: seq<nat>) {
    forall k :: k in seen && k < |docs| ==> !Unreadable(docs[k])
  }

  ghost predicate AnyLacksKeep(docs: seq<Doc>, seen: seq<nat>) {
    exists k :: k in seen && k < |docs| && LacksKeep(docs[k])
  }

  lemma VisitOne(manifests: map<nat, Doc>, docs: seq<Doc>, order: seq<nat>, i: nat)
    requires IterationOrder(order, |docs|) && i < |order| && Visited(manifests, docs, order[..i])
    ensures var key, seen := order[i], order[..i + 1];
            && manifests[key] == docs[key] && docs[key] in docs
            && Visited(manifests[key := Mark(docs[key])], docs, seen)
            && (Mark(docs[key]) == docs[key] ==> Visited(manifests, docs, seen))
  {
    var key, seen := order[i], order[..i + 1];
    assert key !in order[..i];
    assert seen == order[..i] + [key];
  }

  lemma SeeOne(docs: seq<Doc>, seen: seq<nat>, key: nat)
    requires key < |docs|
    ensures Readable(docs, seen) && !Unreadable(docs[key]) ==> Readable(docs, seen + [key])
    ensures AnyLacksKeep(docs, seen + [key]) <==> AnyLacksKeep(docs, seen) || LacksKeep(docs[key])
  {
    assert key in seen + [key];
    if AnyLacksKeep(docs, seen) {
      var k :| k in seen && k < |docs| && LacksKeep(docs[k]);
      assert k in seen + [key];
    }
  }

  /** Every document has been visited under its key. */
  lemma VisitedAll(manifests: map<nat, Doc>, docs: seq<Doc>, order: seq<nat>)
    requires IterationOrder(order, |docs|) && Visited(manifests, docs, order[..|order|])
    ensures Visited(manifests, docs, Keys(|docs|))
    ensures Readable(docs, order[..|order|]) ==> forall d :: d in docs ==> !Unreadable(d)
    ensures AnyLacksKeep(docs, order[..|order|]) <==> exists d :: d in docs && LacksKeep(d)
  {
    assert order[..|order|] == order;
    forall k: nat | k < |docs| ensures k in Keys(|docs|) {
      assert Keys(|docs|)[k] == k;
    }
    if AnyLacksKeep(docs, order) {
      var k :| k in order && k < |docs| && LacksKeep(docs[k]);
      assert docs[k] in docs;
    }
    if d :| d in docs && LacksKeep(d) {
      var k :| 0 <= k < |docs| && docs[k] == d;
      assert k in order;
    }
  }

  /** Visits the split manifest in the iteration order of the map and marks definitions in place. */
  method MarkManifests(docs: seq<Doc>, order: seq<nat>) returns (r: Result<map<nat, Doc>, PassError>, found: bool)
    requires IterationOrder(order, |docs|)
    ensures r.Err? <==> exists d :: d in docs && Unreadable(d)
    ensures r.Err? ==> r.error == BadManifest
    ensures r.Ok? ==> Visited(r.value, docs, Keys(|docs|))
    ensures r.Ok? ==> (found <==> exists d :: d in docs && LacksKeep(d))
  {
    var manifests: map<nat, Doc> := map k: nat | k < |docs| :: docs[k];
    found := false;
    var i := 0;
    while i < |order|
      invariant i <= |order|
      invariant Visited(manifests, docs, order[..i])
      invariant Readable(docs, order[..i])
      invariant found <==> AnyLacksKeep(docs, order[..i])
    {
      var key := order[i];
      var manifest := manifests[key];
      VisitOne(manifests, docs, order, i);
      SeeOne(docs, order[..i], key);
      assert order[..i + 1] == order[..i] + [key];
      i := i + 1;
      if manifest.Malformed? {
        return Err(BadManifest), found;
      }
      if !IsCrd(manifest) {
        continue;
      }
      if IsKept(manifest) {
        continue;
      }
      found := true;
      var annotations := if manifest.annotations.Some? then manifest.annotations.value else map[];
      annotations := annotations[POLICY := KEEP];
      var updated := manifest.(annotations := Some(annotations));
      if !updated.encodable {
        return Err(BadManifest), found;
      }
      manifests := manifests[key := updated];
    }
    VisitedAll(manifests, docs, order);
    return Ok(manifests), found;
  }

  /** Writes the documents out in the numeric order of their keys. */
  method JoinManifests(manifests: map<nat, Doc>, docs: seq<Doc>, collected: seq<nat>) returns (full: seq<Doc>)
    requires Visited(manifests, docs, Keys(|docs|)) && IterationOrder(collected, |docs|)
    ensures full == MarkAll(docs)
  {
    var names := Sort(collected);
    SortedKeys(collected, |docs|);
    full := [];
    var i := 0;
    while i < |names|
      invariant i <= |names| && full == MarkAll(docs)[..i]
    {
      assert i in Keys(|docs|) by {
        assert Keys(|docs|)[i] == i;
      }
      full := full + [manifests[names[i]]];
      i := i + 1;
    }
  }

  /**
   * The pass over a release.  `order` and `collected` are the orders in which the split manifest is
   * iterated; `stores` tells whether the store accepts the update, whose refusal is only logged.
   */
  method AddCrdAnnotations(releases: Releases, reachable: bool, validName: bool, order: seq<nat>, collected: seq<nat>,
                           stores: bool)
    returns (r: Result<bool, PassError>)
    requires releases.last.Some? ==> IterationOrder(order, |releases.last.value.docs|)
    requires releases.last.Some? ==> IterationOrder(collected, |releases.last.value.docs|)
    modifies releases
    ensures (releases.last, r) == PassOutcome(old(releases.last), reachable, validName, stores)
  {
    if !reachable {
      return Err(Unreachable);
    }
    if !validName {
      return Err(InvalidName);
    }
    if releases.last.None? {
      return Err(NoRelease);
    }
    var release := releases.last.value;
    if release.status != Deployed {
      return Err(NotDeployed);
    }
    var marked, found := MarkManifests(release.docs, order);
    if marked.Err? {
      return Err(marked.error);
    }
    if found {
      var full := JoinManifests(marked.value, release.docs, collected);
      if stores {
        releases.last := Some(release.(docs := full));
      }
    }
    return Ok(found);
  }

  /* ---------- What the pass means ---------- */

  /** What the program takes for a definition: kind, group and one of two versions. */
  ghost predicate Definition(d: Doc) {
    && d.Doc? && d.kind == "CustomResourceDefinition" && d.group == "apiextensions.k8s.io"
    && d.version in {"v1", "v1beta1"}
  }

  /** Documents that are not definitions stay as they are; definitions gain the mark and keep everything else. */
  lemma MarkedDocument(docs: seq<Doc>, i: nat)
    requires i < |docs|
    ensures var d, m := docs[i], MarkAll(docs)[i];
            && |MarkAll(docs)| == |docs|
            && (Definition(d) ==> IsKept(m) && IsCrd(m) && (m == d || m.(annotations := d.annotations) == d)
                                  && Annotations(m) == Annotations(d)["helm.sh/resource-policy" := "keep"])
            && (!Definition(d) ==> m == d)
            && (IsCrd(d) <==> Definition(d))
  {
    var d := docs[i];
    if IsCrd(d) && IsKept(d) {
      assert Annotations(d)[POLICY := KEEP] == Annotations(d);
    }
  }

  /** The pass goes through exactly for a deployed release whose documents parse and whose changed ones can be written back. */
  lemma PassGoesThroughIff(last: Option<Release>, reachable: bool, validName: bool, stores: bool)
    ensures var (after, r) := PassOutcome(last, reachable, validName, stores);
            && (r.Ok? <==> && reachable && validName && last.Some? && last.value.status == Deployed
                           && forall d :: d in last.value.docs ==>
                                d.Doc? && (Definition(d) && !Annotated(d) ==> d.encodable))
            && (after != last ==> r.Ok? && stores && after == Some(Release(Deployed, MarkAll(last.value.docs))))
            && (r.Ok? ==> (r.value <==> exists d :: d in last.value.docs && Definition(d) && !Annotated(d)))
            && (r == Ok(true) && stores ==> after != last)
            && (r == Err(NotDeployed) <==> reachable && validName && last.Some? && last.value.status != Deployed)
  {
    if last.Some? {
      var docs := last.value.docs;
      RewrittenIff(docs);
      forall d | d in docs
        ensures Unreadable(d) <==> !(d.Doc? && (Definition(d) && !Annotated(d) ==> d.encodable))
        ensures LacksKeep(d) <==> Definition(d) && !Annotated(d)
      {
      }
    }
  }

  /** The annotation is there with the value that Helm looks for. */
  ghost predicate Annotated(d: Doc) {
    && d.Doc? && d.annotations.Some? && "helm.sh/resource-policy" in d.annotations.value
    && d.annotations.value["helm.sh/resource-policy"] == "keep"
  }

  /** The release is rewritten exactly when some definition lacked the mark. */
  lemma RewrittenIff(docs: seq<Doc>)
    ensures MarkAll(docs) != docs <==> exists d :: d in docs && LacksKeep(d)
  {
    if d :| d in docs && LacksKeep(d) {
      var i :| 0 <= i < |docs| && docs[i] == d;
      assert MarkAll(docs)[i] != docs[i];
    } else {
      forall i | 0 <= i < |docs| ensures MarkAll(docs)[i] == docs[i] {
        assert docs[i] in docs;
      }
    }
  }

  /** A second pass finds nothing to do. */
  lemma SecondPassIsIdle(last: Option<Release>, reachable: bool, validName: bool)
    requires PassOutcome(last, reachable, validName, true).1.Ok?
    ensures var (once, _) := PassOutcome(last, reachable, validName, true);
            PassOutcome(once, reachable, validName, true) == (once, Ok(false))
  {
    var docs := last.value.docs;
    var once := PassOutcome(last, reachable, validName, true).0;
    forall d | d in once.value.docs ensures !LacksKeep(d) && !Unreadable(d) {
      var i :| 0 <= i < |docs| && once.value.docs[i] == d;
      assert docs[i] in docs;
    }
  }
}
