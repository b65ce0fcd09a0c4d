/**
 * Detecting the installed version: collect versions from a definition, its
 * webhook service and the pods behind it, then reduce them to one.
 */
module VersionChecker {
  import opened Wrappers
  import opened VersionLabels

  datatype Error = CrdsNotFound | Api(message: string) | NotDetected | MultipleDetected | Both(detection: Error, cause: Error)

  datatype Lookup<+T> = Found(value: T) | Missing | Broken(message: string)

  datatype Crd = Crd(labels: map<string, string>, service: Option<(string, string)>)

  datatype Service = Service(labels: map<string, string>, selector: map<string, string>)

  datatype Pod = Pod(running: bool, labels: map<string, string>, images: seq<string>)

  /** The answers of the API server. */
  datatype Client = Client(
    crdV1: string -> Lookup<Crd>, crdV1beta1: string -> Lookup<Crd>,
    service: (string, string) -> Lookup<Service>, pods: map<string, string> -> Lookup<seq<Pod>>)

  datatype Detection = Detection(detected: string, sources: map<string, string>)

  const CRD := "certificates.cert-manager.io"
  const OLD_CRD := "certificates.certmanager.k8s.io"
  const CRD_SOURCE := "crdLabelVersion"
  const SERVICE_SOURCE := "webhookServiceLabelVersion"
  const POD_SOURCE := "webhookPodLabelVersion"
  const IMAGE_SOURCE := "webhookPodImageVersion"

  type Sources = map<string, string>

  /** No recorded version is the empty string. */
  ghost predicate NoneEmpty(sources: Sources) {
    forall k :: k in sources ==> sources[k] != ""
  }

  function Record(sources: Sources, key: string, version: string): Sources {
    if version == "" then sources else sources[key := version]
  }

  /* ---------- The pod scan ---------- */

  function FirstImage(images: seq<string>): Option<string> {
    if images == [] then None
    else if ImageVersion(images[0]).Some? then ImageVersion(images[0])
    else FirstImage(images[1..])
  }

  predicate HasImage(p: Pod) {
    p.running && FirstImage(p.images).Some?
  }

  /** Pod n ends the scan: the first running pod with a matching container, or n is the number of pods. */
  ghost predicate ScanEnds(pods: seq<Pod>, n: nat) {
    && n <= |pods|
    && (forall i :: 0 <= i < n ==> !HasImage(pods[i]))
    && (n < |pods| ==> HasImage(pods[n]))
  }

  predicate Labelled(p: Pod) {
    p.running && LabelVersion(p.labels) != ""
  }

  /** `v` is the label version of the last labelled running pod of `pods`, or empty if there is none. */
  ghost predicate LastLabel(pods: seq<Pod>, v: string) {
    || (v == "" && forall i :: 0 <= i < |pods| ==> !Labelled(pods[i]))
    || (exists i: nat :: LastLabelAt(pods, i, v))
  }

  ghost predicate LastLabelAt(pods: seq<Pod>, i: nat, v: string) {
    i < |pods| && Labelled(pods[i]) && v == LabelVersion(pods[i].labels) && forall j :: i < j < |pods| ==> !Labelled(pods[j])
  }

  function LabelOf(pods: seq<Pod>): string {
    if pods == [] then ""
    else if Labelled(pods[|pods| - 1]) then LabelVersion(pods[|pods| - 1].labels)
    else LabelOf(pods[..|pods| - 1])
  }

  lemma {:induction false} LabelOfIsLast(pods: seq<Pod>)
    ensures LastLabel(pods, LabelOf(pods))
  {
    if pods != [] {
      var n := |pods| - 1;
      var front, v := pods[..n], LabelOf(pods);
      if Labelled(pods[n]) {
        assert LastLabelAt(pods, n, v);
      } else {
        LabelOfIsLast(front);
        assert forall i :: 0 <= i < n ==> pods[i] == front[i];
        if i: nat :| LastLabelAt(front, i, v) {
          assert LastLabelAt(pods, i, v);
        }
      }
    }
  }

  function ScanEnd(pods: seq<Pod>): (n: nat)
    ensures ScanEnds(pods, n)
  {
    if pods == [] then 0 else if HasImage(pods[0]) then 0 else 1 + ScanEnd(pods[1..])
  }

  function Scan(pods: seq<Pod>, sources: Sources): Sources {
    var n := ScanEnd(pods);
    var labelled := Record(sources, POD_SOURCE, LabelOf(Scanned(pods, n)));
    if n < |pods| then labelled[IMAGE_SOURCE := FirstImage(pods[n].images).value] else labelled
  }

  lemma ScanEndsOnce(pods: seq<Pod>, n: nat)
    requires ScanEnds(pods, n)
    ensures ScanEnd(pods) == n
  {
  }

  /** The pods that count for the label: up to and including the one that ends the scan. */
  function Scanned(pods: seq<Pod>, n: nat): seq<Pod> {
    if n < |pods| then pods[..n + 1] else pods
  }

  /**
   * The scan meets its declarative description: the image version is that of the first running pod
   * with a matching container, the label version that of the last labelled running pod scanned, and
   * nothing else is recorded.
   */
  lemma ScanRefines(pods: seq<Pod>, sources: Sources, n: nat, v: string)
    requires ScanEnds(pods, n) && LastLabel(Scanned(pods, n), v)
    ensures var after := Scan(pods, sources);
            && (n < |pods| ==> IMAGE_SOURCE in after && Some(after[IMAGE_SOURCE]) == FirstImage(pods[n].images))
            && (v != "" ==> POD_SOURCE in after && after[POD_SOURCE] == v)
            && (forall k :: k !in {IMAGE_SOURCE, POD_SOURCE} || (k == IMAGE_SOURCE && n == |pods|) || (k == POD_SOURCE && v == "") ==>
                  (k in after <==> k in sources) && (k in after ==> after[k] == sources[k]))
  {
    ScanEndsOnce(pods, n);
    LabelOfIsLast(Scanned(pods, n));
    assert LabelOf(Scanned(pods, n)) == v;
  }

  /** The running pods. */
  function Running(pods: seq<Pod>): seq<Pod> {
    if pods == [] then [] else Running(pods[..|pods| - 1]) + (if pods[|pods| - 1].running then [pods[|pods| - 1]] else [])
  }

  lemma {:induction false} RunningConcat(a: seq<Pod>, b: seq<Pod>)
    ensures Running(a + b) == Running(a) + Running(b)
    decreases |b|
  {
    if b == [] {
      assert a + b == a;
    } else {
      var n := |b| - 1;
      assert (a + b)[..|a + b| - 1] == a + b[..n] && (a + b)[|a + b| - 1] == b[n];
      RunningConcat(a, b[..n]);
    }
  }

  lemma {:induction false} RunningMembers(pods: seq<Pod>)
    ensures forall p :: p in Running(pods) <==> p in pods && p.running
  {
    if pods != [] {
      var n := |pods| - 1;
      RunningMembers(pods[..n]);
      assert pods == pods[..n] + [pods[n]];
    }
  }

  lemma {:induction false} LabelOfRunning(pods: seq<Pod>)
    ensures LabelOf(Running(pods)) == LabelOf(pods)
  {
    if pods != [] {
      var n := |pods| - 1;
      LabelOfRunning(pods[..n]);
      if pods[n].running {
        var r := Running(pods);
        assert r[|r| - 1] == pods[n] && r[..|r| - 1] == Running(pods[..n]);
      } else {
        assert Running(pods) == Running(pods[..n]);
      }
    }
  }

  /** A prefix of the pods, less those that are not running, is a prefix of the running pods. */
  lemma RunningPrefix(pods: seq<Pod>, n: nat)
    requires n <= |pods|
    ensures Running(pods[..n]) <= Running(pods)
  {
    assert pods == pods[..n] + pods[n..];
    RunningConcat(pods[..n], pods[n..]);
  }

  lemma RunningNext(pods: seq<Pod>, n: nat)
    requires n < |pods| && pods[n].running
    ensures Running(pods[..n + 1]) == Running(pods[..n]) + [pods[n]]
  {
    assert pods[..n + 1][..n] == pods[..n];
  }

  lemma RunningScanned(pods: seq<Pod>)
    ensures var n, m := ScanEnd(pods), ScanEnd(Running(pods));
            && Scanned(Running(pods), m) == Running(Scanned(pods, n))
            && (m < |Running(pods)| <==> n < |pods|)
            && (n < |pods| ==> Running(pods)[m] == pods[n])
  {
    var n, running := ScanEnd(pods), Running(pods);
    var before := Running(pods[..n]);
    RunningPrefix(pods, n);
    RunningMembers(pods[..n]);
    forall i | 0 <= i < |before| ensures !HasImage(running[i]) {
      assert running[i] == before[i] && before[i] in before;
    }
    if n < |pods| {
      RunningNext(pods, n);
      RunningPrefix(pods, n + 1);
      assert running[|before|] == Running(pods[..n + 1])[|before|] == pods[n];
      ScanEndsOnce(running, |before|);
      assert running[..|before| + 1] == Running(pods[..n + 1]);
    } else {
      assert pods[..n] == pods;
      ScanEndsOnce(running, |running|);
    }
  }

  /** Pods that are not running do not exist for the scan. */
  lemma OnlyRunningPodsCount(pods: seq<Pod>, sources: Sources)
    ensures Scan(Running(pods), sources) == Scan(pods, sources)
  {
    RunningScanned(pods);
    LabelOfRunning(Scanned(pods, ScanEnd(pods)));
  }

  function FromService(client: Client, key: (string, string), sources: Sources): (Sources, Option<Error>) {
    match client.service(key.0, key.1)
    case Missing => (sources, Some(Api("not found")))
    case Broken(m) => (sources, Some(Api(m)))
    case Found(service) =>
      var labelled := Record(sources, SERVICE_SOURCE, LabelVersion(service.labels));
      match client.pods(service.selector)
      case Missing => (labelled, Some(Api("not found")))
      case Broken(m) => (labelled, Some(Api(m)))
      case Found(pods) => (Scan(pods, labelled), None)
  }

  function FromCrd(client: Client, crd: Crd, sources: Sources): (Sources, Option<Error>) {
    var labelled := Record(sources, CRD_SOURCE, LabelVersion(crd.labels));
    if crd.service.None? then (labelled, None) else FromService(client, crd.service.value, labelled)
  }

  function FromCrdName(client: Client, name: string, sources: Sources): (Sources, Option<Error>) {
    match client.crdV1(name)
    case Found(crd) => FromCrd(client, crd, sources)
    case Broken(m) => (sources, Some(Api(m)))
    case Missing =>
      match client.crdV1beta1(name)
      case Found(crd) => FromCrd(client, crd, sources)
      case Broken(m) => (sources, Some(Api(m)))
      case Missing => (sources, Some(CrdsNotFound))
  }

  /** All sources that one call adds come from one definition name. */
  function Extract(client: Client, sources: Sources): (Sources, Option<Error>) {
    var (found, err) := FromCrdName(client, CRD, sources);
    if err == Some(CrdsNotFound) then FromCrdName(client, OLD_CRD, found) else (found, err)
  }

  /** The old name is used exactly if the new one is missing in both versions, and then the new one has added nothing. */
  lemma SingleName(client: Client, sources: Sources)
    ensures var name, older := "certificates.cert-manager.io", "certificates.certmanager.k8s.io";
            Extract(client, sources) ==
              FromCrdName(client, if client.crdV1(name).Missing? && client.crdV1beta1(name).Missing? then older else name, sources)
  {
    var name := CRD;
    if client.crdV1(name).Found? {
      FromCrdErrors(client, client.crdV1(name).value, sources);
    } else if client.crdV1(name).Missing? && client.crdV1beta1(name).Found? {
      FromCrdErrors(client, client.crdV1beta1(name).value, sources);
    }
  }

  lemma FromCrdErrors(client: Client, crd: Crd, sources: Sources)
    ensures FromCrd(client, crd, sources).1 != Some(CrdsNotFound)
  {
  }

  /** The definition that a lookup finds: v1 first, v1beta1 only if that is missing. */
  ghost predicate FoundAs(client: Client, name: string, crd: Crd) {
    || client.crdV1(name) == Found(crd)
    || (client.crdV1(name).Missing? && client.crdV1beta1(name) == Found(crd))
  }

  /** The four sources, under the names they are reported by. */
  lemma SourceNames()
    ensures CRD_SOURCE == "crdLabelVersion" && SERVICE_SOURCE == "webhookServiceLabelVersion"
    ensures POD_SOURCE == "webhookPodLabelVersion" && IMAGE_SOURCE == "webhookPodImageVersion"
    ensures CRD_SOURCE != SERVICE_SOURCE && CRD_SOURCE != POD_SOURCE && CRD_SOURCE != IMAGE_SOURCE
    ensures SERVICE_SOURCE != POD_SOURCE && SERVICE_SOURCE != IMAGE_SOURCE && POD_SOURCE != IMAGE_SOURCE
  {
    assert |CRD_SOURCE| == 15 && |SERVICE_SOURCE| == 26 && |POD_SOURCE| == 22 && |IMAGE_SOURCE| == 22;
    assert POD_SOURCE[10] == 'L' && IMAGE_SOURCE[10] == 'I';
  }

  /** Source `key` holds the version, or what it held before if there is none. */
  ghost predicate Holds(before: Sources, after: Sources, key: string, version: string) {
    if version != "" then key in after && after[key] == version
    else (key in after <==> key in before) && (key in after ==> after[key] == before[key])
  }

  ghost predicate Unchanged(before: Sources, after: Sources, keys: set<string>) {
    forall k :: k !in keys ==> Holds(before, after, k, "")
  }

  /** What the scan of these pods has recorded. */
  ghost predicate PodSources(pods: seq<Pod>, sources: Sources, after: Sources) {
    exists n: nat, v :: PodSourcesAt(pods, sources, after, n, v)
  }

  ghost predicate PodSourcesAt(pods: seq<Pod>, sources: Sources, after: Sources, n: nat, v: string) {
    && ScanEnds(pods, n) && LastLabel(Scanned(pods, n), v)
    && Holds(sources, after, POD_SOURCE, v)
    && Holds(sources, after, IMAGE_SOURCE, if n < |pods| then FirstImage(pods[n].images).value else "")
  }

  const PODS := {POD_SOURCE, IMAGE_SOURCE}

  lemma RecordHolds(sources: Sources, key: string, version: string)
    ensures var after := Record(sources, key, version);
            Holds(sources, after, key, version) && Unchanged(sources, after, {key})
  {
  }

  /** Two steps that touch different sources. */
  lemma HoldsThrough(a: Sources, b: Sources, c: Sources, first: set<string>, second: set<string>)
    requires Unchanged(a, b, first) && Unchanged(b, c, second)
    ensures Unchanged(a, c, first + second)
    ensures forall k, v :: k !in second && Holds(a, b, k, v) ==> Holds(a, c, k, v)
    ensures forall k, v :: k !in first && Holds(b, c, k, v) ==> Holds(a, c, k, v)
  {
    assert forall k :: k !in second ==> Holds(b, c, k, "");
    assert forall k :: k !in first ==> Holds(a, b, k, "");
  }

  lemma ScanRecords(pods: seq<Pod>, sources: Sources)
    ensures PodSources(pods, sources, Scan(pods, sources)) && Unchanged(sources, Scan(pods, sources), PODS)
  {
    var n := ScanEnd(pods);
    var v := LabelOf(Scanned(pods, n));
    var image := if n < |pods| then FirstImage(pods[n].images).value else "";
    LabelOfIsLast(Scanned(pods, n));
    if n < |pods| {
      FirstImageNonEmpty(pods[n].images);
    }
    var labelled := Record(sources, POD_SOURCE, v);
    var after := Scan(pods, sources);
    assert after == Record(labelled, IMAGE_SOURCE, image);
    RecordHolds(sources, POD_SOURCE, v);
    RecordHolds(labelled, IMAGE_SOURCE, image);
    SourceNames();
    HoldsThrough(sources, labelled, after, {POD_SOURCE}, {IMAGE_SOURCE});
    assert PodSourcesAt(pods, sources, after, n, v);
  }

  /** What a service adds: its label version, then what its pods add; the error is that of the failed lookup. */
  ghost predicate ServiceRecorded(client: Client, key: (string, string), sources: Sources, after: Sources, err: Option<Error>) {
    match client.service(key.0, key.1)
    case Missing => err == Some(Api("not found")) && after == sources
    case Broken(m) => err == Some(Api(m)) && after == sources
    case Found(service) =>
      && Holds(sources, after, SERVICE_SOURCE, LabelVersion(service.labels))
      && Unchanged(sources, after, PODS + {SERVICE_SOURCE})
      && match client.pods(service.selector)
         case Missing => err == Some(Api("not found")) && Unchanged(sources, after, {SERVICE_SOURCE})
         case Broken(m) => err == Some(Api(m)) && Unchanged(sources, after, {SERVICE_SOURCE})
         case Found(pods) => err == None && PodSources(pods, sources, after)
  }

  lemma ServiceRecords(client: Client, key: (string, string), sources: Sources)
    ensures ServiceRecorded(client, key, sources, FromService(client, key, sources).0, FromService(client, key, sources).1)
  {
    var s := client.service(key.0, key.1);
    if s.Found? {
      var labelled := Record(sources, SERVICE_SOURCE, LabelVersion(s.value.labels));
      var pods := client.pods(s.value.selector);
      RecordHolds(sources, SERVICE_SOURCE, LabelVersion(s.value.labels));
      SourceNames();
      if pods.Found? {
        var after := Scan(pods.value, labelled);
        ScanRecords(pods.value, labelled);
        HoldsThrough(sources, labelled, after, {SERVICE_SOURCE}, PODS);
        PodSourcesFrom(pods.value, sources, labelled, after);
        assert {SERVICE_SOURCE} + PODS == PODS + {SERVICE_SOURCE};
      }
    }
  }

  /** The scan's additions do not depend on what other keys held. */
  lemma PodSourcesFrom(pods: seq<Pod>, sources: Sources, labelled: Sources, after: Sources)
    requires PodSources(pods, labelled, after)
    requires Holds(sources, labelled, POD_SOURCE, "") && Holds(sources, labelled, IMAGE_SOURCE, "")
    ensures PodSources(pods, sources, after)
  {
    var n: nat, v :| PodSourcesAt(pods, labelled, after, n, v);
    assert PodSourcesAt(pods, sources, after, n, v);
  }

  /**
   * What a found definition adds: its own label version and, if it has a service, what that adds to
   * the rest; without a service nothing else and no error.
   */
  lemma FoundDefinitionRecords(client: Client, name: string, sources: Sources, crd: Crd)
    requires FoundAs(client, name, crd)
    ensures var (after, err) := FromCrdName(client, name, sources);
            && Holds(sources, after, CRD_SOURCE, LabelVersion(crd.labels))
            && (crd.service.None? ==> err == None && Unchanged(sources, after, {CRD_SOURCE}))
            && (crd.service.Some? ==> exists labelled ::
                  && Unchanged(sources, labelled, {CRD_SOURCE})
                  && ServiceRecorded(client, crd.service.value, labelled, after, err))
  {
    var labelled := Record(sources, CRD_SOURCE, LabelVersion(crd.labels));
    assert FromCrdName(client, name, sources) == FromCrd(client, crd, sources);
    if crd.service.Some? {
      ServiceRecords(client, crd.service.value, labelled);
      var (after, err) := FromService(client, crd.service.value, labelled);
      assert ServiceRecorded(client, crd.service.value, labelled, after, err);
      assert Holds(labelled, after, CRD_SOURCE, "");
    }
  }

  /** A definition that cannot be found is reported as such, any other failed lookup as it is, and nothing is recorded. */
  lemma LookupErrors(client: Client, name: string, sources: Sources)
    requires forall crd :: !FoundAs(client, name, crd)
    ensures var v1, v1beta1 := client.crdV1(name), client.crdV1beta1(name);
            FromCrdName(client, name, sources) ==
              (sources, if v1.Broken? then Some(Api(v1.message))
                        else if v1beta1.Broken? then Some(Api(v1beta1.message))
                        else Some(CrdsNotFound))
  {
    var v1, v1beta1 := client.crdV1(name), client.crdV1beta1(name);
    if v1.Found? {
      assert FoundAs(client, name, v1.value);
    } else if v1.Missing? && v1beta1.Found? {
      assert FoundAs(client, name, v1beta1.value);
    }
  }

  lemma FromServiceKeepsNoneEmpty(client: Client, key: (string, string), sources: Sources)
    requires NoneEmpty(sources)
    ensures NoneEmpty(FromService(client, key, sources).0)
  {
    var s := client.service(key.0, key.1);
    if s.Found? {
      var pods := client.pods(s.value.selector);
      if pods.Found? {
        ScanKeepsNoneEmpty(pods.value, Record(sources, SERVICE_SOURCE, LabelVersion(s.value.labels)));
      }
    }
  }

  lemma FromCrdKeepsNoneEmpty(client: Client, crd: Crd, sources: Sources)
    requires NoneEmpty(sources)
    ensures NoneEmpty(FromCrd(client, crd, sources).0)
  {
    if crd.service.Some? {
      FromServiceKeepsNoneEmpty(client, crd.service.value, Record(sources, CRD_SOURCE, LabelVersion(crd.labels)));
    }
  }

  /** No extractor ever records the empty string. */
  lemma ExtractKeepsNoneEmpty(client: Client, name: string, sources: Sources)
    requires NoneEmpty(sources)
    ensures NoneEmpty(FromCrdName(client, name, sources).0)
  {
    if client.crdV1(name).Found? {
      FromCrdKeepsNoneEmpty(client, client.crdV1(name).value, sources);
    } else if client.crdV1beta1(name).Found? {
      FromCrdKeepsNoneEmpty(client, client.crdV1beta1(name).value, sources);
    }
  }

  lemma ScanKeepsNoneEmpty(pods: seq<Pod>, sources: Sources)
    requires NoneEmpty(sources)
    ensures NoneEmpty(Scan(pods, sources))
  {
    var n := ScanEnd(pods);
    if n < |pods| {
      FirstImageNonEmpty(pods[n].images);
    }
  }

  /** The image at i is the first one with a version. */
  ghost predicate FirstImageAt(images: seq<string>, i: nat) {
    && i < |images| && ImageVersion(images[i]) == FirstImage(images)
    && forall j :: 0 <= j < i ==> ImageVersion(images[j]).None?
  }

  lemma {:induction false} FirstImageNonEmpty(images: seq<string>)
    requires FirstImage(images).Some?
    ensures FirstImage(images).value != ""
    ensures exists i: nat :: FirstImageAt(images, i)
  {
    if ImageVersion(images[0]).Some? {
      assert FirstImageAt(images, 0);
    } else {
      FirstImageNonEmpty(images[1..]);
      var i: nat :| FirstImageAt(images[1..], i);
      forall j | 0 <= j < i + 1 ensures ImageVersion(images[j]).None? {
        if j > 0 {
          assert images[j] == images[1..][j - 1];
        }
      }
      assert FirstImageAt(images, i + 1);
    }
  }

  /* ---------- Reducing the sources to one version ---------- */

  /** The loop over the values in some order; None is a conflict. */
  function Fold(values: seq<string>, detected: string): Option<string>
    decreases |values|
  {
    if values == [] then Some(detected)
    else if detected != "" && values[0] != detected then None
    else Fold(values[1..], values[0])
  }

  ghost predicate AllAre(values: seq<string>, from: nat, end: nat, v: string) {
    end <= |values| && forall i :: from <= i < end ==> values[i] == v
  }

  lemma {:induction false} FoldFrom(values: seq<string>, detected: string)
    requires detected != ""
    ensures Fold(values, detected) == if AllAre(values, 0, |values|, detected) then Some(detected) else None
    decreases |values|
  {
    if values != [] && values[0] == detected {
      FoldFrom(values[1..], detected);
      assert values == [values[0]] + values[1..];
    }
  }

  /** Empty strings, then nothing but `v`. */
  ghost predicate EmptyThen(values: seq<string>, k: nat, v: string) {
    k < |values| && AllAre(values, 0, k, "") && AllAre(values, k, |values|, v)
  }

  /** For any order of any values, the loop finds `v` exactly if they are empty strings followed by nothing but `v`. */
  lemma {:induction false} FoldExact(values: seq<string>, v: string)
    requires v != ""
    ensures Fold(values, "") == Some(v) <==> exists k :: EmptyThen(values, k, v)
    decreases |values|
  {
    if values != [] {
      var rest := values[1..];
      assert values == [values[0]] + rest;
      if values[0] == "" {
        FoldExact(rest, v);
        if k: nat :| EmptyThen(rest, k, v) {
          assert EmptyThen(values, k + 1, v);
        }
        if k: nat :| EmptyThen(values, k, v) {
          assert EmptyThen(rest, k - 1, v);
        }
      } else {
        FoldFrom(rest, values[0]);
        assert EmptyThen(values, 0, v) <==> values[0] == v && AllAre(rest, 0, |rest|, v);
      }
    }
  }

  /** Without empty strings the order does not matter: the values agree, or they conflict in every order. */
  lemma FoldWithoutEmpty(values: seq<string>)
    requires values != [] && "" !in values
    ensures Fold(values, "") == if AllAre(values, 0, |values|, values[0]) then Some(values[0]) else None
  {
    FoldFrom(values[1..], values[0]);
    assert values == [values[0]] + values[1..];
  }

  /** With an empty string beside a version it would matter. */
  lemma EmptySourceMakesOrderMatter(v: string)
    requires v != ""
    ensures Fold(["", v], "") == Some(v) && Fold([v, ""], "") == None
  {
    assert EmptyThen(["", v], 1, v);
    FoldExact(["", v], v);
    FoldFrom([v, ""][1..], v);
    assert [v, ""][1..][0] != v;
  }

  /* ---------- The program ---------- */

  ghost predicate Agree(sources: Sources, v: string) {
    forall k :: k in sources ==> sources[k] == v
  }

  ghost predicate Reduces(sources: Sources, version: Option<Detection>, err: Option<Error>) {
    && (sources == map[] ==> version == None && err == Some(NotDetected))
    && (sources != map[] ==> version.Some? && version.value.sources == sources && (err == None || err == Some(MultipleDetected)))
    && (sources != map[] && err == None ==> version.value.detected != "" && Agree(sources, version.value.detected))
    && (err == Some(MultipleDetected) ==>
          version.value.detected == "" && exists j, k :: j in sources && k in sources && sources[j] != sources[k])
  }

  /** Some order in which the sources may be iterated. */
  ghost predicate IterationOrder(order: seq<string>, keys: set<string>) {
    && (forall k :: k in order <==> k in keys)
    && (forall i, j :: 0 <= i < j < |order| ==> order[i] != order[j])
  }

  function Values(sources: Sources, order: seq<string>): seq<string>
    requires forall k :: k in order ==> k in sources
  {
    seq(|order|, i requires 0 <= i < |order| => sources[order[i]])
  }

  /** What the loop over the sources in some order amounts to. */
  function Determined(sources: Sources, order: seq<string>): (Option<Detection>, Option<Error>)
    requires forall k :: k in order ==> k in sources
  {
    if sources == map[] then (None, Some(NotDetected))
    else
      match Fold(Values(sources, order), "")
      case None => (Some(Detection("", sources)), Some(MultipleDetected))
      case Some(v) => (Some(Detection(v, sources)), None)
  }

  /** Without empty sources every order gives the same, exact answer. */
  lemma DeterminedReduces(sources: Sources, order: seq<string>)
    requires NoneEmpty(sources) && IterationOrder(order, sources.Keys)
    ensures Reduces(sources, Determined(sources, order).0, Determined(sources, order).1)
  {
    if sources != map[] {
      var key :| key in sources;
      assert key in order;
      var values := Values(sources, order);
      FoldWithoutEmpty(values);
      if AllAre(values, 0, |values|, values[0]) {
        forall k | k in sources ensures sources[k] == values[0] {
          var i :| 0 <= i < |order| && order[i] == k;
          assert values[i] == sources[k];
        }
      } else {
        var i :| 0 <= i < |values| && values[i] != values[0];
        assert order[i] in sources && order[0] in sources && sources[order[i]] != sources[order[0]];
      }
    }
  }

  /** An empty source beside a version would make the answer depend on the order. */
  lemma EmptySourceDecidesByOrder(a: string, b: string, v: string)
    requires a != b && v != ""
    ensures var sources := map[a := "", b := v];
            && IterationOrder([a, b], sources.Keys) && Determined(sources, [a, b]).1 == None
            && IterationOrder([b, a], sources.Keys) && Determined(sources, [b, a]).1 == Some(MultipleDetected)
  {
    var sources := map[a := "", b := v];
    assert Values(sources, [a, b]) == ["", v] && Values(sources, [b, a]) == [v, ""];
    EmptySourceMakesOrderMatter(v);
    assert a in sources;
  }

  class Checker {
    const client: Client
    var versionSources: Sources

    constructor (client: Client)
      ensures this.client == client && versionSources == map[]
    {
      this.client := client;
      this.versionSources := map[];
    }

    method Version() returns (version: Option<Detection>, err: Option<Error>)
      requires NoneEmpty(versionSources)
      modifies this
      ensures NoneEmpty(versionSources)
      ensures versionSources == Extract(client, old(versionSources)).0
      ensures exists detection :: Reduces(versionSources, version, detection)
                && var cause := Extract(client, old(versionSources)).1;
                err == if detection.None? then cause
                       else if cause.None? then detection
                       else Some(Both(detection.value, cause.value))
    {
      ExtractKeepsNoneEmpty(client, CRD, versionSources);
      err := ExtractVersionFromCrd(CRD);
      if err == Some(CrdsNotFound) {
        ExtractKeepsNoneEmpty(client, OLD_CRD, versionSources);
        err := ExtractVersionFromCrd(OLD_CRD);
      }
      var detectionError;
      var order := SomeOrder();
      version, detectionError := DetermineVersion(order);
      DeterminedReduces(versionSources, order);
      if err.Some? && detectionError.Some? {
        err := Some(Both(detectionError.value, err.value));
      } else if detectionError.Some? {
        err := detectionError;
      }
    }

    method ExtractVersionFromCrd(name: string) returns (err: Option<Error>)
      modifies this
      ensures (versionSources, err) == FromCrdName(client, name, old(versionSources))
    {
      var v1 := client.crdV1(name);
      if v1.Found? {
        err := ExtractVersionFromFoundCrd(v1.value);
        return;
      }
      if v1.Broken? {
        return Some(Api(v1.message));
      }
      var v1beta1 := client.crdV1beta1(name);
      if v1beta1.Found? {
        err := ExtractVersionFromFoundCrd(v1beta1.value);
        return;
      }
      if v1beta1.Broken? {
        return Some(Api(v1beta1.message));
      }
      return Some(CrdsNotFound);
    }

    method ExtractVersionFromFoundCrd(crd: Crd) returns (err: Option<Error>)
      modifies this
      ensures (versionSources, err) == FromCrd(client, crd, old(versionSources))
    {
      var labelVersion := LabelVersion(crd.labels);
      if labelVersion != "" {
        versionSources := versionSources[CRD_SOURCE := labelVersion];
      }
      if crd.service.None? {
        return None;
      }
      err := ExtractVersionFromService(crd.service.value);
    }

    method ExtractVersionFromService(key: (string, string)) returns (err: Option<Error>)
      modifies this
      ensures (versionSources, err) == FromService(client, key, old(versionSources))
    {
      var service := client.service(key.0, key.1);
      if service.Missing? {
        return Some(Api("not found"));
      }
      if service.Broken? {
        return Some(Api(service.message));
      }
      var labelVersion := LabelVersion(service.value.labels);
      if labelVersion != "" {
        versionSources := versionSources[SERVICE_SOURCE := labelVersion];
      }
      var pods := client.pods(service.value.selector);
      if pods.Missing? {
        return Some(Api("not found"));
      }
      if pods.Broken? {
        return Some(Api(pods.message));
      }
      ScanPods(pods.value);
      return None;
    }

    method ScanPods(pods: seq<Pod>)
      modifies this
      ensures versionSources == Scan(pods, old(versionSources))
    {
      ghost var before := versionSources;
      var i := 0;
      while i < |pods|
        invariant i <= |pods|
        invariant forall j :: 0 <= j < i ==> !HasImage(pods[j])
        invariant versionSources == Record(before, POD_SOURCE, LabelOf(pods[..i]))
      {
        var pod := pods[i];
        assert pods[..i + 1][..i] == pods[..i];
        i := i + 1;
        if !pod.running {
          continue;
        }
        var labelVersion := LabelVersion(pod.labels);
        if labelVersion != "" {
          versionSources := versionSources[POD_SOURCE := labelVersion];
        }
        assert versionSources == Record(before, POD_SOURCE, LabelOf(pods[..i]));
        var image := FindImage(pod.images);
        if image.Some? {
          versionSources := versionSources[IMAGE_SOURCE := image.value];
          ScanEndsOnce(pods, i - 1);
          return;
        }
      }
      ScanEndsOnce(pods, |pods|);
      assert pods[..|pods|] == pods;
    }

    /** The order in which the map happens to be iterated. */
    method SomeOrder() returns (order: seq<string>)
      ensures IterationOrder(order, versionSources.Keys)
    {
      order := [];
      var remaining := versionSources.Keys;
      while remaining != {}
        invariant remaining <= versionSources.Keys
        invariant IterationOrder(order, versionSources.Keys - remaining)
        decreases |remaining|
      {
        var key :| key in remaining;
        order := order + [key];
        remaining := remaining - {key};
      }
    }

    method DetermineVersion(order: seq<string>) returns (version: Option<Detection>, err: Option<Error>)
      requires IterationOrder(order, versionSources.Keys)
      ensures (version, err) == Determined(versionSources, order)
    {
      if |versionSources| == 0 {
        assert versionSources == map[];
        return None, Some(NotDetected);
      }
      var detected := "";
      ghost var values := Values(versionSources, order);
      var i := 0;
      while i < |order|
        invariant i <= |order|
        invariant Fold(values, "") == Fold(values[i..], detected)
      {
        var version := versionSources[order[i]];
        assert values[i..][0] == version && values[i..][1..] == values[i + 1..];
        i := i + 1;
        if detected != "" && version != detected {
          return Some(Detection("", versionSources)), Some(MultipleDetected);
        }
        detected := version;
      }
      return Some(Detection(detected, versionSources)), None;
    }
  }

  method FindImage(images: seq<string>) returns (v: Option<string>)
    ensures v == FirstImage(images)
  {
    var i := 0;
    while i < |images|
      invariant i <= |images| && FirstImage(images) == FirstImage(images[i..])
    {
      v := ImageVersion(images[i]);
      if v.Some? {
        return;
      }
      i := i + 1;
    }
    return None;
  }
}
