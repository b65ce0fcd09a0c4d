/**
 * Converting ACME resources between v1alpha2, v1 and the internal version.
 * A struct whose fields agree in all three is declared once; v1 agrees with
 * the internal version throughout.
 */
module Acme {
  import opened Wrappers

  /** A Go slice: nil and empty differ. */
  type Slice<T> = Option<seq<T>>

  datatype Selector = Selector(name: string, key: string)

  datatype IssuerRef = IssuerRef(name: string, kind: string, group: string)

  /** The provider structs are copied without renames; `P` stands for their contents. */
  datatype Dns01<P> = Dns01(
    cnameStrategy: string, akamai: Option<P>, cloudDns: Option<P>, cloudflare: Option<P>, route53: Option<P>,
    azureDns: Option<P>, digitalOcean: Option<P>, acmeDns: Option<P>, rfc2136: Option<P>, webhook: Option<P>)

  datatype Solver<P> = Solver(selector: Option<P>, http01: Option<P>, dns01: Option<Dns01<P>>, wait: Option<int>)

  datatype Issuer<P> = Issuer(
    email: string, server: string, preferredChain: string, caBundle: Slice<char>, skipTlsVerify: bool,
    externalAccountBinding: Option<P>, privateKey: Selector, solvers: Slice<Solver<P>>,
    disableAccountKeyGeneration: bool, enableDurationFeature: bool, profile: string)

  /** Internal and v1. */
  datatype ChallengeSpec<P> = ChallengeSpec(
    url: string, authorizationUrl: string, dnsName: string, wildcard: bool, kind: string, token: string, key: string,
    solver: Solver<P>, issuerRef: IssuerRef)

  /** v1alpha2. */
  datatype OldChallengeSpec<P> = OldChallengeSpec(
    url: string, authzUrl: string, dnsName: string, wildcard: bool, kind: string, token: string, key: string,
    solver: Solver<P>, issuerRef: IssuerRef)

  /** Internal and v1. */
  datatype OrderSpec = OrderSpec(
    request: Slice<char>, issuerRef: IssuerRef, commonName: string, dnsNames: Slice<string>, ipAddresses: Slice<string>,
    duration: Option<int>, profile: string, replacing: string)

  /** v1alpha2. */
  datatype OldOrderSpec = OldOrderSpec(
    csr: Slice<char>, issuerRef: IssuerRef, commonName: string, dnsNames: Slice<string>, ipAddresses: Slice<string>,
    duration: Option<int>, profile: string, replacing: string)

  /** An object: metadata, a spec, and a status that agrees in all versions. */
  datatype Resource<S, T> = Resource(meta: string, spec: S, status: T)

  datatype ResourceList<S, T> = ResourceList(meta: string, items: Slice<Resource<S, T>>)

  const OLD_HTTP01 := "http-01"
  const OLD_DNS01 := "dns-01"
  const HTTP01 := "HTTP-01"
  const DNS01 := "DNS-01"

  /* ---------- The conversions as functions ---------- */

  function KindToInternal(kind: string): string {
    if kind == OLD_HTTP01 then HTTP01 else if kind == OLD_DNS01 then DNS01 else kind
  }

  function KindToOld(kind: string): string {
    if kind == HTTP01 then OLD_HTTP01 else if kind == DNS01 then OLD_DNS01 else kind
  }

  function ChallengeToInternal<P>(s: OldChallengeSpec<P>): ChallengeSpec<P> {
    ChallengeSpec(s.url, s.authzUrl, s.dnsName, s.wildcard, KindToInternal(s.kind), s.token, s.key, s.solver, s.issuerRef)
  }

  function ChallengeToOld<P>(s: ChallengeSpec<P>): OldChallengeSpec<P> {
    OldChallengeSpec(s.url, s.authorizationUrl, s.dnsName, s.wildcard, KindToOld(s.kind), s.token, s.key, s.solver, s.issuerRef)
  }

  function OrderToInternal(s: OldOrderSpec): OrderSpec {
    OrderSpec(s.csr, s.issuerRef, s.commonName, s.dnsNames, s.ipAddresses, s.duration, s.profile, s.replacing)
  }

  function OrderToOld(s: OrderSpec): OldOrderSpec {
    OldOrderSpec(s.request, s.issuerRef, s.commonName, s.dnsNames, s.ipAddresses, s.duration, s.profile, s.replacing)
  }

  type Challenge<P, T> = Resource<ChallengeSpec<P>, T>
  type OldChallenge<P, T> = Resource<OldChallengeSpec<P>, T>

  function ChallengesToInternal<P, T>(s: seq<OldChallenge<P, T>>): seq<Challenge<P, T>> {
    seq(|s|, i requires 0 <= i < |s| => Resource(s[i].meta, ChallengeToInternal(s[i].spec), s[i].status))
  }

  function ChallengesToOld<P, T>(s: seq<Challenge<P, T>>): seq<OldChallenge<P, T>> {
    seq(|s|, i requires 0 <= i < |s| => Resource(s[i].meta, ChallengeToOld(s[i].spec), s[i].status))
  }

  function ChallengeListToInternal<P, T>(l: ResourceList<OldChallengeSpec<P>, T>): ResourceList<ChallengeSpec<P>, T> {
    ResourceList(l.meta, if l.items.None? then None else Some(ChallengesToInternal(l.items.value)))
  }

  function ChallengeListToOld<P, T>(l: ResourceList<ChallengeSpec<P>, T>): ResourceList<OldChallengeSpec<P>, T> {
    ResourceList(l.meta, if l.items.None? then None else Some(ChallengesToOld(l.items.value)))
  }

  function OrdersToInternal<T>(s: seq<Resource<OldOrderSpec, T>>): seq<Resource<OrderSpec, T>> {
    seq(|s|, i requires 0 <= i < |s| => Resource(s[i].meta, OrderToInternal(s[i].spec), s[i].status))
  }

  function OrdersToOld<T>(s: seq<Resource<OrderSpec, T>>): seq<Resource<OldOrderSpec, T>> {
    seq(|s|, i requires 0 <= i < |s| => Resource(s[i].meta, OrderToOld(s[i].spec), s[i].status))
  }

  function OrderListToInternal<T>(l: ResourceList<OldOrderSpec, T>): ResourceList<OrderSpec, T> {
    ResourceList(l.meta, if l.items.None? then None else Some(OrdersToInternal(l.items.value)))
  }

  function OrderListToOld<T>(l: ResourceList<OrderSpec, T>): ResourceList<OldOrderSpec, T> {
    ResourceList(l.meta, if l.items.None? then None else Some(OrdersToOld(l.items.value)))
  }

  /* ---------- What they preserve ---------- */

  /** The kinds that v1alpha2 does not spell that way. */
  predicate Foreign(kind: string) {
    kind == HTTP01 || kind == DNS01
  }

  function Normalised<P>(s: OldChallengeSpec<P>): OldChallengeSpec<P> {
    ChallengeToOld(ChallengeToInternal(s))
  }

  /** Every field arrives under its own name, the renamed one under its new one, and the kind respelt. */
  lemma ChallengeFields<P>(s: OldChallengeSpec<P>, t: ChallengeSpec<P>)
    ensures var u := ChallengeToInternal(s);
            && u.url == s.url && u.authorizationUrl == s.authzUrl && u.dnsName == s.dnsName && u.wildcard == s.wildcard
            && u.token == s.token && u.key == s.key && u.solver == s.solver && u.issuerRef == s.issuerRef
            && (s.kind == "http-01" ==> u.kind == "HTTP-01") && (s.kind == "dns-01" ==> u.kind == "DNS-01")
            && (s.kind != "http-01" && s.kind != "dns-01" ==> u.kind == s.kind)
    ensures var u := ChallengeToOld(t);
            && u.url == t.url && u.authzUrl == t.authorizationUrl && u.dnsName == t.dnsName && u.wildcard == t.wildcard
            && u.token == t.token && u.key == t.key && u.solver == t.solver && u.issuerRef == t.issuerRef
            && (t.kind == "HTTP-01" ==> u.kind == "http-01") && (t.kind == "DNS-01" ==> u.kind == "dns-01")
            && (t.kind != "HTTP-01" && t.kind != "DNS-01" ==> u.kind == t.kind)
  {
    assert OLD_HTTP01[0] != OLD_DNS01[0] && HTTP01[0] != DNS01[0];
  }

  lemma OrderFields(s: OldOrderSpec, t: OrderSpec)
    ensures var u := OrderToInternal(s);
            && u.request == s.csr && u.issuerRef == s.issuerRef && u.commonName == s.commonName && u.dnsNames == s.dnsNames
            && u.ipAddresses == s.ipAddresses && u.duration == s.duration && u.profile == s.profile && u.replacing == s.replacing
    ensures var u := OrderToOld(t);
            && u.csr == t.request && u.issuerRef == t.issuerRef && u.commonName == t.commonName && u.dnsNames == t.dnsNames
            && u.ipAddresses == t.ipAddresses && u.duration == t.duration && u.profile == t.profile && u.replacing == t.replacing
  {
  }

  /** Every item of a list keeps its metadata, status and place, in both directions. */
  lemma ListItems<P, T>(l: ResourceList<OldChallengeSpec<P>, T>, m: ResourceList<ChallengeSpec<P>, T>, i: nat)
    requires l.items.Some? && m.items.Some? && i < |l.items.value| && i < |m.items.value|
    ensures var a, b := ChallengeListToInternal(l), ChallengeListToOld(m);
            && a.meta == l.meta && a.items.Some? && |a.items.value| == |l.items.value|
            && a.items.value[i] == Resource(l.items.value[i].meta, ChallengeToInternal(l.items.value[i].spec), l.items.value[i].status)
            && b.meta == m.meta && b.items.Some? && |b.items.value| == |m.items.value|
            && b.items.value[i] == Resource(m.items.value[i].meta, ChallengeToOld(m.items.value[i].spec), m.items.value[i].status)
  {
  }

  lemma OrderListItems<T>(l: ResourceList<OldOrderSpec, T>, m: ResourceList<OrderSpec, T>, i: nat)
    requires l.items.Some? && m.items.Some? && i < |l.items.value| && i < |m.items.value|
    ensures var a, b := OrderListToInternal(l), OrderListToOld(m);
            && a.meta == l.meta && a.items.Some? && |a.items.value| == |l.items.value|
            && a.items.value[i] == Resource(l.items.value[i].meta, OrderToInternal(l.items.value[i].spec), l.items.value[i].status)
            && b.meta == m.meta && b.items.Some? && |b.items.value| == |m.items.value|
            && b.items.value[i] == Resource(m.items.value[i].meta, OrderToOld(m.items.value[i].spec), m.items.value[i].status)
  {
  }

  /** There and back is the identity exactly off the internal spellings; on them it is an idempotent respelling. */
  lemma ChallengeRoundTrip<P>(s: OldChallengeSpec<P>)
    ensures Normalised(s) == s <==> s.kind != "HTTP-01" && s.kind != "DNS-01"
    ensures Normalised(s) == s.(kind := KindToOld(s.kind))
    ensures Normalised(Normalised(s)) == Normalised(s)
  {
  }

  /** The other way round, the v1alpha2 spellings are the ones that do not survive. */
  lemma InternalRoundTrip<P>(s: ChallengeSpec<P>)
    ensures ChallengeToInternal(ChallengeToOld(s)) == s <==> s.kind != "http-01" && s.kind != "dns-01"
  {
  }

  lemma OrderRoundTrip(s: OldOrderSpec, t: OrderSpec)
    ensures OrderToOld(OrderToInternal(s)) == s && OrderToInternal(OrderToOld(t)) == t
  {
  }

  lemma ChallengesRoundTrip<P, T>(s: seq<OldChallenge<P, T>>)
    ensures var back := ChallengesToOld(ChallengesToInternal(s));
            && |back| == |s|
            && (forall i :: 0 <= i < |s| ==> back[i] == s[i].(spec := Normalised(s[i].spec)))
            && (back == s <==> forall i :: 0 <= i < |s| ==> !Foreign(s[i].spec.kind))
  {
    var back := ChallengesToOld(ChallengesToInternal(s));
    forall i | 0 <= i < |s| ensures back[i] == s[i] <==> !Foreign(s[i].spec.kind) {
      ChallengeRoundTrip(s[i].spec);
    }
  }

  function NormalisedList<P, T>(l: ResourceList<OldChallengeSpec<P>, T>): ResourceList<OldChallengeSpec<P>, T> {
    ChallengeListToOld(ChallengeListToInternal(l))
  }

  /** Lists of any length: identity exactly if no item is spelt the internal way; nil stays nil and empty stays empty. */
  lemma ChallengeListRoundTrip<P, T>(l: ResourceList<OldChallengeSpec<P>, T>)
    ensures var back := NormalisedList(l);
            && (back.items.None? <==> l.items.None?)
            && (l.items.Some? ==> |back.items.value| == |l.items.value|)
            && (back == l <==> (l.items.Some? ==>
                  forall i :: 0 <= i < |l.items.value| ==> !Foreign(l.items.value[i].spec.kind)))
            && NormalisedList(back) == back
  {
    if l.items.Some? {
      var a := l.items.value;
      var b := NormalisedList(l).items.value;
      ChallengesRoundTrip(a);
      forall i | 0 <= i < |b| ensures !Foreign(b[i].spec.kind) {
        ChallengeRoundTrip(a[i].spec);
      }
      ChallengesRoundTrip(b);
    }
  }

  lemma OrderListRoundTrip<T>(l: ResourceList<OldOrderSpec, T>)
    ensures OrderListToOld(OrderListToInternal(l)) == l
  {
    if l.items.Some? {
      var a := l.items.value;
      var b := OrdersToOld(OrdersToInternal(a));
      forall i | 0 <= i < |a| ensures b[i] == a[i] {
        OrderRoundTrip(a[i].spec, OrderToInternal(a[i].spec));
      }
      assert a == b;
    }
  }

  /* ---------- The program: writing into a target ---------- */

  /** Something a pointer points to: what the conversion writes, with whatever it held before. */
  class Out<T> {
    var v: T

    constructor (v: T)
      ensures this.v == v
    {
      this.v := v;
    }
  }

  method ConvertProvider<P>(in_: P, out: Out<P>)
    modifies out
    ensures out.v == in_
  {
    out.v := in_;
  }

  /** A pointer field: nil becomes nil, anything else a freshly allocated copy. */
  method ConvertPointer<P>(in_: Option<P>) returns (r: Option<P>)
    ensures r == in_
  {
    if in_.Some? {
      var out := new Out(in_.value);
      ConvertProvider(in_.value, out);
      r := Some(out.v);
    } else {
      r := None;
    }
  }

  /** Every field of the target is written, whatever it held. */
  method ConvertDns01<P>(in_: Dns01<P>, out: Out<Dns01<P>>)
    modifies out
    ensures out.v == in_
  {
    out.v := out.v.(cnameStrategy := in_.cnameStrategy);
    var akamai := ConvertPointer(in_.akamai);
    out.v := out.v.(akamai := akamai);
    var cloudDns := ConvertPointer(in_.cloudDns);
    out.v := out.v.(cloudDns := cloudDns);
    var cloudflare := ConvertPointer(in_.cloudflare);
    out.v := out.v.(cloudflare := cloudflare);
    var route53 := ConvertPointer(in_.route53);
    out.v := out.v.(route53 := route53);
    var azureDns := ConvertPointer(in_.azureDns);
    out.v := out.v.(azureDns := azureDns);
    var digitalOcean := ConvertPointer(in_.digitalOcean);
    out.v := out.v.(digitalOcean := digitalOcean);
    var acmeDns := ConvertPointer(in_.acmeDns);
    out.v := out.v.(acmeDns := acmeDns);
    var rfc2136 := ConvertPointer(in_.rfc2136);
    out.v := out.v.(rfc2136 := rfc2136);
    out.v := out.v.(webhook := in_.webhook);
  }

  function EmptyDns01<P>(): Dns01<P> {
    Dns01("", None, None, None, None, None, None, None, None, None)
  }

  function EmptySolver<P>(): Solver<P> {
    Solver(None, None, None, None)
  }

  function EmptyChallenge<P>(): ChallengeSpec<P> {
    ChallengeSpec("", "", "", false, "", "", "", EmptySolver(), IssuerRef("", "", ""))
  }

  function EmptyOrder(): OrderSpec {
    OrderSpec(None, IssuerRef("", "", ""), "", None, None, None, "", "")
  }

  method ConvertSolver<P>(in_: Solver<P>, out: Out<Solver<P>>)
    modifies out
    ensures out.v == in_
  {
    out.v := out.v.(selector := in_.selector);
    out.v := out.v.(http01 := in_.http01);
    if in_.dns01.Some? {
      var dns01 := new Out(EmptyDns01());
      ConvertDns01(in_.dns01.value, dns01);
      out.v := out.v.(dns01 := Some(dns01.v));
    } else {
      out.v := out.v.(dns01 := None);
    }
    out.v := out.v.(wait := in_.wait);
  }

  method ConvertIssuer<P>(in_: Issuer<P>, out: Out<Issuer<P>>)
    modifies out
    ensures out.v == in_
  {
    out.v := out.v.(email := in_.email, server := in_.server, preferredChain := in_.preferredChain);
    out.v := out.v.(caBundle := in_.caBundle, skipTlsVerify := in_.skipTlsVerify);
    var binding := ConvertPointer(in_.externalAccountBinding);
    out.v := out.v.(externalAccountBinding := binding);
    out.v := out.v.(privateKey := in_.privateKey);
    if in_.solvers.Some? {
      var solvers := in_.solvers.value;
      var made: seq<Solver<P>> := [];
      var i := 0;
      while i < |solvers|
        invariant i <= |solvers| && made == solvers[..i]
        invariant out.v == old(out.v).(
          email := in_.email, server := in_.server, preferredChain := in_.preferredChain, caBundle := in_.caBundle,
          skipTlsVerify := in_.skipTlsVerify, externalAccountBinding := in_.externalAccountBinding,
          privateKey := in_.privateKey)
      {
        var solver := new Out(EmptySolver());
        ConvertSolver(solvers[i], solver);
        made := made + [solver.v];
        i := i + 1;
      }
      assert made == solvers;
      out.v := out.v.(solvers := Some(made));
    } else {
      out.v := out.v.(solvers := None);
    }
    out.v := out.v.(disableAccountKeyGeneration := in_.disableAccountKeyGeneration);
    out.v := out.v.(enableDurationFeature := in_.enableDurationFeature, profile := in_.profile);
  }

  /** The generated part leaves the renamed field as it was and copies the kind unmapped. */
  method AutoConvertChallengeToInternal<P>(in_: OldChallengeSpec<P>, out: Out<ChallengeSpec<P>>)
    modifies out
    ensures out.v == ChallengeToInternal(in_).(authorizationUrl := old(out.v.authorizationUrl), kind := in_.kind)
  {
    out.v := out.v.(url := in_.url, dnsName := in_.dnsName, wildcard := in_.wildcard, kind := in_.kind);
    out.v := out.v.(token := in_.token, key := in_.key);
    var solver := new Out(out.v.solver);
    ConvertSolver(in_.solver, solver);
    out.v := out.v.(solver := solver.v);
    out.v := out.v.(issuerRef := in_.issuerRef);
  }

  /** The hand-written wrapper completes it: the result depends on `in_` alone. */
  method ConvertChallengeToInternal<P>(in_: OldChallengeSpec<P>, out: Out<ChallengeSpec<P>>)
    modifies out
    ensures out.v == ChallengeToInternal(in_)
  {
    AutoConvertChallengeToInternal(in_, out);
    out.v := out.v.(authorizationUrl := in_.authzUrl);
    if in_.kind == OLD_HTTP01 {
      out.v := out.v.(kind := HTTP01);
    } else if in_.kind == OLD_DNS01 {
      out.v := out.v.(kind := DNS01);
    } else {
      out.v := out.v.(kind := in_.kind);
    }
  }

  method AutoConvertChallengeToOld<P>(in_: ChallengeSpec<P>, out: Out<OldChallengeSpec<P>>)
    modifies out
    ensures out.v == ChallengeToOld(in_).(authzUrl := old(out.v.authzUrl), kind := in_.kind)
  {
    out.v := out.v.(url := in_.url, dnsName := in_.dnsName, wildcard := in_.wildcard, kind := in_.kind);
    out.v := out.v.(token := in_.token, key := in_.key);
    var solver := new Out(out.v.solver);
    ConvertSolver(in_.solver, solver);
    out.v := out.v.(solver := solver.v);
    out.v := out.v.(issuerRef := in_.issuerRef);
  }

  method ConvertChallengeToOld<P>(in_: ChallengeSpec<P>, out: Out<OldChallengeSpec<P>>)
    modifies out
    ensures out.v == ChallengeToOld(in_)
  {
    AutoConvertChallengeToOld(in_, out);
    out.v := out.v.(authzUrl := in_.authorizationUrl);
    if in_.kind == HTTP01 {
      out.v := out.v.(kind := OLD_HTTP01);
    } else if in_.kind == DNS01 {
      out.v := out.v.(kind := OLD_DNS01);
    } else {
      out.v := out.v.(kind := in_.kind);
    }
  }

  /** v1 needs no wrapper: the generated conversion writes every field. */
  method ConvertChallengeV1<P>(in_: ChallengeSpec<P>, out: Out<ChallengeSpec<P>>)
    modifies out
    ensures out.v == in_
  {
    out.v := out.v.(url := in_.url, authorizationUrl := in_.authorizationUrl, dnsName := in_.dnsName);
    out.v := out.v.(wildcard := in_.wildcard, kind := in_.kind, token := in_.token, key := in_.key);
    var solver := new Out(out.v.solver);
    ConvertSolver(in_.solver, solver);
    out.v := out.v.(solver := solver.v);
    out.v := out.v.(issuerRef := in_.issuerRef);
  }

  /** A v1alpha2 challenge taken to v1 and back, through the internal version each time, is normalised like without the detour. */
  method DetourThroughV1<P>(in_: OldChallengeSpec<P>, out: Out<OldChallengeSpec<P>>)
    modifies out
    ensures out.v == Normalised(in_)
  {
    var internal := new Out(EmptyChallenge());
    ConvertChallengeToInternal(in_, internal);
    var v1 := new Out(internal.v);
    ConvertChallengeV1(internal.v, v1);
    ConvertChallengeV1(v1.v, internal);
    ConvertChallengeToOld(internal.v, out);
  }

  method AutoConvertOrderToInternal(in_: OldOrderSpec, out: Out<OrderSpec>)
    modifies out
    ensures out.v == OrderToInternal(in_).(request := old(out.v.request))
  {
    out.v := out.v.(issuerRef := in_.issuerRef, commonName := in_.commonName, dnsNames := in_.dnsNames);
    out.v := out.v.(ipAddresses := in_.ipAddresses, duration := in_.duration);
    out.v := out.v.(profile := in_.profile, replacing := in_.replacing);
  }

  method ConvertOrderToInternal(in_: OldOrderSpec, out: Out<OrderSpec>)
    modifies out
    ensures out.v == OrderToInternal(in_)
  {
    AutoConvertOrderToInternal(in_, out);
    out.v := out.v.(request := in_.csr);
  }

  method AutoConvertOrderToOld(in_: OrderSpec, out: Out<OldOrderSpec>)
    modifies out
    ensures out.v == OrderToOld(in_).(csr := old(out.v.csr))
  {
    out.v := out.v.(issuerRef := in_.issuerRef, commonName := in_.commonName, dnsNames := in_.dnsNames);
    out.v := out.v.(ipAddresses := in_.ipAddresses, duration := in_.duration);
    out.v := out.v.(profile := in_.profile, replacing := in_.replacing);
  }

  method ConvertOrderToOld(in_: OrderSpec, out: Out<OldOrderSpec>)
    modifies out
    ensures out.v == OrderToOld(in_)
  {
    AutoConvertOrderToOld(in_, out);
    out.v := out.v.(csr := in_.request);
  }

  /** A list: nil stays nil, and every item is converted into its own place. */
  method ConvertChallengeListToInternal<P, T>(in_: ResourceList<OldChallengeSpec<P>, T>,
                                              out: Out<ResourceList<ChallengeSpec<P>, T>>)
    modifies out
    ensures out.v == ChallengeListToInternal(in_)
  {
    out.v := out.v.(meta := in_.meta);
    if in_.items.Some? {
      var items := in_.items.value;
      var made: seq<Resource<ChallengeSpec<P>, T>> := [];
      var i := 0;
      while i < |items|
        invariant i <= |items| && made == ChallengesToInternal(items)[..i]
        invariant out.v.meta == in_.meta
      {
        var spec := new Out(EmptyChallenge());
        ConvertChallengeToInternal(items[i].spec, spec);
        made := made + [Resource(items[i].meta, spec.v, items[i].status)];
        i := i + 1;
      }
      assert made == ChallengesToInternal(items);
      out.v := out.v.(items := Some(made));
    } else {
      out.v := out.v.(items := None);
    }
  }

  method ConvertChallengeListToOld<P, T>(in_: ResourceList<ChallengeSpec<P>, T>,
                                         out: Out<ResourceList<OldChallengeSpec<P>, T>>)
    modifies out
    ensures out.v == ChallengeListToOld(in_)
  {
    out.v := out.v.(meta := in_.meta);
    if in_.items.Some? {
      var items := in_.items.value;
      var made: seq<Resource<OldChallengeSpec<P>, T>> := [];
      var i := 0;
      while i < |items|
        invariant i <= |items| && made == ChallengesToOld(items)[..i]
        invariant out.v.meta == in_.meta
      {
        var spec := new Out(OldChallengeSpec("", "", "", false, "", "", "", EmptySolver(), IssuerRef("", "", "")));
        ConvertChallengeToOld(items[i].spec, spec);
        made := made + [Resource(items[i].meta, spec.v, items[i].status)];
        i := i + 1;
      }
      assert made == ChallengesToOld(items);
      out.v := out.v.(items := Some(made));
    } else {
      out.v := out.v.(items := None);
    }
  }

  method ConvertOrderListToInternal<T>(in_: ResourceList<OldOrderSpec, T>,
                                       out: Out<ResourceList<OrderSpec, T>>)
    modifies out
    ensures out.v == OrderListToInternal(in_)
  {
    out.v := out.v.(meta := in_.meta);
    if in_.items.Some? {
      var items := in_.items.value;
      var made: seq<Resource<OrderSpec, T>> := [];
      var i := 0;
      while i < |items|
        invariant i <= |items| && made == OrdersToInternal(items)[..i]
        invariant out.v.meta == in_.meta
      {
        var spec := new Out(EmptyOrder());
        ConvertOrderToInternal(items[i].spec, spec);
        made := made + [Resource(items[i].meta, spec.v, items[i].status)];
        i := i + 1;
      }
      assert made == OrdersToInternal(items);
      out.v := out.v.(items := Some(made));
    } else {
      out.v := out.v.(items := None);
    }
  }

  method ConvertOrderListToOld<T>(in_: ResourceList<OrderSpec, T>,
                                  out: Out<ResourceList<OldOrderSpec, T>>)
    modifies out
    ensures out.v == OrderListToOld(in_)
  {
    out.v := out.v.(meta := in_.meta);
    if in_.items.Some? {
      var items := in_.items.value;
      var made: seq<Resource<OldOrderSpec, T>> := [];
      var i := 0;
      while i < |items|
        invariant i <= |items| && made == OrdersToOld(items)[..i]
        invariant out.v.meta == in_.meta
      {
        var spec := new Out(OldOrderSpec(None, IssuerRef("", "", ""), "", None, None, None, "", ""));
        ConvertOrderToOld(items[i].spec, spec);
        made := made + [Resource(items[i].meta, spec.v, items[i].status)];
        i := i + 1;
      }
      assert made == OrdersToOld(items);
      out.v := out.v.(items := Some(made));
    } else {
      out.v := out.v.(items := None);
    }
  }

  method ConvertChallengeListV1<P, T>(in_: ResourceList<ChallengeSpec<P>, T>, out: Out<ResourceList<ChallengeSpec<P>, T>>)
    modifies out
    ensures out.v == in_
  {
    out.v := out.v.(meta := in_.meta);
    if in_.items.Some? {
      var items := in_.items.value;
      var made: seq<Resource<ChallengeSpec<P>, T>> := [];
      var i := 0;
      while i < |items|
        invariant i <= |items| && made == items[..i]
        invariant out.v.meta == in_.meta
      {
        var spec := new Out(EmptyChallenge());
        ConvertChallengeV1(items[i].spec, spec);
        made := made + [Resource(items[i].meta, spec.v, items[i].status)];
        i := i + 1;
      }
      assert made == items;
      out.v := out.v.(items := Some(made));
    } else {
      out.v := out.v.(items := None);
    }
  }

  /** The detour of a list gives what the direct way back gives: the list itself exactly if no item is spelt the internal way. */
  method ChallengeListDetourThroughV1<P, T>(in_: ResourceList<OldChallengeSpec<P>, T>, out: Out<ResourceList<OldChallengeSpec<P>, T>>)
    modifies out
    ensures out.v == NormalisedList(in_) && (out.v.items.None? <==> in_.items.None?)
    ensures out.v == in_ <==> (in_.items.Some? ==>
                                 forall i :: 0 <= i < |in_.items.value| ==> !Foreign(in_.items.value[i].spec.kind))
  {
    ChallengeListRoundTrip(in_);
    var internal := new Out(ResourceList("", None));
    ConvertChallengeListToInternal(in_, internal);
    var v1 := new Out(ResourceList("", None));
    ConvertChallengeListV1(internal.v, v1);
    ConvertChallengeListV1(v1.v, internal);
    ConvertChallengeListToOld(internal.v, out);
  }

  /** v1 orders need no wrapper either. */
  method ConvertOrderV1(in_: OrderSpec, out: Out<OrderSpec>)
    modifies out
    ensures out.v == in_
  {
    out.v := out.v.(request := in_.request, issuerRef := in_.issuerRef, commonName := in_.commonName);
    out.v := out.v.(dnsNames := in_.dnsNames, ipAddresses := in_.ipAddresses, duration := in_.duration);
    out.v := out.v.(profile := in_.profile, replacing := in_.replacing);
  }

  method ConvertOrderListV1<T>(in_: ResourceList<OrderSpec, T>, out: Out<ResourceList<OrderSpec, T>>)
    modifies out
    ensures out.v == in_
  {
    out.v := out.v.(meta := in_.meta);
    if in_.items.Some? {
      var items := in_.items.value;
      var made: seq<Resource<OrderSpec, T>> := [];
      var i := 0;
      while i < |items|
        invariant i <= |items| && made == items[..i]
        invariant out.v.meta == in_.meta
      {
        var spec := new Out(EmptyOrder());
        ConvertOrderV1(items[i].spec, spec);
        made := made + [Resource(items[i].meta, spec.v, items[i].status)];
        i := i + 1;
      }
      assert made == items;
      out.v := out.v.(items := Some(made));
    } else {
      out.v := out.v.(items := None);
    }
  }

  /** The detour leaves an order unchanged. */
  method OrderDetourThroughV1(in_: OldOrderSpec, out: Out<OldOrderSpec>)
    modifies out
    ensures out.v == in_
  {
    OrderRoundTrip(in_, EmptyOrder());
    var internal := new Out(EmptyOrder());
    ConvertOrderToInternal(in_, internal);
    var v1 := new Out(EmptyOrder());
    ConvertOrderV1(internal.v, v1);
    ConvertOrderV1(v1.v, internal);
    ConvertOrderToOld(internal.v, out);
  }

  /** The detour leaves a list of orders unchanged, nil and empty apart. */
  method OrderListDetourThroughV1<T>(in_: ResourceList<OldOrderSpec, T>, out: Out<ResourceList<OldOrderSpec, T>>)
    modifies out
    ensures out.v == in_
  {
    OrderListRoundTrip(in_);
    var internal := new Out(ResourceList("", None));
    ConvertOrderListToInternal(in_, internal);
    var v1 := new Out(ResourceList("", None));
    ConvertOrderListV1(internal.v, v1);
    ConvertOrderListV1(v1.v, internal);
    ConvertOrderListToOld(internal.v, out);
  }
}
