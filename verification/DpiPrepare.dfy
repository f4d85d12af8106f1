/**
 Preparing a Windows profile for local DPI: when a profile is refused, which
 outbounds and rules are added, and that the prepared profile routes as before.
 */
module DpiPrepare {
  import opened Wrappers
  import opened Json
  import opened DpiGraph
  import opened DpiRouting
  import opened DpiSelection
  import Leases

  /**
   A decoded request: `services` lists the requested identifiers with their control hosts, in order;
   `config` is the whole profile and `route` its routing section, whose other parts are passed on.
   */
  datatype Request = Request(
    mode: string,
    catalog: Catalog,
    services: seq<(string, string)>,
    outbounds: seq<Fields>,
    final: string,
    rules: seq<Fields>,
    bindInterface: string,
    endpoints: nat,
    config: Fields,
    route: Fields)

  /** The catalog signature check for a service and its control host, and the protocol checks. */
  datatype Trust = Trust(signed: (string, string) -> bool, checks: Checks)

  datatype Service = Service(serviceId: string, outboundTag: string, controlHost: string, domains: seq<Domain>)

  datatype Prepared = Prepared(profile: Fields, expiresAt: string, services: seq<Service>)

  // ------------------------------------------------------------- the outbounds

  function TagAt(outbound: Fields): string {
    TextAt(outbound, "tag")
  }

  predicate WellTagged(outbounds: seq<Fields>) {
    && (forall i :: 0 <= i < |outbounds| ==> TagAt(outbounds[i]) != "")
    && (forall i, j :: 0 <= i < j < |outbounds| ==> TagAt(outbounds[i]) != TagAt(outbounds[j]))
  }

  ghost function GraphOf(outbounds: seq<Fields>): Graph
    requires WellTagged(outbounds)
  {
    map i | 0 <= i < |outbounds| :: TagAt(outbounds[i]) := outbounds[i]
  }

  method ByTag(outbounds: seq<Fields>) returns (g: Option<Graph>)
    ensures g.Some? <==> WellTagged(outbounds)
    ensures g.Some? ==> g.value == GraphOf(outbounds)
  {
    var m: Graph := map[];
    for k := 0 to |outbounds|
      invariant Tabled(outbounds, k, m)
    {
      var tag := TagAt(outbounds[k]);
      if tag == "" || tag in m {
        return None;
      }
      m := m[tag := outbounds[k]];
    }
    TableIsGraph(outbounds, m);
    return Some(m);
  }

  /** The table holds the first k outbounds, each under its own tag. */
  ghost predicate Tabled(outbounds: seq<Fields>, k: nat, m: Graph) {
    && k <= |outbounds|
    && (forall i :: 0 <= i < k ==>
        TagAt(outbounds[i]) != "" && TagAt(outbounds[i]) in m && m[TagAt(outbounds[i])] == outbounds[i])
    && (forall i, j :: 0 <= i < j < k ==> TagAt(outbounds[i]) != TagAt(outbounds[j]))
    && (forall tag :: tag in m ==> exists i :: 0 <= i < k && TagAt(outbounds[i]) == tag)
  }

  lemma TableIsGraph(outbounds: seq<Fields>, m: Graph)
    requires Tabled(outbounds, |outbounds|, m)
    ensures WellTagged(outbounds) && m == GraphOf(outbounds)
  {
    var g := GraphOf(outbounds);
    assert forall i :: 0 <= i < |outbounds| ==> TagAt(outbounds[i]) in g && g[TagAt(outbounds[i])] == outbounds[i];
    assert m.Keys == g.Keys;
  }

  ghost predicate FinalAccepted(mode: string, final: string, g: Graph, checks: Checks) {
    if mode == "selective" then TypeOf(g, final) == "direct" && TextAt(g[final], "detour") == ""
    else ProtectedVpn(g, checks, final)
  }

  // ------------------------------------------------------------ the acceptance

  function LocalTag(serviceId: string): string {
    "pokrov-local-dpi-" + serviceId
  }

  lemma LocalTagInjective(a: string, b: string)
    requires LocalTag(a) == LocalTag(b)
    ensures a == b
  {
    assert LocalTag(a)[17..] == a && LocalTag(b)[17..] == b;
  }

  predicate HeaderAccepted(q: Request) {
    && q.mode in {"selective", "smart_safe"}
    && 0 < |q.services| <= 256
    && q.bindInterface != "" && '\0' !in q.bindInterface
    && q.endpoints == 0
  }

  function Required(q: Request): Option<string> {
    if q.mode == "smart_safe" then Some(q.final) else None
  }

  predicate ControlInScope(domains: seq<Domain>, host: string) {
    exists i :: 0 <= i < |domains| && domains[i].name == host && domains[i].kind == "exact"
  }

  predicate Trusted(t: Trust, id: string, host: string) {
    Leases.IsServiceId(id) && t.signed(id, host)
  }

  predicate Used(q: Request, id: string) {
    exists i :: 0 <= i < |q.rules| && Picks(PickerOf(q.catalog, id), q.rules[i])
  }

  ghost predicate ServiceAccepted(q: Request, t: Trust, g: Graph, id: string, host: string) {
    && Trusted(t, id, host)
    && LocalTag(id) !in g
    && OneFallback(PickerOf(q.catalog, id), q.rules, AllowedIn(g, t.checks, Required(q)))
    && (Used(q, id) ==> ControlInScope(AllPicked(PickerOf(q.catalog, id), q.rules), host))
  }

  ghost predicate ServicesAccepted(q: Request, t: Trust, g: Graph, n: nat)
    requires n <= |q.services|
  {
    forall k :: 0 <= k < n ==> ServiceAccepted(q, t, g, q.services[k].0, q.services[k].1)
  }

  predicate SomeUsed(q: Request, n: nat)
    requires n <= |q.services|
  {
    exists k :: 0 <= k < n && Used(q, q.services[k].0)
  }

  /** Exactly the requests that are prepared. */
  ghost predicate Accepted(q: Request, t: Trust) {
    && HeaderAccepted(q)
    && WellTagged(q.outbounds)
    && FinalAccepted(q.mode, q.final, GraphOf(q.outbounds), t.checks)
    && ServicesAccepted(q, t, GraphOf(q.outbounds), |q.services|)
    && SomeUsed(q, |q.services|)
  }

  // -------------------------------------------------------------- the additions

  function LocalOutbound(id: string, bindInterface: string, vpn: string): Fields {
    map["type" := Text("pokrov-local-dpi"), "tag" := Text(LocalTag(id)), "windows_direct" := Bool(true),
        "bind_interface" := Text(bindInterface), "vpn_outbound" := Text(vpn), "service_id" := Text(id),
        "prefer_tcp" := Bool(id == "youtube")]
  }

  /** The outbound that the service's rules route to. */
  ghost function VpnOf(q: Request, id: string): string
    requires Used(q, id)
  {
    var i :| 0 <= i < |q.rules| && Picks(PickerOf(q.catalog, id), q.rules[i]);
    TextAt(q.rules[i], "outbound")
  }

  /** Per rule the tag of its overrides, and per tag the outbound it falls back to. */
  datatype Plan = Plan(tags: seq<Option<string>>, fallback: map<string, string>)

  function Tagged(q: Request, id: string, tags: seq<Option<string>>): seq<Option<string>>
    requires |tags| == |q.rules|
  {
    seq(|tags|, i requires 0 <= i < |tags| =>
      if Picks(PickerOf(q.catalog, id), q.rules[i]) then Some(LocalTag(id)) else tags[i])
  }

  /** The plan with one used service more. */
  ghost function Extended(q: Request, before: Plan, id: string): (plan: Plan)
    requires |before.tags| == |q.rules| && Used(q, id)
    ensures |plan.tags| == |q.rules|
  {
    Plan(Tagged(q, id, before.tags), before.fallback[LocalTag(id) := VpnOf(q, id)])
  }

  /** What the first `n` requested services contribute. */
  ghost function PlanOf(q: Request, n: nat): (plan: Plan)
    requires n <= |q.services|
    ensures |plan.tags| == |q.rules|
  {
    if n == 0 then Plan(seq(|q.rules|, i => None), map[])
    else if Used(q, q.services[n - 1].0) then Extended(q, PlanOf(q, n - 1), q.services[n - 1].0)
    else PlanOf(q, n - 1)
  }

  /** The outbounds and the service reports that the first `n` services add, in order. */
  ghost function AddedOf(q: Request, n: nat): (seq<Fields>, seq<Service>)
    requires n <= |q.services|
  {
    if n == 0 then ([], [])
    else
      var (outbounds, services) := AddedOf(q, n - 1);
      var (id, host) := q.services[n - 1];
      if !Used(q, id) then (outbounds, services)
      else
        (outbounds + [LocalOutbound(id, q.bindInterface, VpnOf(q, id))],
         services + [Service(id, LocalTag(id), host, AllPicked(PickerOf(q.catalog, id), q.rules))])
  }

  /** All picked rules of an accepted service route to the protected outbound it falls back to. */
  lemma VpnIsCommon(q: Request, t: Trust, g: Graph, id: string, host: string)
    requires ServiceAccepted(q, t, g, id, host) && Used(q, id)
    ensures ProtectedVpn(g, t.checks, VpnOf(q, id)) && (q.mode == "smart_safe" ==> VpnOf(q, id) == q.final)
    ensures forall i :: 0 <= i < |q.rules| && Picks(PickerOf(q.catalog, id), q.rules[i]) ==>
              TextAt(q.rules[i], "outbound") == VpnOf(q, id)
  {
    forall i | 0 <= i < |q.rules| && Picks(PickerOf(q.catalog, id), q.rules[i])
      ensures FallbackAllowed(g, t.checks, Required(q), TextAt(q.rules[i], "outbound"))
    {
      assert AllowedIn(g, t.checks, Required(q))(TextAt(q.rules[i], "outbound"));
    }
  }

  predicate DistinctServices(q: Request) {
    forall i, j :: 0 <= i < j < |q.services| ==> q.services[i].0 != q.services[j].0
  }

  /** The planned tags are those of the first `n` services. */
  ghost predicate Known(q: Request, n: nat, fallback: map<string, string>)
    requires n <= |q.services|
  {
    forall tag :: tag in fallback ==> exists k :: 0 <= k < n && tag == LocalTag(q.services[k].0)
  }

  /** The planned tags are new to the profile and fall back to protected outbounds of it. */
  ghost predicate Fresh(t: Trust, g: Graph, fallback: map<string, string>) {
    forall tag :: tag in fallback ==> tag !in g && ProtectedVpn(g, t.checks, fallback[tag])
  }

  /** A planned tag stands before a rule that fits and falls back to the rule's own outbound. */
  predicate TagsFit(q: Request, plan: Plan, fits: Fields -> bool) {
    |plan.tags| == |q.rules| &&
    forall i :: 0 <= i < |q.rules| && plan.tags[i].Some? ==>
      fits(q.rules[i]) && plan.tags[i].value in plan.fallback &&
      plan.fallback[plan.tags[i].value] == TextAt(q.rules[i], "outbound")
  }

  lemma NewTag(q: Request, n: nat, fallback: map<string, string>)
    requires n < |q.services| && DistinctServices(q) && Known(q, n, fallback)
    ensures LocalTag(q.services[n].0) !in fallback
  {
    if LocalTag(q.services[n].0) in fallback {
      var k :| 0 <= k < n && LocalTag(q.services[n].0) == LocalTag(q.services[k].0);
      LocalTagInjective(q.services[k].0, q.services[n].0);
    }
  }

  ghost predicate PickedFit(q: Request, id: string, fits: Fields -> bool)
    requires Used(q, id)
  {
    forall i :: 0 <= i < |q.rules| && Picks(PickerOf(q.catalog, id), q.rules[i]) ==>
      fits(q.rules[i]) && TextAt(q.rules[i], "outbound") == VpnOf(q, id)
  }

  lemma PickedFits(q: Request, t: Trust, g: Graph, id: string, host: string)
    requires ServiceAccepted(q, t, g, id, host) && Used(q, id)
    ensures PickedFit(q, id, Overridable)
  {
    VpnIsCommon(q, t, g, id, host);
    forall i | 0 <= i < |q.rules| && Picks(PickerOf(q.catalog, id), q.rules[i]) ensures Overridable(q.rules[i]) {
      SelectedIsOverridable(q.catalog, id, id, q.rules[i]);
    }
  }

  lemma ExtendedFits(q: Request, before: Plan, id: string, fits: Fields -> bool)
    requires TagsFit(q, before, fits) && Used(q, id) && LocalTag(id) !in before.fallback && PickedFit(q, id, fits)
    ensures TagsFit(q, Extended(q, before, id), fits)
  {
  }

  /** What an accepted service that is used contributes to the plan. */
  ghost predicate Suits(q: Request, t: Trust, g: Graph, id: string) {
    Used(q, id) ==> LocalTag(id) !in g && ProtectedVpn(g, t.checks, VpnOf(q, id)) && PickedFit(q, id, Overridable)
  }

  lemma AcceptedSuits(q: Request, t: Trust, g: Graph, id: string, host: string)
    requires ServiceAccepted(q, t, g, id, host)
    ensures Suits(q, t, g, id)
  {
    if Used(q, id) {
      VpnIsCommon(q, t, g, id, host);
      PickedFits(q, t, g, id, host);
    }
  }

  lemma {:induction false} PlanIsKnown(q: Request, n: nat)
    requires n <= |q.services|
    ensures Known(q, n, PlanOf(q, n).fallback)
    decreases n
  {
    if n == 0 {
    } else {
      PlanIsKnown(q, n - 1);
    }
  }

  lemma {:induction false} PlanIsFresh(q: Request, t: Trust, g: Graph, n: nat)
    requires n <= |q.services|
    requires forall k :: 0 <= k < n ==> Suits(q, t, g, q.services[k].0)
    ensures Fresh(t, g, PlanOf(q, n).fallback)
    decreases n
  {
    if n == 0 {
    } else {
      PlanIsFresh(q, t, g, n - 1);
      assert Suits(q, t, g, q.services[n - 1].0);
    }
  }

  lemma PlanTagsFit(q: Request, fits: Fields -> bool)
    requires DistinctServices(q)
    requires forall k :: 0 <= k < |q.services| && Used(q, q.services[k].0) ==> PickedFit(q, q.services[k].0, fits)
    ensures TagsFit(q, PlanOf(q, |q.services|), fits)
  {
    for n := 0 to |q.services|
      invariant TagsFit(q, PlanOf(q, n), fits)
    {
      if Used(q, q.services[n].0) {
        PlanIsKnown(q, n);
        NewTag(q, n, PlanOf(q, n).fallback);
        ExtendedFits(q, PlanOf(q, n), q.services[n].0, fits);
      }
    }
  }

  /** The plan of an accepted request is one that the rewrite theorems speak about. */
  lemma PlanIsJustified(q: Request, t: Trust)
    requires Accepted(q, t) && DistinctServices(q)
    ensures var plan := PlanOf(q, |q.services|);
            && Justified(q.rules, plan.tags, plan.fallback)
            && forall tag :: tag in plan.fallback ==>
                 tag !in GraphOf(q.outbounds) && ProtectedVpn(GraphOf(q.outbounds), t.checks, plan.fallback[tag])
  {
    var g := GraphOf(q.outbounds);
    var plan := PlanOf(q, |q.services|);
    forall k | 0 <= k < |q.services| ensures Suits(q, t, g, q.services[k].0) {
      AcceptedSuits(q, t, g, q.services[k].0, q.services[k].1);
    }
    PlanIsFresh(q, t, g, |q.services|);
    PlanTagsFit(q, Overridable);
    forall tag | tag in plan.fallback ensures plan.fallback[tag] !in plan.fallback {
      ProtectedIsKnown(g, t.checks, plan.fallback[tag]);
    }
  }

  /**
   The whole preparation preserves routing: for every router and every flow, the
   first match over the prepared rules, with each added outbound read as the
   protected VPN it names, is the first match over the profile's own rules.
   */
  lemma PreparationPreservesRouting<F(!new)>(q: Request, t: Trust, r: Router<F>, f: F)
    requires Accepted(q, t) && DistinctServices(q) && Regular(r)
    ensures var plan := PlanOf(q, |q.services|);
            var original := Decide(r, q.rules, f);
            var prepared := Decide(r, Insert(q.rules, plan.tags), f);
            && AsVpn(plan.fallback, prepared) == AsVpn(plan.fallback, original)
            && (AsVpn(plan.fallback, prepared) == original <==>
                !(original.Routed? && original.outbound in plan.fallback))
            && (original.Routed? && original.outbound in GraphOf(q.outbounds) ==>
                AsVpn(plan.fallback, prepared) == original)
  {
    PlanIsJustified(q, t);
    var plan := PlanOf(q, |q.services|);
    RewritePreservesRouting(r, q.rules, plan.tags, plan.fallback, f);
    SameDecisionIff(r, q.rules, plan.tags, plan.fallback, f);
  }

  // ------------------------------------------------------------ the procedure

  /** The override tables hold exactly the overrides that the tags call for. */
  ghost predicate Materialised(rules: seq<Fields>, tags: seq<Option<string>>, local: map<int, Fields>,
                               quic: map<int, Fields>)
    requires |tags| == |rules|
  {
    && (forall i :: i in local <==> 0 <= i < |rules| && tags[i].Some?)
    && (forall i :: i in local ==> local[i] == LocalRule(rules[i], tags[i].value))
    && (forall i :: i in quic <==> 0 <= i < |rules| && tags[i] == Some(YOUTUBE_TAG) && Portless(rules[i]))
    && (forall i :: i in quic ==> quic[i] == QuicRule(rules[i], YOUTUBE_TAG))
  }

  /** Add one service's overrides to the tables. */
  method Materialise(rules: seq<Fields>, ghost tags: seq<Option<string>>, tag: string, matching: seq<int>,
                     local: map<int, Fields>, quic: map<int, Fields>)
    returns (local': map<int, Fields>, quic': map<int, Fields>, ghost tags': seq<Option<string>>)
    requires |tags| == |rules| && Materialised(rules, tags, local, quic)
    requires forall i :: i in matching ==> 0 <= i < |rules| && tags[i].None?
    ensures |tags'| == |rules| && Materialised(rules, tags', local', quic')
    ensures forall i :: 0 <= i < |rules| ==> tags'[i] == if i in matching then Some(tag) else tags[i]
  {
    local', quic', tags' := local, quic, tags;
    for k := 0 to |matching|
      invariant |tags'| == |rules| && Materialised(rules, tags', local', quic')
      invariant forall i :: 0 <= i < |rules| ==> tags'[i] == if i in matching[..k] then Some(tag) else tags[i]
    {
      var i := matching[k];
      assert i in matching;
      var original := rules[i];
      var localRule := original["outbound" := Text(tag)];
      localRule := localRule["ip_version" := Number(4)];
      local' := local'[i := localRule];
      if tag == "pokrov-local-dpi-youtube" &&
         "network" !in original && "port" !in original && "port_range" !in original {
        var quicRule := original["outbound" := Text(tag)];
        quicRule := quicRule["network" := Text("udp")];
        quicRule := quicRule["port" := Number(443)];
        quic' := quic'[i := quicRule];
      }
      tags' := tags'[i := Some(tag)];
    }
    assert matching[..|matching|] == matching;
  }

  lemma PieceIs(rules: seq<Fields>, tags: seq<Option<string>>, local: map<int, Fields>, quic: map<int, Fields>, k: nat)
    requires |tags| == |rules| && k < |rules| && Materialised(rules, tags, local, quic)
    ensures (if k in quic then [quic[k]] else []) + (if k in local then [local[k]] else []) ==
            Overrides(rules[k], tags[k])
  {
  }

  lemma InsertNext(rules: seq<Fields>, tags: seq<Option<string>>, k: nat)
    requires |tags| == |rules| && k < |rules|
    ensures Insert(rules[..k + 1], tags[..k + 1]) == Insert(rules[..k], tags[..k]) + Expanded(rules[k], tags[k])
  {
    FlattenedSnoc(rules[..k], tags[..k], Expanded, rules[k], tags[k]);
    assert rules[..k + 1] == rules[..k] + [rules[k]] && tags[..k + 1] == tags[..k] + [tags[k]];
  }

  method BuildPiece(rules: seq<Fields>, ghost tags: seq<Option<string>>, local: map<int, Fields>,
                    quic: map<int, Fields>, k: nat)
    returns (piece: seq<Fields>)
    requires |tags| == |rules| && k < |rules| && Materialised(rules, tags, local, quic)
    ensures piece == Expanded(rules[k], tags[k])
  {
    PieceIs(rules, tags, local, quic, k);
    piece := [];
    if k in quic {
      piece := piece + [quic[k]];
    }
    if k in local {
      piece := piece + [local[k]];
    }
    piece := piece + [rules[k]];
  }

  /** Put each rule's overrides right in front of it. */
  method BuildRules(rules: seq<Fields>, ghost tags: seq<Option<string>>, local: map<int, Fields>,
                    quic: map<int, Fields>)
    returns (prepared: seq<Fields>)
    requires |tags| == |rules| && Materialised(rules, tags, local, quic)
    ensures prepared == Insert(rules, tags)
  {
    prepared := [];
    for k := 0 to |rules|
      invariant prepared == Insert(rules[..k], tags[..k])
    {
      var piece := BuildPiece(rules, tags, local, quic, k);
      prepared := prepared + piece;
      InsertNext(rules, tags, k);
    }
    assert rules[..|rules|] == rules && tags[..|tags|] == tags;
  }

  method AcceptFinal(q: Request, g: Graph, checks: Checks) returns (ok: bool)
    ensures ok <==> FinalAccepted(q.mode, q.final, g, checks)
  {
    if q.mode == "selective" {
      return TypeOf(g, q.final) == "direct" && TextAt(g[q.final], "detour") == "";
    }
    var walk := new Walk();
    ok := walk.ProtectedVpn(g, checks, q.final);
    GraphWalk(g, checks, q.final);
  }

  lemma UsedIff(q: Request, id: string, x: Selection)
    requires IsSelection(x, PickerOf(q.catalog, id), q.rules)
    ensures Used(q, id) <==> |x.matching| > 0
    ensures Used(q, id) ==> x.fallback == VpnOf(q, id)
  {
    if |x.matching| > 0 {
      assert x.matching[0] in x.matching;
      assert Picks(PickerOf(q.catalog, id), q.rules[x.matching[0]]);
    }
    if i :| 0 <= i < |q.rules| && Picks(PickerOf(q.catalog, id), q.rules[i]) {
      assert i in x.matching;
    }
  }

  method CheckControl(domains: seq<Domain>, host: string) returns (inScope: bool)
    ensures inScope <==> ControlInScope(domains, host)
  {
    inScope := false;
    for k := 0 to |domains|
      invariant inScope <==> exists i :: 0 <= i < k && domains[i].name == host && domains[i].kind == "exact"
    {
      inScope := inScope || (domains[k].name == host && domains[k].kind == "exact");
    }
  }

  /** One requested service: None when it is refused, otherwise what it selects. */
  method SelectService(q: Request, t: Trust, g: Graph, owners: Owners, id: string, host: string)
    returns (result: Option<Selection>)
    requires "" !in g
    requires forall kind, name :: id != "" ==>
               ((kind, name) in owners && owners[(kind, name)] == id <==> SoleOwner(q.catalog.services, kind, name, id))
    ensures result.Some? <==> ServiceAccepted(q, t, g, id, host)
    ensures result.Some? ==> IsSelection(result.value, PickerOf(q.catalog, id), q.rules)
  {
    var named := Leases.MatchServiceId(id);
    if !named || !t.signed(id, host) {
      return None;
    }
    var tag := "pokrov-local-dpi-" + id;
    if tag in g {
      return None;
    }
    var required := if q.mode == "smart_safe" then Some(q.final) else None;
    result := SelectRules(q.catalog, owners, id, q.rules, g, t.checks, required);
    if result.Some? {
      var x := result.value;
      UsedIff(q, id, x);
      var inScope := CheckControl(x.domains, host);
      if |x.matching| > 0 && !inScope {
        return None;
      }
    }
  }

  /** What has been collected from the services looked at. */
  datatype Progress = Progress(
    outbounds: seq<Fields>, services: seq<Service>, local: map<int, Fields>, quic: map<int, Fields>)

  ghost predicate Reached(q: Request, n: nat, p: Progress)
    requires n <= |q.services|
  {
    && p.outbounds == q.outbounds + AddedOf(q, n).0
    && p.services == AddedOf(q, n).1
    && Materialised(q.rules, PlanOf(q, n).tags, p.local, p.quic)
  }

  /** No earlier service has put a tag on a rule that this one picks. */
  lemma {:induction false} StillUntagged(q: Request, m: nat, n: nat, i: nat)
    requires m <= n < |q.services| && DistinctServices(q) && i < |q.rules|
    requires Picks(PickerOf(q.catalog, q.services[n].0), q.rules[i])
    ensures PlanOf(q, m).tags[i].None?
    decreases m
  {
    if m == 0 {
    } else {
      StillUntagged(q, m - 1, n, i);
      SelectedIsOverridable(q.catalog, q.services[n].0, q.services[m - 1].0, q.rules[i]);
    }
  }

  /** The tables with the overrides of one more service. */
  method AddOverrides(q: Request, n: nat, x: Selection, p: Progress)
    returns (local: map<int, Fields>, quic: map<int, Fields>)
    requires n < |q.services| && DistinctServices(q) && Materialised(q.rules, PlanOf(q, n).tags, p.local, p.quic)
    requires IsSelection(x, PickerOf(q.catalog, q.services[n].0), q.rules)
    ensures Materialised(q.rules, Tagged(q, q.services[n].0, PlanOf(q, n).tags), local, quic)
  {
    var id := q.services[n].0;
    ghost var tags := PlanOf(q, n).tags;
    forall i | i in x.matching ensures 0 <= i < |q.rules| && tags[i].None? {
      StillUntagged(q, n, n, i);
    }
    local, quic, tags := Materialise(q.rules, tags, LocalTag(id), x.matching, p.local, p.quic);
    assert tags == Tagged(q, id, PlanOf(q, n).tags);
  }

  lemma UsedAdds(q: Request, n: nat, x: Selection)
    requires n < |q.services| && Used(q, q.services[n].0) &&
             IsSelection(x, PickerOf(q.catalog, q.services[n].0), q.rules)
    ensures var (id, host) := q.services[n];
            && AddedOf(q, n + 1).0 == AddedOf(q, n).0 + [LocalOutbound(id, q.bindInterface, x.fallback)]
            && AddedOf(q, n + 1).1 == AddedOf(q, n).1 + [Service(id, LocalTag(id), host, x.domains)]
            && PlanOf(q, n + 1).tags == Tagged(q, id, PlanOf(q, n).tags)
  {
    UsedIff(q, q.services[n].0, x);
  }

  method AddService(q: Request, n: nat, x: Selection, p: Progress) returns (p': Progress)
    requires n < |q.services| && DistinctServices(q) && Reached(q, n, p)
    requires IsSelection(x, PickerOf(q.catalog, q.services[n].0), q.rules)
    ensures Reached(q, n + 1, p')
    ensures |p'.services| > 0 <==> |p.services| > 0 || Used(q, q.services[n].0)
  {
    var (id, host) := q.services[n];
    UsedIff(q, id, x);
    if |x.matching| == 0 {
      return p;
    }
    var local, quic := AddOverrides(q, n, x, p);
    UsedAdds(q, n, x);
    var tag := "pokrov-local-dpi-" + id;
    var preferTcp := id == "youtube";
    var added := map["type" := Text("pokrov-local-dpi"), "tag" := Text(tag), "windows_direct" := Bool(true),
                     "bind_interface" := Text(q.bindInterface), "vpn_outbound" := Text(x.fallback),
                     "service_id" := Text(id), "prefer_tcp" := Bool(preferTcp)];
    p' := Progress(p.outbounds + [added], p.services + [Service(id, tag, host, x.domains)], local, quic);
  }

  method CheckHeader(q: Request) returns (ok: bool)
    ensures ok <==> HeaderAccepted(q)
  {
    if q.bindInterface == "" || '\0' in q.bindInterface {
      return false;
    }
    if q.mode != "selective" && q.mode != "smart_safe" {
      return false;
    }
    return |q.services| != 0 && !(|q.services| > 256) && q.endpoints == 0;
  }

  method WriteProfile(q: Request, outbounds: seq<Fields>, rules: seq<Fields>) returns (config: Fields)
    ensures config == ProfileOf(q, outbounds, rules)
  {
    config := q.config["outbounds" := Array(Objects(outbounds))];
    var route := q.route["rules" := Array(Objects(rules))];
    config := config["route" := Object(route)];
    config := config - {"_meta"};
  }

  /** What is prepared from the request: the planned outbounds and overrides, the expiry and the reports. */
  ghost predicate IsPrepared(q: Request, p: Prepared) {
    var (added, services) := AddedOf(q, |q.services|);
    && p.profile == ProfileOf(q, q.outbounds + added, Insert(q.rules, PlanOf(q, |q.services|).tags))
    && p.expiresAt == q.catalog.expiresAt && p.services == services
  }

  /**
   The preparation: refused exactly when the request is not acceptable, and
   otherwise the profile with the planned overrides and outbounds.
   */
  method Prepare(q: Request, t: Trust) returns (result: Option<Prepared>)
    requires DistinctServices(q)
    ensures result.Some? <==> Accepted(q, t)
    ensures result.Some? ==> IsPrepared(q, result.value)
  {
    var header := CheckHeader(q);
    if !header {
      return None;
    }
    var byTag := ByTag(q.outbounds);
    if byTag.None? {
      return None;
    }
    var g := byTag.value;
    var final := AcceptFinal(q, g, t.checks);
    if !final {
      return None;
    }
    var collected := Collect(q, t, g);
    if collected.None? || |collected.value.services| == 0 {
      return None;
    }
    var p := collected.value;
    var rules := BuildRules(q.rules, PlanOf(q, |q.services|).tags, p.local, p.quic);
    var profile := WriteProfile(q, p.outbounds, rules);
    return Some(Prepared(profile, q.catalog.expiresAt, p.services));
  }

  function Objects(list: seq<Fields>): seq<Value> {
    seq(|list|, i requires 0 <= i < |list| => Object(list[i]))
  }

  /** The profile with other outbounds and rules, and without the host's metadata. */
  function ProfileOf(q: Request, outbounds: seq<Fields>, rules: seq<Fields>): Fields {
    var route := q.route["rules" := Array(Objects(rules))];
    q.config["outbounds" := Array(Objects(outbounds))]["route" := Object(route)] - {"_meta"}
  }

  /** A prepared profile has no metadata, and differs from the given one in outbounds and rules only. */
  lemma ProfileKeepsTheRest(q: Request, outbounds: seq<Fields>, rules: seq<Fields>, key: string)
    ensures "_meta" !in ProfileOf(q, outbounds, rules)
    ensures key !in {"outbounds", "route", "_meta"} ==>
              (key in ProfileOf(q, outbounds, rules) <==> key in q.config) &&
              (key in q.config ==> ProfileOf(q, outbounds, rules)[key] == q.config[key])
    ensures EntriesAt(ProfileOf(q, outbounds, rules), "route") - {"rules"} == q.route - {"rules"}
  {
    var route := q.route["rules" := Array(Objects(rules))];
    assert route - {"rules"} == q.route - {"rules"};
    assert ProfileOf(q, outbounds, rules)["route"] == Object(route);
  }

  /** All requested services in turn; None as soon as one is refused. */
  method Collect(q: Request, t: Trust, g: Graph) returns (result: Option<Progress>)
    requires DistinctServices(q) && "" !in g
    ensures result.Some? <==> ServicesAccepted(q, t, g, |q.services|)
    ensures result.Some? ==> Reached(q, |q.services|, result.value)
    ensures result.Some? ==> (|result.value.services| > 0 <==> SomeUsed(q, |q.services|))
  {
    var owners := DomainOwners(q.catalog.services);
    var p := Progress(q.outbounds, [], map[], map[]);
    for n := 0 to |q.services|
      invariant ServicesAccepted(q, t, g, n) && Reached(q, n, p)
      invariant |p.services| > 0 <==> SomeUsed(q, n)
    {
      var (id, host) := q.services[n];
      var selected := SelectService(q, t, g, owners, id, host);
      if selected.None? {
        return None;
      }
      p := AddService(q, n, selected.value, p);
    }
    return Some(p);
  }
}
