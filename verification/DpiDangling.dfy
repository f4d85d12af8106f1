/**
 A profile whose own rule names a tag that only the preparation adds: it is accepted, and
 the flows of that rule are decided differently afterwards.
 */
module DpiDangling {
  import opened Wrappers
  import opened Json
  import opened DpiGraph
  import opened DpiRouting
  import opened DpiSelection
  import opened DpiPrepare

  const ID := "example"
  const HOST := "example.com"
  const VPN := "vpn"
  const DIRECT := "direct"
  const ISSUED := "2026-01-01T00:00:00Z"
  const EXPIRES := "2026-02-01T00:00:00Z"

  const DOMAIN := Domain(HOST, "exact", false)

  const CATALOG := Catalog(ISSUED, EXPIRES, [Signed(ID, [DOMAIN])])

  const WINDOW: Fields := map["service_id" := Text(ID), "issued_at" := Text(ISSUED), "expires_at" := Text(EXPIRES)]

  const CATALOG_RULE: Fields :=
    map["action" := Text("route"), "domain" := Array([Text(HOST)]), "outbound" := Text(VPN),
        "pokrov_catalog_window" := Object(WINDOW)]

  /** Routes all UDP to a tag that no outbound of the profile has. */
  const DANGLING_RULE: Fields := map["network" := Text("udp"), "outbound" := Text(LocalTag(ID))]

  const RULES: seq<Fields> := [CATALOG_RULE, DANGLING_RULE]

  const OUTBOUNDS: seq<Fields> :=
    [map["tag" := Text(DIRECT), "type" := Text("direct")], map["tag" := Text(VPN), "type" := Text("hysteria2")]]

  const REQUEST := Request("selective", CATALOG, [(ID, HOST)], OUTBOUNDS, DIRECT, RULES, "eth", 0, map[], map[])

  lemma DomainIsSelected()
    ensures DomainSelects(CATALOG, ID, CATALOG_RULE, DOMAIN)
  {
    var services := CATALOG.services;
    assert services[0].domains[0] == DOMAIN;
    assert Lists(services[0], "exact", HOST);
    var names := TextsAt(CATALOG_RULE, "domain");
    assert names.Some? && |names.value| == 1 && names.value[0] == HOST;
    assert names.value == [HOST];
  }

  lemma CatalogRuleIsPicked()
    ensures SelectedBy(CATALOG, ID, CATALOG_RULE) == [DOMAIN]
  {
    DomainIsSelected();
    assert WINDOW == WindowOf(CATALOG_RULE).value;
    assert CatalogRule(CATALOG, ID, CATALOG_RULE);
    var ds := DomainsOf(CATALOG.services, ID);
    assert ds == [DOMAIN] && ds[..0] == [];
    assert Hits(CATALOG, ID, CATALOG_RULE, ds[..0]) == [];
  }

  lemma DanglingRuleIsNotPicked()
    ensures SelectedBy(CATALOG, ID, DANGLING_RULE) == []
  {
    assert TextAt(DANGLING_RULE, "action") == "";
  }

  lemma Picked(i: nat)
    requires i < |RULES|
    ensures Picks(PickerOf(CATALOG, ID), RULES[i]) <==> i == 0
    ensures Picks(PickerOf(CATALOG, ID), RULES[i]) ==> TextAt(RULES[i], "outbound") == VPN
  {
    CatalogRuleIsPicked();
    DanglingRuleIsNotPicked();
  }

  lemma IsUsed()
    ensures Used(REQUEST, ID) && VpnOf(REQUEST, ID) == VPN
  {
    Picked(0);
    Picked(1);
    assert Picks(PickerOf(CATALOG, ID), RULES[0]);
  }

  lemma OutboundsAreTagged()
    ensures WellTagged(OUTBOUNDS)
    ensures var g := GraphOf(OUTBOUNDS);
            g.Keys == {DIRECT, VPN} && g[DIRECT] == OUTBOUNDS[0] && g[VPN] == OUTBOUNDS[1]
  {
    assert TagAt(OUTBOUNDS[0]) == DIRECT && TagAt(OUTBOUNDS[1]) == VPN;
    var g := GraphOf(OUTBOUNDS);
    assert TagAt(OUTBOUNDS[0]) in g && TagAt(OUTBOUNDS[1]) in g;
  }

  lemma VpnIsProtected(checks: Checks)
    ensures WellTagged(OUTBOUNDS) && ProtectedVpn(GraphOf(OUTBOUNDS), checks, VPN)
  {
    OutboundsAreTagged();
    var g := GraphOf(OUTBOUNDS);
    var need := NeedOf(g, checks);
    assert TextAt(g[VPN], "type") == "hysteria2" && TextAt(g[VPN], "detour") == "";
    assert OwnDemand(checks, g[VPN]) == Some([]);
    assert need(VPN) == Some([] + []);
    assert Within(need, 1, VPN);
  }

  lemma LocalTagIsNew()
    ensures LocalTag(ID) != DIRECT && LocalTag(ID) != VPN
  {
    assert |LocalTag(ID)| > 1;
  }

  lemma HasOneFallback(allowed: string -> bool)
    requires allowed(VPN)
    ensures OneFallback(PickerOf(CATALOG, ID), RULES, allowed)
  {
    var pick := PickerOf(CATALOG, ID);
    forall i | 0 <= i < |RULES| && Picks(pick, RULES[i]) ensures TextAt(RULES[i], "outbound") == VPN {
      Picked(i);
    }
  }

  lemma ControlIsInScope()
    ensures ControlInScope(AllPicked(PickerOf(CATALOG, ID), RULES), HOST)
  {
    CatalogRuleIsPicked();
    DanglingRuleIsNotPicked();
    var pick := PickerOf(CATALOG, ID);
    var one := RULES[..1];
    assert one[..0] == [] && AllPicked(pick, one[..0]) == [];
    assert AllPicked(pick, one) == [DOMAIN];
    assert AllPicked(pick, RULES) == [DOMAIN];
    assert [DOMAIN][0] == DOMAIN;
  }

  lemma ServiceIsAccepted(t: Trust, g: Graph)
    requires t.signed(ID, HOST) && LocalTag(ID) !in g && ProtectedVpn(g, t.checks, VPN)
    ensures ServiceAccepted(REQUEST, t, g, ID, HOST)
  {
    HasOneFallback(AllowedIn(g, t.checks, Required(REQUEST)));
    ControlIsInScope();
  }

  lemma FinalIsAccepted(checks: Checks)
    ensures WellTagged(OUTBOUNDS) && FinalAccepted("selective", DIRECT, GraphOf(OUTBOUNDS), checks)
  {
    OutboundsAreTagged();
    assert TextAt(OUTBOUNDS[0], "type") == "direct";
  }

  lemma IsAccepted(t: Trust)
    requires t.signed(ID, HOST)
    ensures Accepted(REQUEST, t)
  {
    HeaderIsAccepted();
    FinalIsAccepted(t.checks);
    OutboundsAreTagged();
    VpnIsProtected(t.checks);
    LocalTagIsNew();
    ServicesAreAccepted(t, GraphOf(OUTBOUNDS));
  }

  lemma HeaderIsAccepted()
    ensures HeaderAccepted(REQUEST)
  {
  }

  lemma ServicesAreAccepted(t: Trust, g: Graph)
    requires t.signed(ID, HOST) && LocalTag(ID) !in g && ProtectedVpn(g, t.checks, VPN)
    ensures ServicesAccepted(REQUEST, t, g, 1) && SomeUsed(REQUEST, 1)
  {
    ServiceIsAccepted(t, g);
    IsUsed();
    var services := REQUEST.services;
    assert services[0] == (ID, HOST) && Used(REQUEST, services[0].0);
  }

  lemma PlanNamesTheTag()
    ensures PlanOf(REQUEST, 1).fallback == map[LocalTag(ID) := VPN]
  {
    IsUsed();
    assert REQUEST.services[0] == (ID, HOST);
    assert PlanOf(REQUEST, 0).fallback == map[];
  }

  lemma TwoRoutes<F>(r: Router<F>, first: Fields, second: Fields, f: F)
    requires IsRoute(first) && IsRoute(second)
    ensures Decide(r, [first, second], f) ==
            if RuleMatches(r, first, f) then Routed(TextAt(first, "outbound"), RouteOptions(first))
            else if RuleMatches(r, second, f) then Routed(TextAt(second, "outbound"), RouteOptions(second))
            else FallThrough
  {
    var rules := [first, second];
    assert rules[1..] == [second] && [second][1..] == [];
    assert Decide(r, [], f) == FallThrough;
    assert Decide(r, [second], f) ==
           if RuleMatches(r, second, f) then Routed(TextAt(second, "outbound"), RouteOptions(second)) else FallThrough;
  }

  lemma OriginalDecision<F>(r: Router<F>, f: F)
    ensures Decide(r, RULES, f) ==
            if RuleMatches(r, CATALOG_RULE, f) then Routed(VPN, RouteOptions(CATALOG_RULE))
            else if RuleMatches(r, DANGLING_RULE, f) then Routed(LocalTag(ID), RouteOptions(DANGLING_RULE))
            else FallThrough
  {
    assert IsRoute(CATALOG_RULE) && TextAt(CATALOG_RULE, "outbound") == VPN;
    assert IsRoute(DANGLING_RULE) && TextAt(DANGLING_RULE, "outbound") == LocalTag(ID);
    TwoRoutes(r, CATALOG_RULE, DANGLING_RULE, f);
  }

  /**
   An accepted request. Under every regular router the prepared profile, read with the added outbound
   as its VPN, makes the original decision on all flows but those that only the dangling rule takes.
   */
  lemma DanglingRuleChangesDecision<F(!new)>(t: Trust, r: Router<F>, f: F)
    requires t.signed(ID, HOST) && Regular(r)
    ensures Accepted(REQUEST, t) && DistinctServices(REQUEST)
    ensures var plan := PlanOf(REQUEST, 1);
            AsVpn(plan.fallback, Decide(r, Insert(RULES, plan.tags), f)) != Decide(r, RULES, f) <==>
            !RuleMatches(r, CATALOG_RULE, f) && RuleMatches(r, DANGLING_RULE, f)
  {
    IsAccepted(t);
    PlanNamesTheTag();
    LocalTagIsNew();
    OriginalDecision(r, f);
    PreparationPreservesRouting(REQUEST, t, r, f);
  }
}
