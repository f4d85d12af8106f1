/**
 Which rules of a profile a catalog service selects for local DPI: the service must
 be the only one that lists the rule's single domain, and the rule must be the
 service's own unleased, current, IPv4-capable catalog rule.
 */
module DpiSelection {
  import opened Wrappers
  import opened Json
  import opened DpiGraph
  import opened DpiRouting

  datatype Domain = Domain(name: string, kind: string, shared: bool)

  datatype Signed = Signed(serviceId: string, domains: seq<Domain>)

  /** The signed catalog and the validity window the rules must carry. */
  datatype Catalog = Catalog(issuedAt: string, expiresAt: string, services: seq<Signed>)

  // ------------------------------------------------------------------ owners

  predicate Lists(s: Signed, kind: string, name: string) {
    exists j :: 0 <= j < |s.domains| && s.domains[j].kind == kind && s.domains[j].name == name
  }

  /** The service is the only one in the catalog that lists the domain. */
  predicate SoleOwner(services: seq<Signed>, kind: string, name: string, id: string) {
    && (exists i :: 0 <= i < |services| && Lists(services[i], kind, name))
    && (forall i :: 0 <= i < |services| && Lists(services[i], kind, name) ==> services[i].serviceId == id)
  }

  type Identity = (string, string)

  type Owners = map<Identity, string>

  /** The first lister owns a domain, a different one makes it nobody's. */
  function Claimed(m: Owners, key: Identity, id: string): Owners {
    if key !in m then m[key := id] else if m[key] != id then m[key := ""] else m
  }

  /** The table is the summary of a set of claims. */
  ghost predicate Summarises(m: Owners, claims: set<(Identity, string)>) {
    && (forall key, id :: (key, id) in claims ==> key in m)
    && (forall key :: key in m ==> exists id :: (key, id) in claims)
    && (forall key, a, b :: (key, a) in claims && (key, b) in claims && a != b ==> m[key] == "")
    && (forall key, a :: (key, a) in claims && m[key] != a ==> exists b :: (key, b) in claims && b != a)
  }

  lemma ClaimSummarised(m: Owners, claims: set<(Identity, string)>, key: Identity, id: string)
    requires Summarises(m, claims)
    ensures Summarises(Claimed(m, key, id), claims + {(key, id)})
  {
    var m', claims' := Claimed(m, key, id), claims + {(key, id)};
    forall k | k in m' ensures exists x :: (k, x) in claims' {
      if k == key {
        assert (k, id) in claims';
      } else {
        var x :| (k, x) in claims;
        assert (k, x) in claims';
      }
    }
    forall k, a | (k, a) in claims' && m'[k] != a ensures exists b :: (k, b) in claims' && b != a {
      if k == key && key in m {
        var x :| (key, x) in claims;
        assert (key, x) in claims' && (key, id) in claims';
        if x == a && id == a {
          assert m[key] != a;
          var b :| (key, b) in claims && b != a;
          assert (key, b) in claims';
        }
      } else {
        if (k, a) in claims && k != key {
          var b :| (k, b) in claims && b != a;
          assert (k, b) in claims';
        }
      }
    }
  }

  ghost predicate ClaimsOf(claims: set<(Identity, string)>, services: seq<Signed>) {
    forall key: Identity, id :: (key, id) in claims <==>
      exists i :: 0 <= i < |services| && services[i].serviceId == id && Lists(services[i], key.0, key.1)
  }

  /** Ownership is read from the whole catalog. */
  method DomainOwners(services: seq<Signed>) returns (m: Owners)
    ensures forall kind, name, id :: id != "" ==>
              ((kind, name) in m && m[(kind, name)] == id <==> SoleOwner(services, kind, name, id))
  {
    m := map[];
    ghost var claims: set<(Identity, string)> := {};
    for k := 0 to |services|
      invariant Summarises(m, claims) && ClaimsOf(claims, services[..k])
    {
      var s := services[k];
      ghost var before := claims;
      for j := 0 to |s.domains|
        invariant Summarises(m, claims)
        invariant forall key: Identity, id :: (key, id) in claims <==>
                    (key, id) in before || (id == s.serviceId && Lists(s.(domains := s.domains[..j]), key.0, key.1))
      {
        var key := (s.domains[j].kind, s.domains[j].name);
        ClaimSummarised(m, claims, key, s.serviceId);
        m := Claimed(m, key, s.serviceId);
        claims := claims + {(key, s.serviceId)};
        ListsGrows(s, j);
      }
      assert s.(domains := s.domains[..|s.domains|]) == s;
      ClaimsGrow(before, claims, services, k);
    }
    assert services[..|services|] == services;
    forall kind, name, id | id != ""
      ensures (kind, name) in m && m[(kind, name)] == id <==> SoleOwner(services, kind, name, id)
    {
      OwnersTell(m, claims, services, kind, name, id);
    }
  }

  lemma ListsGrows(s: Signed, j: nat)
    requires j < |s.domains|
    ensures forall kind, name :: Lists(s.(domains := s.domains[..j + 1]), kind, name) <==>
              Lists(s.(domains := s.domains[..j]), kind, name) ||
              (s.domains[j].kind == kind && s.domains[j].name == name)
  {
    var a, b := s.(domains := s.domains[..j]), s.(domains := s.domains[..j + 1]);
    forall kind, name
      ensures Lists(b, kind, name) <==> Lists(a, kind, name) || (s.domains[j].kind == kind && s.domains[j].name == name)
    {
      if i :| 0 <= i < |b.domains| && b.domains[i].kind == kind && b.domains[i].name == name {
        assert i < j ==> a.domains[i] == b.domains[i];
      }
      if i :| 0 <= i < |a.domains| && a.domains[i].kind == kind && a.domains[i].name == name {
        assert b.domains[i] == a.domains[i];
      }
      assert b.domains[j] == s.domains[j];
    }
  }

  lemma ClaimsGrow(before: set<(Identity, string)>, after: set<(Identity, string)>, services: seq<Signed>, k: nat)
    requires k < |services| && ClaimsOf(before, services[..k])
    requires forall key: Identity, id :: (key, id) in after <==>
               (key, id) in before || (id == services[k].serviceId && Lists(services[k], key.0, key.1))
    ensures ClaimsOf(after, services[..k + 1])
  {
    var a, b := services[..k], services[..k + 1];
    assert b[k] == services[k] && forall i :: 0 <= i < k ==> b[i] == a[i];
    forall key: Identity, id
      ensures (key, id) in after <==> exists i :: 0 <= i < |b| && b[i].serviceId == id && Lists(b[i], key.0, key.1)
    {
      if (key, id) in before {
        var i :| 0 <= i < |a| && a[i].serviceId == id && Lists(a[i], key.0, key.1);
        assert b[i] == a[i];
      }
      if i :| 0 <= i < |b| && b[i].serviceId == id && Lists(b[i], key.0, key.1) {
        assert i < k ==> a[i] == b[i];
      }
    }
  }

  lemma OwnersTell(m: Owners, claims: set<(Identity, string)>, services: seq<Signed>, kind: string, name: string,
                   id: string)
    requires Summarises(m, claims) && ClaimsOf(claims, services) && id != ""
    ensures (kind, name) in m && m[(kind, name)] == id <==> SoleOwner(services, kind, name, id)
  {
    var key: Identity := (kind, name);
    if key in m && m[key] == id {
      var x :| (key, x) in claims;
      assert x == id;
      forall i | 0 <= i < |services| && Lists(services[i], kind, name) ensures services[i].serviceId == id {
        assert (key, services[i].serviceId) in claims;
      }
    }
    if SoleOwner(services, kind, name, id) {
      var i :| 0 <= i < |services| && Lists(services[i], kind, name);
      assert (key, id) in claims;
      assert m[key] == id;
    }
  }

  // --------------------------------------------------------------- selection

  /** Decoding the window into an object; a null decodes to an empty one. */
  function WindowOf(rule: Fields): Option<Fields> {
    if "pokrov_catalog_window" !in rule then None
    else match rule["pokrov_catalog_window"]
      case Null => Some(map[])
      case Object(fields) => Some(fields)
      case _ => None
  }

  predicate CurrentWindow(c: Catalog, id: string, rule: Fields) {
    var w := WindowOf(rule);
    && w.Some?
    && TextAt(w.value, "service_id") == id
    && TextAt(w.value, "issued_at") == c.issuedAt && TextAt(w.value, "expires_at") == c.expiresAt
    && "lease_id" !in w.value && "lease_group" !in w.value
  }

  predicate NoOtherAddresses(rule: Fields) {
    "domain_regex" !in rule && "domain_keyword" !in rule && "ip_cidr" !in rule && "ip_is_private" !in rule &&
    "rule_set" !in rule
  }

  predicate Uninverted(rule: Fields) {
    FlagAt(rule, "invert") == Some(false)
  }

  predicate CatalogRule(c: Catalog, id: string, rule: Fields) {
    && CurrentWindow(c, id, rule)
    && TextAt(rule, "action") == "route"
    && Ipv4OrAny(rule)
    && Uninverted(rule)
    && NoOtherAddresses(rule)
  }

  /** The rule's only domain is this one, exact or as a suffix. */
  predicate NamesDomain(rule: Fields, d: Domain) {
    var suffix := d.kind == "suffix";
    var key, other := if suffix then "domain_suffix" else "domain", if suffix then "domain" else "domain_suffix";
    other !in rule && TextsAt(rule, key) == Some([d.name])
  }

  predicate DomainSelects(c: Catalog, id: string, rule: Fields, d: Domain) {
    !d.shared && SoleOwner(c.services, d.kind, d.name, id) && NamesDomain(rule, d)
  }

  /** The domains of the first catalog entry for the service. */
  function DomainsOf(services: seq<Signed>, id: string): seq<Domain> {
    if |services| == 0 then []
    else if services[0].serviceId == id then services[0].domains
    else DomainsOf(services[1..], id)
  }

  function Hits(c: Catalog, id: string, rule: Fields, ds: seq<Domain>): seq<Domain> {
    if |ds| == 0 then []
    else
      Hits(c, id, rule, ds[..|ds| - 1]) +
      (if DomainSelects(c, id, rule, ds[|ds| - 1]) then [ds[|ds| - 1]] else [])
  }

  /** The domains for which the service selects the rule. */
  function SelectedBy(c: Catalog, id: string, rule: Fields): seq<Domain> {
    if CatalogRule(c, id, rule) then Hits(c, id, rule, DomainsOf(c.services, id)) else []
  }

  predicate Selects(c: Catalog, id: string, rule: Fields) {
    |SelectedBy(c, id, rule)| > 0
  }

  /** A selected rule can be overridden, and belongs to one service only. */
  lemma SelectedIsOverridable(c: Catalog, id: string, id': string, rule: Fields)
    requires Selects(c, id, rule)
    ensures Overridable(rule)
    ensures Selects(c, id', rule) ==> id == id'
  {
  }

  method FirstDomains(services: seq<Signed>, id: string) returns (ds: seq<Domain>)
    ensures ds == DomainsOf(services, id)
  {
    ds := [];
    var k := 0;
    while k < |services|
      invariant 0 <= k <= |services|
      invariant DomainsOf(services, id) == DomainsOf(services[k..], id)
    {
      if services[k].serviceId == id {
        ds := services[k].domains;
        return;
      }
      assert services[k..][1..] == services[k + 1..];
      k := k + 1;
    }
  }

  // ------------------------------------------------ one service over all rules

  /** The domains a service picks a rule for, and whether the rule may fall back. */
  type Picker = Fields -> seq<Domain>

  function PickerOf(c: Catalog, id: string): Picker {
    rule => SelectedBy(c, id, rule)
  }

  predicate Picks(pick: Picker, rule: Fields) {
    |pick(rule)| > 0
  }

  function AllPicked(pick: Picker, rules: seq<Fields>): seq<Domain> {
    if |rules| == 0 then [] else AllPicked(pick, rules[..|rules| - 1]) + pick(rules[|rules| - 1])
  }

  /** The protected VPN that a rule routes to, when the mode allows it. */
  ghost predicate FallbackAllowed(g: Graph, checks: Checks, required: Option<string>, vpn: string) {
    ProtectedVpn(g, checks, vpn) && (required.Some? ==> vpn == required.value)
  }

  /** All picked rules may fall back, and to the same outbound. */
  ghost predicate OneFallback(pick: Picker, rules: seq<Fields>, allowed: string -> bool) {
    && (forall i :: 0 <= i < |rules| && Picks(pick, rules[i]) ==> allowed(TextAt(rules[i], "outbound")))
    && (forall i, j :: 0 <= i < |rules| && 0 <= j < |rules| && Picks(pick, rules[i]) && Picks(pick, rules[j]) ==>
          TextAt(rules[i], "outbound") == TextAt(rules[j], "outbound"))
  }

  datatype Selection = Selection(matching: seq<int>, fallback: string, domains: seq<Domain>)

  ghost predicate IsSelection(x: Selection, pick: Picker, rules: seq<Fields>) {
    && (forall i :: i in x.matching <==> 0 <= i < |rules| && Picks(pick, rules[i]))
    && x.domains == AllPicked(pick, rules)
    && (forall i :: i in x.matching ==> TextAt(rules[i], "outbound") == x.fallback)
    && (x.fallback != "" ==> |x.matching| > 0)
  }

  lemma RefusedRule(x: Selection, pick: Picker, rules: seq<Fields>, k: nat, allowed: string -> bool)
    requires k < |rules| && IsSelection(x, pick, rules[..k]) && Picks(pick, rules[k])
    requires var vpn := TextAt(rules[k], "outbound"); !allowed(vpn) || (x.fallback != "" && x.fallback != vpn)
    ensures !OneFallback(pick, rules, allowed)
  {
    if allowed(TextAt(rules[k], "outbound")) {
      var i := x.matching[0];
      assert i in x.matching;
      assert rules[..k][i] == rules[i];
    }
  }

  lemma AddedRule(x: Selection, pick: Picker, rules: seq<Fields>, k: nat, allowed: string -> bool)
    requires k < |rules| && IsSelection(x, pick, rules[..k]) && Picks(pick, rules[k]) && !allowed("")
    requires OneFallback(pick, rules[..k], allowed) && allowed(TextAt(rules[k], "outbound"))
    requires x.fallback == "" || x.fallback == TextAt(rules[k], "outbound")
    ensures var more := Selection(x.matching + [k], TextAt(rules[k], "outbound"), x.domains + pick(rules[k]));
            IsSelection(more, pick, rules[..k + 1])
    ensures OneFallback(pick, rules[..k + 1], allowed)
  {
    var before, after := rules[..k], rules[..k + 1];
    assert after[..k] == before && after[k] == rules[k];
    assert forall i :: 0 <= i < k ==> after[i] == before[i];
    forall i | 0 <= i < k && Picks(pick, before[i])
      ensures TextAt(before[i], "outbound") == TextAt(rules[k], "outbound")
    {
      assert i in x.matching;
    }
  }

  lemma SkippedRule(x: Selection, pick: Picker, rules: seq<Fields>, k: nat, allowed: string -> bool)
    requires k < |rules| && IsSelection(x, pick, rules[..k]) && !Picks(pick, rules[k])
    requires OneFallback(pick, rules[..k], allowed)
    ensures IsSelection(x, pick, rules[..k + 1]) && OneFallback(pick, rules[..k + 1], allowed)
  {
    var before, after := rules[..k], rules[..k + 1];
    assert after[..k] == before && after[k] == rules[k];
    assert forall i :: 0 <= i < k ==> after[i] == before[i];
  }

  /** The rule's own catalog window, action and criteria let it be overridden for the service. */
  method IsCandidate(c: Catalog, id: string, rule: Fields) returns (ok: bool)
    ensures ok <==> CatalogRule(c, id, rule)
  {
    if "pokrov_catalog_window" !in rule {
      return false;
    }
    var raw := rule["pokrov_catalog_window"];
    if !raw.Object? && !raw.Null? {
      return false;
    }
    var window := Entries(raw);
    if TextAt(window, "service_id") != id || TextAt(rule, "action") != "route" ||
       TextAt(window, "issued_at") != c.issuedAt || TextAt(window, "expires_at") != c.expiresAt {
      return false;
    }
    if "lease_id" in window || "lease_group" in window {
      return false;
    }
    if "ip_version" in rule {
      var version := rule["ip_version"];
      if !version.Null? && version != Number(0) && version != Number(4) {
        return false;
      }
    }
    if "invert" in rule {
      var invert := rule["invert"];
      if !invert.Null? && invert != Bool(false) {
        return false;
      }
    }
    return "domain_regex" !in rule && "domain_keyword" !in rule && "ip_cidr" !in rule &&
           "ip_is_private" !in rule && "rule_set" !in rule;
  }

  method NamesOnly(rule: Fields, d: Domain) returns (ok: bool)
    ensures ok <==> NamesDomain(rule, d)
  {
    var key, other := "domain", "domain_suffix";
    if d.kind == "suffix" {
      key, other := other, key;
    }
    if other in rule {
      return false;
    }
    var names := TextsAt(rule, key);
    ok := names.Some? && |names.value| == 1 && names.value[0] == d.name;
    assert ok ==> names.value == [d.name];
  }

  method HitDomains(c: Catalog, owners: Owners, id: string, rule: Fields, ds: seq<Domain>) returns (hits: seq<Domain>)
    requires id != ""
    requires forall kind, name :: (kind, name) in owners && owners[(kind, name)] == id <==>
               SoleOwner(c.services, kind, name, id)
    ensures hits == Hits(c, id, rule, ds)
  {
    hits := [];
    for j := 0 to |ds|
      invariant hits == Hits(c, id, rule, ds[..j])
    {
      var d := ds[j];
      assert ds[..j + 1][..j] == ds[..j];
      var owned := (d.kind, d.name) in owners && owners[(d.kind, d.name)] == id;
      assert owned <==> SoleOwner(c.services, d.kind, d.name, id);
      var named := NamesOnly(rule, d);
      if !d.shared && owned && named {
        hits := hits + [d];
      }
    }
    assert ds[..|ds|] == ds;
  }

  ghost function AllowedIn(g: Graph, checks: Checks, required: Option<string>): string -> bool {
    vpn => FallbackAllowed(g, checks, required, vpn)
  }

  /** One service against all rules; None when a selected rule has no acceptable common fallback. */
  method SelectRules(c: Catalog, owners: Owners, id: string, rules: seq<Fields>, g: Graph, checks: Checks,
                     required: Option<string>)
    returns (result: Option<Selection>)
    requires id != "" && "" !in g
    requires forall kind, name :: (kind, name) in owners && owners[(kind, name)] == id <==>
               SoleOwner(c.services, kind, name, id)
    ensures result.Some? <==> OneFallback(PickerOf(c, id), rules, AllowedIn(g, checks, required))
    ensures result.Some? ==> IsSelection(result.value, PickerOf(c, id), rules)
  {
    ghost var pick, allowed := PickerOf(c, id), AllowedIn(g, checks, required);
    if ProtectedVpn(g, checks, "") {
      ProtectedIsKnown(g, checks, "");
    }
    var domains := FirstDomains(c.services, id);
    var x := Selection([], "", []);
    for k := 0 to |rules|
      invariant IsSelection(x, pick, rules[..k]) && OneFallback(pick, rules[..k], allowed)
    {
      var hits: seq<Domain> := [];
      var candidate := IsCandidate(c, id, rules[k]);
      if candidate {
        hits := HitDomains(c, owners, id, rules[k], domains);
      }
      assert hits == pick(rules[k]);
      if |hits| > 0 {
        var vpn := TextAt(rules[k], "outbound");
        var walk := new Walk();
        var protected := walk.ProtectedVpn(g, checks, vpn);
        GraphWalk(g, checks, vpn);
        assert allowed(vpn) <==> protected && (required.Some? ==> vpn == required.value);
        if !protected || (x.fallback != "" && x.fallback != vpn) || (required.Some? && vpn != required.value) {
          RefusedRule(x, pick, rules, k, allowed);
          return None;
        }
        AddedRule(x, pick, rules, k, allowed);
        x := Selection(x.matching + [k], vpn, x.domains + hits);
      } else {
        SkippedRule(x, pick, rules, k, allowed);
      }
    }
    assert rules[..|rules|] == rules;
    return Some(x);
  }

  lemma ProtectedIsKnown(g: Graph, checks: Checks, tag: string)
    requires ProtectedVpn(g, checks, tag)
    ensures tag in g
  {
    var n: nat :| Within(NeedOf(g, checks), n, tag);
  }
}
