/**
 Matching one routing rule against a flow, criterion by criterion, as the router does: proved to be the meaning
 of rules that DpiRouting's theorems are about.
 */
module DpiMatching {
  import opened Json
  import opened DpiRouting

  /** The list of the compiled rule that a criterion is kept in. */
  method Classify(key: string) returns (g: Group)
    ensures g == GroupOf(key)
  {
    if key == "source_ip_cidr" || key == "source_ip_is_private" {
      return SourceAddress;
    }
    if key == "source_port" || key == "source_port_range" {
      return SourcePort;
    }
    if key == "domain" || key == "domain_suffix" || key == "domain_keyword" || key == "domain_regex" ||
       key == "ip_cidr" || key == "ip_is_private" {
      return DestinationAddress;
    }
    if key == "port" || key == "port_range" {
      return DestinationPort;
    }
    return Single;
  }

  /** Some criterion of the group is among these keys. */
  ghost predicate Has<F>(r: Router<F>, rule: Fields, keys: set<string>, g: Group) {
    exists key :: key in keys && key in rule && GroupOf(key) == g && Effective(r, rule, key)
  }

  /** Some criterion of the group is among these keys and holds. */
  ghost predicate Meets<F>(r: Router<F>, rule: Fields, keys: set<string>, g: Group, f: F) {
    exists key :: key in keys && key in rule && GroupOf(key) == g && Holds(r, rule, key, f)
  }

  /** Every single criterion among these keys holds. */
  ghost predicate AllHold<F>(r: Router<F>, rule: Fields, keys: set<string>, f: F) {
    forall key :: key in keys && key in rule && GroupOf(key) == Single && Effective(r, rule, key) ==>
      Holds(r, rule, key, f)
  }

  lemma OneMore<F>(r: Router<F>, rule: Fields, keys: set<string>, key: string, g: Group, f: F)
    requires key in rule
    ensures Has(r, rule, keys + {key}, g) <==>
            Has(r, rule, keys, g) || (GroupOf(key) == g && Effective(r, rule, key))
    ensures Meets(r, rule, keys + {key}, g, f) <==>
            Meets(r, rule, keys, g, f) || (GroupOf(key) == g && Holds(r, rule, key, f))
    ensures AllHold(r, rule, keys + {key}, f) <==>
            AllHold(r, rule, keys, f) && (GroupOf(key) == Single && Effective(r, rule, key) ==> Holds(r, rule, key, f))
  {
    if k :| k in keys && k in rule && GroupOf(k) == g && Effective(r, rule, k) {
      assert k in keys + {key};
    }
    if k :| k in keys && k in rule && GroupOf(k) == g && Holds(r, rule, k, f) {
      assert k in keys + {key};
    }
    if GroupOf(key) == g {
      assert key in keys + {key};
    }
  }

  lemma AllSeen<F>(r: Router<F>, rule: Fields, g: Group, f: F)
    ensures GroupHolds(r, rule, g, f) <==> (Has(r, rule, rule.Keys, g) ==> Meets(r, rule, rule.Keys, g, f))
    ensures SinglesHold(r, rule, f) <==> AllHold(r, rule, rule.Keys, f)
  {
    if key :| key in rule && GroupOf(key) == g && Effective(r, rule, key) {
      assert key in rule.Keys;
    }
    if key :| key in rule && GroupOf(key) == g && Holds(r, rule, key, f) {
      assert key in rule.Keys;
    }
  }

  /** The groups that a rule has criteria of, and those of which one holds, whatever order they are visited in. */
  method Collect<F>(r: Router<F>, rule: Fields, f: F)
    returns (any: bool, singles: bool, needed: set<Group>, satisfied: set<Group>)
    ensures any <==> exists key :: key in rule.Keys && Effective(r, rule, key)
    ensures singles <==> AllHold(r, rule, rule.Keys, f)
    ensures forall g :: g in needed <==> Has(r, rule, rule.Keys, g)
    ensures forall g :: g in satisfied <==> Meets(r, rule, rule.Keys, g, f)
  {
    var left := rule.Keys;
    any, singles, needed, satisfied := false, true, {}, {};
    while left != {}
      invariant left <= rule.Keys
      invariant any <==> exists key :: key in rule.Keys - left && Effective(r, rule, key)
      invariant singles <==> AllHold(r, rule, rule.Keys - left, f)
      invariant forall g :: g in needed <==> Has(r, rule, rule.Keys - left, g)
      invariant forall g :: g in satisfied <==> Meets(r, rule, rule.Keys - left, g, f)
      decreases |left|
    {
      var key :| key in left;
      ghost var seen := rule.Keys - left;
      left := left - {key};
      assert rule.Keys - left == seen + {key};
      forall g {
        OneMore(r, rule, seen, key, g, f);
      }
      if !r.vacuous(key, rule[key]) {
        var g := Classify(key);
        any, needed := true, needed + {g};
        if r.criterion(key, rule[key], f) {
          satisfied := satisfied + {g};
        } else if g == Single {
          singles := false;
        }
      }
    }
    assert rule.Keys - left == rule.Keys;
  }

  /** Single criteria all hold, and one of every group that there is. */
  method Evaluate<F>(r: Router<F>, rule: Fields, f: F) returns (any: bool, matched: bool)
    ensures any <==> exists key :: key in rule && Effective(r, rule, key)
    ensures matched <==> CriteriaHold(r, rule, f)
  {
    var singles, needed, satisfied;
    any, singles, needed, satisfied := Collect(r, rule, f);
    AllSeen(r, rule, SourceAddress, f);
    AllSeen(r, rule, SourcePort, f);
    AllSeen(r, rule, DestinationAddress, f);
    AllSeen(r, rule, DestinationPort, f);
    matched := singles && (SourceAddress in needed ==> SourceAddress in satisfied) &&
               (SourcePort in needed ==> SourcePort in satisfied) &&
               (DestinationAddress in needed ==> DestinationAddress in satisfied) &&
               (DestinationPort in needed ==> DestinationPort in satisfied);
  }

  /** Lifetime is a gate that inverting does not reverse; a rule without criteria matches everything. */
  method Match<F>(r: Router<F>, rule: Fields, f: F) returns (ok: bool)
    ensures ok <==> RuleMatches(r, rule, f)
  {
    if "pokrov_catalog_window" in rule && rule["pokrov_catalog_window"] != Null {
      if !r.window(rule["pokrov_catalog_window"], f) {
        return false;
      }
    }
    if "rule_set" in rule {
      return r.merged(rule, f);
    }
    var any, matched := Evaluate(r, rule, f);
    if !any {
      return true;
    }
    if "invert" in rule && rule["invert"] == Bool(true) {
      return !matched;
    }
    return matched;
  }

  /** First match: a route decides, another final action ends matching, and the rest only act on the flow. */
  method FirstMatch<F>(r: Router<F>, rules: seq<Fields>, f: F) returns (d: Decision)
    ensures d == Decide(r, rules, f)
  {
    var flow := f;
    for i := 0 to |rules|
      invariant Decide(r, rules, f) == Decide(r, rules[i..], flow)
    {
      assert rules[i..][1..] == rules[i + 1..];
      var matches := Match(r, rules[i], flow);
      if matches {
        var action := TextAt(rules[i], "action");
        if action == "" || action == "route" {
          return Routed(TextAt(rules[i], "outbound"), rules[i] - {"outbound", "ip_version", "network", "port"});
        }
        if r.ends(rules[i]) {
          return Ended(rules[i]);
        }
        flow := r.effect(rules[i], flow);
      }
    }
    return FallThrough;
  }
}
