/**
 What the inserted rules catch, exactly: the IPv4 flows of the rule they precede, and for one service its QUIC
 flows, so that a rewritten list decides every flow as this says.
 */
module DpiOverrides {
  import opened Wrappers
  import opened Json
  import opened DpiRouting

  /** A router that reads the criteria of the inserted rules. */
  ghost predicate Discerning<F(!new)>(r: Router<F>) {
    && Regular(r) && !r.vacuous("ip_version", Number(4))
    && !r.vacuous("network", Text("udp")) && !r.vacuous("port", Number(443))
  }

  predicate IsIpv4<F>(r: Router<F>, f: F) {
    r.criterion("ip_version", Number(4), f)
  }

  predicate IsQuic<F>(r: Router<F>, f: F) {
    r.criterion("network", Text("udp"), f) && r.criterion("port", Number(443), f)
  }

  /** No criterion of a group is effective in either, or both have the same ones. */
  lemma SameGroupBack<F>(r: Router<F>, a: Fields, b: Fields, g: Group, f: F)
    requires SameOn(a, b, g)
    ensures GroupHolds(r, a, g, f) <==> GroupHolds(r, b, g, f)
  {
    if GroupHolds(r, a, g, f) {
      SameGroup(r, a, b, g, f);
    }
    if GroupHolds(r, b, g, f) {
      SameGroup(r, b, a, g, f);
    }
  }

  lemma NoCriteriaHold<F>(r: Router<F>, rule: Fields, f: F)
    requires forall key :: key in rule ==> !Effective(r, rule, key)
    ensures CriteriaHold(r, rule, f)
  {
  }

  /** A rule that is not inverted and has no rule set matches by its window and its criteria. */
  lemma MatchesByCriteria<F>(r: Router<F>, rule: Fields, f: F)
    requires !Inverted(rule) && "rule_set" !in rule
    ensures RuleMatches(r, rule, f) <==> WindowAdmits(r, rule, f) && CriteriaHold(r, rule, f)
  {
    if forall key :: key in rule ==> !Effective(r, rule, key) {
      NoCriteriaHold(r, rule, f);
    }
  }

  lemma LocalSingles<F(!new)>(r: Router<F>, rule: Fields, tag: string, f: F)
    requires Discerning(r) && Overridable(rule)
    ensures SinglesHold(r, LocalRule(rule, tag), f) <==> SinglesHold(r, rule, f) && IsIpv4(r, f)
  {
    var local := LocalRule(rule, tag);
    if SinglesHold(r, local, f) {
      LocalSinglesKept(r, rule, tag);
      SinglesNarrow(r, local, rule, f);
      assert Holds(r, local, "ip_version", f);
    }
    if SinglesHold(r, rule, f) && IsIpv4(r, f) {
      forall key | key in local && Effective(r, local, key) && GroupOf(key) == Single ensures Holds(r, local, key, f) {
        if key != "ip_version" {
          assert key != "outbound" && Holds(r, rule, key, f);
        }
      }
    }
  }

  /** The address override matches exactly the IPv4 flows that its rule matches. */
  lemma LocalMatchesExactly<F(!new)>(r: Router<F>, rule: Fields, tag: string, f: F)
    requires Discerning(r) && Overridable(rule)
    ensures RuleMatches(r, LocalRule(rule, tag), f) <==> RuleMatches(r, rule, f) && IsIpv4(r, f)
  {
    var local := LocalRule(rule, tag);
    LocalPlain(rule, tag);
    MatchesByCriteria(r, rule, f);
    MatchesByCriteria(r, local, f);
    LocalSingles(r, rule, tag, f);
    LocalGroups(r, rule, tag, f);
  }

  lemma LocalPlain(rule: Fields, tag: string)
    requires Overridable(rule)
    ensures var local := LocalRule(rule, tag);
            && !Inverted(local) && "rule_set" !in local
            && ("pokrov_catalog_window" in local <==> "pokrov_catalog_window" in rule)
            && ("pokrov_catalog_window" in rule ==> local["pokrov_catalog_window"] == rule["pokrov_catalog_window"])
  {
  }

  lemma LocalGroups<F>(r: Router<F>, rule: Fields, tag: string, f: F)
    ensures forall g :: g != Single ==> (GroupHolds(r, LocalRule(rule, tag), g, f) <==> GroupHolds(r, rule, g, f))
  {
    forall g | g != Single ensures GroupHolds(r, LocalRule(rule, tag), g, f) <==> GroupHolds(r, rule, g, f) {
      LocalSame(rule, tag, g);
      SameGroupBack(r, LocalRule(rule, tag), rule, g, f);
    }
  }

  lemma QuicPlain(rule: Fields, tag: string)
    requires Overridable(rule)
    ensures var quic := QuicRule(rule, tag);
            && !Inverted(quic) && "rule_set" !in quic
            && ("pokrov_catalog_window" in quic <==> "pokrov_catalog_window" in rule)
            && ("pokrov_catalog_window" in rule ==> quic["pokrov_catalog_window"] == rule["pokrov_catalog_window"])
  {
  }

  lemma QuicSingles<F(!new)>(r: Router<F>, rule: Fields, tag: string, f: F)
    requires Discerning(r) && Portless(rule)
    ensures SinglesHold(r, QuicRule(rule, tag), f) <==>
            SinglesHold(r, rule, f) && r.criterion("network", Text("udp"), f)
  {
    var quic := QuicRule(rule, tag);
    if SinglesHold(r, quic, f) {
      QuicSinglesKept(r, rule, tag);
      SinglesNarrow(r, quic, rule, f);
      assert Holds(r, quic, "network", f);
    }
    if SinglesHold(r, rule, f) && r.criterion("network", Text("udp"), f) {
      forall key | key in quic && Effective(r, quic, key) && GroupOf(key) == Single ensures Holds(r, quic, key, f) {
        if key != "network" {
          assert key != "outbound" && key != "port" && Holds(r, rule, key, f);
        }
      }
    }
  }

  lemma QuicGroups<F>(r: Router<F>, rule: Fields, tag: string, f: F)
    ensures forall g :: g != Single && g != DestinationPort ==>
              (GroupHolds(r, QuicRule(rule, tag), g, f) <==> GroupHolds(r, rule, g, f))
  {
    forall g | g != Single && g != DestinationPort
      ensures GroupHolds(r, QuicRule(rule, tag), g, f) <==> GroupHolds(r, rule, g, f)
    {
      QuicSame(rule, tag, g);
      SameGroupBack(r, QuicRule(rule, tag), rule, g, f);
    }
  }

  lemma QuicPorts<F(!new)>(r: Router<F>, rule: Fields, tag: string, f: F)
    requires Discerning(r) && Portless(rule)
    ensures GroupHolds(r, QuicRule(rule, tag), DestinationPort, f) <==> r.criterion("port", Number(443), f)
    ensures GroupHolds(r, rule, DestinationPort, f)
  {
    var quic := QuicRule(rule, tag);
    NoPorts(rule);
    assert Effective(r, quic, "port") && GroupOf("port") == DestinationPort;
    assert forall key :: key in quic && GroupOf(key) == DestinationPort ==> key == "port";
  }

  /** The QUIC override of a rule without ports matches exactly the flows to UDP port 443 that its rule matches. */
  lemma QuicMatchesExactly<F(!new)>(r: Router<F>, rule: Fields, tag: string, f: F)
    requires Discerning(r) && Overridable(rule) && Portless(rule)
    ensures RuleMatches(r, QuicRule(rule, tag), f) <==> RuleMatches(r, rule, f) && IsQuic(r, f)
  {
    QuicPlain(rule, tag);
    MatchesByCriteria(r, rule, f);
    MatchesByCriteria(r, QuicRule(rule, tag), f);
    QuicSingles(r, rule, tag, f);
    QuicGroups(r, rule, tag, f);
    QuicPorts(r, rule, tag, f);
  }

  // ----------------------------------------------------------- the decisions

  /** A flow of the rule that its overrides take: IPv4, or QUIC to the service that prefers TCP. */
  predicate Taken<F>(r: Router<F>, rule: Fields, tag: string, f: F) {
    || IsIpv4(r, f)
    || (tag == "pokrov-local-dpi-youtube" && IsQuic(r, f) &&
        "network" !in rule && "port" !in rule && "port_range" !in rule)
  }

  /** The decision of a rule list in which some rules send the flows that are taken to a tag of their own. */
  function DecideTagged<F>(r: Router<F>, rules: seq<Fields>, tags: seq<Option<string>>, f: F): Decision
    requires |rules| == |tags|
    decreases |rules|
  {
    if |rules| == 0 then FallThrough
    else if !RuleMatches(r, rules[0], f) then DecideTagged(r, rules[1..], tags[1..], f)
    else if tags[0].Some? && Taken(r, rules[0], tags[0].value, f) then Routed(tags[0].value, RouteOptions(rules[0]))
    else if IsRoute(rules[0]) then Routed(TextAt(rules[0], "outbound"), RouteOptions(rules[0]))
    else if r.ends(rules[0]) then Ended(rules[0])
    else DecideTagged(r, rules[1..], tags[1..], r.effect(rules[0], f))
  }

  lemma ExpandedTakes<F(!new)>(r: Router<F>, rule: Fields, tag: string, rest: seq<Fields>, f: F)
    requires Discerning(r) && Overridable(rule)
    ensures Decide(r, Expanded(rule, Some(tag)) + rest, f) ==
            if !RuleMatches(r, rule, f) then Decide(r, rest, f)
            else if Taken(r, rule, tag, f) then Routed(tag, RouteOptions(rule))
            else Routed(TextAt(rule, "outbound"), RouteOptions(rule))
  {
    ExpandedIs(rule, tag, rest);
    OverrideOptions(rule, tag);
    LocalMatchesExactly(r, rule, tag, f);
    DecideAppend(r, rule, rest, f);
    DecideAppend(r, LocalRule(rule, tag), [rule] + rest, f);
    if tag == YOUTUBE_TAG && Portless(rule) {
      QuicMatchesExactly(r, rule, tag, f);
      DecideAppend(r, QuicRule(rule, tag), [LocalRule(rule, tag)] + ([rule] + rest), f);
    }
  }

  /** A rewritten list decides every flow exactly so. */
  lemma {:induction false} RewriteDecidesExactly<F(!new)>(
      r: Router<F>, rules: seq<Fields>, tags: seq<Option<string>>, fallback: map<string, string>, f: F)
    requires Discerning(r) && Justified(rules, tags, fallback)
    ensures Decide(r, Insert(rules, tags), f) == DecideTagged(r, rules, tags, f)
    decreases |rules|
  {
    if |rules| == 0 {
    } else {
      var rest, tags' := rules[1..], tags[1..];
      InsertFirst(rules, tags);
      var f' := if RuleMatches(r, rules[0], f) then r.effect(rules[0], f) else f;
      RewriteDecidesExactly(r, rest, tags', fallback, f);
      RewriteDecidesExactly(r, rest, tags', fallback, f');
      if tags[0].Some? {
        ExpandedTakes(r, rules[0], tags[0].value, Insert(rest, tags'), f);
      } else {
        assert Expanded(rules[0], tags[0]) == [rules[0]];
        DecideAppend(r, rules[0], Insert(rest, tags'), f);
      }
    }
  }
}
