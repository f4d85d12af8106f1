/**
 Routing meaning of a rule list, and why the local-DPI rewrite preserves it: each
 inserted rule is narrower than the rule it precedes and stands for the same
 outbound once its local tag is read as the VPN it falls back to.
 */
module DpiRouting {
  import opened Wrappers
  import opened Json

  /** Criteria of one group are alternatives; groups and single criteria all have to hold. */
  datatype Group = Single | SourceAddress | SourcePort | DestinationAddress | DestinationPort

  function GroupOf(key: string): Group {
    match key
    case "source_ip_cidr" => SourceAddress
    case "source_ip_is_private" => SourceAddress
    case "source_port" => SourcePort
    case "source_port_range" => SourcePort
    case "domain" => DestinationAddress
    case "domain_suffix" => DestinationAddress
    case "domain_keyword" => DestinationAddress
    case "domain_regex" => DestinationAddress
    case "ip_cidr" => DestinationAddress
    case "ip_is_private" => DestinationAddress
    case "port" => DestinationPort
    case "port_range" => DestinationPort
    case _ => Single
  }

  /**
   How the router reads rules on flows of type F: which keys carry no criterion
   with a given value, when a criterion matches, when a catalog window admits, what
   a merged rule set decides, which other actions end matching, and what the
   remaining ones do to the flow.
   */
  datatype Router<!F> = Router(
    vacuous: (string, Value) -> bool,
    criterion: (string, Value, F) -> bool,
    window: (Value, F) -> bool,
    merged: (Fields, F) -> bool,
    ends: Fields -> bool,
    effect: (Fields, F) -> F)

  /** Outbounds are not criteria, and version zero means no version. */
  ghost predicate Regular<F(!new)>(r: Router<F>) {
    && (forall v: Value :: r.vacuous("outbound", v))
    && r.vacuous("ip_version", Null) && r.vacuous("ip_version", Number(0))
  }

  predicate Effective<F>(r: Router<F>, rule: Fields, key: string) {
    key in rule && !r.vacuous(key, rule[key])
  }

  predicate Holds<F>(r: Router<F>, rule: Fields, key: string, f: F) {
    Effective(r, rule, key) && r.criterion(key, rule[key], f)
  }

  predicate SinglesHold<F>(r: Router<F>, rule: Fields, f: F) {
    forall key :: key in rule && Effective(r, rule, key) && GroupOf(key) == Single ==> Holds(r, rule, key, f)
  }

  predicate GroupHolds<F>(r: Router<F>, rule: Fields, g: Group, f: F) {
    (exists key :: key in rule && GroupOf(key) == g && Effective(r, rule, key)) ==>
      exists key :: key in rule && GroupOf(key) == g && Holds(r, rule, key, f)
  }

  predicate CriteriaHold<F>(r: Router<F>, rule: Fields, f: F) {
    && SinglesHold(r, rule, f)
    && GroupHolds(r, rule, SourceAddress, f) && GroupHolds(r, rule, SourcePort, f)
    && GroupHolds(r, rule, DestinationAddress, f) && GroupHolds(r, rule, DestinationPort, f)
  }

  predicate Inverted(rule: Fields) {
    FlagAt(rule, "invert") == Some(true)
  }

  predicate WindowAdmits<F>(r: Router<F>, rule: Fields, f: F) {
    "pokrov_catalog_window" in rule && !rule["pokrov_catalog_window"].Null? ==>
      r.window(rule["pokrov_catalog_window"], f)
  }

  predicate RuleMatches<F>(r: Router<F>, rule: Fields, f: F) {
    WindowAdmits(r, rule, f) &&
    if "rule_set" in rule then r.merged(rule, f)
    else if forall key :: key in rule ==> !Effective(r, rule, key) then true
    else if Inverted(rule) then !CriteriaHold(r, rule, f)
    else CriteriaHold(r, rule, f)
  }

  datatype Decision =
    | Routed(outbound: string, options: Fields)
    | Ended(rule: Fields)
    | FallThrough

  predicate IsRoute(rule: Fields) {
    TextAt(rule, "action") in {"", "route"}
  }

  /** The part of a route rule that shapes the connection. */
  function RouteOptions(rule: Fields): Fields {
    rule - {"outbound", "ip_version", "network", "port"}
  }

  function Decide<F>(r: Router<F>, rules: seq<Fields>, f: F): Decision
    decreases |rules|
  {
    if |rules| == 0 then FallThrough
    else if !RuleMatches(r, rules[0], f) then Decide(r, rules[1..], f)
    else if IsRoute(rules[0]) then Routed(TextAt(rules[0], "outbound"), RouteOptions(rules[0]))
    else if r.ends(rules[0]) then Ended(rules[0])
    else Decide(r, rules[1..], r.effect(rules[0], f))
  }

  // -------------------------------------------------------- the inserted rules

  /** The IPv4 override of a catalog rule. */
  function LocalRule(rule: Fields, tag: string): Fields {
    rule["outbound" := Text(tag)]["ip_version" := Number(4)]
  }

  /** The UDP 443 override of a catalog rule. */
  function QuicRule(rule: Fields, tag: string): Fields {
    rule["outbound" := Text(tag)]["network" := Text("udp")]["port" := Number(443)]
  }

  /** The rule has no version constraint, or the IPv4 one. */
  predicate Ipv4OrAny(rule: Fields) {
    "ip_version" in rule ==> rule["ip_version"] in {Null, Number(0), Number(4)}
  }

  predicate Portless(rule: Fields) {
    "network" !in rule && "port" !in rule && "port_range" !in rule
  }

  /** What selection guarantees of a rule that gets overrides. */
  predicate Overridable(rule: Fields) {
    TextAt(rule, "action") == "route" && Ipv4OrAny(rule) && !Inverted(rule) && "rule_set" !in rule
  }

  /** `narrow` asks for everything `wide` asks for. */
  ghost predicate Narrows<F(!new)>(r: Router<F>, narrow: Fields, wide: Fields) {
    forall f: F :: RuleMatches(r, narrow, f) ==> RuleMatches(r, wide, f)
  }

  /** Two rules have the same criteria of a group. */
  ghost predicate SameOn(a: Fields, b: Fields, g: Group) {
    forall key :: GroupOf(key) == g ==> ((key in a <==> key in b) && (key in a ==> a[key] == b[key]))
  }

  /** A group that both rules share keeps its meaning. */
  lemma SameGroup<F>(r: Router<F>, a: Fields, b: Fields, g: Group, f: F)
    requires SameOn(a, b, g) && GroupHolds(r, a, g, f)
    ensures GroupHolds(r, b, g, f)
  {
    if key :| key in b && GroupOf(key) == g && Effective(r, b, key) {
      assert Effective(r, a, key);
      var k :| k in a && GroupOf(k) == g && Holds(r, a, k, f);
      assert Holds(r, b, k, f);
    }
  }

  /** Every single criterion of `wide` is one of `narrow`. */
  ghost predicate SinglesKept<F(!new)>(r: Router<F>, narrow: Fields, wide: Fields) {
    forall key :: key in wide && GroupOf(key) == Single && Effective(r, wide, key) ==>
      key in narrow && narrow[key] == wide[key]
  }

  lemma SinglesNarrow<F(!new)>(r: Router<F>, a: Fields, b: Fields, f: F)
    requires SinglesHold(r, a, f) && SinglesKept(r, a, b)
    ensures SinglesHold(r, b, f)
  {
    forall key | key in b && Effective(r, b, key) && GroupOf(key) == Single ensures Holds(r, b, key, f) {
      assert Effective(r, a, key) && Holds(r, a, key, f);
    }
  }

  /** `narrow` only adds criteria, besides ports that `wide` leaves open. */
  ghost predicate OnlyAdds<F(!new)>(r: Router<F>, narrow: Fields, wide: Fields) {
    && SinglesKept(r, narrow, wide)
    && SameOn(narrow, wide, SourceAddress) && SameOn(narrow, wide, SourcePort)
    && SameOn(narrow, wide, DestinationAddress)
    && (SameOn(narrow, wide, DestinationPort) || forall key :: key in wide ==> GroupOf(key) != DestinationPort)
  }

  lemma CriteriaNarrow<F(!new)>(r: Router<F>, narrow: Fields, wide: Fields, f: F)
    requires OnlyAdds(r, narrow, wide) && CriteriaHold(r, narrow, f)
    ensures CriteriaHold(r, wide, f)
  {
    SinglesNarrow(r, narrow, wide, f);
    SameGroup(r, narrow, wide, SourceAddress, f);
    SameGroup(r, narrow, wide, SourcePort, f);
    SameGroup(r, narrow, wide, DestinationAddress, f);
    if SameOn(narrow, wide, DestinationPort) {
      SameGroup(r, narrow, wide, DestinationPort, f);
    }
  }

  lemma UpdateKeepsGroup(rule: Fields, key: string, v: Value, g: Group)
    requires GroupOf(key) != g
    ensures SameOn(rule[key := v], rule, g)
  {
  }

  lemma LocalSame(rule: Fields, tag: string, g: Group)
    requires g != Single
    ensures SameOn(LocalRule(rule, tag), rule, g)
  {
    var routed := rule["outbound" := Text(tag)];
    UpdateKeepsGroup(rule, "outbound", Text(tag), g);
    UpdateKeepsGroup(routed, "ip_version", Number(4), g);
  }

  lemma QuicSame(rule: Fields, tag: string, g: Group)
    requires g != Single && g != DestinationPort
    ensures SameOn(QuicRule(rule, tag), rule, g)
  {
    var routed := rule["outbound" := Text(tag)];
    var udp := routed["network" := Text("udp")];
    UpdateKeepsGroup(rule, "outbound", Text(tag), g);
    UpdateKeepsGroup(routed, "network", Text("udp"), g);
    UpdateKeepsGroup(udp, "port", Number(443), g);
  }

  lemma LocalSinglesKept<F(!new)>(r: Router<F>, rule: Fields, tag: string)
    requires Regular(r) && Overridable(rule)
    ensures SinglesKept(r, LocalRule(rule, tag), rule)
  {
  }

  lemma QuicSinglesKept<F(!new)>(r: Router<F>, rule: Fields, tag: string)
    requires Regular(r) && Portless(rule)
    ensures SinglesKept(r, QuicRule(rule, tag), rule)
  {
  }

  lemma NoPorts(rule: Fields)
    requires Portless(rule)
    ensures forall key :: key in rule ==> GroupOf(key) != DestinationPort
  {
  }

  lemma LocalOnlyAdds<F(!new)>(r: Router<F>, rule: Fields, tag: string)
    requires Regular(r) && Overridable(rule)
    ensures OnlyAdds(r, LocalRule(rule, tag), rule)
  {
    LocalSinglesKept(r, rule, tag);
    LocalSame(rule, tag, SourceAddress);
    LocalSame(rule, tag, SourcePort);
    LocalSame(rule, tag, DestinationAddress);
    LocalSame(rule, tag, DestinationPort);
  }

  lemma QuicOnlyAdds<F(!new)>(r: Router<F>, rule: Fields, tag: string)
    requires Regular(r) && Overridable(rule) && Portless(rule)
    ensures OnlyAdds(r, QuicRule(rule, tag), rule)
  {
    QuicSinglesKept(r, rule, tag);
    QuicSame(rule, tag, SourceAddress);
    QuicSame(rule, tag, SourcePort);
    QuicSame(rule, tag, DestinationAddress);
    NoPorts(rule);
  }

  /** Every flow the override catches, the original rule would have caught. */
  lemma OverridesNarrow<F(!new)>(r: Router<F>, rule: Fields, tag: string)
    requires Regular(r) && Overridable(rule)
    ensures Narrows(r, LocalRule(rule, tag), rule)
    ensures Portless(rule) ==> Narrows(r, QuicRule(rule, tag), rule)
  {
    forall f: F | RuleMatches(r, LocalRule(rule, tag), f) ensures RuleMatches(r, rule, f) {
      LocalMatch(r, rule, tag, f);
    }
    if Portless(rule) {
      forall f: F | RuleMatches(r, QuicRule(rule, tag), f) ensures RuleMatches(r, rule, f) {
        QuicMatch(r, rule, tag, f);
      }
    }
  }

  /** Besides criteria, `narrow` is matched the way `wide` is. */
  ghost predicate MatchedAlike<F(!new)>(r: Router<F>, narrow: Fields, wide: Fields, f: F) {
    && (WindowAdmits(r, narrow, f) ==> WindowAdmits(r, wide, f))
    && !Inverted(narrow) && !Inverted(wide) && "rule_set" !in narrow && "rule_set" !in wide
    && forall key :: key in wide && Effective(r, wide, key) ==> key in narrow && Effective(r, narrow, key)
  }

  lemma MatchNarrow<F(!new)>(r: Router<F>, narrow: Fields, wide: Fields, f: F)
    requires OnlyAdds(r, narrow, wide) && RuleMatches(r, narrow, f) && MatchedAlike(r, narrow, wide, f)
    ensures RuleMatches(r, wide, f)
  {
    if key :| key in wide && Effective(r, wide, key) {
      assert Effective(r, narrow, key);
      CriteriaNarrow(r, narrow, wide, f);
    }
  }

  lemma LocalMatchedAlike<F(!new)>(r: Router<F>, rule: Fields, tag: string, f: F)
    requires Regular(r) && Overridable(rule)
    ensures MatchedAlike(r, LocalRule(rule, tag), rule, f)
  {
  }

  lemma QuicMatchedAlike<F(!new)>(r: Router<F>, rule: Fields, tag: string, f: F)
    requires Regular(r) && Overridable(rule) && Portless(rule)
    ensures MatchedAlike(r, QuicRule(rule, tag), rule, f)
  {
  }

  lemma LocalMatch<F(!new)>(r: Router<F>, rule: Fields, tag: string, f: F)
    requires Regular(r) && Overridable(rule) && RuleMatches(r, LocalRule(rule, tag), f)
    ensures RuleMatches(r, rule, f)
  {
    LocalOnlyAdds(r, rule, tag);
    LocalMatchedAlike(r, rule, tag, f);
    MatchNarrow(r, LocalRule(rule, tag), rule, f);
  }

  lemma QuicMatch<F(!new)>(r: Router<F>, rule: Fields, tag: string, f: F)
    requires Regular(r) && Overridable(rule) && Portless(rule) && RuleMatches(r, QuicRule(rule, tag), f)
    ensures RuleMatches(r, rule, f)
  {
    QuicOnlyAdds(r, rule, tag);
    QuicMatchedAlike(r, rule, tag, f);
    MatchNarrow(r, QuicRule(rule, tag), rule, f);
  }

  // ------------------------------------------------------------- the rewrite

  const YOUTUBE_TAG := "pokrov-local-dpi-youtube"

  /** The overrides that go in front of a rule. */
  function Overrides(rule: Fields, tag: Option<string>): seq<Fields> {
    if tag.None? then []
    else (if tag.value == YOUTUBE_TAG && Portless(rule) then [QuicRule(rule, tag.value)] else []) +
         [LocalRule(rule, tag.value)]
  }

  function Expanded(rule: Fields, tag: Option<string>): seq<Fields> {
    Overrides(rule, tag) + [rule]
  }

  /** Every element replaced by a list, in order. */
  function Flattened<A, B>(list: seq<A>, marks: seq<B>, expand: (A, B) -> seq<A>): seq<A>
    requires |list| == |marks|
  {
    if |list| == 0 then [] else expand(list[0], marks[0]) + Flattened(list[1..], marks[1..], expand)
  }

  lemma {:induction false} FlattenedSnoc<A, B>(list: seq<A>, marks: seq<B>, expand: (A, B) -> seq<A>, last: A, mark: B)
    requires |list| == |marks|
    ensures Flattened(list + [last], marks + [mark], expand) == Flattened(list, marks, expand) + expand(last, mark)
  {
    if |list| == 0 {
      assert list + [last] == [last] && marks + [mark] == [mark];
      assert [last][1..] == [] && [mark][1..] == [];
    } else {
      var first, rest := expand(list[0], marks[0]), Flattened(list[1..], marks[1..], expand);
      FlattenedSnoc(list[1..], marks[1..], expand, last, mark);
      assert (list + [last])[1..] == list[1..] + [last] && (marks + [mark])[1..] == marks[1..] + [mark];
      Associative(first, rest, expand(last, mark));
    }
  }

  function Insert(rules: seq<Fields>, tags: seq<Option<string>>): seq<Fields>
    requires |rules| == |tags|
  {
    Flattened(rules, tags, Expanded)
  }

  lemma InsertFirst(rules: seq<Fields>, tags: seq<Option<string>>)
    requires |rules| == |tags| > 0
    ensures Insert(rules, tags) == Expanded(rules[0], tags[0]) + Insert(rules[1..], tags[1..])
  {
  }

  /** Overrides stand only before overridable rules, under a tag that falls back to the rule's own outbound. */
  predicate Justified(rules: seq<Fields>, tags: seq<Option<string>>, fallback: map<string, string>) {
    && |rules| == |tags|
    && (forall tag :: tag in fallback ==> fallback[tag] !in fallback)
    && (forall i :: 0 <= i < |rules| && tags[i].Some? ==>
          Overridable(rules[i]) && tags[i].value in fallback && fallback[tags[i].value] == TextAt(rules[i], "outbound"))
  }

  /** Read every local tag as the VPN it falls back to. */
  function AsVpn(fallback: map<string, string>, d: Decision): Decision {
    if d.Routed? && d.outbound in fallback then d.(outbound := fallback[d.outbound]) else d
  }

  lemma {:induction false} DecideAppend<F>(r: Router<F>, rule: Fields, rest: seq<Fields>, f: F)
    ensures Decide(r, [rule] + rest, f) ==
              if !RuleMatches(r, rule, f) then Decide(r, rest, f)
              else if IsRoute(rule) then Routed(TextAt(rule, "outbound"), RouteOptions(rule))
              else if r.ends(rule) then Ended(rule)
              else Decide(r, rest, r.effect(rule, f))
  {
    assert ([rule] + rest)[1..] == rest;
  }

  lemma OverrideOptions(rule: Fields, tag: string)
    ensures TextAt(LocalRule(rule, tag), "outbound") == tag && RouteOptions(LocalRule(rule, tag)) == RouteOptions(rule)
    ensures TextAt(QuicRule(rule, tag), "outbound") == tag && RouteOptions(QuicRule(rule, tag)) == RouteOptions(rule)
    ensures TextAt(LocalRule(rule, tag), "action") == TextAt(QuicRule(rule, tag), "action") == TextAt(rule, "action")
  {
  }

  /** The answers an overridden rule may give, `otherwise` if it does not match. */
  predicate Answers<F>(r: Router<F>, rule: Fields, tag: string, otherwise: Decision, f: F, d: Decision) {
    if RuleMatches(r, rule, f) then
      d in {Routed(tag, RouteOptions(rule)), Routed(TextAt(rule, "outbound"), RouteOptions(rule))}
    else d == otherwise
  }

  /** An override in front of a list that answers for a rule leaves a list that does. */
  lemma OverrideAnswers<F(!new)>(r: Router<F>, rule: Fields, narrow: Fields, tag: string, list: seq<Fields>,
                                 otherwise: Decision, f: F)
    requires Narrows(r, narrow, rule) && IsRoute(narrow)
    requires TextAt(narrow, "outbound") == tag && RouteOptions(narrow) == RouteOptions(rule)
    requires Answers(r, rule, tag, otherwise, f, Decide(r, list, f))
    ensures Answers(r, rule, tag, otherwise, f, Decide(r, [narrow] + list, f))
  {
    DecideAppend(r, narrow, list, f);
  }

  lemma LocalAnswers<F(!new)>(r: Router<F>, rule: Fields, tag: string, rest: seq<Fields>, f: F)
    requires Regular(r) && Overridable(rule)
    ensures Answers(r, rule, tag, Decide(r, rest, f), f, Decide(r, [LocalRule(rule, tag)] + ([rule] + rest), f))
  {
    OverridesNarrow(r, rule, tag);
    OverrideOptions(rule, tag);
    DecideAppend(r, rule, rest, f);
    OverrideAnswers(r, rule, LocalRule(rule, tag), tag, [rule] + rest, Decide(r, rest, f), f);
  }

  lemma QuicAnswers<F(!new)>(r: Router<F>, rule: Fields, tag: string, list: seq<Fields>, otherwise: Decision, f: F)
    requires Regular(r) && Overridable(rule) && Portless(rule)
    requires Answers(r, rule, tag, otherwise, f, Decide(r, list, f))
    ensures Answers(r, rule, tag, otherwise, f, Decide(r, [QuicRule(rule, tag)] + list, f))
  {
    OverridesNarrow(r, rule, tag);
    OverrideOptions(rule, tag);
    OverrideAnswers(r, rule, QuicRule(rule, tag), tag, list, otherwise, f);
  }

  /** One rule with its overrides decides as the rule alone, whatever follows. */
  lemma ExpandedDecides<F(!new)>(r: Router<F>, rule: Fields, tag: string, rest: seq<Fields>, f: F)
    requires Regular(r) && Overridable(rule)
    ensures Answers(r, rule, tag, Decide(r, rest, f), f, Decide(r, Expanded(rule, Some(tag)) + rest, f))
  {
    ExpandedIs(rule, tag, rest);
    LocalAnswers(r, rule, tag, rest, f);
    if tag == YOUTUBE_TAG && Portless(rule) {
      QuicAnswers(r, rule, tag, [LocalRule(rule, tag)] + ([rule] + rest), Decide(r, rest, f), f);
    }
  }

  lemma ExpandedIs(rule: Fields, tag: string, rest: seq<Fields>)
    ensures var local := [LocalRule(rule, tag)] + ([rule] + rest);
            Expanded(rule, Some(tag)) + rest ==
            if tag == YOUTUBE_TAG && Portless(rule) then [QuicRule(rule, tag)] + local else local
  {
    Regrouped([], LocalRule(rule, tag), rule, rest);
    Regrouped([QuicRule(rule, tag)], LocalRule(rule, tag), rule, rest);
  }

  lemma Regrouped<T>(first: seq<T>, a: T, b: T, rest: seq<T>)
    ensures ((first + [a]) + [b]) + rest == first + ([a] + ([b] + rest))
    ensures [] + ([a] + ([b] + rest)) == [a] + ([b] + rest)
  {
  }

  /**
   The rewrite preserves routing: for every rule list and every flow, the first
   match over the rewritten rules, with each local tag read as its VPN, is the
   first match over the original rules.
   */
  lemma {:induction false} RewritePreservesRouting<F(!new)>(
      r: Router<F>, rules: seq<Fields>, tags: seq<Option<string>>, fallback: map<string, string>, f: F)
    requires Regular(r) && Justified(rules, tags, fallback)
    ensures AsVpn(fallback, Decide(r, Insert(rules, tags), f)) == AsVpn(fallback, Decide(r, rules, f))
    decreases |rules|
  {
    if |rules| == 0 {
    } else {
      var rest, tags' := rules[1..], tags[1..];
      InsertFirst(rules, tags);
      var f' := if RuleMatches(r, rules[0], f) then r.effect(rules[0], f) else f;
      RewritePreservesRouting(r, rest, tags', fallback, f);
      RewritePreservesRouting(r, rest, tags', fallback, f');
      if tags[0].Some? {
        ExpandedDecides(r, rules[0], tags[0].value, Insert(rest, tags'), f);
        assert fallback[tags[0].value] == TextAt(rules[0], "outbound");
      } else {
        assert Expanded(rules[0], tags[0]) == [rules[0]];
        DecideAppend(r, rules[0], Insert(rest, tags'), f);
      }
    }
  }

  /**
   Without reading local tags in the original, the decision is the same exactly for
   the flows that the original did not already send to a tag of that name: an
   original rule can name a tag that no outbound had until the rewrite added it.
   */
  lemma {:induction false} SameDecisionIff<F(!new)>(
      r: Router<F>, rules: seq<Fields>, tags: seq<Option<string>>, fallback: map<string, string>, f: F)
    requires Regular(r) && Justified(rules, tags, fallback)
    ensures var original := Decide(r, rules, f);
            AsVpn(fallback, Decide(r, Insert(rules, tags), f)) == original <==>
            !(original.Routed? && original.outbound in fallback)
  {
    RewritePreservesRouting(r, rules, tags, fallback, f);
  }

  // ------------------------------------------------------- undoing the rewrite

  function Marks(rule: Fields, tag: Option<string>): seq<bool> {
    seq(|Overrides(rule, tag)|, i => true) + [false]
  }

  /** Which positions of the rewritten list are inserted. */
  function Inserted(rules: seq<Fields>, tags: seq<Option<string>>): seq<bool>
    requires |rules| == |tags|
  {
    if |rules| == 0 then [] else Marks(rules[0], tags[0]) + Inserted(rules[1..], tags[1..])
  }

  function Unmarked<T>(list: seq<T>, marks: seq<bool>): seq<T>
    requires |list| == |marks|
  {
    if |list| == 0 then [] else (if marks[0] then [] else [list[0]]) + Unmarked(list[1..], marks[1..])
  }

  lemma {:induction false} UnmarkedConcat<T>(a: seq<T>, x: seq<bool>, b: seq<T>, y: seq<bool>)
    requires |a| == |x| && |b| == |y|
    ensures Unmarked(a + b, x + y) == Unmarked(a, x) + Unmarked(b, y)
  {
    if |a| == 0 {
      assert a + b == b && x + y == y;
    } else {
      var first, rest := if x[0] then [] else [a[0]], Unmarked(a[1..], x[1..]);
      UnmarkedConcat(a[1..], x[1..], b, y);
      assert (a + b)[1..] == a[1..] + b && (x + y)[1..] == x[1..] + y;
      Associative(first, rest, Unmarked(b, y));
    }
  }

  lemma Associative<T>(a: seq<T>, b: seq<T>, c: seq<T>)
    ensures (a + b) + c == a + (b + c)
  {
  }

  lemma {:induction false} AllMarked<T>(list: seq<T>, marks: seq<bool>)
    requires |list| == |marks| && forall i :: 0 <= i < |marks| ==> marks[i]
    ensures Unmarked(list, marks) == []
  {
    if |list| == 0 {
    } else {
      AllMarked(list[1..], marks[1..]);
    }
  }

  lemma MarksKeepTheRule(rule: Fields, tag: Option<string>)
    ensures Unmarked(Expanded(rule, tag), Marks(rule, tag)) == [rule]
  {
    var overrides := Overrides(rule, tag);
    var marks := seq(|overrides|, i => true);
    AllMarked(overrides, marks);
    UnmarkedConcat(overrides, marks, [rule], [false]);
    assert [rule][1..] == [] && [false][1..] == [];
  }

  /** Deleting the inserted rules by position gives back the original list, in order. */
  lemma {:induction false} RewriteOnlyInserts(rules: seq<Fields>, tags: seq<Option<string>>)
    requires |rules| == |tags|
    ensures |Inserted(rules, tags)| == |Insert(rules, tags)|
    ensures Unmarked(Insert(rules, tags), Inserted(rules, tags)) == rules
    decreases |rules|
  {
    if |rules| == 0 {
    } else {
      InsertFirst(rules, tags);
      RewriteOnlyInserts(rules[1..], tags[1..]);
      MarksKeepTheRule(rules[0], tags[0]);
      UnmarkedConcat(Expanded(rules[0], tags[0]), Marks(rules[0], tags[0]), Insert(rules[1..], tags[1..]),
                     Inserted(rules[1..], tags[1..]));
    }
  }

  function Selected<T>(list: seq<T>, keep: T -> bool): seq<T> {
    if |list| == 0 then [] else (if keep(list[0]) then [list[0]] else []) + Selected(list[1..], keep)
  }

  /** The rule does not route to one of the tags. */
  function Outside(tags: set<string>): Fields -> bool {
    rule => TextAt(rule, "outbound") !in tags
  }

  lemma {:induction false} SelectedConcat<T>(a: seq<T>, b: seq<T>, keep: T -> bool)
    ensures Selected(a + b, keep) == Selected(a, keep) + Selected(b, keep)
  {
    if |a| == 0 {
      assert a + b == b;
    } else {
      var first, rest := if keep(a[0]) then [a[0]] else [], Selected(a[1..], keep);
      SelectedConcat(a[1..], b, keep);
      assert (a + b)[1..] == a[1..] + b;
      Associative(first, rest, Selected(b, keep));
    }
  }

  lemma {:induction false} NothingSelected<T>(list: seq<T>, keep: T -> bool)
    requires forall i :: 0 <= i < |list| ==> !keep(list[i])
    ensures Selected(list, keep) == []
  {
    if |list| == 0 {
    } else {
      NothingSelected(list[1..], keep);
    }
  }

  lemma {:induction false} AllSelectedIff<T>(list: seq<T>, keep: T -> bool)
    ensures |Selected(list, keep)| <= |list|
    ensures Selected(list, keep) == list <==> forall i :: 0 <= i < |list| ==> keep(list[i])
  {
    if |list| == 0 {
    } else {
      AllSelectedIff(list[1..], keep);
      if keep(list[0]) {
        assert list == [list[0]] + list[1..];
        assert Selected(list, keep)[1..] == Selected(list[1..], keep);
        assert forall i :: 0 < i < |list| ==> list[i] == list[1..][i - 1];
      }
    }
  }

  lemma OverridesRoute(rule: Fields, tag: Option<string>, i: nat)
    requires i < |Overrides(rule, tag)|
    ensures tag.Some? && TextAt(Overrides(rule, tag)[i], "outbound") == tag.value
  {
    OverrideOptions(rule, tag.value);
  }

  /** Expanding and then selecting is selecting, if every expansion selects what its element does. */
  lemma {:induction false} FlattenedSelects<A, B>(list: seq<A>, marks: seq<B>, expand: (A, B) -> seq<A>,
                                                  keep: A -> bool)
    requires |list| == |marks|
    requires forall i :: 0 <= i < |list| ==> Selected(expand(list[i], marks[i]), keep) == Selected([list[i]], keep)
    ensures Selected(Flattened(list, marks, expand), keep) == Selected(list, keep)
  {
    if |list| == 0 {
    } else {
      FlattenedSelects(list[1..], marks[1..], expand, keep);
      SelectedConcat(expand(list[0], marks[0]), Flattened(list[1..], marks[1..], expand), keep);
      SelectedConcat([list[0]], list[1..], keep);
      assert list == [list[0]] + list[1..];
    }
  }

  lemma ExpandedSelects(rule: Fields, tag: Option<string>, added: set<string>)
    requires tag.Some? ==> tag.value in added
    ensures Selected(Expanded(rule, tag), Outside(added)) == Selected([rule], Outside(added))
  {
    var overrides, keep := Overrides(rule, tag), Outside(added);
    forall i | 0 <= i < |overrides| ensures !keep(overrides[i]) {
      OverridesRoute(rule, tag, i);
    }
    NothingSelected(overrides, keep);
    SelectedConcat(overrides, [rule], keep);
  }

  /** Deleting the rules that name an added tag gives back the original list exactly when no original rule names one. */
  lemma DeletingByTagIff(rules: seq<Fields>, tags: seq<Option<string>>, fallback: map<string, string>)
    requires Justified(rules, tags, fallback)
    ensures Selected(Insert(rules, tags), Outside(fallback.Keys)) == rules <==>
            forall i :: 0 <= i < |rules| ==> TextAt(rules[i], "outbound") !in fallback
  {
    forall i | 0 <= i < |rules|
      ensures Selected(Expanded(rules[i], tags[i]), Outside(fallback.Keys)) ==
              Selected([rules[i]], Outside(fallback.Keys))
    {
      ExpandedSelects(rules[i], tags[i], fallback.Keys);
    }
    FlattenedSelects(rules, tags, Expanded, Outside(fallback.Keys));
    AllSelectedIff(rules, Outside(fallback.Keys));
  }
}
