/**
 Accounts of a Hysteria server: which rules and outbounds make up one user's
 policy, and when that projection decides flows exactly as the full configuration
 does.
 */
module HysteriaPolicy {
  import opened Wrappers

  datatype User = User(name: string, password: string)

  /** `options` stands for everything an outbound is configured with. */
  datatype Outbound = Outbound(tag: string, kind: string, options: string)

  datatype Action = Route(outbound: string) | Reject | Resolve | Sniff | HijackDns | Unsupported

  /** `criteria` are the conditions besides the user list, `details` the options of the action. */
  datatype Rule = Rule(
    logical: bool, authUser: seq<string>, invert: bool, criteria: seq<string>, action: Action, details: string)

  /** `shape` says that a direct inbound is a bare listener on port 53 of a private IPv4 address. */
  datatype Inbound = Inbound(kind: string, tag: string, settings: string, shape: bool)

  /** `rest` stands for every option besides those listed. */
  datatype Options = Options(
    reloadable: bool, routed: bool, rest: string,
    inbounds: seq<Inbound>, users: seq<User>, outbounds: seq<Outbound>, rules: seq<Rule>)

  // -------------------------------------------------------------- validation

  const DNS_TAG := "pokrov-awg-dns"

  const DNS_RULE := Rule(false, [], false, ["inbound=pokrov-awg-dns"], HijackDns, "")

  predicate ValidUsers(users: seq<User>) {
    && (forall i :: 0 <= i < |users| ==> users[i].name != "" && users[i].password != "")
    && (forall i, j :: 0 <= i < j < |users| ==>
        users[i].name != users[j].name && users[i].password != users[j].password)
  }

  predicate ValidOutbounds(outbounds: seq<Outbound>) {
    && (forall i :: 0 <= i < |outbounds| ==> outbounds[i].kind == "direct" && outbounds[i].tag != "")
    && (forall i, j :: 0 <= i < j < |outbounds| ==> outbounds[i].tag != outbounds[j].tag)
  }

  predicate HasTag(outbounds: seq<Outbound>, tag: string) {
    exists i :: 0 <= i < |outbounds| && outbounds[i].tag == tag
  }

  predicate ValidRule(o: Options, i: nat)
    requires i < |o.rules|
  {
    var rule := o.rules[i];
    !rule.logical &&
    match rule.action
    case HijackDns => |o.inbounds| == 2 && i == 0
    case Route(outbound) => HasTag(o.outbounds, outbound)
    case Unsupported => false
    case _ => true
  }

  predicate ValidInbounds(o: Options) {
    && (|o.inbounds| == 1 || |o.inbounds| == 2)
    && o.inbounds[0].kind == "hysteria2"
    && (|o.inbounds| == 2 ==>
          && o.inbounds[1].kind == "direct" && o.inbounds[1].tag == DNS_TAG && o.inbounds[0].tag != DNS_TAG
          && o.inbounds[1].shape
          && |o.rules| > 0 && o.rules[0] == DNS_RULE)
  }

  predicate Valid(o: Options) {
    && o.reloadable && o.routed
    && ValidInbounds(o)
    && ValidUsers(o.users)
    && ValidOutbounds(o.outbounds)
    && forall i :: 0 <= i < |o.rules| ==> ValidRule(o, i)
  }

  method Validate(o: Options) returns (ok: bool)
    ensures ok <==> Valid(o)
  {
    if !o.reloadable || (|o.inbounds| != 1 && |o.inbounds| != 2) || o.inbounds[0].kind != "hysteria2" || !o.routed {
      return false;
    }
    if |o.inbounds| == 2 {
      var auxiliary := o.inbounds[1];
      if auxiliary.kind != "direct" || auxiliary.tag != "pokrov-awg-dns" || o.inbounds[0].tag == auxiliary.tag {
        return false;
      }
      var expected := Rule(false, [], false, ["inbound=pokrov-awg-dns"], HijackDns, "");
      if !auxiliary.shape || |o.rules| == 0 || o.rules[0] != expected {
        return false;
      }
    }
    var usersOk := CheckUsers(o.users);
    if !usersOk {
      return false;
    }
    var tags := CheckOutbounds(o.outbounds);
    if tags.None? {
      return false;
    }
    for i := 0 to |o.rules|
      invariant forall j :: 0 <= j < i ==> ValidRule(o, j)
    {
      var rule := o.rules[i];
      var refused := rule.logical || match rule.action
        case HijackDns => |o.inbounds| != 2 || i != 0
        case Route(outbound) => outbound !in tags.value
        case Unsupported => true
        case _ => false;
      if refused {
        assert !ValidRule(o, i);
        return false;
      }
    }
    return true;
  }

  method CheckUsers(users: seq<User>) returns (ok: bool)
    ensures ok <==> ValidUsers(users)
  {
    var names: set<string>, passwords: set<string> := {}, {};
    for i := 0 to |users|
      invariant names == set j | 0 <= j < i :: users[j].name
      invariant passwords == set j | 0 <= j < i :: users[j].password
      invariant ValidUsers(users[..i])
    {
      var user := users[i];
      if user.name == "" || user.password == "" || user.name in names || user.password in passwords {
        return false;
      }
      names, passwords := names + {user.name}, passwords + {user.password};
    }
    assert users[..|users|] == users;
    return true;
  }

  method CheckOutbounds(outbounds: seq<Outbound>) returns (tags: Option<set<string>>)
    ensures tags.Some? <==> ValidOutbounds(outbounds)
    ensures tags.Some? ==> forall tag :: tag in tags.value <==> HasTag(outbounds, tag)
  {
    var seen: set<string> := {};
    for i := 0 to |outbounds|
      invariant seen == set j | 0 <= j < i :: outbounds[j].tag
      invariant ValidOutbounds(outbounds[..i])
    {
      if outbounds[i].kind != "direct" || outbounds[i].tag == "" || outbounds[i].tag in seen {
        return None;
      }
      seen := seen + {outbounds[i].tag};
    }
    assert outbounds[..|outbounds|] == outbounds;
    return Some(seen);
  }

  // ------------------------------------------------------------------ policy

  function Anonymous(rule: Rule): Rule {
    rule.(authUser := [])
  }

  predicate Concerns(rule: Rule, user: string) {
    |rule.authUser| == 0 || user in rule.authUser
  }

  function PolicyRules(rules: seq<Rule>, user: string): seq<Rule> {
    if |rules| == 0 then []
    else
      PolicyRules(rules[..|rules| - 1], user) +
      (if Concerns(rules[|rules| - 1], user) then [Anonymous(rules[|rules| - 1])] else [])
  }

  function RouteTags(rules: seq<Rule>): set<string> {
    set i | 0 <= i < |rules| && rules[i].action.Route? :: rules[i].action.outbound
  }

  function PolicyOutbounds(outbounds: seq<Outbound>, tags: set<string>): seq<Outbound> {
    if |outbounds| == 0 then []
    else
      PolicyOutbounds(outbounds[..|outbounds| - 1], tags) +
      (if outbounds[|outbounds| - 1].tag in tags then [outbounds[|outbounds| - 1]] else [])
  }

  datatype Policy = Policy(rules: seq<Rule>, outbounds: seq<Outbound>)

  function PolicyOf(o: Options, user: string): Policy {
    var rules := PolicyRules(o.rules, user);
    Policy(rules, PolicyOutbounds(o.outbounds, RouteTags(rules)))
  }

  method UserPolicy(o: Options, user: string) returns (policy: Policy)
    ensures policy == PolicyOf(o, user)
  {
    var rules: seq<Rule>, tags: set<string> := [], {};
    for i := 0 to |o.rules|
      invariant rules == PolicyRules(o.rules[..i], user) && tags == RouteTags(rules)
    {
      assert o.rules[..i + 1][..i] == o.rules[..i];
      if |o.rules[i].authUser| == 0 || user in o.rules[i].authUser {
        var rule := o.rules[i].(authUser := []);
        RouteTagsSnoc(rules, rule);
        rules := rules + [rule];
        if rule.action.Route? {
          tags := tags + {rule.action.outbound};
        }
      }
    }
    assert o.rules[..|o.rules|] == o.rules;
    var outbounds: seq<Outbound> := [];
    for i := 0 to |o.outbounds|
      invariant outbounds == PolicyOutbounds(o.outbounds[..i], tags)
    {
      assert o.outbounds[..i + 1][..i] == o.outbounds[..i];
      if o.outbounds[i].tag in tags {
        outbounds := outbounds + [o.outbounds[i]];
      }
    }
    assert o.outbounds[..|o.outbounds|] == o.outbounds;
    return Policy(rules, outbounds);
  }

  lemma RouteTagsSnoc(rules: seq<Rule>, rule: Rule)
    ensures RouteTags(rules + [rule]) == RouteTags(rules) + (if rule.action.Route? then {rule.action.outbound} else {})
  {
    var all := rules + [rule];
    assert forall i :: 0 <= i < |rules| ==> all[i] == rules[i];
    assert all[|rules|] == rule;
  }

  // ----------------------------------------------------------------- meaning

  /** How criteria match flows of type F, and what non-final actions make of a flow; None fails the flow. */
  datatype Router<!F> = Router(holds: (seq<string>, F) -> bool, effect: (Rule, F) -> Option<F>)

  predicate RuleMatches<F>(r: Router<F>, rule: Rule, user: string, f: F) {
    if |rule.authUser| == 0 && |rule.criteria| == 0 then true
    else
      var inner := (|rule.authUser| > 0 ==> user in rule.authUser) &&
                   (|rule.criteria| > 0 ==> r.holds(rule.criteria, f));
      if rule.invert then !inner else inner
  }

  /** What a tag resolves to at run time; `Broken` is the stand-in for an outbound that did not build. */
  datatype Live = Direct(outbound: Outbound) | Broken

  datatype Decision = Sent(rule: Rule, through: Option<Live>) | Ended(rule: Rule) | Failed | FallThrough

  function Resolved(live: map<string, Live>, tag: string): Option<Live> {
    if tag in live then Some(live[tag]) else None
  }

  /** The first matching rule that decides; deciding rules are compared without their user lists. */
  function Decide<F>(r: Router<F>, rules: seq<Rule>, live: map<string, Live>, user: string, f: F): Decision
    decreases |rules|
  {
    if |rules| == 0 then FallThrough
    else
      var rule := rules[0];
      if !RuleMatches(r, rule, user, f) then Decide(r, rules[1..], live, user, f)
      else match rule.action
        case Route(outbound) => Sent(Anonymous(rule), Resolved(live, outbound))
        case Resolve => Continue(r, rules, live, user, f)
        case Sniff => Continue(r, rules, live, user, f)
        case Unsupported => Continue(r, rules, live, user, f)
        case _ => Ended(Anonymous(rule))
  }

  function Continue<F>(r: Router<F>, rules: seq<Rule>, live: map<string, Live>, user: string, f: F): Decision
    requires |rules| > 0
    decreases |rules|, 0
  {
    var f' := r.effect(Anonymous(rules[0]), f);
    if f'.None? then Failed else Decide(r, rules[1..], live, user, f'.value)
  }

  /** An inverted rule that names users: dropping it for others, or its user list for them, can change its meaning. */
  predicate Misprojected(rule: Rule, user: string) {
    rule.invert && |rule.authUser| > 0 && (user !in rule.authUser || |rule.criteria| == 0)
  }

  /** The policy reads the rule for this user and flow as the router does. */
  predicate ReadsAs<F>(r: Router<F>, rule: Rule, user: string, f: F) {
    RuleMatches(r, rule, user, f) <==> Concerns(rule, user) && RuleMatches(r, Anonymous(rule), user, f)
  }

  /** Exactly the misprojected rules are read differently, and then on every flow. */
  lemma ProjectionIsExact<F>(r: Router<F>, rule: Rule, user: string, f: F)
    ensures ReadsAs(r, rule, user, f) <==> !Misprojected(rule, user)
  {
  }

  predicate Plain(rules: seq<Rule>, user: string) {
    forall i :: 0 <= i < |rules| ==> !Misprojected(rules[i], user)
  }

  lemma {:induction false} PolicyRulesFront(rules: seq<Rule>, user: string)
    requires |rules| > 0
    ensures PolicyRules(rules, user) ==
              (if Concerns(rules[0], user) then [Anonymous(rules[0])] else []) + PolicyRules(rules[1..], user)
  {
    if |rules| > 1 {
      var front := rules[..|rules| - 1];
      PolicyRulesFront(front, user);
      assert front[1..] == rules[1..][..|rules| - 2];
      assert rules[1..][|rules| - 2] == rules[|rules| - 1];
    } else {
      assert rules[..0] == [] && rules[1..] == [];
    }
  }

  /** A user's policy decides every flow as the full rule list does. */
  lemma {:induction false} PolicyDecides<F>(r: Router<F>, rules: seq<Rule>, live: map<string, Live>, user: string, f: F)
    requires Plain(rules, user)
    ensures Decide(r, rules, live, user, f) == Decide(r, PolicyRules(rules, user), live, user, f)
    decreases |rules|
  {
    if |rules| == 0 {
    } else {
      var rule, rest := rules[0], rules[1..];
      var policy, after := PolicyRules(rules, user), PolicyRules(rest, user);
      PolicyRulesFront(rules, user);
      ProjectionIsExact(r, rule, user, f);
      if !Concerns(rule, user) {
        assert policy == after;
        PolicyDecides(r, rest, live, user, f);
      } else {
        assert policy[0] == Anonymous(rule) && policy[1..] == after;
        if !RuleMatches(r, rule, user, f) {
          PolicyDecides(r, rest, live, user, f);
        } else {
          var f' := r.effect(Anonymous(rule), f);
          if f'.Some? {
            PolicyDecides(r, rest, live, user, f'.value);
          }
        }
      }
    }
  }

  /** A rule list that the policy of [rule] cannot tell apart from it. */
  function Lookalike(rule: Rule, user: string): seq<Rule> {
    if Concerns(rule, user) then [Anonymous(rule)] else []
  }

  ghost predicate ComparedSoundly<F>(r: Router<F>, rule: Rule, live: map<string, Live>, user: string, f: F) {
    forall other :: Plain(other, user) && PolicyRules([rule], user) == PolicyRules(other, user) ==>
      Decide(r, [rule], live, user, f) == Decide(r, other, live, user, f)
  }

  /**
   Comparing policies is sound for a deciding rule exactly when the rule is not
   misprojected: otherwise some list with the same policy decides the flow differently.
   */
  lemma ComparisonIsSoundIff<F>(r: Router<F>, rule: Rule, live: map<string, Live>, user: string, f: F)
    requires rule.action.Route? || rule.action.Reject?
    ensures ComparedSoundly(r, rule, live, user, f) <==> !Misprojected(rule, user)
  {
    var one := [rule];
    PolicyRulesFront(one, user);
    assert one[1..] == [];
    if Misprojected(rule, user) {
      var other := Lookalike(rule, user);
      if |other| > 0 {
        PolicyRulesFront(other, user);
        assert other[1..] == [];
      }
      assert Plain(other, user) && PolicyRules(one, user) == PolicyRules(other, user);
      ProjectionIsExact(r, rule, user, f);
      assert Decide(r, one, live, user, f) != Decide(r, other, live, user, f);
    } else {
      forall other | Plain(other, user) && PolicyRules(one, user) == PolicyRules(other, user)
        ensures Decide(r, one, live, user, f) == Decide(r, other, live, user, f)
      {
        PolicyDecides(r, one, live, user, f);
        PolicyDecides(r, other, live, user, f);
      }
    }
  }

  /** Decisions only look up the tags that some rule routes to. */
  lemma {:induction false} DecideLooksUp<F>(r: Router<F>, rules: seq<Rule>, a: map<string, Live>,
                                            b: map<string, Live>, user: string, f: F)
    requires forall tag :: tag in RouteTags(rules) ==> Resolved(a, tag) == Resolved(b, tag)
    ensures Decide(r, rules, a, user, f) == Decide(r, rules, b, user, f)
    decreases |rules|
  {
    if |rules| == 0 {
    } else {
      var rest := rules[1..];
      forall tag | tag in RouteTags(rest) ensures tag in RouteTags(rules) {
        var i :| 0 <= i < |rest| && rest[i].action.Route? && rest[i].action.outbound == tag;
        assert rules[i + 1] == rest[i];
      }
      if rules[0].action.Route? {
        assert rules[0].action.outbound in RouteTags(rules);
      }
      DecideLooksUp(r, rest, a, b, user, f);
      var f' := r.effect(Anonymous(rules[0]), f);
      if f'.Some? {
        DecideLooksUp(r, rest, a, b, user, f'.value);
      }
    }
  }
}
