/**
 Runs on which a reload does not do what it is meant to.
 */
module HysteriaFailures {
  import opened Wrappers
  import opened HysteriaPolicy
  import opened HysteriaReload
  import opened HysteriaSafety

  /** One user, no outbounds. */
  function Sample(user: User, rules: seq<Rule>): Options {
    Options(true, true, "", [Inbound("hysteria2", "in", "", false)], [user], [], rules)
  }

  lemma SampleIsValid(user: User, rules: seq<Rule>)
    requires user.name != "" && user.password != ""
    requires forall i :: 0 <= i < |rules| ==> rules[i].action.Reject? && !rules[i].logical
    ensures Valid(Sample(user, rules)) && Immutable(Sample(user, rules)) == Immutable(Sample(user, []))
  {
    var o := Sample(user, rules);
    forall i | 0 <= i < |rules| ensures ValidRule(o, i) {
    }
  }

  lemma OnlyUserIsKept(previous: Options, next: Options, user: User)
    ensures KeptOf(previous, next, [user]) == if IsKept(previous, next, user) then [user] else []
  {
    assert [user][..0] == [] && KeptOf(previous, next, [user][..0]) == [];
  }

  lemma SamplePolicy(user: User, rule: Rule)
    ensures PolicyOf(Sample(user, [rule]), user.name) == Policy(Lookalike(rule, user.name), [])
    ensures PolicyOf(Sample(user, Lookalike(rule, user.name)), user.name) == Policy(Lookalike(rule, user.name), [])
    ensures PolicyOf(Sample(user, []), user.name) == Policy([], [])
  {
    PolicyRulesFront([rule], user.name);
    PolicyRulesFront([Anonymous(rule)], user.name);
    assert [rule][1..] == [] && [Anonymous(rule)][1..] == [];
  }

  lemma OneRuleDecides<F>(r: Router<F>, rule: Rule, user: string, f: F)
    requires rule.action.Reject?
    ensures Decide(r, [rule], map[], user, f) ==
            if RuleMatches(r, rule, user, f) then Ended(Anonymous(rule)) else FallThrough
  {
    assert [rule][1..] == [];
  }

  /**
   Without the condition on inverted rules the claim fails: every rejecting rule that is
   misprojected for a user admits a reload that keeps the user logged in while the decision
   on every flow changes.
   */
  lemma MisprojectionBreaksReload<F>(r: Router<F>, rule: Rule, user: User, f: F)
    requires rule.action.Reject? && !rule.logical && Misprojected(rule, user.name)
    requires user.name != "" && user.password != ""
    ensures var previous, next := Sample(user, [rule]), Sample(user, Lookalike(rule, user.name));
            && Valid(previous) && Valid(next) && Immutable(previous) == Immutable(next)
            && Fenced(FenceOf(previous, next), RuntimeOf(previous)) && user in RuntimeOf(previous).users
            && Decide(r, previous.rules, map[], user.name, f) != Decide(r, next.rules, map[], user.name, f)
  {
    SampleKeepsUser(user, rule);
    LookalikeDiffers(r, rule, user.name, f);
  }

  lemma SampleKeepsUser(user: User, rule: Rule)
    requires rule.action.Reject? && !rule.logical && user.name != "" && user.password != ""
    ensures var previous, next := Sample(user, [rule]), Sample(user, Lookalike(rule, user.name));
            && Valid(previous) && Valid(next) && Immutable(previous) == Immutable(next)
            && Fenced(FenceOf(previous, next), RuntimeOf(previous)) && user in RuntimeOf(previous).users
  {
    SampleIsValid(user, [rule]);
    SampleIsValid(user, Lookalike(rule, user.name));
    SamplePolicy(user, rule);
    SampleIsFenced(user, [rule], Lookalike(rule, user.name));
  }

  lemma SampleIsFenced(user: User, rules: seq<Rule>, rules': seq<Rule>)
    requires PolicyOf(Sample(user, rules), user.name) == PolicyOf(Sample(user, rules'), user.name)
    ensures Fenced(FenceOf(Sample(user, rules), Sample(user, rules')), RuntimeOf(Sample(user, rules)))
  {
    var previous, next := Sample(user, rules), Sample(user, rules');
    assert user in next.users;
    OnlyUserIsKept(previous, next, user);
    assert FenceOf(previous, next).kept == [user];
  }

  lemma LookalikeDiffers<F>(r: Router<F>, rule: Rule, user: string, f: F)
    requires rule.action.Reject? && Misprojected(rule, user)
    ensures Decide(r, [rule], map[], user, f) != Decide(r, Lookalike(rule, user), map[], user, f)
  {
    ProjectionIsExact(r, rule, user, f);
    OneRuleDecides(r, rule, user, f);
    OneRuleDecides(r, Anonymous(rule), user, f);
  }

  /** A reload that is not refused gets to the fence. */
  predicate Reaches(server: Server, next: Options, w: World)
    requires server.Sound()
    reads server
  {
    Refusal(server.recorded, next, w).None?
  }

  /** A swap that reports an error leaves the new rules running while the old options stay recorded. */
  method SwapWithError(server: Server, next: Options, w: World) returns (error: Option<Error>)
    requires server.Sound() && Reaches(server, next, w) && w.swap == SwappedWithError
    requires CreatesAll(w, server.recorded.value.outbounds, next.outbounds)
    modifies server
    ensures error.Some? && server.Sound() && server.recorded == old(server.recorded)
    ensures server.rules == next.rules && old(server.trace) <= server.trace
  {
    var closings, held;
    error, closings, held := server.Reload(next, w);
  }

  /** The first state of a reload that is not refused. */
  method EnterFence(server: Server, next: Options, w: World) returns (error: Option<Error>)
    requires server.Sound() && Reaches(server, next, w)
    modifies server
    ensures |server.trace| > |old(server.trace)|
    ensures server.trace[|old(server.trace)|] == AtFence(old(server.recorded).value, next, old(server.Now()))
  {
    var closings, held;
    error, closings, held := server.Reload(next, w);
  }

  /**
   After a failed swap, turning back to the old options lets a user log in whom the failed reload had
   fenced off, under rules that neither configuration gives that user: a flow that the recorded and wanted
   configuration rejects falls through.
   */
  method FailedSwapMisleadsNextReload<F>(
      server: Server, r: Router<F>, rule: Rule, user: User, f: F, w: World, w': World)
    returns (first: Option<Error>, second: Option<Error>)
    requires rule.action.Reject? && !rule.logical && Concerns(rule, user.name) && RuleMatches(r, rule, user.name, f)
    requires server.Sound() && server.recorded == Some(Sample(user, [rule])) && server.Agrees()
    requires Reaches(server, Sample(user, []), w) && w.swap == SwappedWithError
    requires Reaches(server, Sample(user, [rule]), w')
    modifies server
    ensures first.Some?
    ensures exists k :: |old(server.trace)| <= k < |server.trace| && user in server.trace[k].users &&
              Decide(r, server.trace[k].rules, server.trace[k].outbounds, user.name, f).FallThrough?
    ensures Decide(r, [rule], LiveOf([]), user.name, f).Ended?
  {
    first := SwapWithError(server, Sample(user, []), w);
    ghost var mid := |server.trace|;
    second := EnterFence(server, Sample(user, [rule]), w');
    OnlyUserIsKept(Sample(user, [rule]), Sample(user, [rule]), user);
    OneRuleDecides(r, rule, user.name, f);
    assert server.trace[mid].users == [user] && server.trace[mid].rules == [];
  }

  /** The recorded options with one more outbound. */
  function WithOutbound(o: Options, outbound: Outbound): Options {
    o.(outbounds := o.outbounds + [outbound])
  }

  lemma WithOutboundIsValid(o: Options, outbound: Outbound)
    requires Valid(o) && outbound.kind == "direct" && outbound.tag != "" && !HasTag(o.outbounds, outbound.tag)
    ensures Valid(WithOutbound(o, outbound)) && Immutable(WithOutbound(o, outbound)) == Immutable(o)
  {
    var next := WithOutbound(o, outbound);
    forall i | 0 <= i < |next.rules| ensures ValidRule(next, i) {
      assert ValidRule(o, i);
      if next.rules[i].action.Route? {
        var k :| 0 <= k < |o.outbounds| && o.outbounds[k].tag == next.rules[i].action.outbound;
        assert next.outbounds[k].tag == next.rules[i].action.outbound;
      }
    }
  }

  /**
   An outbound that a failed reload created stays listed, and turning back to the recorded options
   succeeds without removing it: the runtime is then not the one that the options describe.
   */
  method StrayOutboundSurvives(server: Server, stray: Outbound, w: World, w': World)
    returns (first: Option<Error>, second: Option<Error>)
    requires server.Sound() && server.recorded.Some? && server.Agrees()
    requires stray.kind == "direct" && stray.tag != "" && !HasTag(server.recorded.value.outbounds, stray.tag)
    requires Reaches(server, WithOutbound(server.recorded.value, stray), w) && w.creates(stray) == Made &&
             w.swap == Closed
    requires Reaches(server, server.recorded.value, w') && w'.swap == Swapped
    modifies server
    ensures first == Some(NotReplaced) && second.None?
    ensures server.recorded == old(server.recorded) && stray.tag in server.outbounds && !server.Agrees()
  {
    var previous := server.recorded.value;
    ghost var next := WithOutbound(previous, stray);
    WithOutboundIsValid(previous, stray);
    var closings, held;
    first, closings, held := server.Reload(WithOutbound(previous, stray), w);
    MergedAt(FenceOf(previous, next), LiveOf(previous.outbounds), |next.outbounds|, |previous.outbounds|);
    ghost var mid := server.outbounds;
    assert stray.tag in mid;
    second, closings, held := server.Reload(previous, w');
    ReloadedOther(FenceOf(previous, previous), mid, stray.tag);
    LiveKeys(previous.outbounds, stray.tag);
  }
}
