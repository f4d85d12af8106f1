/**
 What users get while a Hysteria server reloads: the decisions of their recorded configuration,
 exactly when the rules and outbounds that are running say so.
 */
module HysteriaSafety {
  import opened Wrappers
  import opened HysteriaPolicy
  import opened HysteriaCompare
  import opened HysteriaReload

  // --------------------------------------------------------------- safety

  lemma {:induction false} PolicyHolds(outbounds: seq<Outbound>, tags: set<string>, outbound: Outbound)
    ensures outbound in PolicyOutbounds(outbounds, tags) <==> outbound in outbounds && outbound.tag in tags
  {
    if |outbounds| == 0 {
    } else {
      var front := outbounds[..|outbounds| - 1];
      PolicyHolds(front, tags, outbound);
      assert outbounds == front + [outbounds[|outbounds| - 1]];
    }
  }

  lemma {:induction false} PolicyRoutes(rules: seq<Rule>, user: string, tag: string)
    requires tag in RouteTags(PolicyRules(rules, user))
    ensures tag in RouteTags(rules)
  {
    if |rules| == 0 {
    } else {
      var front, last := rules[..|rules| - 1], rules[|rules| - 1];
      assert rules == front + [last];
      RouteTagsSnoc(front, last);
      if Concerns(last, user) {
        RouteTagsSnoc(PolicyRules(front, user), Anonymous(last));
      } else {
        assert PolicyRules(rules, user) == PolicyRules(front, user);
      }
      if tag in RouteTags(PolicyRules(front, user)) {
        PolicyRoutes(front, user, tag);
      }
    }
  }

  /** A rule of a valid configuration routes to one of its outbounds. */
  lemma RoutedIsHeld(o: Options, tag: string) returns (outbound: Outbound)
    requires Valid(o) && tag in RouteTags(o.rules)
    ensures outbound in o.outbounds && outbound.tag == tag
  {
    var k :| 0 <= k < |o.rules| && o.rules[k].action.Route? && o.rules[k].action.outbound == tag;
    assert ValidRule(o, k);
    var i :| 0 <= i < |o.outbounds| && o.outbounds[i].tag == tag;
    outbound := o.outbounds[i];
  }

  /** Whatever a kept user's policy routes to is configured identically before and after. */
  lemma KeptRoutesAreStable(previous: Options, next: Options, name: string, tag: string, live: map<string, Live>)
    requires Valid(previous) && ValidOutbounds(next.outbounds)
    requires PolicyOf(previous, name) == PolicyOf(next, name)
    requires tag in RouteTags(PolicyRules(previous.rules, name))
    requires Stable(FenceOf(previous, next), live)
    ensures Resolved(live, tag) == Resolved(LiveOf(previous.outbounds), tag) == Resolved(LiveOf(next.outbounds), tag)
  {
    PolicyRoutes(previous.rules, name, tag);
    var outbound := RoutedIsHeld(previous, tag);
    var tags := RouteTags(PolicyRules(previous.rules, name));
    PolicyHolds(previous.outbounds, tags, outbound);
    PolicyHolds(next.outbounds, tags, outbound);
    LiveHolds(previous.outbounds, outbound);
    LiveHolds(next.outbounds, outbound);
  }

  /** The states that the safety theorem speaks about: recorded or next rules over running shared outbounds. */
  ghost predicate Fenced(fence: Fence, now: Runtime) {
    && now.users == fence.kept
    && (now.rules == fence.oldRules || now.rules == fence.newRules)
    && Stable(fence, now.outbounds)
  }

  /**
   In every fenced state, every user who can still log in gets for every flow the decision
   that both the previous and the next configuration give.
   */
  lemma FencedIsSafe<F>(r: Router<F>, previous: Options, next: Options, now: Runtime, user: User, f: F)
    requires Valid(previous) && Valid(next) && Fenced(FenceOf(previous, next), now)
    requires user in now.users
    requires Plain(previous.rules, user.name) && Plain(next.rules, user.name)
    ensures user in previous.users && user in next.users
    ensures Decide(r, now.rules, now.outbounds, user.name, f)
         == Decide(r, previous.rules, LiveOf(previous.outbounds), user.name, f)
         == Decide(r, next.rules, LiveOf(next.outbounds), user.name, f)
  {
    KeptHolds(previous, next, previous.users, user);
    var name := user.name;
    var policy := PolicyRules(previous.rules, name);
    var a, b := LiveOf(previous.outbounds), LiveOf(next.outbounds);
    PolicyDecides(r, now.rules, now.outbounds, name, f);
    PolicyDecides(r, previous.rules, a, name, f);
    PolicyDecides(r, next.rules, b, name, f);
    forall tag | tag in RouteTags(policy)
      ensures Resolved(now.outbounds, tag) == Resolved(a, tag) == Resolved(b, tag)
    {
      KeptRoutesAreStable(previous, next, name, tag, now.outbounds);
    }
    DecideLooksUp(r, policy, now.outbounds, a, name, f);
    DecideLooksUp(r, policy, now.outbounds, b, name, f);
  }

  /** The recorded rules run over the recorded outbounds, whatever else is listed. */
  ghost predicate Ready(previous: Options, now: Runtime) {
    && now.rules == previous.rules
    && (forall outbound :: outbound in previous.outbounds ==>
          Resolved(now.outbounds, outbound.tag) == Some(Direct(outbound)))
  }

  lemma AgreeingIsReady(previous: Options)
    requires Valid(previous)
    ensures Ready(previous, RuntimeOf(previous))
  {
    forall outbound | outbound in previous.outbounds
      ensures Resolved(LiveOf(previous.outbounds), outbound.tag) == Some(Direct(outbound))
    {
      LiveHolds(previous.outbounds, outbound);
    }
  }

  lemma ReadyIsFenced(previous: Options, next: Options, start: Runtime, now: Runtime)
    requires Valid(previous) && Valid(next) && Ready(previous, start)
    requires Between(FenceOf(previous, next), start, now)
    ensures Fenced(FenceOf(previous, next), now)
  {
    var fence := FenceOf(previous, next);
    forall outbound | Shared(fence, outbound) ensures Resolved(now.outbounds, outbound.tag) == Some(Direct(outbound)) {
      BetweenKeepsShared(fence, start, now, outbound);
    }
  }

  /** From a ready runtime every state of every reload is fenced, and so safe. */
  lemma ReadyReloadIsSafe<F>(r: Router<F>, previous: Options, next: Options, start: Runtime, now: Runtime, user: User,
                             f: F)
    requires Valid(previous) && Valid(next) && Ready(previous, start)
    requires Between(FenceOf(previous, next), start, now) && user in now.users
    requires Plain(previous.rules, user.name) && Plain(next.rules, user.name)
    ensures Fenced(FenceOf(previous, next), now)
    ensures Decide(r, now.rules, now.outbounds, user.name, f)
         == Decide(r, previous.rules, LiveOf(previous.outbounds), user.name, f)
         == Decide(r, next.rules, LiveOf(next.outbounds), user.name, f)
  {
    ReadyIsFenced(previous, next, start, now);
    FencedIsSafe(r, previous, next, now, user, f);
  }

  // ------------------------------------------------ exactly when a reload is safe

  /** Rules over outbounds, against the recorded configuration. */
  function Against(previous: Options, rules: seq<Rule>, live: map<string, Live>): Pair {
    Pair(rules, live, previous.rules, LiveOf(previous.outbounds))
  }

  /**
   What can be compared before a reload: the running rules over the outbounds listed just before the
   swap, and the next rules over the outbounds left at the end, both against the recorded ones.
   */
  predicate Passes(previous: Options, next: Options, start: Runtime, user: string) {
    var fence := FenceOf(previous, next);
    && Alike(Against(previous, start.rules, AllMerged(fence, start.outbounds)), user)
    && Alike(Against(previous, next.rules, Reloaded(fence, start.outbounds)), user)
  }

  /** Every state decides every flow of the user as the recorded configuration does. */
  ghost predicate AlwaysAsRecorded(previous: Options, states: seq<Runtime>, user: string) {
    forall k, f :: 0 <= k < |states| ==>
      SameDecision(Scripted(), Against(previous, states[k].rules, states[k].outbounds), user, f)
  }

  /** A recorded tag that resolves as recorded just before the swap has not been touched by any creation. */
  lemma CreationKeeps(fence: Fence, live: map<string, Live>, i: nat, now: map<string, Live>, outbound: Outbound)
    requires ValidFence(fence) && i <= |fence.newOutbounds| && CreatedUpTo(fence, live, i, now)
    requires outbound in fence.oldOutbounds && Resolved(AllMerged(fence, live), outbound.tag) == Some(Direct(outbound))
    ensures Resolved(now, outbound.tag) == Some(Direct(outbound))
  {
    if k :| 0 <= k < |fence.newOutbounds| && fence.newOutbounds[k].tag == outbound.tag {
      MergedAt(fence, live, |fence.newOutbounds|, k);
      MergedAt(fence, live, i, k);
    } else {
      MergedKeepsOthers(fence, live, |fence.newOutbounds|, outbound.tag);
      MergedKeepsOthers(fence, live, i, outbound.tag);
    }
  }

  lemma RemovalKeeps(fence: Fence, live: map<string, Live>, i: nat, tag: string)
    requires i <= |fence.oldOutbounds| && HasTag(fence.oldOutbounds, tag) && Resolved(Reloaded(fence, live), tag).Some?
    ensures Resolved(Pruned(fence, AllMerged(fence, live), i), tag) == Resolved(Reloaded(fence, live), tag)
  {
    assert fence.oldOutbounds[..|fence.oldOutbounds|] == fence.oldOutbounds;
    PrunedAt(fence, AllMerged(fence, live), |fence.oldOutbounds|, tag);
    PrunedAt(fence, AllMerged(fence, live), i, tag);
  }

  /** A tag that the recorded rules route to resolves to a recorded outbound. */
  lemma RecordedResolves(previous: Options, tag: string) returns (outbound: Outbound)
    requires Valid(previous) && tag in RouteTags(previous.rules)
    ensures outbound in previous.outbounds && outbound.tag == tag
    ensures Resolved(LiveOf(previous.outbounds), tag) == Some(Direct(outbound))
  {
    outbound := RoutedIsHeld(previous, tag);
    LiveHolds(previous.outbounds, outbound);
  }

  lemma CreatingIsAlike(previous: Options, next: Options, start: Runtime, now: Runtime, user: string)
    requires Valid(previous) && Valid(next) && Creating(FenceOf(previous, next), start, now)
    requires Alike(Against(previous, start.rules, AllMerged(FenceOf(previous, next), start.outbounds)), user)
    ensures Alike(Against(previous, now.rules, now.outbounds), user)
  {
    var fence, tags := FenceOf(previous, next), RouteTags(previous.rules);
    var p := Against(previous, start.rules, AllMerged(fence, start.outbounds));
    var i :| 0 <= i <= |fence.newOutbounds| && CreatedUpTo(fence, start.outbounds, i, now.outbounds);
    forall tag | tag in tags && Resolved(p.live, tag) == Resolved(p.live', tag)
      ensures Resolved(now.outbounds, tag) == Resolved(p.live', tag)
    {
      var outbound := RecordedResolves(previous, tag);
      CreationKeeps(fence, start.outbounds, i, now.outbounds, outbound);
    }
    SameMoves(p, now.outbounds, user, map[], tags);
  }

  lemma RemovingIsAlike(previous: Options, next: Options, start: Runtime, now: Runtime, user: string)
    requires Valid(previous) && Removing(FenceOf(previous, next), start, now)
    requires Alike(Against(previous, next.rules, Reloaded(FenceOf(previous, next), start.outbounds)), user)
    ensures Alike(Against(previous, now.rules, now.outbounds), user)
  {
    var fence, tags := FenceOf(previous, next), RouteTags(previous.rules);
    var p := Against(previous, next.rules, Reloaded(fence, start.outbounds));
    var i :| 0 <= i <= |fence.oldOutbounds| && now.outbounds == Pruned(fence, AllMerged(fence, start.outbounds), i);
    forall tag | tag in tags && Resolved(p.live, tag) == Resolved(p.live', tag)
      ensures Resolved(now.outbounds, tag) == Resolved(p.live', tag)
    {
      var outbound := RecordedResolves(previous, tag);
      RemovalKeeps(fence, start.outbounds, i, tag);
    }
    SameMoves(p, now.outbounds, user, map[], tags);
  }

  /** A user who passes gets the recorded decision in every state, under every router, whatever fails. */
  lemma PassingIsSafe<F>(r: Router<F>, previous: Options, next: Options, start: Runtime, now: Runtime, user: string,
                         f: F)
    requires Valid(previous) && Valid(next) && Passes(previous, next, start, user)
    requires Between(FenceOf(previous, next), start, now)
    ensures Decide(r, now.rules, now.outbounds, user, f)
         == Decide(r, previous.rules, LiveOf(previous.outbounds), user, f)
  {
    if Creating(FenceOf(previous, next), start, now) {
      CreatingIsAlike(previous, next, start, now, user);
    } else {
      RemovingIsAlike(previous, next, start, now, user);
    }
    AlikeDecides(r, Against(previous, now.rules, now.outbounds), user, f);
  }

  /**
   From any runtime, with any rules: all states of a reload that completes decide every flow of a user
   as the recorded configuration does if and only if the user passes.
   */
  lemma ReloadIsSafeIff(previous: Options, next: Options, start: Runtime, states: seq<Runtime>, user: string)
    requires Valid(previous) && Valid(next)
    requires forall k :: 0 <= k < |states| ==> Between(FenceOf(previous, next), start, states[k])
    requires Visits(states, FenceOf(previous, next), start)
    ensures AlwaysAsRecorded(previous, states, user) <==> Passes(previous, next, start, user)
  {
    var fence := FenceOf(previous, next);
    if Passes(previous, next, start, user) {
      forall k, f | 0 <= k < |states|
        ensures SameDecision(Scripted(), Against(previous, states[k].rules, states[k].outbounds), user, f)
      {
        PassingIsSafe(Scripted(), previous, next, start, states[k], user, f);
      }
    }
    if AlwaysAsRecorded(previous, states, user) {
      SeenIsAlike(previous, states, Runtime(fence.kept, AllMerged(fence, start.outbounds), start.rules), user);
      SeenIsAlike(previous, states, Runtime(fence.kept, Reloaded(fence, start.outbounds), next.rules), user);
    }
  }

  lemma SeenIsAlike(previous: Options, states: seq<Runtime>, now: Runtime, user: string)
    requires AlwaysAsRecorded(previous, states, user) && now in states
    ensures Alike(Against(previous, now.rules, now.outbounds), user)
  {
    var k :| 0 <= k < |states| && states[k] == now;
    forall f ensures SameDecision(Scripted(), Against(previous, now.rules, now.outbounds), user, f) {
      assert SameDecision(Scripted(), Against(previous, states[k].rules, states[k].outbounds), user, f);
    }
    AlikeIff(Against(previous, now.rules, now.outbounds), user);
  }

  /** From a ready runtime every kept user whose rules are read as the router does passes. */
  lemma KeptPasses(previous: Options, next: Options, start: Runtime, user: User)
    requires Valid(previous) && Valid(next) && Ready(previous, start)
    requires user in FenceOf(previous, next).kept
    requires Plain(previous.rules, user.name) && Plain(next.rules, user.name)
    ensures Passes(previous, next, start, user.name)
  {
    var fence := FenceOf(previous, next);
    var before := Runtime(fence.kept, AllMerged(fence, start.outbounds), start.rules);
    var after := Runtime(fence.kept, Reloaded(fence, start.outbounds), next.rules);
    assert CreatedUpTo(fence, start.outbounds, |next.outbounds|, before.outbounds);
    forall f ensures SameDecision(Scripted(), Against(previous, before.rules, before.outbounds), user.name, f) {
      ReadyReloadIsSafe(Scripted(), previous, next, start, before, user, f);
    }
    forall f ensures SameDecision(Scripted(), Against(previous, after.rules, after.outbounds), user.name, f) {
      ReadyReloadIsSafe(Scripted(), previous, next, start, after, user, f);
    }
    AlikeIff(Against(previous, before.rules, before.outbounds), user.name);
    AlikeIff(Against(previous, after.rules, after.outbounds), user.name);
  }

  // ------------------------------------------------------ reloads after a failure

  /** The first state of the next reload. */
  function AtFence(previous: Options, next: Options, now: Runtime): Runtime {
    now.(users := KeptOf(previous, next, previous.users))
  }

  ghost predicate AlwaysFenced(previous: Options, now: Runtime)
    requires Valid(previous)
  {
    forall next :: Valid(next) && Immutable(next) == Immutable(previous) ==>
      Fenced(FenceOf(previous, next), AtFence(previous, next, now))
  }

  /** The runtimes from which every next reload begins fenced are exactly the ready ones. */
  lemma NextReloadIsFencedIff(previous: Options, now: Runtime)
    requires Valid(previous)
    ensures AlwaysFenced(previous, now) <==> Ready(previous, now)
  {
    if AlwaysFenced(previous, now) {
      assert Fenced(FenceOf(previous, previous), AtFence(previous, previous, now));
      forall outbound | outbound in previous.outbounds
        ensures Resolved(now.outbounds, outbound.tag) == Some(Direct(outbound))
      {
        assert Shared(FenceOf(previous, previous), outbound);
      }
    }
  }

  lemma {:induction false} AllKept(previous: Options, users: seq<User>)
    requires forall user :: user in users ==> user in previous.users
    ensures KeptOf(previous, previous, users) == users
  {
    if |users| == 0 {
    } else {
      var front := users[..|users| - 1];
      assert users == front + [users[|users| - 1]];
      AllKept(previous, front);
      assert IsKept(previous, previous, users[|users| - 1]);
    }
  }

  /** At the fence of every next reload, every flow of everyone who may log in is decided as recorded. */
  ghost predicate AlwaysSafe(previous: Options, now: Runtime)
    requires Valid(previous)
  {
    forall next, user :: Valid(next) && Immutable(next) == Immutable(previous) &&
                         user in AtFence(previous, next, now).users ==>
      forall f :: SameDecision(Scripted(), Against(previous, now.rules, now.outbounds), user.name, f)
  }

  /**
   The fence of every next reload is safe if and only if the running rules over the running outbounds
   compare alike with the recorded ones for every recorded user.
   */
  lemma NextFenceIsSafeIff(previous: Options, now: Runtime)
    requires Valid(previous)
    ensures AlwaysSafe(previous, now) <==>
            forall user :: user in previous.users ==> Alike(Against(previous, now.rules, now.outbounds), user.name)
  {
    forall user ensures Alike(Against(previous, now.rules, now.outbounds), user) <==>
                        forall f :: SameDecision(Scripted(), Against(previous, now.rules, now.outbounds), user, f)
    {
      AlikeIff(Against(previous, now.rules, now.outbounds), user);
    }
    AllKept(previous, previous.users);
    assert AtFence(previous, previous, now).users == previous.users;
    forall next, user | user in AtFence(previous, next, now).users ensures user in previous.users {
      KeptHolds(previous, next, previous.users, user);
    }
  }

  /** The running rules give the user the recorded policy, over the outbounds that were recorded for it. */
  ghost predicate RunsPolicy(previous: Options, now: Runtime, user: string) {
    && PolicyRules(now.rules, user) == PolicyRules(previous.rules, user)
    && forall tag :: tag in RouteTags(PolicyRules(previous.rules, user)) ==>
         Resolved(now.outbounds, tag) == Resolved(LiveOf(previous.outbounds), tag)
  }

  lemma RunningPolicyDecides<F>(r: Router<F>, previous: Options, now: Runtime, user: string, f: F)
    requires RunsPolicy(previous, now, user) && Plain(now.rules, user) && Plain(previous.rules, user)
    ensures Decide(r, now.rules, now.outbounds, user, f)
         == Decide(r, previous.rules, LiveOf(previous.outbounds), user, f)
  {
    PolicyDecides(r, now.rules, now.outbounds, user, f);
    PolicyDecides(r, previous.rules, LiveOf(previous.outbounds), user, f);
    DecideLooksUp(r, PolicyRules(previous.rules, user), now.outbounds, LiveOf(previous.outbounds), user, f);
  }

  /** Equal policies over equally resolved outbounds compare alike. */
  lemma RunningPolicyIsAlike(previous: Options, now: Runtime, user: string)
    requires RunsPolicy(previous, now, user) && Plain(now.rules, user) && Plain(previous.rules, user)
    ensures Alike(Against(previous, now.rules, now.outbounds), user)
  {
    forall f ensures SameDecision(Scripted(), Against(previous, now.rules, now.outbounds), user, f) {
      RunningPolicyDecides(Scripted(), previous, now, user, f);
    }
    AlikeIff(Against(previous, now.rules, now.outbounds), user);
  }

  /**
   A reload from an agreeing runtime that fails at any point misleads nobody whom it left logged in:
   at the fence of any later reload they still get the recorded decision.
   */
  lemma FailureKeepsItsUsers<F>(
      r: Router<F>, previous: Options, failed: Options, later: Options, now: Runtime, user: User, f: F)
    requires Valid(previous) && Valid(failed)
    requires Between(FenceOf(previous, failed), RuntimeOf(previous), now) && user in now.users
    requires Plain(previous.rules, user.name) && Plain(failed.rules, user.name)
    ensures Decide(r, AtFence(previous, later, now).rules, AtFence(previous, later, now).outbounds, user.name, f)
         == Decide(r, previous.rules, LiveOf(previous.outbounds), user.name, f)
  {
    AgreeingIsReady(previous);
    ReadyReloadIsSafe(r, previous, failed, RuntimeOf(previous), now, user, f);
  }
}
