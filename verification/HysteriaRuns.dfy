/**
 Any number of reloads one after another, each of which may be refused, fail half way or complete.
 */
module HysteriaRuns {
  import opened Wrappers
  import opened HysteriaPolicy
  import opened HysteriaReload
  import opened HysteriaSafety

  /** The configuration lists the user with this policy, and its rules are read as the router does. */
  predicate Holds(o: Options, user: User, policy: Policy) {
    user in o.users && PolicyOf(o, user.name) == policy && Plain(o.rules, user.name)
  }

  /** Every configuration of the run that could take effect has the user's account as the first one has it. */
  predicate Steady(first: Options, run: seq<(Options, World)>, user: User) {
    && Holds(first, user, PolicyOf(first, user.name))
    && forall i :: 0 <= i < |run| && Valid(run[i].0) ==> Holds(run[i].0, user, PolicyOf(first, user.name))
  }

  /** The user may log in and gets the policy of the first configuration over its outbounds. */
  ghost predicate Served(first: Options, now: Runtime, user: User) {
    user in now.users && RunsPolicy(first, now, user.name) && Plain(now.rules, user.name)
  }

  ghost predicate ServedIn(first: Options, states: seq<Runtime>, user: User) {
    forall k :: 0 <= k < |states| ==> Served(first, states[k], user)
  }

  /** A served user's flows are all decided as the first configuration decides them. */
  lemma ServedDecides<F>(r: Router<F>, first: Options, now: Runtime, user: User, f: F)
    requires Served(first, now, user) && Plain(first.rules, user.name)
    ensures Decide(r, now.rules, now.outbounds, user.name, f)
         == Decide(r, first.rules, LiveOf(first.outbounds), user.name, f)
  {
    RunningPolicyDecides(r, first, now, user.name, f);
  }

  /** A user keeps being served while a reload between two configurations that hold the account goes on. */
  lemma BetweenServes(first: Options, previous: Options, next: Options, start: Runtime, now: Runtime, user: User)
    requires Valid(previous) && Valid(next) && Between(FenceOf(previous, next), start, now)
    requires Holds(previous, user, PolicyOf(first, user.name)) && Holds(next, user, PolicyOf(first, user.name))
    requires Served(first, start, user)
    ensures Served(first, now, user)
  {
    var fence, rules := FenceOf(previous, next), PolicyRules(first.rules, user.name);
    KeptHolds(previous, next, previous.users, user);
    forall tag | tag in RouteTags(rules)
      ensures Resolved(now.outbounds, tag) == Resolved(LiveOf(first.outbounds), tag)
    {
      var outbound := AccountIsShared(previous, next, user.name, tag);
      BetweenKeepsShared(fence, start, now, outbound);
    }
  }

  lemma AccountIsShared(previous: Options, next: Options, user: string, tag: string) returns (outbound: Outbound)
    requires Valid(previous) && PolicyOf(previous, user) == PolicyOf(next, user)
    requires tag in RouteTags(PolicyRules(previous.rules, user))
    ensures Shared(FenceOf(previous, next), outbound) && outbound.tag == tag
  {
    PolicyRoutes(previous.rules, user, tag);
    outbound := RoutedIsHeld(previous, tag);
    var tags := RouteTags(PolicyRules(previous.rules, user));
    PolicyHolds(previous.outbounds, tags, outbound);
    PolicyHolds(next.outbounds, tags, outbound);
  }

  lemma EndServes(first: Options, previous: Options, next: Options, start: Runtime, user: User)
    requires Valid(previous) && Valid(next)
    requires Holds(previous, user, PolicyOf(first, user.name)) && Holds(next, user, PolicyOf(first, user.name))
    requires Served(first, start, user)
    ensures Served(first, Runtime(next.users, Reloaded(FenceOf(previous, next), start.outbounds), next.rules), user)
  {
    var fence := FenceOf(previous, next);
    var last := Runtime(fence.kept, Reloaded(fence, start.outbounds), next.rules);
    BetweenServes(first, previous, next, start, last, user);
  }

  /** The account is the same before and after, if there is an after. */
  predicate Unaffected(first: Options, previous: Options, next: Options, user: User) {
    && Holds(previous, user, PolicyOf(first, user.name))
    && (Valid(next) ==> Holds(next, user, PolicyOf(first, user.name)))
  }

  /** What one reload does to the users whose account it does not change. */
  ghost predicate Serves(
    first: Options, previous: Options, next: Options, start: Runtime, states: seq<Runtime>, end: Runtime)
  {
    forall user :: Unaffected(first, previous, next, user) && Served(first, start, user) ==>
      ServedIn(first, states, user) && Served(first, end, user)
  }

  /** Exactly the users who pass get every flow decided as recorded in all of these states. */
  ghost predicate Sorts(previous: Options, next: Options, start: Runtime, states: seq<Runtime>) {
    forall user :: AlwaysAsRecorded(previous, states, user) <==> Passes(previous, next, start, user)
  }

  lemma CompletedSorts(
      previous: Options, next: Options, start: Runtime, before: seq<Runtime>, after: seq<Runtime>, end: Runtime)
    requires Valid(previous) && Valid(next) && Completed(before, after, FenceOf(previous, next), start, end)
    ensures Sorts(previous, next, start, after[..|after| - 1][|before|..])
  {
    var front := after[..|after| - 1];
    var states := front[|before|..];
    forall k | 0 <= k < |states| ensures Between(FenceOf(previous, next), start, states[k]) {
      assert states[k] == front[|before| + k];
    }
    forall user ensures AlwaysAsRecorded(previous, states, user) <==> Passes(previous, next, start, user) {
      ReloadIsSafeIff(previous, next, start, states, user);
    }
  }

  lemma SegmentServes(
      first: Options, previous: Options, next: Options, start: Runtime,
      before: seq<Runtime>, after: seq<Runtime>, user: User)
    requires Valid(previous) && Valid(next) && Extends(before, after, FenceOf(previous, next), start)
    requires Unaffected(first, previous, next, user) && Served(first, start, user)
    ensures ServedIn(first, after[|before|..], user)
  {
    var states := after[|before|..];
    forall k | 0 <= k < |states| ensures Served(first, states[k], user) {
      assert states[k] == after[|before| + k];
      BetweenServes(first, previous, next, start, states[k], user);
    }
  }

  lemma FailedServes(
      first: Options, previous: Options, next: Options, start: Runtime,
      before: seq<Runtime>, after: seq<Runtime>, end: Runtime)
    requires Valid(previous) && Valid(next) && Stopped(before, after, FenceOf(previous, next), start, end)
    ensures Serves(first, previous, next, start, after[|before|..], end)
  {
    forall user | Unaffected(first, previous, next, user) && Served(first, start, user)
      ensures ServedIn(first, after[|before|..], user) && Served(first, end, user)
    {
      SegmentServes(first, previous, next, start, before, after, user);
      BetweenServes(first, previous, next, start, end, user);
    }
  }

  lemma CompletedServes(
      first: Options, previous: Options, next: Options, start: Runtime,
      before: seq<Runtime>, after: seq<Runtime>, end: Runtime)
    requires Valid(previous) && Valid(next) && Completed(before, after, FenceOf(previous, next), start, end)
    requires end == Runtime(next.users, Reloaded(FenceOf(previous, next), start.outbounds), next.rules)
    ensures Serves(first, previous, next, start, after[|before|..], end)
  {
    var front := after[..|after| - 1];
    assert after[|before|..] == front[|before|..] + [end];
    forall user | Unaffected(first, previous, next, user) && Served(first, start, user)
      ensures ServedIn(first, after[|before|..], user) && Served(first, end, user)
    {
      SegmentServes(first, previous, next, start, before, front, user);
      EndServes(first, previous, next, start, user);
    }
  }

  /** All that can become of a reload: refused, stopped behind the fence, or completed. */
  ghost predicate Course(
    previous: Options, next: Options, start: Runtime, before: seq<Runtime>,
    error: Option<Error>, after: seq<Runtime>, end: Runtime)
    requires Valid(previous)
  {
    if error.None? then
      && Valid(next) && SameFixed(previous, next)
      && Completed(before, after, FenceOf(previous, next), start, end)
      && end == Runtime(next.users, Reloaded(FenceOf(previous, next), start.outbounds), next.rules)
    else
      || (after == before && end == start)
      || (Valid(next) && Stopped(before, after, FenceOf(previous, next), start, end))
  }

  /** One reload, from any runtime, takes one of these courses. */
  method ReloadOne(server: Server, next: Options, w: World) returns (error: Option<Error>)
    requires server.Sound() && server.recorded.Some?
    modifies server
    ensures server.Sound() && server.recorded == if error.None? then Some(next) else old(server.recorded)
    ensures Course(old(server.recorded).value, next, old(server.Now()), old(server.trace),
                   error, server.trace, server.Now())
  {
    var closings, held;
    error, closings, held := server.Reload(next, w);
  }

  /**
   If the reload completes, then exactly the users who pass get every flow decided as recorded in all states
   of its trace up to the update of the users.
   */
  lemma CourseSorts(
      previous: Options, next: Options, start: Runtime, before: seq<Runtime>, after: seq<Runtime>, end: Runtime)
    requires Valid(previous) && Course(previous, next, start, before, None, after, end)
    ensures |after| > |before| && Sorts(previous, next, start, after[..|after| - 1][|before|..])
  {
    CompletedSorts(previous, next, start, before, after, end);
  }

  /** Whatever becomes of the reload, users whose account it does not change are served in every state. */
  lemma CourseServes(
      first: Options, previous: Options, next: Options, start: Runtime, before: seq<Runtime>,
      error: Option<Error>, after: seq<Runtime>, end: Runtime)
    requires Valid(previous) && Course(previous, next, start, before, error, after, end)
    ensures before <= after && Serves(first, previous, next, start, after[|before|..], end)
  {
    if error.None? {
      CompletedServes(first, previous, next, start, before, after, end);
    } else if after == before && end == start {
      assert after[|before|..] == [];
    } else {
      FailedServes(first, previous, next, start, before, after, end);
    }
  }

  /** The configuration recorded after a run: that of the last reload that completed. */
  function RecordedAfter(first: Options, run: seq<(Options, World)>, errors: seq<Option<Error>>): Options
    requires |run| == |errors|
  {
    if |run| == 0 then first
    else if errors[|run| - 1].None? then run[|run| - 1].0
    else RecordedAfter(first, run[..|run| - 1], errors[..|run| - 1])
  }

  lemma RecordedNext(
      first: Options, run: seq<(Options, World)>, i: nat, errors: seq<Option<Error>>, error: Option<Error>)
    requires |errors| == i < |run|
    ensures RecordedAfter(first, run[..i + 1], errors + [error]) ==
            if error.None? then run[i].0 else RecordedAfter(first, run[..i], errors)
  {
    assert run[..i + 1][..i] == run[..i] && (errors + [error])[..i] == errors;
  }

  lemma {:induction false} RecordedIsOne(first: Options, run: seq<(Options, World)>, errors: seq<Option<Error>>)
    requires |run| == |errors|
    ensures var o := RecordedAfter(first, run, errors);
            o == first || exists i :: 0 <= i < |run| && run[i].0 == o
  {
    if |run| == 0 {
    } else if errors[|run| - 1].Some? {
      var front := run[..|run| - 1];
      RecordedIsOne(first, front, errors[..|run| - 1]);
      var o := RecordedAfter(first, front, errors[..|run| - 1]);
      if i :| 0 <= i < |front| && front[i].0 == o {
        assert run[i].0 == o;
      }
    }
  }

  /** The users whose account is the same throughout are served in these states and now. */
  ghost predicate AlwaysServed(first: Options, run: seq<(Options, World)>, states: seq<Runtime>, now: Runtime) {
    forall user :: Steady(first, run, user) ==> ServedIn(first, states, user) && Served(first, now, user)
  }

  lemma FirstServes(first: Options, run: seq<(Options, World)>)
    ensures AlwaysServed(first, run, [], RuntimeOf(first))
  {
  }

  lemma MoreServes(first: Options, run: seq<(Options, World)>, i: nat, previous: Options, states: seq<Runtime>,
                   start: Runtime, more: seq<Runtime>, end: Runtime)
    requires i < |run| && Valid(previous) && (previous == first || exists j :: 0 <= j < |run| && run[j].0 == previous)
    requires AlwaysServed(first, run, states, start) && Serves(first, previous, run[i].0, start, more, end)
    ensures AlwaysServed(first, run, states + more, end)
  {
    forall user | Steady(first, run, user)
      ensures ServedIn(first, states + more, user) && Served(first, end, user)
    {
      assert Unaffected(first, previous, run[i].0, user);
    }
  }

  /** One more reload of the run keeps everyone served. */
  lemma ServedOn(first: Options, run: seq<(Options, World)>, i: nat, errors: seq<Option<Error>>,
                 before: seq<Runtime>, mid: seq<Runtime>, start: Runtime,
                 error: Option<Error>, after: seq<Runtime>, end: Runtime)
    requires |errors| == i < |run| && before <= mid && Valid(RecordedAfter(first, run[..i], errors))
    requires AlwaysServed(first, run, mid[|before|..], start)
    requires Course(RecordedAfter(first, run[..i], errors), run[i].0, start, mid, error, after, end)
    ensures before <= after && AlwaysServed(first, run, after[|before|..], end)
  {
    var previous := RecordedAfter(first, run[..i], errors);
    RecordedSoFar(first, run, i, errors);
    CourseServes(first, previous, run[i].0, start, mid, error, after, end);
    MoreServes(first, run, i, previous, mid[|before|..], start, after[|mid|..], end);
    assert after[|before|..] == mid[|before|..] + after[|mid|..];
  }

  lemma RecordedSoFar(first: Options, run: seq<(Options, World)>, i: nat, errors: seq<Option<Error>>)
    requires |errors| == i <= |run|
    ensures var o := RecordedAfter(first, run[..i], errors);
            o == first || exists j :: 0 <= j < |run| && run[j].0 == o
  {
    RecordedIsOne(first, run[..i], errors);
    var o := RecordedAfter(first, run[..i], errors);
    if j :| 0 <= j < i && run[..i][j].0 == o {
      assert run[j].0 == o;
    }
  }

  lemma CourseExtends(previous: Options, next: Options, start: Runtime, before: seq<Runtime>,
                      error: Option<Error>, after: seq<Runtime>, end: Runtime)
    requires Valid(previous) && Course(previous, next, start, before, error, after, end)
    ensures before <= after && (error.None? ==> SameFixed(previous, next))
  {
  }

  /** Without recorded options every reload is refused. */
  method RefuseAll(server: Server, run: seq<(Options, World)>) returns (errors: seq<Option<Error>>)
    requires server.recorded.None?
    modifies server
    ensures |errors| == |run| && forall i :: 0 <= i < |run| ==> errors[i] == Some(Disabled)
    ensures server.recorded.None? && server.Now() == old(server.Now()) && server.trace == old(server.trace)
  {
    errors := [];
    for i := 0 to |run|
      invariant |errors| == i && forall j :: 0 <= j < i ==> errors[j] == Some(Disabled)
      invariant server.recorded.None? && server.Now() == old(server.Now()) && server.trace == old(server.trace)
    {
      var error, closings, held := server.Reload(run[i].0, run[i].1);
      errors := errors + [error];
    }
  }

  /**
   Any run of reloads, with any outcomes. The recorded options are those of the last one that completed,
   and their immutable part never changes. From an agreeing runtime, every user whose account is the same
   in all configurations may log in throughout and is served as at the start, whatever fails on the way.
   */
  method ReloadAll(server: Server, run: seq<(Options, World)>) returns (errors: seq<Option<Error>>)
    requires server.Sound() && server.recorded.Some?
    modifies server
    ensures server.Sound() && |errors| == |run|
    ensures server.recorded == Some(RecordedAfter(old(server.recorded).value, run, errors))
    ensures SameFixed(old(server.recorded).value, server.recorded.value)
    ensures old(server.trace) <= server.trace
    ensures old(server.Agrees()) ==>
              AlwaysServed(old(server.recorded).value, run, server.trace[|old(server.trace)|..], server.Now())
  {
    ghost var first, before, agrees := server.recorded.value, server.trace, server.Agrees();
    if agrees {
      FirstServes(first, run);
    }
    assert server.trace[|before|..] == [];
    errors := [];
    for i := 0 to |run|
      invariant server.Sound() && |errors| == i && server.recorded.Some?
      invariant server.recorded == Some(RecordedAfter(first, run[..i], errors))
      invariant SameFixed(first, server.recorded.value)
      invariant before <= server.trace
      invariant agrees ==> AlwaysServed(first, run, server.trace[|before|..], server.Now())
    {
      ghost var previous, start, mid := server.recorded.value, server.Now(), server.trace;
      var error := ReloadOne(server, run[i].0, run[i].1);
      CourseExtends(previous, run[i].0, start, mid, error, server.trace, server.Now());
      if agrees {
        ServedOn(first, run, i, errors, before, mid, start, error, server.trace, server.Now());
      }
      RecordedNext(first, run, i, errors, error);
      errors := errors + [error];
    }
    assert run[..|run|] == run;
  }
}
