/**
 Live reload of a Hysteria server: users, outbounds and rules are replaced one after
 another while flows keep arriving, and any step may fail and return early.
 */
module HysteriaReload {
  import opened Wrappers
  import opened HysteriaPolicy

  /** What flows see: who may log in, what each tag resolves to, and the rules. */
  datatype Runtime = Runtime(users: seq<User>, outbounds: map<string, Live>, rules: seq<Rule>)

  /** What each tag resolves to once the outbounds have been created in order. */
  function LiveOf(outbounds: seq<Outbound>): map<string, Live> {
    if |outbounds| == 0 then map[]
    else
      var last := outbounds[|outbounds| - 1];
      LiveOf(outbounds[..|outbounds| - 1])[last.tag := Direct(last)]
  }

  function RuntimeOf(o: Options): Runtime {
    Runtime(o.users, LiveOf(o.outbounds), o.rules)
  }

  /** Everything a reload may not change. */
  function Immutable(o: Options): Options
    requires |o.inbounds| == 2 ==> |o.rules| > 0
  {
    o.(users := [], outbounds := [], rules := if |o.inbounds| == 2 then o.rules[..1] else [])
  }

  /** Listener, DNS inbound and its rule, and every option besides users, outbounds and the other rules agree. */
  predicate SameFixed(a: Options, b: Options) {
    && a.rest == b.rest && a.reloadable == b.reloadable && a.routed == b.routed && a.inbounds == b.inbounds
    && (|a.inbounds| == 2 ==> |a.rules| > 0 && |b.rules| > 0 && a.rules[0] == b.rules[0])
  }

  /** The parts that are compared are exactly these. */
  lemma ImmutableIff(a: Options, b: Options)
    requires |a.inbounds| == 2 ==> |a.rules| > 0
    requires |b.inbounds| == 2 ==> |b.rules| > 0
    ensures Immutable(a) == Immutable(b) <==> SameFixed(a, b)
  {
    if |a.inbounds| == 2 && |b.inbounds| == 2 {
      assert a.rules[..1] == [a.rules[0]] && b.rules[..1] == [b.rules[0]];
    }
  }

  // ------------------------------------------------------- outside the reload

  /**
   Creating an outbound: `Made`; `Refused`, nothing changed; `Damaged`, the outbound it
   should replace did not close; `Substituted`, a stand-in is listed and no error reported.
   */
  datatype Creation = Made | Refused | Damaged | Substituted

  /** Replacing the rules: `Swapped`; `Closed`, the router closes the new rules; `SwappedWithError`. */
  datatype Replacement = Swapped | Closed | SwappedWithError

  datatype World = World(
    prepares: bool,
    builds: Outbound -> bool,
    listening: bool,
    updatable: bool,
    creates: Outbound -> Creation,
    swap: Replacement,
    removes: string -> bool)

  datatype Error = Disabled | Invalid | ImmutableChange | NotPrepared | NotBuilt | InboundMissing | InboundUnsupported
                 | NotCreated | Unverified | NotReplaced | NotRemoved

  /** What a reload reports before it touches the runtime, or None if it goes on to the fence. */
  function Refusal(recorded: Option<Options>, next: Options, w: World): Option<Error>
    requires recorded.Some? ==> Valid(recorded.value)
  {
    if recorded.None? then Some(Disabled)
    else if !Valid(next) then Some(Invalid)
    else if Immutable(recorded.value) != Immutable(next) then Some(ImmutableChange)
    else if !w.prepares then Some(NotPrepared)
    else if exists i :: 0 <= i < |next.outbounds| && !w.builds(next.outbounds[i]) then Some(NotBuilt)
    else if !w.listening then Some(InboundMissing)
    else if !w.updatable then Some(InboundUnsupported)
    else None
  }

  predicate Prepared(recorded: Option<Options>, next: Options, w: World)
    requires recorded.Some? ==> Valid(recorded.value)
  {
    recorded.Some? && Valid(next) && Immutable(recorded.value) == Immutable(next) && w.prepares
  }

  predicate CreatesAll(w: World, outdated: seq<Outbound>, wanted: seq<Outbound>) {
    forall i :: 0 <= i < |wanted| && wanted[i] !in outdated ==> w.creates(wanted[i]) == Made
  }

  /** An outdated outbound is still wanted, or is listed and closes. */
  predicate Goes(w: World, outbound: Outbound, wanted: seq<Outbound>, live: map<string, Live>) {
    HasTag(wanted, outbound.tag) || (outbound.tag in live && w.removes(outbound.tag))
  }

  predicate RemovesAll(w: World, outdated: seq<Outbound>, wanted: seq<Outbound>, live: map<string, Live>) {
    forall i :: 0 <= i < |outdated| ==> Goes(w, outdated[i], wanted, live)
  }

  // ------------------------------------------------------------ kept accounts

  predicate IsKept(previous: Options, next: Options, user: User) {
    user in next.users && PolicyOf(previous, user.name) == PolicyOf(next, user.name)
  }

  function KeptOf(previous: Options, next: Options, users: seq<User>): seq<User> {
    if |users| == 0 then []
    else
      KeptOf(previous, next, users[..|users| - 1]) +
      (if IsKept(previous, next, users[|users| - 1]) then [users[|users| - 1]] else [])
  }

  lemma {:induction false} KeptHolds(previous: Options, next: Options, users: seq<User>, user: User)
    ensures user in KeptOf(previous, next, users) <==> user in users && IsKept(previous, next, user)
  {
    if |users| == 0 {
    } else {
      var front := users[..|users| - 1];
      KeptHolds(previous, next, front, user);
      assert users == front + [users[|users| - 1]];
    }
  }

  /** The parts of two configurations that a reload moves between. */
  datatype Fence = Fence(
    kept: seq<User>, oldRules: seq<Rule>, newRules: seq<Rule>, oldOutbounds: seq<Outbound>, newOutbounds: seq<Outbound>)

  function FenceOf(previous: Options, next: Options): Fence {
    Fence(KeptOf(previous, next, previous.users), previous.rules, next.rules, previous.outbounds, next.outbounds)
  }

  predicate ValidFence(fence: Fence) {
    ValidOutbounds(fence.oldOutbounds) && ValidOutbounds(fence.newOutbounds)
  }

  predicate Shared(fence: Fence, outbound: Outbound) {
    outbound in fence.oldOutbounds && outbound in fence.newOutbounds
  }

  /** Every step behind the fence goes through, from the outbounds listed at the start. */
  predicate Completes(fence: Fence, live: map<string, Live>, w: World) {
    && CreatesAll(w, fence.oldOutbounds, fence.newOutbounds)
    && w.swap == Swapped
    && RemovesAll(w, fence.oldOutbounds, fence.newOutbounds, live)
  }

  /** What is listed once the first i wanted outbounds have been created where they changed. */
  function Merged(fence: Fence, live: map<string, Live>, i: nat): map<string, Live>
    requires i <= |fence.newOutbounds|
  {
    if i == 0 then live
    else
      var outbound, before := fence.newOutbounds[i - 1], Merged(fence, live, i - 1);
      if outbound in fence.oldOutbounds then before else before[outbound.tag := Direct(outbound)]
  }

  /** What is listed once the first i outdated outbounds have been removed where they are not wanted. */
  function Pruned(fence: Fence, live: map<string, Live>, i: nat): map<string, Live>
    requires i <= |fence.oldOutbounds|
  {
    if i == 0 then live
    else
      var tag, before := fence.oldOutbounds[i - 1].tag, Pruned(fence, live, i - 1);
      if HasTag(fence.newOutbounds, tag) then before else before - {tag}
  }

  /** What is listed when the rules are swapped. */
  function AllMerged(fence: Fence, live: map<string, Live>): map<string, Live> {
    Merged(fence, live, |fence.newOutbounds|)
  }

  /** The outbounds that a completed reload leaves. */
  function Reloaded(fence: Fence, live: map<string, Live>): map<string, Live> {
    Pruned(fence, AllMerged(fence, live), |fence.oldOutbounds|)
  }

  /** The first i wanted outbounds have been created where they changed; the next one may be left broken. */
  predicate CreatedUpTo(fence: Fence, live: map<string, Live>, i: nat, now: map<string, Live>)
    requires i <= |fence.newOutbounds|
  {
    || now == Merged(fence, live, i)
    || (&& i < |fence.newOutbounds| && fence.newOutbounds[i] !in fence.oldOutbounds
        && now == Merged(fence, live, i)[fence.newOutbounds[i].tag := Broken])
  }

  /** Before the swap: still the rules it started with. */
  ghost predicate Creating(fence: Fence, start: Runtime, now: Runtime) {
    && now.rules == start.rules
    && exists i :: 0 <= i <= |fence.newOutbounds| && CreatedUpTo(fence, start.outbounds, i, now.outbounds)
  }

  /** After the swap: the new rules, and the first i outdated outbounds removed where they are not wanted. */
  ghost predicate Removing(fence: Fence, start: Runtime, now: Runtime) {
    && now.rules == fence.newRules
    && exists i ::
         0 <= i <= |fence.oldOutbounds| && now.outbounds == Pruned(fence, AllMerged(fence, start.outbounds), i)
  }

  /** The states that a reload can pass through from the fence up to the last user update. */
  ghost predicate Between(fence: Fence, start: Runtime, now: Runtime) {
    now.users == fence.kept && (Creating(fence, start, now) || Removing(fence, start, now))
  }

  /** The states added to a trace are all of that kind. */
  ghost predicate Extends(before: seq<Runtime>, after: seq<Runtime>, fence: Fence, start: Runtime) {
    before <= after && forall k :: |before| <= k < |after| ==> Between(fence, start, after[k])
  }

  /** The last state under the rules it started with, and the last one before the users follow. */
  predicate Visits(states: seq<Runtime>, fence: Fence, start: Runtime) {
    && Runtime(fence.kept, AllMerged(fence, start.outbounds), start.rules) in states
    && Runtime(fence.kept, Reloaded(fence, start.outbounds), fence.newRules) in states
  }

  /** The trace of a reload that completed: the states behind the fence, then the one with the new users. */
  ghost predicate Completed(before: seq<Runtime>, after: seq<Runtime>, fence: Fence, start: Runtime, end: Runtime) {
    && |after| > |before| && after[|after| - 1] == end
    && Extends(before, after[..|after| - 1], fence, start)
    && Visits(after[..|after| - 1][|before|..], fence, start)
  }

  /** The trace of a reload that failed behind the fence. */
  ghost predicate Stopped(before: seq<Runtime>, after: seq<Runtime>, fence: Fence, start: Runtime, end: Runtime) {
    Extends(before, after, fence, start) && Between(fence, start, end)
  }

  // --------------------------------------------------------------- the server

  class Server {
    var users: seq<User>
    var outbounds: map<string, Live>
    var rules: seq<Rule>
    var recorded: Option<Options>
    /** Every state the runtime has been in. */
    ghost var trace: seq<Runtime>

    function Now(): Runtime
      reads this
    {
      Runtime(users, outbounds, rules)
    }

    /** The recorded options were valid when they were recorded. */
    predicate Sound()
      reads this
    {
      recorded.Some? ==> Valid(recorded.value)
    }

    /** The runtime is the one the recorded options describe. */
    predicate Agrees()
      reads this
    {
      recorded.Some? ==> Now() == RuntimeOf(recorded.value)
    }

    method UpdateUsers(update: seq<User>)
      modifies `users, `trace
      ensures Now() == old(Now()).(users := update)
      ensures trace == old(trace) + [Now()]
    {
      users := update;
      trace := trace + [Now()];
    }

    method CreateOutbound(outbound: Outbound, creation: Creation) returns (ok: bool)
      modifies `outbounds, `trace
      ensures ok <==> creation == Made || creation == Substituted
      ensures outbounds == match creation
              case Made => old(outbounds)[outbound.tag := Direct(outbound)]
              case Substituted => old(outbounds)[outbound.tag := Broken]
              case Damaged =>
                if outbound.tag in old(outbounds) then old(outbounds)[outbound.tag := Broken] else old(outbounds)
              case Refused => old(outbounds)
      ensures trace == old(trace) + [Now()]
    {
      match creation {
        case Made => outbounds := outbounds[outbound.tag := Direct(outbound)];
        case Substituted => outbounds := outbounds[outbound.tag := Broken];
        case Damaged =>
          if outbound.tag in outbounds {
            outbounds := outbounds[outbound.tag := Broken];
          }
        case Refused =>
      }
      trace := trace + [Now()];
      return creation == Made || creation == Substituted;
    }

    method RemoveOutbound(tag: string, closes: bool) returns (ok: bool)
      modifies `outbounds, `trace
      ensures ok <==> tag in old(outbounds) && closes
      ensures outbounds == old(outbounds) - {tag}
      ensures trace == old(trace) + [Now()]
    {
      ok := tag in outbounds && closes;
      outbounds := outbounds - {tag};
      trace := trace + [Now()];
    }

    /** `closings` counts how often each new rule has been closed. */
    method ReplaceRules(update: seq<Rule>, outcome: Replacement, closings: seq<nat>)
      returns (ok: bool, after: seq<nat>, held: bool)
      requires |closings| == |update|
      modifies `rules, `trace
      ensures ok <==> outcome == Swapped
      ensures held <==> outcome != Closed
      ensures rules == if held then update else old(rules)
      ensures after == if held then closings else CloseAll(closings)
      ensures trace == old(trace) + [Now()]
    {
      if outcome == Closed {
        after := CloseEach(closings);
        held := false;
      } else {
        rules, after, held := update, closings, true;
      }
      trace := trace + [Now()];
      ok := outcome == Swapped;
    }

    /** The trace is up to date. */
    ghost predicate Traced()
      reads this
    {
      |trace| > 0 && trace[|trace| - 1] == Now()
    }

    method CreateOne(ghost fence: Fence, ghost start: Runtime, ghost i: nat,
                     outbound: Outbound, same: bool, creation: Creation)
      returns (error: Option<Error>)
      requires i < |fence.newOutbounds| && fence.newOutbounds[i] == outbound
      requires same <==> outbound in fence.oldOutbounds
      requires users == fence.kept && rules == start.rules && outbounds == Merged(fence, start.outbounds, i) && Traced()
      modifies `outbounds, `trace
      ensures Between(fence, start, Now()) && Extends(old(trace), trace, fence, start) && Traced()
      ensures error.None? <==> same || creation == Made
      ensures error.None? ==> outbounds == Merged(fence, start.outbounds, i + 1)
      ensures error.Some? ==> error == Some(NotCreated) || error == Some(Unverified)
    {
      if same {
        assert CreatedUpTo(fence, start.outbounds, i, outbounds);
        return None;
      }
      var ok := CreateOutbound(outbound, creation);
      assert CreatedUpTo(fence, start.outbounds, if creation == Made then i + 1 else i, outbounds);
      if !ok {
        return Some(NotCreated);
      }
      if outbounds[outbound.tag].Broken? {
        return Some(Unverified);
      }
      return None;
    }

    method CreateChanged(ghost fence: Fence, ghost start: Runtime,
                         outdated: seq<Outbound>, wanted: seq<Outbound>, w: World)
      returns (error: Option<Error>)
      requires outdated == fence.oldOutbounds && wanted == fence.newOutbounds
      requires users == fence.kept && rules == start.rules && outbounds == start.outbounds && Traced()
      modifies `outbounds, `trace
      ensures Between(fence, start, Now()) && Extends(old(trace), trace, fence, start) && Traced()
      ensures error.None? <==> CreatesAll(w, outdated, wanted)
      ensures error.None? ==> outbounds == AllMerged(fence, start.outbounds)
      ensures error.Some? ==> error == Some(NotCreated) || error == Some(Unverified)
    {
      for i := 0 to |wanted|
        invariant outbounds == Merged(fence, start.outbounds, i)
        invariant Extends(old(trace), trace, fence, start) && Traced()
        invariant forall j :: 0 <= j < i && wanted[j] !in outdated ==> w.creates(wanted[j]) == Made
      {
        error := CreateOne(fence, start, i, wanted[i], wanted[i] in outdated, w.creates(wanted[i]));
        if error.Some? {
          return;
        }
      }
      assert CreatedUpTo(fence, start.outbounds, |wanted|, outbounds);
      return None;
    }

    method RemoveOne(ghost fence: Fence, ghost start: Runtime, ghost i: nat,
                     outbound: Outbound, wanted: seq<Outbound>, w: World)
      returns (error: Option<Error>)
      requires ValidFence(fence) && wanted == fence.newOutbounds
      requires i < |fence.oldOutbounds| && fence.oldOutbounds[i] == outbound
      requires users == fence.kept && rules == fence.newRules && Traced()
      requires outbounds == Pruned(fence, AllMerged(fence, start.outbounds), i)
      modifies `outbounds, `trace
      ensures Between(fence, start, Now()) && Extends(old(trace), trace, fence, start) && Traced()
      ensures error.None? <==> Goes(w, outbound, wanted, start.outbounds)
      ensures outbounds == Pruned(fence, AllMerged(fence, start.outbounds), i + 1)
      ensures error.Some? ==> error == Some(NotRemoved)
    {
      var tag := outbound.tag;
      var present := NamesTag(wanted, tag);
      if present {
        return None;
      }
      MergedKeepsOthers(fence, start.outbounds, |wanted|, tag);
      PrunedStillHas(fence, AllMerged(fence, start.outbounds), i, tag);
      var ok := RemoveOutbound(tag, w.removes(tag));
      assert outbounds == Pruned(fence, AllMerged(fence, start.outbounds), i + 1);
      return if ok then None else Some(NotRemoved);
    }

    method RemoveAbsent(ghost fence: Fence, ghost start: Runtime,
                        outdated: seq<Outbound>, wanted: seq<Outbound>, w: World)
      returns (error: Option<Error>)
      requires ValidFence(fence) && outdated == fence.oldOutbounds && wanted == fence.newOutbounds
      requires users == fence.kept && rules == fence.newRules && Traced()
      requires outbounds == AllMerged(fence, start.outbounds)
      modifies `outbounds, `trace
      ensures Between(fence, start, Now()) && Extends(old(trace), trace, fence, start) && Traced()
      ensures error.None? <==> RemovesAll(w, outdated, wanted, start.outbounds)
      ensures error.None? ==> outbounds == Reloaded(fence, start.outbounds)
      ensures error.Some? ==> error == Some(NotRemoved)
    {
      for i := 0 to |outdated|
        invariant outbounds == Pruned(fence, AllMerged(fence, start.outbounds), i)
        invariant Extends(old(trace), trace, fence, start) && Traced()
        invariant forall j :: 0 <= j < i ==> Goes(w, outdated[j], wanted, start.outbounds)
      {
        error := RemoveOne(fence, start, i, outdated[i], wanted, w);
        if error.Some? {
          return;
        }
      }
      return None;
    }

    /** Creation and the swap of the rules. */
    method Exchange(ghost start: Runtime, fence: Fence, w: World, closings: seq<nat>)
      returns (error: Option<Error>, after: seq<nat>, held: bool)
      requires |closings| == |fence.newRules|
      requires users == fence.kept && rules == start.rules && outbounds == start.outbounds && Traced()
      modifies `outbounds, `rules, `trace
      ensures Between(fence, start, Now()) && Extends(old(trace), trace, fence, start) && Traced()
      ensures error.None? <==> CreatesAll(w, fence.oldOutbounds, fence.newOutbounds) && w.swap == Swapped
      ensures error == Some(NotReplaced) <==>
                CreatesAll(w, fence.oldOutbounds, fence.newOutbounds) && w.swap != Swapped
      ensures error.None? || error == Some(NotReplaced) ==> outbounds == AllMerged(fence, start.outbounds)
      ensures error.None? ==>
                |trace| - 2 >= |old(trace)| - 1 &&
                trace[|trace| - 2] == Runtime(fence.kept, AllMerged(fence, start.outbounds), start.rules)
      ensures error.Some? ==> error.value in {NotCreated, Unverified, NotReplaced}
      ensures held <==> CreatesAll(w, fence.oldOutbounds, fence.newOutbounds) && w.swap != Closed
      ensures if held then after == closings && rules == fence.newRules
              else after == CloseAll(closings) && rules == start.rules
    {
      after, held := closings, false;
      error := CreateChanged(fence, start, fence.oldOutbounds, fence.newOutbounds, w);
      if error.Some? {
        after := CloseEach(closings);
        return;
      }
      var ok;
      ok, after, held := ReplaceRules(fence.newRules, w.swap, closings);
      assert held ==> outbounds == Pruned(fence, AllMerged(fence, start.outbounds), 0);
      if !ok {
        error := Some(NotReplaced);
      }
    }

    /** The part of a reload behind the fence. */
    method Apply(fence: Fence, w: World, closings: seq<nat>)
      returns (error: Option<Error>, after: seq<nat>, held: bool)
      requires ValidFence(fence) && |closings| == |fence.newRules|
      modifies `users, `outbounds, `rules, `trace
      ensures Between(fence, old(Now()), Now()) && Extends(old(trace), trace, fence, old(Now()))
      ensures |trace| > |old(trace)| && trace[|old(trace)|] == old(Now()).(users := fence.kept)
      ensures error.None? <==> Completes(fence, old(outbounds), w)
      ensures error.None? ==> held && outbounds == Reloaded(fence, old(outbounds))
      ensures error.None? ==> Visits(trace[|old(trace)|..], fence, old(Now()))
      ensures error == Some(NotReplaced) <==>
                CreatesAll(w, fence.oldOutbounds, fence.newOutbounds) && w.swap != Swapped
      ensures error == Some(NotReplaced) ==> outbounds == AllMerged(fence, old(outbounds))
      ensures error.Some? ==> error.value in {NotCreated, Unverified, NotReplaced, NotRemoved}
      ensures held <==> CreatesAll(w, fence.oldOutbounds, fence.newOutbounds) && w.swap != Closed
      ensures if held then after == closings && rules == fence.newRules
              else after == CloseAll(closings) && rules == old(rules)
    {
      ghost var start := Now();
      UpdateUsers(fence.kept);
      assert CreatedUpTo(fence, start.outbounds, 0, outbounds);
      error, after, held := Exchange(start, fence, w, closings);
      if error.None? {
        ghost var exchanged := trace;
        error := RemoveAbsent(fence, start, fence.oldOutbounds, fence.newOutbounds, w);
        SeenSince(trace, |old(trace)|, |exchanged| - 2);
        SeenSince(trace, |old(trace)|, |trace| - 1);
      }
    }

    /** What is checked before anything is touched, and whether the next rules had been prepared by then. */
    method Refuse(next: Options, w: World) returns (refused: Option<Error>, prepared: bool)
      requires Sound()
      ensures refused == Refusal(recorded, next, w)
      ensures prepared <==> Prepared(recorded, next, w)
      ensures refused == Some(ImmutableChange) <==>
                recorded.Some? && Valid(next) && !SameFixed(recorded.value, next)
      ensures refused.None? ==> recorded.Some? && Valid(next) && SameFixed(recorded.value, next) && prepared
    {
      if recorded.None? {
        return Some(Disabled), false;
      }
      var valid := Validate(next);
      if !valid {
        return Some(Invalid), false;
      }
      ImmutableIff(recorded.value, next);
      if Immutable(recorded.value) != Immutable(next) {
        return Some(ImmutableChange), false;
      }
      if !w.prepares {
        return Some(NotPrepared), false;
      }
      prepared := true;
      refused := CheckRuntime(next, w);
    }

    /**
     One reload, from any runtime. It succeeds exactly when it is not refused and every step goes
     through; then the rules and users are the next ones, and the outbounds those that its steps
     leave, which are the next ones exactly if it started consistently. Each prepared rule is closed
     once or handed to the router, never both. The trace begins at the fence and stays between it and
     the last user update.
     */
    method Reload(next: Options, w: World) returns (error: Option<Error>, closings: seq<nat>, held: bool)
      requires Sound()
      modifies this
      ensures Sound() && (error.Some? ==> recorded == old(recorded))
      ensures error.None? ==>
                && old(recorded).Some? && recorded == Some(next)
                && users == next.users && rules == next.rules
                && outbounds == Reloaded(FenceOf(old(recorded).value, next), old(outbounds))
                && (Now() == RuntimeOf(next) <==> Consistent(FenceOf(old(recorded).value, next), old(outbounds)))
      ensures error.None? ==> SameFixed(old(recorded).value, next)
      ensures error == Some(ImmutableChange) <==>
                old(recorded).Some? && Valid(next) && !SameFixed(old(recorded).value, next)
      ensures error.None? && old(Agrees()) ==> Now() == RuntimeOf(next) && Agrees()
      ensures Refusal(old(recorded), next, w).Some? ==>
                error == Refusal(old(recorded), next, w) && Now() == old(Now()) && trace == old(trace)
      ensures Refusal(old(recorded), next, w).None? ==>
                var previous := old(recorded).value;
                var fence := FenceOf(previous, next);
                && (error.None? <==> Completes(fence, old(outbounds), w))
                && |trace| > |old(trace)| && trace[|old(trace)|] == old(Now()).(users := fence.kept)
                && (if error.None? then Completed(old(trace), trace, fence, old(Now()), Now())
                    else Stopped(old(trace), trace, fence, old(Now()), Now()))
                && (error == Some(NotReplaced) <==>
                    CreatesAll(w, previous.outbounds, next.outbounds) && w.swap != Swapped)
                && (error == Some(NotReplaced) ==> outbounds == AllMerged(fence, old(outbounds)))
                && (held <==> CreatesAll(w, previous.outbounds, next.outbounds) && w.swap != Closed)
      ensures Prepared(old(recorded), next, w) ==>
                && |closings| == |next.rules|
                && forall i :: 0 <= i < |closings| ==> closings[i] == if held then 0 else 1
      ensures rules == if held then next.rules else old(rules)
    {
      closings, held := [], false;
      var refused, prepared := Refuse(next, w);
      if prepared {
        closings := seq(|next.rules|, i => 0);
      }
      if refused.Some? {
        closings := CloseEach(closings);
        return refused, closings, held;
      }
      var previous := recorded.value;
      var kept := KeepUsers(previous, next);
      var fence := Fence(kept, previous.rules, next.rules, previous.outbounds, next.outbounds);
      error, closings, held := Apply(fence, w, closings);
      if error.None? {
        ghost var fenced := trace;
        UpdateUsers(next.users);
        assert trace[..|trace| - 1] == fenced;
        recorded := Some(next);
        ReloadedAgreesIff(previous, next, old(outbounds));
        RecordedIsConsistent(previous, next);
      }
    }
  }

  lemma SeenSince(trace: seq<Runtime>, from: nat, k: nat)
    requires from <= k < |trace|
    ensures trace[k] in trace[from..]
  {
    assert trace[from..][k - from] == trace[k];
  }

  function CloseAll(closings: seq<nat>): seq<nat> {
    seq(|closings|, i requires 0 <= i < |closings| => closings[i] + 1)
  }

  method CloseEach(closings: seq<nat>) returns (after: seq<nat>)
    ensures after == CloseAll(closings)
  {
    after := [];
    for i := 0 to |closings|
      invariant |after| == i && forall j :: 0 <= j < i ==> after[j] == closings[j] + 1
    {
      after := after + [closings[i] + 1];
    }
  }

  method NamesTag(outbounds: seq<Outbound>, tag: string) returns (found: bool)
    ensures found <==> HasTag(outbounds, tag)
  {
    for i := 0 to |outbounds|
      invariant !HasTag(outbounds[..i], tag)
    {
      if outbounds[i].tag == tag {
        return true;
      }
    }
    assert outbounds[..|outbounds|] == outbounds;
    return false;
  }

  method CheckRuntime(next: Options, w: World) returns (refused: Option<Error>)
    ensures refused ==
            if exists i :: 0 <= i < |next.outbounds| && !w.builds(next.outbounds[i]) then Some(NotBuilt)
            else if !w.listening then Some(InboundMissing)
            else if !w.updatable then Some(InboundUnsupported)
            else None
  {
    for i := 0 to |next.outbounds|
      invariant forall j :: 0 <= j < i ==> w.builds(next.outbounds[j])
    {
      if !w.builds(next.outbounds[i]) {
        return Some(NotBuilt);
      }
    }
    if !w.listening {
      return Some(InboundMissing);
    }
    if !w.updatable {
      return Some(InboundUnsupported);
    }
    return None;
  }

  method KeepUsers(previous: Options, next: Options) returns (kept: seq<User>)
    ensures kept == KeptOf(previous, next, previous.users)
  {
    kept := [];
    for i := 0 to |previous.users|
      invariant kept == KeptOf(previous, next, previous.users[..i])
    {
      var user := previous.users[i];
      assert previous.users[..i + 1][..i] == previous.users[..i];
      if user in next.users {
        var before := UserPolicy(previous, user.name);
        var after := UserPolicy(next, user.name);
        if before == after {
          kept := kept + [user];
        }
      }
    }
    assert previous.users[..|previous.users|] == previous.users;
  }

  // ------------------------------------------------------------- map algebra

  lemma {:induction false} LiveKeys(outbounds: seq<Outbound>, tag: string)
    ensures tag in LiveOf(outbounds) <==> HasTag(outbounds, tag)
  {
    if |outbounds| == 0 {
    } else {
      var front, last := outbounds[..|outbounds| - 1], outbounds[|outbounds| - 1];
      LiveKeys(front, tag);
      if HasTag(outbounds, tag) && last.tag != tag {
        var i :| 0 <= i < |outbounds| && outbounds[i].tag == tag;
        assert front[i].tag == tag;
      }
    }
  }

  lemma {:induction false} LiveHolds(outbounds: seq<Outbound>, outbound: Outbound)
    requires ValidOutbounds(outbounds) && outbound in outbounds
    ensures Resolved(LiveOf(outbounds), outbound.tag) == Some(Direct(outbound))
  {
    var front, last := outbounds[..|outbounds| - 1], outbounds[|outbounds| - 1];
    if outbound != last {
      var i :| 0 <= i < |outbounds| && outbounds[i] == outbound;
      assert front[i] == outbound;
      LiveHolds(front, outbound);
    }
  }

  lemma {:induction false} MergedKeepsOthers(fence: Fence, live: map<string, Live>, i: nat, tag: string)
    requires i <= |fence.newOutbounds| && !HasTag(fence.newOutbounds, tag)
    ensures Resolved(Merged(fence, live, i), tag) == Resolved(live, tag)
  {
    if i == 0 {
    } else {
      MergedKeepsOthers(fence, live, i - 1, tag);
      assert fence.newOutbounds[i - 1].tag != tag;
    }
  }

  /** What a wanted outbound's tag resolves to after creation: itself if it changed, else what it did. */
  lemma {:induction false} MergedAt(fence: Fence, live: map<string, Live>, i: nat, k: nat)
    requires ValidFence(fence) && i <= |fence.newOutbounds| && k < |fence.newOutbounds|
    ensures var outbound := fence.newOutbounds[k];
            Resolved(Merged(fence, live, i), outbound.tag) ==
            if k < i && outbound !in fence.oldOutbounds then Some(Direct(outbound)) else Resolved(live, outbound.tag)
  {
    if i == 0 {
    } else {
      MergedAt(fence, live, i - 1, k);
      assert k != i - 1 ==> fence.newOutbounds[i - 1].tag != fence.newOutbounds[k].tag;
    }
  }

  lemma {:induction false} PrunedAt(fence: Fence, live: map<string, Live>, i: nat, tag: string)
    requires i <= |fence.oldOutbounds|
    ensures Resolved(Pruned(fence, live, i), tag) ==
            if HasTag(fence.oldOutbounds[..i], tag) && !HasTag(fence.newOutbounds, tag) then None
            else Resolved(live, tag)
  {
    if i == 0 {
    } else {
      var done, more := fence.oldOutbounds[..i - 1], fence.oldOutbounds[..i];
      PrunedAt(fence, live, i - 1, tag);
      assert more == done + [fence.oldOutbounds[i - 1]];
      assert HasTag(more, tag) <==> HasTag(done, tag) || fence.oldOutbounds[i - 1].tag == tag by {
        if j :| 0 <= j < |done| && done[j].tag == tag {
          assert more[j].tag == tag;
        }
        assert more[i - 1] == fence.oldOutbounds[i - 1];
      }
    }
  }

  lemma PrunedStillHas(fence: Fence, live: map<string, Live>, i: nat, tag: string)
    requires ValidFence(fence) && i < |fence.oldOutbounds| && fence.oldOutbounds[i].tag == tag
    ensures tag in Pruned(fence, live, i) <==> tag in live
  {
    PrunedAt(fence, live, i, tag);
    assert !HasTag(fence.oldOutbounds[..i], tag);
  }

  /** A wanted tag resolves to the new outbound if that changed, and to what it did if not. */
  lemma ReloadedWanted(fence: Fence, live: map<string, Live>, k: nat)
    requires ValidFence(fence) && k < |fence.newOutbounds|
    ensures var outbound := fence.newOutbounds[k];
            Resolved(Reloaded(fence, live), outbound.tag) ==
            if outbound in fence.oldOutbounds then Resolved(live, outbound.tag) else Some(Direct(outbound))
  {
    PrunedAt(fence, AllMerged(fence, live), |fence.oldOutbounds|, fence.newOutbounds[k].tag);
    assert HasTag(fence.newOutbounds, fence.newOutbounds[k].tag);
    MergedAt(fence, live, |fence.newOutbounds|, k);
  }

  /** A tag that is not wanted is gone if it was recorded, and else resolves to what it did. */
  lemma ReloadedOther(fence: Fence, live: map<string, Live>, tag: string)
    requires !HasTag(fence.newOutbounds, tag)
    ensures Resolved(Reloaded(fence, live), tag) ==
            if HasTag(fence.oldOutbounds, tag) then None else Resolved(live, tag)
  {
    PrunedAt(fence, AllMerged(fence, live), |fence.oldOutbounds|, tag);
    assert fence.oldOutbounds[..|fence.oldOutbounds|] == fence.oldOutbounds;
    MergedKeepsOthers(fence, live, |fence.newOutbounds|, tag);
  }

  /** What both configurations hold is left as it was in every state. */
  lemma BetweenKeepsShared(fence: Fence, start: Runtime, now: Runtime, outbound: Outbound)
    requires ValidFence(fence) && Between(fence, start, now) && Shared(fence, outbound)
    ensures Resolved(now.outbounds, outbound.tag) == Resolved(start.outbounds, outbound.tag)
  {
    var k :| 0 <= k < |fence.newOutbounds| && fence.newOutbounds[k] == outbound;
    MergedAt(fence, start.outbounds, |fence.newOutbounds|, k);
    if Creating(fence, start, now) {
      var i :| 0 <= i <= |fence.newOutbounds| && CreatedUpTo(fence, start.outbounds, i, now.outbounds);
      MergedAt(fence, start.outbounds, i, k);
    } else {
      var i :| 0 <= i <= |fence.oldOutbounds| &&
               now.outbounds == Pruned(fence, AllMerged(fence, start.outbounds), i);
      PrunedAt(fence, AllMerged(fence, start.outbounds), i, outbound.tag);
    }
  }

  // ------------------------------------------------- when the runtime agrees again

  /** What both configurations hold is running, and nothing runs that neither holds. */
  ghost predicate Consistent(fence: Fence, live: map<string, Live>) {
    && Stable(fence, live)
    && (forall tag :: tag in live ==> HasTag(fence.oldOutbounds, tag) || HasTag(fence.newOutbounds, tag))
  }

  /** Outbounds that both configurations hold unchanged resolve to themselves. */
  ghost predicate Stable(fence: Fence, live: map<string, Live>) {
    forall outbound :: Shared(fence, outbound) ==> Resolved(live, outbound.tag) == Some(Direct(outbound))
  }

  lemma ResolvedEqual(a: map<string, Live>, b: map<string, Live>)
    requires forall tag :: Resolved(a, tag) == Resolved(b, tag)
    ensures a == b
  {
    forall tag ensures tag in a <==> tag in b {
      assert Resolved(a, tag) == Resolved(b, tag);
    }
    forall tag | tag in a ensures a[tag] == b[tag] {
      assert Resolved(a, tag) == Resolved(b, tag);
    }
  }

  lemma ConsistentResolves(fence: Fence, live: map<string, Live>, tag: string)
    requires ValidFence(fence) && Consistent(fence, live)
    ensures Resolved(Reloaded(fence, live), tag) == Resolved(LiveOf(fence.newOutbounds), tag)
  {
    LiveKeys(fence.newOutbounds, tag);
    if k :| 0 <= k < |fence.newOutbounds| && fence.newOutbounds[k].tag == tag {
      ReloadedWanted(fence, live, k);
      LiveHolds(fence.newOutbounds, fence.newOutbounds[k]);
      assert fence.newOutbounds[k] in fence.oldOutbounds ==> Shared(fence, fence.newOutbounds[k]);
    } else {
      ReloadedOther(fence, live, tag);
    }
  }

  lemma AgreeingIsStable(fence: Fence, live: map<string, Live>, outbound: Outbound)
    requires ValidFence(fence) && Reloaded(fence, live) == LiveOf(fence.newOutbounds) && Shared(fence, outbound)
    ensures Resolved(live, outbound.tag) == Some(Direct(outbound))
  {
    LiveHolds(fence.newOutbounds, outbound);
    var k :| 0 <= k < |fence.newOutbounds| && fence.newOutbounds[k] == outbound;
    ReloadedWanted(fence, live, k);
  }

  lemma AgreeingIsCovered(fence: Fence, live: map<string, Live>, tag: string)
    requires ValidFence(fence) && Reloaded(fence, live) == LiveOf(fence.newOutbounds) && tag in live
    ensures HasTag(fence.oldOutbounds, tag) || HasTag(fence.newOutbounds, tag)
  {
    LiveKeys(fence.newOutbounds, tag);
    if !HasTag(fence.newOutbounds, tag) {
      ReloadedOther(fence, live, tag);
    }
  }

  /**
   A completed reload leaves exactly the next configuration's outbounds if and only if it started
   with every unchanged outbound running and with nothing that neither configuration names.
   */
  lemma ReloadedAgreesIff(previous: Options, next: Options, live: map<string, Live>)
    requires Valid(previous) && Valid(next)
    ensures Reloaded(FenceOf(previous, next), live) == LiveOf(next.outbounds) <==>
              Consistent(FenceOf(previous, next), live)
  {
    var fence := FenceOf(previous, next);
    if Consistent(fence, live) {
      forall tag ensures Resolved(Reloaded(fence, live), tag) == Resolved(LiveOf(next.outbounds), tag) {
        ConsistentResolves(fence, live, tag);
      }
      ResolvedEqual(Reloaded(fence, live), LiveOf(next.outbounds));
    }
    if Reloaded(fence, live) == LiveOf(next.outbounds) {
      forall outbound | Shared(fence, outbound) ensures Resolved(live, outbound.tag) == Some(Direct(outbound)) {
        AgreeingIsStable(fence, live, outbound);
      }
      forall tag | tag in live ensures HasTag(fence.oldOutbounds, tag) || HasTag(fence.newOutbounds, tag) {
        AgreeingIsCovered(fence, live, tag);
      }
    }
  }

  lemma RecordedIsConsistent(previous: Options, next: Options)
    requires Valid(previous)
    ensures Consistent(FenceOf(previous, next), LiveOf(previous.outbounds))
  {
    var fence, live := FenceOf(previous, next), LiveOf(previous.outbounds);
    forall outbound | Shared(fence, outbound) ensures Resolved(live, outbound.tag) == Some(Direct(outbound)) {
      LiveHolds(previous.outbounds, outbound);
    }
    forall tag | tag in live ensures HasTag(fence.oldOutbounds, tag) {
      LiveKeys(previous.outbounds, tag);
    }
  }

  /** A reload that must remove an outbound which is no longer listed cannot complete, whatever happens. */
  lemma MissingOutboundBlocksReload(previous: Options, next: Options, live: map<string, Live>, tag: string, w: World)
    requires HasTag(previous.outbounds, tag) && !HasTag(next.outbounds, tag) && tag !in live
    ensures !Completes(FenceOf(previous, next), live, w)
  {
    var i :| 0 <= i < |previous.outbounds| && previous.outbounds[i].tag == tag;
  }
}
