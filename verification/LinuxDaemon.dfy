/**
 The privileged Linux daemon: a command loop and a watchdog share a cancellable context, a
 mutex and the promotion limit. Every interleaving of their atomic steps is a run.
 */
module LinuxDaemon {
  import opened Wrappers
  import opened LinuxLease

  /** Milliseconds since boot. `boot` says that the deadline was issued for this boot. */
  datatype Deadline = Deadline(boot: bool, started: int, end: int)

  const CLOCK_LIMIT := 9_007_199_254_740_999
  const SAFE_INTEGER := 9_007_199_254_740_991
  const DAY := 86_400_000

  predicate ValidDeadline(d: Deadline) {
    0 <= d.started < d.end <= SAFE_INTEGER && d.end - d.started <= DAY
  }

  /** `readable` is false when the boot id or the clock cannot be read. */
  predicate Current(d: Deadline, clock: int, readable: bool) {
    readable && d.boot && 0 <= clock <= CLOCK_LIMIT && d.started <= clock < d.end
  }

  // -------------------------------------------------------------------- state

  datatype Loop =
    | Fresh
    | Starting
    | Launched
    | Verified(at: int)
    | Idle
    | Admitted
    | Confirmed(limit: int, at: int)
    | Locked(limit: int, at: int)
    | Checked(limit: int)
    | Stored(limit: int)
    | Announcing(limit: int)
    | Revoking
    | Ended

  datatype Watch = Absent | Waiting | Holding | Loaded(limit: int) | Passed | Failed(limit: int) | Expired | Gone

  datatype Holder = Nobody | TheLoop | TheWatch

  /**
   What happened so far, in order: replies, stores of the limit and outcomes of watchdog checks. A started
   reply carries the clock at which the deadline was last checked and the one at which it was sent.
   */
  datatype Event =
    | ReplyStarted(bound: bool, checked: int, clock: int)
    | ReplyHealth
    | ReplyPromoted(limit: int)
    | ReplyRevoked
    | Promotion(limit: int)
    | Survived(clock: int, limit: int)
    | ConnectExpired
    | LeaseExpired

  datatype State = State(
    clock: int, cancelled: bool, until: int, holder: Holder,
    bound: bool, deadline: Deadline, loop: Loop, watch: Watch, log: seq<Event>)

  datatype Step =
    | Tick(elapsed: nat)
    | Cancel
    | Start(bound: bool, deadline: Deadline, matches: bool, readable: bool)
    | Launch
    | CoreStarted(ok: bool, readable: bool)
    | Report(sent: bool)
    | Health(sent: bool)
    | Quit
    | Promote(matches: bool, readable: bool)
    | Confirm(limit: Option<int>)
    | LoopLock
    | LoopCheck(readable: bool)
    | LoopStore
    | LoopUnlock
    | Announce(sent: bool)
    | Revoke(matches: bool)
    | Revoked(ok: bool, sent: bool)
    | WatchLock
    | WatchLoad
    | WatchCheck(readable: bool)
    | WatchCancel
    | WatchUnlock
    | WatchQuit

  /** Starting, answering and stopping, and what happens outside both threads. */
  predicate IsControlStep(step: Step) {
    || step.Tick? || step.Cancel? || step.Start? || step.Launch? || step.CoreStarted? || step.Report?
    || step.Health? || step.Quit?
  }

  predicate IsWatchStep(step: Step) {
    || step.WatchLock? || step.WatchLoad? || step.WatchCheck? || step.WatchCancel? || step.WatchUnlock?
    || step.WatchQuit?
  }

  /** A step its thread can take now. Lease limits are those the lease check hands out. */
  predicate Enabled(s: State, step: Step) {
    match step
    case Tick(_) => true
    case Cancel => true
    case Start(bound, deadline, _, _) => s.loop.Fresh? && (bound ==> ValidDeadline(deadline))
    case Launch => s.loop.Starting?
    case CoreStarted(_, _) => s.loop.Launched?
    case Report(_) => s.loop.Verified?
    case Health(_) => s.loop.Idle?
    case Quit => s.loop.Idle? || s.loop.Fresh?
    case Promote(_, _) => s.loop.Idle?
    case Confirm(limit) => s.loop.Admitted? && (limit.Some? ==> WithinHour(s.clock, limit.value))
    case LoopLock => s.loop.Confirmed? && s.holder.Nobody?
    case LoopCheck(_) => s.loop.Locked?
    case LoopStore => s.loop.Checked?
    case LoopUnlock => s.loop.Stored?
    case Announce(_) => s.loop.Announcing?
    case Revoke(_) => s.loop.Idle?
    case Revoked(_, _) => s.loop.Revoking?
    case WatchLock => s.watch.Waiting? && s.holder.Nobody?
    case WatchLoad => s.watch.Holding?
    case WatchCheck(_) => s.watch.Loaded?
    case WatchCancel => s.watch.Failed?
    case WatchUnlock => s.watch.Passed? || s.watch.Expired?
    case WatchQuit => s.watch.Waiting? && s.cancelled
  }

  /** The next state but for its log, and the event to log. */
  datatype Effect = Effect(state: State, event: Option<Event>)

  function Quiet(s: State): Effect {
    Effect(s, None)
  }

  function End(s: State): Effect {
    Quiet(s.(loop := Ended, cancelled := true, holder := if s.holder.TheLoop? then Nobody else s.holder))
  }

  function Reply(s: State, sent: bool, event: Event): Effect {
    if sent then Effect(s.(loop := Idle), Some(event)) else End(s)
  }

  function ControlEffect(s: State, step: Step): Effect {
    match step
    case Tick(elapsed) => Quiet(s.(clock := s.clock + elapsed))
    case Cancel => Quiet(s.(cancelled := true))
    case Start(bound, deadline, matches, readable) =>
      if bound && (!matches || !Current(deadline, s.clock, readable)) then End(s)
      else
        Quiet(s.(bound := bound, deadline := deadline, watch := if bound then Waiting else Absent, loop := Starting))
    case Launch => if s.cancelled then End(s) else Quiet(s.(loop := Launched))
    case CoreStarted(ok, readable) =>
      if !ok || (s.bound && !Current(s.deadline, s.clock, readable)) then End(s)
      else Quiet(s.(loop := Verified(s.clock)))
    case Report(sent) =>
      if s.loop.Verified? then Reply(s, sent, ReplyStarted(s.bound, s.loop.at, s.clock)) else Quiet(s)
    case Health(sent) => Reply(s, sent, ReplyHealth)
    case _ => End(s)
  }

  function LeaseEffect(s: State, step: Step): Effect {
    match step
    case Promote(matches, readable) =>
      if !s.bound || s.until != 0 || !Current(s.deadline, s.clock, readable) || !matches || s.cancelled then End(s)
      else Quiet(s.(loop := Admitted))
    case Confirm(limit) =>
      if limit.None? || s.cancelled then End(s) else Quiet(s.(loop := Confirmed(limit.value, s.clock)))
    case LoopLock =>
      if s.loop.Confirmed? then Quiet(s.(loop := Locked(s.loop.limit, s.loop.at), holder := TheLoop)) else Quiet(s)
    case LoopCheck(readable) =>
      if !Current(s.deadline, s.clock, readable) || s.cancelled then End(s)
      else if s.loop.Locked? then Quiet(s.(loop := Checked(s.loop.limit))) else Quiet(s)
    case LoopStore =>
      if s.loop.Checked? then
        Effect(s.(loop := Stored(s.loop.limit), until := s.loop.limit), Some(Promotion(s.loop.limit)))
      else Quiet(s)
    case LoopUnlock =>
      if s.loop.Stored? then Quiet(s.(loop := Announcing(s.loop.limit), holder := Nobody)) else Quiet(s)
    case Announce(sent) => if s.loop.Announcing? then Reply(s, sent, ReplyPromoted(s.loop.limit)) else Quiet(s)
    case Revoke(matches) =>
      if !s.bound || s.until == 0 || !matches || s.cancelled then End(s) else Quiet(s.(loop := Revoking))
    case Revoked(ok, sent) => if !ok then End(s) else Reply(s, sent, ReplyRevoked)
    case _ => Quiet(s)
  }

  function WatchEffect(s: State, step: Step): Effect {
    match step
    case WatchLock => Quiet(s.(watch := Holding, holder := TheWatch))
    case WatchLoad => Quiet(s.(watch := Loaded(s.until)))
    case WatchCheck(readable) =>
      if !s.watch.Loaded? then Quiet(s)
      else if s.watch.limit == 0 then
        if Current(s.deadline, s.clock, readable) then Effect(s.(watch := Passed), Some(Survived(s.clock, 0)))
        else Quiet(s.(watch := Failed(0)))
      else
        if readable && s.clock < s.watch.limit then Effect(s.(watch := Passed), Some(Survived(s.clock, s.watch.limit)))
        else Quiet(s.(watch := Failed(s.watch.limit)))
    case WatchCancel =>
      Effect(s.(watch := Expired, cancelled := true),
             Some(if s.watch.Failed? && s.watch.limit != 0 then LeaseExpired else ConnectExpired))
    case WatchUnlock => Quiet(s.(watch := if s.watch.Passed? then Waiting else Gone, holder := Nobody))
    case _ => Quiet(s.(watch := Gone))
  }

  function EffectOf(s: State, step: Step): Effect {
    if IsControlStep(step) then ControlEffect(s, step)
    else if IsWatchStep(step) then WatchEffect(s, step)
    else LeaseEffect(s, step)
  }

  function Extended(log: seq<Event>, event: Option<Event>): seq<Event> {
    if event.Some? then log + [event.value] else log
  }

  function Next(s: State, step: Step): State {
    var effect := EffectOf(s, step);
    effect.state.(log := Extended(s.log, effect.event))
  }

  /** The daemon has sent its plan and waits for the first command. */
  function Initial(clock: nat): State {
    State(clock, false, 0, Nobody, false, Deadline(false, 0, 0), Fresh, Absent, [])
  }

  function Run(s: State, steps: seq<Step>): State {
    if |steps| == 0 then s else Next(Run(s, steps[..|steps| - 1]), steps[|steps| - 1])
  }

  predicate Feasible(s: State, steps: seq<Step>) {
    |steps| == 0 ||
    (Feasible(s, steps[..|steps| - 1]) && Enabled(Run(s, steps[..|steps| - 1]), steps[|steps| - 1]))
  }

  // --------------------------------------------------------------- invariants

  /** The mutex is held by the thread inside its critical section. */
  predicate Exclusive(s: State) {
    && (s.holder.TheLoop? <==> s.loop.Locked? || s.loop.Checked? || s.loop.Stored?)
    && (s.holder.TheWatch? <==>
          s.watch.Holding? || s.watch.Loaded? || s.watch.Passed? || s.watch.Failed? || s.watch.Expired?)
  }

  predicate Promoting(s: State) {
    s.loop.Admitted? || s.loop.Confirmed? || s.loop.Locked? || s.loop.Checked?
  }

  predicate Limits(s: State) {
    && s.clock >= 0
    && (Promoting(s) ==> s.bound && s.until == 0)
    && (s.loop.Confirmed? || s.loop.Locked? ==> WithinHour(s.loop.at, s.loop.limit) && 0 <= s.loop.at <= s.clock)
    && (s.loop.Checked? ==> 0 < s.loop.limit < s.deadline.end + HOUR)
    && (s.loop.Stored? || s.loop.Announcing? ==> s.until == s.loop.limit > 0)
    && (s.until != 0 ==> s.bound && 0 < s.until < s.deadline.end + HOUR)
    && (s.watch.Loaded? || s.watch.Failed? ==> s.watch.limit == s.until)
    && (s.loop.Verified? ==> s.loop.at <= s.clock && (s.bound ==> Current(s.deadline, s.loop.at, true)))
  }

  predicate Shape(s: State) {
    && (s.bound <==> !s.watch.Absent?)
    && (s.loop.Fresh? ==> !s.bound && s.until == 0 && s.log == [])
    && (s.loop.Revoking? ==> s.until != 0)
    && (s.watch.Expired? || s.watch.Gone? ==> s.cancelled)
  }

  /** What a log says: the limit in force, when the start was reported, and whether promotion and expiry were. */
  datatype Summary = Summary(limit: int, begun: Option<int>, told: bool, expired: bool)

  function After(known: Summary, event: Event): Summary {
    match event
    case Promotion(limit) => known.(limit := limit)
    case ReplyStarted(_, _, clock) => known.(begun := Some(clock))
    case ReplyPromoted(_) => known.(told := true)
    case ConnectExpired => known.(expired := true)
    case LeaseExpired => known.(expired := true)
    case _ => known
  }

  function SummaryOf(log: seq<Event>): Summary {
    if |log| == 0 then Summary(0, None, false, false) else After(SummaryOf(log[..|log| - 1]), log[|log| - 1])
  }

  predicate Begun(s: State) {
    !s.loop.Fresh? && !s.loop.Starting? && !s.loop.Launched? && !s.loop.Verified? && !s.loop.Ended?
  }

  /** The log records the limit in force, and promotion is reported before it is used. */
  predicate Recorded(s: State, known: Summary) {
    && s.until == known.limit
    && (s.until != 0 && !s.loop.Stored? && !s.loop.Announcing? && !s.loop.Ended? ==> known.told)
  }

  /** The start is reported before anything else, and inside the deadline if the limit may be stored. */
  predicate Dated(s: State, known: Summary) {
    && (Begun(s) ==>
          && known.begun.Some? && known.begun.value <= s.clock
          && (s.bound ==> s.deadline.boot && 0 <= known.begun.value && s.deadline.started <= known.begun.value))
    && (s.loop.Checked? ==> known.begun.Some? && Current(s.deadline, known.begun.value, true))
  }

  /** Expiry cancels the run for good, and no promotion is under way that has not seen it. */
  predicate Final(s: State, known: Summary) {
    && (known.expired ==> s.cancelled && (s.watch.Expired? || s.watch.Gone?))
    && (s.loop.Checked? ==> !known.expired)
  }

  predicate Inv(s: State) {
    && Exclusive(s) && Limits(s) && Shape(s)
    && Recorded(s, SummaryOf(s.log)) && Dated(s, SummaryOf(s.log)) && Final(s, SummaryOf(s.log))
  }

  // -------------------------------------------------------- claims about logs

  /** What a new event may be after a log that says this. */
  predicate Fits(d: Deadline, known: Summary, event: Event) {
    match event
    case ReplyStarted(bound, checked, clock) => checked <= clock && (bound ==> Current(d, checked, true))
    case Promotion(limit) =>
      && 0 < limit < d.end + HOUR && known.limit == 0 && !known.expired
      && known.begun.Some? && Current(d, known.begun.value, true)
    case Survived(clock, limit) =>
      && limit == known.limit && !known.expired
      && (if limit == 0 then Current(d, clock, true) else clock < limit)
    case ReplyPromoted(limit) => limit == known.limit != 0
    case ReplyRevoked => known.told
    case ConnectExpired => known.limit == 0
    case LeaseExpired => known.limit != 0
    case _ => true
  }

  predicate Lawful(d: Deadline, log: seq<Event>) {
    forall i :: 0 <= i < |log| ==> Fits(d, SummaryOf(log[..i]), log[i])
  }

  // ------------------------------------------------------------------- proofs

  function Learned(known: Summary, event: Option<Event>): Summary {
    if event.Some? then After(known, event.value) else known
  }

  lemma SummarySnoc(log: seq<Event>, event: Option<Event>)
    ensures SummaryOf(Extended(log, event)) == Learned(SummaryOf(log), event)
  {
    if event.Some? {
      assert Extended(log, event)[..|log|] == log;
    }
  }

  /** A step adds no event, or one that fits, and changes the deadline only before the first event. */
  predicate Fitting(s: State, effect: Effect) {
    && (effect.event.Some? ==>
          effect.state.deadline == s.deadline && Fits(s.deadline, SummaryOf(s.log), effect.event.value))
    && (effect.state.deadline == s.deadline || s.log == [])
  }

  /** What every kind of step keeps of the parts that do not concern the log. */
  predicate Keeps(s: State, effect: Effect) {
    && Exclusive(effect.state) && Limits(effect.state)
    && Shape(effect.state.(log := Extended(s.log, effect.event)))
  }

  predicate Records(s: State, effect: Effect) {
    var known := Learned(SummaryOf(s.log), effect.event);
    Recorded(effect.state, known) && Dated(effect.state, known) && Final(effect.state, known)
  }

  lemma ControlKeepsLimits(s: State, step: Step)
    requires Inv(s) && Enabled(s, step) && IsControlStep(step)
    ensures Limits(ControlEffect(s, step).state)
  {
  }

  lemma ControlKeepsShape(s: State, step: Step)
    requires Inv(s) && Enabled(s, step) && IsControlStep(step)
    ensures var effect := ControlEffect(s, step);
            Shape(effect.state.(log := Extended(s.log, effect.event)))
  {
  }

  lemma ControlKeepsExclusive(s: State, step: Step)
    requires Inv(s) && Enabled(s, step) && IsControlStep(step)
    ensures Exclusive(ControlEffect(s, step).state)
  {
  }

  lemma ControlRecords(s: State, step: Step)
    requires Inv(s) && Enabled(s, step) && IsControlStep(step)
    ensures Recorded(ControlEffect(s, step).state, Learned(SummaryOf(s.log), ControlEffect(s, step).event))
  {
  }

  lemma ControlKeepsDates(s: State, step: Step)
    requires Inv(s) && Enabled(s, step) && IsControlStep(step)
    ensures Dated(ControlEffect(s, step).state, Learned(SummaryOf(s.log), ControlEffect(s, step).event))
  {
  }

  lemma ControlKeepsFinal(s: State, step: Step)
    requires Inv(s) && Enabled(s, step) && IsControlStep(step)
    ensures Final(ControlEffect(s, step).state, Learned(SummaryOf(s.log), ControlEffect(s, step).event))
  {
  }

  lemma ControlFits(s: State, step: Step)
    requires Inv(s) && Enabled(s, step) && IsControlStep(step)
    ensures Fitting(s, ControlEffect(s, step))
  {
  }

  lemma LeaseKeepsLimits(s: State, step: Step)
    requires Inv(s) && Enabled(s, step) && !IsControlStep(step) && !IsWatchStep(step)
    ensures Limits(LeaseEffect(s, step).state)
  {
  }

  lemma LeaseKeepsShape(s: State, step: Step)
    requires Inv(s) && Enabled(s, step) && !IsControlStep(step) && !IsWatchStep(step)
    ensures var effect := LeaseEffect(s, step);
            Shape(effect.state.(log := Extended(s.log, effect.event)))
  {
  }

  lemma LeaseKeepsExclusive(s: State, step: Step)
    requires Exclusive(s) && Enabled(s, step) && !IsControlStep(step) && !IsWatchStep(step)
    ensures Exclusive(LeaseEffect(s, step).state)
  {
  }

  lemma LeaseRecords(s: State, step: Step)
    requires Inv(s) && Enabled(s, step) && !IsControlStep(step) && !IsWatchStep(step)
    ensures Recorded(LeaseEffect(s, step).state, Learned(SummaryOf(s.log), LeaseEffect(s, step).event))
  {
  }

  lemma LeaseKeepsDates(s: State, step: Step)
    requires Inv(s) && Enabled(s, step) && !IsControlStep(step) && !IsWatchStep(step)
    ensures Dated(LeaseEffect(s, step).state, Learned(SummaryOf(s.log), LeaseEffect(s, step).event))
  {
  }

  lemma LeaseKeepsFinal(s: State, step: Step)
    requires Inv(s) && Enabled(s, step) && !IsControlStep(step) && !IsWatchStep(step)
    ensures Final(LeaseEffect(s, step).state, Learned(SummaryOf(s.log), LeaseEffect(s, step).event))
  {
  }

  lemma LeaseFits(s: State, step: Step)
    requires Inv(s) && Enabled(s, step) && !IsControlStep(step) && !IsWatchStep(step)
    ensures Fitting(s, LeaseEffect(s, step))
  {
  }

  lemma WatchKeeps(s: State, step: Step)
    requires Inv(s) && Enabled(s, step) && IsWatchStep(step)
    ensures Exclusive(WatchEffect(s, step).state) && Limits(WatchEffect(s, step).state)
  {
  }

  lemma WatchKeepsShape(s: State, step: Step)
    requires Inv(s) && Enabled(s, step) && IsWatchStep(step)
    ensures var effect := WatchEffect(s, step);
            Shape(effect.state.(log := Extended(s.log, effect.event)))
  {
  }

  lemma WatchRecords(s: State, step: Step)
    requires Inv(s) && Enabled(s, step) && IsWatchStep(step)
    ensures Recorded(WatchEffect(s, step).state, Learned(SummaryOf(s.log), WatchEffect(s, step).event))
  {
  }

  lemma WatchKeepsDates(s: State, step: Step)
    requires Inv(s) && Enabled(s, step) && IsWatchStep(step)
    ensures Dated(WatchEffect(s, step).state, Learned(SummaryOf(s.log), WatchEffect(s, step).event))
  {
  }

  lemma WatchKeepsFinal(s: State, step: Step)
    requires Inv(s) && Enabled(s, step) && IsWatchStep(step)
    ensures Final(WatchEffect(s, step).state, Learned(SummaryOf(s.log), WatchEffect(s, step).event))
  {
  }

  lemma WatchFits(s: State, step: Step)
    requires Inv(s) && Enabled(s, step) && IsWatchStep(step)
    ensures Fitting(s, WatchEffect(s, step))
  {
  }

  lemma StepKeeps(s: State, step: Step)
    requires Inv(s) && Enabled(s, step)
    ensures Keeps(s, EffectOf(s, step)) && Records(s, EffectOf(s, step)) && Fitting(s, EffectOf(s, step))
  {
    if IsControlStep(step) {
      ControlKeepsLimits(s, step);
      ControlKeepsShape(s, step);
      ControlKeepsExclusive(s, step);
      ControlRecords(s, step);
      ControlKeepsDates(s, step);
      ControlKeepsFinal(s, step);
      ControlFits(s, step);
    } else if IsWatchStep(step) {
      WatchKeeps(s, step);
      WatchKeepsShape(s, step);
      WatchRecords(s, step);
      WatchKeepsDates(s, step);
      WatchKeepsFinal(s, step);
      WatchFits(s, step);
    } else {
      LeaseKeepsLimits(s, step);
      LeaseKeepsShape(s, step);
      LeaseKeepsExclusive(s, step);
      LeaseRecords(s, step);
      LeaseKeepsDates(s, step);
      LeaseKeepsFinal(s, step);
      LeaseFits(s, step);
    }
  }

  lemma EffectKeepsInv(s: State, effect: Effect)
    requires Keeps(s, effect) && Records(s, effect)
    ensures Inv(effect.state.(log := Extended(s.log, effect.event)))
  {
    SummarySnoc(s.log, effect.event);
  }

  lemma {:induction false} RunKeeps(clock: nat, steps: seq<Step>)
    requires Feasible(Initial(clock), steps)
    ensures Inv(Run(Initial(clock), steps))
    ensures Lawful(Run(Initial(clock), steps).deadline, Run(Initial(clock), steps).log)
  {
    if |steps| == 0 {
    } else {
      var front, last := steps[..|steps| - 1], steps[|steps| - 1];
      RunKeeps(clock, front);
      var s := Run(Initial(clock), front);
      StepKeeps(s, last);
      EffectKeepsInv(s, EffectOf(s, last));
      LawfulGrows(s, EffectOf(s, last));
    }
  }

  lemma LawfulGrows(s: State, effect: Effect)
    requires Lawful(s.deadline, s.log) && Fitting(s, effect)
    ensures Lawful(effect.state.deadline, Extended(s.log, effect.event))
  {
    var log := Extended(s.log, effect.event);
    forall i | 0 <= i < |log| ensures Fits(effect.state.deadline, SummaryOf(log[..i]), log[i]) {
      if i < |s.log| {
        assert log[..i] == s.log[..i];
      } else {
        assert log[..i] == s.log;
      }
    }
  }

  // ------------------------------------------------- what it means for a run

  lemma {:induction false} LimitIsSeen(d: Deadline, log: seq<Event>, i: nat)
    requires Lawful(d, log) && i < |log| && log[i].Promotion?
    ensures SummaryOf(log).limit != 0
  {
    var last := |log| - 1;
    assert Fits(d, SummaryOf(log[..last]), log[last]);
    if i == last {
      assert Fits(d, SummaryOf(log[..i]), log[i]);
    } else {
      LawfulPrefix(d, log, last);
      LimitIsSeen(d, log[..last], i);
    }
  }

  lemma {:induction false} LimitIsStored(log: seq<Event>) returns (i: nat)
    requires SummaryOf(log).limit != 0
    ensures i < |log| && log[i] == Promotion(SummaryOf(log).limit)
  {
    if log[|log| - 1].Promotion? {
      i := |log| - 1;
    } else {
      i := LimitIsStored(log[..|log| - 1]);
    }
  }

  lemma {:induction false} ExpiryIsSeen(log: seq<Event>, i: nat)
    requires i < |log| && (log[i].ConnectExpired? || log[i].LeaseExpired?)
    ensures SummaryOf(log).expired
  {
    if i < |log| - 1 {
      ExpiryIsSeen(log[..|log| - 1], i);
    }
  }

  lemma {:induction false} ToldBy(log: seq<Event>) returns (i: nat)
    requires SummaryOf(log).told
    ensures i < |log| && log[i].ReplyPromoted?
  {
    if log[|log| - 1].ReplyPromoted? {
      i := |log| - 1;
    } else {
      i := ToldBy(log[..|log| - 1]);
    }
  }

  lemma {:induction false} BegunBy(log: seq<Event>) returns (i: nat)
    requires SummaryOf(log).begun.Some?
    ensures i < |log| && log[i].ReplyStarted? && log[i].clock == SummaryOf(log).begun.value
  {
    if log[|log| - 1].ReplyStarted? {
      i := |log| - 1;
    } else {
      i := BegunBy(log[..|log| - 1]);
    }
  }

  lemma LawfulPrefix(d: Deadline, log: seq<Event>, j: nat)
    requires Lawful(d, log) && j <= |log|
    ensures Lawful(d, log[..j])
  {
    var front := log[..j];
    forall k | 0 <= k < j ensures Fits(d, SummaryOf(front[..k]), front[k]) {
      assert front[..k] == log[..k];
    }
  }

  /** In every interleaving the limit is stored at most once, and never after the watchdog gave up. */
  lemma PromotedAtMostOnce(clock: nat, steps: seq<Step>, i: nat, j: nat)
    requires Feasible(Initial(clock), steps)
    requires i < j < |Run(Initial(clock), steps).log| && Run(Initial(clock), steps).log[j].Promotion?
    ensures var earlier := Run(Initial(clock), steps).log[i];
            !earlier.Promotion? && !earlier.ConnectExpired? && !earlier.LeaseExpired?
  {
    RunKeeps(clock, steps);
    var d, log := Run(Initial(clock), steps).deadline, Run(Initial(clock), steps).log;
    var before := log[..j];
    assert Fits(d, SummaryOf(before), log[j]);
    LawfulPrefix(d, log, j);
    assert before[i] == log[i];
    if log[i].Promotion? {
      LimitIsSeen(d, before, i);
    } else if log[i].ConnectExpired? || log[i].LeaseExpired? {
      ExpiryIsSeen(before, i);
    }
  }

  /** Inside the connect deadline, or before a limit that was promoted earlier. */
  predicate InTime(d: Deadline, before: seq<Event>, clock: int, limit: int) {
    Current(d, clock, true) || (clock < limit && Promotion(limit) in before)
  }

  lemma LawfulSurvival(d: Deadline, log: seq<Event>, j: nat)
    requires Lawful(d, log) && j < |log| && log[j].Survived?
    ensures log[j].clock < d.end + HOUR && InTime(d, log[..j], log[j].clock, log[j].limit)
    ensures forall i :: 0 <= i < j ==> !log[i].ConnectExpired? && !log[i].LeaseExpired?
  {
    var before := log[..j];
    assert Fits(d, SummaryOf(before), log[j]);
    if log[j].limit != 0 {
      var i := LimitIsStored(before);
      assert Fits(d, SummaryOf(log[..i]), log[i]);
    }
    forall i | 0 <= i < j ensures !log[i].ConnectExpired? && !log[i].LeaseExpired? {
      if before[i].ConnectExpired? || before[i].LeaseExpired? {
        ExpiryIsSeen(before, i);
      }
    }
  }

  /**
   A run that survives a watchdog check is inside its connect deadline, or before a limit that was
   promoted earlier; either way less than an hour past the connect deadline. It never survives a
   check after one that ended it.
   */
  lemma SurvivalIsJustified(clock: nat, steps: seq<Step>, j: nat)
    requires Feasible(Initial(clock), steps)
    requires j < |Run(Initial(clock), steps).log| && Run(Initial(clock), steps).log[j].Survived?
    ensures var s := Run(Initial(clock), steps);
            && s.log[j].clock < s.deadline.end + HOUR
            && InTime(s.deadline, s.log[..j], s.log[j].clock, s.log[j].limit)
            && forall i :: 0 <= i < j ==> !s.log[i].ConnectExpired? && !s.log[i].LeaseExpired?
  {
    RunKeeps(clock, steps);
    LawfulSurvival(Run(Initial(clock), steps).deadline, Run(Initial(clock), steps).log, j);
  }

  /** A bound run is reported started only after a check that was inside its connect deadline. */
  lemma StartedAfterCheck(clock: nat, steps: seq<Step>, j: nat)
    requires Feasible(Initial(clock), steps)
    requires j < |Run(Initial(clock), steps).log| && Run(Initial(clock), steps).log[j].ReplyStarted?
    ensures var s := Run(Initial(clock), steps);
            && s.log[j].checked <= s.log[j].clock
            && (s.log[j].bound ==> Current(s.deadline, s.log[j].checked, true))
  {
    RunKeeps(clock, steps);
    var s := Run(Initial(clock), steps);
    assert Fits(s.deadline, SummaryOf(s.log[..j]), s.log[j]);
  }

  lemma RunSnoc(s: State, steps: seq<Step>, step: Step, t: State)
    requires Feasible(s, steps) && Run(s, steps) == t && Enabled(t, step)
    ensures Feasible(s, steps + [step]) && Run(s, steps + [step]) == Next(t, step)
  {
    assert (steps + [step])[..|steps|] == steps;
  }

  /** A bound start up to the last check of its deadline. */
  function CheckedStart(d: Deadline): seq<Step> {
    [] + [Start(true, d, true, true)] + [Launch] + [CoreStarted(true, true)]
  }

  lemma CheckedStartRuns(d: Deadline, clock: nat)
    requires ValidDeadline(d) && Current(d, clock, true)
    ensures Feasible(Initial(clock), CheckedStart(d))
    ensures Run(Initial(clock), CheckedStart(d)) ==
            Initial(clock).(bound := true, deadline := d, watch := Waiting, loop := Verified(clock))
  {
    var s0 := Initial(clock);
    var s1 := s0.(bound := true, deadline := d, watch := Waiting, loop := Starting);
    RunSnoc(s0, [], Start(true, d, true, true), s0);
    RunSnoc(s0, [] + [Start(true, d, true, true)], Launch, s1);
    RunSnoc(s0, [] + [Start(true, d, true, true)] + [Launch], CoreStarted(true, true), s1.(loop := Launched));
  }

  /**
   The reply itself can be late: nothing is checked between the last check and sending. For every deadline
   and every clock inside it there is a run that reports started only when the deadline has passed.
   */
  lemma StartedCanBeLate(d: Deadline, clock: nat)
    requires ValidDeadline(d) && Current(d, clock, true)
    ensures var steps := CheckedStart(d) + [Tick(d.end - clock)] + [Report(true)];
            && Feasible(Initial(clock), steps)
            && Run(Initial(clock), steps).log == [ReplyStarted(true, clock, d.end)]
            && !Current(d, d.end, true)
  {
    CheckedStartRuns(d, clock);
    var s := Run(Initial(clock), CheckedStart(d));
    RunSnoc(Initial(clock), CheckedStart(d), Tick(d.end - clock), s);
    RunSnoc(Initial(clock), CheckedStart(d) + [Tick(d.end - clock)], Report(true), s.(clock := d.end));
  }

  /**
   A late start comes to nothing: the limit is stored only after the client was told that the core runs,
   and told inside the connect deadline.
   */
  lemma PromotedAfterStarted(clock: nat, steps: seq<Step>, j: nat) returns (i: nat)
    requires Feasible(Initial(clock), steps)
    requires j < |Run(Initial(clock), steps).log| && Run(Initial(clock), steps).log[j].Promotion?
    ensures i < j && Run(Initial(clock), steps).log[i].ReplyStarted?
    ensures Current(Run(Initial(clock), steps).deadline, Run(Initial(clock), steps).log[i].clock, true)
  {
    RunKeeps(clock, steps);
    var s := Run(Initial(clock), steps);
    assert Fits(s.deadline, SummaryOf(s.log[..j]), s.log[j]);
    i := BegunBy(s.log[..j]);
  }

  /** Revocation is only ever confirmed to a client that was told of the promotion before. */
  lemma RevokedAfterPromoted(clock: nat, steps: seq<Step>, j: nat) returns (i: nat)
    requires Feasible(Initial(clock), steps)
    requires j < |Run(Initial(clock), steps).log| && Run(Initial(clock), steps).log[j].ReplyRevoked?
    ensures i < j && Run(Initial(clock), steps).log[i].ReplyPromoted?
  {
    RunKeeps(clock, steps);
    var s := Run(Initial(clock), steps);
    assert Fits(s.deadline, SummaryOf(s.log[..j]), s.log[j]);
    i := ToldBy(s.log[..j]);
  }
}
