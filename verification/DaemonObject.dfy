/**
 The daemon's two threads, section by section: every section of the command loop and of the watchdog between two
 points where the other may run is proved to take one step of LinuxDaemon.
 */
module DaemonObject {
  import opened Wrappers
  import opened LinuxLease
  import opened LinuxDaemon

  /** The bounds that a deadline has to meet when a command is read. */
  method CheckDeadline(d: Deadline) returns (ok: bool)
    ensures ok <==> ValidDeadline(d)
  {
    return d.started >= 0 && d.end <= 9007199254740991 && d.end > d.started && d.end - d.started <= 86400000;
  }

  /** The deadline against the boot clock, which is read as seconds and nanoseconds. */
  method IsCurrent(d: Deadline, readable: bool, seconds: int, nanos: int) returns (ok: bool)
    requires 0 <= nanos < 1_000_000_000
    ensures ok <==> Current(d, seconds * 1000 + nanos / 1_000_000, readable)
  {
    if !readable || !d.boot {
      return false;
    }
    if seconds < 0 || seconds > 9007199254740 {
      return false;
    }
    var elapsed := seconds * 1000 + nanos / 1_000_000;
    return elapsed >= d.started && elapsed < d.end;
  }

  class Daemon {
    var cancelled: bool
    var promotedUntil: int
    var boundStart: bool
    var deadline: Deadline
    /** The clock, who holds the mutex, where both threads are and what has happened. */
    ghost var clock: int
    ghost var holder: Holder
    ghost var loop: Loop
    ghost var watch: Watch
    ghost var log: seq<Event>

    ghost function Now(): State
      reads this
    {
      State(clock, cancelled, promotedUntil, holder, boundStart, deadline, loop, watch, log)
    }

    constructor (ghost started: nat)
      ensures Now() == Initial(started)
    {
      cancelled, promotedUntil, boundStart, deadline := false, 0, false, Deadline(false, 0, 0);
      clock, holder, loop, watch, log := started, Nobody, Fresh, Absent, [];
    }

    // ------------------------------------------------------ the command loop

    /** Every return of the command loop cancels the run and leaves the mutex free. */
    method Leave()
      modifies `cancelled, `holder, `loop
      ensures cancelled && loop == Ended && holder == if old(holder).TheLoop? then Nobody else old(holder)
    {
      cancelled, loop := true, Ended;
      if holder == TheLoop {
        holder := Nobody;
      }
    }

    /** A reply that cannot be written ends the loop. */
    method Answer(sent: bool, ghost event: Event)
      modifies `cancelled, `holder, `loop, `log
      ensures Now() == Reply(old(Now()), sent, event).state.(log := if sent then old(log) + [event] else old(log))
    {
      if !sent {
        Leave();
        return;
      }
      loop, log := Idle, log + [event];
    }

    method Start(bound: bool, d: Deadline, matches: bool, readable: bool, seconds: int, nanos: int)
      requires 0 <= nanos < 1_000_000_000 && clock == seconds * 1000 + nanos / 1_000_000
      requires Enabled(Now(), Step.Start(bound, d, matches, readable))
      modifies `cancelled, `holder, `loop, `boundStart, `deadline, `watch
      ensures Now() == Next(old(Now()), Step.Start(bound, d, matches, readable))
    {
      if bound {
        if !matches {
          Leave();
          return;
        }
        var current := IsCurrent(d, readable, seconds, nanos);
        if !current {
          Leave();
          return;
        }
      }
      boundStart, deadline, loop := bound, d, Starting;
      watch := if bound then Waiting else Absent;
    }

    method Launch()
      requires Enabled(Now(), Step.Launch)
      modifies `cancelled, `holder, `loop
      ensures Now() == Next(old(Now()), Step.Launch)
    {
      if cancelled {
        Leave();
        return;
      }
      loop := Launched;
    }

    method CoreStarted(ok: bool, readable: bool, seconds: int, nanos: int)
      requires 0 <= nanos < 1_000_000_000 && clock == seconds * 1000 + nanos / 1_000_000
      requires Enabled(Now(), Step.CoreStarted(ok, readable))
      modifies `cancelled, `holder, `loop
      ensures Now() == Next(old(Now()), Step.CoreStarted(ok, readable))
    {
      if !ok {
        Leave();
        return;
      }
      if boundStart {
        var current := IsCurrent(deadline, readable, seconds, nanos);
        if !current {
          Leave();
          return;
        }
      }
      loop := Verified(clock);
    }

    method Report(sent: bool)
      requires Enabled(Now(), Step.Report(sent))
      modifies `cancelled, `holder, `loop, `log
      ensures Now() == Next(old(Now()), Step.Report(sent))
    {
      Answer(sent, ReplyStarted(boundStart, loop.at, clock));
    }

    method Health(sent: bool)
      requires Enabled(Now(), Step.Health(sent))
      modifies `cancelled, `holder, `loop, `log
      ensures Now() == Next(old(Now()), Step.Health(sent))
    {
      Answer(sent, ReplyHealth);
    }

    /** Stop, an unknown command, or the end of the context. */
    method Quit()
      requires Enabled(Now(), Step.Quit)
      modifies `cancelled, `holder, `loop
      ensures Now() == Next(old(Now()), Step.Quit)
    {
      Leave();
    }

    method Promote(matches: bool, readable: bool, seconds: int, nanos: int)
      requires 0 <= nanos < 1_000_000_000 && clock == seconds * 1000 + nanos / 1_000_000
      requires Enabled(Now(), Step.Promote(matches, readable))
      modifies `cancelled, `holder, `loop
      ensures Now() == Next(old(Now()), Step.Promote(matches, readable))
    {
      if !boundStart || promotedUntil != 0 {
        Leave();
        return;
      }
      var current := IsCurrent(deadline, readable, seconds, nanos);
      if !current || !matches || cancelled {
        Leave();
        return;
      }
      loop := Admitted;
    }

    method Confirm(limit: Option<int>)
      requires Enabled(Now(), Step.Confirm(limit))
      modifies `cancelled, `holder, `loop
      ensures Now() == Next(old(Now()), Step.Confirm(limit))
    {
      if limit.None? || cancelled {
        Leave();
        return;
      }
      loop := Confirmed(limit.value, clock);
    }

    method LockForPromotion()
      requires Enabled(Now(), LoopLock)
      modifies `holder, `loop
      ensures Now() == Next(old(Now()), LoopLock)
    {
      holder, loop := TheLoop, Locked(loop.limit, loop.at);
    }

    method CheckAgain(readable: bool, seconds: int, nanos: int)
      requires 0 <= nanos < 1_000_000_000 && clock == seconds * 1000 + nanos / 1_000_000
      requires Enabled(Now(), LoopCheck(readable))
      modifies `cancelled, `holder, `loop
      ensures Now() == Next(old(Now()), LoopCheck(readable))
    {
      var current := IsCurrent(deadline, readable, seconds, nanos);
      if !current || cancelled {
        Leave();
        return;
      }
      loop := Checked(loop.limit);
    }

    method Store(limit: int)
      requires Enabled(Now(), LoopStore) && limit == loop.limit
      modifies `promotedUntil, `loop, `log
      ensures Now() == Next(old(Now()), LoopStore)
    {
      promotedUntil := limit;
      loop, log := Stored(limit), log + [Promotion(limit)];
    }

    method UnlockPromoted()
      requires Enabled(Now(), LoopUnlock)
      modifies `holder, `loop
      ensures Now() == Next(old(Now()), LoopUnlock)
    {
      holder, loop := Nobody, Announcing(loop.limit);
    }

    method Announce(sent: bool)
      requires Enabled(Now(), Step.Announce(sent))
      modifies `cancelled, `holder, `loop, `log
      ensures Now() == Next(old(Now()), Step.Announce(sent))
    {
      Answer(sent, ReplyPromoted(loop.limit));
    }

    method Revoke(matches: bool)
      requires Enabled(Now(), Step.Revoke(matches))
      modifies `cancelled, `holder, `loop
      ensures Now() == Next(old(Now()), Step.Revoke(matches))
    {
      if !boundStart || promotedUntil == 0 || !matches || cancelled {
        Leave();
        return;
      }
      loop := Revoking;
    }

    method ReportRevoked(ok: bool, sent: bool)
      requires Enabled(Now(), Revoked(ok, sent))
      modifies `cancelled, `holder, `loop, `log
      ensures Now() == Next(old(Now()), Revoked(ok, sent))
    {
      if !ok {
        Leave();
        return;
      }
      Answer(sent, ReplyRevoked);
    }

    // ---------------------------------------------------------- the watchdog

    method LockForCheck()
      requires Enabled(Now(), WatchLock)
      modifies `holder, `watch
      ensures Now() == Next(old(Now()), WatchLock)
    {
      holder, watch := TheWatch, Holding;
    }

    method Load() returns (limit: int)
      requires Enabled(Now(), WatchLoad)
      modifies `watch
      ensures Now() == Next(old(Now()), WatchLoad) && Now().watch == Loaded(limit)
    {
      limit := promotedUntil;
      watch := Loaded(limit);
    }

    method Check(limit: int, readable: bool, seconds: int, nanos: int) returns (ok: bool)
      requires 0 <= nanos < 1_000_000_000 && clock == seconds * 1000 + nanos / 1_000_000
      requires Enabled(Now(), WatchCheck(readable)) && limit == watch.limit
      modifies `watch, `log
      ensures Now() == Next(old(Now()), WatchCheck(readable)) && (ok <==> watch.Passed?)
    {
      if limit == 0 {
        ok := IsCurrent(deadline, readable, seconds, nanos);
      } else {
        ok := readable && seconds * 1000 + nanos / 1_000_000 < limit;
      }
      if ok {
        watch, log := Passed, log + [Survived(clock, limit)];
      } else {
        watch := Failed(limit);
      }
    }

    method CancelRun()
      requires Enabled(Now(), WatchCancel)
      modifies `cancelled, `watch, `log
      ensures Now() == Next(old(Now()), WatchCancel)
    {
      cancelled := true;
      log := log + [if watch.limit == 0 then ConnectExpired else LeaseExpired];
      watch := Expired;
    }

    method UnlockChecked()
      requires Enabled(Now(), WatchUnlock)
      modifies `holder, `watch
      ensures Now() == Next(old(Now()), WatchUnlock)
    {
      holder := Nobody;
      watch := if watch == Passed then Waiting else Gone;
    }

    method StopWatching()
      requires Enabled(Now(), WatchQuit)
      modifies `watch
      ensures Now() == Next(old(Now()), WatchQuit)
    {
      watch := Gone;
    }
  }

  // ------------------------------------------------------------ what they reach

  /** A bound run that is not cancelled is being watched. */
  lemma UncancelledIsWatched(started: nat, steps: seq<Step>)
    requires Feasible(Initial(started), steps)
    ensures var s := Run(Initial(started), steps);
            s.bound && !s.cancelled ==> !s.watch.Absent? && !s.watch.Expired? && !s.watch.Gone?
  {
    RunKeeps(started, steps);
  }

  /** When a watchdog round lets the run go on. */
  ghost predicate Survives(s: State, readable: bool) {
    readable &&
    if s.until == 0 then
      s.deadline.boot && 0 <= s.clock <= 9_007_199_254_740_999 && s.deadline.started <= s.clock < s.deadline.end
    else
      s.clock < s.until
  }

  function CheckSteps(readable: bool): seq<Step> {
    [] + [WatchLock] + [WatchLoad] + [WatchCheck(readable)]
  }

  /** The three steps of a check, from an idle watchdog and a free mutex. */
  lemma CheckReaches(s: State, readable: bool)
    requires s.watch.Waiting? && s.holder.Nobody?
    ensures Feasible(s, CheckSteps(readable))
    ensures Run(s, CheckSteps(readable)) ==
            if Survives(s, readable) then
              s.(watch := Passed, holder := TheWatch, log := s.log + [Survived(s.clock, s.until)])
            else
              s.(watch := Failed(s.until), holder := TheWatch)
  {
    var locked := s.(watch := Holding, holder := TheWatch);
    RunSnoc(s, [], WatchLock, s);
    RunSnoc(s, [] + [WatchLock], WatchLoad, locked);
    RunSnoc(s, [] + [WatchLock] + [WatchLoad], WatchCheck(readable), locked.(watch := Loaded(s.until)));
  }

  /** A round that finds the run in time lets it go on as it was. */
  lemma RoundPasses(s: State, readable: bool)
    requires s.watch.Waiting? && s.holder.Nobody? && Survives(s, readable)
    ensures Feasible(s, CheckSteps(readable) + [WatchUnlock])
    ensures Run(s, CheckSteps(readable) + [WatchUnlock]) == s.(log := s.log + [Survived(s.clock, s.until)])
  {
    CheckReaches(s, readable);
    RunSnoc(s, CheckSteps(readable), WatchUnlock, Run(s, CheckSteps(readable)));
  }

  /** Any other round cancels it, says which limit had passed, frees the mutex and ends the watchdog. */
  lemma RoundEnds(s: State, readable: bool)
    requires s.watch.Waiting? && s.holder.Nobody? && !Survives(s, readable)
    ensures Feasible(s, CheckSteps(readable) + [WatchCancel] + [WatchUnlock])
    ensures Run(s, CheckSteps(readable) + [WatchCancel] + [WatchUnlock]) ==
            s.(cancelled := true, watch := Gone,
               log := s.log + [if s.until == 0 then ConnectExpired else LeaseExpired])
  {
    CheckReaches(s, readable);
    RunSnoc(s, CheckSteps(readable), WatchCancel, Run(s, CheckSteps(readable)));
    RunSnoc(s, CheckSteps(readable) + [WatchCancel], WatchUnlock,
            Run(s, CheckSteps(readable) + [WatchCancel]));
  }

  function AdmissionSteps(limit: int): seq<Step> {
    [] + [Step.Promote(true, true)] + [Step.Confirm(Some(limit))] + [LoopLock]
  }

  predicate Promotable(s: State, limit: int) {
    && s.loop.Idle? && s.holder.Nobody? && s.bound && s.until == 0 && !s.cancelled
    && Current(s.deadline, s.clock, true) && WithinHour(s.clock, limit)
  }

  lemma AdmissionReaches(s: State, limit: int)
    requires Promotable(s, limit)
    ensures Feasible(s, AdmissionSteps(limit))
    ensures Run(s, AdmissionSteps(limit)) == s.(loop := Locked(limit, s.clock), holder := TheLoop)
  {
    RunSnoc(s, [], Step.Promote(true, true), s);
    RunSnoc(s, [] + [Step.Promote(true, true)], Step.Confirm(Some(limit)), s.(loop := Admitted));
    RunSnoc(s, [] + [Step.Promote(true, true)] + [Step.Confirm(Some(limit))], LoopLock,
            s.(loop := Confirmed(limit, s.clock)));
  }

  function StoreSteps(limit: int): seq<Step> {
    AdmissionSteps(limit) + [LoopCheck(true)] + [LoopStore]
  }

  lemma StoreReaches(s: State, limit: int)
    requires Promotable(s, limit)
    ensures Feasible(s, StoreSteps(limit))
    ensures Run(s, StoreSteps(limit)) ==
            s.(loop := Stored(limit), holder := TheLoop, until := limit, log := s.log + [Promotion(limit)])
  {
    AdmissionReaches(s, limit);
    var locked := s.(loop := Locked(limit, s.clock), holder := TheLoop);
    RunSnoc(s, AdmissionSteps(limit), LoopCheck(true), locked);
    RunSnoc(s, AdmissionSteps(limit) + [LoopCheck(true)], LoopStore, locked.(loop := Checked(limit)));
  }

  function PromotionSteps(limit: int): seq<Step> {
    StoreSteps(limit) + [LoopUnlock] + [Step.Announce(true)]
  }

  /** A bound run inside its deadline that was not promoted before can be promoted, and changes in nothing else. */
  lemma PromotionReaches(s: State, limit: int)
    requires Promotable(s, limit)
    ensures Feasible(s, PromotionSteps(limit))
    ensures Run(s, PromotionSteps(limit)) ==
            s.(until := limit, log := s.log + [Promotion(limit)] + [ReplyPromoted(limit)])
  {
    StoreReaches(s, limit);
    var stored := Run(s, StoreSteps(limit));
    RunSnoc(s, StoreSteps(limit), LoopUnlock, stored);
    RunSnoc(s, StoreSteps(limit) + [LoopUnlock], Step.Announce(true),
            stored.(loop := Announcing(limit), holder := Nobody));
  }

  /** A promoted run can have its lease revoked, which is answered and changes nothing else. */
  lemma RevocationReaches(s: State)
    requires s.loop.Idle? && s.bound && s.until != 0 && !s.cancelled
    ensures Feasible(s, [] + [Step.Revoke(true)] + [Revoked(true, true)])
    ensures Run(s, [] + [Step.Revoke(true)] + [Revoked(true, true)]) == s.(log := s.log + [ReplyRevoked])
  {
    RunSnoc(s, [], Step.Revoke(true), s);
    RunSnoc(s, [] + [Step.Revoke(true)], Revoked(true, true), s.(loop := Revoking));
  }
}
