/**
 The runtime event emitter: events are numbered under a lock, enqueued without it into a bounded
 channel, and delivered by one thread. Every interleaving of these steps is a run.
 */
module Emitter {
  import opened Wrappers

  const MAXIMUM_PENDING := 128
  const MAXIMUM_GENERATION := 0x7FFF_FFFF

  datatype Definition =
    | RuntimeInitialize | RuntimeStart | RuntimeStop | EgressProbe | DnsProbeReceive | DnsProbeExchange | DnsProbeReply
    | UnknownDefinition

  datatype Outcome = Started | Succeeded | Failed | UnknownOutcome

  datatype Severity = Info | Error

  const KNOWN_CODES := {"CORE-003", "CORE-005", "CORE-006", "CORE-008", "EGRESS-001", "DNS-002",
                        "TRANSPORT-001", "TRANSPORT-002", "TRANSPORT-003", "TRANSPORT-004",
                        "TRANSPORT-005", "TRANSPORT-006", "TRANSPORT-007"}

  /** None for a combination that is never emitted. */
  function SeverityOf(definition: Definition, outcome: Outcome, code: string): Option<Severity> {
    if definition.UnknownDefinition? then None
    else if definition.DnsProbeReceive? && !outcome.Started? then None
    else if (definition.DnsProbeExchange? || definition.DnsProbeReply?) && !outcome.Succeeded? &&
            !outcome.Failed? then None
    else if (definition.DnsProbeExchange? || definition.DnsProbeReply?) && outcome.Failed? &&
            code != "DNS-002" then None
    else match outcome
      case UnknownOutcome => None
      case Failed => if code in KNOWN_CODES then Some(Error) else None
      case _ => if code == "" then Some(Info) else None
  }

  datatype Owner = Owner(runId: string, attemptId: string, generation: int)

  /** `captured` is the owner that a captured emitter was bound to. */
  datatype Event = Event(
    owner: Owner, sequence: nat, definition: Definition, outcome: Outcome,
    code: string, severity: Severity, captured: Option<Owner>)

  datatype Worker = Waiting | Taken(event: Event) | Calling(event: Event) | Returned(event: Event, ok: bool)

  /**
   `issued`, `sent`, `lost` and `taken` are histories; `flight` are the events numbered but not
   yet offered to the channel, `uncounted` and `unlost` those offered but not yet counted.
   */
  datatype State = State(
    sink: bool, owner: Owner, sequence: nat, received: bool, captures: set<Owner>,
    issued: seq<Event>, flight: multiset<Event>, uncounted: nat, unlost: nat,
    capacity: nat, queue: seq<Event>, sent: seq<Event>, lost: seq<Event>,
    worker: Worker, taken: seq<Event>,
    enqueued: nat, dropped: nat, delivered: nat, panics: nat, discarded: nat)

  datatype Step =
    | SetSink(present: bool)
    | Configure(wellFormed: bool, owner: Owner)
    | Capture
    | Emit(definition: Definition, outcome: Outcome, code: string, captured: Option<Owner>)
    | Send(event: Event)
    | CountSent
    | CountLost
    | Take
    | ReadSink
    | SinkEnds(ok: bool)
    | CountDelivery

  predicate Enabled(s: State, step: Step) {
    match step
    case Emit(_, _, _, captured) => captured.Some? ==> captured.value in s.captures
    case Send(event) => event in s.flight
    case CountSent => s.uncounted > 0
    case CountLost => s.unlost > 0
    case Take => s.worker.Waiting? && |s.queue| > 0
    case ReadSink => s.worker.Taken?
    case SinkEnds(_) => s.worker.Calling?
    case CountDelivery => s.worker.Returned?
    case _ => true
  }

  predicate Accepts(s: State, wellFormed: bool, owner: Owner) {
    wellFormed && 1 <= owner.generation <= MAXIMUM_GENERATION && s.owner.generation <= owner.generation
  }

  /** The event an emission is numbered as, or None if it is refused. */
  function Numbered(s: State, definition: Definition, outcome: Outcome, code: string,
                    captured: Option<Owner>): Option<Event>
  {
    var severity := SeverityOf(definition, outcome, code);
    if severity.None? || !s.sink || s.owner.generation < 1 then None
    else if captured.Some? && captured.value != s.owner then None
    else if definition.DnsProbeReceive? && s.received then None
    else Some(Event(s.owner, s.sequence + 1, definition, outcome, code, severity.value, captured))
  }

  /** A later generation starts counting anew; an earlier one is refused. */
  function Configured(s: State, wellFormed: bool, owner: Owner): State {
    if !Accepts(s, wellFormed, owner) then s
    else if owner.generation > s.owner.generation then s.(owner := owner, sequence := 0, received := false)
    else s.(owner := owner)
  }

  function Emitted(s: State, event: Option<Event>): State {
    if event.None? then s
    else s.(received := s.received || event.value.definition.DnsProbeReceive?, sequence := event.value.sequence,
            issued := s.issued + [event.value], flight := s.flight + multiset{event.value})
  }

  /** The channel takes an event while there is room. */
  function Offered(s: State, event: Event): State {
    if |s.queue| < s.capacity
    then s.(flight := s.flight - multiset{event}, queue := s.queue + [event],
            sent := s.sent + [event], uncounted := s.uncounted + 1)
    else s.(flight := s.flight - multiset{event}, lost := s.lost + [event], unlost := s.unlost + 1)
  }

  function Next(s: State, step: Step): State
    requires Enabled(s, step)
  {
    match step
    case SetSink(present) => s.(sink := present)
    case Configure(wellFormed, owner) => Configured(s, wellFormed, owner)
    case Capture => if s.sink && s.owner.generation > 0 then s.(captures := s.captures + {s.owner}) else s
    case Emit(definition, outcome, code, captured) =>
      Emitted(s, Numbered(s, definition, outcome, code, captured))
    case Send(event) => Offered(s, event)
    case CountSent => s.(uncounted := s.uncounted - 1, enqueued := s.enqueued + 1)
    case CountLost => s.(unlost := s.unlost - 1, dropped := s.dropped + 1)
    case Take => s.(queue := s.queue[1..], taken := s.taken + [s.queue[0]], worker := Taken(s.queue[0]))
    case ReadSink =>
      if s.sink then s.(worker := Calling(s.worker.event)) else s.(worker := Waiting, discarded := s.discarded + 1)
    case SinkEnds(ok) => s.(worker := Returned(s.worker.event, ok))
    case CountDelivery =>
      if s.worker.ok then s.(worker := Waiting, delivered := s.delivered + 1)
      else s.(worker := Waiting, panics := s.panics + 1)
  }

  function Capacity(requested: int): nat {
    if requested < 1 || requested > MAXIMUM_PENDING then MAXIMUM_PENDING else requested
  }

  function Initial(requested: int): State {
    State(false, Owner("", "", 0), 0, false, {}, [], multiset{}, 0, 0, Capacity(requested), [], [], [], Waiting, [],
          0, 0, 0, 0, 0)
  }

  /** The states of a run, one before each step and one at the end. */
  ghost predicate IsRun(requested: int, steps: seq<Step>, states: seq<State>) {
    && |states| == |steps| + 1
    && states[0] == Initial(requested)
    && forall i :: 0 <= i < |steps| ==> Enabled(states[i], steps[i]) && states[i + 1] == Next(states[i], steps[i])
  }

  // --------------------------------------------------------------- invariants

  predicate Before(a: Event, b: Event) {
    a.owner.generation < b.owner.generation || (a.owner.generation == b.owner.generation && a.sequence < b.sequence)
  }

  predicate Genuine(event: Event) {
    && SeverityOf(event.definition, event.outcome, event.code) == Some(event.severity)
    && (event.captured.Some? ==> event.captured.value == event.owner)
    && event.owner.generation >= 1
  }

  /** Numbers only grow, and the current pair is the greatest handed out. */
  predicate Ordered(s: State) {
    && (forall i, j :: 0 <= i < j < |s.issued| ==> Before(s.issued[i], s.issued[j]))
    && (forall i :: 0 <= i < |s.issued| ==>
          s.issued[i].owner.generation < s.owner.generation ||
          (s.issued[i].owner.generation == s.owner.generation && s.issued[i].sequence <= s.sequence))
    && (forall i :: 0 <= i < |s.issued| ==> Genuine(s.issued[i]))
  }

  /** The first owned DNS datagram of a generation is reported once. */
  predicate Single(s: State) {
    && (forall i, j :: 0 <= i < j < |s.issued| && s.issued[i].definition.DnsProbeReceive? &&
                       s.issued[j].definition.DnsProbeReceive? ==>
          s.issued[i].owner.generation != s.issued[j].owner.generation)
    && (forall i :: 0 <= i < |s.issued| && s.issued[i].definition.DnsProbeReceive? &&
                    s.issued[i].owner.generation == s.owner.generation ==>
          s.received)
    && (forall i :: 0 <= i < |s.issued| ==> s.issued[i].owner.generation <= s.owner.generation)
  }

  /** How many events a generation has been given. */
  function CountIn(events: seq<Event>, generation: int): nat {
    if |events| == 0 then 0
    else
      CountIn(events[..|events| - 1], generation) +
      if events[|events| - 1].owner.generation == generation then 1 else 0
  }

  /** Every generation is numbered 1, 2, 3 and so on, and the flag says whether it has had its first datagram. */
  predicate Gapless(s: State) {
    && s.sequence == CountIn(s.issued, s.owner.generation)
    && (forall i :: 0 <= i < |s.issued| ==> s.issued[i].owner.generation <= s.owner.generation)
    && (forall i :: 0 <= i < |s.issued| ==>
        s.issued[i].sequence == CountIn(s.issued[..i], s.issued[i].owner.generation) + 1)
  }

  predicate HasReceived(events: seq<Event>, generation: int) {
    exists i :: 0 <= i < |events| && events[i].definition.DnsProbeReceive? && events[i].owner.generation == generation
  }

  predicate Flagged(s: State) {
    s.received ==> HasReceived(s.issued, s.owner.generation)
  }

  lemma {:induction false} CountBeyond(events: seq<Event>, generation: int)
    requires forall i :: 0 <= i < |events| ==> events[i].owner.generation < generation
    ensures CountIn(events, generation) == 0
  {
    if |events| == 0 {
    } else {
      CountBeyond(events[..|events| - 1], generation);
    }
  }

  lemma AppendGapless(s: State, event: Event, s': State)
    requires Gapless(s) && event.owner == s.owner && event.sequence == s.sequence + 1
    requires s'.issued == s.issued + [event] && s'.owner == s.owner && s'.sequence == event.sequence
    ensures Gapless(s')
  {
    var last := |s.issued|;
    assert s'.issued[..last] == s.issued && s'.issued[last] == event;
    forall i | 0 <= i < |s'.issued|
      ensures s'.issued[i].sequence == CountIn(s'.issued[..i], s'.issued[i].owner.generation) + 1
    {
      if i < last {
        assert s'.issued[i] == s.issued[i] && s'.issued[..i] == s.issued[..i];
      }
    }
    forall i | 0 <= i < |s'.issued| ensures s'.issued[i].owner.generation <= s'.owner.generation {
      if i < last {
        assert s'.issued[i] == s.issued[i];
      }
    }
  }

  lemma StepKeepsGapless(s: State, step: Step)
    requires Enabled(s, step) && Gapless(s)
    ensures Gapless(Next(s, step))
  {
    var s' := Next(s, step);
    if step.Emit? && Numbered(s, step.definition, step.outcome, step.code, step.captured).Some? {
      AppendGapless(s, Numbered(s, step.definition, step.outcome, step.code, step.captured).value, s');
    } else {
      QuietStep(s, step);
      QuietGapless(s, s');
    }
  }

  lemma QuietGapless(s: State, s': State)
    requires Gapless(s) && s'.issued == s.issued
    requires (s'.owner.generation == s.owner.generation && s'.sequence == s.sequence) ||
             (s'.owner.generation > s.owner.generation && s'.sequence == 0)
    ensures Gapless(s')
  {
    if s'.owner.generation > s.owner.generation {
      CountBeyond(s.issued, s'.owner.generation);
    }
  }

  lemma StepKeepsFlag(s: State, step: Step)
    requires Enabled(s, step) && Flagged(s)
    ensures Flagged(Next(s, step))
  {
    var s' := Next(s, step);
    if s'.received && s'.issued != s.issued {
      var last := |s.issued|;
      if s.received {
        var i :| 0 <= i < |s.issued| && s.issued[i].definition.DnsProbeReceive? &&
                 s.issued[i].owner.generation == s.owner.generation;
        assert s'.issued[i] == s.issued[i];
      } else {
        assert s'.issued[last].definition.DnsProbeReceive?;
      }
    }
  }

  function Busy(s: State): seq<Event> {
    if s.worker.Waiting? then [] else [s.worker.event]
  }

  /** No event is lost silently, invented or duplicated. */
  predicate Accounted(s: State) {
    multiset(s.issued) == multiset(s.sent) + multiset(s.lost) + s.flight
  }

  /** The channel is bounded and first in, first out. */
  predicate Fifo(s: State) {
    s.sent == s.taken + s.queue && |s.queue| <= s.capacity && 1 <= s.capacity <= MAXIMUM_PENDING
  }

  /** The counters lag by what is under way. */
  predicate Counted(s: State) {
    && |s.sent| == s.enqueued + s.uncounted
    && |s.lost| == s.dropped + s.unlost
    && |s.taken| == s.delivered + s.panics + s.discarded + |Busy(s)|
  }

  lemma AppendOrdered(s: State, event: Event, s': State)
    requires Ordered(s) && Genuine(event) && event.owner == s.owner && event.sequence == s.sequence + 1
    requires s'.issued == s.issued + [event] && s'.owner == s.owner && s'.sequence == event.sequence
    ensures Ordered(s')
  {
  }

  lemma QuietOrdered(s: State, s': State)
    requires Ordered(s) && s'.issued == s.issued
    requires (s'.owner.generation == s.owner.generation && s'.sequence == s.sequence) ||
             s'.owner.generation > s.owner.generation
    ensures Ordered(s')
  {
  }

  /** A step that numbers no event keeps the current pair, or opens a later generation. */
  lemma QuietStep(s: State, step: Step)
    requires Enabled(s, step)
    requires !(step.Emit? && Numbered(s, step.definition, step.outcome, step.code, step.captured).Some?)
    ensures var s' := Next(s, step);
            && s'.issued == s.issued
            && ((s'.owner.generation == s.owner.generation && s'.sequence == s.sequence) ||
                (s'.owner.generation > s.owner.generation && s'.sequence == 0))
  {
  }

  lemma NumberedIsGenuine(s: State, definition: Definition, outcome: Outcome, code: string, captured: Option<Owner>)
    requires Numbered(s, definition, outcome, code, captured).Some?
    ensures Genuine(Numbered(s, definition, outcome, code, captured).value)
  {
  }

  lemma StepKeepsOrder(s: State, step: Step)
    requires Enabled(s, step) && Ordered(s)
    ensures Ordered(Next(s, step))
  {
    if step.Emit? && Numbered(s, step.definition, step.outcome, step.code, step.captured).Some? {
      NumberedIsGenuine(s, step.definition, step.outcome, step.code, step.captured);
      AppendOrdered(s, Numbered(s, step.definition, step.outcome, step.code, step.captured).value, Next(s, step));
    } else {
      QuietStep(s, step);
      QuietOrdered(s, Next(s, step));
    }
  }

  lemma StepKeepsSingle(s: State, step: Step)
    requires Enabled(s, step) && Single(s)
    ensures Single(Next(s, step))
  {
  }

  lemma MoveOne(all: multiset<Event>, sent: seq<Event>, rest: multiset<Event>, flight: multiset<Event>, event: Event)
    requires all == multiset(sent) + rest + flight && event in flight
    ensures all == multiset(sent + [event]) + rest + (flight - multiset{event})
  {
  }

  lemma StepAccounts(s: State, step: Step)
    requires Enabled(s, step) && Accounted(s)
    ensures Accounted(Next(s, step))
  {
    if step.Send? {
      SendAccounts(s, step);
    }
  }

  lemma SendAccounts(s: State, step: Step)
    requires step.Send? && Enabled(s, step) && Accounted(s)
    ensures Accounted(Next(s, step))
  {
    MoveOne(multiset(s.issued), s.sent, multiset(s.lost), s.flight, step.event);
    MoveOne(multiset(s.issued), s.lost, multiset(s.sent), s.flight, step.event);
  }

  lemma StepCounts(s: State, step: Step)
    requires Enabled(s, step) && Counted(s)
    ensures Counted(Next(s, step))
  {
  }

  lemma StepQueues(s: State, step: Step)
    requires Enabled(s, step) && Fifo(s)
    ensures Fifo(Next(s, step))
  {
    if step.Take? {
      assert s.queue == [s.queue[0]] + s.queue[1..];
      assert s.taken + s.queue == (s.taken + [s.queue[0]]) + s.queue[1..];
    } else if step.Send? {
      assert s.taken + (s.queue + [step.event]) == s.sent + [step.event];
    }
  }

  lemma {:induction false} RunKeeps(requested: int, steps: seq<Step>, states: seq<State>, i: nat)
    requires IsRun(requested, steps, states) && i < |states|
    ensures Ordered(states[i]) && Single(states[i]) && Gapless(states[i]) && Flagged(states[i]) &&
            Accounted(states[i]) && Counted(states[i]) && Fifo(states[i])
  {
    if i == 0 {
    } else {
      RunKeeps(requested, steps, states, i - 1);
      StepKeepsOrder(states[i - 1], steps[i - 1]);
      StepKeepsSingle(states[i - 1], steps[i - 1]);
      StepKeepsGapless(states[i - 1], steps[i - 1]);
      StepKeepsFlag(states[i - 1], steps[i - 1]);
      StepAccounts(states[i - 1], steps[i - 1]);
      StepCounts(states[i - 1], steps[i - 1]);
      StepQueues(states[i - 1], steps[i - 1]);
    }
  }

  lemma RunOrders(requested: int, steps: seq<Step>, states: seq<State>, i: nat)
    requires IsRun(requested, steps, states) && i < |states|
    ensures Ordered(states[i])
  {
    RunKeeps(requested, steps, states, i);
  }

  // ------------------------------------------------------------------- claims

  /** Over every run, event numbers strictly increase and DnsProbeReceive is numbered once per generation. */
  lemma NumbersIncrease(requested: int, steps: seq<Step>, states: seq<State>, i: nat, j: nat)
    requires IsRun(requested, steps, states)
    requires i < j < |states[|steps|].issued|
    ensures var issued := states[|steps|].issued;
            && Before(issued[i], issued[j])
            && (issued[i].definition.DnsProbeReceive? && issued[j].definition.DnsProbeReceive? ==>
                  issued[i].owner.generation < issued[j].owner.generation)
  {
    RunKeeps(requested, steps, states, |steps|);
  }

  /** Every generation is numbered without gaps from 1, and the published sequence is how many events it has. */
  lemma NumbersAreGapless(requested: int, steps: seq<Step>, states: seq<State>, i: nat)
    requires IsRun(requested, steps, states) && i < |states[|steps|].issued|
    ensures var s := states[|steps|];
            && s.issued[i].sequence == CountIn(s.issued[..i], s.issued[i].owner.generation) + 1
            && s.sequence == CountIn(s.issued, s.owner.generation)
  {
    RunKeeps(requested, steps, states, |steps|);
  }

  /** A first-datagram event is turned away as a repetition exactly when its generation has one already. */
  lemma RepeatedExactly(requested: int, steps: seq<Step>, states: seq<State>)
    requires IsRun(requested, steps, states)
    ensures states[|steps|].received <==> HasReceived(states[|steps|].issued, states[|steps|].owner.generation)
  {
    RunKeeps(requested, steps, states, |steps|);
  }

  /** The published counters account for every event at every moment. */
  lemma CountersBalance(requested: int, steps: seq<Step>, states: seq<State>)
    requires IsRun(requested, steps, states)
    ensures var s := states[|steps|];
            && |s.issued| == s.enqueued + s.dropped + (|s.flight| + s.uncounted + s.unlost)
            && |s.sent| == s.delivered + s.panics + s.discarded + |s.queue| + |Busy(s)|
            && s.taken <= s.sent
            && |s.queue| <= s.capacity <= MAXIMUM_PENDING
  {
    RunKeeps(requested, steps, states, |steps|);
    var s := states[|steps|];
    assert |multiset(s.issued)| == |multiset(s.sent)| + |multiset(s.lost)| + |s.flight|;
  }

  /** A captured emitter adds an event only while the owner it was bound to is the current one. */
  lemma CapturedOwnsItsEvents(requested: int, steps: seq<Step>, states: seq<State>, i: nat)
    requires IsRun(requested, steps, states) && i < |steps|
    requires steps[i].Emit? && steps[i].captured.Some? && states[i + 1].issued != states[i].issued
    ensures states[i].owner == steps[i].captured.value && states[i].sink
    ensures states[i].owner in states[i].captures
    ensures forall k :: 0 <= k < |states[i].issued| ==>
              Before(states[i].issued[k], states[i + 1].issued[|states[i].issued|])
  {
    RunOrders(requested, steps, states, i + 1);
    var event := Numbered(states[i], steps[i].definition, steps[i].outcome, steps[i].code, steps[i].captured);
    assert states[i + 1].issued == states[i].issued + [event.value];
    assert forall k :: 0 <= k < |states[i].issued| ==> states[i].issued[k] == states[i + 1].issued[k];
  }
}
