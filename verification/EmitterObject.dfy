/**
 The emitter itself: fields changed in place, each atomic section of its methods and of the delivery thread
 proved to take one step of Emitter.
 */
module EmitterObject {
  import opened Wrappers
  import opened Emitter

  method IsKnownCode(code: string) returns (known: bool)
    ensures known <==> code in KNOWN_CODES
  {
    match code {
      case "CORE-003" => return true;
      case "CORE-005" => return true;
      case "CORE-006" => return true;
      case "CORE-008" => return true;
      case "EGRESS-001" => return true;
      case "DNS-002" => return true;
      case "TRANSPORT-001" => return true;
      case "TRANSPORT-002" => return true;
      case "TRANSPORT-003" => return true;
      case "TRANSPORT-004" => return true;
      case "TRANSPORT-005" => return true;
      case "TRANSPORT-006" => return true;
      case "TRANSPORT-007" => return true;
      case _ => return false;
    }
  }

  method ValidateEvent(definition: Definition, outcome: Outcome, code: string) returns (severity: Option<Severity>)
    ensures severity == SeverityOf(definition, outcome, code)
  {
    if definition == UnknownDefinition {
      return None;
    }
    var exchange := definition == DnsProbeExchange || definition == DnsProbeReply;
    if (definition == DnsProbeReceive && outcome != Started) ||
       (exchange && outcome != Succeeded && outcome != Failed) {
      return None;
    }
    if exchange && outcome == Failed && code != "DNS-002" {
      return None;
    }
    if outcome != Started && outcome != Succeeded && outcome != Failed {
      return None;
    }
    if outcome == Failed {
      var known := IsKnownCode(code);
      return if known then Some(Error) else None;
    }
    if code != "" {
      return None;
    }
    return Some(Info);
  }

  /** What the sections that modify some fields only leave alone. */
  lemma SectionsLeaveTheRest(s: State, wellFormed: bool, owner: Owner, event: Option<Event>, offered: Event)
    ensures var t := Configured(s, wellFormed, owner);
            t == s.(owner := t.owner, sequence := t.sequence, received := t.received)
    ensures var t := Emitted(s, event);
            t == s.(sequence := t.sequence, received := t.received, issued := t.issued, flight := t.flight)
    ensures var t := Offered(s, offered);
            t == s.(queue := t.queue, flight := t.flight, sent := t.sent, lost := t.lost, uncounted := t.uncounted,
                    unlost := t.unlost)
  {
  }

  class EventEmitter {
    var sink: bool
    var runId: string
    var attemptId: string
    var generation: int
    var sequence: nat
    var firstReceived: bool
    var capacity: nat
    var pending: seq<Event>
    var enqueued: nat
    var dropped: nat
    var delivered: nat
    var panics: nat

    /** What threads hold between their sections, and what has happened so far. */
    ghost var captures: set<Owner>
    ghost var issued: seq<Event>
    ghost var flight: multiset<Event>
    ghost var uncounted: nat
    ghost var unlost: nat
    ghost var sent: seq<Event>
    ghost var lost: seq<Event>
    ghost var worker: Worker
    ghost var taken: seq<Event>
    ghost var discarded: nat

    ghost function Now(): State
      reads this
    {
      State(sink, Owner(runId, attemptId, generation), sequence, firstReceived, captures, issued, flight, uncounted,
            unlost, capacity, pending, sent, lost, worker, taken, enqueued, dropped, delivered, panics, discarded)
    }

    constructor (maximumPending: int)
      ensures Now() == Initial(maximumPending)
    {
      sink, runId, attemptId, generation, sequence, firstReceived := false, "", "", 0, 0, false;
      capacity := if maximumPending < 1 || maximumPending > 128 then 128 else maximumPending;
      pending, enqueued, dropped, delivered, panics := [], 0, 0, 0, 0;
      captures, issued, flight, uncounted, unlost := {}, [], multiset{}, 0, 0;
      sent, lost, worker, taken, discarded := [], [], Waiting, [], 0;
    }

    method ChangeSink(present: bool)
      modifies `sink
      ensures Now() == Next(old(Now()), SetSink(present))
    {
      sink := present;
    }

    method Reconfigure(wellFormed: bool, run: string, attempt: string, next: int) returns (ok: bool)
      modifies `runId, `attemptId, `generation, `sequence, `firstReceived
      ensures var t := Configured(old(Now()), wellFormed, Owner(run, attempt, next));
              Owner(runId, attemptId, generation) == t.owner && sequence == t.sequence && firstReceived == t.received
      ensures ok <==> Accepts(old(Now()), wellFormed, Owner(run, attempt, next))
    {
      if !wellFormed || next < 1 || next > 2147483647 {
        return false;
      }
      if next < generation {
        return false;
      }
      if next > generation {
        sequence := 0;
        firstReceived := false;
      }
      runId, attemptId, generation := run, attempt, next;
      return true;
    }

    method CaptureContext() returns (owner: Option<Owner>)
      modifies `captures
      ensures Now() == Next(old(Now()), Capture)
      ensures owner == if sink && generation > 0 then Some(Owner(runId, attemptId, generation)) else None
    {
      if !sink || generation <= 0 {
        return None;
      }
      captures := captures + {Owner(runId, attemptId, generation)};
      return Some(Owner(runId, attemptId, generation));
    }

    /** The part of an emission under the lock. */
    method Number(definition: Definition, outcome: Outcome, code: string, owner: Option<Owner>)
      returns (event: Option<Event>)
      requires Enabled(Now(), Emit(definition, outcome, code, owner))
      modifies `sequence, `firstReceived, `issued, `flight
      ensures event == Numbered(old(Now()), definition, outcome, code, owner)
      ensures var t := Emitted(old(Now()), event);
              sequence == t.sequence && firstReceived == t.received && issued == t.issued && flight == t.flight
    {
      var severity := ValidateEvent(definition, outcome, code);
      if severity.None? {
        return None;
      }
      if !sink || generation < 1 {
        return None;
      }
      if owner.Some? &&
         (runId != owner.value.runId || attemptId != owner.value.attemptId || generation != owner.value.generation) {
        return None;
      }
      if definition == DnsProbeReceive {
        if firstReceived {
          return None;
        }
        firstReceived := true;
      }
      sequence := sequence + 1;
      var current := Owner(runId, attemptId, generation);
      event := Some(Event(current, sequence, definition, outcome, code, severity.value, owner));
      issued, flight := issued + [event.value], flight + multiset{event.value};
    }

    /** The attempt to put an event into the channel. */
    method Offer(event: Event) returns (accepted: bool)
      requires Enabled(Now(), Send(event))
      modifies `pending, `flight, `sent, `uncounted, `lost, `unlost
      ensures var t := Offered(old(Now()), event);
              && pending == t.queue && flight == t.flight && sent == t.sent && lost == t.lost
              && uncounted == t.uncounted && unlost == t.unlost
      ensures accepted <==> |old(pending)| < capacity
    {
      flight := flight - multiset{event};
      if |pending| < capacity {
        pending := pending + [event];
        sent, uncounted := sent + [event], uncounted + 1;
        return true;
      }
      lost, unlost := lost + [event], unlost + 1;
      return false;
    }

    method CountOffer(accepted: bool)
      requires Enabled(Now(), if accepted then CountSent else CountLost)
      modifies `enqueued, `uncounted, `dropped, `unlost
      ensures Now() == Next(old(Now()), if accepted then CountSent else CountLost)
    {
      if accepted {
        enqueued := enqueued + 1;
        uncounted := uncounted - 1;
      } else {
        dropped := dropped + 1;
        unlost := unlost - 1;
      }
    }

    method Receive() returns (event: Event)
      requires Enabled(Now(), Take)
      modifies `pending, `taken, `worker
      ensures Now() == Next(old(Now()), Take) && event == old(pending)[0]
    {
      event := pending[0];
      pending := pending[1..];
      taken, worker := taken + [event], Taken(event);
    }

    /** The delivery thread looks for a sink; without one it goes on to the next event. */
    method LookForSink() returns (present: bool)
      requires Enabled(Now(), ReadSink)
      modifies `worker, `discarded
      ensures Now() == Next(old(Now()), ReadSink) && present == sink
    {
      present := sink;
      if present {
        worker := Calling(worker.event);
      } else {
        worker, discarded := Waiting, discarded + 1;
      }
    }

    /** The sink has returned, or its panic was recovered. */
    method CountCall(panicked: bool)
      requires worker.Returned? && (worker.ok <==> !panicked)
      modifies `worker, `panics, `delivered
      ensures Now() == Next(old(Now()), CountDelivery)
    {
      if panicked {
        panics := panics + 1;
      } else {
        delivered := delivered + 1;
      }
      worker := Waiting;
    }
  }
}
