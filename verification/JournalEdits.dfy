/**
 What the operations of a live worker come to: nothing, marking a profile unsettled, or
 putting an amended record in the place of the old one and writing.
 */
module JournalEdits {
  import opened Wrappers
  import opened RestrictionJournal

  predicate NotEarlier(later: Option<int>, earlier: Option<int>) {
    earlier.Some? ==> later.Some? && later.value >= earlier.value
  }

  /** `r` restricts at least as much as `q`, for at least as long. */
  predicate AtLeast(r: Record, q: Record) {
    && Rank(r.action) >= Rank(q.action)
    && (q.withdrawn ==> r.withdrawn)
    && NotEarlier(r.expires, q.expires)
    && (forall scope :: scope in q.scopes ==> scope in r.scopes && Rank(r.scopes[scope]) >= Rank(q.scopes[scope]))
  }

  datatype Edit = Unchanged | Unsettle(p: string) | Put(p: string, record: Record, w: Write)

  function Edited(s: State, e: Edit): State {
    match e
    case Unchanged => s
    case Unsettle(p) => s.(unsettled := s.unsettled + {p})
    case Put(p, record, w) => Commit(s.(records := s.records[p := record]), w).0
  }

  /** An amended record belongs to the same worker and restricts at least as much. */
  predicate Amends(s: State, e: Edit) {
    match e
    case Unchanged => true
    case Unsettle(p) => p in s.records && p in s.live
    case Put(p, record, _) =>
      && p in s.records
      && record.generation == s.records[p].generation && record.pending == s.records[p].pending
      && AtLeast(record, s.records[p])
  }

  predicate IsWorkerOp(op: Op) {
    op.DoExtend? || op.DoRetain? || op.DoRestrict? || op.DoRestrictScope?
  }

  lemma ExtendEdit(s: State, op: Op) returns (e: Edit)
    requires op.DoExtend?
    ensures Step(s, op) == Edited(s, e) && Amends(s, e)
  {
    var p := op.p;
    if LiveOf(s, p) == op.generation && Owns(s.records, p, op.generation) && op.expires > Later(s.records[p].expires)
       && Commit(s, op.w).1 {
      e := Put(p, s.records[p].(expires := Some(op.expires)), op.w);
    } else {
      e := Unchanged;
    }
  }

  lemma RetainEdit(s: State, op: Op) returns (e: Edit)
    requires op.DoRetain?
    ensures Step(s, op) == Edited(s, e) && Amends(s, e)
  {
    var p := op.p;
    if RetainFits(s, p, op.generation, op.previous, op.next, op.current, op.now) && Commit(s, op.w).1 {
      var r := s.records[p];
      e := Put(p, r.(leases := op.listing, expires := Some(LastActive(op.listing, Later(r.expires)))), op.w);
    } else {
      e := Unchanged;
    }
  }

  lemma RestrictEdit(s: State, op: Op) returns (e: Edit)
    requires op.DoRestrict?
    ensures Step(s, op) == Edited(s, e) && Amends(s, e)
  {
    e := if Owns(s.records, op.p, op.generation) then Put(op.p, Tightened(s.records[op.p], op.reason), op.w)
         else Unchanged;
  }

  lemma ScopeAtLeast(r: Record, scope: string, action: Action)
    requires action != NoAction
    ensures AtLeast(ScopeTightened(r, scope, action), r)
  {
  }

  lemma ScopeEdit(s: State, op: Op) returns (e: Edit)
    requires op.DoRestrictScope? && Enabled(s, op)
    ensures Step(s, op) == Edited(s, e) && Amends(s, e)
  {
    var p := op.p;
    if !Owns(s.records, p, op.generation) {
      e := Unchanged;
    } else if op.scope !in s.records[p].scopes && |s.records[p].scopes| >= MAX_SCOPES {
      e := Unsettle(p);
    } else {
      ScopeAtLeast(s.records[p], op.scope, op.action);
      e := Put(p, ScopeTightened(s.records[p], op.scope, op.action), op.w);
    }
  }

  lemma WorkerEdit(s: State, op: Op) returns (e: Edit)
    requires IsWorkerOp(op) && Enabled(s, op)
    ensures Step(s, op) == Edited(s, e) && Amends(s, e)
  {
    match op
    case DoExtend(_, _, _, _) => e := ExtendEdit(s, op);
    case DoRetain(_, _, _, _, _, _, _, _) => e := RetainEdit(s, op);
    case DoRestrict(_, _, _, _) => e := RestrictEdit(s, op);
    case DoRestrictScope(_, _, _, _, _) => e := ScopeEdit(s, op);
  }

  // --------------------------------------------------------- acknowledgement

  /** The records without a live worker are gone, and so are their marks. */
  function Removed(t: State, w: Write): State {
    Commit(t.(records := LiveRecords(t)), w).0.(unsettled := t.unsettled - Settled(t))
  }

  /** The acknowledgement names the current snapshot, and both writes succeed. */
  predicate Names(s: State, op: Op)
    requires op.DoAck?
  {
    var (t, current) := Snapshot(s, op.readable, op.w, op.fits);
    op.named.Some? && current == Ok(op.named.value) && Commit(t, op.w').1
  }

  lemma AcknowledgeIs(s: State, op: Op)
    requires op.DoAck?
    ensures var t := Snapshot(s, op.readable, op.w, op.fits).0;
            Step(s, op) == if Names(s, op) then Removed(t, op.w') else if op.named.None? then s else t
    ensures Acknowledge(s, op.named, op.readable, op.w, op.fits, op.w').1 == Ok(true) <==> Names(s, op)
  {
  }

  lemma SnapshotIs(s: State, readable: bool, w: Write, fits: bool)
    ensures var (t, current) := Snapshot(s, readable, w, fits);
            var (loaded, ok) := Load(s, readable);
            && t == (if ok then Commit(loaded, w).0 else s)
            && (current.Ok? ==> ok && current.value == Exported(t))
  {
  }
}
