/** How one record evolves: it never weakens, is removed only as acknowledged, and keeps its active leases. */
module JournalEvolution {
  import opened Wrappers
  import opened Leases
  import opened RestrictionJournal
  import opened JournalEdits
  import opened JournalInvariant

  // ------------------------------------------------------------ monotonicity

  lemma BeginNeverWeakens(s: State, q: string, catalog: string, expires: int, drawn: Option<string>, w: Write,
                          p: string)
    requires p in s.records
    ensures var t := BeginLoaded(s, q, catalog, expires, drawn, w).0;
            p in t.records && AtLeast(t.records[p], s.records[p])
  {
  }

  lemma EditedNeverWeakens(s: State, e: Edit, p: string)
    requires p in s.records && Amends(s, e)
    ensures p in Edited(s, e).records && AtLeast(Edited(s, e).records[p], s.records[p])
  {
  }

  lemma FinishNeverWeakens(s: State, q: string, generation: string, w: Write, p: string)
    requires p in s.records
    ensures var t := Finish(s, q, generation, w);
            p in t.records && AtLeast(t.records[p], s.records[p])
  {
  }

  lemma AckNeverWeakens(s: State, op: Op, p: string)
    requires op.DoAck? && s.loaded && p in s.records && p in Step(s, op).records
    ensures Step(s, op).records[p] == s.records[p]
  {
    AcknowledgeIs(s, op);
    SnapshotIs(s, op.readable, op.w, op.fits);
  }

  lemma StepNeverWeakens(s: State, op: Op, p: string)
    requires s.loaded && !op.DoCrash? && Enabled(s, op)
    requires p in s.records && p in Step(s, op).records
    ensures AtLeast(Step(s, op).records[p], s.records[p])
  {
    if IsWorkerOp(op) {
      var e := WorkerEdit(s, op);
      EditedNeverWeakens(s, e, p);
    } else {
      match op
      case DoBegin(q, catalog, expires, drawn, readable, w) => BeginNeverWeakens(s, q, catalog, expires, drawn, w, p);
      case DoFinish(q, generation, w) => FinishNeverWeakens(s, q, generation, w, p);
      case DoRead(readable, w, fits) => SnapshotIs(s, readable, w, fits);
      case DoAck(_, _, _, _, _) => AckNeverWeakens(s, op, p);
    }
  }

  /** The process survives the run and the record exists throughout. */
  ghost predicate Persists(s: State, ops: seq<Op>, p: string)
    decreases |ops|
  {
    s.loaded && p in s.records &&
    (|ops| > 0 ==> !ops[0].DoCrash? && Persists(Step(s, ops[0]), ops[1..], p))
  }

  /** Within a process, a record's action, scopes, withdrawal and expiry never weaken while it exists. */
  lemma {:induction false} RunNeverWeakens(s: State, ops: seq<Op>, p: string)
    requires Feasible(s, ops) && Persists(s, ops, p)
    ensures p in Run(s, ops).records && AtLeast(Run(s, ops).records[p], s.records[p])
    decreases |ops|
  {
    if |ops| == 0 {
    } else {
      StepNeverWeakens(s, ops[0], p);
      RunNeverWeakens(Step(s, ops[0]), ops[1..], p);
    }
  }

  // --------------------------------------------------------- acknowledgement

  /**
   An acknowledgement removes records exactly when the storage works and the named
   snapshot is the current one, in every exported field and in liveness; then the
   records without a live worker, and only those, leave memory and file. In every
   other case memory keeps all records, the live table and the unsettled marks.
   */
  lemma AcknowledgementIsExact(s: State, named: map<string, Entry>, readable: bool, w: Write, fits: bool, w': Write)
    requires Inv(s)
    ensures var (t, ok) := Load(s, readable);
            var (u, result) := Acknowledge(s, Some(named), readable, w, fits, w');
            && (result == Ok(true) <==>
                  ok && Commit(t, w).1 && fits && Commit(t, w').1 &&
                  named.Keys == t.records.Keys &&
                  forall p :: p in t.records ==> named[p] == Entry(t.records[p], p in t.live))
            && (result == Ok(true) ==>
                  && u.records == (map p | p in t.records && p in t.live :: t.records[p])
                  && u.disk == Stored(u.records, w'.length)
                  && u.unsettled == t.unsettled - (t.records.Keys - t.live.Keys))
            && (result != Ok(true) ==> u.records == t.records && u.unsettled == t.unsettled)
            && u.live == s.live
  {
    LoadLive(s, readable);
    AcknowledgeLoads(s, named, readable, w, fits, w');
    var (t, ok) := Load(s, readable);
    if ok {
      LoadedAcknowledgement(t, named, w, fits, w');
    }
  }

  /** An acknowledgement first loads, and goes on from there if it can. */
  lemma AcknowledgeLoads(s: State, named: map<string, Entry>, readable: bool, w: Write, fits: bool, w': Write)
    ensures var (t, ok) := Load(s, readable);
            Acknowledge(s, Some(named), readable, w, fits, w') ==
            if ok then Acknowledge(t, Some(named), true, w, fits, w') else (t, Err(StorageInvalid))
    ensures Load(s, readable).0.live == s.live && Load(s, readable).0.unsettled == s.unsettled
  {
  }

  lemma LoadedAcknowledgement(t: State, named: map<string, Entry>, w: Write, fits: bool, w': Write)
    requires t.loaded && LivenessKnown(t)
    ensures var (u, result) := Acknowledge(t, Some(named), true, w, fits, w');
            && (result == Ok(true) <==>
                  Commit(t, w).1 && fits && Commit(t, w').1 &&
                  named.Keys == t.records.Keys &&
                  forall p :: p in t.records ==> named[p] == Entry(t.records[p], p in t.live))
            && (result == Ok(true) ==>
                  && u.records == (map p | p in t.records && p in t.live :: t.records[p])
                  && u.disk == Stored(u.records, w'.length)
                  && u.unsettled == t.unsettled - (t.records.Keys - t.live.Keys))
            && (result != Ok(true) ==> u.records == t.records && u.unsettled == t.unsettled)
            && u.live == t.live
  {
    ExportsAre(t, Commit(t, w).0, named);
    assert Settled(Commit(t, w).0) == t.records.Keys - t.live.Keys;
  }

  lemma ExportsAre(t: State, u: State, named: map<string, Entry>)
    requires u.records == t.records && u.live == t.live && LivenessKnown(t)
    ensures Exported(u) == named <==>
              && named.Keys == t.records.Keys
              && forall p :: p in t.records ==> named[p] == Entry(t.records[p], p in t.live)
  {
    var e := Exported(u);
    assert e.Keys == t.records.Keys;
    assert forall p :: p in t.records ==> e[p] == Entry(t.records[p], p in t.live);
    if named.Keys == t.records.Keys && forall p :: p in t.records ==> named[p] == Entry(t.records[p], p in t.live) {
      assert forall p :: p in e ==> e[p] == named[p];
    }
  }

  // --------------------------------------------------------------- retention

  /**
   Retention either changes nothing, or commits a record that holds both
   generations of the renewed lease and every lease that is still active or
   current, binds no retained identifier to another lease, and expires after all
   of them.
   */
  lemma RetentionIsAtomic(s: State, p: string, generation: string, previous: Lease, next: Lease,
                          current: set<string>, now: int, listing: seq<Lease>, w: Write)
    requires Inv(s) && ValidLease(previous) && ValidLease(next)
    requires IsRetained(s, p, generation, previous, next, current, now, listing)
    ensures var (t, result) := Retain(s, p, generation, previous, next, current, now, listing, w);
            && (result.Err? ==> t == s)
            && (result.Ok? ==>
                  && p in s.records && t.records == s.records[p := t.records[p]]
                  && t.disk == Stored(t.records, w.length)
                  && previous in t.records[p].leases && next in t.records[p].leases
                  && (forall l :: l in s.records[p].leases && (now < l.activeFlowsUntil || l.leaseId in current) ==>
                        l in t.records[p].leases)
                  && (forall l, l' :: l in s.records[p].leases && l' in t.records[p].leases ==>
                        l.leaseId == l'.leaseId ==> l == l')
                  && (forall l :: l in t.records[p].leases ==> LeaseWithin(l, t.records[p].expires))
                  && |t.records[p].leases| <= MAX_LEASES
                  && NotEarlier(t.records[p].expires, s.records[p].expires))
  {
    if RetainFits(s, p, generation, previous, next, current, now) {
      var r := s.records[p];
      RetainedLeases(r, previous, next, current, now, listing);
      RetainedWithin(r, previous, next, current, now, listing);
      RetainCommits(s, p, generation, previous, next, current, now, listing, w);
    }
  }

  lemma RetainCommits(s: State, p: string, generation: string, previous: Lease, next: Lease,
                      current: set<string>, now: int, listing: seq<Lease>, w: Write)
    requires RetainFits(s, p, generation, previous, next, current, now)
    ensures var (t, result) := Retain(s, p, generation, previous, next, current, now, listing, w);
            var r := s.records[p].(leases := listing,
                                   expires := Some(LastActive(listing, Later(s.records[p].expires))));
            if Commit(s, w).1 then
              result.Ok? && t == s.(records := s.records[p := r], disk := Stored(s.records[p := r], w.length))
            else result.Err? && t == s
  {
  }

  lemma RetainedWithin(r: Record, previous: Lease, next: Lease, current: set<string>, now: int, listing: seq<Lease>)
    requires ValidRecord(r) && ValidLease(previous) && ValidLease(next)
    requires var kept := Kept(r.leases, previous, next, current, now)
                           [previous.leaseId := previous][next.leaseId := next];
             IsListing(listing, kept) && |kept| <= MAX_LEASES
    ensures forall l :: l in listing ==> LeaseWithin(l, Some(LastActive(listing, Later(r.expires))))
  {
    RetainedRecordValid(r, previous, next, current, now, listing);
    forall l | l in listing ensures LeaseWithin(l, Some(LastActive(listing, Later(r.expires)))) {
      var i :| 0 <= i < |listing| && listing[i] == l;
    }
  }

  lemma RetainedLeases(r: Record, previous: Lease, next: Lease, current: set<string>, now: int, listing: seq<Lease>)
    requires UniqueLeases(r.leases) && previous.leaseId != next.leaseId
    requires var kept := Kept(r.leases, previous, next, current, now);
             && !Rebinds(kept, previous) && !Rebinds(kept, next)
             && IsListing(listing, kept[previous.leaseId := previous][next.leaseId := next])
    ensures previous in listing && next in listing
    ensures forall l :: l in r.leases && Keeps(l, previous, next, current, now) ==> l in listing
    ensures forall l, l' :: l in r.leases && l' in listing && l.leaseId == l'.leaseId ==> l == l'
  {
    KeptIs(r.leases, previous, next, current, now);
    var kept := Kept(r.leases, previous, next, current, now);
    var all := kept[previous.leaseId := previous][next.leaseId := next];
    assert all[previous.leaseId] == previous && all[next.leaseId] == next;
    forall l | l in r.leases && Keeps(l, previous, next, current, now) ensures l in listing {
      assert kept[l.leaseId] == l && l.leaseId in all;
      assert all[l.leaseId] == l;
    }
    forall l, l' | l in r.leases && l' in listing && l.leaseId == l'.leaseId ensures l == l' {
      assert l'.leaseId in all && all[l'.leaseId] == l';
    }
  }
}
