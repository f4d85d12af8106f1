/** What every step of the restriction journal keeps. */
module JournalInvariant {
  import opened Wrappers
  import opened Leases
  import opened RestrictionJournal
  import opened JournalEdits

  // ----------------------------------------------------- documents stay valid

  predicate DiskSound(f: File) {
    f.Missing? || (f.Stored? && f.length <= DOCUMENT_LIMIT && ValidDocument(f.document))
  }

  /** Memory and file hold documents the loader accepts. */
  predicate Sound(s: State) {
    s.loaded ==> ValidDocument(s.records) && DiskSound(s.disk)
  }

  lemma PutSize<V>(m: map<string, V>, k: string, v: V)
    ensures |m[k := v]| == if k in m then |m| else |m| + 1
  {
    if k in m {
      assert m[k := v].Keys == m.Keys;
    } else {
      assert m[k := v].Keys == m.Keys + {k};
    }
  }

  lemma PutValid(d: Document, p: string, r: Record)
    requires ValidDocument(d) && ValidRecord(r) && r.profile == p
    requires p in d || |d| < MAX_RECORDS
    ensures ValidDocument(d[p := r])
  {
    PutSize(d, p, r);
  }

  /** The table holds exactly the list's kept leases, each under its identifier. */
  ghost predicate KeptFrom(m: map<string, Lease>, ls: seq<Lease>, keeps: Lease -> bool) {
    && (forall id :: id in m ==> m[id] in ls && m[id].leaseId == id && keeps(m[id]))
    && (forall l :: l in ls && keeps(l) ==> l.leaseId in m && m[l.leaseId] == l)
  }

  lemma KeptSnoc(m: map<string, Lease>, front: seq<Lease>, last: Lease, keeps: Lease -> bool)
    requires KeptFrom(m, front, keeps) && forall l :: l in front ==> l.leaseId != last.leaseId
    ensures KeptFrom(if keeps(last) then m[last.leaseId := last] else m, front + [last], keeps)
  {
    var ls := front + [last];
    assert forall l :: l in ls <==> l in front || l == last;
  }

  lemma {:induction false} KeptIs(ls: seq<Lease>, previous: Lease, next: Lease, current: set<string>, now: int)
    requires UniqueLeases(ls)
    ensures KeptFrom(Kept(ls, previous, next, current, now), ls, l => Keeps(l, previous, next, current, now))
  {
    var keeps := l => Keeps(l, previous, next, current, now);
    if |ls| == 0 {
    } else {
      var front, last := ls[..|ls| - 1], ls[|ls| - 1];
      KeptIs(front, previous, next, current, now);
      forall l | l in front ensures l.leaseId != last.leaseId {
        var j :| 0 <= j < |front| && front[j] == l;
        assert ls[j] == l && ls[|ls| - 1] == last;
      }
      KeptSnoc(Kept(front, previous, next, current, now), front, last, keeps);
      assert ls == front + [last];
    }
  }

  lemma {:induction false} RetainedRecordValid(r: Record, previous: Lease, next: Lease, current: set<string>,
                                               now: int, listing: seq<Lease>)
    requires ValidRecord(r) && ValidLease(previous) && ValidLease(next)
    requires var kept := Kept(r.leases, previous, next, current, now)
                           [previous.leaseId := previous][next.leaseId := next];
             IsListing(listing, kept) && |kept| <= MAX_LEASES
    ensures ValidRecord(r.(leases := listing, expires := Some(LastActive(listing, Later(r.expires)))))
  {
    KeptIs(r.leases, previous, next, current, now);
    ListingIsValid(r, previous, next, Kept(r.leases, previous, next, current, now), listing);
  }

  lemma ListingIsValid(r: Record, previous: Lease, next: Lease, m: map<string, Lease>, listing: seq<Lease>)
    requires forall i :: 0 <= i < |r.leases| ==> ValidLease(r.leases[i])
    requires ValidLease(previous) && ValidLease(next) && forall id :: id in m ==> m[id] in r.leases
    requires IsListing(listing, m[previous.leaseId := previous][next.leaseId := next])
    ensures forall i :: 0 <= i < |listing| ==> ValidLease(listing[i])
  {
    var all := m[previous.leaseId := previous][next.leaseId := next];
    forall i | 0 <= i < |listing| ensures ValidLease(listing[i]) {
      var l := listing[i];
      assert l.leaseId in all && all[l.leaseId] == l;
      if l != previous && l != next {
        assert l.leaseId in m && m[l.leaseId] == l && l in r.leases;
      }
    }
  }

  lemma ScopeTightenedValid(r: Record, scope: string, action: Action)
    requires ValidRecord(r) && IsDigest(scope) && action != NoAction
    requires scope in r.scopes || |r.scopes| < MAX_SCOPES
    ensures ValidRecord(ScopeTightened(r, scope, action))
  {
    PutSize(r.scopes, scope, action);
  }

  lemma SubdocumentValid(d: Document, e: Document)
    requires ValidDocument(d) && e.Keys <= d.Keys && forall p :: p in e ==> e[p] == d[p]
    ensures ValidDocument(e)
  {
    var rest := d.Keys - e.Keys;
    assert d.Keys == e.Keys + rest;
    assert |e| == |e.Keys| && |d| == |d.Keys|;
  }

  lemma EditSound(s: State, p: string, r: Record, w: Write)
    requires Sound(s) && s.loaded && p in s.records && ValidRecord(r) && r.profile == p
    ensures Sound(Commit(s.(records := s.records[p := r]), w).0)
  {
    PutValid(s.records, p, r);
  }

  lemma ExtendSound(s: State, p: string, generation: string, expires: int, w: Write)
    requires Sound(s) && s.loaded
    ensures Sound(Extend(s, p, generation, expires, w).0)
  {
    if p in s.records && expires > Later(s.records[p].expires) {
      EditSound(s, p, s.records[p].(expires := Some(expires)), w);
    }
  }

  lemma RestrictSound(s: State, p: string, generation: string, reason: string, w: Write)
    requires Sound(s) && s.loaded
    ensures Sound(Restrict(s, p, generation, reason, w))
  {
    if p in s.records {
      EditSound(s, p, Tightened(s.records[p], reason), w);
    }
  }

  lemma FinishSound(s: State, p: string, generation: string, w: Write)
    requires Sound(s) && s.loaded
    ensures Sound(Finish(s, p, generation, w))
  {
    if p in s.records {
      EditSound(s.(live := s.live - {p}), p, s.records[p].(pending := p in s.unsettled), w);
    }
  }

  lemma BeginSound(s: State, p: string, catalog: string, expires: int, drawn: Option<string>, w: Write)
    requires Sound(s) && s.loaded && IsDigest(p)
    requires (catalog == "" || IsDigest(catalog)) && (drawn.Some? ==> IsLeaseId(drawn.value))
    ensures Sound(BeginLoaded(s, p, catalog, expires, drawn, w).0)
  {
    if drawn.Some? && (p in s.records || |s.records| < MAX_RECORDS) {
      ArmedValid(Lookup(s.records, p), p, catalog, drawn.value, expires);
      PutValid(s.records, p, Armed(Lookup(s.records, p), p, catalog, drawn.value, expires));
    }
  }

  lemma ArmedValid(existing: Option<Record>, p: string, catalog: string, generation: string, expires: int)
    requires IsDigest(p) && (catalog == "" || IsDigest(catalog)) && IsLeaseId(generation)
    requires existing.Some? ==> ValidRecord(existing.value) && existing.value.profile == p
    ensures var armed := Armed(existing, p, catalog, generation, expires);
            ValidRecord(armed) && armed.profile == p
  {
  }

  lemma RetainSound(s: State, p: string, generation: string, previous: Lease, next: Lease,
                    current: set<string>, now: int, listing: seq<Lease>, w: Write)
    requires Sound(s) && s.loaded && ValidLease(previous) && ValidLease(next)
    requires IsRetained(s, p, generation, previous, next, current, now, listing)
    ensures Sound(Retain(s, p, generation, previous, next, current, now, listing, w).0)
  {
    if RetainFits(s, p, generation, previous, next, current, now) {
      var r := s.records[p];
      RetainedRecordValid(r, previous, next, current, now, listing);
      EditSound(s, p, r.(leases := listing, expires := Some(LastActive(listing, Later(r.expires)))), w);
    }
  }

  lemma RestrictScopeSound(s: State, p: string, generation: string, scope: string, action: Action, w: Write)
    requires Sound(s) && s.loaded && IsDigest(scope) && action != NoAction
    ensures Sound(RestrictScope(s, p, generation, scope, action, w))
  {
    if p in s.records && (scope in s.records[p].scopes || |s.records[p].scopes| < MAX_SCOPES) {
      ScopeTightenedValid(s.records[p], scope, action);
      EditSound(s, p, ScopeTightened(s.records[p], scope, action), w);
    }
  }

  lemma SnapshotSound(s: State, readable: bool, w: Write, fits: bool)
    requires Sound(s)
    ensures Sound(Snapshot(s, readable, w, fits).0)
  {
  }

  lemma AcknowledgeSound(s: State, named: Option<map<string, Entry>>, readable: bool, w: Write, fits: bool, w': Write)
    requires Sound(s)
    ensures Sound(Acknowledge(s, named, readable, w, fits, w').0)
  {
    SnapshotSound(s, readable, w, fits);
    AcknowledgeIs(s, DoAck(named, readable, w, fits, w'));
    var t := Snapshot(s, readable, w, fits).0;
    if t.loaded {
      RemovedSound(t, w');
    }
  }

  lemma RemovedSound(t: State, w: Write)
    requires Sound(t) && t.loaded
    ensures Sound(Removed(t, w))
  {
    SubdocumentValid(t.records, LiveRecords(t));
  }

  lemma StepSound(s: State, op: Op)
    requires Sound(s) && Enabled(s, op) && (!s.loaded ==> s.records == map[])
    ensures Sound(Step(s, op))
  {
    if s.loaded || op.DoBegin? || op.DoRead? || op.DoAck? {
      match op
      case DoBegin(p, catalog, expires, drawn, readable, w) =>
        if Load(s, readable).1 {
          BeginSound(Load(s, readable).0, p, catalog, expires, drawn, w);
        }
      case DoExtend(p, generation, expires, w) => ExtendSound(s, p, generation, expires, w);
      case DoRetain(p, generation, previous, next, current, now, listing, w) =>
        RetainSound(s, p, generation, previous, next, current, now, listing, w);
      case DoRestrict(p, generation, reason, w) => RestrictSound(s, p, generation, reason, w);
      case DoRestrictScope(p, generation, scope, action, w) => RestrictScopeSound(s, p, generation, scope, action, w);
      case DoFinish(p, generation, w) => FinishSound(s, p, generation, w);
      case DoRead(readable, w, fits) => SnapshotSound(s, readable, w, fits);
      case DoAck(named, readable, w, fits, w') => AcknowledgeSound(s, named, readable, w, fits, w');
      case DoCrash =>
    }
  }

  // --------------------------------------------- workers stay marked pending

  /** The document marks the worker's generation as pending. */
  predicate Marked(d: Document, p: string, generation: string) {
    p in d && d[p].generation == generation && d[p].pending
  }

  predicate LiveMarked(s: State) {
    forall p :: p in s.live ==>
      s.live[p] != "" && Marked(s.records, p, s.live[p]) && s.disk.Stored? && Marked(s.disk.document, p, s.live[p])
  }

  predicate UnsettledKept(s: State) {
    forall p :: p in s.unsettled ==> p in s.records && (p in s.live || s.records[p].pending)
  }

  predicate Guarded(s: State) {
    && (!s.loaded ==> s.records == map[] && s.live == map[] && s.unsettled == {})
    && LiveMarked(s) && UnsettledKept(s)
  }

  /** Committing a changed record that stays pending for the same generation. */
  lemma EditGuarded(s: State, p: string, r: Record, w: Write)
    requires Guarded(s) && p in s.records
    requires r.generation == s.records[p].generation && r.pending == s.records[p].pending
    ensures Guarded(Commit(s.(records := s.records[p := r]), w).0)
  {
  }

  lemma BeginGuarded(s: State, p: string, catalog: string, expires: int, drawn: Option<string>, w: Write)
    requires Guarded(s) && s.loaded && (drawn.Some? ==> drawn.value != "")
    ensures Guarded(BeginLoaded(s, p, catalog, expires, drawn, w).0)
  {
  }

  lemma FinishGuarded(s: State, p: string, generation: string, w: Write)
    requires Guarded(s)
    ensures Guarded(Finish(s, p, generation, w))
  {
  }

  predicate Inv(s: State) {
    Sound(s) && Guarded(s)
  }

  predicate LivenessKnown(s: State) {
    forall p :: p in s.records ==> (IsLive(s, p) <==> p in s.live)
  }

  /** Generations are never empty, so a record is live exactly when its profile has a live worker. */
  lemma LiveIsKnown(s: State)
    requires Inv(s)
    ensures LivenessKnown(s)
  {
    forall p | p in s.records ensures IsLive(s, p) <==> p in s.live {
      if p in s.live {
        assert Marked(s.records, p, s.live[p]);
      }
    }
  }

  lemma LoadLive(s: State, readable: bool)
    requires Inv(s)
    ensures LivenessKnown(Load(s, readable).0)
  {
    var t := Load(s, readable).0;
    assert Sound(t);
    LiveIsKnown(t);
  }

  lemma SnapshotLive(s: State, readable: bool, w: Write, fits: bool)
    requires Inv(s)
    ensures LivenessKnown(Snapshot(s, readable, w, fits).0)
  {
    SnapshotIs(s, readable, w, fits);
    LoadLive(s, readable);
  }

  lemma RemovalGuarded(t: State, w: Write)
    requires Guarded(t) && LivenessKnown(t) && Commit(t, w).1
    ensures Guarded(Removed(t, w))
  {
  }

  lemma SnapshotGuarded(s: State, readable: bool, w: Write, fits: bool)
    requires Guarded(s)
    ensures Guarded(Snapshot(s, readable, w, fits).0)
  {
    SnapshotIs(s, readable, w, fits);
  }

  lemma AcknowledgeGuarded(s: State, op: Op)
    requires op.DoAck? && Guarded(s) && LivenessKnown(Snapshot(s, op.readable, op.w, op.fits).0)
    ensures Guarded(Step(s, op))
  {
    AcknowledgeIs(s, op);
    SnapshotGuarded(s, op.readable, op.w, op.fits);
    if Names(s, op) {
      RemovalGuarded(Snapshot(s, op.readable, op.w, op.fits).0, op.w');
    }
  }

  lemma EditedGuarded(s: State, e: Edit)
    requires Guarded(s) && Amends(s, e)
    ensures Guarded(Edited(s, e))
  {
    if e.Put? {
      EditGuarded(s, e.p, e.record, e.w);
    }
  }

  lemma StepGuarded(s: State, op: Op)
    requires Guarded(s) && !op.DoAck? && !IsWorkerOp(op) && Enabled(s, op)
    ensures Guarded(Step(s, op))
  {
    match op
    case DoBegin(p, catalog, expires, drawn, readable, w) =>
      if Load(s, readable).1 {
        BeginGuarded(Load(s, readable).0, p, catalog, expires, drawn, w);
      }
    case DoFinish(p, generation, w) => FinishGuarded(s, p, generation, w);
    case DoRead(readable, w, fits) => SnapshotGuarded(s, readable, w, fits);
    case DoCrash =>
  }

  // -------------------------------------------------------------------- runs

  /** A process that has just started on whatever file it finds. */
  predicate Started(s: State) {
    s == Crash(s)
  }

  /** Every operation, with any write outcome, and a crash, keeps the invariant. */
  lemma StepKeeps(s: State, op: Op)
    requires Inv(s) && Enabled(s, op)
    ensures Inv(Step(s, op))
  {
    StepSound(s, op);
    StepKeepsGuarded(s, op);
  }

  lemma StepKeepsGuarded(s: State, op: Op)
    requires Inv(s) && Enabled(s, op)
    ensures Guarded(Step(s, op))
  {
    if op.DoAck? {
      SnapshotLive(s, op.readable, op.w, op.fits);
      AcknowledgeGuarded(s, op);
    } else if IsWorkerOp(op) {
      var e := WorkerEdit(s, op);
      EditedGuarded(s, e);
    } else {
      StepGuarded(s, op);
    }
  }

  lemma {:induction false} RunKeeps(s: State, ops: seq<Op>)
    requires Inv(s) && Feasible(s, ops)
    ensures Inv(Run(s, ops))
    decreases |ops|
  {
    if |ops| == 0 {
    } else {
      StepKeeps(s, ops[0]);
      RunKeeps(Step(s, ops[0]), ops[1..]);
    }
  }

  /**
   Whatever the file held when the process started, and however writes failed and
   processes crashed since: a live worker's generation is marked pending both in
   memory and on disk.
   */
  lemma {:induction false} LiveWorkerIsMarked(s0: State, ops: seq<Op>, p: string)
    requires Started(s0) && Feasible(s0, ops)
    ensures var s := Run(s0, ops);
            p in s.live ==>
              && Marked(s.records, p, s.live[p])
              && s.disk.Stored? && Marked(s.disk.document, p, s.live[p])
  {
    RunKeeps(s0, ops);
  }

  /** Whatever a run wrote last is accepted by the loader and reloads to the same records. */
  lemma {:induction false} WrittenDocumentReloads(s0: State, ops: seq<Op>, w: Write)
    requires Started(s0) && Feasible(s0, ops)
    ensures var s := Run(s0, ops);
            && (s.loaded ==> Load(Crash(s), true).1)
            && (s.loaded && Commit(s, w).1 ==>
                  Load(Crash(Commit(s, w).0), true) ==
                    (State(true, s.records, map[], {}, Stored(s.records, w.length)), true))
  {
    RunKeeps(s0, ops);
    if Run(s0, ops).loaded {
      SoundReloads(Run(s0, ops), w);
    }
  }

  lemma SoundReloads(s: State, w: Write)
    requires Sound(s) && s.loaded
    ensures Load(Crash(s), true).1
    ensures Commit(s, w).1 ==>
              Load(Crash(Commit(s, w).0), true) ==
                (State(true, s.records, map[], {}, Stored(s.records, w.length)), true)
  {
  }
}
