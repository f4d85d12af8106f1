/**
 Whole-run safety of the restriction journal: no restriction is forgotten before
 the client has acknowledged a snapshot that shows it.
 */
module JournalSafety {
  import opened Wrappers
  import opened Leases
  import opened RestrictionJournal
  import opened JournalEdits
  import opened JournalInvariant

  datatype Restriction = Policy(reason: string) | Scoped(scope: string, action: Action)

  /** The record is at least as strict as the restriction. */
  predicate Carries(r: Record, x: Restriction) {
    match x
    case Policy(reason) =>
      Rank(r.action) >= (if reason == "issuance_disabled" then 1 else 2) &&
      (reason == "catalog_disabled" ==> r.withdrawn)
    case Scoped(scope, action) =>
      scope in r.scopes && Rank(r.scopes[scope]) >= Rank(action)
  }

  predicate Nontrivial(x: Restriction) {
    x.Scoped? ==> x.action != NoAction
  }

  predicate Shows(r: Record, x: Restriction) {
    r.pending || Carries(r, x)
  }

  /** Wherever the state goes next, the profile cannot start as unrestricted. */
  predicate Protected(s: State, p: string, x: Restriction) {
    && s.disk.Stored? && p in s.disk.document && Shows(s.disk.document[p], x)
    && (s.loaded ==>
          p in s.records &&
          (Carries(s.records[p], x) || p in s.unsettled || (p !in s.live && s.records[p].pending)))
  }

  predicate IsRestriction(op: Op) {
    op.DoRestrict? || op.DoRestrictScope?
  }

  function RestrictionOf(op: Op): Restriction
    requires IsRestriction(op)
  {
    if op.DoRestrict? then Policy(op.reason) else Scoped(op.scope, op.action)
  }

  /** The step is an acknowledgement that removes the record and whose snapshot showed the restriction. */
  predicate HandsOver(s: State, op: Op, p: string, x: Restriction) {
    && op.DoAck?
    && Acknowledge(s, op.named, op.readable, op.w, op.fits, op.w').1 == Ok(true)
    && p !in s.live
    && op.named.Some? && p in op.named.value && Shows(op.named.value[p].record, x)
  }

  predicate HandedOver(s: State, ops: seq<Op>, p: string, x: Restriction)
    decreases |ops|
  {
    |ops| > 0 && (HandsOver(s, ops[0], p, x) || HandedOver(Step(s, ops[0]), ops[1..], p, x))
  }

  // ---------------------------------------------------------------- one step

  /** Applying a restriction protects it, even when the write fails or the scope table is full. */
  lemma RestrictionProtects(s: State, op: Op)
    requires Guarded(s) && IsRestriction(op) && Enabled(s, op)
    ensures Protected(Step(s, op), op.p, RestrictionOf(op))
  {
    assert Marked(s.records, op.p, s.live[op.p]);
    if op.DoRestrict? {
      TightenedCarries(s.records[op.p], op.reason);
    } else if op.scope in s.records[op.p].scopes || |s.records[op.p].scopes| < MAX_SCOPES {
      ScopeTightenedCarries(s.records[op.p], op.scope, op.action);
    }
  }

  lemma TightenedCarries(r: Record, reason: string)
    ensures Carries(Tightened(r, reason), Policy(reason)) && Tightened(r, reason).pending == r.pending
  {
  }

  lemma ScopeTightenedCarries(r: Record, scope: string, action: Action)
    ensures Carries(ScopeTightened(r, scope, action), Scoped(scope, action)) &&
            ScopeTightened(r, scope, action).pending == r.pending
  {
  }

  lemma BeginProtects(s: State, q: string, catalog: string, expires: int, drawn: Option<string>, w: Write, p: string,
                      x: Restriction)
    requires Guarded(s) && s.loaded && Protected(s, p, x) && Nontrivial(x)
    ensures Protected(BeginLoaded(s, q, catalog, expires, drawn, w).0, p, x)
  {
    if q == p && p !in s.live && p !in s.unsettled && Carries(s.records[p], x) {
      CarriesRestricts(s.records[p], x);
    }
  }

  lemma CarriesGrows(r: Record, q: Record, x: Restriction)
    requires AtLeast(r, q) && Carries(q, x)
    ensures Carries(r, x)
  {
  }

  lemma EditedProtects(s: State, e: Edit, p: string, x: Restriction)
    requires Guarded(s) && s.loaded && Protected(s, p, x) && Amends(s, e)
    ensures Protected(Edited(s, e), p, x)
  {
    if e.Put? && e.p == p && Carries(s.records[p], x) {
      CarriesGrows(e.record, s.records[p], x);
    }
  }

  lemma CarriesRestricts(r: Record, x: Restriction)
    requires Carries(r, x) && Nontrivial(x)
    ensures Restricted(r)
  {
    if x.Scoped? {
      assert x.scope in r.scopes.Keys;
    }
  }

  lemma FinishProtects(s: State, q: string, generation: string, w: Write, p: string, x: Restriction)
    requires Guarded(s) && Protected(s, p, x) && generation != ""
    ensures Protected(Finish(s, q, generation, w), p, x)
  {
    if p in s.live {
      assert Marked(s.disk.document, p, s.live[p]);
    }
  }

  lemma SnapshotProtects(s: State, readable: bool, w: Write, fits: bool, p: string, x: Restriction)
    requires Guarded(s) && Protected(s, p, x)
    ensures Protected(Snapshot(s, readable, w, fits).0, p, x)
    ensures Snapshot(s, readable, w, fits).0.live == s.live
  {
    SnapshotIs(s, readable, w, fits);
  }

  /** Removing the settled records keeps a live worker's profile protected. */
  lemma RemovalProtects(t: State, w: Write, p: string, x: Restriction)
    requires Guarded(t) && t.loaded && Protected(t, p, x) && LivenessKnown(t) && Commit(t, w).1 && p in t.live
    ensures Protected(Removed(t, w), p, x)
  {
    assert p in LiveRecords(t) && Marked(t.records, p, t.live[p]);
  }

  /** A record without a live worker shows what protects its profile. */
  lemma ProtectedShows(t: State, p: string, x: Restriction)
    requires Guarded(t) && t.loaded && Protected(t, p, x) && p !in t.live
    ensures Shows(t.records[p], x)
  {
  }

  lemma AcknowledgeProtects(s: State, op: Op, p: string, x: Restriction)
    requires Guarded(s) && op.DoAck? && Protected(s, p, x)
    requires LivenessKnown(Snapshot(s, op.readable, op.w, op.fits).0)
    ensures Protected(Step(s, op), p, x) || HandsOver(s, op, p, x)
  {
    var (t, current) := Snapshot(s, op.readable, op.w, op.fits);
    AcknowledgeIs(s, op);
    SnapshotIs(s, op.readable, op.w, op.fits);
    SnapshotGuarded(s, op.readable, op.w, op.fits);
    SnapshotProtects(s, op.readable, op.w, op.fits, p, x);
    if Names(s, op) {
      if p in t.live {
        RemovalProtects(t, op.w', p, x);
      } else {
        ProtectedShows(t, p, x);
        assert p in Exported(t) && Exported(t)[p].record == t.records[p];
      }
    }
  }

  lemma WorkerStepProtects(s: State, op: Op, p: string, x: Restriction)
    requires Guarded(s) && Enabled(s, op) && Protected(s, p, x) && IsWorkerOp(op)
    ensures Protected(Step(s, op), p, x)
  {
    var e := WorkerEdit(s, op);
    if s.loaded {
      EditedProtects(s, e, p, x);
    }
  }

  lemma BeginStepProtects(s: State, op: Op, p: string, x: Restriction)
    requires Guarded(s) && op.DoBegin? && Protected(s, p, x) && Nontrivial(x)
    ensures Protected(Step(s, op), p, x)
  {
    var (t, ok) := Load(s, op.readable);
    if ok {
      BeginProtects(t, op.p, op.catalog, op.expires, op.drawn, op.w, p, x);
    }
  }

  lemma StepProtects(s: State, op: Op, p: string, x: Restriction)
    requires Guarded(s) && Enabled(s, op) && Protected(s, p, x) && Nontrivial(x)
    requires op.DoAck? ==> LivenessKnown(Snapshot(s, op.readable, op.w, op.fits).0)
    ensures Protected(Step(s, op), p, x) || HandsOver(s, op, p, x)
  {
    if IsWorkerOp(op) {
      WorkerStepProtects(s, op, p, x);
    } else {
      match op
      case DoBegin(_, _, _, _, _, _) => BeginStepProtects(s, op, p, x);
      case DoFinish(q, generation, w) => FinishProtects(s, q, generation, w, p, x);
      case DoRead(readable, w, fits) => SnapshotProtects(s, readable, w, fits, p, x);
      case DoAck(_, _, _, _, _) => AcknowledgeProtects(s, op, p, x);
      case DoCrash =>
    }
  }

  /** A protected profile without a live worker is refused, whatever else `begin` is given. */
  lemma ProtectedIsRefused(s: State, p: string, x: Restriction, catalog: string, expires: int, drawn: Option<string>,
                           readable: bool, w: Write)
    requires Guarded(s) && Protected(s, p, x) && Nontrivial(x) && p !in s.live
    ensures var (t, result) := Begin(s, p, catalog, expires, drawn, readable, w);
            t == Load(s, readable).0 &&
            result == if Load(s, readable).1 then Err(RecoveryRequired) else Err(StorageInvalid)
  {
    var (t, ok) := Load(s, readable);
    if ok && Carries(t.records[p], x) {
      CarriesRestricts(t.records[p], x);
    }
  }

  // ---------------------------------------------------------------- all runs

  lemma {:induction false} RunProtects(s: State, ops: seq<Op>, p: string, x: Restriction)
    requires Inv(s) && Feasible(s, ops) && Protected(s, p, x) && Nontrivial(x)
    ensures Protected(Run(s, ops), p, x) || HandedOver(s, ops, p, x)
    decreases |ops|
  {
    if |ops| == 0 {
    } else if !HandsOver(s, ops[0], p, x) {
      if ops[0].DoAck? {
        SnapshotLive(s, ops[0].readable, ops[0].w, ops[0].fits);
      }
      StepProtects(s, ops[0], p, x);
      StepKeeps(s, ops[0]);
      RunProtects(Step(s, ops[0]), ops[1..], p, x);
    }
  }

  /** Without a live worker, `begin` asks for recovery and leaves the file alone. */
  predicate Refused(s: State, p: string, catalog: string, expires: int, drawn: Option<string>, w: Write) {
    p !in s.live ==>
      && Begin(s, p, catalog, expires, drawn, true, w).1 == Err(RecoveryRequired)
      && Begin(s, p, catalog, expires, drawn, true, w).0.disk == s.disk
  }

  lemma SoundLoads(s: State)
    requires Sound(s) && DiskSound(s.disk)
    ensures Load(s, true).1 && Load(s, true).0.disk == s.disk
  {
  }

  lemma ProtectedIsRefusedNow(s: State, p: string, x: Restriction, catalog: string, expires: int,
                              drawn: Option<string>, w: Write)
    requires Guarded(s) && Protected(s, p, x) && Nontrivial(x)
    requires Load(s, true).1 && Load(s, true).0.disk == s.disk
    ensures Refused(s, p, catalog, expires, drawn, w)
  {
    if p !in s.live {
      ProtectedIsRefused(s, p, x, catalog, expires, drawn, true, w);
    }
  }

  /**
   No restriction is forgotten. Start from any file, run any operations with any
   failing writes and any crashes, restrict a live worker's profile (as a whole or
   in one scope, including a scope that overflows the table), and run on. Either an
   acknowledgement removed the record after naming a snapshot that showed the
   restriction or the uncertain state, or, with no live worker, `begin` asks for
   recovery and changes nothing.
   */
  lemma {:induction false} NoRestrictionForgotten(
      s0: State, before: seq<Op>, op: Op, after: seq<Op>,
      catalog: string, expires: int, drawn: Option<string>, w: Write)
    requires Started(s0) && Feasible(s0, before)
    requires IsRestriction(op) && Enabled(Run(s0, before), op)
    requires Feasible(Step(Run(s0, before), op), after)
    ensures var restricted := Step(Run(s0, before), op);
            var s := Run(restricted, after);
            || HandedOver(restricted, after, op.p, RestrictionOf(op))
            || (Protected(s, op.p, RestrictionOf(op)) && Refused(s, op.p, catalog, expires, drawn, w))
  {
    var s1 := Run(s0, before);
    var s2 := Step(s1, op);
    RunKeeps(s0, before);
    RestrictionProtects(s1, op);
    StepKeeps(s1, op);
    RestrictionStores(s1, op);
    RestrictedRun(s2, after, op.p, RestrictionOf(op), catalog, expires, drawn, w);
  }

  lemma RestrictedRun(s: State, ops: seq<Op>, p: string, x: Restriction,
                      catalog: string, expires: int, drawn: Option<string>, w: Write)
    requires Inv(s) && s.loaded && Protected(s, p, x) && Nontrivial(x) && Feasible(s, ops)
    ensures HandedOver(s, ops, p, x) ||
            (Protected(Run(s, ops), p, x) && Refused(Run(s, ops), p, catalog, expires, drawn, w))
  {
    var t := Run(s, ops);
    RunProtects(s, ops, p, x);
    RunKeeps(s, ops);
    RunStoresSound(s, ops);
    SoundLoads(t);
    if Protected(t, p, x) {
      ProtectedIsRefusedNow(t, p, x, catalog, expires, drawn, w);
    }
  }

  lemma RestrictionStores(s: State, op: Op)
    requires Guarded(s) && IsRestriction(op) && Enabled(s, op)
    ensures Step(s, op).loaded
  {
  }

  /** Only a loaded process writes. */
  lemma StepStores(s: State, op: Op)
    requires Enabled(s, op) && (!s.loaded ==> s.records == map[])
    ensures Step(s, op).loaded || Step(s, op).disk == s.disk
  {
    if IsWorkerOp(op) {
      var e := WorkerEdit(s, op);
      EditedStores(s, e);
    } else if op.DoAck? {
      AckStores(s, op);
    } else if op.DoRead? {
      SnapshotStores(s, op.readable, op.w, op.fits);
    } else if op.DoBegin? {
      BeginStores(s, op);
    } else if op.DoFinish? {
      FinishStores(s, op);
    }
  }

  lemma BeginStores(s: State, op: Op)
    requires op.DoBegin?
    ensures Step(s, op).loaded || Step(s, op).disk == s.disk
  {
  }

  lemma FinishStores(s: State, op: Op)
    requires op.DoFinish? && (!s.loaded ==> s.records == map[])
    ensures Step(s, op).loaded || Step(s, op).disk == s.disk
  {
  }

  lemma EditedStores(s: State, e: Edit)
    requires Amends(s, e) && (!s.loaded ==> s.records == map[])
    ensures Edited(s, e).loaded || Edited(s, e).disk == s.disk
  {
  }

  lemma SnapshotStores(s: State, readable: bool, w: Write, fits: bool)
    ensures var t := Snapshot(s, readable, w, fits).0;
            (t.loaded || t.disk == s.disk) && (Snapshot(s, readable, w, fits).1.Ok? ==> t.loaded)
  {
    SnapshotIs(s, readable, w, fits);
  }

  lemma AckStores(s: State, op: Op)
    requires op.DoAck?
    ensures Step(s, op).loaded || Step(s, op).disk == s.disk
  {
    AcknowledgeIs(s, op);
    SnapshotStores(s, op.readable, op.w, op.fits);
  }

  /** Once a process has loaded, every later file is one the loader accepts. */
  lemma {:induction false} RunStoresSound(s: State, ops: seq<Op>)
    requires Inv(s) && DiskSound(s.disk) && Feasible(s, ops)
    ensures DiskSound(Run(s, ops).disk)
    decreases |ops|
  {
    if |ops| == 0 {
    } else {
      StepKeeps(s, ops[0]);
      StepStores(s, ops[0]);
      RunStoresSound(Step(s, ops[0]), ops[1..]);
    }
  }

  // --------------------------------------------------- restrictions from outside

  /** A scope restriction that the table has no room for: the profile is marked and nothing is written. */
  predicate Overflows(s: State, op: Op) {
    && op.DoRestrictScope? && Owns(s.records, op.p, op.generation)
    && op.scope !in s.records[op.p].scopes && |s.records[op.p].scopes| >= MAX_SCOPES
  }

  /** The restriction does not reach the file: its write fails, or it overflows. */
  predicate Unwritten(s: State, op: Op) {
    IsRestriction(op) && (!op.w.ok || op.w.length > DOCUMENT_LIMIT || Overflows(s, op))
  }

  /**
   When a restriction of either kind does not reach the file and the process dies, recovery is asked
   for exactly when the file already marked or restricted the profile.
   */
  lemma FailedRestrictionSurvivesIff(s: State, op: Op, catalog: string, expires: int, drawn: string, w: Write)
    requires Unwritten(s, op) && DiskSound(s.disk) && s.disk.Stored? && op.p in s.disk.document
    requires s.disk.document[op.p].catalog in {"", catalog} && w.ok && w.length <= DOCUMENT_LIMIT
    ensures var result := Begin(Crash(Step(s, op)), op.p, catalog, expires, Some(drawn), true, w).1;
            && (result == Err(RecoveryRequired) <==>
                  s.disk.document[op.p].pending || Restricted(s.disk.document[op.p]))
            && (result != Err(RecoveryRequired) ==> result == Ok(drawn))
  {
    UnwrittenLeavesFile(s, op);
    var t := State(true, s.disk.document, map[], {}, s.disk);
    assert Load(Crash(s), true) == (t, true);
    BeginOnFile(t, op.p, catalog, expires, drawn, w);
  }

  lemma UnwrittenLeavesFile(s: State, op: Op)
    requires Unwritten(s, op)
    ensures Crash(Step(s, op)) == Crash(s)
  {
  }

  lemma BeginOnFile(t: State, p: string, catalog: string, expires: int, drawn: string, w: Write)
    requires t.live == map[] && t.unsettled == {} && p in t.records && t.records[p].catalog in {"", catalog}
    requires w.ok && w.length <= DOCUMENT_LIMIT
    ensures BeginLoaded(t, p, catalog, expires, Some(drawn), w).1 ==
            if t.records[p].pending || Restricted(t.records[p]) then Err(RecoveryRequired) else Ok(drawn)
  {
  }

  function FreshRecord(p: string, catalog: string, g: string, pending: bool): Record {
    Record(p, catalog, g, pending, NoAction, false, None, [], map[])
  }

  function OneRecord(r: Record, live: map<string, string>, n: nat): State {
    State(true, map[r.profile := r], live, {}, Stored(map[r.profile := r], n))
  }

  lemma FreshRecordValid(p: string, catalog: string, g: string)
    requires IsDigest(p) && IsDigest(catalog) && IsLeaseId(g)
    ensures ValidDocument(map[p := FreshRecord(p, catalog, g, false)])
  {
    assert ValidRecord(FreshRecord(p, catalog, g, false));
  }

  /** A worker that starts on an empty journal and finishes leaves one clean record. */
  lemma CleanWorker(p: string, catalog: string, g: string, w: Write)
    requires w.ok && w.length <= DOCUMENT_LIMIT && IsDigest(p) && IsDigest(catalog) && IsLeaseId(g)
    ensures var ops := [DoBegin(p, catalog, 0, Some(g), true, w), DoFinish(p, g, w)];
            var s0 := State(false, map[], map[], {}, Missing);
            Feasible(s0, ops) && Run(s0, ops) == OneRecord(FreshRecord(p, catalog, g, false), map[], w.length)
  {
    var s0 := State(false, map[], map[], {}, Missing);
    var begin := DoBegin(p, catalog, 0, Some(g), true, w);
    var finish := DoFinish(p, g, w);
    var s1 := OneRecord(FreshRecord(p, catalog, g, true), map[p := g], w.length);
    var s2 := OneRecord(FreshRecord(p, catalog, g, false), map[], w.length);
    assert Step(s0, begin) == s1;
    assert map[p := g] - {p} == map[];
    assert map[p := FreshRecord(p, catalog, g, true)][p := FreshRecord(p, catalog, g, false)]
        == map[p := FreshRecord(p, catalog, g, false)];
    assert Step(s1, finish) == s2;
    assert [begin, finish][1..] == [finish] && [finish][1..] == [];
    assert Feasible(s2, []) && Feasible(s1, [finish]);
    assert Run(s2, []) == s2 && Run(s1, [finish]) == s2;
  }

  /**
   Why restrictions must come from the live worker: after a clean finish the file
   shows nothing, so a late restriction whose write fails dies with the process.
   */
  lemma LateRestrictionCanBeForgotten(p: string, catalog: string, g: string, g': string, w: Write, n: nat)
    requires w.ok && w.length <= DOCUMENT_LIMIT && IsDigest(p) && IsDigest(catalog) && IsLeaseId(g) && IsLeaseId(g')
    ensures var ops := [DoBegin(p, catalog, 0, Some(g), true, w), DoFinish(p, g, w)];
            var s := Run(State(false, map[], map[], {}, Missing), ops);
            var late := Restrict(s, p, g, "access_denied", Write(n, false));
            && Owns(late.records, p, g) && Carries(late.records[p], Policy("access_denied"))
            && Begin(Crash(late), p, catalog, 0, Some(g'), true, w).1 == Ok(g')
  {
    CleanWorker(p, catalog, g, w);
    LateRestrictionIsHeld(p, catalog, g, w.length, n);
    LateRestrictionDies(p, catalog, g, g', w, n);
  }

  lemma LateRestrictionIsHeld(p: string, catalog: string, g: string, length: nat, n: nat)
    ensures var late := Restrict(OneRecord(FreshRecord(p, catalog, g, false), map[], length), p, g, "access_denied",
                                 Write(n, false));
            Owns(late.records, p, g) && Carries(late.records[p], Policy("access_denied"))
  {
  }

  lemma LateRestrictionDies(p: string, catalog: string, g: string, g': string, w: Write, n: nat)
    requires w.ok && w.length <= DOCUMENT_LIMIT && IsDigest(p) && IsDigest(catalog) && IsLeaseId(g)
    ensures var late := Restrict(OneRecord(FreshRecord(p, catalog, g, false), map[], w.length), p, g, "access_denied",
                                 Write(n, false));
            Begin(Crash(late), p, catalog, 0, Some(g'), true, w).1 == Ok(g')
  {
    FreshRecordValid(p, catalog, g);
    var late := DoRestrict(p, g, "access_denied", Write(n, false));
    var s := OneRecord(FreshRecord(p, catalog, g, false), map[], w.length);
    FailedRestrictionSurvivesIff(s, late, catalog, 0, g', w);
  }
}
