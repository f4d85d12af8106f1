/**
 What each operation of the restriction journal does to a record, read from the record itself: how much a
 restriction adds, what a worker that begins finds, which leases a renewal keeps, and what a whole run of
 operations makes of a record's policy, scopes, binding and expiry.
 */
module JournalLaws {
  import opened Wrappers
  import opened Leases
  import opened RestrictionJournal
  import opened JournalEdits
  import opened JournalInvariant
  import opened JournalSafety
  import opened JournalEvolution

  /** The file can be replaced: it fits under one mebibyte with room for the envelope. */
  predicate Writes(w: Write) {
    w.ok && w.length <= 1047552
  }

  /** The file after a write that was given these records. */
  function FileAfter(s: State, records: Document, w: Write): File {
    if Writes(w) then Stored(records, w.length) else s.disk
  }

  // ------------------------------------------------------- one restriction

  /**
   A policy restriction makes the record strict enough for its reason and no stricter than that, changes
   nothing else of the record and no other record, and stays in memory whether or not it is written.
   */
  lemma RestrictionIsLeast(s: State, p: string, generation: string, reason: string, w: Write)
    ensures var t := Restrict(s, p, generation, reason, w);
            if p in s.records && s.records[p].generation == generation then
              var old', new' := s.records[p], Lookup(t.records, p).value;
              && t == s.(records := s.records[p := new'], disk := FileAfter(s, t.records, w))
              && new' == old'.(action := new'.action, withdrawn := new'.withdrawn)
              && AtLeast(new', old') && Carries(new', Policy(reason))
              && forall q :: AtLeast(q, old') && Carries(q, Policy(reason)) ==>
                   Rank(q.action) >= Rank(new'.action) && (new'.withdrawn ==> q.withdrawn)
            else t == s
  {
  }

  /**
   A scope restriction makes the scope strict enough and nothing stricter; a scope that the full table
   does not hold only marks the profile.
   */
  lemma ScopeRestrictionIsLeast(s: State, p: string, generation: string, scope: string, action: Action, w: Write)
    requires action != NoAction
    ensures var t := RestrictScope(s, p, generation, scope, action, w);
            if !(p in s.records && s.records[p].generation == generation) then t == s
            else if scope !in s.records[p].scopes && |s.records[p].scopes| >= 256 then
              t == s.(unsettled := s.unsettled + {p})
            else
              var old', new' := s.records[p], Lookup(t.records, p).value;
              && t == s.(records := s.records[p := new'], disk := FileAfter(s, t.records, w))
              && new' == old'.(scopes := new'.scopes)
              && AtLeast(new', old') && Carries(new', Scoped(scope, action))
              && forall q :: AtLeast(q, old') && Carries(q, Scoped(scope, action)) ==> AtLeast(q, new')
  {
    if Owns(s.records, p, generation) {
      ScopeAtLeast(s.records[p], scope, action);
      ScopeIsLeast(s.records[p], scope, action);
    }
  }

  lemma ScopeIsLeast(r: Record, scope: string, action: Action)
    requires action != NoAction
    ensures var r' := ScopeTightened(r, scope, action);
            && r' == r.(scopes := r'.scopes) && Carries(r', Scoped(scope, action))
            && forall q :: AtLeast(q, r) && Carries(q, Scoped(scope, action)) ==> AtLeast(q, r')
  {
  }

  // ------------------------------------------------------- policy over runs

  /** The operation restricts this record: it names the profile and the record's own generation. */
  predicate Hits(s: State, op: Op, p: string) {
    IsRestriction(op) && op.p == p && p in s.records && s.records[p].generation == op.generation
  }

  /** The reasons that were applied to the record, in order. */
  ghost function Reasons(s: State, ops: seq<Op>, p: string): seq<string>
    decreases |ops|
  {
    if |ops| == 0 then []
    else
      (if ops[0].DoRestrict? && Hits(s, ops[0], p) then [ops[0].reason] else []) +
      Reasons(Step(s, ops[0]), ops[1..], p)
  }

  /** Action and withdrawal of a record after the reasons. */
  ghost predicate PolicyIs(r: Record, q: Record, reasons: seq<string>) {
    && (r.action == Terminate <==>
          q.action == Terminate || exists i :: 0 <= i < |reasons| && reasons[i] != "issuance_disabled")
    && (r.action == NoAction <==> q.action == NoAction && |reasons| == 0)
    && (r.withdrawn <==> q.withdrawn || "catalog_disabled" in reasons)
  }

  lemma PolicyThen(r: Record, q: Record, o: Record, a: seq<string>, b: seq<string>)
    requires PolicyIs(q, o, a) && PolicyIs(r, q, b)
    ensures PolicyIs(r, o, a + b)
  {
    var all := a + b;
    if i :| 0 <= i < |a| && a[i] != "issuance_disabled" {
      assert all[i] != "issuance_disabled";
    }
    if i :| 0 <= i < |b| && b[i] != "issuance_disabled" {
      assert all[|a| + i] != "issuance_disabled";
    }
  }

  /** A restriction that hits decides the policy by its reason. */
  lemma HitDecidesPolicy(s: State, op: Op, p: string)
    requires op.DoRestrict? && Hits(s, op, p)
    ensures p in Step(s, op).records && PolicyIs(Step(s, op).records[p], s.records[p], [op.reason])
  {
    assert [op.reason][0] == op.reason;
  }

  /** What an operation that does not hit leaves of the record's policy and scopes. */
  predicate SamePolicy(r: Record, q: Record) {
    r.action == q.action && r.withdrawn == q.withdrawn
  }

  lemma BeginKeepsPolicy(s: State, q: string, catalog: string, expires: int, drawn: Option<string>, w: Write, p: string)
    requires p in s.records
    ensures var t := BeginLoaded(s, q, catalog, expires, drawn, w).0;
            p in t.records && SamePolicy(t.records[p], s.records[p]) && t.records[p].scopes == s.records[p].scopes
  {
  }

  /** The record keeps its policy and its scopes. */
  predicate KeepsRestrictions(s: State, t: State, p: string) {
    p in s.records ==>
      && p in t.records && SamePolicy(t.records[p], s.records[p])
      && t.records[p].scopes == s.records[p].scopes
  }

  lemma ExtendKeepsRestrictions(s: State, q: string, generation: string, expires: int, w: Write, p: string)
    ensures KeepsRestrictions(s, Extend(s, q, generation, expires, w).0, p)
  {
  }

  lemma FinishKeepsRestrictions(s: State, q: string, generation: string, w: Write, p: string)
    ensures KeepsRestrictions(s, Finish(s, q, generation, w), p)
  {
  }

  lemma RetainKeepsRestrictions(s: State, op: Op, p: string)
    requires op.DoRetain?
    ensures KeepsRestrictions(s, Step(s, op), p)
  {
    if RetainFits(s, op.p, op.generation, op.previous, op.next, op.current, op.now) {
      RetainCommits(s, op.p, op.generation, op.previous, op.next, op.current, op.now, op.listing, op.w);
    }
  }

  lemma ReasonKeepsTheOther(s: State, op: Op, p: string)
    requires p in s.records && op.DoRestrict?
    ensures p in Step(s, op).records && Step(s, op).records[p].scopes == s.records[p].scopes
    ensures !Hits(s, op, p) ==> SamePolicy(Step(s, op).records[p], s.records[p])
  {
  }

  lemma ScopeKeepsTheOther(s: State, op: Op, p: string)
    requires p in s.records && op.DoRestrictScope?
    ensures p in Step(s, op).records && SamePolicy(Step(s, op).records[p], s.records[p])
    ensures !Hits(s, op, p) ==> Step(s, op).records[p].scopes == s.records[p].scopes
  {
  }

  lemma AckKeepsRecord(s: State, op: Op, p: string)
    requires op.DoAck? && s.loaded && p in s.records && p in Step(s, op).records
    ensures Step(s, op).records[p] == s.records[p]
  {
    AckNeverWeakens(s, op, p);
  }

  lemma MissKeepsPolicy(s: State, op: Op, p: string)
    requires s.loaded && !op.DoCrash? && p in s.records && p in Step(s, op).records
    ensures !(op.DoRestrict? && Hits(s, op, p)) ==> SamePolicy(Step(s, op).records[p], s.records[p])
    ensures !(op.DoRestrictScope? && Hits(s, op, p)) ==> Step(s, op).records[p].scopes == s.records[p].scopes
  {
    match op
    case DoBegin(q, catalog, expires, drawn, readable, w) => BeginKeepsPolicy(s, q, catalog, expires, drawn, w, p);
    case DoRead(readable, w, fits) => SnapshotIs(s, readable, w, fits);
    case DoAck(_, _, _, _, _) => AckKeepsRecord(s, op, p);
    case DoRestrict(_, _, _, _) => ReasonKeepsTheOther(s, op, p);
    case DoRestrictScope(_, _, _, _, _) => ScopeKeepsTheOther(s, op, p);
    case DoExtend(q, generation, expires, w) => ExtendKeepsRestrictions(s, q, generation, expires, w, p);
    case DoRetain(_, _, _, _, _, _, _, _) => RetainKeepsRestrictions(s, op, p);
    case DoFinish(q, generation, w) => FinishKeepsRestrictions(s, q, generation, w, p);
  }

  /**
   Over any run in which a record persists it terminates exactly if it did at the start or some applied
   reason was not the disabling of issuance, it drains exactly if it does not terminate and drained or was
   restricted at all, and it is withdrawn exactly if it was or the catalog was disabled.
   */
  lemma {:induction false} RunTellsPolicy(s: State, ops: seq<Op>, p: string)
    requires Persists(s, ops, p)
    ensures p in Run(s, ops).records && PolicyIs(Run(s, ops).records[p], s.records[p], Reasons(s, ops, p))
    decreases |ops|
  {
    if |ops| == 0 {
    } else {
      var t := Step(s, ops[0]);
      var now := if ops[0].DoRestrict? && Hits(s, ops[0], p) then [ops[0].reason] else [];
      RunTellsPolicy(t, ops[1..], p);
      if ops[0].DoRestrict? && Hits(s, ops[0], p) {
        HitDecidesPolicy(s, ops[0], p);
      } else {
        MissKeepsPolicy(s, ops[0], p);
      }
      PolicyThen(Run(s, ops).records[p], t.records[p], s.records[p], now, Reasons(t, ops[1..], p));
    }
  }

  // ------------------------------------------------------- scopes over runs

  /** The scope restriction finds its scope in the table, or room for it. */
  predicate Fits(s: State, op: Op, p: string) {
    && op.DoRestrictScope? && Hits(s, op, p)
    && (op.scope in s.records[p].scopes || |s.records[p].scopes| < 256)
  }

  /** The actions that were applied to one scope of the record, in order. */
  ghost function Actions(s: State, ops: seq<Op>, p: string, scope: string): seq<Action>
    decreases |ops|
  {
    if |ops| == 0 then []
    else
      (if Fits(s, ops[0], p) && ops[0].scope == scope then [ops[0].action] else []) +
      Actions(Step(s, ops[0]), ops[1..], p, scope)
  }

  ghost predicate ScopeIs(r: Record, q: Record, scope: string, actions: seq<Action>) {
    && (scope in r.scopes <==> scope in q.scopes || |actions| > 0)
    && (scope in r.scopes && r.scopes[scope] == Terminate <==>
          (scope in q.scopes && q.scopes[scope] == Terminate) || Terminate in actions)
  }

  lemma StepTellsScope(s: State, op: Op, p: string, scope: string)
    requires op.DoRestrictScope? && op.action != NoAction && p in s.records
    ensures p in Step(s, op).records
    ensures ScopeIs(Step(s, op).records[p], s.records[p], scope,
                    if Fits(s, op, p) && op.scope == scope then [op.action] else [])
  {
    if Hits(s, op, p) {
      HitTellsScope(s.records[p], op.scope, op.action, scope);
    } else {
      ScopeKeepsTheOther(s, op, p);
    }
  }

  lemma HitTellsScope(r: Record, hit: string, action: Action, scope: string)
    requires action != NoAction
    ensures ScopeIs(ScopeTightened(r, hit, action), r, scope, if hit == scope then [action] else [])
  {
  }

  lemma ScopeThen(r: Record, q: Record, o: Record, scope: string, a: seq<Action>, b: seq<Action>)
    requires ScopeIs(q, o, scope, a) && ScopeIs(r, q, scope, b)
    ensures ScopeIs(r, o, scope, a + b)
  {
  }

  /**
   Over any run in which a record persists a scope is restricted exactly if it was or some action on it
   found room, and terminates exactly if it did or some such action was to terminate.
   */
  lemma {:induction false} RunTellsScopes(s: State, ops: seq<Op>, p: string, scope: string)
    requires Persists(s, ops, p) && Feasible(s, ops)
    ensures p in Run(s, ops).records
    ensures ScopeIs(Run(s, ops).records[p], s.records[p], scope, Actions(s, ops, p, scope))
    decreases |ops|
  {
    if |ops| == 0 {
    } else {
      var t := Step(s, ops[0]);
      var now := if Fits(s, ops[0], p) && ops[0].scope == scope then [ops[0].action] else [];
      RunTellsScopes(t, ops[1..], p, scope);
      if ops[0].DoRestrictScope? {
        StepTellsScope(s, ops[0], p, scope);
      } else {
        MissKeepsPolicy(s, ops[0], p);
      }
      ScopeThen(Run(s, ops).records[p], t.records[p], s.records[p], scope, now, Actions(t, ops[1..], p, scope));
    }
  }

  // -------------------------------------------------------------- beginning

  /** A record that shows neither an unfinished worker nor a restriction. */
  predicate Unmarked(r: Record) {
    !r.pending && r.action == NoAction && !r.withdrawn && r.scopes == map[]
  }

  /** A worker is known to run on the profile. */
  predicate HasWorker(s: State, p: string) {
    WorkerOf(s, p) != ""
  }

  /** Nothing is left to recover: no overflow, room for the record, and nothing marked without a worker. */
  predicate Recovered(s: State, p: string) {
    && p !in s.unsettled
    && (if p in s.records then HasWorker(s, p) || Unmarked(s.records[p]) else |s.records| < 3)
  }

  /** The profile is not bound to another catalog. */
  predicate Unbound(s: State, p: string, catalog: string) {
    p in s.records ==> s.records[p].catalog == "" || s.records[p].catalog == catalog
  }

  /**
   A loaded journal lets a worker begin exactly if nothing is left to recover, the profile is not bound to
   another catalog, a generation could be drawn and the file could be written; the error tells which failed first.
   */
  lemma BeginDecides(s: State, p: string, catalog: string, expires: int, drawn: Option<string>, w: Write)
    ensures var (t, result) := BeginLoaded(s, p, catalog, expires, drawn, w);
            && (result == Err(RecoveryRequired) <==> !Recovered(s, p))
            && (result == Err(BindingInvalid) <==> Recovered(s, p) && !Unbound(s, p, catalog))
            && (result.Ok? <==> Recovered(s, p) && Unbound(s, p, catalog) && drawn.Some? && Writes(w))
            && (result.Err? ==> t == s && result.error in {RecoveryRequired, BindingInvalid, StorageUnavailable})
            && (result.Ok? ==> result.value == drawn.value)
  {
    assert p in s.records ==> (|s.records[p].scopes| == 0 <==> s.records[p].scopes == map[]);
  }

  /** The later of a recorded expiry and a new one; zero stands for none. */
  predicate IsLater(after: Option<int>, before: Option<int>, given: int) {
    && (after == before || after == Some(given)) && NotEarlier(after, before)
    && (given > 0 ==> NotEarlier(after, Some(given)))
    && (given == 0 ==> after == before)
  }

  /** The record of a worker that begins: a clean one, or the old one marked, bound and extended. */
  lemma BeginRecords(s: State, p: string, catalog: string, expires: int, drawn: Option<string>, w: Write)
    requires BeginLoaded(s, p, catalog, expires, drawn, w).1.Ok?
    ensures var t := BeginLoaded(s, p, catalog, expires, drawn, w).0;
            && p in t.records
            && t == s.(records := s.records[p := t.records[p]], live := s.live[p := drawn.value],
                       disk := Stored(t.records, w.length))
            && t.records[p].generation == drawn.value && t.records[p].pending
            && (p in s.records ==>
                  && t.records[p] == s.records[p].(generation := drawn.value, pending := true,
                                                   catalog := t.records[p].catalog, expires := t.records[p].expires)
                  && (s.records[p].catalog != "" ==> t.records[p].catalog == s.records[p].catalog)
                  && (s.records[p].catalog == "" ==> t.records[p].catalog == catalog)
                  && IsLater(t.records[p].expires, s.records[p].expires, expires))
            && (p !in s.records ==>
                  && t.records[p].profile == p && t.records[p].catalog == catalog
                  && Unmarked(t.records[p].(pending := false)) && t.records[p].leases == []
                  && IsLater(t.records[p].expires, None, expires))
  {
  }

  // ------------------------------------------------------ extending, finishing

  /** The generation of the profile's live worker, empty without one. */
  function WorkerOf(s: State, p: string): string {
    if p in s.live then s.live[p] else ""
  }

  /** Only the live worker extends, never to an earlier time; a failed write changes nothing. */
  lemma ExtendIsExact(s: State, p: string, generation: string, expires: int, w: Write)
    ensures var (t, result) := Extend(s, p, generation, expires, w);
            if WorkerOf(s, p) != generation then t == s && result == Ok(())
            else if !(p in s.records && s.records[p].generation == generation) then
              t == s && result == Err(RecoveryRequired)
            else
              var until := if s.records[p].expires.Some? then s.records[p].expires.value else 0;
              if expires <= until then t == s && result == Ok(())
              else if !Writes(w) then t == s && result == Err(StorageUnavailable)
              else
                && result == Ok(())
                && t.records == s.records[p := s.records[p].(expires := Some(expires))]
                && t == s.(records := t.records, disk := Stored(t.records, w.length))
  {
  }

  /** Only the live worker finishes: it is gone, and its mark stays exactly if the profile is unsettled. */
  lemma FinishIsExact(s: State, p: string, generation: string, w: Write)
    ensures var t := Finish(s, p, generation, w);
            if WorkerOf(s, p) != generation then t == s
            else
              && t.live == s.live - {p} && t.unsettled == s.unsettled && t.loaded == s.loaded
              && t.records.Keys == s.records.Keys
              && (forall q :: q in s.records ==>
                    t.records[q] == if q == p then s.records[p].(pending := p in s.unsettled) else s.records[q])
              && t.disk == if p in s.records then FileAfter(s, t.records, w) else s.disk
  {
  }

  // -------------------------------------------------------------- retention

  /** The lease is still needed: it is active, or its holder is current. */
  predicate Needed(l: Lease, current: set<string>, now: int) {
    now < l.activeFlowsUntil || l.leaseId in current
  }

  /** The worker may renew at all: it is live, unrestricted, and the new lease follows the old one. */
  predicate MayRenew(s: State, p: string, generation: string, previous: Lease, next: Lease) {
    && WorkerOf(s, p) == generation
    && previous.leaseId != next.leaseId && Follows(next, previous)
    && p in s.records && s.records[p].generation == generation
    && s.records[p].pending && s.records[p].action == NoAction && !s.records[p].withdrawn
    && next.runtimeScope !in s.records[p].scopes
  }

  /** No recorded lease has the identifier of another one of these. */
  predicate Compatible(ls: seq<Lease>, previous: Lease, next: Lease) {
    forall i :: 0 <= i < |ls| ==>
      && (ls[i].leaseId == previous.leaseId ==> ls[i] == previous)
      && (ls[i].leaseId == next.leaseId ==> ls[i] == next)
  }

  function NeededBy(current: set<string>, now: int): Lease -> bool {
    l => Needed(l, current, now)
  }

  /** The identifiers that a renewal retains. */
  function IdsAfter(ls: seq<Lease>, needed: Lease -> bool, previous: string, next: string): set<string> {
    (set i | 0 <= i < |ls| && needed(ls[i]) :: ls[i].leaseId) + {previous, next}
  }

  /** What a table holds that keeps the needed leases and those that share an identifier with a renewed one. */
  ghost predicate KeepsNeeded(keeps: Lease -> bool, needed: Lease -> bool, previous: string, next: string) {
    forall l: Lease :: keeps(l) <==> needed(l) || l.leaseId == previous || l.leaseId == next
  }

  lemma TableIds(m: map<string, Lease>, ls: seq<Lease>, keeps: Lease -> bool, needed: Lease -> bool,
                 previous: Lease, next: Lease)
    requires KeptFrom(m, ls, keeps) && KeepsNeeded(keeps, needed, previous.leaseId, next.leaseId)
    ensures m[previous.leaseId := previous][next.leaseId := next].Keys ==
            IdsAfter(ls, needed, previous.leaseId, next.leaseId)
  {
    var ids := set i | 0 <= i < |ls| && needed(ls[i]) :: ls[i].leaseId;
    forall id | id in m ensures id in ids || id == previous.leaseId || id == next.leaseId {
      var i :| 0 <= i < |ls| && ls[i] == m[id];
    }
    forall id | id in ids ensures id in m {
      var i :| 0 <= i < |ls| && needed(ls[i]) && ls[i].leaseId == id;
      assert ls[i] in ls && keeps(ls[i]);
    }
  }

  lemma TableRebinds(m: map<string, Lease>, ls: seq<Lease>, keeps: Lease -> bool, l: Lease)
    requires KeptFrom(m, ls, keeps) && forall x: Lease :: x.leaseId == l.leaseId ==> keeps(x)
    ensures !Rebinds(m, l) <==> forall i :: 0 <= i < |ls| && ls[i].leaseId == l.leaseId ==> ls[i] == l
  {
    if !Rebinds(m, l) {
      forall i | 0 <= i < |ls| && ls[i].leaseId == l.leaseId ensures ls[i] == l {
        assert ls[i] in ls;
      }
    }
  }

  lemma TableHolds(m: map<string, Lease>, ls: seq<Lease>, keeps: Lease -> bool, needed: Lease -> bool,
                   previous: Lease, next: Lease, listing: seq<Lease>, l: Lease)
    requires KeptFrom(m, ls, keeps) && KeepsNeeded(keeps, needed, previous.leaseId, next.leaseId)
    requires previous.leaseId != next.leaseId && !Rebinds(m, previous) && !Rebinds(m, next)
    requires IsListing(listing, m[previous.leaseId := previous][next.leaseId := next])
    ensures l in listing <==> l == previous || l == next || (l in ls && needed(l))
  {
    var all := m[previous.leaseId := previous][next.leaseId := next];
    if l in listing && l != previous && l != next {
      assert l.leaseId in all && all[l.leaseId] == l;
      assert m[l.leaseId] == l;
    }
    if l in ls && needed(l) {
      assert keeps(l) && m[l.leaseId] == l;
      assert all[l.leaseId] == l;
    }
    assert all[previous.leaseId] == previous && all[next.leaseId] == next;
  }

  lemma RetainedIds(ls: seq<Lease>, previous: Lease, next: Lease, current: set<string>, now: int)
    requires UniqueLeases(ls)
    ensures |Kept(ls, previous, next, current, now)[previous.leaseId := previous][next.leaseId := next]| ==
            |IdsAfter(ls, NeededBy(current, now), previous.leaseId, next.leaseId)|
  {
    var m := Kept(ls, previous, next, current, now);
    KeptIs(ls, previous, next, current, now);
    TableIds(m, ls, l => Keeps(l, previous, next, current, now), NeededBy(current, now), previous, next);
    SizeOfTable(m[previous.leaseId := previous][next.leaseId := next]);
  }

  lemma RetainedRebinds(ls: seq<Lease>, previous: Lease, next: Lease, current: set<string>, now: int)
    requires UniqueLeases(ls)
    ensures var kept := Kept(ls, previous, next, current, now);
            !Rebinds(kept, previous) && !Rebinds(kept, next) <==> Compatible(ls, previous, next)
  {
    var keeps: Lease -> bool := l => Keeps(l, previous, next, current, now);
    var m := Kept(ls, previous, next, current, now);
    KeptIs(ls, previous, next, current, now);
    TableRebinds(m, ls, keeps, previous);
    TableRebinds(m, ls, keeps, next);
  }

  lemma RetainFitsIff(s: State, p: string, generation: string, previous: Lease, next: Lease,
                      current: set<string>, now: int)
    requires p in s.records ==> UniqueLeases(s.records[p].leases)
    ensures RetainFits(s, p, generation, previous, next, current, now) <==>
            && MayRenew(s, p, generation, previous, next)
            && Compatible(s.records[p].leases, previous, next)
            && |IdsAfter(s.records[p].leases, NeededBy(current, now), previous.leaseId, next.leaseId)| <= 256
  {
    if MayRenew(s, p, generation, previous, next) {
      RetainedIds(s.records[p].leases, previous, next, current, now);
      RetainedRebinds(s.records[p].leases, previous, next, current, now);
    }
  }

  lemma SizeOfTable<V>(m: map<string, V>)
    ensures |m| == |m.Keys|
  {
  }

  /** A renewal is retained exactly if the worker may renew, no identifier is rebound, all fit, and the write works. */
  lemma RetainDecides(s: State, p: string, generation: string, previous: Lease, next: Lease,
                      current: set<string>, now: int, listing: seq<Lease>, w: Write)
    requires Inv(s)
    ensures var (t, result) := Retain(s, p, generation, previous, next, current, now, listing, w);
            var fits := MayRenew(s, p, generation, previous, next) &&
                        Compatible(s.records[p].leases, previous, next) &&
                        |IdsAfter(s.records[p].leases, NeededBy(current, now), previous.leaseId, next.leaseId)| <= 256;
            && (result.Ok? <==> fits && Writes(w))
            && (result == Err(StorageUnavailable) <==> fits && !Writes(w))
            && (result == Err(RenewalRecoveryRequired) <==> !fits)
            && (result.Err? ==> t == s)
  {
    RetainFitsIff(s, p, generation, previous, next, current, now);
    RetainAnswers(s, p, generation, previous, next, current, now, listing, w);
  }

  lemma RetainAnswers(s: State, p: string, generation: string, previous: Lease, next: Lease,
                      current: set<string>, now: int, listing: seq<Lease>, w: Write)
    ensures var (t, result) := Retain(s, p, generation, previous, next, current, now, listing, w);
            var fits := RetainFits(s, p, generation, previous, next, current, now);
            && (result.Ok? <==> fits && Writes(w))
            && (result == Err(StorageUnavailable) <==> fits && !Writes(w))
            && (result == Err(RenewalRecoveryRequired) <==> !fits)
            && (result.Err? ==> t == s)
  {
  }

  /** The latest of a recorded expiry and the times until which the leases are active. */
  predicate IsLatest(after: Option<int>, before: Option<int>, ls: seq<Lease>) {
    && after.Some? && NotEarlier(after, before)
    && (forall i :: 0 <= i < |ls| ==> ls[i].activeFlowsUntil <= after.value)
    && (after == before || after == Some(0) || exists i :: 0 <= i < |ls| && Some(ls[i].activeFlowsUntil) == after)
  }

  /**
   A renewal changes the leases and the expiry of one record: a lease is then recorded exactly if it is one
   of the renewed ones, or was recorded and is still needed, and the record expires with the last of them.
   */
  lemma RetainsExactly(s: State, p: string, generation: string, previous: Lease, next: Lease,
                       current: set<string>, now: int, listing: seq<Lease>, w: Write, l: Lease)
    requires Inv(s) && IsRetained(s, p, generation, previous, next, current, now, listing)
    requires Retain(s, p, generation, previous, next, current, now, listing, w).1.Ok?
    ensures var t := Retain(s, p, generation, previous, next, current, now, listing, w).0;
            && p in s.records && p in t.records
            && t == s.(records := s.records[p := t.records[p]], disk := Stored(t.records, w.length))
            && t.records[p] == s.records[p].(leases := t.records[p].leases, expires := t.records[p].expires)
            && SortedById(t.records[p].leases)
            && (l in t.records[p].leases <==>
                  l == previous || l == next || (l in s.records[p].leases && Needed(l, current, now)))
            && IsLatest(t.records[p].expires, s.records[p].expires, t.records[p].leases)
  {
    RetainCommits(s, p, generation, previous, next, current, now, listing, w);
    var ls := s.records[p].leases;
    KeptIs(ls, previous, next, current, now);
    TableHolds(Kept(ls, previous, next, current, now), ls, x => Keeps(x, previous, next, current, now),
               NeededBy(current, now), previous, next, listing, l);
  }

  // ------------------------------------------------------ binding over runs

  /** The record keeps its profile, and its catalog once it has one. */
  predicate KeepsBinding(s: State, t: State, p: string) {
    p in s.records && p in t.records ==>
      && t.records[p].profile == s.records[p].profile
      && (s.records[p].catalog != "" ==> t.records[p].catalog == s.records[p].catalog)
  }

  lemma BeginKeepsBinding(s: State, q: string, catalog: string, expires: int, drawn: Option<string>, w: Write,
                          p: string)
    ensures KeepsBinding(s, BeginLoaded(s, q, catalog, expires, drawn, w).0, p)
  {
  }

  lemma ReasonKeepsBinding(s: State, q: string, generation: string, reason: string, w: Write, p: string)
    ensures KeepsBinding(s, Restrict(s, q, generation, reason, w), p)
  {
  }

  lemma ScopeKeepsBinding(s: State, q: string, generation: string, scope: string, action: Action, w: Write, p: string)
    ensures KeepsBinding(s, RestrictScope(s, q, generation, scope, action, w), p)
  {
  }

  lemma ExtendKeepsBinding(s: State, q: string, generation: string, expires: int, w: Write, p: string)
    ensures KeepsBinding(s, Extend(s, q, generation, expires, w).0, p)
  {
  }

  lemma FinishKeepsBinding(s: State, q: string, generation: string, w: Write, p: string)
    ensures KeepsBinding(s, Finish(s, q, generation, w), p)
  {
  }

  lemma RetainKeepsBinding(s: State, op: Op, p: string)
    requires op.DoRetain?
    ensures KeepsBinding(s, Step(s, op), p)
  {
    if RetainFits(s, op.p, op.generation, op.previous, op.next, op.current, op.now) {
      RetainCommits(s, op.p, op.generation, op.previous, op.next, op.current, op.now, op.listing, op.w);
    }
  }

  lemma StepKeepsBinding(s: State, op: Op, p: string)
    requires s.loaded && !op.DoCrash?
    ensures KeepsBinding(s, Step(s, op), p)
  {
    match op
    case DoBegin(q, catalog, expires, drawn, readable, w) => BeginKeepsBinding(s, q, catalog, expires, drawn, w, p);
    case DoRead(readable, w, fits) => SnapshotIs(s, readable, w, fits);
    case DoAck(_, _, _, _, _) =>
      if p in s.records && p in Step(s, op).records {
        AckKeepsRecord(s, op, p);
      }
    case DoRestrict(q, generation, reason, w) => ReasonKeepsBinding(s, q, generation, reason, w, p);
    case DoRestrictScope(q, generation, scope, action, w) => ScopeKeepsBinding(s, q, generation, scope, action, w, p);
    case DoExtend(q, generation, expires, w) => ExtendKeepsBinding(s, q, generation, expires, w, p);
    case DoRetain(_, _, _, _, _, _, _, _) => RetainKeepsBinding(s, op, p);
    case DoFinish(q, generation, w) => FinishKeepsBinding(s, q, generation, w, p);
  }

  /** Over any run in which a record persists it stays bound to the catalog it was bound to. */
  lemma {:induction false} RunKeepsBinding(s: State, ops: seq<Op>, p: string)
    requires Persists(s, ops, p)
    ensures KeepsBinding(s, Run(s, ops), p)
    decreases |ops|
  {
    if |ops| == 0 {
    } else {
      StepKeepsBinding(s, ops[0], p);
      RunKeepsBinding(Step(s, ops[0]), ops[1..], p);
    }
  }
}
