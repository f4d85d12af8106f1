/**
 The smart-access restriction journal as a state machine: one function per
 operation, over the in-memory document, the process-local live and unsettled
 tables, and the file on disk. A document is a finite map from profile digests
 to records; the list that the program keeps is related to it in JournalStore.

 A write replaces the whole file or leaves it alone; whether the input/output
 succeeds, and how long the encoded document is, are inputs of the step.
 */
module RestrictionJournal {
  import opened Wrappers
  import opened Leases

  const SNAPSHOT_LIMIT: nat := 1024 * 1024
  const DOCUMENT_LIMIT: nat := SNAPSHOT_LIMIT - 1024
  const MAX_RECORDS: nat := 3
  const MAX_LEASES: nat := 256
  const MAX_SCOPES: nat := 256

  datatype Action = NoAction | Drain | Terminate

  function Rank(a: Action): nat {
    match a
    case NoAction => 0
    case Drain => 1
    case Terminate => 2
  }

  datatype Record = Record(
    profile: string,
    catalog: string,
    generation: string,
    pending: bool,
    action: Action,
    withdrawn: bool,
    expires: Option<int>,
    leases: seq<Lease>,
    scopes: map<string, Action>)

  type Document = map<string, Record>

  /** `Malformed` is any file that does not decode to the document shape. */
  datatype File = Missing | Malformed | Stored(document: Document, length: nat)

  datatype State = State(
    loaded: bool,
    records: Document,
    live: map<string, string>,
    unsettled: set<string>,
    disk: File)

  datatype Write = Write(length: nat, ok: bool)

  datatype Error =
    | StorageInvalid
    | StorageUnavailable
    | RecoveryRequired
    | BindingInvalid
    | RenewalRecoveryRequired
    | AckInvalid

  // ---------------------------------------------------------------- documents

  predicate UniqueLeases(ls: seq<Lease>) {
    forall i, j :: 0 <= i < j < |ls| ==> ls[i].leaseId != ls[j].leaseId
  }

  predicate LeaseWithin(l: Lease, expires: Option<int>) {
    ValidLease(l) && expires.Some? && l.activeFlowsUntil <= expires.value
  }

  predicate ValidScopes(scopes: map<string, Action>) {
    |scopes| <= MAX_SCOPES &&
    forall scope :: scope in scopes ==> IsDigest(scope) && scopes[scope] != NoAction
  }

  predicate ValidRecord(r: Record) {
    && IsDigest(r.profile)
    && (r.catalog == "" || IsDigest(r.catalog))
    && IsLeaseId(r.generation)
    && (r.withdrawn ==> r.action == Terminate)
    && |r.leases| <= MAX_LEASES
    && UniqueLeases(r.leases)
    && (forall i :: 0 <= i < |r.leases| ==> LeaseWithin(r.leases[i], r.expires))
    && ValidScopes(r.scopes)
  }

  predicate ValidDocument(d: Document) {
    && |d| <= MAX_RECORDS
    && (forall p :: p in d ==> d[p].profile == p && ValidRecord(d[p]))
  }

  function Lookup(d: Document, p: string): Option<Record> {
    if p in d then Some(d[p]) else None
  }

  /** The profile's record carries the worker's generation. */
  predicate Owns(d: Document, p: string, generation: string) {
    p in d && d[p].generation == generation
  }

  function LiveOf(s: State, p: string): string {
    if p in s.live then s.live[p] else ""
  }

  // --------------------------------------------------------- file operations

  function Load(s: State, readable: bool): (State, bool) {
    if s.loaded then (s, true)
    else if !readable || s.disk.Malformed? then (s, false)
    else if s.disk.Missing? then (s.(loaded := true, records := map[]), true)
    else if s.disk.length <= DOCUMENT_LIMIT && ValidDocument(s.disk.document) then
      (s.(loaded := true, records := s.disk.document), true)
    else (s, false)
  }

  function Commit(s: State, w: Write): (State, bool) {
    if w.ok && w.length <= DOCUMENT_LIMIT then (s.(disk := Stored(s.records, w.length)), true)
    else (s, false)
  }

  /** The process dies: only the file survives. */
  function Crash(s: State): State {
    State(false, map[], map[], {}, s.disk)
  }

  // -------------------------------------------------------------- operations

  function Later(expires: Option<int>): int {
    if expires.Some? then expires.value else 0
  }

  predicate Restricted(r: Record) {
    r.action != NoAction || r.withdrawn || |r.scopes| != 0
  }

  /** The record `begin` writes: a fresh one, or the retained one re-armed. */
  function Armed(existing: Option<Record>, p: string, catalog: string, generation: string, expires: int): Record {
    var base := if existing.Some? then existing.value
                else Record(p, catalog, "", false, NoAction, false, None, [], map[]);
    base.(generation := generation,
          pending := true,
          catalog := if base.catalog == "" then catalog else base.catalog,
          expires := if expires != 0 && expires > Later(base.expires) then Some(expires) else base.expires)
  }

  /** Why a worker may not start on the profile, if so. */
  function Refusal(s: State, p: string, catalog: string): Option<Error> {
    if p in s.unsettled then Some(RecoveryRequired)
    else if p !in s.records && |s.records| >= MAX_RECORDS then Some(RecoveryRequired)
    else if p in s.records && LiveOf(s, p) == "" && (s.records[p].pending || Restricted(s.records[p])) then
      Some(RecoveryRequired)
    else if p in s.records && s.records[p].catalog != "" && s.records[p].catalog != catalog then Some(BindingInvalid)
    else None
  }

  function BeginLoaded(s: State, p: string, catalog: string, expires: int, generation: Option<string>, w: Write)
    : (State, Result<string, Error>)
  {
    var refusal := Refusal(s, p, catalog);
    if refusal.Some? then (s, Err(refusal.value))
    else if generation.None? then (s, Err(StorageUnavailable))
    else
      var armed := Armed(Lookup(s.records, p), p, catalog, generation.value, expires);
      var (t, ok) := Commit(s.(records := s.records[p := armed]), w);
      if ok then (t.(live := t.live[p := generation.value]), Ok(generation.value))
      else (s, Err(StorageUnavailable))
  }

  function Begin(s: State, p: string, catalog: string, expires: int, generation: Option<string>,
                 readable: bool, w: Write): (State, Result<string, Error>)
  {
    var (t, ok) := Load(s, readable);
    if ok then BeginLoaded(t, p, catalog, expires, generation, w) else (t, Err(StorageInvalid))
  }

  function Extend(s: State, p: string, generation: string, expires: int, w: Write): (State, Result<(), Error>) {
    if LiveOf(s, p) != generation then (s, Ok(()))
    else if !Owns(s.records, p, generation) then (s, Err(RecoveryRequired))
    else if expires <= Later(s.records[p].expires) then (s, Ok(()))
    else
      var (t, ok) := Commit(s.(records := s.records[p := s.records[p].(expires := Some(expires))]), w);
      if ok then (t, Ok(())) else (s, Err(StorageUnavailable))
  }

  predicate Keeps(l: Lease, previous: Lease, next: Lease, current: set<string>, now: int) {
    now < l.activeFlowsUntil || l.leaseId in current || l.leaseId == previous.leaseId || l.leaseId == next.leaseId
  }

  /** The leases of a record that retention keeps, by identifier. */
  function Kept(ls: seq<Lease>, previous: Lease, next: Lease, current: set<string>, now: int): map<string, Lease> {
    if |ls| == 0 then map[]
    else
      var rest := Kept(ls[..|ls| - 1], previous, next, current, now);
      var l := ls[|ls| - 1];
      if Keeps(l, previous, next, current, now) then rest[l.leaseId := l] else rest
  }

  predicate Rebinds(m: map<string, Lease>, l: Lease) {
    l.leaseId in m && m[l.leaseId] != l
  }

  /** The order of Go strings on equal-alphabet identifiers. */
  predicate Below(a: string, b: string) {
    if |b| == 0 then false
    else if |a| == 0 then true
    else if a[0] != b[0] then a[0] < b[0]
    else Below(a[1..], b[1..])
  }

  predicate SortedById(ls: seq<Lease>) {
    forall i, j :: 0 <= i < j < |ls| ==> Below(ls[i].leaseId, ls[j].leaseId)
  }

  /** `ls` lists the entries of `m`, in the order of their identifiers. */
  predicate IsListing(ls: seq<Lease>, m: map<string, Lease>) {
    && SortedById(ls)
    && UniqueLeases(ls)
    && (forall i :: 0 <= i < |ls| ==> ls[i].leaseId in m && m[ls[i].leaseId] == ls[i])
    && (forall id :: id in m ==> m[id] in ls)
    && |ls| == |m|
  }

  function LastActive(ls: seq<Lease>, from: int): (last: int)
    ensures last >= from
    ensures forall i :: 0 <= i < |ls| ==> ls[i].activeFlowsUntil <= last
    ensures last == from || exists i :: 0 <= i < |ls| && ls[i].activeFlowsUntil == last
  {
    if |ls| == 0 then from
    else
      var rest := LastActive(ls[..|ls| - 1], from);
      var l := ls[|ls| - 1];
      if l.activeFlowsUntil > rest then l.activeFlowsUntil else rest
  }

  /** The worker's record may take over a renewal at all. */
  predicate RetainAdmitted(s: State, p: string, generation: string, previous: Lease, next: Lease) {
    && LiveOf(s, p) == generation
    && previous.leaseId != next.leaseId
    && Follows(next, previous)
    && Owns(s.records, p, generation)
    && s.records[p].pending && s.records[p].action == NoAction && !s.records[p].withdrawn
    && next.runtimeScope !in s.records[p].scopes
  }

  function KeptBy(s: State, p: string, generation: string, previous: Lease, next: Lease,
                  current: set<string>, now: int): map<string, Lease>
    requires RetainAdmitted(s, p, generation, previous, next)
  {
    Kept(s.records[p].leases, previous, next, current, now)
  }

  predicate RetainFits(s: State, p: string, generation: string, previous: Lease, next: Lease,
                       current: set<string>, now: int)
  {
    RetainAdmitted(s, p, generation, previous, next) &&
    var kept := KeptBy(s, p, generation, previous, next, current, now);
    && !Rebinds(kept, previous) && !Rebinds(kept, next)
    && |kept[previous.leaseId := previous][next.leaseId := next]| <= MAX_LEASES
  }

  /** `listing` is the sorted list of the leases to retain. */
  function Retain(s: State, p: string, generation: string, previous: Lease, next: Lease,
                  current: set<string>, now: int, listing: seq<Lease>, w: Write): (State, Result<(), Error>)
  {
    if !RetainFits(s, p, generation, previous, next, current, now) then (s, Err(RenewalRecoveryRequired))
    else
      var r := s.records[p].(leases := listing, expires := Some(LastActive(listing, Later(s.records[p].expires))));
      var (t, ok) := Commit(s.(records := s.records[p := r]), w);
      if ok then (t, Ok(())) else (s, Err(StorageUnavailable))
  }

  ghost predicate IsRetained(s: State, p: string, generation: string, previous: Lease, next: Lease,
                             current: set<string>, now: int, listing: seq<Lease>)
  {
    RetainFits(s, p, generation, previous, next, current, now) ==>
      IsListing(listing, KeptBy(s, p, generation, previous, next, current, now)
                           [previous.leaseId := previous][next.leaseId := next])
  }

  function Tightened(r: Record, reason: string): Record {
    r.(withdrawn := r.withdrawn || reason == "catalog_disabled",
       action := if reason != "issuance_disabled" then Terminate
                 else if r.action == NoAction then Drain
                 else r.action)
  }

  function Restrict(s: State, p: string, generation: string, reason: string, w: Write): State {
    if !Owns(s.records, p, generation) then s
    else Commit(s.(records := s.records[p := Tightened(s.records[p], reason)]), w).0
  }

  function ScopeTightened(r: Record, scope: string, action: Action): Record {
    if scope in r.scopes && r.scopes[scope] == Terminate then r
    else r.(scopes := r.scopes[scope := action])
  }

  function RestrictScope(s: State, p: string, generation: string, scope: string, action: Action, w: Write): State {
    if !Owns(s.records, p, generation) then s
    else if scope !in s.records[p].scopes && |s.records[p].scopes| >= MAX_SCOPES then
      s.(unsettled := s.unsettled + {p})
    else Commit(s.(records := s.records[p := ScopeTightened(s.records[p], scope, action)]), w).0
  }

  function Finish(s: State, p: string, generation: string, w: Write): State {
    if LiveOf(s, p) != generation then s
    else
      var t := s.(live := s.live - {p});
      if p !in s.records then t
      else Commit(t.(records := t.records[p := t.records[p].(pending := p in t.unsettled)]), w).0
  }

  // ---------------------------------------------- snapshots, acknowledgement

  datatype Entry = Entry(record: Record, live: bool)

  predicate IsLive(s: State, p: string)
    requires p in s.records
  {
    LiveOf(s, p) == s.records[p].generation
  }

  /**
   What the snapshot digest covers. The digest of the canonical encoding is taken
   to be injective, so the exported entries themselves stand for it.
   */
  function Exported(s: State): map<string, Entry> {
    map p | p in s.records :: Entry(s.records[p], IsLive(s, p))
  }

  function Snapshot(s: State, readable: bool, w: Write, fits: bool): (State, Result<map<string, Entry>, Error>) {
    var (t, loaded) := Load(s, readable);
    if !loaded then (t, Err(StorageInvalid))
    else
      var (u, written) := Commit(t, w);
      if !written then (u, Err(StorageUnavailable))
      else if !fits then (u, Err(StorageInvalid))
      else (u, Ok(Exported(u)))
  }

  function LiveRecords(s: State): Document {
    map p | p in s.records && IsLive(s, p) :: s.records[p]
  }

  /** Profiles whose record an acknowledgement would remove. */
  function Settled(s: State): set<string> {
    set p | p in s.records && !IsLive(s, p)
  }

  /** `named` is the snapshot the caller acknowledges, None when its digest is malformed. */
  function Acknowledge(s: State, named: Option<map<string, Entry>>, readable: bool, w: Write, fits: bool, w': Write)
    : (State, Result<bool, Error>)
  {
    if named.None? then (s, Err(AckInvalid))
    else
      var (t, current) := Snapshot(s, readable, w, fits);
      if current.Err? then (t, Err(current.error))
      else if current.value != named.value then (t, Ok(false))
      else
        var (u, ok) := Commit(t.(records := LiveRecords(t)), w');
        if ok then (u.(unsettled := u.unsettled - Settled(t)), Ok(true))
        else (t, Err(StorageUnavailable))
  }

  // -------------------------------------------------------------------- runs

  datatype Op =
    | DoBegin(p: string, catalog: string, expires: int, drawn: Option<string>, readable: bool, w: Write)
    | DoExtend(p: string, generation: string, expires: int, w: Write)
    | DoRetain(p: string, generation: string, previous: Lease, next: Lease, current: set<string>, now: int,
               listing: seq<Lease>, w: Write)
    | DoRestrict(p: string, generation: string, reason: string, w: Write)
    | DoRestrictScope(p: string, generation: string, scope: string, action: Action, w: Write)
    | DoFinish(p: string, generation: string, w: Write)
    | DoRead(readable: bool, w: Write, fits: bool)
    | DoAck(named: Option<map<string, Entry>>, readable: bool, w: Write, fits: bool, w': Write)
    | DoCrash

  /**
   What the callers guarantee: validated identifiers, restrictions only from the
   live worker, and a finish only with a generation that `begin` returned.
   */
  ghost predicate Enabled(s: State, op: Op) {
    match op
    case DoBegin(p, catalog, _, drawn, _, _) =>
      IsDigest(p) && (catalog == "" || IsDigest(catalog)) && (drawn.Some? ==> IsLeaseId(drawn.value))
    case DoRetain(p, generation, previous, next, current, now, listing, _) =>
      ValidLease(previous) && ValidLease(next) &&
      IsRetained(s, p, generation, previous, next, current, now, listing)
    case DoRestrict(p, generation, _, _) => p in s.live && s.live[p] == generation
    case DoRestrictScope(p, generation, scope, action, _) =>
      p in s.live && s.live[p] == generation && IsDigest(scope) && action != NoAction
    case DoFinish(_, generation, _) => generation != ""
    case _ => true
  }

  function Step(s: State, op: Op): State {
    match op
    case DoBegin(p, catalog, expires, drawn, readable, w) => Begin(s, p, catalog, expires, drawn, readable, w).0
    case DoExtend(p, generation, expires, w) => Extend(s, p, generation, expires, w).0
    case DoRetain(p, generation, previous, next, current, now, listing, w) =>
      Retain(s, p, generation, previous, next, current, now, listing, w).0
    case DoRestrict(p, generation, reason, w) => Restrict(s, p, generation, reason, w)
    case DoRestrictScope(p, generation, scope, action, w) => RestrictScope(s, p, generation, scope, action, w)
    case DoFinish(p, generation, w) => Finish(s, p, generation, w)
    case DoRead(readable, w, fits) => Snapshot(s, readable, w, fits).0
    case DoAck(named, readable, w, fits, w') => Acknowledge(s, named, readable, w, fits, w').0
    case DoCrash => Crash(s)
  }

  function Run(s: State, ops: seq<Op>): State
    decreases |ops|
  {
    if |ops| == 0 then s else Run(Step(s, ops[0]), ops[1..])
  }

  ghost predicate Feasible(s: State, ops: seq<Op>)
    decreases |ops|
  {
    |ops| > 0 ==> Enabled(s, ops[0]) && Feasible(Step(s, ops[0]), ops[1..])
  }
}
