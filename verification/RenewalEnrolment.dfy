/**
 Renewal enrolment of a smart-access worker: a table from runtime scopes to
 enrolments, bounded in entries and in bytes, whose accepted leases only ever move
 forward along `Follows`.

 A clock reading has a wall part, which expiry times are compared with, and a
 monotonic part, which deadlines are compared with.
 */
module RenewalEnrolment {
  import opened Wrappers
  import opened Leases

  const CONTROL_LIMIT: nat := 16 * 1024
  const MAX_ENROLMENTS: nat := 256
  const MAX_BYTES: nat := 1024 * 1024

  datatype Clock = Clock(wall: int, mono: int)

  datatype Config = Config(profileDigest: string, capability: string, issuedAt: int, expiresAt: int, lease: Lease)

  datatype Renewal = Renewal(config: Config, current: Lease, deadline: int, size: nat)

  type Table = map<string, Renewal>

  datatype Worker = Worker(
    profileDigest: string, platform: string, audience: string, expires: int, deadline: int, cancelled: bool)

  datatype Error = RenewalInvalid | RenewalConflict | RuntimeUnavailable | RenewalFull

  predicate IsTokenChar(c: char) {
    'A' <= c <= 'Z' || 'a' <= c <= 'z' || '0' <= c <= '9' || c == '_' || c == '-'
  }

  predicate IsRenewalCapability(s: string) {
    && 9 + 1 + 65 <= |s| <= 4096
    && s[..9] == "pkr_srn1."
    && (forall i :: 9 <= i < |s| - 65 ==> IsTokenChar(s[i]))
    && s[|s| - 65] == '.'
    && IsLowerHex(s[|s| - 64..])
  }

  /** Decode an enrolment request of `size` bytes at the given time. */
  function Parse(config: Config, size: nat, now: Clock): Option<Renewal> {
    if && size <= CONTROL_LIMIT
       && ValidLease(config.lease)
       && IsDigest(config.profileDigest)
       && IsRenewalCapability(config.capability)
       && config.issuedAt <= now.wall < config.expiresAt
       && config.lease.issuedAt <= now.wall < config.lease.newFlowsUntil
    then Some(Renewal(config, config.lease, now.mono + (config.expiresAt - now.wall), size))
    else None
  }

  lemma Cut(s: string, a: nat, b: nat)
    requires a <= b < |s|
    ensures s == s[..a] + s[a..b] + [s[b]] + s[b + 1..]
  {
  }

  lemma Joined(prefix: string, token: string, point: char, digest: string)
    ensures var s := prefix + token + [point] + digest;
            var a, b := |prefix|, |prefix| + |token|;
            s[..a] == prefix && s[a..b] == token && s[b] == point && s[b + 1..] == digest
  {
  }

  ghost predicate IsCapability(s: string, prefix: string, token: string, digest: string) {
    && s == prefix + token + ['.'] + digest && |token| > 0 && IsDigest(digest)
    && forall i :: 0 <= i < |token| ==> IsTokenChar(token[i])
  }

  /** A capability is its prefix, a token, a point and a digest. */
  lemma CapabilityIs(s: string)
    ensures IsRenewalCapability(s) <==>
            |s| <= 4096 && exists token, digest :: IsCapability(s, "pkr_srn1.", token, digest)
  {
    if IsRenewalCapability(s) {
      Cut(s, 9, |s| - 65);
      var token, digest := s[9..|s| - 65], s[|s| - 64..];
      assert IsCapability(s, "pkr_srn1.", token, digest);
    }
    if |s| <= 4096 && exists token, digest :: IsCapability(s, "pkr_srn1.", token, digest) {
      var token, digest :| IsCapability(s, "pkr_srn1.", token, digest);
      Joined("pkr_srn1.", token, '.', digest);
      forall i | 9 <= i < |s| - 65 ensures IsTokenChar(s[i]) {
        assert s[i] == token[i - 9];
      }
    }
  }

  /** The characters of a token, between the prefix and the last point. */
  method MatchCapability(s: string) returns (ok: bool)
    ensures ok <==> IsRenewalCapability(s)
  {
    if |s| > 4096 || |s| < 75 || s[..9] != "pkr_srn1." || s[|s| - 65] != '.' {
      return false;
    }
    for i := 9 to |s| - 65
      invariant forall j :: 9 <= j < i ==> IsTokenChar(s[j])
    {
      var code := s[i] as int;
      if !(65 <= code <= 90 || 97 <= code <= 122 || 48 <= code <= 57 || s[i] in "_-") {
        return false;
      }
    }
    ok := MatchHex(s[|s| - 64..], 64);
  }

  /** Read an enrolment request. */
  method Read(config: Config, size: nat, now: Clock) returns (renewal: Option<Renewal>)
    ensures renewal == Parse(config, size, now)
  {
    if size > 16384 {
      return None;
    }
    var lease := CheckLease(config.lease);
    if !lease {
      return None;
    }
    var digest := MatchHex(config.profileDigest, 64);
    var capability := MatchCapability(config.capability);
    if !digest || !capability || now.wall < config.issuedAt || config.issuedAt >= config.expiresAt ||
       now.wall >= config.expiresAt || now.wall < config.lease.issuedAt || now.wall >= config.lease.newFlowsUntil {
      return None;
    }
    var left := config.expiresAt - now.wall;
    return Some(Renewal(config, config.lease, now.mono + left, size));
  }

  /**
   The deadline is the expiry as the monotonic clock sees it: while both clocks run alike they say the same,
   and setting the wall clock back does not lengthen an enrolment.
   */
  lemma DeadlineTracksExpiry(config: Config, size: nat, read: Clock, later: Clock)
    requires Parse(config, size, read).Some?
    ensures var renewal := Parse(config, size, read).value;
            && renewal.config == config && renewal.current == config.lease && renewal.size == size
            && (later.mono - read.mono == later.wall - read.wall ==>
                  (later.mono < renewal.deadline <==> later.wall < config.expiresAt))
            && (later.wall - read.wall <= later.mono - read.mono && !(later.mono < renewal.deadline) ==>
                  !Alive(renewal, later))
  {
  }

  predicate Alive(r: Renewal, now: Clock) {
    now.wall < r.config.expiresAt && now.mono < r.deadline
  }

  function Pruned(m: Table, now: Clock): Table {
    map scope | scope in m && Alive(m[scope], now) :: m[scope]
  }

  predicate WorkerAccepts(worker: Worker, profileDigest: string, r: Renewal, now: Clock) {
    && !worker.cancelled
    && worker.profileDigest == profileDigest
    && worker.platform == r.config.lease.platform && worker.audience == r.config.lease.audience
    && now.wall < worker.expires && now.mono < worker.deadline
    && Alive(r, now) && r.config.issuedAt <= now.wall
    && r.config.expiresAt <= worker.expires
  }

  // ---------------------------------------------------------- the byte budget

  ghost function Bytes(m: Table): nat
    decreases |m|
  {
    if m == map[] then 0
    else
      var scope :| scope in m;
      assert (m - {scope}).Keys == m.Keys - {scope};
      m[scope].size + Bytes(m - {scope})
  }

  /** The total does not depend on the order in which the table is summed. */
  lemma {:induction false} BytesWithout(m: Table, scope: string)
    requires scope in m
    ensures Bytes(m) == m[scope].size + Bytes(m - {scope})
    decreases |m|
  {
    var first :| first in m && Bytes(m) == m[first].size + Bytes(m - {first});
    if first != scope {
      assert (m - {first}).Keys == m.Keys - {first} && (m - {scope}).Keys == m.Keys - {scope};
      BytesWithout(m - {first}, scope);
      BytesWithout(m - {scope}, first);
      assert m - {first} - {scope} == m - {scope} - {first};
    }
  }

  lemma BytesPut(m: Table, scope: string, r: Renewal)
    ensures Bytes(m[scope := r]) == r.size + Bytes(m - {scope})
  {
    var t := m[scope := r];
    BytesWithout(t, scope);
    assert t - {scope} == m - {scope};
  }

  lemma CountPut(m: Table, scope: string, r: Renewal)
    ensures |m[scope := r]| == if scope in m then |m| else |m| + 1
  {
    assert m[scope := r].Keys == m.Keys + {scope};
  }

  lemma {:induction false} CountOfSubset(a: set<string>, b: set<string>)
    requires a <= b
    ensures |a| <= |b|
  {
    if a == {} {
    } else {
      var x :| x in a;
      CountOfSubset(a - {x}, b - {x});
    }
  }

  lemma {:induction false} BytesOfSubtable(a: Table, b: Table)
    requires a.Keys <= b.Keys && forall scope :: scope in a ==> a[scope].size == b[scope].size
    ensures Bytes(a) <= Bytes(b)
    decreases b.Keys
  {
    if b == map[] {
      assert a == map[];
    } else {
      var scope :| scope in b;
      BytesOfSubtable(a - {scope}, b - {scope});
      BytesWithout(b, scope);
      if scope in a {
        BytesWithout(a, scope);
      } else {
        assert a - {scope} == a;
      }
    }
  }

  // -------------------------------------------------------------- operations

  /** The table after a validated, admitted request; `m` is already pruned. */
  ghost function Admitted(m: Table, r: Renewal): (Table, Result<bool, Error>) {
    var scope := r.config.lease.runtimeScope;
    if scope in m && r.config.issuedAt < m[scope].config.issuedAt then (m, Err(RenewalConflict))
    else if scope in m && m[scope].config.capability == r.config.capability then
      if m[scope].config == r.config then (m, Ok(true)) else (m, Err(RenewalConflict))
    else if scope in m && !Follows(r.config.lease, m[scope].current) then (m, Err(RenewalConflict))
    else if (scope !in m && |m| >= MAX_ENROLMENTS) || r.size + Bytes(m - {scope}) > MAX_BYTES then (m, Err(RenewalFull))
    else (m[scope := r], Ok(true))
  }

  /**
   One enrolment request. `started` says that the service runs with a worker, and
   `offered` that one of its outbounds accepts the lease.
   */
  ghost function Configure(m: Table, worker: Worker, profileDigest: string, config: Config, size: nat,
                           read: Clock, now: Clock, started: bool, offered: bool): (Table, Result<bool, Error>)
  {
    var parsed := Parse(config, size, read);
    if parsed.None? then (m, Err(RenewalInvalid))
    else if config.profileDigest != profileDigest then (m, Err(RenewalConflict))
    else if !started then (m, Err(RuntimeUnavailable))
    else if !WorkerAccepts(worker, profileDigest, parsed.value, now) then (m, Err(RenewalConflict))
    else if !offered then (m, Ok(false))
    else Admitted(Pruned(m, now), parsed.value)
  }

  /** A verified renewal response replaces the scope's current lease. */
  function Accept(m: Table, scope: string, next: Lease): Table
    requires scope in m
  {
    m[scope := m[scope].(current := next)]
  }

  /** A worker that still runs at the given time. */
  predicate Running(worker: Worker, now: Clock) {
    !worker.cancelled && now.wall < worker.expires && now.mono < worker.deadline
  }

  /** A worker that replaces a running one inherits the enrolments it may still use; any other starts empty. */
  function CarriedOver(m: Table, previous: Option<Worker>, worker: Worker, now: Clock): Table {
    if previous.None? || !Running(previous.value, now) then map[]
    else map scope | scope in m && Alive(m[scope], now) && m[scope].config.expiresAt <= worker.expires :: m[scope]
  }

  /** The table kept in place by the worker, as the request handler updates it. */
  class Enrolments {
    var renewals: Table

    constructor ()
      ensures renewals == map[]
    {
      renewals := map[];
    }

    method Prune(now: Clock)
      modifies this
      ensures renewals == Pruned(old(renewals), now)
    {
      var left := renewals.Keys;
      ghost var before := renewals;
      while left != {}
        invariant left <= renewals.Keys <= before.Keys
        invariant forall scope :: scope in before ==>
                    (scope in renewals <==> scope in left || Alive(before[scope], now))
        invariant forall scope :: scope in renewals ==> renewals[scope] == before[scope]
        decreases |left|
      {
        var scope :| scope in left;
        var retained := renewals[scope];
        if now.wall >= retained.config.expiresAt || now.mono >= retained.deadline {
          renewals := renewals - {scope};
        }
        left := left - {scope};
      }
    }

    method SizeWithout(scope: string) returns (size: nat)
      ensures size == Bytes(renewals - {scope})
    {
      size := 0;
      var left := renewals - {scope};
      while left != map[]
        invariant size + Bytes(left) == Bytes(renewals - {scope})
        decreases left.Keys
      {
        var k :| k in left;
        BytesWithout(left, k);
        size, left := size + left[k].size, left - {k};
      }
    }

    method Enrol(worker: Worker, profileDigest: string, config: Config, size: nat,
                 read: Clock, now: Clock, started: bool, offered: bool) returns (result: Result<bool, Error>)
      modifies this
      ensures (renewals, result) ==
              Configure(old(renewals), worker, profileDigest, config, size, read, now, started, offered)
    {
      var parsed := Read(config, size, read);
      if parsed.None? {
        return Err(RenewalInvalid);
      }
      var renewal := parsed.value;
      if config.profileDigest != profileDigest {
        return Err(RenewalConflict);
      }
      if !started {
        return Err(RuntimeUnavailable);
      }
      if worker.cancelled || worker.profileDigest != profileDigest ||
         worker.platform != config.lease.platform || worker.audience != config.lease.audience ||
         now.wall >= worker.expires || now.mono >= worker.deadline || now.wall >= config.expiresAt ||
         now.mono >= renewal.deadline || now.wall < config.issuedAt || config.expiresAt > worker.expires {
        return Err(RenewalConflict);
      }
      if !offered {
        return Ok(false);
      }
      Prune(now);
      var scope := config.lease.runtimeScope;
      if scope in renewals {
        var previous := renewals[scope];
        if config.issuedAt < previous.config.issuedAt {
          return Err(RenewalConflict);
        }
        if previous.config.capability == config.capability {
          return if previous.config == config then Ok(true) else Err(RenewalConflict);
        }
        if !Follows(config.lease, previous.current) {
          return Err(RenewalConflict);
        }
      }
      var others := SizeWithout(scope);
      if (scope !in renewals && |renewals| >= 256) || size + others > 1024 * 1024 {
        return Err(RenewalFull);
      }
      renewals := renewals[scope := renewal];
      return Ok(true);
    }

    /** Take over from the table of the worker that this one replaces. */
    method CarryOver(before: Table, previous: Option<Worker>, worker: Worker, now: Clock)
      modifies this
      ensures renewals == CarriedOver(before, previous, worker, now)
    {
      renewals := map[];
      if previous.None? || previous.value.cancelled || now.wall >= previous.value.expires ||
         now.mono >= previous.value.deadline {
        return;
      }
      var left := before.Keys;
      while left != {}
        invariant left <= before.Keys && renewals.Keys <= before.Keys - left
        invariant forall scope :: scope in before && scope !in left ==>
                    (scope in renewals <==>
                       Alive(before[scope], now) && before[scope].config.expiresAt <= worker.expires)
        invariant forall scope :: scope in renewals ==> renewals[scope] == before[scope]
        decreases |left|
      {
        var scope :| scope in left;
        var renewal := before[scope];
        if now.wall < renewal.config.expiresAt && now.mono < renewal.deadline &&
           !(renewal.config.expiresAt > worker.expires) {
          renewals := renewals[scope := renewal];
        }
        left := left - {scope};
      }
    }
  }

  // -------------------------------------------------------------------- runs

  datatype Op =
    | DoConfigure(worker: Worker, profileDigest: string, config: Config, size: nat, read: Clock, now: Clock,
                  started: bool, offered: bool)
    | DoAccept(scope: string, next: Lease)
    | DoReplaceWorker(previous: Option<Worker>, worker: Worker, now: Clock)

  /** An accepted response has been verified to follow the scope's current lease. */
  predicate Enabled(m: Table, op: Op) {
    op.DoAccept? ==> op.scope in m && Follows(op.next, m[op.scope].current)
  }

  ghost function Step(m: Table, op: Op): Table
    requires Enabled(m, op)
  {
    match op
    case DoConfigure(worker, profileDigest, config, size, read, now, started, offered) =>
      Configure(m, worker, profileDigest, config, size, read, now, started, offered).0
    case DoAccept(scope, next) => Accept(m, scope, next)
    case DoReplaceWorker(previous, worker, now) => CarriedOver(m, previous, worker, now)
  }

  ghost predicate Feasible(m: Table, ops: seq<Op>)
    decreases |ops|
  {
    |ops| > 0 ==> Enabled(m, ops[0]) && Feasible(Step(m, ops[0]), ops[1..])
  }

  ghost function Run(m: Table, ops: seq<Op>): Table
    requires Feasible(m, ops)
    decreases |ops|
  {
    if |ops| == 0 then m else Run(Step(m, ops[0]), ops[1..])
  }

  predicate Keyed(m: Table) {
    forall scope :: scope in m ==> m[scope].current.runtimeScope == scope && m[scope].config.lease.runtimeScope == scope
  }

  ghost predicate Small(m: Table) {
    |m| <= MAX_ENROLMENTS && Bytes(m) <= MAX_BYTES
  }

  ghost predicate Bounded(m: Table) {
    Small(m) && Keyed(m)
  }

  lemma AdmittedSmall(m: Table, r: Renewal)
    requires Small(m)
    ensures Small(Admitted(m, r).0)
  {
    BytesPut(m, r.config.lease.runtimeScope, r);
    CountPut(m, r.config.lease.runtimeScope, r);
  }

  lemma SubtableSmall(a: Table, b: Table)
    requires Small(b) && a.Keys <= b.Keys && forall scope :: scope in a ==> a[scope].size == b[scope].size
    ensures Small(a)
  {
    BytesOfSubtable(a, b);
    CountOfSubset(a.Keys, b.Keys);
  }

  /** A request leaves the table alone, or admits the decoded renewal to the pruned table. */
  lemma ConfigureIs(m: Table, op: Op) returns (r: Option<Renewal>)
    requires op.DoConfigure?
    ensures r.None? ==> Step(m, op) == m
    ensures r.Some? ==> r.value.current == r.value.config.lease && Step(m, op) == Admitted(Pruned(m, op.now), r.value).0
  {
    r := Parse(op.config, op.size, op.read);
    if Step(m, op) == m {
      r := None;
    }
  }

  lemma StepSmall(m: Table, op: Op)
    requires Small(m) && Enabled(m, op)
    ensures Small(Step(m, op))
  {
    match op
    case DoConfigure(_, _, _, _, _, now, _, _) =>
      var r := ConfigureIs(m, op);
      if r.Some? {
        SubtableSmall(Pruned(m, now), m);
        AdmittedSmall(Pruned(m, now), r.value);
      }
    case DoAccept(scope, next) => SubtableSmall(Accept(m, scope, next), m);
    case DoReplaceWorker(previous, worker, now) => SubtableSmall(CarriedOver(m, previous, worker, now), m);
  }

  lemma StepKeyed(m: Table, op: Op)
    requires Keyed(m) && Enabled(m, op)
    ensures Keyed(Step(m, op))
  {
    if op.DoConfigure? {
      var r := ConfigureIs(m, op);
      if r.Some? {
        AdmittedKeyed(Pruned(m, op.now), r.value);
      }
    }
  }

  lemma AdmittedKeyed(m: Table, r: Renewal)
    requires Keyed(m) && r.current == r.config.lease
    ensures Keyed(Admitted(m, r).0)
  {
  }

  lemma StepBounded(m: Table, op: Op)
    requires Bounded(m) && Enabled(m, op)
    ensures Bounded(Step(m, op))
  {
    StepSmall(m, op);
    StepKeyed(m, op);
  }

  /** In every run the table holds at most 256 enrolments and one mebibyte of requests, each under its own scope. */
  lemma {:induction false} RunBounded(m: Table, ops: seq<Op>)
    requires Bounded(m) && Feasible(m, ops)
    ensures Bounded(Run(m, ops))
    ensures |Run(m, ops)| <= 256 && Bytes(Run(m, ops)) <= 1048576
    ensures forall scope :: scope in Run(m, ops) ==>
              Run(m, ops)[scope].current.runtimeScope == scope && Run(m, ops)[scope].config.lease.runtimeScope == scope
    decreases |ops|
  {
    if |ops| == 0 {
    } else {
      StepBounded(m, ops[0]);
      RunBounded(Step(m, ops[0]), ops[1..]);
    }
  }

  /** The scope is enrolled all along: no step finds it expired and no replacement drops it. */
  ghost predicate Continuous(m: Table, ops: seq<Op>, scope: string)
    requires Feasible(m, ops)
    decreases |ops|
  {
    scope in m &&
    (|ops| > 0 ==>
       && (ops[0].DoConfigure? ==> Alive(m[scope], ops[0].now))
       && Continuous(Step(m, ops[0]), ops[1..], scope))
  }

  lemma FollowsReflexive(l: Lease)
    ensures Follows(l, l)
  {
  }

  lemma FollowsTransitive(a: Lease, b: Lease, c: Lease)
    requires Follows(c, b) && Follows(b, a)
    ensures Follows(c, a)
  {
  }

  lemma StepMovesForward(m: Table, op: Op, scope: string)
    requires Bounded(m) && Enabled(m, op) && scope in m && scope in Step(m, op)
    requires op.DoConfigure? ==> Alive(m[scope], op.now)
    ensures Follows(Step(m, op)[scope].current, m[scope].current)
    ensures Step(m, op)[scope].config.issuedAt >= m[scope].config.issuedAt
  {
    FollowsReflexive(m[scope].current);
    if op.DoConfigure? {
      var r := ConfigureIs(m, op);
      if r.Some? {
        AdmittedMovesForward(Pruned(m, op.now), r.value, scope);
      }
    }
  }

  lemma AdmittedMovesForward(m: Table, r: Renewal, scope: string)
    requires scope in m && r.current == r.config.lease
    ensures scope in Admitted(m, r).0
    ensures Follows(Admitted(m, r).0[scope].current, m[scope].current)
    ensures Admitted(m, r).0[scope].config.issuedAt >= m[scope].config.issuedAt
  {
    FollowsReflexive(m[scope].current);
  }

  /**
   A continuously enrolled scope keeps its identity through any chain of enrolments
   and accepted renewals, and none of its revisions is ever lowered.
   */
  lemma {:induction false} ChainMovesForward(m: Table, ops: seq<Op>, scope: string)
    requires Bounded(m) && Feasible(m, ops) && Continuous(m, ops, scope)
    ensures scope in Run(m, ops)
    ensures SameIdentity(Run(m, ops)[scope].current, m[scope].current)
    ensures RevisionsAtLeast(Run(m, ops)[scope].current, m[scope].current)
    ensures Run(m, ops)[scope].config.issuedAt >= m[scope].config.issuedAt
    decreases |ops|
  {
    if |ops| == 0 {
    } else {
      var t := Step(m, ops[0]);
      StepMovesForward(m, ops[0], scope);
      StepBounded(m, ops[0]);
      ChainMovesForward(t, ops[1..], scope);
      FollowsTransitive(m[scope].current, t[scope].current, Run(m, ops)[scope].current);
    }
  }

  /** Repeating a successful request while it is alive changes nothing, not even its deadline. */
  lemma RetryKeepsDeadline(m: Table, worker: Worker, profileDigest: string, config: Config, size: nat,
                           read: Clock, now: Clock, read': Clock, now': Clock)
    requires Bounded(m)
    requires var first := Configure(m, worker, profileDigest, config, size, read, now, true, true);
             && first.1 == Ok(true)
             && Parse(config, size, read').Some?
             && WorkerAccepts(worker, profileDigest, Parse(config, size, read').value, now')
             && forall scope :: scope in first.0 ==> Alive(first.0[scope], now')
    ensures var first := Configure(m, worker, profileDigest, config, size, read, now, true, true);
            Configure(first.0, worker, profileDigest, config, size, read', now', true, true) == (first.0, Ok(true))
  {
    var first := Configure(m, worker, profileDigest, config, size, read, now, true, true).0;
    AdmittedHolds(Pruned(m, now), Parse(config, size, read).value);
    assert Pruned(first, now') == first;
    AdmittedAgain(first, Parse(config, size, read').value);
  }

  lemma AdmittedHolds(m: Table, r: Renewal)
    requires Admitted(m, r).1 == Ok(true)
    ensures var scope := r.config.lease.runtimeScope;
            scope in Admitted(m, r).0 && Admitted(m, r).0[scope].config == r.config
  {
  }

  lemma AdmittedAgain(m: Table, r: Renewal)
    requires r.config.lease.runtimeScope in m && m[r.config.lease.runtimeScope].config == r.config
    ensures Admitted(m, r) == (m, Ok(true))
  {
  }
}
