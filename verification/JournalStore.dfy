/**
 The journal object itself: a list of records, the two process-local tables and
 the file, changed in place by the program's loops. Every method is proved to
 take the step of RestrictionJournal that it stands for.
 */
module JournalStore {
  import opened Wrappers
  import opened Leases
  import opened RestrictionJournal

  // -------------------------------------------------------- lists as documents

  datatype ListFile = NoFile | BadFile | ListOf(records: seq<Record>, length: nat)

  predicate DistinctProfiles(rs: seq<Record>) {
    forall i, j :: 0 <= i < j < |rs| ==> rs[i].profile != rs[j].profile
  }

  ghost function Book(rs: seq<Record>): Document
    requires DistinctProfiles(rs)
  {
    map i | 0 <= i < |rs| :: rs[i].profile := rs[i]
  }

  lemma SameTable<V>(a: map<string, V>, b: map<string, V>)
    requires forall p :: (p in a <==> p in b) && (p in a ==> a[p] == b[p])
    ensures a == b
  {
    assert a.Keys == b.Keys;
  }

  lemma BookHas(rs: seq<Record>, p: string)
    requires DistinctProfiles(rs)
    ensures p in Book(rs) <==> exists i :: 0 <= i < |rs| && rs[i].profile == p
    ensures forall i :: 0 <= i < |rs| && rs[i].profile == p ==> Book(rs)[p] == rs[i]
  {
  }

  lemma BookAppended(rs: seq<Record>, r: Record)
    requires DistinctProfiles(rs) && r.profile !in Book(rs)
    ensures DistinctProfiles(rs + [r])
    ensures Book(rs + [r]) == Book(rs)[r.profile := r]
  {
    var rs' := rs + [r];
    BookHas(rs, r.profile);
    assert DistinctProfiles(rs');
    var a, b := Book(rs'), Book(rs)[r.profile := r];
    forall p ensures p in a <==> p in b
      ensures p in a ==> a[p] == b[p]
    {
      BookHas(rs, p);
      BookHas(rs', p);
      assert forall i :: 0 <= i < |rs| ==> rs'[i] == rs[i];
      assert rs'[|rs|] == r;
    }
    assert a.Keys == b.Keys;
  }

  lemma {:induction false} BookSize(rs: seq<Record>)
    requires DistinctProfiles(rs)
    ensures |Book(rs)| == |rs|
  {
    if |rs| == 0 {
      assert Book(rs) == map[];
    } else {
      var front := rs[..|rs| - 1];
      var last := rs[|rs| - 1];
      BookSize(front);
      assert rs == front + [last];
      assert last.profile !in Book(front);
      BookAppended(front, last);
    }
  }

  lemma BookReplaced(rs: seq<Record>, i: int, r: Record)
    requires DistinctProfiles(rs) && 0 <= i < |rs| && r.profile == rs[i].profile
    ensures DistinctProfiles(rs[i := r])
    ensures Book(rs[i := r]) == Book(rs)[r.profile := r]
  {
    var rs' := rs[i := r];
    assert forall j :: 0 <= j < |rs| ==> rs'[j].profile == rs[j].profile;
    var a, b := Book(rs'), Book(rs)[r.profile := r];
    forall p ensures p in a <==> p in b
      ensures p in a ==> a[p] == b[p]
    {
      BookReplacedAt(rs, i, r, p);
    }
    SameTable(a, b);
  }

  lemma BookReplacedAt(rs: seq<Record>, i: int, r: Record, p: string)
    requires DistinctProfiles(rs) && 0 <= i < |rs| && r.profile == rs[i].profile && DistinctProfiles(rs[i := r])
    ensures p in Book(rs[i := r]) <==> p in Book(rs)
    ensures p in Book(rs) ==> Book(rs[i := r])[p] == if p == r.profile then r else Book(rs)[p]
  {
    var rs' := rs[i := r];
    if k :| 0 <= k < |rs| && rs[k].profile == p {
      BookLookup(rs, p, k);
      BookLookup(rs', p, k);
    } else {
      BookLookup(rs, p, -1);
      BookLookup(rs', p, -1);
    }
  }

  /** Where a profile stands in the list, if it does. */
  lemma BookLookup(rs: seq<Record>, p: string, k: int)
    requires DistinctProfiles(rs) && -1 <= k < |rs|
    requires if k < 0 then forall j :: 0 <= j < |rs| ==> rs[j].profile != p else rs[k].profile == p
    ensures p in Book(rs) <==> k >= 0
    ensures k >= 0 ==> Book(rs)[p] == rs[k]
  {
  }

  ghost function Abstract(f: ListFile): File {
    match f
    case NoFile => Missing
    case BadFile => Malformed
    case ListOf(rs, length) => if DistinctProfiles(rs) then Stored(Book(rs), length) else Malformed
  }

  predicate ListAccepted(rs: seq<Record>) {
    |rs| <= MAX_RECORDS && DistinctProfiles(rs) && forall i :: 0 <= i < |rs| ==> ValidRecord(rs[i])
  }

  lemma AcceptedList(rs: seq<Record>)
    requires DistinctProfiles(rs)
    ensures ValidDocument(Book(rs)) <==> ListAccepted(rs)
  {
    BookSize(rs);
    forall i | 0 <= i < |rs| ensures rs[i].profile in Book(rs) && Book(rs)[rs[i].profile] == rs[i] {
    }
  }

  // ---------------------------------------------------- sorting by identifier

  lemma {:induction false} BelowTrans(a: string, b: string, c: string)
    requires Below(a, b) && Below(b, c)
    ensures Below(a, c)
    decreases |a|
  {
    if |a| > 0 && a[0] == b[0] && b[0] == c[0] {
      BelowTrans(a[1..], b[1..], c[1..]);
    }
  }

  lemma {:induction false} BelowTotal(a: string, b: string)
    ensures a == b || Below(a, b) || Below(b, a)
    ensures !(Below(a, b) && Below(b, a)) && !Below(a, a)
    decreases |a|
  {
    if |a| > 0 && |b| > 0 && a[0] == b[0] {
      BelowTotal(a[1..], b[1..]);
      assert a == [a[0]] + a[1..] && b == [b[0]] + b[1..];
    }
    if |a| == 0 {
    } else {
      BelowTotal(a[1..], a[1..]);
    }
  }

  /** Put a lease into a sorted list. */
  method Insert(ls: seq<Lease>, l: Lease) returns (r: seq<Lease>)
    requires SortedById(ls) && forall i :: 0 <= i < |ls| ==> ls[i].leaseId != l.leaseId
    ensures SortedById(r)
    ensures exists k :: 0 <= k <= |ls| && r == ls[..k] + [l] + ls[k..]
  {
    var k := 0;
    while k < |ls| && Below(ls[k].leaseId, l.leaseId)
      invariant 0 <= k <= |ls|
      invariant forall i :: 0 <= i < k ==> Below(ls[i].leaseId, l.leaseId)
    {
      k := k + 1;
    }
    r := ls[..k] + [l] + ls[k..];
    forall i | k <= i < |ls| ensures Below(l.leaseId, ls[i].leaseId) {
      BelowTotal(ls[k].leaseId, l.leaseId);
      if k < i {
        BelowTrans(l.leaseId, ls[k].leaseId, ls[i].leaseId);
      }
    }
  }

  lemma SortedIsUnique(ls: seq<Lease>)
    requires SortedById(ls)
    ensures UniqueLeases(ls)
  {
    forall i, j | 0 <= i < j < |ls| ensures ls[i].leaseId != ls[j].leaseId {
      BelowTotal(ls[i].leaseId, ls[j].leaseId);
    }
  }

  /** The leases of the table as a list, in the order of their identifiers. */
  method Listing(m: map<string, Lease>) returns (ls: seq<Lease>)
    requires forall id :: id in m ==> m[id].leaseId == id
    ensures IsListing(ls, m)
  {
    ls := [];
    var left := m.Keys;
    while left != {}
      invariant left <= m.Keys
      invariant SortedById(ls)
      invariant forall i :: 0 <= i < |ls| ==> ls[i].leaseId in m.Keys - left && m[ls[i].leaseId] == ls[i]
      invariant forall id :: id in m.Keys - left ==> m[id] in ls
      invariant |ls| + |left| == |m.Keys|
      decreases |left|
    {
      var id :| id in left;
      var before := ls;
      ls := Insert(before, m[id]);
      left := left - {id};
      assert forall l :: l in ls <==> l in before || l == m[id];
      forall i | 0 <= i < |ls| ensures ls[i].leaseId in m.Keys - left && m[ls[i].leaseId] == ls[i] {
        assert ls[i] in ls;
      }
    }
    SortedIsUnique(ls);
    assert forall id :: id in m ==> id in m.Keys - left;
  }

  // ---------------------------------------------------------------- snapshots

  function EntryOf(r: Record, live: map<string, string>): Entry {
    Entry(r, (if r.profile in live then live[r.profile] else "") == r.generation)
  }

  predicate ExportsList(entries: map<string, Entry>, rs: seq<Record>, live: map<string, string>) {
    && (forall i :: 0 <= i < |rs| ==> rs[i].profile in entries && entries[rs[i].profile] == EntryOf(rs[i], live))
    && (forall p :: p in entries ==> exists i :: 0 <= i < |rs| && rs[i].profile == p)
  }

  method ExportList(rs: seq<Record>, live: map<string, string>) returns (entries: map<string, Entry>)
    requires DistinctProfiles(rs)
    ensures ExportsList(entries, rs, live)
  {
    entries := map[];
    for k := 0 to |rs|
      invariant forall i :: 0 <= i < k ==> rs[i].profile in entries && entries[rs[i].profile] == EntryOf(rs[i], live)
      invariant forall p :: p in entries ==> exists i :: 0 <= i < k && rs[i].profile == p
    {
      entries := entries[rs[k].profile := EntryOf(rs[k], live)];
    }
  }

  lemma ExportedEntry(s: State, rs: seq<Record>, entries: map<string, Entry>, p: string)
    requires DistinctProfiles(rs) && s.records == Book(rs) && ExportsList(entries, rs, s.live)
    ensures p in entries <==> p in s.records
    ensures p in entries ==> entries[p] == Entry(s.records[p], IsLive(s, p))
  {
    if i :| 0 <= i < |rs| && rs[i].profile == p {
      assert Book(rs)[p] == rs[i];
    }
  }

  lemma ExportedList(s: State, rs: seq<Record>, entries: map<string, Entry>)
    requires DistinctProfiles(rs) && s.records == Book(rs) && ExportsList(entries, rs, s.live)
    ensures entries == Exported(s)
  {
    var exported := Exported(s);
    forall p ensures p in entries <==> p in exported
      ensures p in entries ==> entries[p] == exported[p]
    {
      ExportedEntry(s, rs, entries, p);
    }
    SameTable(entries, exported);
  }

  // -------------------------------------------------------------- the journal

  class Journal {
    var loaded: bool
    var records: seq<Record>
    var live: map<string, string>
    var unsettled: set<string>
    var disk: ListFile

    ghost predicate Valid()
      reads this
    {
      DistinctProfiles(records)
    }

    ghost function Now(): State
      requires Valid()
      reads this
    {
      State(loaded, Book(records), live, unsettled, Abstract(disk))
    }

    /** A process finds whatever file is there. */
    constructor (file: ListFile)
      ensures Valid() && Now() == State(false, map[], map[], {}, Abstract(file))
    {
      loaded, records, live, unsettled, disk := false, [], map[], {}, file;
    }

    method Find(p: string, generation: Option<string>) returns (k: int)
      ensures -1 <= k < |records|
      ensures k >= 0 ==> records[k].profile == p && (generation.Some? ==> records[k].generation == generation.value)
      ensures k < 0 ==> forall j :: 0 <= j < |records| ==>
                          records[j].profile != p || (generation.Some? && records[j].generation != generation.value)
    {
      k := 0;
      while k < |records|
        invariant 0 <= k <= |records|
        invariant forall j :: 0 <= j < k ==>
                    records[j].profile != p || (generation.Some? && records[j].generation != generation.value)
      {
        if records[k].profile == p && (generation.None? || records[k].generation == generation.value) {
          return;
        }
        k := k + 1;
      }
      k := -1;
    }

    /** The worker's record: the profile's own record, when it carries the generation. */
    method FindWorker(p: string, generation: string) returns (k: int)
      requires Valid()
      ensures -1 <= k < |records|
      ensures k >= 0 <==> Owns(Book(records), p, generation)
      ensures k >= 0 ==> records[k].profile == p && Book(records)[p] == records[k]
    {
      k := Find(p, Some(generation));
    }

    method Put(k: int, r: Record)
      requires Valid() && 0 <= k < |records| && r.profile == records[k].profile
      modifies this`records
      ensures Valid() && Now() == old(Now()).(records := old(Now()).records[r.profile := r])
      ensures records == old(records)[k := r]
    {
      BookReplaced(records, k, r);
      records := records[k := r];
    }

    /** Change one record and commit; a failed write restores it. */
    method Replace(k: int, r: Record, w: Write) returns (ok: bool)
      requires Valid() && 0 <= k < |records| && r.profile == records[k].profile
      modifies this`records, this`disk
      ensures Valid() && ok == Commit(old(Now()), w).1
      ensures Now() == if ok then Commit(old(Now()).(records := old(Now()).records[r.profile := r]), w).0
              else old(Now())
    {
      var before := records;
      Put(k, r);
      ok := WriteLocked(w);
      if !ok {
        records := before;
      }
    }

    static method CheckLeases(r: Record) returns (ok: bool)
      ensures ok <==> |r.leases| <= MAX_LEASES && UniqueLeases(r.leases) &&
                      forall i :: 0 <= i < |r.leases| ==> LeaseWithin(r.leases[i], r.expires)
    {
      if |r.leases| > 256 {
        return false;
      }
      var ids: set<string> := {};
      for k := 0 to |r.leases|
        invariant ids == set i | 0 <= i < k :: r.leases[i].leaseId
        invariant forall i, j :: 0 <= i < j < k ==> r.leases[i].leaseId != r.leases[j].leaseId
        invariant forall i :: 0 <= i < k ==> LeaseWithin(r.leases[i], r.expires)
      {
        var l := r.leases[k];
        var valid := CheckLease(l);
        if !valid || l.leaseId in ids || r.expires.None? || l.activeFlowsUntil > r.expires.value {
          return false;
        }
        ids := ids + {r.leases[k].leaseId};
      }
      return true;
    }

    static method CheckScopes(scopes: map<string, Action>) returns (ok: bool)
      ensures ok <==> ValidScopes(scopes)
    {
      if |scopes| > 256 {
        return false;
      }
      var left := scopes.Keys;
      while left != {}
        invariant left <= scopes.Keys
        invariant forall scope :: scope in scopes && scope !in left ==> IsDigest(scope) && scopes[scope] != NoAction
        decreases left
      {
        var scope :| scope in left;
        var digest := MatchHex(scope, 64);
        if !digest || (scopes[scope] != Drain && scopes[scope] != Terminate) {
          return false;
        }
        left := left - {scope};
      }
      return true;
    }

    static method CheckRecord(r: Record) returns (ok: bool)
      ensures ok <==> ValidRecord(r)
    {
      var profile := MatchHex(r.profile, 64);
      var catalog := MatchHex(r.catalog, 64);
      var generation := MatchHex(r.generation, 32);
      if !profile || (r.catalog != "" && !catalog) || !generation || (r.withdrawn && r.action != Terminate) {
        return false;
      }
      var leases := CheckLeases(r);
      if !leases {
        return false;
      }
      ok := CheckScopes(r.scopes);
    }

    static predicate Checked(rs: seq<Record>, k: nat, seen: set<string>, valid: Record -> bool) {
      && k <= |rs| && seen == (set i | 0 <= i < k :: rs[i].profile)
      && (forall i, j :: 0 <= i < j < k ==> rs[i].profile != rs[j].profile)
      && (forall i :: 0 <= i < k ==> valid(rs[i]))
    }

    static lemma CheckedNext(rs: seq<Record>, k: nat, seen: set<string>, valid: Record -> bool)
      requires k < |rs| && Checked(rs, k, seen, valid)
      ensures valid(rs[k]) && rs[k].profile !in seen ==> Checked(rs, k + 1, seen + {rs[k].profile}, valid)
      ensures rs[k].profile in seen ==> !DistinctProfiles(rs)
    {
      if rs[k].profile in seen {
        var i :| 0 <= i < k && rs[i].profile == rs[k].profile;
      }
    }

    static method CheckDocument(rs: seq<Record>) returns (ok: bool)
      ensures ok <==> ListAccepted(rs)
    {
      if |rs| > 3 {
        return false;
      }
      var seen: set<string> := {};
      for k := 0 to |rs|
        invariant Checked(rs, k, seen, ValidRecord)
      {
        CheckedNext(rs, k, seen, ValidRecord);
        var valid := CheckRecord(rs[k]);
        if !valid || rs[k].profile in seen {
          return false;
        }
        seen := seen + {rs[k].profile};
      }
      return true;
    }

    method LoadLocked(readable: bool) returns (ok: bool)
      requires Valid()
      modifies this`loaded, this`records
      ensures Valid() && (Now(), ok) == Load(old(Now()), readable)
    {
      if loaded {
        return true;
      }
      if !readable || disk.BadFile? {
        return false;
      }
      if disk.NoFile? {
        records, loaded := [], true;
        return true;
      }
      if DistinctProfiles(disk.records) {
        AcceptedList(disk.records);
      }
      if disk.length > 1024 * 1024 - 1024 {
        return false;
      }
      ok := CheckDocument(disk.records);
      if ok {
        records, loaded := disk.records, true;
      }
    }

    method WriteLocked(w: Write) returns (ok: bool)
      requires Valid()
      modifies this`disk
      ensures Valid() && (Now(), ok) == Commit(old(Now()), w)
    {
      ok := w.ok && w.length <= 1024 * 1024 - 1024;
      if ok {
        disk := ListOf(records, w.length);
      }
    }

    method Begin(p: string, catalog: string, expires: int, drawn: Option<string>, readable: bool, w: Write)
      returns (result: Result<string, Error>)
      requires Valid()
      modifies this
      ensures Valid() && (Now(), result) ==
              RestrictionJournal.Begin(old(Now()), p, catalog, expires, drawn, readable, w)
    {
      var ok := LoadLocked(readable);
      if !ok {
        return Err(StorageInvalid);
      }
      result := BeginLoaded(p, catalog, expires, drawn, w);
    }

    method BeginLoaded(p: string, catalog: string, expires: int, drawn: Option<string>, w: Write)
      returns (result: Result<string, Error>)
      requires Valid()
      modifies this`records, this`disk, this`live
      ensures Valid() && (Now(), result) == RestrictionJournal.BeginLoaded(old(Now()), p, catalog, expires, drawn, w)
    {
      var k, refusal := Examine(p, catalog);
      if refusal.Some? {
        return Err(refusal.value);
      }
      if drawn.None? {
        return Err(StorageUnavailable);
      }
      var fresh' := Record(p, catalog, "", false, NoAction, false, None, [], map[]);
      var armed := Arm(if k < 0 then fresh' else records[k], catalog, drawn.value, expires);
      var ok: bool;
      if k < 0 {
        ok := Append(armed, w);
      } else {
        ok := Replace(k, armed, w);
      }
      if !ok {
        return Err(StorageUnavailable);
      }
      live := live[p := drawn.value];
      return Ok(drawn.value);
    }

    /** Mark a record for a worker that begins. */
    static method Arm(existing: Record, catalog: string, generation: string, expires: int) returns (r: Record)
      ensures r == Armed(Some(existing), existing.profile, catalog, generation, expires)
    {
      r := existing.(generation := generation, pending := true);
      if r.catalog == "" {
        r := r.(catalog := catalog);
      }
      var previousExpiry := 0;
      if r.expires.Some? {
        previousExpiry := r.expires.value;
      }
      if expires != 0 && expires > previousExpiry {
        r := r.(expires := Some(expires));
      }
    }

    /** Find the profile's record and say why a worker may not start on it. */
    method Examine(p: string, catalog: string) returns (k: int, refusal: Option<Error>)
      requires Valid()
      ensures -1 <= k < |records| && (p in Book(records) <==> k >= 0)
      ensures k >= 0 ==> records[k].profile == p && Book(records)[p] == records[k]
      ensures refusal == Refusal(Now(), p, catalog)
    {
      k := Find(p, None);
      BookLookup(records, p, k);
      BookSize(records);
      refusal := None;
      if p in unsettled || (k < 0 && |records| >= 3) {
        refusal := Some(RecoveryRequired);
      } else if k >= 0 {
        var idle := p !in live || live[p] == "";
        if idle && (records[k].pending || records[k].action != NoAction || records[k].withdrawn ||
                    |records[k].scopes| != 0) {
          refusal := Some(RecoveryRequired);
        } else if records[k].catalog != "" && records[k].catalog != catalog {
          refusal := Some(BindingInvalid);
        }
      }
    }

    method Append(r: Record, w: Write) returns (ok: bool)
      requires Valid() && r.profile !in Book(records)
      modifies this`records, this`disk
      ensures Valid() && ok == Commit(old(Now()), w).1
      ensures Now() == if ok then Commit(old(Now()).(records := old(Now()).records[r.profile := r]), w).0
              else old(Now())
    {
      var before := records;
      BookAppended(records, r);
      records := records + [r];
      ok := WriteLocked(w);
      if !ok {
        records := before;
      }
    }

    method ExtendExpiry(p: string, generation: string, expires: int, w: Write) returns (result: Result<(), Error>)
      requires Valid()
      modifies this`records, this`disk
      ensures Valid() && (Now(), result) == Extend(old(Now()), p, generation, expires, w)
    {
      if (if p in live then live[p] else "") != generation {
        return Ok(());
      }
      var k := FindWorker(p, generation);
      if k < 0 {
        return Err(RecoveryRequired);
      }
      if expires <= (if records[k].expires.Some? then records[k].expires.value else 0) {
        return Ok(());
      }
      ExtendReplaces(Now(), p, generation, expires, w);
      var ok := Replace(k, records[k].(expires := Some(expires)), w);
      return if ok then Ok(()) else Err(StorageUnavailable);
    }

    /** Fold the record's leases into the table of those that stay. */
    static method KeepLeases(ls: seq<Lease>, previous: Lease, next: Lease, current: set<string>, now: int)
      returns (m: map<string, Lease>)
      ensures m == Kept(ls, previous, next, current, now)
      ensures forall id :: id in m ==> m[id].leaseId == id
    {
      m := map[];
      for k := 0 to |ls|
        invariant m == Kept(ls[..k], previous, next, current, now)
        invariant forall id :: id in m ==> m[id].leaseId == id
      {
        assert ls[..k + 1][..k] == ls[..k];
        if now < ls[k].activeFlowsUntil || ls[k].leaseId in current ||
           ls[k].leaseId == previous.leaseId || ls[k].leaseId == next.leaseId {
          m := m[ls[k].leaseId := ls[k]];
        }
      }
      assert ls[..|ls|] == ls;
    }

    method RetainRenewal(p: string, generation: string, previous: Lease, next: Lease, current: set<string>, now: int,
                         w: Write)
      returns (result: Result<(), Error>, ghost listing: seq<Lease>)
      requires Valid()
      modifies this`records, this`disk
      ensures Valid() && IsRetained(old(Now()), p, generation, previous, next, current, now, listing)
      ensures (Now(), result) == Retain(old(Now()), p, generation, previous, next, current, now, listing, w)
    {
      listing := [];
      var k := Admit(p, generation, previous, next);
      if k < 0 {
        return Err(RenewalRecoveryRequired), listing;
      }
      var leases := KeepLeases(records[k].leases, previous, next, current, now);
      var first := Conflicts(leases, previous);
      var second := Conflicts(leases, next);
      if first || second {
        return Err(RenewalRecoveryRequired), listing;
      }
      leases := leases[previous.leaseId := previous][next.leaseId := next];
      if |leases| > 256 {
        return Err(RenewalRecoveryRequired), listing;
      }
      var sorted := Listing(leases);
      listing := sorted;
      var extended := Extended(records[k], sorted);
      var ok := Replace(k, extended, w);
      return if ok then Ok(()) else Err(StorageUnavailable), listing;
    }

    /** The record with other leases, expiring no earlier than any of them. */
    static method Extended(r: Record, ls: seq<Lease>) returns (r': Record)
      ensures r' == r.(leases := ls, expires := Some(LastActive(ls, Later(r.expires))))
    {
      var expires := LastOf(ls, if r.expires.Some? then r.expires.value else 0);
      return r.(leases := ls, expires := Some(expires));
    }

    static method Conflicts(leases: map<string, Lease>, l: Lease) returns (conflict: bool)
      ensures conflict <==> Rebinds(leases, l)
    {
      return l.leaseId in leases && leases[l.leaseId] != l;
    }

    static method LastOf(ls: seq<Lease>, from: int) returns (last: int)
      ensures last == LastActive(ls, from)
    {
      last := from;
      for k := 0 to |ls|
        invariant last == LastActive(ls[..k], from)
      {
        assert ls[..k + 1][..k] == ls[..k];
        if ls[k].activeFlowsUntil > last {
          last := ls[k].activeFlowsUntil;
        }
      }
      assert ls[..|ls|] == ls;
    }

    /** The index of the record that may take over the renewal, or -1. */
    method Admit(p: string, generation: string, previous: Lease, next: Lease) returns (k: int)
      requires Valid()
      ensures -1 <= k < |records|
      ensures k >= 0 <==> RetainAdmitted(Now(), p, generation, previous, next)
      ensures k >= 0 ==> records[k].profile == p && Book(records)[p] == records[k]
    {
      if (if p in live then live[p] else "") != generation || previous.leaseId == next.leaseId ||
         !Follows(next, previous) {
        return -1;
      }
      k := FindWorker(p, generation);
      if k >= 0 && (!records[k].pending || records[k].action != NoAction || records[k].withdrawn ||
                    next.runtimeScope in records[k].scopes) {
        k := -1;
      }
    }

    method RestrictProfile(p: string, generation: string, reason: string, w: Write)
      requires Valid()
      modifies this`records, this`disk
      ensures Valid() && Now() == Restrict(old(Now()), p, generation, reason, w)
    {
      var k := FindWorker(p, generation);
      if k >= 0 {
        var record := records[k];
        if reason == "catalog_disabled" {
          record := record.(withdrawn := true);
        }
        if reason != "issuance_disabled" {
          record := record.(action := Terminate);
        } else if record.action == NoAction {
          record := record.(action := Drain);
        }
        Put(k, record);
        var _ := WriteLocked(w);
      }
    }

    method RestrictOneScope(p: string, generation: string, scope: string, action: Action, w: Write)
      requires Valid()
      modifies this`records, this`disk, this`unsettled
      ensures Valid() && Now() == RestrictScope(old(Now()), p, generation, scope, action, w)
    {
      var k := FindWorker(p, generation);
      if k >= 0 {
        var record := records[k];
        if scope !in record.scopes && |record.scopes| >= 256 {
          unsettled := unsettled + {p};
          return;
        }
        if scope !in record.scopes || record.scopes[scope] != Terminate {
          record := record.(scopes := record.scopes[scope := action]);
        }
        Put(k, record);
        var _ := WriteLocked(w);
      }
    }

    method FinishWorker(p: string, generation: string, w: Write)
      requires Valid()
      modifies this`records, this`disk, this`live
      ensures Valid() && Now() == Finish(old(Now()), p, generation, w)
    {
      if (if p in live then live[p] else "") != generation {
        return;
      }
      live := live - {p};
      var k := Find(p, None);
      BookLookup(records, p, k);
      if k >= 0 {
        Put(k, records[k].(pending := p in unsettled));
        var _ := WriteLocked(w);
      }
    }

    method SnapshotLocked(readable: bool, w: Write, fits: bool) returns (result: Result<map<string, Entry>, Error>)
      requires Valid()
      modifies this`loaded, this`records, this`disk
      ensures Valid() && (Now(), result) == Snapshot(old(Now()), readable, w, fits)
    {
      var ok := LoadLocked(readable);
      if !ok {
        return Err(StorageInvalid);
      }
      ok := WriteLocked(w);
      if !ok {
        return Err(StorageUnavailable);
      }
      if !fits {
        return Err(StorageInvalid);
      }
      var entries := Export();
      return Ok(entries);
    }

    method Export() returns (entries: map<string, Entry>)
      requires Valid()
      ensures entries == Exported(Now())
    {
      entries := ExportList(records, live);
      ExportedList(Now(), records, entries);
    }

    /** Split the list into the records of live workers and the profiles of the others. */
    method Partition() returns (retained: seq<Record>, settled: set<string>)
      requires Valid()
      ensures DistinctProfiles(retained) && Book(retained) == LiveRecords(Now())
      ensures settled == Settled(Now())
    {
      var workers := live;
      var alive := (r: Record) => (if r.profile in workers then workers[r.profile] else "") == r.generation;
      retained, settled := Split(records, alive);
      PartitionIs(records, retained, settled, Now(), alive);
    }

    static method Split(rs: seq<Record>, alive: Record -> bool) returns (kept: seq<Record>, dropped: set<string>)
      requires DistinctProfiles(rs)
      ensures DistinctProfiles(kept) && forall r :: r in kept <==> r in rs && alive(r)
      ensures dropped == set i | 0 <= i < |rs| && !alive(rs[i]) :: rs[i].profile
    {
      kept, dropped := [], {};
      for k := 0 to |rs|
        invariant DistinctProfiles(kept)
        invariant forall r :: r in kept <==> r in rs[..k] && alive(r)
        invariant dropped == set i | 0 <= i < k && !alive(rs[i]) :: rs[i].profile
      {
        assert rs[..k + 1] == rs[..k] + [rs[k]];
        if alive(rs[k]) {
          assert forall r :: r in kept ==> r.profile != rs[k].profile;
          kept := kept + [rs[k]];
        } else {
          dropped := dropped + {rs[k].profile};
        }
      }
      assert rs[..|rs|] == rs;
    }

    method Acknowledge(named: Option<map<string, Entry>>, readable: bool, w: Write, fits: bool, w': Write)
      returns (result: Result<bool, Error>)
      requires Valid()
      modifies this
      ensures Valid() && (Now(), result) == RestrictionJournal.Acknowledge(old(Now()), named, readable, w, fits, w')
    {
      if named.None? {
        return Err(AckInvalid);
      }
      var current := SnapshotLocked(readable, w, fits);
      if current.Err? {
        return Err(current.error);
      }
      if current.value != named.value {
        return Ok(false);
      }
      var previous := records;
      var retained, settled := Partition();
      records := retained;
      var ok := WriteLocked(w');
      if !ok {
        records := previous;
        return Err(StorageUnavailable);
      }
      unsettled := unsettled - settled;
      return Ok(true);
    }
  }

  lemma ExtendReplaces(s: State, p: string, generation: string, expires: int, w: Write)
    requires LiveOf(s, p) == generation && Owns(s.records, p, generation) && expires > Later(s.records[p].expires)
    ensures var replaced := s.(records := s.records[p := s.records[p].(expires := Some(expires))]);
            Extend(s, p, generation, expires, w) ==
            if Commit(s, w).1 then (Commit(replaced, w).0, Ok(())) else (s, Err(StorageUnavailable))
  {
  }

  lemma PartitionIs(rs: seq<Record>, retained: seq<Record>, settled: set<string>, t: State, alive: Record -> bool)
    requires DistinctProfiles(rs) && DistinctProfiles(retained) && t.records == Book(rs)
    requires forall r :: alive(r) <==> LiveOf(t, r.profile) == r.generation
    requires forall r :: r in retained <==> r in rs && alive(r)
    requires settled == set i | 0 <= i < |rs| && !alive(rs[i]) :: rs[i].profile
    ensures Book(retained) == LiveRecords(t) && settled == Settled(t)
  {
    forall i | 0 <= i < |rs| ensures rs[i].profile in t.records && (IsLive(t, rs[i].profile) <==> alive(rs[i])) {
      BookLookup(rs, rs[i].profile, i);
    }
    RetainedBook(rs, retained, t);
    forall p ensures p in settled <==> p in Settled(t) {
      SettledAt(rs, settled, t, alive, p);
    }
  }

  lemma SettledAt(rs: seq<Record>, settled: set<string>, t: State, alive: Record -> bool, p: string)
    requires DistinctProfiles(rs) && t.records == Book(rs)
    requires forall i :: 0 <= i < |rs| ==> rs[i].profile in t.records && (IsLive(t, rs[i].profile) <==> alive(rs[i]))
    requires settled == set i | 0 <= i < |rs| && !alive(rs[i]) :: rs[i].profile
    ensures p in settled <==> p in Settled(t)
  {
    if i :| 0 <= i < |rs| && rs[i].profile == p {
      BookLookup(rs, p, i);
      assert forall j :: 0 <= j < |rs| && rs[j].profile == p ==> j == i;
    } else {
      BookLookup(rs, p, -1);
    }
  }

  lemma RetainedBook(previous: seq<Record>, retained: seq<Record>, t: State)
    requires DistinctProfiles(previous) && DistinctProfiles(retained) && t.records == Book(previous)
    requires forall r :: r in retained <==> r in previous && IsLive(t, r.profile)
    ensures Book(retained) == LiveRecords(t)
  {
    var a, b := Book(retained), LiveRecords(t);
    forall p ensures p in a <==> p in b
      ensures p in a ==> a[p] == b[p]
    {
      RetainedBookAt(previous, retained, t, p);
    }
    SameTable(a, b);
  }

  lemma RetainedBookAt(previous: seq<Record>, retained: seq<Record>, t: State, p: string)
    requires DistinctProfiles(previous) && DistinctProfiles(retained) && t.records == Book(previous)
    requires forall r :: r in retained <==> r in previous && IsLive(t, r.profile)
    ensures p in Book(retained) <==> p in t.records && IsLive(t, p)
    ensures p in Book(retained) ==> Book(retained)[p] == t.records[p]
  {
    if i :| 0 <= i < |retained| && retained[i].profile == p {
      assert retained[i] in retained;
      var j :| 0 <= j < |previous| && previous[j] == retained[i];
      BookLookup(retained, p, i);
      BookLookup(previous, p, j);
    } else {
      BookLookup(retained, p, -1);
      if j :| 0 <= j < |previous| && previous[j].profile == p {
        BookLookup(previous, p, j);
        assert previous[j] !in retained;
      } else {
        BookLookup(previous, p, -1);
      }
    }
  }
}
