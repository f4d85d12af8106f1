/** The check that ties a promotion request to the lease gate of the running configuration. */
module LinuxLease {
  import opened Wrappers
  import opened Json

  const GATE := "pokrov-ats"
  const UPSTREAM := "pokrov-ats-upstream"
  const HOUR := 3_600_000
  const MINUTE := 60_000

  /** A limit that is ahead of the boot clock, by an hour at most. */
  predicate WithinHour(elapsed: int, limit: int) {
    elapsed < limit <= elapsed + HOUR
  }

  datatype Claim = Claim(leaseId: string, issuedAt: string, newFlowsUntil: string, activeFlowsUntil: string)

  /**
   Milliseconds. `stamp` reads a time stamp; `now` and `later` are two readings of the wall
   clock, `later` rounded up, and `elapsed` one of the boot clock, None if it fails.
   */
  datatype Clocks = Clocks(stamp: string -> Option<int>, now: int, later: int, elapsed: Option<int>)

  /** The three stamps are in order, the lease is open to new flows now, and lasts an hour at most. */
  predicate Open(issued: int, newUntil: int, activeUntil: int, now: int) {
    && issued <= now < newUntil <= activeUntil
    && issued < newUntil <= issued + 10 * MINUTE
    && activeUntil <= issued + HOUR
  }

  predicate Stamped(claim: Claim, clocks: Clocks) {
    && clocks.stamp(claim.issuedAt).Some? && clocks.stamp(claim.newFlowsUntil).Some?
    && clocks.stamp(claim.activeFlowsUntil).Some?
    && Open(clocks.stamp(claim.issuedAt).value, clocks.stamp(claim.newFlowsUntil).value,
            clocks.stamp(claim.activeFlowsUntil).value, clocks.now)
  }

  predicate IsGate(row: Value, claim: Claim) {
    var o := Entries(row);
    && TextAt(o, "type") == "pokrov-ats-lease"
    && TextAt(o, "upstream_tag") == UPSTREAM
    && TextAt(o, "lease_id") == claim.leaseId
    && TextAt(o, "issued_at") == claim.issuedAt
    && TextAt(o, "new_flows_until") == claim.newFlowsUntil
    && TextAt(o, "active_flows_until") == claim.activeFlowsUntil
  }

  predicate IsUpstream(row: Value) {
    TextAt(Entries(row), "type") == "vless"
  }

  function RowTag(row: Value): string {
    TextAt(Entries(row), "tag")
  }

  predicate Alone(tags: seq<string>, tag: string, i: nat) {
    i < |tags| && tags[i] == tag && forall j :: 0 <= j < |tags| && tags[j] == tag ==> j == i
  }

  /** Exactly one row carries the tag. */
  predicate Sole(tags: seq<string>, tag: string) {
    exists i :: 0 <= i < |tags| && Alone(tags, tag, i)
  }

  function Count(tags: seq<string>, tag: string): nat {
    if |tags| == 0 then 0 else Count(tags[..|tags| - 1], tag) + if tags[|tags| - 1] == tag then 1 else 0
  }

  lemma {:induction false} CountZero(tags: seq<string>, tag: string)
    ensures Count(tags, tag) == 0 <==> tag !in tags
  {
    if |tags| == 0 {
    } else {
      var front := tags[..|tags| - 1];
      CountZero(front, tag);
      assert tags == front + [tags[|tags| - 1]];
    }
  }

  lemma {:induction false} CountedIsAlone(tags: seq<string>, tag: string) returns (i: nat)
    requires Count(tags, tag) == 1
    ensures Alone(tags, tag, i)
  {
    var front, last := tags[..|tags| - 1], |tags| - 1;
    if tags[last] == tag {
      CountZero(front, tag);
      assert forall j :: 0 <= j < last ==> tags[j] == front[j];
      i := last;
    } else {
      i := CountedIsAlone(front, tag);
    }
  }

  lemma {:induction false} AloneIsCounted(tags: seq<string>, tag: string, i: nat)
    requires Alone(tags, tag, i)
    ensures Count(tags, tag) == 1
  {
    var front, last := tags[..|tags| - 1], |tags| - 1;
    if i == last {
      CountZero(front, tag);
      assert forall j :: 0 <= j < last ==> tags[j] == front[j];
    } else {
      AloneIsCounted(front, tag, i);
    }
  }

  /** Counting to one is being alone. */
  lemma CountOne(tags: seq<string>, tag: string)
    ensures Count(tags, tag) == 1 <==> Sole(tags, tag)
  {
    if Count(tags, tag) == 1 {
      var i := CountedIsAlone(tags, tag);
    } else if Sole(tags, tag) {
      var i :| 0 <= i < |tags| && Alone(tags, tag, i);
      AloneIsCounted(tags, tag, i);
    }
  }

  function Tags(rows: seq<Value>): seq<string> {
    seq(|rows|, i requires 0 <= i < |rows| => RowTag(rows[i]))
  }

  /** A row that claims one of the two tags is what the tag stands for. */
  predicate RowFits(row: Value, claim: Claim) {
    (RowTag(row) == GATE ==> IsGate(row, claim)) && (RowTag(row) == UPSTREAM ==> IsUpstream(row))
  }

  /** The configuration has one gate, for exactly this lease, and one upstream behind it. */
  predicate Gated(rows: seq<Value>, claim: Claim) {
    && Sole(Tags(rows), GATE) && Sole(Tags(rows), UPSTREAM)
    && forall i :: 0 <= i < |rows| ==> RowFits(rows[i], claim)
  }

  /** One row: its tag, and whether it is what the tag stands for. */
  method ReadRow(row: Value, claim: Claim) returns (tag: string, fits: bool)
    ensures tag == RowTag(row) && (fits <==> RowFits(row, claim))
  {
    var o := Entries(row);
    tag, fits := TextAt(o, "tag"), true;
    match tag {
      case "pokrov-ats" =>
        if TextAt(o, "type") != "pokrov-ats-lease" || TextAt(o, "upstream_tag") != "pokrov-ats-upstream" ||
           TextAt(o, "lease_id") != claim.leaseId || TextAt(o, "issued_at") != claim.issuedAt ||
           TextAt(o, "new_flows_until") != claim.newFlowsUntil ||
           TextAt(o, "active_flows_until") != claim.activeFlowsUntil {
          fits := false;
        }
      case "pokrov-ats-upstream" => fits := TextAt(o, "type") == "vless";
      case _ =>
    }
  }

  /** The stamps of a claim: all readable, in order, open now and not too long. */
  method CheckStamps(claim: Claim, clocks: Clocks) returns (ok: bool)
    ensures ok <==> Stamped(claim, clocks)
  {
    var issued := clocks.stamp(claim.issuedAt);
    var newUntil := clocks.stamp(claim.newFlowsUntil);
    var activeUntil := clocks.stamp(claim.activeFlowsUntil);
    if issued.None? || newUntil.None? || activeUntil.None? {
      return false;
    }
    var i, n, a := issued.value, newUntil.value, activeUntil.value;
    return !(clocks.now < i || clocks.now >= n || n <= i || a < n || n - i > 10 * 60 * 1000 || a - i > 60 * 60 * 1000);
  }

  method CountRows(rows: seq<Value>, claim: Claim) returns (ok: bool)
    ensures ok <==> Gated(rows, claim)
  {
    var gate, upstream := 0, 0;
    ghost var tags := Tags(rows);
    for i := 0 to |rows|
      invariant gate == Count(tags[..i], GATE) && upstream == Count(tags[..i], UPSTREAM)
      invariant forall j :: 0 <= j < i ==> RowFits(rows[j], claim)
    {
      assert tags[..i + 1][..i] == tags[..i];
      var tag, fits := ReadRow(rows[i], claim);
      if !fits {
        return false;
      }
      if tag == "pokrov-ats" {
        gate := gate + 1;
      } else if tag == "pokrov-ats-upstream" {
        upstream := upstream + 1;
      }
    }
    assert tags[..|rows|] == tags;
    CountOne(tags, GATE);
    CountOne(tags, UPSTREAM);
    return gate == 1 && upstream == 1;
  }

  /**
   The boot-clock limit of a promotion: at most an hour ahead, never behind, and only for a lease
   that the configuration gates and that is open now.
   */
  method LeaseDeadline(root: Fields, claim: Claim, wellFormed: bool, clocks: Clocks) returns (limit: Option<int>)
    ensures limit.Some? <==>
              && wellFormed && Stamped(claim, clocks)
              && ListAt(root, "outbounds").Some?
              && (forall i :: 0 <= i < |ListAt(root, "outbounds").value| ==>
                    Dictionary(ListAt(root, "outbounds").value[i]))
              && Gated(ListAt(root, "outbounds").value, claim)
              && clocks.elapsed.Some?
              && 0 < clocks.stamp(claim.activeFlowsUntil).value - clocks.later <= 60 * 60 * 1000
    ensures limit.Some? ==>
              && limit.value - clocks.elapsed.value == clocks.stamp(claim.activeFlowsUntil).value - clocks.later
              && WithinHour(clocks.elapsed.value, limit.value)
  {
    var stamps := CheckStamps(claim, clocks);
    if !wellFormed || !stamps {
      return None;
    }
    var rows := ListAt(root, "outbounds");
    if rows.None? || exists i :: 0 <= i < |rows.value| && !Dictionary(rows.value[i]) {
      return None;
    }
    var ok := CountRows(rows.value, claim);
    if !ok || clocks.elapsed.None? {
      return None;
    }
    var remaining := clocks.stamp(claim.activeFlowsUntil).value - clocks.later;
    if remaining <= 0 || remaining > 3_600_000 {
      return None;
    }
    return Some(clocks.elapsed.value + remaining);
  }
}
