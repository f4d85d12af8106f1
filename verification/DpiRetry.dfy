/** Preparing a retry of every Windows-direct holder of a running service at once. */
module DpiRetry {
  import opened Wrappers

  const MAXIMUM_IDS := 256

  /** A running outbound; `direct` marks the Windows-direct holders. */
  datatype Holder = Holder(direct: bool, admissionId: string, handle: int)

  datatype Outcome = Refused | Unavailable | Replace(holders: seq<Holder>)

  /** The holders that a retry must name, in the order of the outbound list. */
  function Direct(outbounds: seq<Holder>): seq<Holder> {
    if |outbounds| == 0 then []
    else
      var last := outbounds[|outbounds| - 1];
      Direct(outbounds[..|outbounds| - 1]) + if last.direct then [last] else []
  }

  function AdmissionIds(holders: seq<Holder>): seq<string> {
    seq(|holders|, i requires 0 <= i < |holders| => holders[i].admissionId)
  }

  predicate Distinct(ids: seq<string>) {
    forall i, j :: 0 <= i < j < |ids| ==> ids[i] != ids[j]
  }

  predicate WellFormed(ids: seq<string>, pattern: string -> bool) {
    |ids| <= MAXIMUM_IDS && Distinct(ids) && forall i :: 0 <= i < |ids| ==> pattern(ids[i])
  }

  predicate Permutes(a: seq<string>, b: seq<string>) {
    multiset(a) == multiset(b)
  }

  // --------------------------------------------------------------- pigeonhole

  lemma {:induction false} DistinctCount(ids: seq<string>, id: string)
    requires Distinct(ids)
    ensures multiset(ids)[id] <= 1
  {
    if |ids| == 0 {
    } else {
      var front := ids[..|ids| - 1];
      DistinctCount(front, id);
      assert ids == front + [ids[|ids| - 1]];
      if id == ids[|ids| - 1] {
        assert id !in front;
        assert id !in multiset(front);
      }
    }
  }

  /** Two lists without repetitions and with the same members are permutations. */
  lemma SameMembersPermute(a: seq<string>, b: seq<string>)
    requires Distinct(a) && Distinct(b)
    requires forall id :: id in a <==> id in b
    ensures Permutes(a, b)
  {
    forall id ensures multiset(a)[id] == multiset(b)[id] {
      DistinctCount(a, id);
      DistinctCount(b, id);
      assert (id in a <==> id in multiset(a)) && (id in b <==> id in multiset(b));
    }
  }

  /** As many distinct members of a list as it is long are all of them. */
  lemma {:induction false} Pigeonhole(some: seq<string>, all: seq<string>)
    requires Distinct(some) && |some| == |all|
    requires forall id :: id in some ==> id in all
    ensures forall id :: id in all ==> id in some
    ensures Distinct(all)
  {
    if |some| == 0 {
    } else {
      var first := some[0];
      assert first in some;
      var k :| 0 <= k < |all| && all[k] == first;
      var rest, others := some[1..], all[..k] + all[k + 1..];
      forall id | id in rest ensures id in others {
        assert id in some && id != first;
        var m :| 0 <= m < |all| && all[m] == id;
        assert if m < k then others[m] == id else others[m - 1] == id;
      }
      Pigeonhole(rest, others);
      forall id | id in all ensures id in some {
        var m :| 0 <= m < |all| && all[m] == id;
        if m != k {
          assert if m < k then others[m] == id else others[m - 1] == id;
          assert id in rest;
        }
      }
      forall i, j | 0 <= i < j < |all| ensures all[i] != all[j] {
        DistinctAround(all, k, rest, others, i, j);
      }
    }
  }

  lemma DistinctAround(all: seq<string>, k: nat, rest: seq<string>, others: seq<string>, i: nat, j: nat)
    requires k < |all| && others == all[..k] + all[k + 1..] && Distinct(others)
    requires all[k] !in rest && forall id :: id in others ==> id in rest
    requires i < j < |all|
    ensures all[i] != all[j]
  {
    var i', j' := if i < k then i else i - 1, if j < k then j else j - 1;
    if i == k {
      assert others[j'] == all[j];
    } else if j == k {
      assert others[i'] == all[i];
    } else {
      assert others[i'] == all[i] && others[j'] == all[j];
    }
  }

  // -------------------------------------------------------------- the program

  /** Slots are filled by exactly the holders seen so far, each in the slot of its id. */
  predicate Filled(ids: seq<string>, seen: seq<Holder>, slots: seq<Option<Holder>>) {
    && |slots| == |ids|
    && Distinct(AdmissionIds(seen))
    && (forall i :: 0 <= i < |slots| && slots[i].Some? ==>
        slots[i].value in seen && slots[i].value.admissionId == ids[i])
    && (forall k :: 0 <= k < |seen| ==> exists i :: 0 <= i < |slots| && slots[i] == Some(seen[k]))
  }

  method IndexIds(ids: seq<string>, pattern: string -> bool) returns (indexes: Option<map<string, nat>>)
    requires |ids| <= MAXIMUM_IDS
    ensures indexes.Some? <==> WellFormed(ids, pattern)
    ensures indexes.Some? ==> forall id :: id in indexes.value <==> id in ids
    ensures indexes.Some? ==>
              forall id :: id in indexes.value ==> indexes.value[id] < |ids| && ids[indexes.value[id]] == id
  {
    var found: map<string, nat> := map[];
    for i := 0 to |ids|
      invariant forall j :: 0 <= j < i ==> pattern(ids[j])
      invariant Distinct(ids[..i])
      invariant forall id :: id in found <==> id in ids[..i]
      invariant forall id :: id in found ==> found[id] < i && ids[found[id]] == id
    {
      if !pattern(ids[i]) {
        return None;
      }
      if ids[i] in found {
        assert ids[found[ids[i]]] == ids[i];
        return None;
      }
      assert ids[..i + 1] == ids[..i] + [ids[i]];
      found := found[ids[i] := i];
    }
    assert ids[..|ids|] == ids;
    return Some(found);
  }

  lemma FillOne(ids: seq<string>, seen: seq<Holder>, slots: seq<Option<Holder>>, holder: Holder, i: nat)
    requires Filled(ids, seen, slots) && i < |ids| && ids[i] == holder.admissionId && slots[i].None? && Distinct(ids)
    ensures Filled(ids, seen + [holder], slots[i := Some(holder)])
  {
    var more, after := seen + [holder], slots[i := Some(holder)];
    forall k | 0 <= k < |seen| ensures seen[k].admissionId != holder.admissionId {
      var m :| 0 <= m < |slots| && slots[m] == Some(seen[k]);
      assert ids[m] == seen[k].admissionId && m != i;
    }
    assert forall k :: 0 <= k < |seen| ==> AdmissionIds(more)[k] == AdmissionIds(seen)[k] == seen[k].admissionId;
    forall k | 0 <= k < |more| ensures exists m :: 0 <= m < |after| && after[m] == Some(more[k]) {
      if k < |seen| {
        var m :| 0 <= m < |slots| && slots[m] == Some(seen[k]);
        assert after[m] == Some(more[k]);
      } else {
        assert after[i] == Some(more[k]);
      }
    }
  }

  /** A holder that has no free slot belongs to a service the ids do not describe. */
  lemma NoSlot(ids: seq<string>, seen: seq<Holder>, slots: seq<Option<Holder>>, holder: Holder, rest: seq<Holder>)
    requires Filled(ids, seen, slots)
    requires holder.admissionId !in ids || exists i :: 0 <= i < |ids| && ids[i] == holder.admissionId && slots[i].Some?
    requires Distinct(ids)
    ensures !Permutes(AdmissionIds(seen + [holder] + rest), ids)
  {
    var all := seen + [holder] + rest;
    var held := AdmissionIds(all);
    assert held[|seen|] == holder.admissionId;
    if holder.admissionId !in ids {
      assert holder.admissionId in multiset(held) && holder.admissionId !in multiset(ids);
    } else {
      var i :| 0 <= i < |ids| && ids[i] == holder.admissionId && slots[i].Some?;
      var k :| 0 <= k < |seen| && seen[k] == slots[i].value;
      assert held[k] == holder.admissionId;
      DistinctCount(ids, holder.admissionId);
      TwiceCounts(held, k, |seen|);
    }
  }

  lemma TwiceCounts(ids: seq<string>, i: nat, j: nat)
    requires i < j < |ids| && ids[i] == ids[j]
    ensures multiset(ids)[ids[i]] >= 2
  {
    assert ids == ids[..j] + ids[j..];
    assert ids[i] in multiset(ids[..j]) by { assert ids[..j][i] == ids[i]; }
    assert ids[i] in multiset(ids[j..]) by { assert ids[j..][0] == ids[i]; }
  }

  /** All slots are filled exactly when as many holders were seen as there are ids. */
  lemma AllFilled(ids: seq<string>, seen: seq<Holder>, slots: seq<Option<Holder>>)
    requires Filled(ids, seen, slots) && Distinct(ids)
    ensures |seen| == |ids| <==> Permutes(AdmissionIds(seen), ids)
    ensures |seen| == |ids| ==> forall i :: 0 <= i < |slots| ==> slots[i].Some?
  {
    var held := AdmissionIds(seen);
    if |seen| == |ids| {
      SeenIsNamed(ids, seen, slots);
      Pigeonhole(held, ids);
      SameMembersPermute(held, ids);
      forall i | 0 <= i < |slots| ensures slots[i].Some? {
        assert ids[i] in ids;
        NamedIsFilled(ids, seen, slots, i);
      }
    } else if Permutes(held, ids) {
      assert |multiset(held)| == |held| && |multiset(ids)| == |ids|;
    }
  }

  lemma SeenIsNamed(ids: seq<string>, seen: seq<Holder>, slots: seq<Option<Holder>>)
    requires Filled(ids, seen, slots)
    ensures forall id :: id in AdmissionIds(seen) ==> id in ids
  {
    var held := AdmissionIds(seen);
    forall id | id in held ensures id in ids {
      var k :| 0 <= k < |held| && held[k] == id;
      var i :| 0 <= i < |slots| && slots[i] == Some(seen[k]);
      assert ids[i] == id;
    }
  }

  lemma NamedIsFilled(ids: seq<string>, seen: seq<Holder>, slots: seq<Option<Holder>>, i: nat)
    requires Filled(ids, seen, slots) && Distinct(ids) && i < |ids| && ids[i] in AdmissionIds(seen)
    ensures slots[i].Some?
  {
    var held := AdmissionIds(seen);
    var k :| 0 <= k < |held| && held[k] == ids[i];
    var m :| 0 <= m < |slots| && slots[m] == Some(seen[k]);
    assert ids[m] == ids[i];
  }

  method FillSlots(ids: seq<string>, indexes: map<string, nat>, outbounds: seq<Holder>)
    returns (slots: Option<seq<Option<Holder>>>)
    requires Distinct(ids)
    requires forall id :: id in indexes <==> id in ids
    requires forall id :: id in indexes ==> indexes[id] < |ids| && ids[indexes[id]] == id
    ensures slots.Some? <==> Permutes(AdmissionIds(Direct(outbounds)), ids)
    ensures slots.Some? ==>
              Filled(ids, Direct(outbounds), slots.value) && forall i :: 0 <= i < |ids| ==> slots.value[i].Some?
  {
    var filled: seq<Option<Holder>> := seq(|ids|, i => None);
    var count := 0;
    for n := 0 to |outbounds|
      invariant count == |Direct(outbounds[..n])|
      invariant Filled(ids, Direct(outbounds[..n]), filled)
    {
      assert outbounds[..n + 1][..n] == outbounds[..n];
      var holder := outbounds[n];
      if holder.direct {
        count := count + 1;
        if holder.admissionId !in indexes || filled[indexes[holder.admissionId]].Some? {
          var rest := DirectSplit(outbounds, n);
          NoSlot(ids, Direct(outbounds[..n]), filled, holder, rest);
          return None;
        }
        FillOne(ids, Direct(outbounds[..n]), filled, holder, indexes[holder.admissionId]);
        filled := filled[indexes[holder.admissionId] := Some(holder)];
      } else {
        assert Direct(outbounds[..n + 1]) == Direct(outbounds[..n]);
      }
    }
    assert outbounds[..|outbounds|] == outbounds;
    AllFilled(ids, Direct(outbounds), filled);
    return if count == |ids| then Some(filled) else None;
  }

  lemma {:induction false} DirectSplit(outbounds: seq<Holder>, n: nat) returns (rest: seq<Holder>)
    requires n < |outbounds| && outbounds[n].direct
    ensures Direct(outbounds) == Direct(outbounds[..n]) + [outbounds[n]] + rest
  {
    var last := |outbounds| - 1;
    if n == last {
      rest := [];
    } else {
      var front := outbounds[..last];
      var shorter := DirectSplit(front, n);
      assert front[..n] == outbounds[..n];
      rest := shorter + if outbounds[last].direct then [outbounds[last]] else [];
    }
  }

  /**
   The replacement is reached exactly when the ids are well formed, the service runs, and they
   are a permutation of the ids of all its Windows-direct holders; every slot then holds the
   holder of its id.
   */
  method PrepareRetry(ids: seq<string>, pattern: string -> bool, running: bool, outbounds: seq<Holder>)
    returns (outcome: Outcome)
    ensures outcome.Replace? <==> WellFormed(ids, pattern) && running && Permutes(AdmissionIds(Direct(outbounds)), ids)
    ensures outcome.Unavailable? <==> WellFormed(ids, pattern) && !running
    ensures outcome.Replace? ==>
              && AdmissionIds(outcome.holders) == ids
              && forall i :: 0 <= i < |ids| ==> outcome.holders[i] in outbounds && outcome.holders[i].direct
  {
    if |ids| > MAXIMUM_IDS {
      return Refused;
    }
    var indexes := IndexIds(ids, pattern);
    if indexes.None? {
      return Refused;
    }
    if !running {
      return Unavailable;
    }
    var slots := FillSlots(ids, indexes.value, outbounds);
    if slots.None? {
      return Refused;
    }
    var holders := seq(|ids|, i requires 0 <= i < |ids| => slots.value[i].value);
    forall i | 0 <= i < |ids| ensures holders[i] in outbounds && holders[i].direct && holders[i].admissionId == ids[i] {
      DirectMember(outbounds, holders[i]);
    }
    return Replace(holders);
  }

  lemma {:induction false} DirectMember(outbounds: seq<Holder>, holder: Holder)
    requires holder in Direct(outbounds)
    ensures holder in outbounds && holder.direct
  {
    var front := outbounds[..|outbounds| - 1];
    if holder in Direct(front) {
      DirectMember(front, holder);
    }
  }
}
