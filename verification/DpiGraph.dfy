/**
 Which outbounds of a profile are protected VPNs. The check walks the outbound
 graph with a set of tags being visited, added on entry and removed on return;
 it decides the least fixpoint of "acceptable by itself, and everything it sends
 through is protected".
 */
module DpiGraph {
  import opened Wrappers
  import opened Json

  type Graph = map<string, Fields>

  /** The per-protocol checks of other packages. */
  datatype Checks = Checks(
    slipstream: (Fields, Fields) -> bool,
    dnstt: (Fields, Fields) -> bool,
    naive: Fields -> bool)

  function TypeOf(g: Graph, tag: string): string {
    if tag in g then TextAt(g[tag], "type") else ""
  }

  /** TLS is enabled and verified. */
  predicate VerifiedTls(o: Fields) {
    "tls" in o && o["tls"].Object? &&
    FlagAt(o["tls"].fields, "enabled") == Some(true) && FlagAt(o["tls"].fields, "insecure") == Some(false)
  }

  /**
   What the outbound demands by its own type: None when it is refused outright,
   otherwise the further tags that must be protected.
   */
  function OwnDemand(c: Checks, o: Fields): Option<seq<string>> {
    match TextAt(o, "type")
    case "naive" => if c.naive(o) then Some([]) else None
    case "vless" => if VerifiedTls(o) then Some([]) else None
    case "hysteria2" => Some([])
    case "wireguard" => Some([])
    case "awg" => Some([])
    case "pokrov-ats-lease" => Some([TextAt(o, "upstream_tag")])
    case "selector" => Children(o)
    case "urltest" => Children(o)
    case _ => None
  }

  function Children(o: Fields): Option<seq<string>> {
    var children := TextsAt(o, "outbounds");
    if children.Some? && |children.value| > 0 then children else None
  }

  predicate Carried(g: Graph, o: Fields, carrier: string) {
    TextAt(o, "detour") != "" && TextAt(o, "type") == "vless" && TypeOf(g, TextAt(o, "detour")) == carrier
  }

  /** The tags that must be protected for this one to be; None when it cannot be. */
  function Demand(g: Graph, c: Checks, tag: string): Option<seq<string>> {
    if tag !in g then None
    else
      var o := g[tag];
      var detour := TextAt(o, "detour");
      if Carried(g, o, "slipstream") then (if c.slipstream(o, g[detour]) then Some([]) else None)
      else if Carried(g, o, "dnstt") then (if c.dnstt(o, g[detour]) then Some([]) else None)
      else
        var own := OwnDemand(c, o);
        if own.None? then None
        else Some((if detour == "" then [] else [detour]) + own.value)
  }

  // ------------------------------------------------------- the least fixpoint

  /** What each tag needs; None when it is unknown or refused outright. */
  type Need = string -> Option<seq<string>>

  ghost predicate Names(need: Need, known: set<string>) {
    forall tag :: need(tag).Some? ==> tag in known
  }

  /** Protected by a derivation of height at most `n`. */
  ghost predicate Within(need: Need, n: nat, tag: string)
    decreases n
  {
    n > 0 && need(tag).Some? &&
    forall d :: d in need(tag).value ==> Within(need, n - 1, d)
  }

  ghost predicate Protected(need: Need, tag: string) {
    exists n: nat :: Within(need, n, tag)
  }

  ghost predicate Closed(need: Need, s: iset<string>) {
    forall tag :: need(tag).Some? && (forall d :: d in need(tag).value ==> d in s) ==> tag in s
  }

  lemma {:induction false} WithinMonotone(need: Need, m: nat, n: nat, tag: string)
    requires m <= n && Within(need, m, tag)
    ensures Within(need, n, tag)
    decreases n
  {
    forall d | d in need(tag).value ensures Within(need, n - 1, d) {
      WithinMonotone(need, m - 1, n - 1, d);
    }
  }

  lemma {:induction false} CommonHeight(need: Need, tags: seq<string>) returns (n: nat)
    requires forall d :: d in tags ==> Protected(need, d)
    ensures forall d :: d in tags ==> Within(need, n, d)
  {
    n := 0;
    if |tags| == 0 {
    } else {
      var rest := CommonHeight(need, tags[1..]);
      assert tags[0] in tags;
      var first: nat :| Within(need, first, tags[0]);
      n := if first < rest then rest else first;
      forall d | d in tags ensures Within(need, n, d) {
        if d == tags[0] {
          WithinMonotone(need, first, n, d);
        } else {
          assert d in tags[1..];
          WithinMonotone(need, rest, n, d);
        }
      }
    }
  }

  /** `Protected` is a fixpoint of the demand rule, and below every set closed under it. */
  lemma {:induction false} ProtectedIsLeastFixpoint(need: Need, tag: string, s: iset<string>)
    ensures Protected(need, tag) <==>
              need(tag).Some? && forall d :: d in need(tag).value ==> Protected(need, d)
    ensures Closed(need, s) && Protected(need, tag) ==> tag in s
  {
    if Protected(need, tag) {
      var n: nat :| Within(need, n, tag);
      forall d | d in need(tag).value ensures Protected(need, d) {
        assert Within(need, n - 1, d);
      }
      if Closed(need, s) {
        WithinInEveryClosed(need, n, tag, s);
      }
    }
    if need(tag).Some? && forall d :: d in need(tag).value ==> Protected(need, d) {
      var n := CommonHeight(need, need(tag).value);
      assert Within(need, n + 1, tag);
    }
  }

  lemma {:induction false} WithinInEveryClosed(need: Need, n: nat, tag: string, s: iset<string>)
    requires Closed(need, s) && Within(need, n, tag)
    ensures tag in s
    decreases n
  {
    forall d | d in need(tag).value ensures d in s {
      WithinInEveryClosed(need, n - 1, d, s);
    }
  }

  // ---------------------------------------------------------------- the walk

  /** The walk as a function of the visiting set. */
  predicate Accepts(need: Need, known: set<string>, tag: string, visiting: set<string>)
    decreases |known - visiting|
  {
    tag in known && tag !in visiting && need(tag).Some? &&
    (assert known - (visiting + {tag}) == known - visiting - {tag};
     forall d :: d in need(tag).value ==> Accepts(need, known, d, visiting + {tag}))
  }

  lemma {:induction false} AcceptsIsSound(need: Need, known: set<string>, tag: string, visiting: set<string>)
    requires Accepts(need, known, tag, visiting)
    ensures Protected(need, tag)
    decreases |known - visiting|
  {
    assert known - (visiting + {tag}) == known - visiting - {tag};
    forall d | d in need(tag).value ensures Protected(need, d) {
      AcceptsIsSound(need, known, d, visiting + {tag});
    }
    ProtectedIsLeastFixpoint(need, tag, iset{});
  }

  /** No tag being visited has a derivation as low as `n`. */
  ghost predicate AllHigher(need: Need, n: nat, visiting: set<string>) {
    forall v :: v in visiting ==> !Within(need, n, v)
  }

  lemma {:induction false} LowestIsAccepted(need: Need, known: set<string>, n: nat, tag: string, visiting: set<string>)
    requires Names(need, known) && n > 0 && Within(need, n, tag) && !Within(need, n - 1, tag) &&
             AllHigher(need, n, visiting)
    ensures Accepts(need, known, tag, visiting)
    decreases n
  {
    forall v | v in visiting + {tag} ensures !Within(need, n - 1, v) {
      if v != tag && Within(need, n - 1, v) {
        WithinMonotone(need, n - 1, n, v);
      }
    }
    forall d | d in need(tag).value ensures Accepts(need, known, d, visiting + {tag}) {
      var k := LowestHeight(need, n - 1, d);
      forall v | v in visiting + {tag} ensures !Within(need, k, v) {
        if Within(need, k, v) {
          WithinMonotone(need, k, n - 1, v);
        }
      }
      LowestIsAccepted(need, known, k, d, visiting + {tag});
    }
  }

  lemma {:induction false} LowestHeight(need: Need, n: nat, tag: string) returns (k: nat)
    requires Within(need, n, tag)
    ensures 0 < k <= n && Within(need, k, tag) && !Within(need, k - 1, tag)
  {
    if Within(need, n - 1, tag) {
      k := LowestHeight(need, n - 1, tag);
    } else {
      k := n;
    }
  }

  /** Started with nothing being visited, the walk decides exactly the least fixpoint. */
  lemma {:induction false} WalkDecidesProtection(need: Need, known: set<string>, tag: string)
    requires Names(need, known)
    ensures Accepts(need, known, tag, {}) <==> Protected(need, tag)
  {
    if Accepts(need, known, tag, {}) {
      AcceptsIsSound(need, known, tag, {});
    }
    if Protected(need, tag) {
      var n: nat :| Within(need, n, tag);
      var k := LowestHeight(need, n, tag);
      LowestIsAccepted(need, known, k, tag, {});
    }
  }

  // ------------------------------------------------------------------ cycles

  ghost predicate Chain(need: Need, path: seq<string>) {
    forall i :: 0 <= i < |path| - 1 ==> need(path[i]).Some? && path[i + 1] in need(path[i]).value
  }

  lemma {:induction false} HeightsFall(need: Need, path: seq<string>, n: nat)
    requires Chain(need, path) && |path| > 0 && Within(need, n, path[0])
    ensures |path| <= n && Within(need, n - (|path| - 1), path[|path| - 1])
    decreases |path|
  {
    if |path| > 1 {
      var rest := path[1..];
      assert path[1] in need(path[0]).value;
      forall i | 0 <= i < |rest| - 1 ensures need(rest[i]).Some? && rest[i + 1] in need(rest[i]).value {
        assert rest[i] == path[i + 1] && path[(i + 1) + 1] in need(path[i + 1]).value;
      }
      HeightsFall(need, rest, n - 1);
    }
  }

  /** An outbound that sends through itself, at any distance, is never protected. */
  lemma {:induction false} CyclesAreRejected(need: Need, known: set<string>, path: seq<string>)
    requires Names(need, known) && |path| > 1 && Chain(need, path) && path[0] == path[|path| - 1]
    ensures !Protected(need, path[0]) && !Accepts(need, known, path[0], {})
  {
    WalkDecidesProtection(need, known, path[0]);
    if Protected(need, path[0]) {
      var n: nat :| Within(need, n, path[0]);
      var k := LowestHeight(need, n, path[0]);
      HeightsFall(need, path, k);
      WithinMonotone(need, k - (|path| - 1), k - 1, path[0]);
    }
  }

  // ------------------------------------------------- the walk, updating in place

  function NeedOf(g: Graph, c: Checks): Need {
    tag => Demand(g, c, tag)
  }

  /** A profile's outbound is a protected VPN. */
  ghost predicate ProtectedVpn(g: Graph, c: Checks, tag: string) {
    Protected(NeedOf(g, c), tag)
  }

  /** The walk over a profile decides protection, and refuses every cycle. */
  lemma GraphWalk(g: Graph, c: Checks, tag: string)
    ensures Accepts(NeedOf(g, c), g.Keys, tag, {}) <==> ProtectedVpn(g, c, tag)
  {
    assert Names(NeedOf(g, c), g.Keys);
    WalkDecidesProtection(NeedOf(g, c), g.Keys, tag);
  }

  class Walk {
    var visiting: set<string>

    constructor ()
      ensures visiting == {}
    {
      visiting := {};
    }

    /** The visiting set grows on entry and is restored on every return. */
    method ProtectedVpn(g: Graph, c: Checks, tag: string) returns (ok: bool)
      modifies this
      ensures visiting == old(visiting)
      ensures ok <==> Accepts(NeedOf(g, c), g.Keys, tag, visiting)
      decreases |g.Keys - visiting|, 0
    {
      if tag !in g || tag in visiting {
        return false;
      }
      ghost var before := visiting;
      visiting := visiting + {tag};
      assert g.Keys - visiting == g.Keys - before - {tag};
      ok := Examine(g, c, tag);
      visiting := visiting - {tag};
    }

    method Examine(g: Graph, c: Checks, tag: string) returns (ok: bool)
      requires tag in g && tag in visiting
      modifies this
      ensures visiting == old(visiting)
      ensures ok <==>
                && Demand(g, c, tag).Some?
                && forall d :: d in Demand(g, c, tag).value ==> Accepts(NeedOf(g, c), g.Keys, d, visiting)
      decreases |g.Keys - visiting|, 3
    {
      var o := g[tag];
      var detour := TextAt(o, "detour");
      if detour != "" {
        if TextAt(o, "type") == "vless" && TypeOf(g, detour) == "slipstream" {
          return c.slipstream(o, g[detour]);
        }
        if TextAt(o, "type") == "vless" && TypeOf(g, detour) == "dnstt" {
          return c.dnstt(o, g[detour]);
        }
        var through := ProtectedVpn(g, c, detour);
        if !through {
          return false;
        }
      }
      ok := ExamineType(g, c, o);
    }

    /** What the outbound's own type asks for. */
    method ExamineType(g: Graph, c: Checks, o: Fields) returns (ok: bool)
      modifies this
      ensures visiting == old(visiting)
      ensures ok <==>
                && OwnDemand(c, o).Some?
                && forall d :: d in OwnDemand(c, o).value ==> Accepts(NeedOf(g, c), g.Keys, d, visiting)
      decreases |g.Keys - visiting|, 2, 1
    {
      match TextAt(o, "type") {
        case "naive" => return c.naive(o);
        case "vless" =>
          if "tls" !in o || !o["tls"].Object? {
            return false;
          }
          var tls := o["tls"].fields;
          return "enabled" in tls && tls["enabled"] == Bool(true) &&
                 ("insecure" !in tls || tls["insecure"].Null? || tls["insecure"] == Bool(false));
        case "hysteria2" => return true;
        case "wireguard" => return true;
        case "awg" => return true;
        case "pokrov-ats-lease" =>
          ok := ProtectedVpn(g, c, TextAt(o, "upstream_tag"));
        case "selector" => ok := ExamineChildren(g, c, o);
        case "urltest" => ok := ExamineChildren(g, c, o);
        case _ => return false;
      }
    }

    method ExamineChildren(g: Graph, c: Checks, o: Fields) returns (ok: bool)
      modifies this
      ensures visiting == old(visiting)
      ensures ok <==>
                && Children(o).Some?
                && forall d :: d in Children(o).value ==> Accepts(NeedOf(g, c), g.Keys, d, visiting)
      decreases |g.Keys - visiting|, 2, 0
    {
      var children := TextsAt(o, "outbounds");
      if children.None? || |children.value| == 0 {
        return false;
      }
      ok := All(g, c, children.value);
    }

    /** Every listed tag is protected; stops at the first that is not. */
    method All(g: Graph, c: Checks, tags: seq<string>) returns (ok: bool)
      modifies this
      ensures visiting == old(visiting)
      ensures ok <==> forall d :: d in tags ==> Accepts(NeedOf(g, c), g.Keys, d, visiting)
      decreases |g.Keys - visiting|, 1
    {
      for k := 0 to |tags|
        invariant visiting == old(visiting)
        invariant forall i :: 0 <= i < k ==> Accepts(NeedOf(g, c), g.Keys, tags[i], visiting)
      {
        var child := ProtectedVpn(g, c, tags[k]);
        if !child {
          assert tags[k] in tags;
          return false;
        }
      }
      return true;
    }
  }
}
