/**
 Protection read from the profile itself: which outbounds are acceptable by themselves, which tags they lead
 to, and that the walk decides the least set that holds every acceptable outbound leading into it only.
 */
module DpiReading {
  import opened Json
  import opened DpiGraph

  /** TLS is switched on, and certificates are checked. */
  predicate TlsIsVerified(o: Fields) {
    && "tls" in o && o["tls"].Object?
    && var tls := o["tls"].fields;
       && "enabled" in tls && tls["enabled"] == Bool(true)
       && ("insecure" in tls ==> tls["insecure"] == Null || tls["insecure"] == Bool(false))
  }

  /** A vless outbound whose detour is a carrier of this type, which is checked together with it. */
  predicate RidesOn(g: Graph, o: Fields, carrier: string) {
    && TextAt(o, "type") == "vless" && TextAt(o, "detour") != ""
    && TextAt(o, "detour") in g && TextAt(g[TextAt(o, "detour")], "type") == carrier
  }

  predicate Rides(g: Graph, o: Fields) {
    RidesOn(g, o, "slipstream") || RidesOn(g, o, "dnstt")
  }

  predicate IsGroup(o: Fields) {
    TextAt(o, "type") == "selector" || TextAt(o, "type") == "urltest"
  }

  /** A list of texts, in which a null reads as the empty one. */
  predicate ListsTags(o: Fields) {
    && "outbounds" in o && o["outbounds"].Array? && |o["outbounds"].items| > 0
    && forall i :: 0 <= i < |o["outbounds"].items| ==> o["outbounds"].items[i].Text? || o["outbounds"].items[i].Null?
  }

  predicate ListsTag(o: Fields, tag: string) {
    && "outbounds" in o && o["outbounds"].Array?
    && exists i :: 0 <= i < |o["outbounds"].items| &&
                   (o["outbounds"].items[i] == Text(tag) || (tag == "" && o["outbounds"].items[i].Null?))
  }

  /** Nothing about the outbound itself speaks against it. */
  predicate Acceptable(g: Graph, c: Checks, o: Fields) {
    if RidesOn(g, o, "slipstream") then c.slipstream(o, g[TextAt(o, "detour")])
    else if RidesOn(g, o, "dnstt") then c.dnstt(o, g[TextAt(o, "detour")])
    else
      || TextAt(o, "type") == "hysteria2" || TextAt(o, "type") == "wireguard" || TextAt(o, "type") == "awg"
      || TextAt(o, "type") == "pokrov-ats-lease"
      || (TextAt(o, "type") == "naive" && c.naive(o))
      || (TextAt(o, "type") == "vless" && TlsIsVerified(o))
      || (IsGroup(o) && ListsTags(o))
  }

  /** The outbound sends through the tag. */
  predicate Leads(g: Graph, o: Fields, tag: string) {
    && !Rides(g, o)
    && (|| (tag != "" && TextAt(o, "detour") == tag)
        || (TextAt(o, "type") == "pokrov-ats-lease" && TextAt(o, "upstream_tag") == tag)
        || (IsGroup(o) && ListsTag(o, tag)))
  }

  lemma TextsAre(o: Fields)
    ensures Children(o).Some? <==> ListsTags(o)
    ensures Children(o).Some? ==> forall tag :: tag in Children(o).value <==> ListsTag(o, tag)
  {
    if ListsTags(o) {
      var items, children := o["outbounds"].items, Children(o).value;
      forall tag ensures tag in children <==> ListsTag(o, tag) {
        if i :| 0 <= i < |items| && (items[i] == Text(tag) || (tag == "" && items[i].Null?)) {
          assert children[i] == tag;
        }
        if tag in children {
          var i :| 0 <= i < |children| && children[i] == tag;
          assert items[i] == Text(tag) || (tag == "" && items[i].Null?);
        }
      }
    }
  }

  /** What an outbound demands is what it leads to, and it demands anything only if it is acceptable. */
  lemma DemandReads(g: Graph, c: Checks, tag: string)
    ensures Demand(g, c, tag).Some? <==> tag in g && Acceptable(g, c, g[tag])
    ensures Demand(g, c, tag).Some? ==> forall d :: d in Demand(g, c, tag).value <==> Leads(g, g[tag], d)
  {
    if tag in g {
      TextsAre(g[tag]);
    }
  }

  /** The set holds every acceptable outbound that leads into it only. */
  ghost predicate Complete(g: Graph, c: Checks, s: iset<string>) {
    forall tag :: tag in g && Acceptable(g, c, g[tag]) && (forall d :: Leads(g, g[tag], d) ==> d in s) ==> tag in s
  }

  lemma CompleteIsClosed(g: Graph, c: Checks, s: iset<string>)
    ensures Complete(g, c, s) <==> Closed(NeedOf(g, c), s)
  {
    forall tag ensures Demand(g, c, tag).Some? <==> tag in g && Acceptable(g, c, g[tag])
      ensures Demand(g, c, tag).Some? ==> forall d :: d in Demand(g, c, tag).value <==> Leads(g, g[tag], d)
    {
      DemandReads(g, c, tag);
    }
  }

  /** In the least complete set. */
  ghost predicate Required(g: Graph, c: Checks, tag: string) {
    forall s :: Complete(g, c, s) ==> tag in s
  }

  /** Protection is membership in the least complete set. */
  lemma ProtectionReads(g: Graph, c: Checks, tag: string)
    ensures ProtectedVpn(g, c, tag) <==> Required(g, c, tag)
  {
    var need := NeedOf(g, c);
    forall s | Complete(g, c, s) && ProtectedVpn(g, c, tag) ensures tag in s {
      CompleteIsClosed(g, c, s);
      ProtectedIsLeastFixpoint(need, tag, s);
    }
    if Required(g, c, tag) {
      var all := iset t | Protected(need, t);
      forall t | need(t).Some? && (forall d :: d in need(t).value ==> d in all) ensures t in all {
        ProtectedIsLeastFixpoint(need, t, all);
      }
      CompleteIsClosed(g, c, all);
    }
  }

  /** The walk from an empty visiting set accepts exactly the least complete set. */
  method IsProtected(g: Graph, c: Checks, tag: string) returns (ok: bool)
    ensures ok <==> Required(g, c, tag)
  {
    var walk := new Walk();
    ok := walk.ProtectedVpn(g, c, tag);
    GraphWalk(g, c, tag);
    ProtectionReads(g, c, tag);
  }

  /** What protection means, type by type. */
  lemma ProtectedMeans(g: Graph, c: Checks, tag: string)
    requires ProtectedVpn(g, c, tag)
    ensures tag in g
    ensures TextAt(g[tag], "type") in {"naive", "vless", "hysteria2", "wireguard", "awg", "pokrov-ats-lease",
                                       "selector", "urltest"}
    ensures TextAt(g[tag], "type") == "vless" && !Rides(g, g[tag]) ==> TlsIsVerified(g[tag])
    ensures TextAt(g[tag], "type") == "pokrov-ats-lease" ==> ProtectedVpn(g, c, TextAt(g[tag], "upstream_tag"))
    ensures IsGroup(g[tag]) ==> ListsTags(g[tag]) && forall d :: ListsTag(g[tag], d) ==> ProtectedVpn(g, c, d)
    ensures TextAt(g[tag], "detour") != "" && !Rides(g, g[tag]) ==> ProtectedVpn(g, c, TextAt(g[tag], "detour"))
  {
    ProtectedIsLeastFixpoint(NeedOf(g, c), tag, iset{});
    DemandReads(g, c, tag);
    forall d | Leads(g, g[tag], d) ensures ProtectedVpn(g, c, d) {
      assert d in Demand(g, c, tag).value;
    }
  }
}
