/**
 Lease identities of the smart-access runtime: the 23 retained fields, the bounds
 a stored identity must meet, and the successor relation between renewals.

 Times are whole seconds counted from the zero time (0001-01-01T00:00:00Z).
 */
module Leases {
  const MAX_REVISION: int := 9007199254740991

  datatype Lease = Lease(
    leaseId: string,
    platform: string,
    audience: string,
    serviceId: string,
    providerId: string,
    permissionId: string,
    capabilityId: string,
    providerPolicyRevision: int,
    providerSecurityRevision: int,
    providerPolicySha: string,
    issuedAt: int,
    newFlowsUntil: int,
    activeFlowsUntil: int,
    profileSha: string,
    routeMode: string,
    runtimeScope: string,
    origin: string,
    family: string,
    feature: string,
    providerRevision: int,
    permissionRevision: int,
    catalogRevision: int,
    catalogSecurityRevision: int)

  predicate IsLowerHex(s: string) {
    forall i :: 0 <= i < |s| ==> '0' <= s[i] <= '9' || 'a' <= s[i] <= 'f'
  }

  /** A SHA-256 digest in lower-case hexadecimal. */
  predicate IsDigest(s: string) {
    |s| == 64 && IsLowerHex(s)
  }

  /** A lease identifier, and also a worker generation. */
  predicate IsLeaseId(s: string) {
    |s| == 32 && IsLowerHex(s)
  }

  predicate IsIdLead(c: char) {
    'a' <= c <= 'z' || '0' <= c <= '9'
  }

  /** A catalog service, provider, permission or capability identifier. */
  predicate IsServiceId(s: string) {
    1 <= |s| <= 64 && IsIdLead(s[0]) &&
    forall i :: 0 <= i < |s| ==> IsIdLead(s[i]) || s[i] in {'.', '_', '-'}
  }

  predicate IsRevision(n: int) {
    1 <= n <= MAX_REVISION
  }

  predicate ValidWindow(l: Lease) {
    0 <= l.issuedAt < l.newFlowsUntil <= l.activeFlowsUntil &&
    l.newFlowsUntil - l.issuedAt <= 600 &&
    l.activeFlowsUntil - l.issuedAt <= 3600
  }

  /** The identity is well formed; it may already have expired. */
  predicate ValidLease(l: Lease) {
    && IsLeaseId(l.leaseId)
    && l.routeMode in {"selective", "smart_safe"}
    && l.platform in {"android", "windows"}
    && l.audience in {"lab", "production"}
    && l.family in {"ipv4", "ipv6"}
    && l.origin in {"current-origin", "brain-origin", "RU-origin", "synthetic"}
    && l.feature in {"web_request", "login", "streaming", "websocket", "store", "gameplay", "cloud_gaming"}
    && IsServiceId(l.serviceId) && IsServiceId(l.providerId)
    && IsServiceId(l.permissionId) && IsServiceId(l.capabilityId)
    && IsDigest(l.providerPolicySha) && IsDigest(l.profileSha) && IsDigest(l.runtimeScope)
    && IsRevision(l.providerPolicyRevision) && IsRevision(l.providerSecurityRevision)
    && IsRevision(l.providerRevision) && IsRevision(l.permissionRevision)
    && IsRevision(l.catalogRevision) && IsRevision(l.catalogSecurityRevision)
    && ValidWindow(l)
  }

  predicate SameIdentity(a: Lease, b: Lease) {
    && a.platform == b.platform && a.audience == b.audience
    && a.serviceId == b.serviceId && a.providerId == b.providerId
    && a.permissionId == b.permissionId && a.capabilityId == b.capabilityId
    && a.profileSha == b.profileSha && a.routeMode == b.routeMode
    && a.runtimeScope == b.runtimeScope && a.origin == b.origin
    && a.family == b.family && a.feature == b.feature
  }

  predicate RevisionsAtLeast(a: Lease, b: Lease) {
    && a.providerRevision >= b.providerRevision
    && a.permissionRevision >= b.permissionRevision
    && a.providerPolicyRevision >= b.providerPolicyRevision
    && a.providerSecurityRevision >= b.providerSecurityRevision
    && a.catalogRevision >= b.catalogRevision
    && a.catalogSecurityRevision >= b.catalogSecurityRevision
  }

  /** `next` may replace `previous`. */
  predicate Follows(next: Lease, previous: Lease) {
    SameIdentity(next, previous) && RevisionsAtLeast(next, previous)
  }

  /**
   A successor differs from its predecessor in its identifier, its window, the digest of the provider's
   policy and its revisions only, and lowers no revision.
   */
  lemma FollowsIff(next: Lease, previous: Lease)
    ensures Follows(next, previous) <==>
            && next == previous.(leaseId := next.leaseId, issuedAt := next.issuedAt,
                                 newFlowsUntil := next.newFlowsUntil, activeFlowsUntil := next.activeFlowsUntil,
                                 providerPolicySha := next.providerPolicySha,
                                 providerPolicyRevision := next.providerPolicyRevision,
                                 providerSecurityRevision := next.providerSecurityRevision,
                                 providerRevision := next.providerRevision,
                                 permissionRevision := next.permissionRevision,
                                 catalogRevision := next.catalogRevision,
                                 catalogSecurityRevision := next.catalogSecurityRevision)
            && next.providerPolicyRevision >= previous.providerPolicyRevision
            && next.providerSecurityRevision >= previous.providerSecurityRevision
            && next.providerRevision >= previous.providerRevision
            && next.permissionRevision >= previous.permissionRevision
            && next.catalogRevision >= previous.catalogRevision
            && next.catalogSecurityRevision >= previous.catalogSecurityRevision
  {
  }

  // ------------------------------------------------------------- the checks

  /** A text of exactly `n` lower-case hexadecimal digits. */
  method MatchHex(s: string, n: nat) returns (ok: bool)
    ensures ok <==> |s| == n && IsLowerHex(s)
  {
    if |s| != n {
      return false;
    }
    for i := 0 to |s|
      invariant IsLowerHex(s[..i])
    {
      if s[i] !in "0123456789abcdef" {
        return false;
      }
    }
    assert s[..|s|] == s;
    return true;
  }

  method MatchServiceId(s: string) returns (ok: bool)
    ensures ok <==> IsServiceId(s)
  {
    if |s| == 0 || |s| > 64 || s[0] in "._-" {
      return false;
    }
    for i := 0 to |s|
      invariant forall j :: 0 <= j < i ==> IsIdLead(s[j]) || s[j] in {'.', '_', '-'}
    {
      var code := s[i] as int;
      if !(97 <= code <= 122 || 48 <= code <= 57 || s[i] in "._-") {
        return false;
      }
    }
    return true;
  }

  /** Every listed identifier, digest and revision is well formed. */
  method CheckIds(ids: seq<string>) returns (ok: bool)
    ensures ok <==> forall i :: 0 <= i < |ids| ==> IsServiceId(ids[i])
  {
    for i := 0 to |ids|
      invariant forall j :: 0 <= j < i ==> IsServiceId(ids[j])
    {
      var matches := MatchServiceId(ids[i]);
      if !matches {
        return false;
      }
    }
    return true;
  }

  method CheckDigests(digests: seq<string>) returns (ok: bool)
    ensures ok <==> forall i :: 0 <= i < |digests| ==> IsDigest(digests[i])
  {
    for i := 0 to |digests|
      invariant forall j :: 0 <= j < i ==> IsDigest(digests[j])
    {
      var matches := MatchHex(digests[i], 64);
      if !matches {
        return false;
      }
    }
    return true;
  }

  method CheckRevisions(revisions: seq<int>) returns (ok: bool)
    ensures ok <==> forall i :: 0 <= i < |revisions| ==> IsRevision(revisions[i])
  {
    for i := 0 to |revisions|
      invariant forall j :: 0 <= j < i ==> IsRevision(revisions[j])
    {
      if revisions[i] < 1 || revisions[i] > 9007199254740991 {
        return false;
      }
    }
    return true;
  }

  method CheckEnumerations(l: Lease) returns (ok: bool)
    ensures ok <==>
            && l.routeMode in {"selective", "smart_safe"} && l.platform in {"android", "windows"}
            && l.audience in {"lab", "production"} && l.family in {"ipv4", "ipv6"}
            && l.origin in {"current-origin", "brain-origin", "RU-origin", "synthetic"}
            && l.feature in {"web_request", "login", "streaming", "websocket", "store", "gameplay", "cloud_gaming"}
  {
    if (l.routeMode != "selective" && l.routeMode != "smart_safe") ||
       (l.platform != "android" && l.platform != "windows") ||
       (l.audience != "lab" && l.audience != "production") || (l.family != "ipv4" && l.family != "ipv6") {
      return false;
    }
    match l.origin {
      case "current-origin" =>
      case "brain-origin" =>
      case "RU-origin" =>
      case "synthetic" =>
      case _ => return false;
    }
    match l.feature {
      case "web_request" => return true;
      case "login" => return true;
      case "streaming" => return true;
      case "websocket" => return true;
      case "store" => return true;
      case "gameplay" => return true;
      case "cloud_gaming" => return true;
      case _ => return false;
    }
  }

  /** The checks in the order in which a stored identity is read. */
  method CheckLease(l: Lease) returns (ok: bool)
    ensures ok <==> ValidLease(l)
  {
    var ids := [l.serviceId, l.providerId, l.permissionId, l.capabilityId];
    var digests := [l.providerPolicySha, l.profileSha, l.runtimeScope];
    var revisions := [l.providerPolicyRevision, l.providerSecurityRevision, l.providerRevision,
                      l.permissionRevision, l.catalogRevision, l.catalogSecurityRevision];
    var id := MatchHex(l.leaseId, 32);
    var enumerations := CheckEnumerations(l);
    var idsOk := CheckIds(ids);
    var digestsOk := CheckDigests(digests);
    var revisionsOk := CheckRevisions(revisions);
    ok := id && enumerations && idsOk && digestsOk && revisionsOk &&
          0 <= l.issuedAt && l.issuedAt < l.newFlowsUntil && l.activeFlowsUntil >= l.newFlowsUntil &&
          l.newFlowsUntil - l.issuedAt <= 10 * 60 && l.activeFlowsUntil - l.issuedAt <= 60 * 60;
    FourIds(ids[0], ids[1], ids[2], ids[3]);
    ThreeDigests(digests[0], digests[1], digests[2]);
    SixRevisions(revisions);
  }

  lemma FourIds(a: string, b: string, c: string, d: string)
    ensures (forall i :: 0 <= i < 4 ==> IsServiceId([a, b, c, d][i])) <==>
            IsServiceId(a) && IsServiceId(b) && IsServiceId(c) && IsServiceId(d)
  {
    var ids := [a, b, c, d];
    assert ids[0] == a && ids[1] == b && ids[2] == c && ids[3] == d;
  }

  lemma ThreeDigests(a: string, b: string, c: string)
    ensures (forall i :: 0 <= i < 3 ==> IsDigest([a, b, c][i])) <==> IsDigest(a) && IsDigest(b) && IsDigest(c)
  {
    var digests := [a, b, c];
    assert digests[0] == a && digests[1] == b && digests[2] == c;
  }

  lemma SixRevisions(rs: seq<int>)
    requires |rs| == 6
    ensures (forall i :: 0 <= i < 6 ==> IsRevision(rs[i])) <==>
            && IsRevision(rs[0]) && IsRevision(rs[1]) && IsRevision(rs[2])
            && IsRevision(rs[3]) && IsRevision(rs[4]) && IsRevision(rs[5])
  {
  }
}
