/**
 When two rule lists decide every flow of a user alike, whatever the router makes of the
 criteria: a comparison of the lists themselves that answers exactly this.
 */
module HysteriaCompare {
  import opened Wrappers
  import opened HysteriaPolicy

  /** What is known about the current flow: which criteria hold. */
  type Knowledge = map<seq<string>, bool>

  /** What a rule asks about a user's flow. */
  datatype Test = Always | Never | Asks(criteria: seq<string>, wanted: bool)

  function TestOf(rule: Rule, user: string): Test {
    if |rule.authUser| == 0 && |rule.criteria| == 0 then Always
    else if !Concerns(rule, user) then if rule.invert then Always else Never
    else if |rule.criteria| == 0 then if rule.invert then Never else Always
    else Asks(rule.criteria, !rule.invert)
  }

  lemma TestIsExact<F>(r: Router<F>, rule: Rule, user: string, f: F)
    ensures var test := TestOf(rule, user);
            RuleMatches(r, rule, user, f) <==> test.Always? || (test.Asks? && r.holds(test.criteria, f) == test.wanted)
  {
  }

  /** The first rule of the list asks something that is not known. */
  predicate Open(rules: seq<Rule>, user: string, known: Knowledge) {
    |rules| > 0 && TestOf(rules[0], user).Asks? && TestOf(rules[0], user).criteria !in known
  }

  /** The first rule of the list is known not to match. */
  predicate Skipped(rules: seq<Rule>, user: string, known: Knowledge) {
    |rules| > 0 &&
    match TestOf(rules[0], user)
    case Always => false
    case Never => true
    case Asks(criteria, wanted) => criteria in known && known[criteria] != wanted
  }

  predicate GoesOn(rule: Rule) {
    rule.action.Resolve? || rule.action.Sniff? || rule.action.Unsupported?
  }

  /** The two lists, each over its own outbounds. */
  datatype Pair = Pair(a: seq<Rule>, live: map<string, Live>, b: seq<Rule>, live': map<string, Live>)

  /** Two first rules that both match decide alike, or pass the same flow on. */
  predicate SameHeads(p: Pair)
    requires |p.a| > 0 && |p.b| > 0
  {
    && Anonymous(p.a[0]) == Anonymous(p.b[0])
    && (p.a[0].action.Route? ==>
          Resolved(p.live, p.a[0].action.outbound) == Resolved(p.live', p.a[0].action.outbound))
  }

  function Opened(p: Pair, user: string, known: Knowledge): nat {
    (if Open(p.a, user, known) then 1 else 0) + (if Open(p.b, user, known) then 1 else 0)
  }

  /** Both lists walked in step, with both answers to every question that is still open. */
  predicate Same(p: Pair, user: string, known: Knowledge)
    decreases |p.a| + |p.b|, Opened(p, user, known)
  {
    if Skipped(p.a, user, known) then Same(p.(a := p.a[1..]), user, known)
    else if Skipped(p.b, user, known) then Same(p.(b := p.b[1..]), user, known)
    else if Open(p.a, user, known) then SameEither(p, user, known, TestOf(p.a[0], user).criteria)
    else if Open(p.b, user, known) then SameEither(p, user, known, TestOf(p.b[0], user).criteria)
    else if |p.a| == 0 || |p.b| == 0 then |p.a| == |p.b|
    else
      SameHeads(p) && (GoesOn(p.a[0]) ==> Same(p.(a := p.a[1..], b := p.b[1..]), user, map[]))
  }

  predicate SameEither(p: Pair, user: string, known: Knowledge, criteria: seq<string>)
    requires || (Open(p.a, user, known) && criteria == TestOf(p.a[0], user).criteria)
             || (Open(p.b, user, known) && criteria == TestOf(p.b[0], user).criteria)
    decreases |p.a| + |p.b|, Opened(p, user, known), 0
  {
    Same(p, user, known[criteria := true]) && Same(p, user, known[criteria := false])
  }

  /** The lists decide every flow of the user alike. */
  predicate Alike(p: Pair, user: string) {
    Same(p, user, map[])
  }

  // ---------------------------------------------------------------- it is enough

  ghost predicate Tells<F>(r: Router<F>, known: Knowledge, f: F) {
    forall criteria :: criteria in known ==> r.holds(criteria, f) == known[criteria]
  }

  predicate SameDecision<F>(r: Router<F>, p: Pair, user: string, f: F) {
    Decide(r, p.a, p.live, user, f) == Decide(r, p.b, p.live', user, f)
  }

  lemma SkippedIsPassed<F>(r: Router<F>, rules: seq<Rule>, live: map<string, Live>, user: string, known: Knowledge,
                           f: F)
    requires Tells(r, known, f) && Skipped(rules, user, known)
    ensures Decide(r, rules, live, user, f) == Decide(r, rules[1..], live, user, f)
  {
    TestIsExact(r, rules[0], user, f);
  }

  lemma OtherwiseMatches<F>(r: Router<F>, rules: seq<Rule>, user: string, known: Knowledge, f: F)
    requires Tells(r, known, f) && |rules| > 0 && !Skipped(rules, user, known) && !Open(rules, user, known)
    ensures RuleMatches(r, rules[0], user, f)
  {
    TestIsExact(r, rules[0], user, f);
  }

  /** Lists that compare as the same decide alike under every router, on every flow of which this is known. */
  lemma {:induction false} SameDecides<F>(r: Router<F>, p: Pair, user: string, known: Knowledge, f: F)
    requires Same(p, user, known) && Tells(r, known, f)
    ensures SameDecision(r, p, user, f)
    decreases |p.a| + |p.b|, Opened(p, user, known)
  {
    if Skipped(p.a, user, known) {
      SkippedIsPassed(r, p.a, p.live, user, known, f);
      SameDecides(r, p.(a := p.a[1..]), user, known, f);
    } else if Skipped(p.b, user, known) {
      SkippedIsPassed(r, p.b, p.live', user, known, f);
      SameDecides(r, p.(b := p.b[1..]), user, known, f);
    } else if Open(p.a, user, known) || Open(p.b, user, known) {
      var criteria := TestOf(if Open(p.a, user, known) then p.a[0] else p.b[0], user).criteria;
      SameDecides(r, p, user, known[criteria := r.holds(criteria, f)], f);
    } else if |p.a| > 0 && |p.b| > 0 {
      OtherwiseMatches(r, p.a, user, known, f);
      OtherwiseMatches(r, p.b, user, known, f);
      var f' := r.effect(Anonymous(p.a[0]), f);
      if GoesOn(p.a[0]) && f'.Some? {
        SameDecides(r, p.(a := p.a[1..], b := p.b[1..]), user, map[], f'.value);
      }
    }
  }

  // ------------------------------------------------------------ it is necessary

  /** A flow that says of every stretch between rewrites which criteria hold and which rewrites fail. */
  datatype Stage = Stage(known: Knowledge, failing: set<Rule>)

  type Script = seq<Stage>

  /** The router that plays scripts; past the end nothing holds and nothing fails. */
  function Scripted(): Router<Script> {
    Router((criteria, f: Script) => |f| > 0 && criteria in f[0].known && f[0].known[criteria],
           (rule, f: Script) =>
             if |f| > 0 && rule in f[0].failing then None else Some(if |f| > 0 then f[1..] else []))
  }

  lemma {:induction false} NothingFails(rules: seq<Rule>, live: map<string, Live>, user: string)
    ensures Decide(Scripted(), rules, live, user, []) != Failed
  {
    if |rules| == 0 {
    } else {
      NothingFails(rules[1..], live, user);
    }
  }

  /** The first stage in which just the rewrite of this rule fails. */
  function FailingAt(known: Knowledge, rule: Rule): Script {
    [Stage(known, {Anonymous(rule)})]
  }

  lemma StageTells(known: Knowledge, failing: set<Rule>, rest: Script)
    ensures Tells(Scripted(), known, [Stage(known, failing)] + rest)
  {
  }

  /** A matching first rule fails the flow if its own rewrite does, and does not if only another one does. */
  lemma FailsExactly(rules: seq<Rule>, live: map<string, Live>, user: string, known: Knowledge, rule: Rule)
    requires |rules| > 0 && GoesOn(rule) && RuleMatches(Scripted(), rules[0], user, FailingAt(known, rule))
    ensures Decide(Scripted(), rules, live, user, FailingAt(known, rule)) == Failed <==>
            Anonymous(rules[0]) == Anonymous(rule)
  {
    assert FailingAt(known, rule)[1..] == [];
    NothingFails(rules[1..], live, user);
  }

  lemma {:induction false} DiffersSomewhere(p: Pair, user: string, known: Knowledge) returns (f: Script)
    requires !Same(p, user, known)
    ensures Tells(Scripted(), known, f) && !SameDecision(Scripted(), p, user, f)
    decreases |p.a| + |p.b|, Opened(p, user, known)
  {
    if Skipped(p.a, user, known) {
      f := DiffersSomewhere(p.(a := p.a[1..]), user, known);
      SkippedIsPassed(Scripted(), p.a, p.live, user, known, f);
    } else if Skipped(p.b, user, known) {
      f := DiffersSomewhere(p.(b := p.b[1..]), user, known);
      SkippedIsPassed(Scripted(), p.b, p.live', user, known, f);
    } else if Open(p.a, user, known) || Open(p.b, user, known) {
      var criteria := TestOf(if Open(p.a, user, known) then p.a[0] else p.b[0], user).criteria;
      var answer := !Same(p, user, known[criteria := true]);
      f := DiffersSomewhere(p, user, known[criteria := answer]);
      assert forall c :: c in known ==> known[criteria := answer][c] == known[c];
    } else if |p.a| == 0 || |p.b| == 0 {
      f := OneEnds(p, user, known);
    } else if !SameHeads(p) {
      f := OtherHeads(p, user, known);
    } else {
      var rest := DiffersSomewhere(p.(a := p.a[1..], b := p.b[1..]), user, map[]);
      f := RestDiffers(p, user, known, rest);
    }
  }

  predicate Settled(p: Pair, user: string, known: Knowledge) {
    && !Skipped(p.a, user, known) && !Skipped(p.b, user, known)
    && !Open(p.a, user, known) && !Open(p.b, user, known)
  }

  lemma OneEnds(p: Pair, user: string, known: Knowledge) returns (f: Script)
    requires Settled(p, user, known) && (|p.a| == 0) != (|p.b| == 0)
    ensures Tells(Scripted(), known, f) && !SameDecision(Scripted(), p, user, f)
  {
    if |p.a| > 0 {
      f := EndsOrFails(p.a, p.live, user, known);
    } else {
      f := EndsOrFails(p.b, p.live', user, known);
    }
  }

  lemma EndsOrFails(rules: seq<Rule>, live: map<string, Live>, user: string, known: Knowledge) returns (f: Script)
    requires |rules| > 0 && !Skipped(rules, user, known) && !Open(rules, user, known)
    ensures Tells(Scripted(), known, f) && Decide(Scripted(), rules, live, user, f) != FallThrough
  {
    f := FailingAt(known, rules[0]);
    StageTells(known, {Anonymous(rules[0])}, []);
    assert f + [] == f;
    OtherwiseMatches(Scripted(), rules, user, known, f);
    if GoesOn(rules[0]) {
      FailsExactly(rules, live, user, known, rules[0]);
    }
  }

  lemma OtherHeads(p: Pair, user: string, known: Knowledge) returns (f: Script)
    requires Settled(p, user, known) && |p.a| > 0 && |p.b| > 0 && !SameHeads(p)
    ensures Tells(Scripted(), known, f) && !SameDecision(Scripted(), p, user, f)
  {
    var rule := if GoesOn(p.a[0]) then p.a[0] else p.b[0];
    f := FailingAt(known, rule);
    StageTells(known, {Anonymous(rule)}, []);
    assert f + [] == f;
    OtherwiseMatches(Scripted(), p.a, user, known, f);
    OtherwiseMatches(Scripted(), p.b, user, known, f);
    if GoesOn(rule) {
      FailsExactly(p.a, p.live, user, known, rule);
      FailsExactly(p.b, p.live', user, known, rule);
    }
  }

  lemma PassesOn(rules: seq<Rule>, live: map<string, Live>, user: string, known: Knowledge, rest: Script)
    requires |rules| > 0 && !Skipped(rules, user, known) && !Open(rules, user, known) && GoesOn(rules[0])
    ensures var f := [Stage(known, {})] + rest;
            Decide(Scripted(), rules, live, user, f) == Decide(Scripted(), rules[1..], live, user, rest)
  {
    var f := [Stage(known, {})] + rest;
    StageTells(known, {}, rest);
    OtherwiseMatches(Scripted(), rules, user, known, f);
    assert f[1..] == rest;
  }

  lemma RestDiffers(p: Pair, user: string, known: Knowledge, rest: Script) returns (f: Script)
    requires Settled(p, user, known) && |p.a| > 0 && |p.b| > 0 && SameHeads(p) && GoesOn(p.a[0])
    requires !SameDecision(Scripted(), p.(a := p.a[1..], b := p.b[1..]), user, rest)
    ensures Tells(Scripted(), known, f) && !SameDecision(Scripted(), p, user, f)
  {
    f := [Stage(known, {})] + rest;
    StageTells(known, {}, rest);
    PassesOn(p.a, p.live, user, known, rest);
    assert p.b[0].action == Anonymous(p.b[0]).action;
    PassesOn(p.b, p.live', user, known, rest);
  }

  /**
   The comparison is exact: it accepts two lists if and only if no script tells them apart, and
   then no router and no flow does.
   */
  lemma AlikeIff(p: Pair, user: string)
    ensures Alike(p, user) <==> forall f :: SameDecision(Scripted(), p, user, f)
  {
    if Alike(p, user) {
      forall f ensures SameDecision(Scripted(), p, user, f) {
        SameDecides(Scripted(), p, user, map[], f);
      }
    } else {
      var f := DiffersSomewhere(p, user, map[]);
    }
  }

  lemma AlikeDecides<F>(r: Router<F>, p: Pair, user: string, f: F)
    requires Alike(p, user)
    ensures SameDecision(r, p, user, f)
  {
    SameDecides(r, p, user, map[], f);
  }

  // ------------------------------------------------------------- other outbounds

  lemma RouteTagsRest(rules: seq<Rule>)
    requires |rules| > 0
    ensures RouteTags(rules[1..]) <= RouteTags(rules)
    ensures rules[0].action.Route? ==> rules[0].action.outbound in RouteTags(rules)
  {
    forall tag | tag in RouteTags(rules[1..]) ensures tag in RouteTags(rules) {
      var i :| 0 <= i < |rules[1..]| && rules[1..][i].action.Route? && rules[1..][i].action.outbound == tag;
      assert rules[i + 1] == rules[1..][i];
    }
  }

  /** Outbounds that resolve a tag as the second list does wherever the first list's do. */
  ghost predicate Keeps(p: Pair, live: map<string, Live>, tags: set<string>) {
    forall tag :: tag in tags && Resolved(p.live, tag) == Resolved(p.live', tag) ==>
      Resolved(live, tag) == Resolved(p.live', tag)
  }

  /** Lists that are the same stay so over outbounds that keep what both resolve alike. */
  lemma {:induction false} SameMoves(p: Pair, live: map<string, Live>, user: string, known: Knowledge,
                                     tags: set<string>)
    requires Same(p, user, known) && RouteTags(p.b) <= tags && Keeps(p, live, tags)
    ensures Same(p.(live := live), user, known)
    decreases |p.a| + |p.b|, Opened(p, user, known)
  {
    if |p.b| > 0 {
      RouteTagsRest(p.b);
    }
    if Skipped(p.a, user, known) {
      SameMoves(p.(a := p.a[1..]), live, user, known, tags);
    } else if Skipped(p.b, user, known) {
      SameMoves(p.(b := p.b[1..]), live, user, known, tags);
    } else if Open(p.a, user, known) || Open(p.b, user, known) {
      var criteria := TestOf(if Open(p.a, user, known) then p.a[0] else p.b[0], user).criteria;
      SameMoves(p, live, user, known[criteria := true], tags);
      SameMoves(p, live, user, known[criteria := false], tags);
    } else if |p.a| > 0 && |p.b| > 0 {
      assert p.a[0].action == Anonymous(p.a[0]).action == p.b[0].action;
      if GoesOn(p.a[0]) {
        SameMoves(p.(a := p.a[1..], b := p.b[1..]), live, user, map[], tags);
      }
    }
  }
}
