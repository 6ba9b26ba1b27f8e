/** The evaluator that reports every condition against the one that stops early. */
module ReportProofs {
  import opened Wrappers
  import opened Text
  import opened RuleTypes
  import opened Engine
  import opened EngineProofs

  // ----- the reference meaning -----

  /** No condition of the group, at any depth, is in error. */
  predicate ErrorFree(env: Env, msg: Message, g: Group)
    decreases g, 1
  {
    (forall c <- g.conditions :: Outcome(env, msg, c).Ok?) && AllErrorFree(env, msg, g.groups)
  }

  predicate AllErrorFree(env: Env, msg: Message, gs: seq<Group>)
    decreases gs, 0
  {
    gs == [] || (ErrorFree(env, msg, gs[0]) && AllErrorFree(env, msg, gs[1..]))
  }

  predicate Holds(env: Env, msg: Message, c: Condition) {
    Outcome(env, msg, c) == Ok(true)
  }

  /** An AND group is all of its members, any other group some of them. */
  predicate Meaning(env: Env, msg: Message, g: Group)
    decreases g, 1
  {
    if g.operator == "AND"
    then (forall c <- g.conditions :: Holds(env, msg, c)) && AllMean(env, msg, g.groups)
    else (exists c <- g.conditions :: Holds(env, msg, c)) || SomeMean(env, msg, g.groups)
  }

  predicate AllMean(env: Env, msg: Message, gs: seq<Group>)
    decreases gs, 0
  {
    gs == [] || (Meaning(env, msg, gs[0]) && AllMean(env, msg, gs[1..]))
  }

  predicate SomeMean(env: Env, msg: Message, gs: seq<Group>)
    decreases gs, 0
  {
    gs != [] && (Meaning(env, msg, gs[0]) || SomeMean(env, msg, gs[1..]))
  }

  lemma {:induction false} MeanQuantified(env: Env, msg: Message, gs: seq<Group>)
    ensures AllMean(env, msg, gs) <==> forall g <- gs :: Meaning(env, msg, g)
    ensures SomeMean(env, msg, gs) <==> exists g <- gs :: Meaning(env, msg, g)
    decreases |gs|
  {
    hide Meaning;
    if gs == [] {
    } else {
      MeanQuantified(env, msg, gs[1..]);
      assert forall g <- gs :: g == gs[0] || g in gs[1..];
      assert gs[0] in gs && forall g <- gs[1..] :: g in gs;
    }
  }

  // ----- capture names -----

  /** The names a walk over a regular expression's groups binds. */
  lemma {:induction false} BindNames(a: Captures, b: Captures, names: seq<string>, found: seq<string>, i: nat)
    requires a.Keys <= b.Keys
    ensures a.Keys <= Bind(a, names, found, i).Keys <= Bind(b, names, found, i).Keys
    decreases |names| - i
  {
    if i >= |names| {
    } else {
      var a' := if i == 0 then (if found != [] then a["capture:0" := found[0]] else a)
                else if names[i] != "" && i < |found| then a["capture:" + names[i] := found[i]] else a;
      var b' := if i == 0 then (if found != [] then b["capture:0" := found[0]] else b)
                else if names[i] != "" && i < |found| then b["capture:" + names[i] := found[i]] else b;
      BindNames(a', b', names, found, i + 1);
    }
  }

  lemma CapturesGrow(env: Env, msg: Message, c: Condition, a: Captures, b: Captures)
    requires a.Keys <= b.Keys
    ensures a.Keys <= CapturesAfter(env, msg, c, a).Keys <= CapturesAfter(env, msg, c, b).Keys
  {
    hide Bind, FreshValue, Unvalued, ValueTest;
    var val := FreshValue(env, msg, c.field);
    var hit := RegexFinds(env, c, val);
    if hit.Some? { BindNames(a, b, hit.value.0.names, hit.value.1, 0); }
  }

  // ----- the reporting evaluator without memo -----

  lemma ReportConditionIsOutcome(env: Env, msg: Message, c: Condition, s: Scan)
    requires Faithful(env, s.extras)
    ensures var (r, s') := ReportCondition(env, msg, c, s);
      && r.Ok? == Outcome(env, msg, c).Ok?
      && (r.Ok? ==> r.value == ConditionResult(c.field, c.operator, c.value, Holds(env, msg, c)))
      && (r.Err? ==> r.error == Outcome(env, msg, c).error)
      && s'.captures == CapturesAfter(env, msg, c, s.captures)
      && Faithful(env, s'.extras)
  {
    hide FieldValue, FreshValue, Bind, Faithful, Less, ParseDays, Days, ValueTest, RegexFinds;
    FieldValueIsFresh(env, msg, c.field, s.extras);
  }

  lemma {:induction false} ReportConditionsMeaning(env: Env, msg: Message, cs: seq<Condition>, s: Scan)
    requires Faithful(env, s.extras)
    ensures var (r, s') := ReportConditions(env, msg, cs, s);
      && Faithful(env, s'.extras)
      && s.captures.Keys <= s'.captures.Keys
      && (r.Ok? <==> forall c <- cs :: Outcome(env, msg, c).Ok?)
      && (r.Ok? ==>
            && |r.value| == |cs|
            && (forall i :: 0 <= i < |cs| ==> Repeats(env, msg, cs[i], r.value[i])))
    decreases |cs|
  {
    hide ReportCondition, Outcome, Faithful, CapturesAfter;
    if cs == [] {
    } else {
      assert cs == [cs[0]] + cs[1..];
      ReportConditionIsOutcome(env, msg, cs[0], s);
      CapturesGrow(env, msg, cs[0], s.captures, s.captures);
      var (r, s1) := ReportCondition(env, msg, cs[0], s);
      if r.Ok? { ReportConditionsMeaning(env, msg, cs[1..], s1); }
    }
  }

  /** The result repeats the condition, and says whether it holds. */
  predicate Repeats(env: Env, msg: Message, c: Condition, r: ConditionResult) {
    r.field == c.field && r.operator == c.operator && r.expected == c.value && r.passed == Holds(env, msg, c)
  }

  /** The report mirrors the group, and every `passed` is the meaning of its group. */
  predicate Mirrors(env: Env, msg: Message, g: Group, gr: GroupResult)
    decreases g, 1
  {
    && gr.operator == g.operator
    && gr.passed == Meaning(env, msg, g)
    && |gr.results| == |g.conditions|
    && (forall i :: 0 <= i < |g.conditions| ==> Repeats(env, msg, g.conditions[i], gr.results[i]))
    && AllMirror(env, msg, g.groups, gr.groups)
  }

  predicate AllMirror(env: Env, msg: Message, gs: seq<Group>, grs: seq<GroupResult>)
    decreases gs, 0
  {
    |gs| == |grs| && (gs == [] || (Mirrors(env, msg, gs[0], grs[0]) && AllMirror(env, msg, gs[1..], grs[1..])))
  }

  lemma {:induction false} MirroredPassed(env: Env, msg: Message, gs: seq<Group>, grs: seq<GroupResult>)
    requires AllMirror(env, msg, gs, grs)
    ensures (forall g <- grs :: g.passed) <==> AllMean(env, msg, gs)
    ensures (exists g <- grs :: g.passed) <==> SomeMean(env, msg, gs)
    decreases |gs|
  {
    hide Meaning;
    if gs == [] {
    } else {
      MirroredPassed(env, msg, gs[1..], grs[1..]);
      assert grs == [grs[0]] + grs[1..];
    }
  }

  lemma {:induction false} ReportGroupMeaning(env: Env, msg: Message, g: Group, s: Scan)
    requires Faithful(env, s.extras)
    ensures var (r, s') := ReportGroup(env, msg, g, s);
      && Faithful(env, s'.extras)
      && s.captures.Keys <= s'.captures.Keys
      && (r.Ok? <==> ErrorFree(env, msg, g))
      && (r.Ok? ==> Mirrors(env, msg, g, r.value))
    decreases g, 1
  {
    hide Faithful, Outcome, ReportConditions, ReportGroups;
    ReportConditionsMeaning(env, msg, g.conditions, s);
    var (r, s1) := ReportConditions(env, msg, g.conditions, s);
    if r.Ok? {
      ReportGroupsMeaning(env, msg, g.groups, s1);
      var (r2, s2) := ReportGroups(env, msg, g.groups, s1);
      if r2.Ok? {
        MirroredPassed(env, msg, g.groups, r2.value);
        PassedConditions(env, msg, g.conditions, r.value);
        hide Mirrors, Holds, AllMean, SomeMean;
        assert ReportGroup(env, msg, g, s).0.value.passed == Meaning(env, msg, g);
      }
    }
  }

  lemma {:induction false} PassedConditions(env: Env, msg: Message, cs: seq<Condition>, results: seq<ConditionResult>)
    requires |cs| == |results|
    requires forall i :: 0 <= i < |cs| ==> Repeats(env, msg, cs[i], results[i])
    ensures (forall r <- results :: r.passed) <==> forall c <- cs :: Holds(env, msg, c)
    ensures (exists r <- results :: r.passed) <==> exists c <- cs :: Holds(env, msg, c)
    decreases |cs|
  {
    hide Holds;
    if cs == [] {
    } else {
      PassedConditions(env, msg, cs[1..], results[1..]);
      assert cs == [cs[0]] + cs[1..] && results == [results[0]] + results[1..];
    }
  }

  lemma {:induction false} ReportGroupsMeaning(env: Env, msg: Message, gs: seq<Group>, s: Scan)
    requires Faithful(env, s.extras)
    ensures var (r, s') := ReportGroups(env, msg, gs, s);
      && Faithful(env, s'.extras)
      && s.captures.Keys <= s'.captures.Keys
      && (r.Ok? <==> AllErrorFree(env, msg, gs))
      && (r.Ok? ==> AllMirror(env, msg, gs, r.value))
    decreases gs, 0
  {
    hide Faithful, ReportConditions, Meaning, Outcome;
    if gs == [] {
    } else {
      ReportGroupMeaning(env, msg, gs[0], s);
      var (r, s1) := ReportGroup(env, msg, gs[0], s);
      if r.Ok? { ReportGroupsMeaning(env, msg, gs[1..], s1); }
    }
  }

  // ----- the short-circuit evaluator on sound groups -----

  lemma {:induction false} FreshConditionsMeaning(env: Env, msg: Message, operator: string, cs: seq<Condition>,
                                                  caps: Captures)
    requires operator in {"AND", "OR"}
    requires forall c <- cs :: Outcome(env, msg, c).Ok?
    ensures var (step, _) := FreshConditions(env, msg, operator, cs, caps);
      step == if operator == "AND" && (exists c <- cs :: !Holds(env, msg, c)) then Decided(Ok(false))
              else if operator == "OR" && (exists c <- cs :: Holds(env, msg, c)) then Decided(Ok(true))
              else Undecided
    decreases |cs|
  {
    hide Outcome, CapturesAfter;
    if cs == [] {
    } else {
      assert cs[0] in cs;
      assert forall c <- cs :: c == cs[0] || c in cs[1..];
      FreshConditionsMeaning(env, msg, operator, cs[1..], CapturesAfter(env, msg, cs[0], caps));
    }
  }

  /** On a sound AND/OR group the short-circuit evaluator gives the meaning. */
  lemma {:induction false} FreshGroupMeaning(env: Env, msg: Message, g: Group, caps: Captures)
    requires AndOr(g) && ErrorFree(env, msg, g)
    ensures FreshGroup(env, msg, g, caps).0 == Ok(Meaning(env, msg, g))
    decreases g, 1
  {
    hide Outcome, FreshConditions, FreshGroups, AllMean, SomeMean, AllErrorFree;
    FreshConditionsMeaning(env, msg, g.operator, g.conditions, caps);
    var (step, caps1) := FreshConditions(env, msg, g.operator, g.conditions, caps);
    if !step.Decided? {
      FreshGroupsMeaning(env, msg, g.operator, g.groups, caps1);
    }
  }

  lemma {:induction false} FreshGroupsMeaning(env: Env, msg: Message, operator: string, gs: seq<Group>, caps: Captures)
    requires operator in {"AND", "OR"} && AllAndOr(gs) && AllErrorFree(env, msg, gs)
    ensures var (step, _) := FreshGroups(env, msg, operator, gs, caps);
      step == if operator == "AND" && !AllMean(env, msg, gs) then Decided(Ok(false))
              else if operator == "OR" && SomeMean(env, msg, gs) then Decided(Ok(true))
              else Undecided
    decreases gs, 0
  {
    hide Meaning, FreshConditions, Outcome;
    if gs == [] {
    } else {
      FreshGroupMeaning(env, msg, gs[0], caps);
      FreshGroupsMeaning(env, msg, operator, gs[1..], FreshGroup(env, msg, gs[0], caps).1);
    }
  }

  // ----- any operators -----

  lemma {:induction false} ErrorFreeConditions(env: Env, msg: Message, operator: string, cs: seq<Condition>,
                                               caps: Captures)
    requires forall c <- cs :: Outcome(env, msg, c).Ok?
    ensures var step := FreshConditions(env, msg, operator, cs, caps).0;
      (step.Decided? ==> step.r.Ok?) && (operator !in {"AND", "OR"} ==> step.Undecided?)
    decreases |cs|
  {
    hide Outcome, CapturesAfter;
    if cs == [] {
    } else {
      ErrorFreeConditions(env, msg, operator, cs[1..], CapturesAfter(env, msg, cs[0], caps));
    }
  }

  /** No error in the tree, no error from the short-circuit evaluator, whatever the operators are. */
  lemma {:induction false} ErrorFreeGroup(env: Env, msg: Message, g: Group, caps: Captures)
    requires ErrorFree(env, msg, g)
    ensures FreshGroup(env, msg, g, caps).0.Ok?
    ensures g.operator !in {"AND", "OR"} ==> FreshGroup(env, msg, g, caps).0 == Ok(false)
    decreases g, 1
  {
    hide Outcome, FreshConditions, FreshGroups, AllErrorFree;
    ErrorFreeConditions(env, msg, g.operator, g.conditions, caps);
    ErrorFreeGroups(env, msg, g.operator, g.groups, FreshConditions(env, msg, g.operator, g.conditions, caps).1);
  }

  lemma {:induction false} ErrorFreeGroups(env: Env, msg: Message, operator: string, gs: seq<Group>, caps: Captures)
    requires AllErrorFree(env, msg, gs)
    ensures var step := FreshGroups(env, msg, operator, gs, caps).0;
      (step.Decided? ==> step.r.Ok?) && (operator !in {"AND", "OR"} ==> step.Undecided?)
    decreases gs, 0
  {
    hide FreshGroup, ErrorFree;
    if gs == [] {
    } else {
      ErrorFreeGroup(env, msg, gs[0], caps);
      ErrorFreeGroups(env, msg, operator, gs[1..], FreshGroup(env, msg, gs[0], caps).1);
    }
  }

  lemma {:induction false} ErrorFreeRoots(env: Env, msg: Message, gs: seq<Group>, caps: Captures)
    requires AllErrorFree(env, msg, gs)
    ensures FreshRoots(env, msg, gs, caps).0.Ok?
    decreases |gs|
  {
    hide FreshGroup, ErrorFree;
    if gs == [] {
    } else {
      ErrorFreeGroup(env, msg, gs[0], caps);
      ErrorFreeRoots(env, msg, gs[1..], FreshGroup(env, msg, gs[0], caps).1);
    }
  }

  /** A finding. A group with any other operator never holds for the short-circuit evaluator, while the
      reporting one reads it as OR: without errors the two agree exactly when no member holds. */
  lemma OtherOperatorsAgreeIff(env: Env, msg: Message, g: Group, caps: Captures)
    requires g.operator !in {"AND", "OR"} && ErrorFree(env, msg, g)
    ensures FreshGroup(env, msg, g, caps).0 == Ok(false)
    ensures FreshGroup(env, msg, g, caps).0 == Ok(Meaning(env, msg, g))
       <==> (forall c <- g.conditions :: !Holds(env, msg, c)) && (forall sub <- g.groups :: !Meaning(env, msg, sub))
  {
    hide Outcome, FreshGroup;
    ErrorFreeGroup(env, msg, g, caps);
    MeanQuantified(env, msg, g.groups);
    assert Meaning(env, msg, g) <==> (exists c <- g.conditions :: Holds(env, msg, c)) || SomeMean(env, msg, g.groups);
    hide Meaning, Holds, ErrorFree;
  }

  // ----- captures of the two -----

  lemma {:induction false} ConditionCaptures(env: Env, msg: Message, operator: string, cs: seq<Condition>,
                                             caps: Captures, s: Scan)
    requires Faithful(env, s.extras) && caps.Keys <= s.captures.Keys
    requires ReportConditions(env, msg, cs, s).0.Ok?
    ensures FreshConditions(env, msg, operator, cs, caps).1.Keys <= ReportConditions(env, msg, cs, s).1.captures.Keys
    decreases |cs|
  {
    hide Outcome, CapturesAfter, Faithful, ReportCondition, Decide;
    if cs == [] {
    } else {
      ReportConditionIsOutcome(env, msg, cs[0], s);
      CapturesGrow(env, msg, cs[0], caps, s.captures);
      var s1 := ReportCondition(env, msg, cs[0], s).1;
      ConditionCaptures(env, msg, operator, cs[1..], CapturesAfter(env, msg, cs[0], caps), s1);
      ReportConditionsMeaning(env, msg, cs[1..], s1);
    }
  }

  /** Every name the short-circuit evaluator binds, the reporting one binds too. */
  lemma {:induction false} GroupCaptures(env: Env, msg: Message, g: Group, caps: Captures, s: Scan)
    requires Faithful(env, s.extras) && caps.Keys <= s.captures.Keys
    requires ReportGroup(env, msg, g, s).0.Ok?
    ensures FreshGroup(env, msg, g, caps).1.Keys <= ReportGroup(env, msg, g, s).1.captures.Keys
    decreases g, 1
  {
    hide Faithful, ReportConditions, FreshConditions, ReportGroups, FreshGroups;
    ReportConditionsMeaning(env, msg, g.conditions, s);
    ConditionCaptures(env, msg, g.operator, g.conditions, caps, s);
    var s1 := ReportConditions(env, msg, g.conditions, s).1;
    ReportGroupsMeaning(env, msg, g.groups, s1);
    var (step, caps1) := FreshConditions(env, msg, g.operator, g.conditions, caps);
    GroupsCaptures(env, msg, g.operator, g.groups, caps1, s1);
  }

  lemma {:induction false} GroupsCaptures(env: Env, msg: Message, operator: string, gs: seq<Group>, caps: Captures,
                                          s: Scan)
    requires Faithful(env, s.extras) && caps.Keys <= s.captures.Keys
    requires ReportGroups(env, msg, gs, s).0.Ok?
    ensures FreshGroups(env, msg, operator, gs, caps).1.Keys <= ReportGroups(env, msg, gs, s).1.captures.Keys
    decreases gs, 0
  {
    hide Faithful, Decide, ReportConditions, FreshConditions;
    if gs == [] {
    } else {
      ReportGroupMeaning(env, msg, gs[0], s);
      GroupCaptures(env, msg, gs[0], caps, s);
      var s1 := ReportGroup(env, msg, gs[0], s).1;
      ReportGroupsMeaning(env, msg, gs[1..], s1);
      GroupsCaptures(env, msg, operator, gs[1..], FreshGroup(env, msg, gs[0], caps).1, s1);
    }
  }

  // ----- whole rules -----

  predicate AllPass(grs: seq<GroupResult>) {
    forall g <- grs :: g.passed
  }

  lemma AllPassCons(gr: GroupResult, rest: seq<GroupResult>)
    ensures AllPass([gr] + rest) <==> gr.passed && AllPass(rest)
    ensures AllPass([gr]) <==> gr.passed
  {
    if AllPass([gr] + rest) {
      assert gr in [gr] + rest;
      assert forall g <- rest :: g in [gr] + rest;
    }
    if AllPass([gr]) { assert gr in [gr]; }
  }

  /** No root before this one fails. */
  predicate Reached(env: Env, msg: Message, gs: seq<Group>, i: nat)
    requires i <= |gs|
  {
    forall j :: 0 <= j < i ==> Meaning(env, msg, gs[j])
  }

  /** One entry for each root: the mirror of a root that is reached, zero for any other. */
  ghost predicate RootsMirror(env: Env, msg: Message, gs: seq<Group>, grs: seq<GroupResult>) {
    |grs| == |gs| && forall i :: 0 <= i < |gs| ==>
      if Reached(env, msg, gs, i) then Mirrors(env, msg, gs[i], grs[i]) else grs[i] == NOT_REACHED
  }

  lemma NoneBefore(env: Env, msg: Message, gs: seq<Group>)
    ensures Reached(env, msg, gs, 0)
  {
  }

  lemma ReachedCons(env: Env, msg: Message, gs: seq<Group>, i: nat)
    requires 0 < i <= |gs|
    ensures Reached(env, msg, gs, i) <==> Meaning(env, msg, gs[0]) && Reached(env, msg, gs[1..], i - 1)
  {
    hide Meaning;
    if Meaning(env, msg, gs[0]) && Reached(env, msg, gs[1..], i - 1) {
      forall j | 0 <= j < i ensures Meaning(env, msg, gs[j]) {
        if j > 0 { assert gs[1..][j - 1] == gs[j]; }
      }
    }
    if Reached(env, msg, gs, i) {
      forall j | 0 <= j < i - 1 ensures Meaning(env, msg, gs[1..][j]) {
        assert gs[1..][j] == gs[j + 1];
      }
    }
  }

  lemma RootsMirrorCons(env: Env, msg: Message, gs: seq<Group>, gr: GroupResult, rest: seq<GroupResult>)
    requires gs != [] && Mirrors(env, msg, gs[0], gr)
    requires if Meaning(env, msg, gs[0]) then RootsMirror(env, msg, gs[1..], rest) else rest == Unreached(|gs| - 1)
    ensures RootsMirror(env, msg, gs, [gr] + rest)
  {
    hide Mirrors, Meaning, Unreached, Reached;
    assert Reached(env, msg, gs, 0) by { NoneBefore(env, msg, gs); }
    forall i | 0 < i < |gs|
      ensures if Reached(env, msg, gs, i) then Mirrors(env, msg, gs[i], rest[i - 1]) else rest[i - 1] == NOT_REACHED
    {
      ReachedCons(env, msg, gs, i);
      assert gs[1..][i - 1] == gs[i];
    }
  }

  /** No root that is reached is in error. */
  predicate RootsErrorFree(env: Env, msg: Message, gs: seq<Group>)
    decreases |gs|
  {
    gs == [] || (ErrorFree(env, msg, gs[0]) && (Meaning(env, msg, gs[0]) ==> RootsErrorFree(env, msg, gs[1..])))
  }

  lemma {:induction false} RootsReported(env: Env, msg: Message, gs: seq<Group>, s: Scan)
    requires Faithful(env, s.extras)
    ensures var (r, s') := ReportRoots(env, msg, gs, s);
      && (r.Ok? <==> RootsErrorFree(env, msg, gs))
      && (r.Ok? ==> RootsMirror(env, msg, gs, r.value) && AllPass(r.value) == AllMean(env, msg, gs))
    decreases |gs|
  {
    hide Faithful, ReportGroup, Mirrors, Meaning, ErrorFree, RootsMirror, AllPass, Unreached;
    NoneToCheck(env, msg);
    if gs == [] {
    } else {
      ReportGroupMeaning(env, msg, gs[0], s);
      var (r, s1) := ReportGroup(env, msg, gs[0], s);
      if r.Ok? {
        MirrorHead(env, msg, gs[0], r.value);
        RootsReported(env, msg, gs[1..], s1);
        var tail := ReportRoots(env, msg, gs[1..], s1).0;
        if !r.value.passed {
          RootsMirrorCons(env, msg, gs, r.value, Unreached(|gs| - 1));
          AllPassCons(r.value, Unreached(|gs| - 1));
        } else if tail.Ok? {
          RootsMirrorCons(env, msg, gs, r.value, tail.value);
          AllPassCons(r.value, tail.value);
        }
      }
    }
  }

  lemma NoneToCheck(env: Env, msg: Message)
    ensures AllPass([]) && RootsMirror(env, msg, [], [])
  {
  }

  lemma MirrorHead(env: Env, msg: Message, g: Group, gr: GroupResult)
    requires Mirrors(env, msg, g, gr)
    ensures gr.passed == Meaning(env, msg, g)
  {
  }

  lemma {:induction false} RootsAgree(env: Env, msg: Message, gs: seq<Group>, caps: Captures, s: Scan)
    requires AllAndOr(gs) && Faithful(env, s.extras) && caps.Keys <= s.captures.Keys
    requires ReportRoots(env, msg, gs, s).0.Ok?
    ensures FreshRoots(env, msg, gs, caps).0 == Ok(AllMean(env, msg, gs))
    ensures AllMean(env, msg, gs) ==>
      FreshRoots(env, msg, gs, caps).1.Keys <= ReportRoots(env, msg, gs, s).1.captures.Keys
    decreases |gs|
  {
    hide Faithful, ReportGroup, FreshGroup, Mirrors, Meaning, ErrorFree, Unreached;
    if gs == [] {
    } else {
      ReportGroupMeaning(env, msg, gs[0], s);
      GroupCaptures(env, msg, gs[0], caps, s);
      FreshGroupMeaning(env, msg, gs[0], caps);
      var (r, s1) := ReportGroup(env, msg, gs[0], s);
      MirrorHead(env, msg, gs[0], r.value);
      if r.value.passed { RootsAgree(env, msg, gs[1..], FreshGroup(env, msg, gs[0], caps).1, s1); }
    }
  }

  /** Main result. Whenever the reporting evaluator gives no error, the short-circuit one gives none either
      and the same verdict, and on a match every capture name of the short-circuit evaluator is one of its own. */
  lemma EvaluatorsAgree(env: Env, msg: Message, rule: Rule)
    requires AllAndOr(rule.groups)
    requires EvaluateWithResults(env, msg, rule).Ok?
    ensures var report := EvaluateWithResults(env, msg, rule).value; var v := Evaluate(env, msg, rule);
      && v.result == Ok(report.passed)
      && (report.passed ==> v.captures.Keys <= report.captures.Keys)
  {
    hide ReportRoots, Faithful, FreshRoots, EvalRoots, AllMean;
    assert Faithful(env, NEW_EXTRAS) by { NewExtrasFaithful(env); }
    EvaluateRuleIsFresh(env, msg, rule, NEW_EXTRAS);
    if rule.groups == [] {
    } else {
      RootsAgree(env, msg, rule.groups, map[], Scan(NEW_EXTRAS, map[]));
      RootsReported(env, msg, rule.groups, Scan(NEW_EXTRAS, map[]));
    }
  }

  /** Main result. A report has one entry for each root, and holds when all roots do. The entry of a root that is
      reached repeats the whole group, with the all/any meaning of every group and condition in it; the others
      are zero. */
  lemma ReportMeaning(env: Env, msg: Message, rule: Rule)
    requires EvaluateWithResults(env, msg, rule).Ok?
    ensures var report := EvaluateWithResults(env, msg, rule).value; var gs := rule.groups;
      && report.passed == AllMean(env, msg, gs)
      && |report.groups| == |gs|
      && forall i :: 0 <= i < |gs| ==>
           if Reached(env, msg, gs, i) then Mirrors(env, msg, gs[i], report.groups[i])
             else report.groups[i] == NOT_REACHED
  {
    hide ReportRoots, Mirrors, Faithful, Reached;
    assert Faithful(env, NEW_EXTRAS) by { NewExtrasFaithful(env); }
    if rule.groups == [] {
    } else {
      RootsReported(env, msg, rule.groups, Scan(NEW_EXTRAS, map[]));
    }
  }

  /** A finding. An entry shows PASS or FAIL rightly exactly when its root is reached or does not hold. */
  lemma EntryRightIff(env: Env, msg: Message, rule: Rule, i: nat)
    requires EvaluateWithResults(env, msg, rule).Ok? && i < |rule.groups|
    ensures var report, gs := EvaluateWithResults(env, msg, rule).value, rule.groups;
      && |report.groups| == |gs|
      && (report.groups[i].passed == Meaning(env, msg, gs[i])
          <==> (forall j :: 0 <= j < i ==> Meaning(env, msg, gs[j])) || !Meaning(env, msg, gs[i]))
  {
    hide EvaluateWithResults, Mirrors, Meaning;
    ReportMeaning(env, msg, rule);
    var report := EvaluateWithResults(env, msg, rule).value;
    if Reached(env, msg, rule.groups, i) { MirrorHead(env, msg, rule.groups[i], report.groups[i]); }
  }

  /** All entries are right exactly when no root behind one that fails holds. */
  lemma AllEntriesRightIff(env: Env, msg: Message, rule: Rule)
    requires EvaluateWithResults(env, msg, rule).Ok?
    ensures var report, gs := EvaluateWithResults(env, msg, rule).value, rule.groups;
      && |report.groups| == |gs|
      && ((forall i :: 0 <= i < |gs| ==> report.groups[i].passed == Meaning(env, msg, gs[i]))
          <==> forall j, i :: 0 <= j < i < |gs| && !Meaning(env, msg, gs[j]) ==> !Meaning(env, msg, gs[i]))
  {
    hide EvaluateWithResults, Mirrors, Meaning;
    ReportMeaning(env, msg, rule);
    forall i: nat | i < |rule.groups|
      ensures EvaluateWithResults(env, msg, rule).value.groups[i].passed == Meaning(env, msg, rule.groups[i])
         <==> (forall j :: 0 <= j < i ==> Meaning(env, msg, rule.groups[j])) || !Meaning(env, msg, rule.groups[i])
    {
      EntryRightIff(env, msg, rule, i);
    }
  }

  /** A case in point: behind an empty OR group an empty AND group, which holds, is shown as failed. */
  lemma UnreachedShownAsFailed(env: Env, msg: Message, rule: Rule)
    requires rule.groups == [Group("OR", [], []), Group("AND", [], [])]
    ensures var report := EvaluateWithResults(env, msg, rule);
      && report.Ok? && |report.value.groups| == 2
      && Meaning(env, msg, rule.groups[1]) && !report.value.groups[1].passed
  {
    hide Faithful;
    var gs := rule.groups;
    assert Faithful(env, NEW_EXTRAS) by { NewExtrasFaithful(env); }
    assert !Meaning(env, msg, gs[0]) && ErrorFree(env, msg, gs[0]) && Meaning(env, msg, gs[1]);
    assert RootsErrorFree(env, msg, gs);
    RootsReported(env, msg, gs, Scan(NEW_EXTRAS, map[]));
    EntryRightIff(env, msg, rule, 1);
  }

  lemma {:induction false} RootsInErrorIff(env: Env, msg: Message, gs: seq<Group>)
    ensures !RootsErrorFree(env, msg, gs) <==> exists i: nat :: i < |gs| && InError(env, msg, gs, i)
    decreases |gs|
  {
    hide Meaning, ErrorFree;
    if gs == [] {
    } else {
      RootsInErrorIff(env, msg, gs[1..]);
      if InError(env, msg, gs, 0) {
      } else if exists i: nat :: i < |gs| && InError(env, msg, gs, i) {
        var i: nat :| i < |gs| && InError(env, msg, gs, i);
        InErrorCons(env, msg, gs, i);
      } else if exists i: nat :: i < |gs[1..]| && InError(env, msg, gs[1..], i) {
        var i: nat :| i < |gs[1..]| && InError(env, msg, gs[1..], i);
        InErrorCons(env, msg, gs, i + 1);
      }
    }
  }

  /** The root is in error somewhere, and it is reached: those before it hold without error. */
  predicate InError(env: Env, msg: Message, gs: seq<Group>, i: nat)
    requires i < |gs|
  {
    !ErrorFree(env, msg, gs[i]) && forall j :: 0 <= j < i ==> ErrorFree(env, msg, gs[j]) && Meaning(env, msg, gs[j])
  }

  lemma InErrorCons(env: Env, msg: Message, gs: seq<Group>, i: nat)
    requires 0 < i < |gs|
    ensures InError(env, msg, gs, i)
       <==> ErrorFree(env, msg, gs[0]) && Meaning(env, msg, gs[0]) && InError(env, msg, gs[1..], i - 1)
  {
    hide Meaning, ErrorFree;
    assert forall j :: 0 < j < |gs| ==> gs[j] == gs[1..][j - 1];
  }

  /** Main result. The report errs exactly when a condition, at any depth, of a root that is reached is in error:
      unlike the short-circuit evaluator it leaves none of them out. */
  lemma ReportErrsIff(env: Env, msg: Message, rule: Rule)
    ensures EvaluateWithResults(env, msg, rule).Err?
       <==> exists i: nat :: i < |rule.groups| && InError(env, msg, rule.groups, i)
  {
    hide Faithful, ReportRoots, InError;
    assert Faithful(env, NEW_EXTRAS) by { NewExtrasFaithful(env); }
    RootsInErrorIff(env, msg, rule.groups);
    RootsReported(env, msg, rule.groups, Scan(NEW_EXTRAS, map[]));
  }

  lemma NewExtrasFaithful(env: Env)
    ensures Faithful(env, NEW_EXTRAS)
  {
  }
}
