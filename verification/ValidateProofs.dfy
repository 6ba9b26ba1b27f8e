/** What acceptance by the validator means, and what it promises the evaluator. */
module ValidateProofs {
  import opened Wrappers
  import opened Text
  import opened RuleTypes
  import opened RuleExport
  import opened Engine
  import opened EngineProofs
  import opened ReportProofs
  import opened ConditionProofs
  import opened Validate
  import Schedule

  // ----- acceptance, told without the lists of problems -----

  /** One or more digits and " days", and the number is not zero. */
  ghost predicate GoodDays(v: string) {
    exists digits: string :: v == digits + " days" && digits != "" && AllDigits(digits) && Value(digits) > 0
  }

  ghost predicate GoodCondition(env: Env, c: ConditionExport) {
    && (if "header:" <= c.field then !Blank(c.field[|"header:"|..])
        else c.field in {"from", "to", "cc", "subject", "body", "content_type", "has_attachment"})
    && c.operator in {"equals", "not_equals", "contains", "not_contains", "starts_with", "ends_with", "matches_regex",
                      "exists", "not_exists", "older_than", "newer_than", "before", "after"}
    && (c.field == "has_attachment" ==> c.operator in {"exists", "not_exists"})
    && (c.operator == "matches_regex" ==> env.compile(c.value).Some?)
    && (c.operator in {"older_than", "newer_than"} ==> GoodDays(c.value))
    && (c.operator in {"before", "after"} ==> env.isDate(c.value))
  }

  ghost predicate GoodGroups(env: Env, gs: seq<GroupExport>)
    decreases gs
  {
    gs == [] ||
    (&& gs[0].operator in {"", "AND", "OR"} && (forall c <- gs[0].conditions :: GoodCondition(env, c))
     && GoodGroups(env, gs[0].groups) && GoodGroups(env, gs[1..]))
  }

  /** One of the nine kinds: a folder, a flag or an answer says something, a forward goes to an address, a webhook to a
      web URL; the other three need no value. */
  predicate GoodAction(lib: Lib, a: ActionExport) {
    || (a.kind in {"move_to_folder", "set_flag", "remove_flag", "auto_reply"} && !Blank(a.value))
    || (a.kind == "forward" && lib.isAddress(a.value))
    || (a.kind == "webhook" && lib.isWebUrl(a.value))
    || a.kind in {"mark_as_read", "mark_as_unread", "delete"}
  }

  function Deepest(gs: seq<GroupExport>): nat
    decreases gs
  {
    if gs == [] then 0
    else
      var here, rest := 1 + Deepest(gs[0].groups), Deepest(gs[1..]);
      if here < rest then rest else here
  }

  function Total(gs: seq<GroupExport>): nat
    decreases gs
  {
    if gs == [] then 0 else |gs[0].conditions| + Total(gs[0].groups) + Total(gs[1..])
  }

  predicate GoodSchedule(lib: Lib, re: Export) {
    && Schedule.ValidDays(re.scheduleDays)
    && (re.scheduleStart == "" || lib.isTime(re.scheduleStart))
    && (re.scheduleEnd == "" || lib.isTime(re.scheduleEnd))
  }

  lemma TrimsToNothing(s: string)
    ensures Trim(s) == "" <==> Blank(s)
  {
    hide Trim, IsSpace;
    var lead, trail := TrimMeaning(s);
    if Trim(s) != "" {
      assert s[|lead|] == Trim(s)[0] && s[|lead|] in s;
    } else {
      assert s == lead + trail;
    }
  }

  lemma DayDigitsMeaning(v: string, digits: string)
    ensures DayDigits(v) == Some(digits) <==> v == digits + " days" && digits != "" && AllDigits(digits)
  {
    hide LeadingDigits;
    if v == digits + " days" && digits != "" && AllDigits(digits) { DigitsLead(digits, " days"); }
  }

  lemma GoodDaysIff(v: string)
    ensures GoodDays(v) <==> DayDigits(v).Some? && Value(DayDigits(v).value) > 0
  {
    hide DayDigits, Value;
    forall digits { DayDigitsMeaning(v, digits); }
    if DayDigits(v).Some? {
      var digits := DayDigits(v).value;
      assert v == digits + " days" && AllDigits(digits);
    }
  }

  /** A condition has no problems exactly when it is good. */
  lemma ConditionIff(env: Env, i: nat, c: ConditionExport)
    ensures ConditionProblems(env, i, c) == [] <==> GoodCondition(env, c)
  {
    hide Trim, DayDigits, Value, GoodDays, Blank;
    GoodDaysIff(c.value);
    if "header:" <= c.field { TrimsToNothing(HeaderName(c.field)); }
  }

  /** So does an action. */
  lemma ActionIff(lib: Lib, i: nat, a: ActionExport)
    ensures ActionProblems(lib, i, a) == [] <==> GoodAction(lib, a)
  {
    hide Trim, Blank;
    TrimsToNothing(a.value);
  }

  lemma {:induction false} ConditionsIff(env: Env, cs: seq<ConditionExport>, i: nat)
    requires i <= |cs|
    ensures ConditionsProblems(env, cs, i) == [] <==> forall k :: i <= k < |cs| ==> GoodCondition(env, cs[k])
    decreases |cs| - i
  {
    hide ConditionProblems, GoodCondition;
    if i >= |cs| {
    } else {
      ConditionIff(env, i, cs[i]);
      ConditionsIff(env, cs, i + 1);
    }
  }

  lemma AllGoodIff(env: Env, cs: seq<ConditionExport>)
    ensures ConditionsProblems(env, cs, 0) == [] <==> forall c <- cs :: GoodCondition(env, c)
  {
    hide ConditionsProblems, GoodCondition;
    ConditionsIff(env, cs, 0);
    assert (forall k :: 0 <= k < |cs| ==> GoodCondition(env, cs[k])) <==> forall c <- cs :: GoodCondition(env, c);
  }

  lemma {:induction false} GroupsIff(env: Env, gs: seq<GroupExport>, depth: nat)
    requires depth > 0
    ensures GroupsProblems(env, gs, depth) == []
        <==> GoodGroups(env, gs) && (gs == [] || Deepest(gs) + depth <= MAX_DEPTH + 1)
    ensures GroupsProblems(env, gs, depth) == [] ==> CountedAll(gs, depth) == Total(gs)
    decreases gs
  {
    hide ConditionsProblems, GoodCondition;
    if gs == [] {
    } else {
      AllGoodIff(env, gs[0].conditions);
      GroupsIff(env, gs[0].groups, depth + 1);
      GroupsIff(env, gs[1..], depth);
    }
  }

  lemma {:induction false} DaysIff(days: seq<string>)
    ensures FirstUnknownDay(days).None? <==> forall d <- days :: d == "" || d in Schedule.DAY_NAMES
  {
    if days == [] {
    } else {
      assert days == [days[0]] + days[1..];
      DaysIff(days[1..]);
    }
  }

  lemma ScheduleIff(lib: Lib, re: Export)
    ensures ScheduleProblems(lib, re) == [] <==> GoodSchedule(lib, re)
  {
    DaysIff(Schedule.DayList(re.scheduleDays));
    hide Schedule.DayList;
  }

  lemma {:induction false} ActionsIff(lib: Lib, actions: seq<ActionExport>, i: nat)
    requires i <= |actions|
    ensures ActionsProblems(lib, actions, i) == []
        <==> forall k :: i <= k < |actions| ==> GoodAction(lib, actions[k])
    decreases |actions| - i
  {
    hide ActionProblems, GoodAction;
    if i >= |actions| {
    } else {
      ActionIff(lib, i, actions[i]);
      ActionsIff(lib, actions, i + 1);
    }
  }

  /** Main result. What the validator accepts: a name, known operators, good conditions, at most 50 of them in
      groups at most five deep, a good schedule and good actions; with groups present, only they are looked at. */
  lemma AcceptedIff(env: Env, lib: Lib, re: Export)
    ensures ValidateRuleExport(env, lib, re) == [] <==>
      && Trim(re.name) != "" && re.name != "_catch_all" && re.operator in {"", "AND", "OR"}
      && (if re.groups != []
          then GoodGroups(env, re.groups) && Deepest(re.groups) <= 5 && Total(re.groups) <= 50
          else (forall c <- re.conditions :: GoodCondition(env, c)) && |re.conditions| <= 50)
      && GoodSchedule(lib, re)
      && forall a <- re.actions :: GoodAction(lib, a)
  {
    hide *;
    Limits();
    HeadIff(re);
    BodyIff(env, re);
    ScheduleIff(lib, re);
    ActionsIff(lib, re.actions, 0);
    assert (forall k :: 0 <= k < |re.actions| ==> GoodAction(lib, re.actions[k]))
      <==> forall a <- re.actions :: GoodAction(lib, a);
    PartsIff(env, lib, re);
  }

  lemma Limits()
    ensures MAX_DEPTH == 5 && MAX_CONDITIONS == 50
  {
  }

  lemma HeadIff(re: Export)
    ensures HeadProblems(re) == []
        <==> Trim(re.name) != "" && re.name != "_catch_all" && re.operator in {"", "AND", "OR"}
  {
    hide Trim;
  }

  lemma BodyIff(env: Env, re: Export)
    ensures (if re.groups != []
             then GroupsProblems(env, re.groups, 1) == [] && CountedAll(re.groups, 1) <= MAX_CONDITIONS
             else ConditionsProblems(env, re.conditions, 0) == [] && |re.conditions| <= MAX_CONDITIONS) <==>
            (if re.groups != [] then GoodGroups(env, re.groups) && Deepest(re.groups) <= MAX_DEPTH
             && Total(re.groups) <= MAX_CONDITIONS
             else (forall c <- re.conditions :: GoodCondition(env, c)) && |re.conditions| <= MAX_CONDITIONS)
  {
    GroupsIff(env, re.groups, 1);
    ConditionsIff(env, re.conditions, 0);
    hide GroupsProblems, ConditionsProblems, GoodGroups, GoodCondition, Deepest, Total, CountedAll;
    assert (forall k :: 0 <= k < |re.conditions| ==> GoodCondition(env, re.conditions[k]))
      <==> forall c <- re.conditions :: GoodCondition(env, c);
  }

  lemma PartsIff(env: Env, lib: Lib, re: Export)
    ensures ValidateRuleExport(env, lib, re) == [] <==>
      && HeadProblems(re) == []
      && (if re.groups != [] then GroupsProblems(env, re.groups, 1) == [] && CountedAll(re.groups, 1) <= MAX_CONDITIONS
          else ConditionsProblems(env, re.conditions, 0) == [] && |re.conditions| <= MAX_CONDITIONS)
      && ScheduleProblems(lib, re) == [] && ActionsProblems(lib, re.actions, 0) == []
  {
    hide HeadProblems, GroupsProblems, CountedAll, ConditionsProblems, ScheduleProblems, ActionsProblems;
  }

  // ----- day counts -----

  /** A good day count is read by the evaluator exactly when it fits in an int. */
  lemma GoodDaysParsed(v: string)
    requires GoodDays(v)
    ensures DayDigits(v).Some?
    ensures ParseDays(v) == if Value(DayDigits(v).value) <= MAX_INT64 then Some(Value(DayDigits(v).value)) else None
  {
    GoodDaysIff(v);
    var digits := DayDigits(v).value;
    assert v[0] == digits[0] && digits[0] in digits;
  }

  /** 106751 is the last day count whose nanoseconds fit in 64 bits. */
  lemma DaysExactIff(n: int)
    requires 0 < n <= MAX_INT64
    ensures Days(n) == n * 86_400_000_000_000 <==> n <= 106_751
  {
    var ns := n * 86_400_000_000_000;
    if n <= 106_751 {
      assert 0 < ns <= MAX_INT64;
    } else {
      assert ns > MAX_INT64;
    }
  }

  /** Main result. No message is both older than M days and newer than N days with N <= M, up to the last day
      count that fits. */
  lemma OlderAndNewerExclude(msg: Message, older: Condition, newer: Condition, m: int, n: int)
    requires ParseDays(older.value) == Some(m) && ParseDays(newer.value) == Some(n)
    requires n <= m <= 106_751
    ensures !(AgeTest(msg, older, false) == Ok(true) && AgeTest(msg, newer, true) == Ok(true))
  {
    DaysExactIff(m);
    DaysExactIff(n);
    hide ParseDays;
    assert n * 86_400_000_000_000 <= m * 86_400_000_000_000;
  }

  /** A finding. One day more and the product wraps: a message from now counts as older than 106752 days. */
  lemma WrappedDays(msg: Message, c: Condition)
    requires ParseDays(c.value) == Some(106_752) && msg.dated && msg.age >= 0
    ensures AgeTest(msg, c, false) == Ok(true)
  {
    hide ParseDays;
    assert Days(106_752) == 106_752 * 86_400_000_000_000 - 0x1_0000_0000_0000_0000;
  }

  // ----- evaluation of accepted rules -----

  /** Evaluating the condition cannot fail. */
  predicate Safe(env: Env, c: Condition) {
    && (c.operator in {"older_than", "newer_than"} ==> ParseDays(c.value).Some?)
    && (c.operator in {"before", "after"} ==> env.isDate(c.value))
  }

  lemma OutcomeIff(env: Env, msg: Message, c: Condition)
    ensures Outcome(env, msg, c).Ok? <==> Safe(env, c)
  {
    hide ParseDays, Judge;
  }

  /** The day count of the condition, if it has one, fits in 64 bits. */
  predicate DaysFit(c: Condition) {
    c.operator in {"older_than", "newer_than"} && DayDigits(c.value).Some? ==>
      Value(DayDigits(c.value).value) <= MAX_INT64
  }

  predicate DaysFitIn(g: Group)
    decreases g, 1
  {
    (forall c <- g.conditions :: DaysFit(c)) && AllDaysFit(g.groups)
  }

  predicate AllDaysFit(gs: seq<Group>)
    decreases gs, 0
  {
    gs == [] || (DaysFitIn(gs[0]) && AllDaysFit(gs[1..]))
  }

  lemma GoodErrsIff(env: Env, msg: Message, c: ConditionExport)
    requires GoodCondition(env, c)
    ensures var r := Condition(c.field, c.operator, c.value); Outcome(env, msg, r).Ok? <==> DaysFit(r)
  {
    OutcomeIff(env, msg, Condition(c.field, c.operator, c.value));
    if c.operator in {"older_than", "newer_than"} { GoodDaysParsed(c.value); }
    hide ParseDays, DayDigits, Value, Trim, Outcome;
  }

  lemma GoodConditionsIff(env: Env, msg: Message, cs: seq<ConditionExport>)
    requires forall c <- cs :: GoodCondition(env, c)
    ensures (forall c <- ConditionsIn(cs) :: Outcome(env, msg, c).Ok?) <==> forall c <- ConditionsIn(cs) :: DaysFit(c)
  {
    hide GoodCondition, DaysFit, Outcome;
    forall c | c in ConditionsIn(cs) ensures Outcome(env, msg, c).Ok? <==> DaysFit(c) {
      var i :| 0 <= i < |cs| && ConditionsIn(cs)[i] == c;
      assert cs[i] in cs;
      GoodErrsIff(env, msg, cs[i]);
    }
  }

  /** In accepted groups a condition can be in error only by its day count. */
  lemma {:induction false} GoodGroupsIff(env: Env, msg: Message, gs: seq<GroupExport>)
    requires GoodGroups(env, gs)
    ensures AllErrorFree(env, msg, GroupsIn(gs)) <==> AllDaysFit(GroupsIn(gs))
    ensures forall i ::
      0 <= i < |GroupsIn(gs)| ==> (ErrorFree(env, msg, GroupsIn(gs)[i]) <==> DaysFitIn(GroupsIn(gs)[i]))
    decreases gs
  {
    hide GoodCondition, DaysFit, Outcome;
    if gs == [] {
    } else {
      assert GroupsIn(gs)[1..] == GroupsIn(gs[1..]);
      GoodConditionsIff(env, msg, gs[0].conditions);
      GoodGroupsIff(env, msg, gs[0].groups);
      GoodGroupsIff(env, msg, gs[1..]);
      hide ErrorFree, DaysFitIn;
      assert forall i :: 0 < i < |GroupsIn(gs)| ==> GroupsIn(gs)[i] == GroupsIn(gs[1..])[i - 1];
      assert ErrorFree(env, msg, GroupsIn(gs)[0]) <==> DaysFitIn(GroupsIn(gs)[0]);
    }
  }

  lemma AcceptedErrorFreeIff(env: Env, lib: Lib, re: Export, name: string, msg: Message)
    requires ValidateRuleExport(env, lib, re) == []
    requires re.conditions == [] || re.groups == []
    ensures var gs := ExportToRule(re, name).groups;
      && (AllErrorFree(env, msg, gs) <==> AllDaysFit(gs))
      && forall i :: 0 <= i < |gs| ==> (ErrorFree(env, msg, gs[i]) <==> DaysFitIn(gs[i]))
  {
    AcceptedIff(env, lib, re);
    hide ValidateRuleExport, GoodCondition, DaysFit, Outcome, GoodSchedule, GoodAction, Trim, Blank;
    if re.groups == [] {
      var gs := ExportToRule(re, name).groups;
      if re.conditions != [] {
        GoodConditionsIff(env, msg, re.conditions);
        assert gs[1..] == [] && AllErrorFree(env, msg, []) && AllDaysFit([]);
        assert ErrorFree(env, msg, gs[0]) <==> DaysFitIn(gs[0]);
      }
    } else {
      GoodGroupsIff(env, msg, re.groups);
    }
  }

  /** Main result. An accepted rule with flat conditions or groups, not both, evaluates without error on every
      message, as long as its day counts fit in 64 bits; and all its operators are AND or OR. */
  lemma AcceptedNeverErrs(env: Env, lib: Lib, re: Export, name: string, msg: Message)
    requires ValidateRuleExport(env, lib, re) == []
    requires re.conditions == [] || re.groups == []
    requires AllDaysFit(ExportToRule(re, name).groups)
    ensures AllAndOr(ExportToRule(re, name).groups)
    ensures Evaluate(env, msg, ExportToRule(re, name)).result.Ok?
  {
    var rule := ExportToRule(re, name);
    ImportedOperators(re, name);
    AcceptedErrorFreeIff(env, lib, re, name, msg);
    hide ValidateRuleExport, ExportToRule, AllErrorFree, AllDaysFit, AllAndOr, Faithful;
    assert Faithful(env, NEW_EXTRAS) by { NewExtrasFaithful(env); }
    EvaluateRuleIsFresh(env, msg, rule, NEW_EXTRAS);
    ErrorFreeRoots(env, msg, rule.groups, map[]);
  }

  /** Main result. For such a rule the full evaluation fails, on a given message, exactly when some root with a
      day count that does not fit in 64 bits, which the validator does not look at, comes behind roots that all
      hold and fit. */
  lemma AcceptedErrsIff(env: Env, lib: Lib, re: Export, name: string, msg: Message)
    requires ValidateRuleExport(env, lib, re) == []
    requires re.conditions == [] || re.groups == []
    ensures var gs := ExportToRule(re, name).groups;
      EvaluateWithResults(env, msg, ExportToRule(re, name)).Err? <==>
        exists i: nat :: i < |gs| && !DaysFitIn(gs[i])
          && forall j :: 0 <= j < i ==> DaysFitIn(gs[j]) && Meaning(env, msg, gs[j])
  {
    hide ValidateRuleExport, ExportToRule, EvaluateWithResults, ErrorFree, DaysFitIn, Meaning, AllErrorFree, AllDaysFit;
    var gs := ExportToRule(re, name).groups;
    AcceptedErrorFreeIff(env, lib, re, name, msg);
    ReportErrsIff(env, msg, ExportToRule(re, name));
    if i: nat :| i < |gs| && InError(env, msg, gs, i) {
      assert !DaysFitIn(gs[i]);
    }
    if i: nat :|
      i < |gs| && !DaysFitIn(gs[i]) && forall j :: 0 <= j < i ==> DaysFitIn(gs[j]) && Meaning(env, msg, gs[j])
    {
      assert InError(env, msg, gs, i);
    }
  }

  /** With a flat list there is one root: it fails, on whatever message, exactly when a day count does not fit. */
  lemma AcceptedListErrsIff(env: Env, lib: Lib, re: Export, name: string, msg: Message)
    requires ValidateRuleExport(env, lib, re) == [] && re.conditions != [] && re.groups == []
    ensures EvaluateWithResults(env, msg, ExportToRule(re, name)).Err? <==>
            exists c <- ConditionsIn(re.conditions) :: !DaysFit(c)
  {
    AcceptedErrsIff(env, lib, re, name, msg);
    hide ValidateRuleExport, EvaluateWithResults, DaysFit, Meaning;
    var gs := ExportToRule(re, name).groups;
    assert |gs| == 1 && gs[0].conditions == ConditionsIn(re.conditions) && gs[0].groups == [];
    assert DaysFitIn(gs[0]) <==> forall c <- ConditionsIn(re.conditions) :: DaysFit(c);
  }

  /** A finding. With groups present, flat conditions are imported without having been looked at. */
  lemma BothLetAnythingThrough(env: Env, lib: Lib, re: Export, cs: seq<ConditionExport>, name: string)
    requires ValidateRuleExport(env, lib, re) == [] && re.groups != [] && cs != []
    ensures ValidateRuleExport(env, lib, re.(conditions := cs)) == []
    ensures ExportToRule(re.(conditions := cs), name).groups == [Group(AndOrElseOr(re.operator), ConditionsIn(cs), [])]
  {
    hide HeadProblems, GroupsProblems, CountedAll, ConditionsProblems, ScheduleProblems, ActionsProblems;
    HeadsAlike(lib, re, cs);
  }

  /** The conditions that are imported have been looked at when there are no groups, or no conditions; and exactly
      when there are groups, conditions that are no good can be put beside them and accepted. */
  lemma UncheckedConditionsIff(env: Env, lib: Lib, re: Export)
    requires ValidateRuleExport(env, lib, re) == []
    ensures re.groups == [] || re.conditions == [] ==>
      (forall c <- re.conditions :: GoodCondition(env, c)) && GoodGroups(env, re.groups)
    ensures (exists cs: seq<ConditionExport> ::
              && ValidateRuleExport(env, lib, re.(conditions := cs)) == []
              && exists c <- cs :: !GoodCondition(env, c))
       <==> re.groups != []
  {
    hide ValidateRuleExport, GoodCondition, GoodSchedule, GoodAction, Trim, Blank;
    AcceptedIff(env, lib, re);
    if re.groups != [] {
      var bad := ConditionExport("", "", "");
      NoGood(env, bad);
      BothLetAnythingThrough(env, lib, re, [bad], re.name);
      assert bad in [bad];
    } else {
      forall cs: seq<ConditionExport> | ValidateRuleExport(env, lib, re.(conditions := cs)) == []
        ensures forall c <- cs :: GoodCondition(env, c)
      {
        AcceptedIff(env, lib, re.(conditions := cs));
      }
    }
  }

  lemma NoGood(env: Env, c: ConditionExport)
    requires c.field == "" && c.operator == ""
    ensures !GoodCondition(env, c)
  {
  }

  lemma HeadsAlike(lib: Lib, re: Export, cs: seq<ConditionExport>)
    ensures HeadProblems(re.(conditions := cs)) == HeadProblems(re)
    ensures ScheduleProblems(lib, re.(conditions := cs)) == ScheduleProblems(lib, re)
  {
  }
}
