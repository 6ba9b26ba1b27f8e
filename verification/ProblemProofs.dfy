/** The problems the validator lists are exactly those the rule has. */
module ProblemProofs {
  import opened Wrappers
  import opened Text
  import opened RuleExport
  import opened Engine
  import opened ConditionProofs
  import opened Validate
  import opened ValidateProofs
  import Schedule

  /** Digits and " days". */
  predicate CountsDays(v: string, digits: string) {
    v == digits + " days" && digits != "" && AllDigits(digits)
  }

  const KINDS := {
    "move_to_folder", "mark_as_read", "mark_as_unread", "delete", "forward", "set_flag", "remove_flag", "auto_reply",
    "webhook"}

  /** Condition number i has this problem. */
  ghost predicate ConditionHas(env: Env, i: nat, c: ConditionExport, p: Problem) {
    var known := c.operator in VALID_OPERATORS;
    match p
    case HeaderNameRequired(k) => k == i && "header:" <= c.field && Blank(c.field[|"header:"|..])
    case UnknownField(k, field) => k == i && field == c.field && !("header:" <= c.field) && c.field !in VALID_FIELDS
    case UnknownOperator(k, operator) => k == i && operator == c.operator && !known
    case AttachmentOnlyExists(k) =>
      k == i && known && c.field == "has_attachment" && c.operator !in {"exists", "not_exists"}
    case InvalidRegex(k) => k == i && c.operator == "matches_regex" && env.compile(c.value).None?
    case ExpectedDays(k) =>
      k == i && c.operator in {"older_than", "newer_than"} && forall digits :: !CountsDays(c.value, digits)
    case DaysNotPositive(k) =>
      k == i && c.operator in {"older_than", "newer_than"}
      && exists digits :: CountsDays(c.value, digits) && Value(digits) == 0
    case ExpectedDate(k) => k == i && c.operator in {"before", "after"} && !env.isDate(c.value)
    case _ => false
  }

  lemma DayProblemIff(i: nat, v: string, p: Problem)
    ensures p in DayProblems(i, v) <==>
      || (p == ExpectedDays(i) && forall digits :: !CountsDays(v, digits))
      || (p == DaysNotPositive(i) && exists digits :: CountsDays(v, digits) && Value(digits) == 0)
  {
    hide DayDigits, Value;
    forall digits { DayDigitsMeaning(v, digits); }
    if DayDigits(v).Some? {
      var digits := DayDigits(v).value;
      assert CountsDays(v, digits);
      forall other | CountsDays(v, other) ensures other == digits {
        assert DayDigits(v) == Some(other);
      }
    }
  }

  lemma ConditionProblemIff(env: Env, i: nat, c: ConditionExport, p: Problem)
    ensures p in ConditionProblems(env, i, c) <==> ConditionHas(env, i, c, p)
  {
    hide DayProblems, Trim, Blank, CountsDays, Value;
    DayProblemIff(i, c.value, p);
    if "header:" <= c.field { TrimsToNothing(c.field[|"header:"|..]); }
  }

  lemma {:induction false} ConditionsProblemIff(env: Env, cs: seq<ConditionExport>, i: nat, p: Problem)
    requires i <= |cs|
    ensures p in ConditionsProblems(env, cs, i) <==> exists k: nat :: i <= k < |cs| && ConditionHas(env, k, cs[k], p)
    decreases |cs| - i
  {
    hide ConditionProblems, ConditionHas;
    if i >= |cs| {
    } else {
      ConditionProblemIff(env, i, cs[i], p);
      ConditionsProblemIff(env, cs, i + 1, p);
    }
  }

  predicate UnknownOperatorHere(operator: string, p: Problem) {
    operator !in {"", "AND", "OR"} && p == UnknownGroupOperator(operator)
  }

  /** Some group has the problem: it lies too deep, or it is looked at and its operator or a condition has it. */
  ghost predicate GroupsHave(env: Env, gs: seq<GroupExport>, depth: nat, p: Problem)
    decreases gs
  {
    gs != [] &&
    (|| (if depth > 5 then p == TooDeep
         else || UnknownOperatorHere(gs[0].operator, p)
              || (exists k: nat :: k < |gs[0].conditions| && ConditionHas(env, k, gs[0].conditions[k], p))
              || GroupsHave(env, gs[0].groups, depth + 1, p))
     || GroupsHave(env, gs[1..], depth, p))
  }

  lemma {:induction false} GroupsProblemIff(env: Env, gs: seq<GroupExport>, depth: nat, p: Problem)
    ensures p in GroupsProblems(env, gs, depth) <==> GroupsHave(env, gs, depth, p)
    decreases gs
  {
    hide ConditionsProblems, ConditionHas;
    if gs == [] {
    } else {
      ConditionsProblemIff(env, gs[0].conditions, 0, p);
      GroupsProblemIff(env, gs[0].groups, depth + 1, p);
      GroupsProblemIff(env, gs[1..], depth, p);
    }
  }

  /** Action number i has this problem. */
  predicate ActionHas(lib: Lib, i: nat, a: ActionExport, p: Problem) {
    match p
    case UnknownAction(k, kind) => k == i && kind == a.kind && a.kind !in KINDS
    case FolderRequired(k) => k == i && a.kind == "move_to_folder" && Blank(a.value)
    case InvalidEmail(k) => k == i && a.kind == "forward" && !lib.isAddress(a.value)
    case InvalidUrl(k) => k == i && a.kind == "webhook" && !lib.isWebUrl(a.value)
    case ValueRequired(k) => k == i && a.kind in {"set_flag", "remove_flag", "auto_reply"} && Blank(a.value)
    case _ => false
  }

  lemma ActionProblemIff(lib: Lib, i: nat, a: ActionExport, p: Problem)
    ensures p in ActionProblems(lib, i, a) <==> ActionHas(lib, i, a, p)
  {
    hide Trim, Blank;
    TrimsToNothing(a.value);
  }

  lemma {:induction false} ActionsProblemIff(lib: Lib, actions: seq<ActionExport>, i: nat, p: Problem)
    requires i <= |actions|
    ensures p in ActionsProblems(lib, actions, i)
       <==> exists k: nat :: i <= k < |actions| && ActionHas(lib, k, actions[k], p)
    decreases |actions| - i
  {
    hide ActionProblems, ActionHas;
    if i >= |actions| {
    } else {
      ActionProblemIff(lib, i, actions[i], p);
      ActionsProblemIff(lib, actions, i + 1, p);
    }
  }

  /** The one problem of a schedule: its first unknown day, else a start, else an end that is no time. */
  ghost predicate ScheduleHas(lib: Lib, re: Export, p: Problem) {
    var days := Schedule.DayList(re.scheduleDays);
    match p
    case UnknownDay(day) =>
      exists k :: 0 <= k < |days| && days[k] == day && UnknownName(day)
                  && forall j :: 0 <= j < k ==> !UnknownName(days[j])
    case InvalidTime(time) =>
      && (forall day <- days :: !UnknownName(day)) && time != "" && !lib.isTime(time)
      && (time == re.scheduleStart
          || (time == re.scheduleEnd && (re.scheduleStart == "" || lib.isTime(re.scheduleStart))))
    case _ => false
  }

  predicate UnknownName(day: string) {
    day !in {"", "mon", "tue", "wed", "thu", "fri", "sat", "sun"}
  }

  lemma {:induction false} FirstUnknownMeaning(days: seq<string>)
    ensures match FirstUnknownDay(days)
      case None => forall day <- days :: !UnknownName(day)
      case Some(day) => exists k :: 0 <= k < |days| && days[k] == day && UnknownName(day)
                                 && forall j :: 0 <= j < k ==> !UnknownName(days[j])
    decreases |days|
  {
    if days == [] {
    } else {
      assert days == [days[0]] + days[1..];
      FirstUnknownMeaning(days[1..]);
      if UnknownName(days[0]) {
        assert days[0] == days[0];
      } else if FirstUnknownDay(days).Some? {
        var rest := days[1..];
        var k :| 0 <= k < |rest| && rest[k] == FirstUnknownDay(days).value
                 && forall j :: 0 <= j < k ==> !UnknownName(rest[j]);
        assert days[k + 1] == rest[k] && forall j :: 0 < j < k + 1 ==> days[j] == rest[j - 1];
      }
    }
  }

  lemma ScheduleProblemIff(lib: Lib, re: Export, p: Problem)
    ensures p in ScheduleProblems(lib, re) <==> ScheduleHas(lib, re, p)
  {
    hide Schedule.DayList, UnknownName;
    FirstUnknownMeaning(Schedule.DayList(re.scheduleDays));
  }

  /** The rule has this problem. */
  ghost predicate RuleHas(env: Env, lib: Lib, re: Export, p: Problem) {
    || (p == NameRequired && Blank(re.name))
    || (p == NameReserved && re.name == "_catch_all")
    || UnknownOperatorHere(re.operator, p)
    || (if re.groups != [] then GroupsHave(env, re.groups, 1, p)
        else exists k: nat :: k < |re.conditions| && ConditionHas(env, k, re.conditions[k], p))
    || (p == TooMany && (if re.groups != [] then Shallow(re.groups, 1) else |re.conditions|) > 50)
    || ScheduleHas(lib, re, p)
    || exists k: nat :: k < |re.actions| && ActionHas(lib, k, re.actions[k], p)
  }

  /** The conditions of groups at most five deep. */
  function Shallow(gs: seq<GroupExport>, depth: nat): nat
    decreases gs
  {
    if gs == [] || depth > 5 then 0
    else |gs[0].conditions| + Shallow(gs[0].groups, depth + 1) + Shallow(gs[1..], depth)
  }

  lemma {:induction false} CountedShallow(gs: seq<GroupExport>, depth: nat)
    ensures CountedAll(gs, depth) == Shallow(gs, depth)
    decreases gs
  {
    if gs == [] {
    } else {
      CountedShallow(gs[0].groups, depth + 1);
      CountedShallow(gs[1..], depth);
    }
  }

  /** Main result. A problem is reported exactly when the rule has it. */
  lemma ReportedIff(env: Env, lib: Lib, re: Export, p: Problem)
    ensures p in ValidateRuleExport(env, lib, re) <==> RuleHas(env, lib, re, p)
  {
    hide ConditionsProblems, GroupsProblems, CountedAll, Shallow, ActionsProblems, ScheduleProblems, ScheduleHas,
         ConditionHas, ActionHas, GroupsHave, Trim, Blank;
    TrimsToNothing(re.name);
    GroupsProblemIff(env, re.groups, 1, p);
    ConditionsProblemIff(env, re.conditions, 0, p);
    CountedShallow(re.groups, 1);
    ScheduleProblemIff(lib, re, p);
    ActionsProblemIff(lib, re.actions, 0, p);
  }
}
