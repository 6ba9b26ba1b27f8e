/** The validator of portable rules (internal/db/validate.go) and what it promises the evaluator. */
module Validate {
  import opened Wrappers
  import opened Text
  import opened RuleTypes
  import opened RuleExport
  import opened Engine
  import opened Seqs
  import Schedule

  /** Library parsers the validator asks. */
  datatype Lib = Lib(isTime: string -> bool, isAddress: string -> bool, isWebUrl: string -> bool)

  datatype Problem =
    | NameRequired | NameReserved | UnknownGroupOperator(operator: string) | TooDeep | TooMany
    | HeaderNameRequired(i: nat) | UnknownField(i: nat, field: string) | UnknownOperator(i: nat, operator: string)
    | AttachmentOnlyExists(i: nat) | InvalidRegex(i: nat)
    | ExpectedDays(i: nat) | DaysNotPositive(i: nat) | ExpectedDate(i: nat)
    | UnknownDay(day: string) | InvalidTime(time: string)
    | UnknownAction(i: nat, kind: string)
    | FolderRequired(i: nat) | InvalidEmail(i: nat) | InvalidUrl(i: nat) | ValueRequired(i: nat)

  const MAX_DEPTH := 5
  const MAX_CONDITIONS := 50

  const VALID_FIELDS := {"from", "to", "cc", "subject", "body", "content_type", "has_attachment"}

  const VALID_OPERATORS := {
    "equals", "not_equals", "contains", "not_contains", "starts_with", "ends_with", "matches_regex", "exists",
      "not_exists",
    "older_than", "newer_than", "before", "after"}

  // ----- conditions -----

  /** The digits of a value of the form "N days". */
  function DayDigits(v: string): Option<string> {
    var digits := LeadingDigits(v);
    if digits != "" && v == digits + " days" then Some(digits) else None
  }

  /** The number Atoi returns: past 64 bits it stops at the largest. */
  function Atoi(digits: string): nat
    requires forall c <- digits :: IsDigit(c)
  {
    if Value(digits) <= MAX_INT64 then Value(digits) else MAX_INT64
  }

  function DayProblems(i: nat, v: string): seq<Problem> {
    match DayDigits(v)
    case None => [ExpectedDays(i)]
    case Some(digits) => if Atoi(digits) <= 0 then [DaysNotPositive(i)] else []
  }

  function FieldProblems(i: nat, c: ConditionExport): seq<Problem> {
    if IsHeader(c.field) then (if Trim(HeaderName(c.field)) == "" then [HeaderNameRequired(i)] else [])
    else if c.field !in VALID_FIELDS then [UnknownField(i, c.field)] else []
  }

  /** `validateCondition`. */
  function ConditionProblems(env: Env, i: nat, c: ConditionExport): seq<Problem> {
    if c.operator !in VALID_OPERATORS then FieldProblems(i, c) + [UnknownOperator(i, c.operator)]
    else
      FieldProblems(i, c)
      + (if c.field == "has_attachment" && c.operator !in {"exists", "not_exists"} then [AttachmentOnlyExists(i)]
         else [])
      + (match c.operator
         case "matches_regex" => if env.compile(c.value).None? then [InvalidRegex(i)] else []
         case "older_than" => DayProblems(i, c.value)
         case "newer_than" => DayProblems(i, c.value)
         case "before" => if !env.isDate(c.value) then [ExpectedDate(i)] else []
         case "after" => if !env.isDate(c.value) then [ExpectedDate(i)] else []
         case _ => [])
  }

  function ConditionsProblems(env: Env, cs: seq<ConditionExport>, i: nat): seq<Problem>
    requires i <= |cs|
    decreases |cs| - i
  {
    if i == |cs| then [] else ConditionProblems(env, i, cs[i]) + ConditionsProblems(env, cs, i + 1)
  }

  // ----- groups -----

  /** What `validateGroupExport` appends to the errors. */
  function GroupProblems(env: Env, g: GroupExport, depth: nat): seq<Problem>
    decreases g, 1
  {
    if depth > MAX_DEPTH then [TooDeep]
    else
      (if g.operator != "" && g.operator !in {"AND", "OR"} then [UnknownGroupOperator(g.operator)] else [])
      + ConditionsProblems(env, g.conditions, 0)
      + GroupsProblems(env, g.groups, depth + 1)
  }

  function GroupsProblems(env: Env, gs: seq<GroupExport>, depth: nat): seq<Problem>
    decreases gs, 0
  {
    if gs == [] then [] else GroupProblems(env, gs[0], depth) + GroupsProblems(env, gs[1..], depth)
  }

  /** What it adds to the total: groups that are too deep are not counted. */
  function Counted(g: GroupExport, depth: nat): nat
    decreases g, 1
  {
    if depth > MAX_DEPTH then 0 else |g.conditions| + CountedAll(g.groups, depth + 1)
  }

  function CountedAll(gs: seq<GroupExport>, depth: nat): nat
    decreases gs, 0
  {
    if gs == [] then 0 else Counted(gs[0], depth) + CountedAll(gs[1..], depth)
  }

  /** The total and the errors that the recursive calls of `validateGroupExport` share. */
  class Tally {
    var total: nat
    var errs: seq<Problem>

    constructor ()
      ensures total == 0 && errs == []
    {
      total, errs := 0, [];
    }

    method ValidateConditions(env: Env, cs: seq<ConditionExport>)
      modifies this
      ensures total == old(total) + |cs|
      ensures errs == old(errs) + ConditionsProblems(env, cs, 0)
    {
      hide ConditionProblems;
      for i := 0 to |cs|
        invariant total == old(total) + i
        invariant errs + ConditionsProblems(env, cs, i) == old(errs) + ConditionsProblems(env, cs, 0)
      {
        Concat(errs, ConditionProblems(env, i, cs[i]), ConditionsProblems(env, cs, i + 1));
        total := total + 1;
        errs := errs + ConditionProblems(env, i, cs[i]);
      }
      Nothing(errs);
    }

    method ValidateGroups(env: Env, gs: seq<GroupExport>, depth: nat)
      modifies this
      ensures total == old(total) + CountedAll(gs, depth)
      ensures errs == old(errs) + GroupsProblems(env, gs, depth)
      decreases gs, 0
    {
      hide GroupProblems, Counted;
      for i := 0 to |gs|
        invariant total + CountedAll(gs[i..], depth) == old(total) + CountedAll(gs, depth)
        invariant errs + GroupsProblems(env, gs[i..], depth) == old(errs) + GroupsProblems(env, gs, depth)
      {
        assert gs[i..][1..] == gs[i + 1..];
        Concat(errs, GroupProblems(env, gs[i], depth), GroupsProblems(env, gs[i + 1..], depth));
        ValidateGroup(env, gs[i], depth);
      }
      Nothing(errs);
    }

    method ValidateGroup(env: Env, g: GroupExport, depth: nat)
      modifies this
      ensures total == old(total) + Counted(g, depth)
      ensures errs == old(errs) + GroupProblems(env, g, depth)
      decreases g, 1
    {
      hide ConditionsProblems, GroupsProblems, CountedAll;
      if depth > MAX_DEPTH {
        errs := errs + [TooDeep];
        return;
      }
      if g.operator != "" && g.operator !in {"AND", "OR"} { errs := errs + [UnknownGroupOperator(g.operator)]; }
      ValidateConditions(env, g.conditions);
      ValidateGroups(env, g.groups, depth + 1);
    }

    method ValidateActions(lib: Lib, actions: seq<ActionExport>)
      modifies this
      ensures errs == old(errs) + ActionsProblems(lib, actions, 0)
    {
      hide ActionProblems;
      for i := 0 to |actions|
        invariant errs + ActionsProblems(lib, actions, i) == old(errs) + ActionsProblems(lib, actions, 0)
      {
        Concat(errs, ActionProblems(lib, i, actions[i]), ActionsProblems(lib, actions, i + 1));
        errs := errs + ActionProblems(lib, i, actions[i]);
      }
      Nothing(errs);
    }
  }

  // ----- the rest -----

  function ScheduleProblems(lib: Lib, re: Export): seq<Problem> {
    var days := Schedule.DayList(re.scheduleDays);
    match FirstUnknownDay(days)
    case Some(d) => [UnknownDay(d)]
    case None =>
      if re.scheduleStart != "" && !lib.isTime(re.scheduleStart) then [InvalidTime(re.scheduleStart)]
      else if re.scheduleEnd != "" && !lib.isTime(re.scheduleEnd) then [InvalidTime(re.scheduleEnd)]
      else []
  }

  function FirstUnknownDay(days: seq<string>): Option<string> {
    if days == [] then None
    else if days[0] != "" && days[0] !in Schedule.DAY_NAMES then Some(days[0])
    else FirstUnknownDay(days[1..])
  }

  function ActionProblems(lib: Lib, i: nat, a: ActionExport): seq<Problem> {
    match a.kind
    case "move_to_folder" => if Trim(a.value) == "" then [FolderRequired(i)] else []
    case "forward" => if !lib.isAddress(a.value) then [InvalidEmail(i)] else []
    case "webhook" => if !lib.isWebUrl(a.value) then [InvalidUrl(i)] else []
    case "set_flag" => if Trim(a.value) == "" then [ValueRequired(i)] else []
    case "remove_flag" => if Trim(a.value) == "" then [ValueRequired(i)] else []
    case "auto_reply" => if Trim(a.value) == "" then [ValueRequired(i)] else []
    case "mark_as_read" => []
    case "mark_as_unread" => []
    case "delete" => []
    case _ => [UnknownAction(i, a.kind)]
  }

  function ActionsProblems(lib: Lib, actions: seq<ActionExport>, i: nat): seq<Problem>
    requires i <= |actions|
    decreases |actions| - i
  {
    if i == |actions| then [] else ActionProblems(lib, i, actions[i]) + ActionsProblems(lib, actions, i + 1)
  }

  function HeadProblems(re: Export): seq<Problem> {
    (if Trim(re.name) == "" then [NameRequired] else [])
    + (if re.name == "_catch_all" then [NameReserved] else [])
    + (if re.operator != "" && re.operator !in {"AND", "OR"} then [UnknownGroupOperator(re.operator)] else [])
  }

  /** `ValidateRuleExport`. With groups present the flat conditions are not looked at. */
  function ValidateRuleExport(env: Env, lib: Lib, re: Export): seq<Problem> {
    var total := if re.groups != [] then CountedAll(re.groups, 1) else |re.conditions|;
    HeadProblems(re)
    + (if re.groups != [] then GroupsProblems(env, re.groups, 1) else ConditionsProblems(env, re.conditions, 0))
    + (if total > MAX_CONDITIONS then [TooMany] else [])
    + ScheduleProblems(lib, re)
    + ActionsProblems(lib, re.actions, 0)
  }

  /** The validator as it runs, with one tally for all root groups. */
  method Check(env: Env, lib: Lib, re: Export) returns (errs: seq<Problem>)
    ensures errs == ValidateRuleExport(env, lib, re)
  {
    hide ConditionsProblems, GroupsProblems, CountedAll, ActionsProblems, ScheduleProblems, Trim;
    var tally := new Tally();
    if Trim(re.name) == "" { tally.errs := tally.errs + [NameRequired]; }
    if re.name == "_catch_all" { tally.errs := tally.errs + [NameReserved]; }
    if re.operator != "" && re.operator !in {"AND", "OR"} {
      tally.errs := tally.errs + [UnknownGroupOperator(re.operator)];
    }
    assert tally.errs == HeadProblems(re);
    hide HeadProblems;
    if |re.groups| > 0 {
      tally.ValidateGroups(env, re.groups, 1);
    } else {
      tally.ValidateConditions(env, re.conditions);
      tally.total := |re.conditions|;
    }
    if tally.total > MAX_CONDITIONS { tally.errs := tally.errs + [TooMany]; }
    tally.errs := tally.errs + ScheduleProblems(lib, re);
    tally.ValidateActions(lib, re.actions);
    errs := tally.errs;
  }
}
