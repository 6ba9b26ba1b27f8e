/**
 The rule evaluator of internal/rules/engine.go: the short-circuit evaluator, the one that reports every
 condition, the fetch memo they share, and the choice of the first matching rule.

 Library calls the model does not look into (case folding, MIME decoding, regular expressions) are
 fields of `Env`; the clock is one fixed instant.
*/
module Engine {
  import opened Wrappers
  import opened Text
  import opened RuleTypes
  import opened Schedule

  /** A compiled regular expression: its group names and what it finds in a text. */
  datatype Pattern = Pattern(names: seq<string>, find: string -> Option<seq<string>>)

  /** What the mail server answers during one match. A failed fetch gives its error's text, "". */
  datatype Client = Client(body: string, header: string -> string)

  datatype Env = Env(
    client: Option<Client>,
    equalFold: (string, string) -> bool,
    toLower: string -> string,
    decode: string -> string,
    isDate: string -> bool,
    compile: string -> Option<Pattern>,
    now: int)

  /** `age` is time.Since of the date, in nanoseconds; `date` its day as "2006-01-02". */
  datatype Message = Message(
    uid: nat,
    subject: string,
    senders: seq<string>,
    to: seq<string>,
    cc: seq<string>,
    hasAttach: bool,
    contentTypes: seq<string>,
    dated: bool,
    age: int,
    date: string)

  type Captures = map<string, string>

  datatype Fetch = Body | Header(name: string)

  /** `msgExtras`; `fetches` is the history of requests it sent. */
  datatype Extras = Extras(bodyOk: bool, body: string, headers: map<string, string>, fetches: seq<Fetch>)

  const NEW_EXTRAS := Extras(false, "", map[], [])

  // ----- day counts -----

  const MAX_INT64: int := 0x7FFF_FFFF_FFFF_FFFF

  function Wrap64(n: int): int {
    (n + 0x8000_0000_0000_0000) % 0x1_0000_0000_0000_0000 - 0x8000_0000_0000_0000
  }

  /** time.Duration(days) * 24 * time.Hour, in 64 bits. */
  function Days(days: int): int {
    Wrap64(days * 86_400_000_000_000)
  }

  /** The spaces Sscanf skips before a number; a line break is an error. */
  function SkipSpaces(s: string): Option<string> {
    if s == "" || !IsSpace(s[0]) then Some(s)
    else if s[0] == '\n' then None
    else SkipSpaces(s[1..])
  }

  /** `parseDays`: Sscanf with "%d days" needs one number that fits in an int; what follows it is ignored. */
  function ParseDays(v: string): Option<int> {
    match SkipSpaces(v)
    case None => None
    case Some(t) =>
      var signed := t != "" && t[0] in {'+', '-'};
      var digits := LeadingDigits(if signed then t[1..] else t);
      if digits == "" then None
      else
        var n := if signed && t[0] == '-' then 0 - Value(digits) as int else Value(digits) as int;
        if 0 < n <= MAX_INT64 then Some(n) else None
  }

  // ----- fetching -----

  function EnsureBody(env: Env, x: Extras): (string, Extras) {
    if x.bodyOk then (x.body, x)
    else match env.client
      case None => ("", x.(bodyOk := true))
      case Some(c) => (c.body, x.(bodyOk := true, body := c.body, fetches := x.fetches + [Body]))
  }

  function EnsureHeader(env: Env, x: Extras, name: string): (string, Extras) {
    if name in x.headers then (x.headers[name], x)
    else match env.client
      case None => ("", x.(headers := x.headers[name := ""]))
      case Some(c) =>
        var v := c.header(name);
        (v, x.(headers := x.headers[name := v], fetches := x.fetches + [Header(name)]))
  }

  /** The part of a message a field names, if it is part of the message and not fetched. */
  function OwnField(env: Env, msg: Message, field: string): string {
    match field
    case "from" => Join(msg.senders, ", ")
    case "to" => Join(msg.to, ", ")
    case "cc" => Join(msg.cc, ", ")
    case "subject" => env.decode(msg.subject)
    case "content_type" => Join(msg.contentTypes, ", ")
    case _ => ""
  }

  /** `getFieldValueWithExtras`. */
  function FieldValue(env: Env, msg: Message, field: string, x: Extras): (string, Extras) {
    if IsHeader(field) then EnsureHeader(env, x, HeaderName(field))
    else if field == "body" then EnsureBody(env, x)
    else (OwnField(env, msg, field), x)
  }

  /** The same field without the memo. */
  function FreshValue(env: Env, msg: Message, field: string): string {
    if IsHeader(field) then
      (if env.client.Some? then env.client.value.header(HeaderName(field)) else "")
    else if field == "body" then
      (if env.client.Some? then env.client.value.body else "")
    else OwnField(env, msg, field)
  }

  // ----- one condition -----

  datatype Error = BadDays(value: string) | BadDate(value: string)

  /** Conditions decided without the value of their field. */
  function Unvalued(env: Env, msg: Message, c: Condition): Option<Result<bool, Error>> {
    if c.field == "has_attachment" && c.operator == "exists" then Some(Ok(msg.hasAttach))
    else if c.field == "has_attachment" && c.operator == "not_exists" then Some(Ok(!msg.hasAttach))
    else match c.operator
      case "older_than" => Some(AgeTest(msg, c, false))
      case "newer_than" => Some(AgeTest(msg, c, true))
      case "before" => Some(DateTest(env, msg, c, true))
      case "after" => Some(DateTest(env, msg, c, false))
      case _ => None
  }

  function AgeTest(msg: Message, c: Condition, newer: bool): Result<bool, Error> {
    match ParseDays(c.value)
    case None => Err(BadDays(c.value))
    case Some(days) =>
      if !msg.dated then Ok(false)
      else Ok(if newer then msg.age < Days(days) else msg.age > Days(days))
  }

  function DateTest(env: Env, msg: Message, c: Condition, before: bool): Result<bool, Error> {
    if !env.isDate(c.value) then Err(BadDate(c.value))
    else if !msg.dated then Ok(false)
    else Ok(if before then Less(msg.date, c.value) else Less(c.value, msg.date))
  }

  /** The tests on the value of the field, regular expressions apart. */
  function ValueTest(env: Env, c: Condition, val: string): bool {
    match c.operator
    case "exists" => val != ""
    case "not_exists" => val == ""
    case "equals" => env.equalFold(val, c.value)
    case "not_equals" => !env.equalFold(val, c.value)
    case "contains" => Contains(env.toLower(val), env.toLower(c.value))
    case "not_contains" => !Contains(env.toLower(val), env.toLower(c.value))
    case "starts_with" => env.toLower(c.value) <= env.toLower(val)
    case "ends_with" => HasSuffix(env.toLower(val), env.toLower(c.value))
    case _ => false
  }

  /** The capture variables a match binds. */
  function Bind(caps: Captures, names: seq<string>, found: seq<string>, i: nat): Captures
    decreases |names| - i
  {
    if i >= |names| then caps
    else
      var caps' := if i == 0 then (if found != [] then caps["capture:0" := found[0]] else caps)
                   else if names[i] != "" && i < |found| then caps["capture:" + names[i] := found[i]]
                   else caps;
      Bind(caps', names, found, i + 1)
  }

  /** The regular expression of a loaded condition, and what it finds. */
  function RegexFinds(env: Env, c: Condition, val: string): Option<(Pattern, seq<string>)> {
    match env.compile(c.value)
    case None => None
    case Some(p) => match p.find(val)
      case None => None
      case Some(found) => Some((p, found))
  }

  /** A condition decided on the value of its field. */
  function Judge(env: Env, c: Condition, val: string, caps: Captures): (bool, Captures) {
    if c.operator == "matches_regex" then
      match RegexFinds(env, c, val)
      case None => (false, caps)
      case Some(hit) => (true, Bind(caps, hit.0.names, hit.1, 0))
    else (ValueTest(env, c, val), caps)
  }

  /** Everything an evaluation carries along. */
  datatype Scan = Scan(extras: Extras, captures: Captures)

  /** `evalConditionWithExtras`. */
  function EvalCondition(env: Env, msg: Message, c: Condition, s: Scan): (Result<bool, Error>, Scan) {
    match Unvalued(env, msg, c)
    case Some(r) => (r, s)
    case None =>
      var (val, extras) := FieldValue(env, msg, c.field, s.extras);
      var (ok, caps) := Judge(env, c, val, s.captures);
      (Ok(ok), Scan(extras, caps))
  }

  // ----- the short-circuit evaluator -----

  /** Where a walk over members stands: decided, or all members seen. */
  datatype Step = Decided(r: Result<bool, Error>) | Undecided

  function Decide(operator: string, r: Result<bool, Error>): Step {
    match r
    case Err(e) => Decided(Err(e))
    case Ok(ok) =>
      if operator == "AND" && !ok then Decided(Ok(false))
      else if operator == "OR" && ok then Decided(Ok(true))
      else Undecided
  }

  function EvalConditions(env: Env, msg: Message, operator: string, cs: seq<Condition>, s: Scan): (Step, Scan)
    decreases |cs|
  {
    if cs == [] then (Undecided, s)
    else
      var (r, s1) := EvalCondition(env, msg, cs[0], s);
      var step := Decide(operator, r);
      if step.Decided? then (step, s1) else EvalConditions(env, msg, operator, cs[1..], s1)
  }

  /** `evalGroupWithExtras`. */
  function EvalGroup(env: Env, msg: Message, g: Group, s: Scan): (Result<bool, Error>, Scan)
    decreases g, 1
  {
    var (step, s1) := EvalConditions(env, msg, g.operator, g.conditions, s);
    if step.Decided? then (step.r, s1)
    else
      var (step2, s2) := EvalGroups(env, msg, g.operator, g.groups, s1);
      if step2.Decided? then (step2.r, s2) else (Ok(g.operator == "AND"), s2)
  }

  function EvalGroups(env: Env, msg: Message, operator: string, gs: seq<Group>, s: Scan): (Step, Scan)
    decreases gs, 0
  {
    if gs == [] then (Undecided, s)
    else
      var (r, s1) := EvalGroup(env, msg, gs[0], s);
      var step := Decide(operator, r);
      if step.Decided? then (step, s1) else EvalGroups(env, msg, operator, gs[1..], s1)
  }

  /** The root groups of a rule must all hold. */
  function EvalRoots(env: Env, msg: Message, gs: seq<Group>, s: Scan): (Result<bool, Error>, Scan)
    decreases |gs|
  {
    if gs == [] then (Ok(true), s)
    else
      var (r, s1) := EvalGroup(env, msg, gs[0], s);
      if r != Ok(true) then (r, s1) else EvalRoots(env, msg, gs[1..], s1)
  }

  datatype Verdict = Verdict(result: Result<bool, Error>, captures: Captures)

  /** `evaluateRule`: no captures unless the rule holds. */
  function EvaluateRule(env: Env, msg: Message, rule: Rule, x: Extras): (Verdict, Extras) {
    if rule.groups == [] then (Verdict(Ok(true), map[]), x)
    else
      var (r, s) := EvalRoots(env, msg, rule.groups, Scan(x, map[]));
      (Verdict(r, if r == Ok(true) then s.captures else map[]), s.extras)
  }

  function Evaluate(env: Env, msg: Message, rule: Rule): Verdict {
    EvaluateRule(env, msg, rule, NEW_EXTRAS).0
  }

  // ----- the first matching rule -----

  datatype Match =
    | NoMatch
    | Matched(rule: Rule, captures: Captures)
    | Failed(rule: Rule, error: Error)

  /** `Match`. */
  function MatchRules(env: Env, msg: Message, rules: seq<Rule>, x: Extras): (Match, Extras)
    decreases |rules|
  {
    if rules == [] then (NoMatch, x)
    else if !rules[0].enabled then MatchRules(env, msg, rules[1..], x)
    else
      var (v, x1) := EvaluateRule(env, msg, rules[0], x);
      match v.result
      case Err(e) => (Failed(rules[0], e), x1)
      case Ok(ok) =>
        if ok && InSchedule(rules[0], env.now) then (Matched(rules[0], v.captures), x1)
        else MatchRules(env, msg, rules[1..], x1)
  }

  // ----- the reporting evaluator -----

  datatype ConditionResult = ConditionResult(field: string, operator: string, expected: string, passed: bool)

  datatype GroupResult = GroupResult(operator: string, passed: bool, results: seq<ConditionResult>,
                                     groups: seq<GroupResult>)

  /** `evalConditionWithResult`, without its display text. */
  function ReportCondition(env: Env, msg: Message, c: Condition, s: Scan): (Result<ConditionResult, Error>, Scan) {
    var cr := ConditionResult(c.field, c.operator, c.value, false);
    if c.field == "has_attachment" && c.operator in {"exists", "not_exists"} then
      (Ok(cr.(passed := msg.hasAttach == (c.operator == "exists"))), s)
    else if c.operator in {"older_than", "newer_than"} then
      match ParseDays(c.value)
      case None => (Err(BadDays(c.value)), s)
      case Some(days) =>
        (Ok(cr.(passed := msg.dated
                && (if c.operator == "older_than" then msg.age > Days(days) else msg.age < Days(days)))), s)
    else if c.operator in {"before", "after"} then
      if !env.isDate(c.value) then (Err(BadDate(c.value)), s)
      else (Ok(cr.(passed := msg.dated
                   && (if c.operator == "before" then Less(msg.date, c.value) else Less(c.value, msg.date)))), s)
    else
      var (val, extras) := FieldValue(env, msg, c.field, s.extras);
      if c.operator == "matches_regex" then
        match RegexFinds(env, c, val)
        case None => (Ok(cr), Scan(extras, s.captures))
        case Some(hit) => (Ok(cr.(passed := true)), Scan(extras, Bind(s.captures, hit.0.names, hit.1, 0)))
      else (Ok(cr.(passed := ValueTest(env, c, val))), Scan(extras, s.captures))
  }

  function ReportConditions(env: Env, msg: Message, cs: seq<Condition>,
                            s: Scan): (Result<seq<ConditionResult>, Error>, Scan)
    decreases |cs|
  {
    if cs == [] then (Ok([]), s)
    else
      var (r, s1) := ReportCondition(env, msg, cs[0], s);
      match r
      case Err(e) => (Err(e), s1)
      case Ok(cr) =>
        var (rest, s2) := ReportConditions(env, msg, cs[1..], s1);
        match rest
        case Err(e) => (Err(e), s2)
        case Ok(crs) => (Ok([cr] + crs), s2)
  }

  predicate AllPassed(results: seq<ConditionResult>, groups: seq<GroupResult>) {
    (forall r <- results :: r.passed) && (forall g <- groups :: g.passed)
  }

  predicate AnyPassed(results: seq<ConditionResult>, groups: seq<GroupResult>) {
    (exists r <- results :: r.passed) || (exists g <- groups :: g.passed)
  }

  /** `evalGroupWithResults`: every member is evaluated. */
  function ReportGroup(env: Env, msg: Message, g: Group, s: Scan): (Result<GroupResult, Error>, Scan)
    decreases g, 1
  {
    var (r, s1) := ReportConditions(env, msg, g.conditions, s);
    match r
    case Err(e) => (Err(e), s1)
    case Ok(results) =>
      var (r2, s2) := ReportGroups(env, msg, g.groups, s1);
      match r2
      case Err(e) => (Err(e), s2)
      case Ok(groups) =>
        var passed := if g.operator == "AND" then AllPassed(results, groups) else AnyPassed(results, groups);
        (Ok(GroupResult(g.operator, passed, results, groups)), s2)
  }

  function ReportGroups(env: Env, msg: Message, gs: seq<Group>, s: Scan): (Result<seq<GroupResult>, Error>, Scan)
    decreases gs, 0
  {
    if gs == [] then (Ok([]), s)
    else
      var (r, s1) := ReportGroup(env, msg, gs[0], s);
      match r
      case Err(e) => (Err(e), s1)
      case Ok(gr) =>
        var (rest, s2) := ReportGroups(env, msg, gs[1..], s1);
        match rest
        case Err(e) => (Err(e), s2)
        case Ok(grs) => (Ok([gr] + grs), s2)
  }

  /** A zero-valued entry of the slice of root results. */
  const NOT_REACHED := GroupResult("", false, [], [])

  function Unreached(n: nat): (r: seq<GroupResult>)
    ensures |r| == n && forall i :: 0 <= i < n ==> r[i] == NOT_REACHED
  {
    if n == 0 then [] else [NOT_REACHED] + Unreached(n - 1)
  }

  /** One entry for every root group; those behind the first that fails stay zero. */
  function ReportRoots(env: Env, msg: Message, gs: seq<Group>, s: Scan): (Result<seq<GroupResult>, Error>, Scan)
    decreases |gs|
  {
    if gs == [] then (Ok([]), s)
    else
      var (r, s1) := ReportGroup(env, msg, gs[0], s);
      match r
      case Err(e) => (Err(e), s1)
      case Ok(gr) =>
        if !gr.passed then (Ok([gr] + Unreached(|gs| - 1)), s1)
        else
          var (rest, s2) := ReportRoots(env, msg, gs[1..], s1);
          match rest
          case Err(e) => (Err(e), s2)
          case Ok(grs) => (Ok([gr] + grs), s2)
  }

  datatype Report = Report(passed: bool, captures: Captures, groups: seq<GroupResult>)

  /** `EvaluateWithResults`. */
  function EvaluateWithResults(env: Env, msg: Message, rule: Rule): Result<Report, Error> {
    if rule.groups == [] then Ok(Report(true, map[], []))
    else
      var (r, s) := ReportRoots(env, msg, rule.groups, Scan(NEW_EXTRAS, map[]));
      match r
      case Err(e) => Err(e)
      case Ok(grs) => Ok(Report(forall g <- grs :: g.passed, s.captures, grs))
  }
}
