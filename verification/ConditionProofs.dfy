/** What a condition asks of a message, told without the evaluator. */
module ConditionProofs {
  import opened Wrappers
  import opened Text
  import opened RuleTypes
  import opened Engine
  import opened EngineProofs
  import opened ReportProofs

  // ----- the part of the message a field names -----

  /** The parts with a comma and a space between each two. */
  ghost predicate Listed(parts: seq<string>, text: string)
    decreases |parts|
  {
    if parts == [] then text == ""
    else
      var last := |parts| - 1;
      if last == 0 then text == parts[0]
      else exists before :: Listed(parts[..last], before) && text == before + ", " + parts[last]
  }

  lemma {:induction false} JoinLists(parts: seq<string>, text: string)
    ensures Listed(parts, text) <==> text == Join(parts, ", ")
    decreases |parts|
  {
    if |parts| <= 1 {
    } else {
      var last := |parts| - 1;
      JoinLists(parts[..last], Join(parts[..last], ", "));
      JoinLast(parts, ", ");
      if Listed(parts, text) {
        var before :| Listed(parts[..last], before) && text == before + ", " + parts[last];
        JoinLists(parts[..last], before);
      }
    }
  }

  lemma {:induction false} JoinLast(parts: seq<string>, sep: string)
    requires |parts| > 1
    ensures Join(parts, sep) == Join(parts[..|parts| - 1], sep) + sep + parts[|parts| - 1]
    decreases |parts|
  {
    var front, last := parts[..|parts| - 1], parts[|parts| - 1];
    if |parts| == 2 {
      assert parts[1..] == [parts[1]] && front == [parts[0]];
    } else {
      JoinLast(parts[1..], sep);
      assert parts[1..][..|parts| - 2] == front[1..];
      var rest := Join(front[1..], sep);
      assert parts[0] + sep + (rest + sep + last) == (parts[0] + sep + rest) + sep + last;
    }
  }

  const OWN_FIELDS := {"from", "to", "cc", "subject", "content_type", "body"}

  /** `v` is what the field names: addresses and types listed, the subject decoded, body and headers as the client
      answers, and nothing for any other field or without a client. */
  ghost predicate IsPart(env: Env, msg: Message, field: string, v: string) {
    && (field == "from" ==> Listed(msg.senders, v))
    && (field == "to" ==> Listed(msg.to, v))
    && (field == "cc" ==> Listed(msg.cc, v))
    && (field == "subject" ==> v == env.decode(msg.subject))
    && (field == "content_type" ==> Listed(msg.contentTypes, v))
    && (field == "body" && env.client.Some? ==> v == env.client.value.body)
    && ("header:" <= field && env.client.Some? ==> v == env.client.value.header(field[|"header:"|..]))
    && ((field == "body" || "header:" <= field) && env.client.None? ==> v == "")
    && (field !in OWN_FIELDS && !("header:" <= field) ==> v == "")
  }

  lemma PartIsFresh(env: Env, msg: Message, field: string, v: string)
    ensures IsPart(env, msg, field, v) <==> v == FreshValue(env, msg, field)
  {
    hide Listed, Join;
    JoinLists(msg.senders, v);
    JoinLists(msg.to, v);
    JoinLists(msg.cc, v);
    JoinLists(msg.contentTypes, v);
    assert "header:"[0] != "subject"[0] && "header:"[0] != "content_type"[0];
    assert forall own <- OWN_FIELDS :: !("header:" <= own);
  }

  // ----- the number a condition on age names -----

  /** Blanks, a plus sign or none, and all the digits that follow it; the rest is not looked at. */
  predicate Spelled(v: string, n: int, lead: string, sign: string, digits: string, rest: string) {
    && v == lead + (sign + digits + rest)
    && Skipped(lead) && sign in {"", "+"} && AllDigits(digits) && digits != "" && (rest == "" || !IsDigit(rest[0]))
    && n == Value(digits)
  }

  ghost predicate NamesDays(v: string, n: int) {
    0 < n <= MAX_INT64 && exists lead, sign, digits, rest :: Spelled(v, n, lead, sign, digits, rest)
  }

  predicate Skipped(lead: string) {
    forall c <- lead :: IsSpace(c) && c != '\n'
  }

  predicate AllDigits(s: string) {
    forall c <- s :: IsDigit(c)
  }

  lemma {:induction false} SkipLead(lead: string, t: string)
    requires Skipped(lead) && (t == "" || !IsSpace(t[0]))
    ensures SkipSpaces(lead + t) == Some(t)
    decreases |lead|
  {
    if lead == "" {
      assert lead + t == t;
    } else {
      assert (lead + t)[1..] == lead[1..] + t;
      assert lead[0] in lead;
      SkipLead(lead[1..], t);
    }
  }

  lemma {:induction false} SkipSplits(s: string, t: string) returns (lead: string)
    requires SkipSpaces(s) == Some(t)
    ensures s == lead + t && Skipped(lead) && (t == "" || !IsSpace(t[0]))
    decreases |s|
  {
    if s == "" || !IsSpace(s[0]) {
      lead := "";
    } else {
      var rest := SkipSplits(s[1..], t);
      lead := [s[0]] + rest;
    }
  }

  lemma {:induction false} DigitsLead(digits: string, rest: string)
    requires AllDigits(digits) && (rest == "" || !IsDigit(rest[0]))
    ensures LeadingDigits(digits + rest) == digits
    decreases |digits|
  {
    if digits == "" {
      assert digits + rest == rest;
    } else {
      assert digits[0] in digits;
      assert (digits + rest)[1..] == digits[1..] + rest;
      DigitsLead(digits[1..], rest);
    }
  }

  lemma DigitsAreNoSpaces(c: char)
    ensures IsDigit(c) || c in {'+', '-'} ==> !IsSpace(c)
    ensures IsDigit(c) ==> c !in {'+', '-'}
  {
  }

  lemma NamedParses(v: string, n: int)
    requires NamesDays(v, n)
    ensures ParseDays(v) == Some(n)
  {
    hide SkipSpaces, LeadingDigits, Value, IsSpace;
    var lead, sign, digits, rest :| Spelled(v, n, lead, sign, digits, rest);
    var t := sign + digits + rest;
    DigitsAreNoSpaces(t[0]);
    assert digits[0] in digits;
    SkipLead(lead, t);
    DigitsLead(digits, rest);
    if sign == "" { assert t == digits + rest; } else { assert t[1..] == digits + rest; }
  }

  lemma SpelledOut(v: string, n: int, lead: string, sign: string, digits: string, tail: string)
    requires v == lead + (sign + tail) && Skipped(lead) && sign in {"", "+"}
    requires digits != "" && digits == LeadingDigits(tail) && n == Value(digits)
    ensures Spelled(v, n, lead, sign, digits, tail[|digits|..])
  {
    hide LeadingDigits, Value, Skipped, IsDigit;
    var rest := tail[|digits|..];
    assert tail == digits + rest;
    assert sign + digits + rest == sign + tail;
  }

  lemma ParsedNames(v: string, n: int)
    requires ParseDays(v) == Some(n)
    ensures NamesDays(v, n)
  {
    hide SkipSpaces, LeadingDigits, Value, IsSpace, Spelled, Skipped;
    var t := SkipSpaces(v).value;
    var lead := SkipSplits(v, t);
    var signed := t != "" && t[0] in {'+', '-'};
    var tail := if signed then t[1..] else t;
    var digits := LeadingDigits(tail);
    assert !(signed && t[0] == '-');
    var sign := if signed then "+" else "";
    assert t == sign + tail;
    SpelledOut(v, n, lead, sign, digits, tail);
  }

  lemma DaysParsed(v: string, n: int)
    ensures ParseDays(v) == Some(n) <==> NamesDays(v, n)
  {
    hide ParseDays, NamesDays;
    if NamesDays(v, n) { NamedParses(v, n); }
    if ParseDays(v) == Some(n) { ParsedNames(v, n); }
  }

  // ----- what a condition asks -----

  const VALUE_OPERATORS := {
    "exists", "not_exists", "equals", "not_equals", "contains", "not_contains", "starts_with", "ends_with",
    "matches_regex"}

  /** `part` occurs in `text`, before `rest` and after `lead`. */
  ghost predicate Surrounded(text: string, part: string) {
    exists lead: string, rest: string :: text == lead + part + rest
  }

  /** The operator holds between the value of the field and the value of the condition. */
  ghost predicate Says(env: Env, operator: string, v: string, value: string) {
    match operator
    case "exists" => v != ""
    case "not_exists" => v == ""
    case "equals" => env.equalFold(v, value)
    case "not_equals" => !env.equalFold(v, value)
    case "contains" => Surrounded(env.toLower(v), env.toLower(value))
    case "not_contains" => !Surrounded(env.toLower(v), env.toLower(value))
    case "starts_with" => exists rest: string :: env.toLower(v) == env.toLower(value) + rest
    case "ends_with" => exists lead: string :: env.toLower(v) == lead + env.toLower(value)
    case "matches_regex" => env.compile(value).Some? && env.compile(value).value.find(v).Some?
    case _ => false
  }

  predicate OnAge(c: Condition) {
    c.operator in {"older_than", "newer_than"}
  }

  predicate OnDate(c: Condition) {
    c.operator in {"before", "after"}
  }

  /** Whether the message has an attachment is asked by the two exists operators. */
  predicate OnAttachment(c: Condition) {
    c.field == "has_attachment" && c.operator in {"exists", "not_exists"}
  }

  /** The condition cannot be evaluated: it names no number of days, or no date. */
  ghost predicate IsBroken(env: Env, c: Condition) {
    (OnAge(c) && forall n :: !NamesDays(c.value, n)) || (OnDate(c) && !env.isDate(c.value))
  }

  /** The condition asks for what the message has. A message without a date has no age. */
  ghost predicate Asks(env: Env, msg: Message, c: Condition) {
    if OnAttachment(c) then msg.hasAttach <==> c.operator == "exists"
    else if OnAge(c) then
      msg.dated && exists n :: NamesDays(c.value, n)
                            && (if c.operator == "older_than" then msg.age > Days(n) else msg.age < Days(n))
    else if OnDate(c) then
      msg.dated && env.isDate(c.value)
        && (if c.operator == "before" then Less(msg.date, c.value) else Less(c.value, msg.date))
    else c.operator in VALUE_OPERATORS && exists v :: IsPart(env, msg, c.field, v) && Says(env, c.operator, v, c.value)
  }

  lemma ContainsSurrounds(text: string, part: string)
    ensures Contains(text, part) <==> Surrounded(text, part)
  {
    if Contains(text, part) {
      var i: nat :| i <= |text| && OccursAt(text, part, i);
      assert text == text[..i] + part + text[i + |part|..];
    }
    if Surrounded(text, part) {
      var lead: string, rest: string :| text == lead + part + rest;
      assert OccursAt(text, part, |lead|);
    }
  }

  lemma PrefixLeads(text: string, part: string)
    ensures part <= text <==> exists rest: string :: text == part + rest
    ensures HasSuffix(text, part) <==> exists lead: string :: text == lead + part
  {
    if part <= text { assert text == part + text[|part|..]; }
    if HasSuffix(text, part) { assert text == text[..|text| - |part|] + part; }
  }

  lemma ValueTestSays(env: Env, c: Condition, v: string, caps: Captures)
    requires c.operator in VALUE_OPERATORS
    ensures Judge(env, c, v, caps).0 <==> Says(env, c.operator, v, c.value)
  {
    hide Bind, Contains, HasSuffix, Surrounded;
    ContainsSurrounds(env.toLower(v), env.toLower(c.value));
    PrefixLeads(env.toLower(v), env.toLower(c.value));
  }

  lemma UnknownOperatorSaysNo(env: Env, msg: Message, c: Condition)
    requires c.operator !in VALUE_OPERATORS && !OnAge(c) && !OnDate(c)
    ensures Outcome(env, msg, c) == Ok(false)
  {
  }

  lemma AgeAsks(env: Env, msg: Message, c: Condition)
    requires OnAge(c)
    ensures Outcome(env, msg, c).Err? <==> forall n :: !NamesDays(c.value, n)
    ensures Outcome(env, msg, c) == Ok(true) <==> Asks(env, msg, c)
  {
    hide ParseDays, NamesDays, Days;
    forall n { DaysParsed(c.value, n); }
    if ParseDays(c.value).Some? { assert NamesDays(c.value, ParseDays(c.value).value); }
  }

  lemma DateAsks(env: Env, msg: Message, c: Condition)
    requires OnDate(c)
    ensures Outcome(env, msg, c).Err? <==> !env.isDate(c.value)
    ensures Outcome(env, msg, c) == Ok(true) <==> Asks(env, msg, c)
  {
    hide Less;
  }

  /** The outcome of a condition is what it asks. */
  lemma OutcomeAsks(env: Env, msg: Message, c: Condition)
    ensures Outcome(env, msg, c).Err? <==> IsBroken(env, c)
    ensures Outcome(env, msg, c) == Ok(true) <==> Asks(env, msg, c)
  {
    if OnAttachment(c) {
    } else if OnAge(c) {
      AgeAsks(env, msg, c);
    } else if OnDate(c) {
      DateAsks(env, msg, c);
    } else if c.operator in VALUE_OPERATORS {
      hide Judge, IsPart, Says, FreshValue;
      var v := FreshValue(env, msg, c.field);
      forall u { PartIsFresh(env, msg, c.field, u); }
      ValueTestSays(env, c, v, map[]);
    } else {
      UnknownOperatorSaysNo(env, msg, c);
    }
  }

  lemma ErrorNamesValue(env: Env, msg: Message, c: Condition)
    requires Outcome(env, msg, c).Err?
    ensures Outcome(env, msg, c).error == if OnAge(c) then BadDays(c.value) else BadDate(c.value)
  {
    hide ParseDays;
  }

  // ----- what a match binds -----

  /** Group i of the expression gives this key: group 0 the whole match, a named group its part. */
  predicate Gives(names: seq<string>, found: seq<string>, i: nat, key: string) {
    i < |names| && i < |found|
    && (if i == 0 then key == "capture:0" else names[i] != "" && key == "capture:" + names[i])
  }

  /** From group `from` on: each key has what the last group giving it found, and the others stand. */
  ghost predicate BoundFrom(a: Captures, b: Captures, names: seq<string>, found: seq<string>, from: nat) {
    forall key: string ::
      if exists i: nat :: from <= i && Gives(names, found, i, key) then LastGives(b, names, found, from, key)
      else (key in b <==> key in a) && (key in a ==> b[key] == a[key])
  }

  ghost predicate LastGives(b: Captures, names: seq<string>, found: seq<string>, from: nat, key: string) {
    exists i: nat :: from <= i && Gives(names, found, i, key)
                     && (forall j: nat :: i < j ==> !Gives(names, found, j, key))
                     && key in b && b[key] == found[i]
  }

  lemma {:induction false} BindBinds(a: Captures, names: seq<string>, found: seq<string>, i: nat)
    ensures BoundFrom(a, Bind(a, names, found, i), names, found, i)
    decreases |names| - i
  {
    var b := Bind(a, names, found, i);
    if i >= |names| {
    } else {
      var a' := if i == 0 then (if found != [] then a["capture:0" := found[0]] else a)
                else if names[i] != "" && i < |found| then a["capture:" + names[i] := found[i]] else a;
      BindBinds(a', names, found, i + 1);
      forall key: string
        ensures if exists k: nat :: i <= k && Gives(names, found, k, key) then LastGives(b, names, found, i, key)
                else (key in b <==> key in a) && (key in a ==> b[key] == a[key])
      {
        BindOne(a, a', b, names, found, i, key);
      }
    }
  }

  lemma BindOne(a: Captures, a': Captures, b: Captures, names: seq<string>, found: seq<string>, i: nat, key: string)
    requires i < |names| && BoundFrom(a', b, names, found, i + 1)
    requires a' == if i == 0 then (if found != [] then a["capture:0" := found[0]] else a)
                   else if names[i] != "" && i < |found| then a["capture:" + names[i] := found[i]] else a
    ensures if exists k: nat :: i <= k && Gives(names, found, k, key) then LastGives(b, names, found, i, key)
            else (key in b <==> key in a) && (key in a ==> b[key] == a[key])
  {
    if exists k: nat :: i + 1 <= k && Gives(names, found, k, key) {
      assert LastGives(b, names, found, i + 1, key);
    } else if Gives(names, found, i, key) {
      assert a'[key] == found[i];
      assert forall j: nat :: i < j ==> !Gives(names, found, j, key);
    } else {
      assert forall k: nat :: i <= k ==> !Gives(names, found, k, key);
      assert key in a' <==> key in a;
    }
  }

  /** What a condition adds to the captures: a matched expression its groups, any other condition nothing. */
  ghost predicate Adds(env: Env, msg: Message, c: Condition, a: Captures, b: Captures) {
    if c.operator == "matches_regex" && Asks(env, msg, c) then
      exists v :: IsPart(env, msg, c.field, v) && Says(env, c.operator, v, c.value)
               && BoundFrom(a, b, env.compile(c.value).value.names, env.compile(c.value).value.find(v).value, 0)
    else b == a
  }

  /** What a list adds, condition by condition. */
  ghost predicate AddsAll(env: Env, msg: Message, cs: seq<Condition>, a: Captures, b: Captures)
    decreases |cs|
  {
    if cs == [] then b == a
    else exists mid :: Adds(env, msg, cs[0], a, mid) && AddsAll(env, msg, cs[1..], mid, b)
  }

  lemma MatchAdds(env: Env, msg: Message, c: Condition, caps: Captures)
    requires c.operator == "matches_regex"
    ensures Adds(env, msg, c, caps, CapturesAfter(env, msg, c, caps))
  {
    hide Bind, BoundFrom, IsPart, FreshValue;
    var v := FreshValue(env, msg, c.field);
    PartIsFresh(env, msg, c.field, v);
    OutcomeAsks(env, msg, c);
    if RegexFinds(env, c, v).Some? {
      var hit := RegexFinds(env, c, v).value;
      BindBinds(caps, hit.0.names, hit.1, 0);
    }
  }

  lemma ConditionAdds(env: Env, msg: Message, c: Condition, caps: Captures)
    ensures Adds(env, msg, c, caps, CapturesAfter(env, msg, c, caps))
  {
    if c.operator == "matches_regex" { MatchAdds(env, msg, c, caps); }
  }

  lemma {:induction false} ConditionsAdd(env: Env, msg: Message, cs: seq<Condition>, caps: Captures)
    requires forall c <- cs :: Asks(env, msg, c)
    ensures var (step, after) := FreshConditions(env, msg, "AND", cs, caps);
      step == Undecided && AddsAll(env, msg, cs, caps, after)
    decreases |cs|
  {
    hide Asks, Adds, CapturesAfter, Outcome;
    if cs == [] {
    } else {
      assert cs[0] in cs;
      OutcomeAsks(env, msg, cs[0]);
      ConditionAdds(env, msg, cs[0], caps);
      ConditionsAdd(env, msg, cs[1..], CapturesAfter(env, msg, cs[0], caps));
    }
  }

  // ----- rules -----

  lemma OneGroup(env: Env, msg: Message, rule: Rule, g: Group)
    requires rule.groups == [g]
    ensures var (r, caps) := FreshGroup(env, msg, g, map[]);
      Evaluate(env, msg, rule) == Verdict(r, if r == Ok(true) then caps else map[])
  {
    hide FreshGroup, Faithful, EvalRoots;
    assert Faithful(env, NEW_EXTRAS) by { NewExtrasFaithful(env); }
    EvaluateRuleIsFresh(env, msg, rule, NEW_EXTRAS);
    assert rule.groups[1..] == [];
    var caps := FreshGroup(env, msg, g, map[]).1;
    assert FreshRoots(env, msg, [], caps) == (Ok(true), caps);
  }

  /** Main result. A rule of one condition holds exactly when the condition asks for what the message has, and errs
      exactly when the condition is broken. */
  lemma EvaluateAsks(env: Env, msg: Message, rule: Rule, c: Condition)
    requires rule.groups == [Group("AND", [c], [])]
    ensures Evaluate(env, msg, rule).result == Ok(true) <==> Asks(env, msg, c)
    ensures Evaluate(env, msg, rule).result.Err? <==> IsBroken(env, c)
  {
    hide Outcome, Asks, IsBroken, CapturesAfter;
    var g := rule.groups[0];
    OneGroup(env, msg, rule, g);
    OutcomeAsks(env, msg, c);
    var caps := CapturesAfter(env, msg, c, map[]);
    assert g.conditions[1..] == [];
    assert FreshConditions(env, msg, "AND", [], caps) == (Undecided, caps);
    assert FreshConditions(env, msg, "AND", g.conditions, map[]).0 == Decide("AND", Outcome(env, msg, c));
  }

  /** Main result. A rule without broken conditions holds exactly when all its roots do, where an AND group is all of
      its members, an OR group some of them, and a condition what it asks. */
  lemma EvaluateMeaning(env: Env, msg: Message, rule: Rule)
    requires AllAndOr(rule.groups) && AllErrorFree(env, msg, rule.groups)
    ensures Evaluate(env, msg, rule).result == Ok(AllMean(env, msg, rule.groups))
  {
    hide Faithful, EvalRoots, FreshRoots, AllMean;
    assert Faithful(env, NEW_EXTRAS) by { NewExtrasFaithful(env); }
    EvaluateRuleIsFresh(env, msg, rule, NEW_EXTRAS);
    FreshRootsMeaning(env, msg, rule.groups, map[]);
  }

  lemma {:induction false} FreshRootsMeaning(env: Env, msg: Message, gs: seq<Group>, caps: Captures)
    requires AllAndOr(gs) && AllErrorFree(env, msg, gs)
    ensures FreshRoots(env, msg, gs, caps).0 == Ok(AllMean(env, msg, gs))
    decreases |gs|
  {
    hide FreshGroup, Meaning, ErrorFree;
    if gs == [] {
    } else {
      FreshGroupMeaning(env, msg, gs[0], caps);
      FreshRootsMeaning(env, msg, gs[1..], FreshGroup(env, msg, gs[0], caps).1);
    }
  }

  /** In that meaning a condition holds when it asks for what the message has, and is in error when it is broken. */
  lemma HoldsAsks(env: Env, msg: Message, c: Condition)
    ensures Holds(env, msg, c) <==> Asks(env, msg, c)
    ensures Outcome(env, msg, c).Ok? <==> !IsBroken(env, c)
  {
    hide Outcome, Asks, IsBroken;
    OutcomeAsks(env, msg, c);
  }

  /** Main result. When a rule of one AND group holds, its captures are what its matched expressions bind, one
      condition after the other; a rule that does not hold binds nothing. */
  lemma CapturesMeaning(env: Env, msg: Message, rule: Rule, cs: seq<Condition>)
    requires rule.groups == [Group("AND", cs, [])]
    ensures (forall c <- cs :: Asks(env, msg, c)) ==>
      Evaluate(env, msg, rule).result == Ok(true) && AddsAll(env, msg, cs, map[], Evaluate(env, msg, rule).captures)
    ensures Evaluate(env, msg, rule).result != Ok(true) ==> Evaluate(env, msg, rule).captures == map[]
  {
    hide Asks, AddsAll, FreshConditions;
    var g := rule.groups[0];
    OneGroup(env, msg, rule, g);
    if forall c <- cs :: Asks(env, msg, c) {
      ConditionsAdd(env, msg, cs, map[]);
      var caps := FreshConditions(env, msg, "AND", cs, map[]).1;
      assert FreshGroups(env, msg, "AND", [], caps) == (Undecided, caps);
    }
  }

  lemma NothingOnAMiss(env: Env, msg: Message, rule: Rule, x: Extras)
    ensures var v := EvaluateRule(env, msg, rule, x).0; v.result != Ok(true) ==> v.captures == map[]
  {
    hide EvalRoots;
  }

  // ----- the first member that decides -----

  /** The member ends the walk: an error does, a failure in an AND, a success in an OR. */
  predicate Ends(operator: string, r: Result<bool, Error>) {
    r.Err? || (operator == "AND" && r == Ok(false)) || (operator == "OR" && r == Ok(true))
  }

  /** The answer of a list of members: the first that ends it, or that all are through. */
  ghost predicate AnsweredFirst(operator: string, rs: seq<Result<bool, Error>>, step: Step) {
    match step
    case Decided(r) =>
      exists i :: 0 <= i < |rs| && rs[i] == r && Ends(operator, r) && forall j :: 0 <= j < i ==> !Ends(operator, rs[j])
    case Undecided => forall i :: 0 <= i < |rs| ==> !Ends(operator, rs[i])
  }

  lemma AnsweredCons(operator: string, r: Result<bool, Error>, rs: seq<Result<bool, Error>>, step: Step)
    requires if Ends(operator, r) then step == Decided(r) else AnsweredFirst(operator, rs, step)
    ensures AnsweredFirst(operator, [r] + rs, step)
  {
    var all := [r] + rs;
    if Ends(operator, r) {
      assert all[0] == r;
    } else if step.Decided? {
      var i :| 0 <= i < |rs| && rs[i] == step.r && Ends(operator, step.r)
               && forall j :: 0 <= j < i ==> !Ends(operator, rs[j]);
      assert all[i + 1] == rs[i];
      assert forall j :: 0 < j < i + 1 ==> all[j] == rs[j - 1];
    } else {
      assert forall j :: 0 < j < |all| ==> all[j] == rs[j - 1];
    }
  }

  function Outcomes(env: Env, msg: Message, cs: seq<Condition>): seq<Result<bool, Error>> {
    if cs == [] then [] else [Outcome(env, msg, cs[0])] + Outcomes(env, msg, cs[1..])
  }

  function Answers(env: Env, msg: Message, gs: seq<Group>): seq<Result<bool, Error>>
    decreases |gs|
  {
    if gs == [] then [] else [FreshGroup(env, msg, gs[0], map[]).0] + Answers(env, msg, gs[1..])
  }

  lemma {:induction false} ConditionsEnd(env: Env, msg: Message, operator: string, cs: seq<Condition>, caps: Captures)
    ensures AnsweredFirst(operator, Outcomes(env, msg, cs), FreshConditions(env, msg, operator, cs, caps).0)
    decreases |cs|
  {
    hide Outcome, CapturesAfter, AnsweredFirst;
    if cs == [] {
      NoneEnds(operator);
    } else {
      var after := CapturesAfter(env, msg, cs[0], caps);
      ConditionsEnd(env, msg, operator, cs[1..], after);
      AnsweredCons(operator, Outcome(env, msg, cs[0]), Outcomes(env, msg, cs[1..]),
                   FreshConditions(env, msg, operator, cs, caps).0);
    }
  }

  lemma NoneEnds(operator: string)
    ensures AnsweredFirst(operator, [], Undecided)
  {
  }

  lemma {:induction false} GroupAnswer(env: Env, msg: Message, g: Group, a: Captures, b: Captures)
    ensures FreshGroup(env, msg, g, a).0 == FreshGroup(env, msg, g, b).0
    decreases g, 1
  {
    hide Outcome, CapturesAfter, FreshConditions, FreshGroups;
    ConditionsAnswer(env, msg, g.operator, g.conditions, a, b);
    var (sa, ca) := FreshConditions(env, msg, g.operator, g.conditions, a);
    var (sb, cb) := FreshConditions(env, msg, g.operator, g.conditions, b);
    if !sa.Decided? { GroupsAnswer(env, msg, g.operator, g.groups, ca, cb); }
  }

  lemma {:induction false} ConditionsAnswer(env: Env, msg: Message, operator: string, cs: seq<Condition>, a: Captures,
                                            b: Captures)
    ensures FreshConditions(env, msg, operator, cs, a).0 == FreshConditions(env, msg, operator, cs, b).0
    decreases |cs|
  {
    hide Outcome, CapturesAfter;
    if cs == [] {
    } else {
      ConditionsAnswer(env, msg, operator, cs[1..], CapturesAfter(env, msg, cs[0], a),
                       CapturesAfter(env, msg, cs[0], b));
    }
  }

  lemma {:induction false} GroupsAnswer(env: Env, msg: Message, operator: string, gs: seq<Group>, a: Captures,
                                        b: Captures)
    ensures FreshGroups(env, msg, operator, gs, a).0 == FreshGroups(env, msg, operator, gs, b).0
    decreases gs, 0
  {
    hide FreshGroup;
    if gs == [] {
    } else {
      GroupAnswer(env, msg, gs[0], a, b);
      GroupsAnswer(env, msg, operator, gs[1..], FreshGroup(env, msg, gs[0], a).1, FreshGroup(env, msg, gs[0], b).1);
    }
  }

  lemma {:induction false} GroupsEnd(env: Env, msg: Message, operator: string, gs: seq<Group>, caps: Captures)
    ensures AnsweredFirst(operator, Answers(env, msg, gs), FreshGroups(env, msg, operator, gs, caps).0)
    decreases |gs|
  {
    hide FreshGroup, AnsweredFirst;
    if gs == [] {
      NoneEnds(operator);
    } else {
      GroupAnswer(env, msg, gs[0], caps, map[]);
      GroupsEnd(env, msg, operator, gs[1..], FreshGroup(env, msg, gs[0], caps).1);
      AnsweredCons(operator, FreshGroup(env, msg, gs[0], map[]).0, Answers(env, msg, gs[1..]),
                   FreshGroups(env, msg, operator, gs, caps).0);
    }
  }

  /** Main result. A group answers with the first of its members, conditions before subgroups, that is in error, fails
      in an AND or holds in an OR; when there is none, an AND holds and any other group does not. */
  lemma GroupStopsAtFirst(env: Env, msg: Message, g: Group, caps: Captures)
    ensures var r := FreshGroup(env, msg, g, caps).0;
      var rs := Outcomes(env, msg, g.conditions) + Answers(env, msg, g.groups);
      || AnsweredFirst(g.operator, rs, Decided(r))
      || (AnsweredFirst(g.operator, rs, Undecided) && r == Ok(g.operator == "AND"))
  {
    hide FreshConditions, FreshGroups, Outcomes, Answers, AnsweredFirst;
    ConditionsEnd(env, msg, g.operator, g.conditions, caps);
    var (step, caps1) := FreshConditions(env, msg, g.operator, g.conditions, caps);
    GroupsEnd(env, msg, g.operator, g.groups, caps1);
    AnsweredAppend(g.operator, Outcomes(env, msg, g.conditions), step, Answers(env, msg, g.groups),
                   FreshGroups(env, msg, g.operator, g.groups, caps1).0);
  }

  lemma AnsweredAppend(operator: string, rs: seq<Result<bool, Error>>, a: Step, ss: seq<Result<bool, Error>>, b: Step)
    requires AnsweredFirst(operator, rs, a) && AnsweredFirst(operator, ss, b)
    ensures AnsweredFirst(operator, rs + ss, if a.Decided? then a else b)
  {
    var all := rs + ss;
    if a.Decided? {
      var i :| 0 <= i < |rs| && rs[i] == a.r && Ends(operator, a.r)
               && forall j :: 0 <= j < i ==> !Ends(operator, rs[j]);
      assert all[i] == rs[i];
    } else if b.Decided? {
      var i :| 0 <= i < |ss| && ss[i] == b.r && Ends(operator, b.r)
               && forall j :: 0 <= j < i ==> !Ends(operator, ss[j]);
      assert all[|rs| + i] == ss[i];
      forall j | 0 <= j < |rs| + i ensures !Ends(operator, all[j]) {
        assert all[j] == if j < |rs| then rs[j] else ss[j - |rs|];
      }
    }
  }
}
