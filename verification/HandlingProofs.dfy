/** What handling one message writes and sends, and when a sender is answered. */
module HandlingProofs {
  import opened Imap
  import opened PollerSpec
  import opened RuleTypes
  import opened ActionProofs
  import opened StatsProofs
  import opened ThrottleProofs

  // ----- rows and mail are about the message -----

  /** The row is about this message and an action of this list. */
  ghost predicate RowAbout(job: Job, actions: seq<Action>, row: LogRow) {
    row.sender == job.sender && row.subject == job.subject && row.rule == job.rule.name
    && exists a <- actions :: row.kind == a.kind && row.value == a.value
  }

  /** Answers go to the sender, everything else where an action of the list says. */
  ghost predicate SentAbout(job: Job, actions: seq<Action>, s: Sent) {
    match s.medium
    case Reply => s.to == job.sender
    case Forward => exists a <- actions :: a.kind == "forward" && s.to == a.value
    case Webhook => exists a <- actions :: a.kind == "webhook" && s.to == a.value
  }

  ghost predicate About(job: Job, actions: seq<Action>, w: World, v: World) {
    && w.log <= v.log && w.outbox <= v.outbox && v.jobs == w.jobs
    && (forall i :: |w.log| <= i < |v.log| ==> RowAbout(job, actions, v.log[i]))
    && (forall i :: |w.outbox| <= i < |v.outbox| ==> SentAbout(job, actions, v.outbox[i]))
  }

  lemma ActAbout(o: Oracle, c: Config, job: Job, e: Exec, a: Action, actions: seq<Action>)
    requires a in actions
    ensures About(job, actions, e.w, Act(o, c, job, e, a).w)
  {
    hide Act, Commands, Succeeded, Due;
    if Skipped(job, a) {
      SkippedIsNothing(o, c, job, e, a);
    } else {
      ActTells(o, c, job, e, a);
    }
  }

  lemma AboutThen(job: Job, actions: seq<Action>, u: World, v: World, w: World)
    requires About(job, actions, u, v) && About(job, actions, v, w)
    ensures About(job, actions, u, w)
  {
    hide RowAbout, SentAbout;
    forall i | |u.log| <= i < |w.log| ensures RowAbout(job, actions, w.log[i]) {
      if i < |v.log| { assert w.log[i] == v.log[i]; }
    }
    forall i | |u.outbox| <= i < |w.outbox| ensures SentAbout(job, actions, w.outbox[i]) {
      if i < |v.outbox| { assert w.outbox[i] == v.outbox[i]; }
    }
  }

  lemma AboutItself(job: Job, actions: seq<Action>, w: World)
    ensures About(job, actions, w, w)
  {
  }

  lemma {:induction false} ActAllAbout(o: Oracle, c: Config, job: Job, e: Exec, actions: seq<Action>, all: seq<Action>)
    requires forall a <- actions :: a in all
    ensures About(job, all, e.w, ActAll(o, c, job, e, actions).w)
    decreases |actions|
  {
    hide Act, About;
    if actions == [] || e.stopped {
      AboutItself(job, all, e.w);
    } else {
      var r := Act(o, c, job, e, actions[0]);
      ActAbout(o, c, job, e, actions[0], all);
      ActAllAbout(o, c, job, r, actions[1..], all);
      AboutThen(job, all, e.w, r.w, ActAll(o, c, job, r, actions[1..]).w);
    }
  }

  // ----- the log of a message is its rule -----

  /** The actions that have something to do. */
  ghost function Doing(job: Job, actions: seq<Action>): seq<Action> {
    if actions == [] then []
    else (if Skipped(job, actions[0]) then [] else [actions[0]]) + Doing(job, actions[1..])
  }

  /** The rows are about these actions, in order, the first so many of them; a list is cut short by a move only. */
  ghost predicate LogsInOrder(todo: seq<Action>, before: seq<LogRow>, after: seq<LogRow>, stopped: bool) {
    && before <= after && |after| <= |before| + |todo|
    && (forall k :: 0 <= k < |after| - |before| ==>
          after[|before| + k].kind == todo[k].kind && after[|before| + k].value == todo[k].value)
    && (!stopped ==> |after| == |before| + |todo|)
    && (|after| < |before| + |todo| ==>
          |before| < |after| && after[|after| - 1].kind in {"move_to_folder", "delete"}
          && after[|after| - 1].status == "error")
  }

  lemma OneInOrder(o: Oracle, c: Config, job: Job, e: Exec, a: Action)
    requires !e.stopped
    ensures var r := Act(o, c, job, e, a);
      && LogsInOrder(Doing(job, [a]), e.w.log, r.w.log, false)
      && (r.stopped ==> |r.w.log| > |e.w.log| && r.w.log[|e.w.log|].kind in {"move_to_folder", "delete"}
                        && r.w.log[|e.w.log|].status == "error")
  {
    hide Act, Commands, Sends, Succeeded, Skipped;
    ActFollows(o, c, job, e, a);
    assert Doing(job, [a][1..]) == [];
    if Skipped(job, a) {
      SkippedIsNothing(o, c, job, e, a);
    } else {
      ActTells(o, c, job, e, a);
    }
  }

  lemma InOrderThen(todo: seq<Action>, more: seq<Action>, a: seq<LogRow>, b: seq<LogRow>, d: seq<LogRow>, stopped: bool)
    requires LogsInOrder(todo, a, b, false) && LogsInOrder(more, b, d, stopped)
    ensures LogsInOrder(todo + more, a, d, stopped)
  {
    forall k | 0 <= k < |d| - |a|
      ensures d[|a| + k].kind == (todo + more)[k].kind && d[|a| + k].value == (todo + more)[k].value
    {
      if k < |todo| {
        assert d[|a| + k] == b[|a| + k];
      } else {
        assert d[|a| + k] == d[|b| + (k - |todo|)];
      }
    }
  }

  lemma {:induction false} ActAllInOrder(o: Oracle, c: Config, job: Job, e: Exec, actions: seq<Action>)
    requires !e.stopped
    ensures var r := ActAll(o, c, job, e, actions); LogsInOrder(Doing(job, actions), e.w.log, r.w.log, r.stopped)
    decreases |actions|
  {
    hide Act, Skipped;
    if actions == [] {
    } else {
      var a, rest := actions[0], actions[1..];
      var e1 := Act(o, c, job, e, a);
      OneInOrder(o, c, job, e, a);
      assert Doing(job, [a][1..]) == [];
      assert Doing(job, actions) == Doing(job, [a]) + Doing(job, rest);
      var r := ActAll(o, c, job, e, actions);
      if e1.stopped {
        assert r == e1;
      } else {
        ActAllInOrder(o, c, job, e1, rest);
        InOrderThen(Doing(job, [a]), Doing(job, rest), e.w.log, e1.w.log, r.w.log, r.stopped);
      }
    }
  }

  /** Main result. The rows of a matched message are its rule's actions in order, without those that have nothing to do.
      They end early only behind a move that did not tell where the message is. */
  lemma LogIsTheRule(o: Oracle, c: Config, w: World, rule: Rule, uid: Uid, id: nat)
    ensures var v := ActOnMatch(o, c, w, rule, uid, id); var letter := o.letter(id);
      exists stopped :: LogsInOrder(Doing(Job(rule, letter.sender, letter.subject), rule.actions), w.log, v.log,
                                    stopped)
  {
    hide ActAll, StoreOne, LogsInOrder, Doing;
    var job := JobFor(o, rule, id);
    ActAllInOrder(o, c, job, Start(w, uid), rule.actions);
    var r := ActAll(o, c, job, Start(w, uid), rule.actions);
    assert ActOnMatch(o, c, w, rule, uid, id).log == r.w.log;
    assert LogsInOrder(Doing(job, rule.actions), w.log, r.w.log, r.stopped);
  }

  /** The mailbox apart, nothing happened but time. */
  predicate OnlyTime(w: World, v: World) {
    v.log == w.log && v.stats == w.stats && v.throttle == w.throttle && v.outbox == w.outbox && v.trash == w.trash
    && v.jobs == w.jobs
  }

  lemma {:induction false} PeeksOnlyTime(o: Oracle, w: World, uid: Uid, n: nat)
    ensures OnlyTime(w, Peeks(o, w, uid, n))
    decreases n
  {
    hide PeekOne;
    if n == 0 {
    } else {
      PeeksOnlyTime(o, After(w, PeekOne(w.box, Now(o, w), uid)), uid, n - 1);
    }
  }

  /** Main result. All rows and all mail of one handled UID are about the message the fetch gave and the actions of the
      rule that matched it; a UID that cannot be fetched, or that no rule matches, leaves no trace in the tables. */
  lemma HandlingIsAboutTheMessage(o: Oracle, c: Config, rules: seq<Rule>, w: World, uid: Uid)
    ensures var (v, h) := HandleUid(o, c, rules, w, uid); var f := Now(o, w); var got := FetchOne(w.box, f, uid).1;
      && (h.FetchFailed? <==> got.None?)
      && (!h.Matched? ==> OnlyTime(w, v))
      && (h.Matched? ==>
            && got.Some? && f.verdict.MatchedRule? && f.verdict.index < |rules|
            && var rule := rules[f.verdict.index]; var letter := o.letter(got.value);
               h.actions == |rule.actions| && |v.jobs| == |w.jobs| + 1
               && About(Job(rule, letter.sender, letter.subject), rule.actions, w.(jobs := v.jobs), v))
  {
    hide FetchOne, Peeks, ActAll, StoreOne, About;
    var f := Now(o, w);
    var (box, got) := FetchOne(w.box, f, uid);
    if got.Some? {
      var w1 := After(w, box);
      PeeksOnlyTime(o, w1, uid, f.peeks);
      var w2 := Peeks(o, w1, uid, f.peeks);
      if f.verdict.MatchedRule? && f.verdict.index < |rules| {
        MatchIsAboutTheMessage(o, c, w2, rules[f.verdict.index], uid, got.value);
        var v := ActOnMatch(o, c, w2, rules[f.verdict.index], uid, got.value);
        SameAbout(JobFor(o, rules[f.verdict.index], got.value), rules[f.verdict.index].actions, w2.(jobs := v.jobs),
                  w.(jobs := v.jobs), v);
      }
    }
  }

  lemma SameAbout(job: Job, actions: seq<Action>, u: World, v: World, w: World)
    requires u.log == v.log && u.outbox == v.outbox && u.jobs == v.jobs && About(job, actions, u, w)
    ensures About(job, actions, v, w)
  {
  }

  lemma MatchIsAboutTheMessage(o: Oracle, c: Config, w: World, rule: Rule, uid: Uid, id: nat)
    ensures var v := ActOnMatch(o, c, w, rule, uid, id); var letter := o.letter(id);
      && About(Job(rule, letter.sender, letter.subject), rule.actions, w.(jobs := v.jobs), v)
      && |v.jobs| == |w.jobs| + 1
  {
    hide ActAll, StoreOne, RowAbout, SentAbout;
    var job := JobFor(o, rule, id);
    ActAllAbout(o, c, job, Start(w, uid), rule.actions, rule.actions);
  }

  /** What one turn of an apply adds to its report. It ends when nothing is found, with an error when the search
      fails. A message that cannot be fetched or matched is an error; any other is processed, and when a rule matches,
      it is matched and that rule's actions are counted. */
  lemma TurnReports(o: Oracle, c: Config, rules: seq<Rule>, folder: string, p: Progress)
    ensures var (box, reply) := SearchBox(p.w.box, Now(o, p.w), o.wraps, folder, p.minUid);
      var t := ApplyStep(o, c, rules, folder, p); var f := o.fate(p.w.clock + 1);
      if !reply.FoundUid? then t.ApplyEnd? && t.p == p.(w := After(p.w, box)) && t.failed == reply.SearchError?
      else if FetchOne(box, f, reply.uid).1.None? || f.verdict.MatchError? then
        t.ApplyOn? && t.p == p.(w := t.p.w, minUid := t.p.minUid, handled := p.handled + [reply.uid],
                                errors := p.errors + 1)
      else if f.verdict.MatchedRule? && f.verdict.index < |rules| then
        t.ApplyOn? && t.p == p.(w := t.p.w, minUid := t.p.minUid, handled := p.handled + [reply.uid],
                                processed := p.processed + 1, matched := p.matched + 1,
                                actions := p.actions + |rules[f.verdict.index].actions|)
      else
        t.ApplyOn? && t.p == p.(w := t.p.w, minUid := t.p.minUid, handled := p.handled + [reply.uid],
                                processed := p.processed + 1)
  {
    hide SearchBox, FetchOne, Peeks, ActOnMatch;
    var (box, reply) := SearchBox(p.w.box, Now(o, p.w), o.wraps, folder, p.minUid);
    match reply
    case SearchError =>
    case NoneFound =>
    case FoundUid(u) =>
      var w1 := After(p.w, box);
      var (v, h) := HandleUid(o, c, rules, w1, u);
      assert Now(o, w1) == o.fate(p.w.clock + 1);
      assert ApplyStep(o, c, rules, folder, p) == ApplyOn(Tally(p, v, u, h));
  }

  lemma HandlingActs(o: Oracle, c: Config, rules: seq<Rule>, w: World, uid: Uid)
    ensures var (v, h) := HandleUid(o, c, rules, w, uid); |v.jobs| == |w.jobs| + (if h.Matched? then 1 else 0)
  {
    hide HandleUid, About;
    HandlingIsAboutTheMessage(o, c, rules, w, uid);
  }

  lemma StepMeansActed(o: Oracle, c: Config, rules: seq<Rule>, folder: string, p: Progress)
    ensures var q := ApplyStep(o, c, rules, folder, p).p; q.matched - p.matched == |q.w.jobs| - |p.w.jobs|
  {
    hide SearchBox, HandleUid;
    var (box, reply) := SearchBox(p.w.box, Now(o, p.w), o.wraps, folder, p.minUid);
    match reply
    case SearchError =>
    case NoneFound =>
    case FoundUid(u) =>
      HandlingActs(o, c, rules, After(p.w, box), u);
      var (v, h) := HandleUid(o, c, rules, After(p.w, box), u);
      assert ApplyStep(o, c, rules, folder, p) == ApplyOn(Tally(p, v, u, h));
  }

  /** In the report of an apply, Matched is the number of messages whose actions ran. */
  lemma {:induction false} MatchedMeansActed(o: Oracle, c: Config, rules: seq<Rule>, folder: string, limit: nat,
                                             p: Progress, turns: nat)
    ensures var q := ApplyTurns(o, c, rules, folder, limit, p, turns).p;
      q.matched - p.matched == |q.w.jobs| - |p.w.jobs|
    decreases turns
  {
    hide SearchBox, HandleUid;
    if p.processed >= limit || turns == 0 {
    } else {
      StepMeansActed(o, c, rules, folder, p);
      hide ApplyStep;
      var t := ApplyStep(o, c, rules, folder, p);
      if t.ApplyOn? { MatchedMeansActed(o, c, rules, folder, limit, t.p, turns - 1); }
    }
  }

  /** A prune takes the slots of more than so many days ago, and no other. */
  lemma PruneMeaning(o: Oracle, c: Config, w: World, age: nat, row: ThrottleRow)
    ensures row in Run(o, c, w, CallPrune(age)).throttle <==> row in w.throttle && Now(o, w).day <= row.date + age
  {
  }

  // ----- the counters of a message -----

  lemma KeysOfMessage(o: Oracle, job: Job, e: Exec, key: string)
    ensures var keys := MessageKeys(o, job, e); var today := Now(o, e.w).day;
      && CountKey(keys, "rule_hit", key) == (if key == job.rule.name then 1 else 0)
      && CountKey(keys, "sender", key) == (if key == job.sender && key != "" then 1 else 0)
      && CountKey(keys, "daily", key) == (if key == o.dayKey(today) then 1 else 0)
      && CountKey(keys, "weekly", key) == (if key == o.weekKey(today) then 1 else 0)
  {
    KeyOfMessage(o, job, e, "rule_hit", key);
    KeyOfMessage(o, job, e, "sender", key);
    KeyOfMessage(o, job, e, "daily", key);
    KeyOfMessage(o, job, e, "weekly", key);
    hide CountKey;
  }

  lemma KeyOfMessage(o: Oracle, job: Job, e: Exec, category: string, key: string)
    ensures var today := Now(o, e.w).day;
      CountKey(MessageKeys(o, job, e), category, key)
      == (if (category, key) == ("total", "processed") then 1 else 0)
       + (if (category, key) == ("rule_hit", job.rule.name) then 1 else 0)
       + (if (category, key) == ("sender", job.sender) && job.sender != "" then 1 else 0)
       + (if (category, key) == ("daily", o.dayKey(today)) then 1 else 0)
       + (if (category, key) == ("weekly", o.weekKey(today)) then 1 else 0)
  {
    var today := Now(o, e.w).day;
    var a := [("total", "processed"), ("rule_hit", job.rule.name)];
    var b := if job.sender != "" then [("sender", job.sender)] else [];
    var d := [("daily", o.dayKey(today)), ("weekly", o.weekKey(today))];
    CountAppend(a + b, d, category, key);
    CountAppend(a, b, category, key);
    CountPair(a[0], a[1], category, key);
    CountPair(d[0], d[1], category, key);
  }

  /** The first row of a message counts it once under its rule, its sender and its day and week; later rows do not. */
  lemma MessageCounters(o: Oracle, c: Config, job: Job, e: Exec, uid: Uid, a: Action, status: string, key: string)
    ensures var s := e.w.stats; var t := LogAction(o, c, job, e, uid, a, status).w.stats; var today := Now(o, e.w).day;
      var first := if e.counted then 0 else 1;
      && ValueOf(t, "rule_hit", key) == ValueOf(s, "rule_hit", key) + (if key == job.rule.name then first else 0)
      && ValueOf(t, "sender", key) == ValueOf(s, "sender", key) + (if key == job.sender && key != "" then first else 0)
      && ValueOf(t, "daily", key) == ValueOf(s, "daily", key) + (if key == o.dayKey(today) then first else 0)
      && ValueOf(t, "weekly", key) == ValueOf(s, "weekly", key) + (if key == o.weekKey(today) then first else 0)
  {
    hide LogAction, MessageKeys, ActionKeys, CountKey, CountCategory, ValueOf, SumOf;
    KeysOfMessage(o, job, e, key);
    LogActionCounters(o, c, job, e, uid, a, status, "rule_hit", key);
    LogActionCounters(o, c, job, e, uid, a, status, "sender", key);
    LogActionCounters(o, c, job, e, uid, a, status, "daily", key);
    LogActionCounters(o, c, job, e, uid, a, status, "weekly", key);
    ActionKeysCount(a, status, "rule_hit", key);
    ActionKeysCount(a, status, "sender", key);
    ActionKeysCount(a, status, "daily", key);
    ActionKeysCount(a, status, "weekly", key);
  }

  // ----- who is answered -----

  /** A successful answer to this sender was recorded on this day: the interaction after the send. */
  ghost predicate AnsweredOn(o: Oracle, outbox: seq<Sent>, sender: string, day: nat) {
    exists s <- outbox :: Replied(s) && s.to == sender && o.fate(s.moment + 1).day == day
  }

  /** Every slot was taken by an answer. */
  ghost predicate Recorded(o: Oracle, w: World) {
    forall r <- w.throttle :: AnsweredOn(o, w.outbox, r.recipient, r.date)
  }

  ghost predicate Answers(o: Oracle, w: World, v: World) {
    w.outbox <= v.outbox && forall r <- v.throttle :: r in w.throttle || AnsweredOn(o, v.outbox, r.recipient, r.date)
  }

  lemma StillRecorded(o: Oracle, w: World, v: World)
    requires Recorded(o, w) && Answers(o, w, v)
    ensures Recorded(o, v)
  {
    forall r | r in v.throttle ensures AnsweredOn(o, v.outbox, r.recipient, r.date) {
      if r in w.throttle {
        assert AnsweredOn(o, w.outbox, r.recipient, r.date);
        assert forall s <- w.outbox :: s in v.outbox;
      }
    }
  }

  lemma ActAnswers(o: Oracle, c: Config, job: Job, e: Exec, a: Action)
    ensures Answers(o, e.w, Act(o, c, job, e, a).w)
  {
    hide Act, Commands, Succeeded, ReplyAndLog, Due;
    if Skipped(job, a) {
      SkippedIsNothing(o, c, job, e, a);
    } else if a.kind != "auto_reply" {
      ActTells(o, c, job, e, a);
    } else {
      ReplyTells(o, c, job, e, a);
      IsReply(o, c, job, e, a);
      var r := ReplyAndLog(o, c, job, e, a);
      if r.w.outbox != e.w.outbox {
        var s := r.w.outbox[|e.w.outbox|];
        assert s in r.w.outbox && s.moment + 1 == e.w.clock + 2;
      }
    }
  }

  lemma IsReply(o: Oracle, c: Config, job: Job, e: Exec, a: Action)
    requires a.kind == "auto_reply" && !Skipped(job, a)
    ensures Act(o, c, job, e, a) == ReplyAndLog(o, c, job, e, a)
  {
    hide ReplyAndLog;
  }

  lemma {:induction false} ActAllRecorded(o: Oracle, c: Config, job: Job, e: Exec, actions: seq<Action>)
    requires Recorded(o, e.w)
    ensures Recorded(o, ActAll(o, c, job, e, actions).w)
    decreases |actions|
  {
    hide Act, Recorded, Answers;
    if actions == [] || e.stopped {
    } else {
      ActAnswers(o, c, job, e, actions[0]);
      StillRecorded(o, e.w, Act(o, c, job, e, actions[0]).w);
      ActAllRecorded(o, c, job, Act(o, c, job, e, actions[0]), actions[1..]);
    }
  }

  lemma SameRecorded(o: Oracle, w: World, v: World)
    requires Recorded(o, w) && v.throttle <= w.throttle && v.outbox == w.outbox
    ensures Recorded(o, v)
  {
  }

  lemma HandleRecorded(o: Oracle, c: Config, rules: seq<Rule>, w: World, uid: Uid)
    requires Recorded(o, w)
    ensures Recorded(o, HandleUid(o, c, rules, w, uid).0)
  {
    hide FetchOne, Peeks, ActAll, StoreOne, Recorded;
    var f := Now(o, w);
    var (box, got) := FetchOne(w.box, f, uid);
    SameRecorded(o, w, After(w, box));
    if got.Some? {
      var w2 := Peeks(o, After(w, box), uid, f.peeks);
      PeeksOnlyTime(o, After(w, box), uid, f.peeks);
      SameRecorded(o, w, w2);
      if f.verdict.MatchedRule? && f.verdict.index < |rules| {
        var rule := rules[f.verdict.index];
        var job := JobFor(o, rule, got.value);
        ActAllRecorded(o, c, job, Start(w2, uid), rule.actions);
        SameRecorded(o, ActAll(o, c, job, Start(w2, uid), rule.actions).w, HandleUid(o, c, rules, w, uid).0);
      }
    }
  }

  lemma {:induction false} TickLoopRecorded(o: Oracle, c: Config, rules: seq<Rule>, w: World, turns: nat, floor: nat,
                                            skip: set<Uid>, handled: seq<Uid>)
    requires Recorded(o, w)
    ensures Recorded(o, TickLoop(o, c, rules, w, turns, floor, skip, handled).w)
    decreases turns
  {
    hide SearchBox, HandleUid, Recorded;
    if turns == 0 {
    } else {
      var (box, reply) := SearchBox(w.box, Now(o, w), o.wraps, c.source, floor);
      var w1 := After(w, box);
      SameRecorded(o, w, w1);
      if reply.FoundUid? {
        var u := reply.uid;
        if u in skip {
          TickLoopRecorded(o, c, rules, w1, turns - 1, floor, skip, handled);
        } else {
          HandleRecorded(o, c, rules, w1, u);
          var floor' := if Next32(u) > floor then Next32(u) else floor;
          var (w2, h) := HandleUid(o, c, rules, w1, u);
          TickLoopRecorded(o, c, rules, w2, turns - 1, floor', if h == Unmatched then skip + {u} else skip,
                           handled + [u]);
        }
      }
    }
  }

  lemma {:induction false} ApplyTurnsRecorded(o: Oracle, c: Config, rules: seq<Rule>, folder: string, limit: nat,
                                              p: Progress, turns: nat)
    requires Recorded(o, p.w)
    ensures Recorded(o, ApplyTurns(o, c, rules, folder, limit, p, turns).p.w)
    decreases turns
  {
    hide SearchBox, HandleUid, Recorded;
    if p.processed >= limit || turns == 0 {
    } else {
      var (box, reply) := SearchBox(p.w.box, Now(o, p.w), o.wraps, folder, p.minUid);
      var w1 := After(p.w, box);
      SameRecorded(o, p.w, w1);
      if reply.FoundUid? {
        HandleRecorded(o, c, rules, w1, reply.uid);
        ApplyTurnsRecorded(o, c, rules, folder, limit, ApplyStep(o, c, rules, folder, p).p, turns - 1);
      }
    }
  }

  lemma {:induction false} RunAllRecorded(o: Oracle, c: Config, w: World, calls: seq<Call>)
    requires Recorded(o, w)
    ensures Recorded(o, RunAll(o, c, w, calls))
    decreases |calls|
  {
    hide TickLoop, ApplyTurns, Recorded;
    if calls == [] {
    } else {
      match calls[0] {
        case CallTick(rules) => TickLoopRecorded(o, c, rules, w, c.batchSize, 0, {}, []);
        case CallApply(rules, folder, limit, turns) =>
          ApplyTurnsRecorded(o, c, rules, folder, Limit(limit), FromTheStart(w), turns);
        case CallPrune(_) => SameRecorded(o, w, Run(o, c, w, calls[0]));
      }
      RunAllRecorded(o, c, Run(o, c, w, calls[0]), calls[1..]);
    }
  }

  /** The other half of the daily law. An auto_reply with something to say attempts exactly one answer, to the sender of
      the message, when that is not the account and no readable slot names the sender and the day; otherwise none. */
  lemma DueIsSent(o: Oracle, c: Config, job: Job, e: Exec, a: Action)
    requires a.kind == "auto_reply" && a.value != "" && job.sender != ""
    ensures var r := Act(o, c, job, e, a); var today := Now(o, e.w).day;
      if job.sender != c.account
         && !(Now(o, e.w).readOk && exists row <- e.w.throttle :: row.recipient == job.sender && row.date == today)
      then |r.w.outbox| == |e.w.outbox| + 1 && e.w.outbox <= r.w.outbox
           && r.w.outbox[|e.w.outbox|].medium == Reply && r.w.outbox[|e.w.outbox|].to == job.sender
           && r.w.outbox[|e.w.outbox|].checkDay == today
      else r.w.outbox == e.w.outbox
  {
    hide Act, Commands, Tells, Succeeded;
    ActTells(o, c, job, e, a);
  }

  /** Main result. Over any run from an empty throttle table: when an auto_reply is reached for a sender all of whose
      successful answers so far were recorded on other days, one answer is attempted. */
  lemma SenderIsAnswered(o: Oracle, c: Config, w0: World, calls: seq<Call>, rule: Rule, uid: Uid, id: nat, j: nat)
    requires w0.throttle == {} && j < |rule.actions|
    requires rule.actions[j].kind == "auto_reply" && rule.actions[j].value != ""
    requires o.letter(id).sender != "" && o.letter(id).sender != c.account
    ensures var job := JobFor(o, rule, id); var sender := o.letter(id).sender;
      var e := ActAll(o, c, job, Start(RunAll(o, c, w0, calls), uid), rule.actions[..j]);
      var r := Act(o, c, job, e, rule.actions[j]);
      (forall s <- e.w.outbox :: s.medium == Reply && s.ok && s.to == sender ==>
         o.fate(s.moment + 1).day != Now(o, e.w).day) ==>
      && |r.w.outbox| == |e.w.outbox| + 1 && e.w.outbox <= r.w.outbox
      && r.w.outbox[|e.w.outbox|].medium == Reply && r.w.outbox[|e.w.outbox|].to == sender
  {
    hide RunAll, ActAll, Act;
    RunAllRecorded(o, c, w0, calls);
    var job := JobFor(o, rule, id);
    var w := RunAll(o, c, w0, calls);
    ActAllRecorded(o, c, job, Start(w, uid), rule.actions[..j]);
    var e := ActAll(o, c, job, Start(w, uid), rule.actions[..j]);
    DueIsSent(o, c, job, e, rule.actions[j]);
    if row :| row in e.w.throttle && row.recipient == job.sender && row.date == Now(o, e.w).day {
      assert AnsweredOn(o, e.w.outbox, row.recipient, row.date);
    }
  }
}
