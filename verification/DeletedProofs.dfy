/** When the poller asks a server to flag a message as deleted, which it means never to do. */
module DeletedProofs {
  import opened Imap
  import opened Text
  import opened PollerSpec
  import opened RuleTypes
  import opened SessionProofs
  import opened ConservationProofs
  import opened OnceProofs
  import opened FailureProofs

  // ----- what is asked, and what is logged -----

  /** A server reads flag names without case. */
  predicate AsksDeleted(e: Event) {
    e.op.Store? && Lower(e.op.flag) == "\\deleted"
  }

  /** The action is not stopped by the guard, which knows one spelling. */
  predicate Slips(kind: string, value: string) {
    kind == "set_flag" && Lower(value) == "\\deleted" && value != "\\Deleted"
  }

  function Asked(trace: seq<Event>): nat {
    if trace == [] then 0
    else Asked(trace[..|trace| - 1]) + (if AsksDeleted(trace[|trace| - 1]) then 1 else 0)
  }

  function Slipped(log: seq<LogRow>): nat {
    if log == [] then 0
    else Slipped(log[..|log| - 1]) + (if Slips(log[|log| - 1].kind, log[|log| - 1].value) then 1 else 0)
  }

  lemma AskedMore(trace: seq<Event>, e: Event)
    ensures Asked(trace + [e]) == Asked(trace) + (if AsksDeleted(e) then 1 else 0)
  {
    assert (trace + [e])[..|trace|] == trace;
  }

  lemma SlippedMore(log: seq<LogRow>, row: LogRow)
    ensures Slipped(log + [row]) == Slipped(log) + (if Slips(row.kind, row.value) then 1 else 0)
  {
    assert (log + [row])[..|log|] == log;
  }

  lemma {:induction false} AskedIff(trace: seq<Event>)
    ensures Asked(trace) > 0 <==> exists e <- trace :: AsksDeleted(e)
    decreases |trace|
  {
    hide AsksDeleted;
    if trace == [] {
    } else {
      var rest := trace[..|trace| - 1];
      AskedIff(rest);
      assert trace == rest + [trace[|trace| - 1]];
    }
  }

  lemma {:induction false} SlippedIff(log: seq<LogRow>)
    ensures Slipped(log) > 0 <==> exists row <- log :: Slips(row.kind, row.value)
    decreases |log|
  {
    hide Slips;
    if log == [] {
    } else {
      var rest := log[..|log| - 1];
      SlippedIff(rest);
      assert log == rest + [log[|log| - 1]];
    }
  }

  predicate SlipIn(actions: seq<Action>) {
    exists a <- actions :: Slips(a.kind, a.value)
  }

  predicate SlipInRules(rules: seq<Rule>) {
    exists r <- rules :: SlipIn(r.actions)
  }

  // ----- both grow together -----

  ghost predicate Together(w: World, v: World) {
    Asked(w.box.trace) <= Asked(v.box.trace)
    && Asked(v.box.trace) - Asked(w.box.trace) == Slipped(v.log) - Slipped(w.log)
  }

  ghost predicate Neither(w: World, v: World) {
    Asked(v.box.trace) == Asked(w.box.trace) && Slipped(v.log) == Slipped(w.log)
  }

  /** So many new requests, and as many new rows. */
  ghost predicate Grown(w: World, v: World, n: nat) {
    Asked(v.box.trace) == Asked(w.box.trace) + n && Slipped(v.log) == Slipped(w.log) + n
  }

  function One(a: Action): nat {
    if Slips(a.kind, a.value) then 1 else 0
  }

  lemma LogGrows(o: Oracle, c: Config, job: Job, e: Exec, uid: Uid, a: Action, status: string)
    ensures var r := LogAction(o, c, job, e, uid, a, status);
      r.w.box == e.w.box && Slipped(r.w.log) == Slipped(e.w.log) + One(a)
  {
    hide IncrementAll, StatKeys, Slips, Slipped;
    var r := LogAction(o, c, job, e, uid, a, status);
    SlippedMore(e.w.log, r.w.log[|e.w.log|]);
  }

  lemma CommandAsks(s: Server, f: Fate, uid: Uid, dest: string, flag: string)
    ensures Asked(MoveOne(s, f, uid, dest).0.trace) == Asked(s.trace)
    ensures Asked(RawOne(s, f, uid).0.trace) == Asked(s.trace)
    ensures Asked(SelectBox(s, f, dest).trace) == Asked(s.trace)
    ensures Asked(FetchOne(s, f, uid).0.trace) == Asked(s.trace)
    ensures Asked(PeekOne(s, f, uid).trace) == Asked(s.trace)
    ensures Asked(StoreOne(s, f, uid, flag, false).0.trace) == Asked(s.trace)
  {
    hide Numbered, Arrivals, Asked;
    AskedMore(s.trace, MoveOne(s, f, uid, dest).0.trace[|s.trace|]);
    AskedMore(s.trace, RawOne(s, f, uid).0.trace[|s.trace|]);
    AskedMore(s.trace, SelectBox(s, f, dest).trace[|s.trace|]);
    AskedMore(s.trace, FetchOne(s, f, uid).0.trace[|s.trace|]);
    AskedMore(s.trace, PeekOne(s, f, uid).trace[|s.trace|]);
    AskedMore(s.trace, StoreOne(s, f, uid, flag, false).0.trace[|s.trace|]);
  }

  lemma StoreAsks(s: Server, f: Fate, uid: Uid, flag: string)
    ensures Asked(StoreOne(s, f, uid, flag, true).0.trace)
         == Asked(s.trace) + (if Lower(flag) == "\\deleted" then 1 else 0)
  {
    hide Numbered, Arrivals, Asked;
    AskedMore(s.trace, StoreOne(s, f, uid, flag, true).0.trace[|s.trace|]);
  }

  lemma SearchAsks(s: Server, f: Fate, wraps: bool, folder: string, floor: nat, uid: Uid)
    ensures Asked(SearchBox(s, f, wraps, folder, floor).0.trace) == Asked(s.trace)
  {
    hide Asked, Disturb, Hit;
    CommandAsks(s, f, uid, folder, "");
    var t0 := SelectBox(s, f, folder);
    var t := SearchBox(s, f, wraps, folder, floor).0;
    if t0.selected.Some? { AskedMore(t0.trace, t.trace[|t0.trace|]); }
  }

  lemma DisturbAsks(s: Server, f: Fate)
    ensures Disturb(s, f).trace == s.trace
  {
  }

  lemma MoveGrows(o: Oracle, c: Config, job: Job, e: Exec, a: Action, dest: string, relabel: bool)
    requires a.kind != "set_flag"
    ensures Grown(e.w, MoveAndFollow(o, c, job, e, a, dest, relabel).w, 0)
  {
    hide MoveOne, SelectBox, LogAction, Asked, Slipped;
    CommandAsks(e.w.box, Now(o, e.w), e.uid, dest, "");
    var (box, reply) := MoveOne(e.w.box, Now(o, e.w), e.uid, dest);
    var e1 := e.(w := After(e.w, box));
    LogGrows(o, c, job, e1, e.uid, a, "error");
    LogGrows(o, c, job, e1, e.uid, a, "success");
    var e2 := LogAction(o, c, job, e1, e.uid, a, "success");
    CommandAsks(e2.w.box, Now(o, e2.w), e.uid, dest, "");
  }

  lemma StoreGrows(o: Oracle, c: Config, job: Job, e: Exec, a: Action, flag: string, add: bool)
    requires (add && Lower(flag) == "\\deleted") == Slips(a.kind, a.value)
    ensures Grown(e.w, StoreAndLog(o, c, job, e, a, flag, add).w, One(a))
  {
    hide StoreOne, LogAction, Asked, Slipped, Slips, Lower;
    CommandAsks(e.w.box, Now(o, e.w), e.uid, "", flag);
    StoreAsks(e.w.box, Now(o, e.w), e.uid, flag);
    var (box, ok) := StoreOne(e.w.box, Now(o, e.w), e.uid, flag, add);
    LogGrows(o, c, job, e.(w := After(e.w, box)), e.uid, a, Status(ok));
  }

  lemma SendGrows(o: Oracle, c: Config, job: Job, e: Exec, a: Action)
    requires a.kind != "set_flag"
    ensures Grown(e.w, ForwardAndLog(o, c, job, e, a).w, 0) && Grown(e.w, WebhookAndLog(o, c, job, e, a).w, 0)
  {
    hide RawOne, Disturb, LogAction, Asked, Slipped;
    var f := Now(o, e.w);
    CommandAsks(e.w.box, f, e.uid, "", "");
    DisturbAsks(e.w.box, f);
    var (box, ok) := RawOne(e.w.box, f, e.uid);
    var e1 := e.(w := After(e.w, box));
    LogGrows(o, c, job, e1, e.uid, a, "error");
    DisturbAsks(e1.w.box, Now(o, e1.w));
    var (w2, sent) := Deliver(o, e1.w, Forward, a.value, 0);
    LogGrows(o, c, job, e1.(w := w2), e.uid, a, Status(sent));
    var (w3, called) := Deliver(o, e.w, Webhook, a.value, 0);
    LogGrows(o, c, job, e.(w := w3), e.uid, a, Status(called));
  }

  lemma TryReplyAsks(o: Oracle, c: Config, job: Job, w: World)
    ensures var v := TryReply(o, c, job, w).0; v.box.trace == w.box.trace && v.log == w.log
  {
    hide Disturb;
    if job.sender != c.account {
      var f := Now(o, w);
      DisturbAsks(w.box, f);
      var w1 := After(w, Disturb(w.box, f));
      DisturbAsks(w1.box, Now(o, w1));
      var w2 := Deliver(o, w1, Reply, job.sender, f.day).0;
      DisturbAsks(w2.box, Now(o, w2));
    }
  }

  lemma ReplyGrows(o: Oracle, c: Config, job: Job, e: Exec, a: Action)
    requires a.kind != "set_flag"
    ensures Grown(e.w, ReplyAndLog(o, c, job, e, a).w, 0)
  {
    hide TryReply, LogAction, Asked, Slipped;
    TryReplyAsks(o, c, job, e.w);
    var (w, status) := TryReply(o, c, job, e.w);
    LogGrows(o, c, job, e.(w := w), e.uid, a, status);
  }

  lemma DeleteGrows(o: Oracle, c: Config, job: Job, e: Exec, a: Action)
    requires a.kind != "set_flag"
    ensures Grown(e.w, DeleteAndLog(o, c, job, e, a).w, 0)
  {
    hide MoveAndFollow, Disturb, LogAction, Asked, Slipped, TrashName;
    DisturbAsks(e.w.box, Now(o, e.w));
    var (w1, trash) := FindTrash(o, e.w);
    var e1 := e.(w := w1);
    LogGrows(o, c, job, e1, e.uid, a, "error");
    if trash.Some? { MoveGrows(o, c, job, e1, a, trash.value, false); }
  }

  lemma SeenIsNot()
    ensures Lower("\\Seen") != "\\deleted" && Lower("\\Deleted") == "\\deleted"
  {
    assert Lower("\\Seen")[1] == 's';
  }

  /** One action asks for the flag, and logs a row that says so, exactly when it slips through. */
  lemma ActGrows(o: Oracle, c: Config, job: Job, e: Exec, a: Action)
    ensures Grown(e.w, Act(o, c, job, e, a).w, One(a))
  {
    hide MoveAndFollow, StoreAndLog, ForwardAndLog, WebhookAndLog, DeleteAndLog, ReplyAndLog, LogAction, NamedFlag,
         Asked, Slipped, Lower;
    SeenIsNot();
    if a.kind == "set_flag" {
      if a.value == "\\Deleted" {
        LogGrows(o, c, job, e, e.uid, a, "error");
      } else if a.value != "" {
        StoreGrows(o, c, job, e, a, a.value, true);
      } else {
        EmptyIsNot();
      }
    } else {
      MoveGrows(o, c, job, e, a, a.value, true);
      StoreGrows(o, c, job, e, a, "\\Seen", a.kind == "mark_as_read");
      if NamedFlag(a.value).Some? { StoreGrows(o, c, job, e, a, NamedFlag(a.value).value, false); }
      SendGrows(o, c, job, e, a);
      ReplyGrows(o, c, job, e, a);
      DeleteGrows(o, c, job, e, a);
    }
  }

  lemma EmptyIsNot()
    ensures Lower("") != "\\deleted"
  {
  }

  lemma {:induction false} ActAllGrows(o: Oracle, c: Config, job: Job, e: Exec, actions: seq<Action>)
    ensures var r := ActAll(o, c, job, e, actions);
      Together(e.w, r.w) && (!SlipIn(actions) ==> Neither(e.w, r.w))
    decreases |actions|
  {
    hide Act, Asked, Slipped, Slips;
    if actions == [] || e.stopped {
    } else {
      ActGrows(o, c, job, e, actions[0]);
      ActAllGrows(o, c, job, Act(o, c, job, e, actions[0]), actions[1..]);
      assert actions[0] in actions && forall a <- actions[1..] :: a in actions;
    }
  }

  lemma {:induction false} PeeksAsk(o: Oracle, w: World, uid: Uid, n: nat)
    ensures Neither(w, Peeks(o, w, uid, n))
    decreases n
  {
    hide PeekOne, Asked, Slipped, Peaceful;
    if n == 0 {
    } else {
      CommandAsks(w.box, Now(o, w), uid, "", "");
      PeeksAsk(o, After(w, PeekOne(w.box, Now(o, w), uid)), uid, n - 1);
    }
  }

  lemma HandleGrows(o: Oracle, c: Config, rules: seq<Rule>, w: World, uid: Uid)
    ensures var v := HandleUid(o, c, rules, w, uid).0;
      Together(w, v) && (!SlipInRules(rules) ==> Neither(w, v))
  {
    hide FetchOne, Peeks, ActOnMatch, Asked, Slipped, SlipIn;
    var f := Now(o, w);
    CommandAsks(w.box, f, uid, "", "");
    var (box, got) := FetchOne(w.box, f, uid);
    if got.Some? {
      var w1 := After(w, box);
      PeeksAsk(o, w1, uid, f.peeks);
      if f.verdict.MatchedRule? && f.verdict.index < |rules| {
        MatchGrows(o, c, Peeks(o, w1, uid, f.peeks), rules[f.verdict.index], uid, got.value);
      }
    }
  }

  lemma MatchGrows(o: Oracle, c: Config, w: World, rule: Rule, uid: Uid, id: nat)
    ensures var v := ActOnMatch(o, c, w, rule, uid, id);
      Together(w, v) && (!SlipIn(rule.actions) ==> Neither(w, v))
  {
    hide ActAll, StoreOne, Asked, Slipped, SlipIn, Lower;
    SeenIsNot();
    ActAllGrows(o, c, JobFor(o, rule, id), Start(w, uid), rule.actions);
    var (v, moved) := ExecuteActions(o, c, w, rule, uid, id);
    StoreAsks(v.box, Now(o, v), uid, "\\Seen");
  }

  lemma {:induction false} TickLoopGrows(o: Oracle, c: Config, rules: seq<Rule>, w: World, turns: nat, floor: nat,
                                         skip: set<Uid>, handled: seq<Uid>)
    ensures var v := TickLoop(o, c, rules, w, turns, floor, skip, handled).w;
      Together(w, v) && (!SlipInRules(rules) ==> Neither(w, v))
    decreases turns
  {
    hide SearchBox, HandleUid, Asked, Slipped, SlipInRules;
    if turns == 0 {
    } else {
      SearchAsks(w.box, Now(o, w), o.wraps, c.source, floor, 1);
      var (box, reply) := SearchBox(w.box, Now(o, w), o.wraps, c.source, floor);
      var w1 := After(w, box);
      if reply.FoundUid? {
        var u := reply.uid;
        if u in skip {
          TickLoopGrows(o, c, rules, w1, turns - 1, floor, skip, handled);
        } else {
          HandleGrows(o, c, rules, w1, u);
          var floor' := if Next32(u) > floor then Next32(u) else floor;
          var (w2, h) := HandleUid(o, c, rules, w1, u);
          TickLoopGrows(o, c, rules, w2, turns - 1, floor', if h == Unmatched then skip + {u} else skip, handled + [u]);
        }
      }
    }
  }

  lemma {:induction false} ApplyTurnsGrow(o: Oracle, c: Config, rules: seq<Rule>, folder: string, limit: nat,
                                          p: Progress, turns: nat)
    ensures var v := ApplyTurns(o, c, rules, folder, limit, p, turns).p.w;
      Together(p.w, v) && (!SlipInRules(rules) ==> Neither(p.w, v))
    decreases turns
  {
    hide SearchBox, HandleUid, Asked, Slipped, SlipInRules;
    if p.processed >= limit || turns == 0 {
    } else {
      SearchAsks(p.w.box, Now(o, p.w), o.wraps, folder, p.minUid, 1);
      var (box, reply) := SearchBox(p.w.box, Now(o, p.w), o.wraps, folder, p.minUid);
      if reply.FoundUid? {
        HandleGrows(o, c, rules, After(p.w, box), reply.uid);
        ApplyTurnsGrow(o, c, rules, folder, limit, ApplyStep(o, c, rules, folder, p).p, turns - 1);
      }
    }
  }

  // ----- whole runs -----

  function RulesOf(call: Call): seq<Rule> {
    if call.CallPrune? then [] else call.rules
  }

  lemma RunGrows(o: Oracle, c: Config, w: World, call: Call)
    ensures Together(w, Run(o, c, w, call)) && (!SlipInRules(RulesOf(call)) ==> Neither(w, Run(o, c, w, call)))
  {
    hide TickLoop, ApplyTurns, Asked, Slipped, SlipInRules;
    match call
    case CallTick(rules) => TickLoopGrows(o, c, rules, w, c.batchSize, 0, {}, []);
    case CallApply(rules, folder, limit, turns) =>
      ApplyTurnsGrow(o, c, rules, folder, Limit(limit), FromTheStart(w), turns);
    case CallPrune(_) =>
  }

  lemma {:induction false} RunAllGrows(o: Oracle, c: Config, w: World, calls: seq<Call>)
    ensures var v := RunAll(o, c, w, calls);
      Together(w, v) && ((forall call <- calls :: !SlipInRules(RulesOf(call))) ==> Neither(w, v))
    decreases |calls|
  {
    hide Run, Asked, Slipped, SlipInRules, RulesOf;
    if calls == [] {
    } else {
      RunGrows(o, c, w, calls[0]);
      RunAllGrows(o, c, Run(o, c, w, calls[0]), calls[1..]);
      assert calls[0] in calls && forall call <- calls[1..] :: call in calls;
    }
  }

  /** Main result and finding. In every run, whatever fails and whoever else is at work, a server is asked to flag a
      message as deleted exactly when a set_flag was executed whose value is \deleted in any case but the one the
      guard knows; as often as there are such log rows. */
  lemma DeletedIsAskedForIff(o: Oracle, c: Config, w: World, calls: seq<Call>)
    requires w.box.trace == [] && w.log == []
    ensures var v := RunAll(o, c, w, calls);
      && Asked(v.box.trace) == Slipped(v.log)
      && ((exists e <- v.box.trace :: e.op.Store? && Lower(e.op.flag) == "\\deleted")
          <==> exists row <- v.log ::
                 row.kind == "set_flag" && Lower(row.value) == "\\deleted" && row.value != "\\Deleted")
  {
    hide RunAll, Lower;
    assert Asked(w.box.trace) == 0 && Slipped(w.log) == 0;
    RunAllGrows(o, c, w, calls);
    AskedIff(RunAll(o, c, w, calls).box.trace);
    SlippedIff(RunAll(o, c, w, calls).log);
    hide Asked, Slipped;
  }

  /** Rules without such an action never get there. */
  lemma NeverWithoutASlip(o: Oracle, c: Config, w: World, calls: seq<Call>)
    requires w.box.trace == [] && forall call <- calls :: !SlipInRules(RulesOf(call))
    ensures forall e <- RunAll(o, c, w, calls).box.trace :: !(e.op.Store? && Lower(e.op.flag) == "\\deleted")
  {
    hide RunAll, Lower;
    RunAllGrows(o, c, w, calls);
    AskedIff(RunAll(o, c, w, calls).box.trace);
  }

  /** A case in point: "\deleted" passes the guard and reaches the message. */
  lemma LowerCaseIsFlagged(o: Oracle, c: Config, job: Job, e: Exec)
    requires Peaceful(Now(o, e.w)) && Now(o, e.w).ok && Present(e.w.box, e.uid)
    ensures var r := Act(o, c, job, e, Action("set_flag", "\\deleted"));
      var here := Addr(e.w.box.selected.value, e.uid);
      && r.w.box.trace == e.w.box.trace + [Note(e.w.box, Store("\\deleted"), e.uid, Done)]
      && here in r.w.box.mail && FlagOf("\\Deleted") in r.w.box.mail[here].flags
  {
    hide Disturb, IncrementAll, StatKeys, Lower;
    DisturbPeaceful(e.w.box, Now(o, e.w));
    SeenIsNot();
    assert FlagOf("\\deleted") == "\\deleted" by { Plain(); }
  }

  lemma Plain()
    ensures Lower("\\deleted") == "\\deleted"
  {
  }

  // ----- and exactly when a tick may ask -----

  lemma {:induction false} FailingListAsks(o: Oracle, c: Config, job: Job, e: Exec, actions: seq<Action>)
    requires !e.stopped && SlipIn(actions) && FailsFor(o, e.w.clock, StepsAll(c, job, actions))
    ensures Asked(ActAll(o, c, job, e, actions).w.box.trace) > Asked(e.w.box.trace)
    decreases |actions|
  {
    hide Act, Asked, Slipped, Slips, Failing, Steps;
    var r := Act(o, c, job, e, actions[0]);
    ActGrows(o, c, job, e, actions[0]);
    FailingAct(o, c, job, e, actions[0]);
    if Slips(actions[0].kind, actions[0].value) {
      ActAllGrows(o, c, job, r, actions[1..]);
    } else {
      assert actions == [actions[0]] + actions[1..];
      FailingListAsks(o, c, job, r, actions[1..]);
    }
  }

  /** A search and a fetch that succeed, a match, and then failures only. */
  function MatchThenFail(wraps: bool, start: nat, i: nat): (o: Oracle)
    ensures Quiet(o) && o.wraps == wraps
    ensures var f := o.fate(start); f.ok && f.selectOk
    ensures var f := o.fate(start + 1); f.ok && f.peeks == 0 && f.verdict == MatchedRule(i)
    ensures forall k: nat :: k > start + 1 ==> Failing(o.fate(k))
  {
    var f := Fate(true, false, true, true, {}, map[], map[], [], false, true, 0, MatchedRule(i), 0);
    Oracle((k: nat) => if k <= start + 1 then f else f.(ok := false), wraps, (k: nat) => Letter("", ""),
           (k: nat) => "", (k: nat) => "")
  }

  lemma SlipReached(o: Oracle, c: Config, rules: seq<Rule>, w: World, i: nat)
    requires Quiet(o) && Sane(w.box) && Uids(w.box, c.source) != {} && c.batchSize > 0
    requires i < |rules| && SlipIn(rules[i].actions)
    requires var f := o.fate(w.clock); f.ok && f.selectOk
    requires var f := o.fate(w.clock + 1); f.ok && f.peeks == 0 && f.verdict == MatchedRule(i)
    requires forall k: nat :: k > w.clock + 1 ==> Failing(o.fate(k))
    ensures Asked(RunTick(o, c, rules, w).w.box.trace) > Asked(w.box.trace)
  {
    hide SearchBox, HandleUid, Asked, Slipped, SlipIn, Failing, Quiet, Sane;
    var u := FirstFound(o, w, c.source);
    SearchAsks(w.box, Now(o, w), o.wraps, c.source, 0, 1);
    var (box, reply) := SearchBox(w.box, Now(o, w), o.wraps, c.source, 0);
    var w1 := After(w, box);
    SlipHandled(o, c, rules, w1, u, i);
    var (w2, h) := HandleUid(o, c, rules, w1, u);
    var skip := if h == Unmatched then {u} else {};
    assert {} + {u} == {u} && [] + [u] == [u];
    TickLoopGrows(o, c, rules, w2, c.batchSize - 1, Next32(u), skip, [u]);
  }

  lemma SlipHandled(o: Oracle, c: Config, rules: seq<Rule>, w: World, uid: Uid, i: nat)
    requires Quiet(o) && Present(w.box, uid)
    requires i < |rules| && SlipIn(rules[i].actions)
    requires var f := Now(o, w); f.ok && f.peeks == 0 && f.verdict == MatchedRule(i)
    requires forall k: nat :: k > w.clock ==> Failing(o.fate(k))
    ensures Asked(HandleUid(o, c, rules, w, uid).0.box.trace) > Asked(w.box.trace)
  {
    hide Asked, Slipped, SlipIn, Failing, ActAll, Disturb, StoreOne, Lower, StepsAll;
    var f := Now(o, w);
    DisturbPeaceful(w.box, f);
    CommandAsks(w.box, f, uid, "", "");
    var (box, got) := FetchOne(w.box, f, uid);
    var w1 := After(w, box);
    assert Peeks(o, w1, uid, 0) == w1;
    var job := JobFor(o, rules[i], got.value);
    FailingListAsks(o, c, job, Start(w1, uid), rules[i].actions);
    var e := ActAll(o, c, job, Start(w1, uid), rules[i].actions);
    SeenIsNot();
    StoreAsks(e.w.box, Now(o, e.w), uid, "\\Seen");
  }

  /** No run of this tick, with no other client at work, asks for the flag. */
  ghost predicate TickNeverAsks(c: Config, rules: seq<Rule>, w: World, wraps: bool) {
    forall o: Oracle :: Quiet(o) && o.wraps == wraps ==> Asked(RunTick(o, c, rules, w).w.box.trace) == 0
  }

  lemma EmptyTickAsksNothing(o: Oracle, c: Config, rules: seq<Rule>, w: World)
    requires Quiet(o) && (Uids(w.box, c.source) == {} || c.batchSize == 0)
    ensures Asked(RunTick(o, c, rules, w).w.box.trace) == Asked(w.box.trace)
  {
    hide SearchBox, HandleUid, Asked;
    SearchWithin(w.box, Now(o, w), o.wraps, c.source, 0);
    SearchAsks(w.box, Now(o, w), o.wraps, c.source, 0, 1);
    var (box, reply) := SearchBox(w.box, Now(o, w), o.wraps, c.source, 0);
    assert c.batchSize > 0 ==> TickLoop(o, c, rules, w, c.batchSize, 0, {}, []).w.box == box;
  }

  /** Main result. A tick alone with the mailbox is sure never to ask for the flag exactly when no rule has a set_flag
      that slips through, or there is nothing to handle. */
  lemma TickNeverAsksIff(c: Config, rules: seq<Rule>, w: World, wraps: bool)
    requires Sane(w.box) && w.box.trace == []
    ensures TickNeverAsks(c, rules, w, wraps)
       <==> !SlipInRules(rules) || Uids(w.box, c.source) == {} || c.batchSize == 0
  {
    hide RunTick, SlipIn;
    if SlipInRules(rules) && Uids(w.box, c.source) != {} && c.batchSize > 0 {
      var r :| r in rules && SlipIn(r.actions);
      var i :| 0 <= i < |rules| && rules[i] == r;
      var o := MatchThenFail(wraps, w.clock, i);
      SlipReached(o, c, rules, w, i);
    } else {
      forall o: Oracle | Quiet(o) && o.wraps == wraps ensures Asked(RunTick(o, c, rules, w).w.box.trace) == 0 {
        if SlipInRules(rules) {
          EmptyTickAsksNothing(o, c, rules, w);
        } else {
          TickGrows(o, c, rules, w);
        }
      }
    }
  }

  lemma TickGrows(o: Oracle, c: Config, rules: seq<Rule>, w: World)
    ensures !SlipInRules(rules) ==> Asked(RunTick(o, c, rules, w).w.box.trace) == Asked(w.box.trace)
  {
    hide TickLoop, Asked, SlipInRules;
    TickLoopGrows(o, c, rules, w, c.batchSize, 0, {}, []);
  }
}
