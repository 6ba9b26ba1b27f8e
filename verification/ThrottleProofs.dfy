/** Automatic replies: at most one a day to a sender, none to the account itself. */
module ThrottleProofs {
  import opened Imap
  import opened PollerSpec
  import opened RuleTypes

  /** Time never runs backwards between two interactions. */
  ghost predicate ClockRuns(o: Oracle) {
    forall k: nat, l: nat :: k <= l ==> o.fate(k).day <= o.fate(l).day
  }

  /** Reads and writes of the throttle table succeed. */
  ghost predicate TableWorks(o: Oracle) {
    forall k: nat :: o.fate(k).readOk && o.fate(k).writeOk
  }

  predicate Replied(s: Sent) {
    s.medium == Reply && s.ok
  }

  ghost predicate OncePerDay(outbox: seq<Sent>) {
    forall i, j :: 0 <= i < j < |outbox| && Replied(outbox[i]) && Replied(outbox[j]) && outbox[i].to == outbox[j].to
                   ==> outbox[i].checkDay != outbox[j].checkDay
  }

  /** Nobody was answered twice on a day, the account never, and today's answers hold a throttle slot. */
  ghost predicate Fair(o: Oracle, c: Config, w: World) {
    && OncePerDay(w.outbox)
    && (forall s <- w.outbox :: s.medium == Reply ==> s.to != c.account)
    && (forall s <- w.outbox :: Replied(s) ==>
          s.checkDay < Now(o, w).day
          || (s.checkDay == Now(o, w).day && ThrottleRow(s.to, s.checkDay) in w.throttle))
  }

  /** Time passes, slots of today stay, and at most something that is no reply is sent. */
  ghost predicate Elapses(o: Oracle, w: World, v: World) {
    && w.clock <= v.clock
    && (forall r <- w.throttle :: Now(o, v).day <= r.date ==> r in v.throttle)
    && (v.outbox == w.outbox || exists s: Sent :: s.medium != Reply && v.outbox == w.outbox + [s])
  }

  lemma ElapsesFair(o: Oracle, c: Config, w: World, v: World)
    requires ClockRuns(o) && Fair(o, c, w) && Elapses(o, w, v)
    ensures Fair(o, c, v)
  {
    assert Now(o, w).day <= Now(o, v).day;
    forall s | s in v.outbox && s.medium == Reply ensures s in w.outbox {
    }
  }

  lemma MovePasses(o: Oracle, c: Config, job: Job, e: Exec, a: Action, dest: string, relabel: bool)
    ensures var v := MoveAndFollow(o, c, job, e, a, dest, relabel).w;
      e.w.clock <= v.clock && v.throttle == e.w.throttle && v.outbox == e.w.outbox
  {
    hide MoveOne, SelectBox, IncrementAll, StatKeys;
  }

  lemma StorePasses(o: Oracle, c: Config, job: Job, e: Exec, a: Action, flag: string, add: bool)
    ensures Elapses(o, e.w, StoreAndLog(o, c, job, e, a, flag, add).w)
  {
    hide StoreOne, IncrementAll, StatKeys;
  }

  lemma DeletePasses(o: Oracle, c: Config, job: Job, e: Exec, a: Action)
    ensures Elapses(o, e.w, DeleteAndLog(o, c, job, e, a).w)
  {
    hide MoveAndFollow, Disturb, IncrementAll, StatKeys;
    var (w1, trash) := FindTrash(o, e.w);
    if trash.Some? { MovePasses(o, c, job, e.(w := w1), a, trash.value, false); }
  }

  lemma ForwardPasses(o: Oracle, c: Config, job: Job, e: Exec, a: Action)
    ensures Elapses(o, e.w, ForwardAndLog(o, c, job, e, a).w)
  {
    hide RawOne, Disturb, IncrementAll, StatKeys;
    var v := ForwardAndLog(o, c, job, e, a).w;
    if v.outbox != e.w.outbox { assert v.outbox == e.w.outbox + [v.outbox[|e.w.outbox|]]; }
  }

  lemma WebhookPasses(o: Oracle, c: Config, job: Job, e: Exec, a: Action)
    ensures Elapses(o, e.w, WebhookAndLog(o, c, job, e, a).w)
  {
    hide Disturb, IncrementAll, StatKeys;
    var v := WebhookAndLog(o, c, job, e, a).w;
    assert v.outbox == e.w.outbox + [v.outbox[|e.w.outbox|]];
  }

  /** Steps of an action list that send no reply. */
  lemma OtherActionsPass(o: Oracle, c: Config, job: Job, e: Exec, a: Action)
    requires a.kind != "auto_reply"
    ensures Elapses(o, e.w, Act(o, c, job, e, a).w)
  {
    hide MoveAndFollow, ForwardAndLog, WebhookAndLog, DeleteAndLog, StoreAndLog, IncrementAll, StatKeys, NamedFlag;
    if a.kind == "move_to_folder" {
      MovePasses(o, c, job, e, a, a.value, true);
    } else if a.kind == "delete" {
      DeletePasses(o, c, job, e, a);
    } else if a.kind == "forward" {
      ForwardPasses(o, c, job, e, a);
    } else if a.kind == "webhook" {
      WebhookPasses(o, c, job, e, a);
    } else if a.kind == "mark_as_read" || a.kind == "mark_as_unread" {
      StorePasses(o, c, job, e, a, "\\Seen", a.kind == "mark_as_read");
    } else if a.kind == "set_flag" {
      StorePasses(o, c, job, e, a, a.value, true);
    } else if a.kind == "remove_flag" && NamedFlag(a.value).Some? {
      StorePasses(o, c, job, e, a, NamedFlag(a.value).value, false);
    }
  }

  lemma TableWorksAt(o: Oracle, k: nat)
    requires TableWorks(o)
    ensures o.fate(k).readOk && o.fate(k).writeOk
  {
  }

  /** An auto_reply action sends nothing, or sends once to a sender without a slot today and, if that
      succeeds, takes a slot on the day it is written. */
  lemma ReplyShape(o: Oracle, c: Config, job: Job, w: World)
    requires TableWorks(o)
    ensures var v := TryReply(o, c, job, w).0; var day := Now(o, w).day;
      || (v.outbox == w.outbox && v.throttle == w.throttle && w.clock <= v.clock)
      || (&& job.sender != c.account
          && ThrottleRow(job.sender, day) !in w.throttle
          && ((&& v.outbox == w.outbox + [Sent(Reply, job.sender, day, false, w.clock + 1)]
               && v.throttle == w.throttle && w.clock <= v.clock)
              || (&& v.outbox == w.outbox + [Sent(Reply, job.sender, day, true, w.clock + 1)]
                  && v.clock == w.clock + 3
                  && v.throttle == w.throttle + {ThrottleRow(job.sender, o.fate(w.clock + 2).day)})))
  {
    hide Disturb, TableWorks;
    TableWorksAt(o, w.clock);
    TableWorksAt(o, w.clock + 2);
  }

  lemma DayOrder(o: Oracle, k: nat, l: nat)
    requires ClockRuns(o) && k <= l
    ensures o.fate(k).day <= o.fate(l).day
  {
  }

  lemma FailedReplyFair(o: Oracle, c: Config, w: World, v: World, to: string)
    requires ClockRuns(o) && Fair(o, c, w) && to != c.account && w.clock <= v.clock && v.throttle == w.throttle
    requires v.outbox == w.outbox + [Sent(Reply, to, Now(o, w).day, false, w.clock + 1)]
    ensures Fair(o, c, v)
  {
    DayOrder(o, w.clock, v.clock);
    hide ClockRuns;
  }

  lemma RepliedFair(o: Oracle, c: Config, w: World, v: World, to: string)
    requires ClockRuns(o) && Fair(o, c, w) && to != c.account && v.clock == w.clock + 3
    requires ThrottleRow(to, Now(o, w).day) !in w.throttle
    requires v.outbox == w.outbox + [Sent(Reply, to, Now(o, w).day, true, w.clock + 1)]
    requires v.throttle == w.throttle + {ThrottleRow(to, o.fate(w.clock + 2).day)}
    ensures Fair(o, c, v)
  {
    DayOrder(o, w.clock, w.clock + 2);
    DayOrder(o, w.clock + 2, v.clock);
    hide ClockRuns;
  }

  lemma TryReplyFair(o: Oracle, c: Config, job: Job, w: World)
    requires ClockRuns(o) && TableWorks(o) && Fair(o, c, w)
    ensures Fair(o, c, TryReply(o, c, job, w).0)
  {
    hide TryReply, ClockRuns, TableWorks, Fair;
    ReplyShape(o, c, job, w);
    var v := TryReply(o, c, job, w).0;
    if v.outbox == w.outbox {
      assert Elapses(o, w, v);
      ElapsesFair(o, c, w, v);
    } else if v.clock == w.clock + 3 && v.outbox[|w.outbox|].ok {
      RepliedFair(o, c, w, v, job.sender);
    } else {
      FailedReplyFair(o, c, w, v, job.sender);
    }
  }

  lemma ReplyFair(o: Oracle, c: Config, job: Job, e: Exec, a: Action)
    requires ClockRuns(o) && TableWorks(o) && Fair(o, c, e.w)
    ensures Fair(o, c, ReplyAndLog(o, c, job, e, a).w)
  {
    TryReplyFair(o, c, job, e.w);
    hide TryReply, OncePerDay, IncrementAll, StatKeys, ClockRuns, TableWorks;
  }

  /** A send that fails leaves the throttle table as it was. */
  lemma FailedSendKeepsTheSlot(o: Oracle, c: Config, job: Job, w: World)
    ensures var v := TryReply(o, c, job, w).0;
      (forall i :: |w.outbox| <= i < |v.outbox| ==> !v.outbox[i].ok) ==> v.throttle == w.throttle
  {
    hide Disturb;
    var v := TryReply(o, c, job, w).0;
    if v.throttle != w.throttle {
      assert v.outbox[|w.outbox|].ok;
    }
  }

  lemma ActFair(o: Oracle, c: Config, job: Job, e: Exec, a: Action)
    requires ClockRuns(o) && TableWorks(o) && Fair(o, c, e.w)
    ensures Fair(o, c, Act(o, c, job, e, a).w)
  {
    hide MoveAndFollow, StoreAndLog, ForwardAndLog, WebhookAndLog, DeleteAndLog, ReplyAndLog, IncrementAll, StatKeys,
         NamedFlag, Fair, Elapses;
    if a.kind == "auto_reply" {
      if a.value != "" && job.sender != "" { ReplyFair(o, c, job, e, a); }
    } else {
      OtherActionsPass(o, c, job, e, a);
      ElapsesFair(o, c, e.w, Act(o, c, job, e, a).w);
    }
  }

  lemma {:induction false} ActAllFair(o: Oracle, c: Config, job: Job, e: Exec, actions: seq<Action>)
    requires ClockRuns(o) && TableWorks(o) && Fair(o, c, e.w)
    ensures Fair(o, c, ActAll(o, c, job, e, actions).w)
    decreases |actions|
  {
    hide Act, Fair, ClockRuns, TableWorks;
    if actions == [] || e.stopped {
    } else {
      ActFair(o, c, job, e, actions[0]);
      ActAllFair(o, c, job, Act(o, c, job, e, actions[0]), actions[1..]);
    }
  }

  lemma {:induction false} PeeksPass(o: Oracle, w: World, uid: Uid, n: nat)
    ensures var v := Peeks(o, w, uid, n);
      w.clock <= v.clock && v.throttle == w.throttle && v.outbox == w.outbox
    decreases n
  {
    hide PeekOne;
    if n == 0 {
    } else {
      PeeksPass(o, After(w, PeekOne(w.box, Now(o, w), uid)), uid, n - 1);
    }
  }

  lemma ActOnMatchFair(o: Oracle, c: Config, w: World, rule: Rule, uid: Uid, id: nat)
    requires ClockRuns(o) && TableWorks(o) && Fair(o, c, w)
    ensures Fair(o, c, ActOnMatch(o, c, w, rule, uid, id))
  {
    hide ActAll, StoreOne, OncePerDay;
    var job := JobFor(o, rule, id);
    ActAllFair(o, c, job, Start(w, uid), rule.actions);
    var v := ExecuteActions(o, c, w, rule, uid, id).0;
    assert Fair(o, c, v);
    ElapsesFair(o, c, v, After(v, StoreOne(v.box, Now(o, v), uid, "\\Seen", true).0));
  }

  lemma HandleUidFair(o: Oracle, c: Config, rules: seq<Rule>, w: World, uid: Uid)
    requires ClockRuns(o) && TableWorks(o) && Fair(o, c, w)
    ensures Fair(o, c, HandleUid(o, c, rules, w, uid).0)
  {
    hide FetchOne, Peeks, ActOnMatch, Fair;
    var f := Now(o, w);
    var (box, got) := FetchOne(w.box, f, uid);
    var w1 := After(w, box);
    ElapsesFair(o, c, w, w1);
    if got.Some? {
      PeeksPass(o, w1, uid, f.peeks);
      var w2 := Peeks(o, w1, uid, f.peeks);
      ElapsesFair(o, c, w1, w2);
      if f.verdict.MatchedRule? && f.verdict.index < |rules| {
        ActOnMatchFair(o, c, w2, rules[f.verdict.index], uid, got.value);
      }
    }
  }

  lemma {:induction false} TickLoopFair(o: Oracle, c: Config, rules: seq<Rule>, w: World, turns: nat, floor: nat,
                                        skip: set<Uid>, handled: seq<Uid>)
    requires ClockRuns(o) && TableWorks(o) && Fair(o, c, w)
    ensures Fair(o, c, TickLoop(o, c, rules, w, turns, floor, skip, handled).w)
    decreases turns
  {
    hide HandleUid, SearchBox, Fair;
    if turns == 0 {
    } else {
      var (box, reply) := SearchBox(w.box, Now(o, w), o.wraps, c.source, floor);
      var w1 := After(w, box);
      ElapsesFair(o, c, w, w1);
      if reply.FoundUid? {
        var u := reply.uid;
        if u in skip {
          TickLoopFair(o, c, rules, w1, turns - 1, floor, skip, handled);
        } else {
          HandleUidFair(o, c, rules, w1, u);
          var floor' := if Next32(u) > floor then Next32(u) else floor;
          var (w2, h) := HandleUid(o, c, rules, w1, u);
          TickLoopFair(o, c, rules, w2, turns - 1, floor', if h == Unmatched then skip + {u} else skip, handled + [u]);
        }
      }
    }
  }

  lemma ApplyStepFair(o: Oracle, c: Config, rules: seq<Rule>, folder: string, p: Progress)
    requires ClockRuns(o) && TableWorks(o) && Fair(o, c, p.w)
    ensures Fair(o, c, ApplyStep(o, c, rules, folder, p).p.w)
  {
    hide HandleUid, SearchBox, Fair;
    var (box, reply) := SearchBox(p.w.box, Now(o, p.w), o.wraps, folder, p.minUid);
    var w1 := After(p.w, box);
    ElapsesFair(o, c, p.w, w1);
    if reply.FoundUid? { HandleUidFair(o, c, rules, w1, reply.uid); }
  }

  lemma {:induction false} ApplyTurnsFair(o: Oracle, c: Config, rules: seq<Rule>, folder: string, limit: nat,
                                          p: Progress, turns: nat)
    requires ClockRuns(o) && TableWorks(o) && Fair(o, c, p.w)
    ensures Fair(o, c, ApplyTurns(o, c, rules, folder, limit, p, turns).p.w)
    decreases turns
  {
    hide ApplyStep, Fair, ClockRuns, TableWorks;
    if p.processed >= limit || turns == 0 {
    } else {
      ApplyStepFair(o, c, rules, folder, p);
      match ApplyStep(o, c, rules, folder, p)
      case ApplyEnd(_, _) =>
      case ApplyOn(q) =>
        ApplyTurnsFair(o, c, rules, folder, limit, q, turns - 1);
    }
  }

  lemma PruneFair(o: Oracle, c: Config, w: World, age: nat)
    requires ClockRuns(o) && Fair(o, c, w)
    ensures Fair(o, c, Run(o, c, w, CallPrune(age)))
  {
    var v := Run(o, c, w, CallPrune(age));
    assert Now(o, w).day <= Now(o, v).day;
    assert Elapses(o, w, v);
    ElapsesFair(o, c, w, v);
  }

  lemma {:induction false} RunAllFair(o: Oracle, c: Config, w: World, calls: seq<Call>)
    requires ClockRuns(o) && TableWorks(o) && Fair(o, c, w)
    ensures Fair(o, c, RunAll(o, c, w, calls))
    decreases |calls|
  {
    hide TickLoop, ApplyTurns, Fair, ClockRuns, TableWorks;
    if calls == [] {
    } else {
      match calls[0] {
        case CallTick(rules) => TickLoopFair(o, c, rules, w, c.batchSize, 0, {}, []);
        case CallApply(rules, folder, limit, turns) =>
          ApplyTurnsFair(o, c, rules, folder, Limit(limit), FromTheStart(w), turns);
        case CallPrune(age) => PruneFair(o, c, w, age);
      }
      RunAllFair(o, c, Run(o, c, w, calls[0]), calls[1..]);
    }
  }

  /** Main result. While the throttle table works and time runs forward, no run of ticks, applies and prunes
      sends one address two successful automatic replies whose checks fell on the same UTC day, and none
      goes to the account's own address. */
  lemma OneReplyADay(o: Oracle, c: Config, w: World, calls: seq<Call>)
    requires ClockRuns(o) && TableWorks(o)
    requires w.outbox == []
    ensures var outbox := RunAll(o, c, w, calls).outbox;
      && (forall i, j ::
            0 <= i < j < |outbox| && Replied(outbox[i]) && Replied(outbox[j]) && outbox[i].to == outbox[j].to
            ==> outbox[i].checkDay != outbox[j].checkDay)
      && (forall s <- outbox :: s.medium == Reply ==> s.to != c.account)
  {
    hide RunAll;
    RunAllFair(o, c, w, calls);
  }
}
