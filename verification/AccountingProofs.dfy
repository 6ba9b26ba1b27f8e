/** With other clients at work: every message that is there came from somewhere, every one that is gone was expunged
    by one of them. */
module AccountingProofs {
  import opened Imap
  import opened PollerSpec
  import opened RuleTypes
  import opened SessionProofs

  /** Nothing is there but what was there or was delivered, nothing is missing but what was expunged. */
  ghost predicate Accounted(w: World, v: World) {
    && Sane(v.box) && Grew(w.box, v.box)
    && w.box.arrived <= v.box.arrived && w.box.expunged <= v.box.expunged
    && Ids(v.box) <= Ids(w.box) + v.box.arrived
    && Ids(w.box) <= Ids(v.box) + v.box.expunged
  }

  lemma AccountedItself(w: World)
    requires Sane(w.box)
    ensures Accounted(w, w)
  {
  }

  lemma Then(u: World, v: World, w: World)
    requires Accounted(u, v) && Accounted(v, w)
    ensures Accounted(u, w)
  {
    hide Sane, Ids;
  }

  // ----- one interaction -----

  lemma DisturbBrings(s: Server, f: Fate, a: Addr)
    requires a in Disturb(s, f).mail
    ensures (a in f.came && Disturb(s, f).mail[a] == f.came[a]) || (a in s.mail && Disturb(s, f).mail[a] == s.mail[a])
  {
    hide Numbered;
  }

  /** What the others do before a command. */
  lemma DisturbAccounts(o: Oracle, w: World)
    requires Sane(w.box)
    ensures Accounted(w, After(w, Disturb(w.box, Now(o, w))))
  {
    hide Sane, Numbered, Arrivals;
    var f := Now(o, w);
    DisturbKeeps(w.box, f);
    var t := Disturb(w.box, f);
    forall id | id in Ids(t) ensures id in Ids(w.box) + t.arrived {
      var a :| a in t.mail && t.mail[a].id == id;
      if a !in w.box.mail { assert a in Arrivals(w.box.next, t.next, f.came); }
    }
    forall id | id in Ids(w.box) ensures id in Ids(t) + t.expunged {
      var a :| a in w.box.mail && w.box.mail[a].id == id;
      if a !in f.gone { DisturbSpares(w.box, f, a); }
    }
  }

  /** The same messages, in the same places or moved to fresh ones. */
  ghost predicate SameMail(s: Server, t: Server) {
    Sane(t) && Grew(s, t) && Ids(t) == Ids(s) && t.arrived == s.arrived && t.expunged == s.expunged
  }

  lemma AfterCommand(o: Oracle, w: World, t: Server)
    requires Sane(w.box) && SameMail(Disturb(w.box, Now(o, w)), t)
    ensures Accounted(w, After(w, t))
  {
    hide Sane, Disturb, Ids;
    DisturbAccounts(o, w);
  }

  lemma SelectAccounts(o: Oracle, w: World, name: string)
    requires Sane(w.box)
    ensures Accounted(w, After(w, SelectBox(w.box, Now(o, w), name)))
  {
    hide Disturb;
    DisturbKeeps(w.box, Now(o, w));
    AfterCommand(o, w, SelectBox(w.box, Now(o, w), name));
  }

  lemma SearchAccounts(o: Oracle, w: World, folder: string, floor: nat)
    requires Sane(w.box)
    ensures Accounted(w, After(w, SearchBox(w.box, Now(o, w), o.wraps, folder, floor).0))
  {
    hide Disturb, Hit;
    DisturbKeeps(w.box, Now(o, w));
    AfterCommand(o, w, SearchBox(w.box, Now(o, w), o.wraps, folder, floor).0);
  }

  lemma FetchAccounts(o: Oracle, w: World, uid: Uid)
    requires Sane(w.box)
    ensures Accounted(w, After(w, FetchOne(w.box, Now(o, w), uid).0))
    ensures Accounted(w, After(w, PeekOne(w.box, Now(o, w), uid)))
  {
    hide Disturb;
    DisturbKeeps(w.box, Now(o, w));
    AfterCommand(o, w, FetchOne(w.box, Now(o, w), uid).0);
    AfterCommand(o, w, PeekOne(w.box, Now(o, w), uid));
  }

  lemma FlagSame(s: Server, t: Server, uid: Uid, add: set<FlagName>, drop: set<FlagName>)
    requires Sane(s) && Present(s, uid)
    requires t == Flag(s, uid, add, drop).(trace := t.trace)
    ensures SameMail(s, t)
  {
    FlagConserves(s, uid, add, drop);
    assert Ids(t) == Ids(Flag(s, uid, add, drop));
  }

  lemma TraceSame(s: Server, t: Server)
    requires Sane(s) && t == s.(trace := t.trace)
    ensures SameMail(s, t)
  {
  }

  lemma StoreAccounts(o: Oracle, w: World, uid: Uid, flag: string, add: bool)
    requires Sane(w.box)
    ensures Accounted(w, After(w, StoreOne(w.box, Now(o, w), uid, flag, add).0))
  {
    hide Disturb, Flag, Ids;
    var f, t := Now(o, w), StoreOne(w.box, Now(o, w), uid, flag, add).0;
    DisturbKeeps(w.box, f);
    var s := Disturb(w.box, f);
    if Present(s, uid) && (f.ok || f.lost) {
      if add { FlagSame(s, t, uid, {FlagOf(flag)}, {}); } else { FlagSame(s, t, uid, {}, {FlagOf(flag)}); }
    } else {
      TraceSame(s, t);
    }
    AfterCommand(o, w, t);
  }

  lemma RawAccounts(o: Oracle, w: World, uid: Uid)
    requires Sane(w.box)
    ensures Accounted(w, After(w, RawOne(w.box, Now(o, w), uid).0))
  {
    hide Disturb, Flag, Ids;
    var f, t := Now(o, w), RawOne(w.box, Now(o, w), uid).0;
    DisturbKeeps(w.box, f);
    var s := Disturb(w.box, f);
    if Present(s, uid) && (f.ok || f.lost) { FlagSame(s, t, uid, {FlagOf("\\Seen")}, {}); } else { TraceSame(s, t); }
    AfterCommand(o, w, t);
  }

  lemma MoveSame(s: Server, f: Fate, uid: Uid, dest: string)
    requires Sane(s)
    ensures SameMail(s, MoveNow(s, f, uid, dest).0)
  {
    var t := MoveNow(s, f, uid, dest).0;
    if t.mail != s.mail {
      var from, to := Addr(s.selected.value, uid), Addr(dest, s.next[dest]);
      RelocateSane(s, t, from, to, s.mail[from].id);
      RelocateConserves(s, t, from, to);
    }
  }

  lemma MoveAccounts(o: Oracle, w: World, uid: Uid, dest: string)
    requires Sane(w.box)
    ensures Accounted(w, After(w, MoveOne(w.box, Now(o, w), uid, dest).0))
  {
    hide Disturb, MoveNow;
    DisturbKeeps(w.box, Now(o, w));
    MoveSame(Disturb(w.box, Now(o, w)), Now(o, w), uid, dest);
    AfterCommand(o, w, MoveOne(w.box, Now(o, w), uid, dest).0);
  }

  /** The predicate looks at the mailbox only. */
  lemma Alike(u: World, v: World, w: World)
    requires v.box == w.box
    ensures Accounted(u, v) == Accounted(u, w) && Accounted(v, u) == Accounted(w, u)
  {
  }

  // ----- actions -----

  lemma LogAlike(o: Oracle, c: Config, job: Job, e: Exec, uid: Uid, a: Action, status: string)
    ensures var r := LogAction(o, c, job, e, uid, a, status);
      r.w.box == e.w.box && r.uid == e.uid
  {
  }

  lemma LogAccounts(o: Oracle, c: Config, job: Job, e: Exec, uid: Uid, a: Action, status: string, w: World)
    requires Accounted(w, e.w)
    ensures Accounted(w, LogAction(o, c, job, e, uid, a, status).w)
  {
    hide Accounted, LogAction;
    LogAlike(o, c, job, e, uid, a, status);
    Alike(w, e.w, LogAction(o, c, job, e, uid, a, status).w);
  }

  lemma StillSane(w: World, v: World)
    requires Accounted(w, v)
    ensures Sane(v.box)
  {
  }

  lemma MoveAndFollowAccounts(o: Oracle, c: Config, job: Job, e: Exec, a: Action, dest: string, relabel: bool)
    requires Sane(e.w.box)
    ensures Accounted(e.w, MoveAndFollow(o, c, job, e, a, dest, relabel).w)
  {
    hide Accounted, LogAction, MoveOne, SelectBox, Sane;
    MoveAccounts(o, e.w, e.uid, dest);
    var (box, reply) := MoveOne(e.w.box, Now(o, e.w), e.uid, dest);
    var e1 := e.(w := After(e.w, box));
    LogAccounts(o, c, job, e1, e.uid, a, "error", e.w);
    LogAccounts(o, c, job, e1, e.uid, a, "success", e.w);
    if reply.MovedTo? {
      var e2 := LogAction(o, c, job, e1, e.uid, a, "success");
      StillSane(e.w, e2.w);
      SelectAccounts(o, e2.w, dest);
      Then(e.w, e2.w, After(e2.w, SelectBox(e2.w.box, Now(o, e2.w), dest)));
    }
  }

  lemma StoreAndLogAccounts(o: Oracle, c: Config, job: Job, e: Exec, a: Action, flag: string, add: bool)
    requires Sane(e.w.box)
    ensures Accounted(e.w, StoreAndLog(o, c, job, e, a, flag, add).w)
  {
    hide Accounted, LogAction, StoreOne, Sane;
    StoreAccounts(o, e.w, e.uid, flag, add);
    var (box, ok) := StoreOne(e.w.box, Now(o, e.w), e.uid, flag, add);
    LogAccounts(o, c, job, e.(w := After(e.w, box)), e.uid, a, Status(ok), e.w);
  }

  lemma DeliverAccounts(o: Oracle, w: World, medium: Medium, to: string, day: nat)
    requires Sane(w.box)
    ensures Accounted(w, Deliver(o, w, medium, to, day).0)
  {
    hide Accounted, Disturb, Sane;
    DisturbAccounts(o, w);
    Alike(w, After(w, Disturb(w.box, Now(o, w))), Deliver(o, w, medium, to, day).0);
  }

  lemma ForwardAndLogAccounts(o: Oracle, c: Config, job: Job, e: Exec, a: Action)
    requires Sane(e.w.box)
    ensures Accounted(e.w, ForwardAndLog(o, c, job, e, a).w)
  {
    hide Accounted, LogAction, RawOne, Deliver, Sane;
    RawAccounts(o, e.w, e.uid);
    var (box, ok) := RawOne(e.w.box, Now(o, e.w), e.uid);
    var w1 := After(e.w, box);
    if !ok {
      LogAccounts(o, c, job, e.(w := w1), e.uid, a, "error", e.w);
    } else {
      StillSane(e.w, w1);
      DeliverAccounts(o, w1, Forward, a.value, 0);
      var (w2, sent) := Deliver(o, w1, Forward, a.value, 0);
      Then(e.w, w1, w2);
      LogAccounts(o, c, job, e.(w := w2), e.uid, a, Status(sent), e.w);
    }
  }

  lemma WebhookAndLogAccounts(o: Oracle, c: Config, job: Job, e: Exec, a: Action)
    requires Sane(e.w.box)
    ensures Accounted(e.w, WebhookAndLog(o, c, job, e, a).w)
  {
    hide Accounted, LogAction, Deliver, Sane;
    DeliverAccounts(o, e.w, Webhook, a.value, 0);
    var (w1, sent) := Deliver(o, e.w, Webhook, a.value, 0);
    LogAccounts(o, c, job, e.(w := w1), e.uid, a, Status(sent), e.w);
  }

  lemma FindTrashAccounts(o: Oracle, w: World)
    requires Sane(w.box)
    ensures Accounted(w, FindTrash(o, w).0)
  {
    hide Accounted, Disturb, Sane, TrashName;
    AccountedItself(w);
    DisturbAccounts(o, w);
    var w1 := After(w, Disturb(w.box, Now(o, w)));
    if w.trash == "" { Alike(w, w1, FindTrash(o, w).0); }
  }

  lemma DeleteAndLogAccounts(o: Oracle, c: Config, job: Job, e: Exec, a: Action)
    requires Sane(e.w.box)
    ensures Accounted(e.w, DeleteAndLog(o, c, job, e, a).w)
  {
    hide Accounted, LogAction, FindTrash, MoveAndFollow, Sane;
    FindTrashAccounts(o, e.w);
    var (w1, trash) := FindTrash(o, e.w);
    var e1 := e.(w := w1);
    if trash.None? {
      LogAccounts(o, c, job, e1, e.uid, a, "error", e.w);
    } else {
      StillSane(e.w, w1);
      MoveAndFollowAccounts(o, c, job, e1, a, trash.value, false);
      Then(e.w, w1, MoveAndFollow(o, c, job, e1, a, trash.value, false).w);
    }
  }

  lemma RecordAccounts(o: Oracle, w: World, recipient: string)
    requires Sane(w.box)
    ensures Accounted(w, Record(o, w, recipient))
  {
    hide Accounted, Disturb, Sane;
    DisturbAccounts(o, w);
    Alike(w, After(w, Disturb(w.box, Now(o, w))), Record(o, w, recipient));
  }

  lemma ReplyAndLogAccounts(o: Oracle, c: Config, job: Job, e: Exec, a: Action)
    requires Sane(e.w.box)
    ensures Accounted(e.w, ReplyAndLog(o, c, job, e, a).w)
  {
    hide Accounted, LogAction, Deliver, Record, Disturb, Sane;
    AccountedItself(e.w);
    if job.sender != c.account {
      var f := Now(o, e.w);
      DisturbAccounts(o, e.w);
      var w1 := After(e.w, Disturb(e.w.box, f));
      StillSane(e.w, w1);
      DeliverAccounts(o, w1, Reply, job.sender, f.day);
      var w2 := Deliver(o, w1, Reply, job.sender, f.day).0;
      Then(e.w, w1, w2);
      StillSane(w1, w2);
      RecordAccounts(o, w2, job.sender);
      Then(e.w, w2, Record(o, w2, job.sender));
    }
    var (w, status) := TryReply(o, c, job, e.w);
    LogAccounts(o, c, job, e.(w := w), e.uid, a, status, e.w);
  }

  lemma ActAccounts(o: Oracle, c: Config, job: Job, e: Exec, a: Action)
    requires Sane(e.w.box)
    ensures Accounted(e.w, Act(o, c, job, e, a).w)
  {
    hide Accounted, LogAction, MoveAndFollow, StoreAndLog, ForwardAndLog, WebhookAndLog, DeleteAndLog, ReplyAndLog,
         Sane, NamedFlag;
    AccountedItself(e.w);
    MoveAndFollowAccounts(o, c, job, e, a, a.value, true);
    StoreAndLogAccounts(o, c, job, e, a, "\\Seen", true);
    StoreAndLogAccounts(o, c, job, e, a, "\\Seen", false);
    StoreAndLogAccounts(o, c, job, e, a, a.value, true);
    if NamedFlag(a.value).Some? { StoreAndLogAccounts(o, c, job, e, a, NamedFlag(a.value).value, false); }
    LogAccounts(o, c, job, e, e.uid, a, "error", e.w);
    ForwardAndLogAccounts(o, c, job, e, a);
    WebhookAndLogAccounts(o, c, job, e, a);
    DeleteAndLogAccounts(o, c, job, e, a);
    ReplyAndLogAccounts(o, c, job, e, a);
  }

  lemma {:induction false} ActAllAccounts(o: Oracle, c: Config, job: Job, e: Exec, actions: seq<Action>)
    requires Sane(e.w.box)
    ensures Accounted(e.w, ActAll(o, c, job, e, actions).w)
    decreases |actions|
  {
    hide Accounted, Act, Sane;
    if actions == [] || e.stopped {
      AccountedItself(e.w);
    } else {
      var r := Act(o, c, job, e, actions[0]);
      ActAccounts(o, c, job, e, actions[0]);
      StillSane(e.w, r.w);
      ActAllAccounts(o, c, job, r, actions[1..]);
      Then(e.w, r.w, ActAll(o, c, job, r, actions[1..]).w);
    }
  }

  // ----- ticks, applies, runs -----

  lemma {:induction false} PeeksAccount(o: Oracle, w: World, uid: Uid, n: nat)
    requires Sane(w.box)
    ensures Accounted(w, Peeks(o, w, uid, n))
    decreases n
  {
    hide Accounted, PeekOne, Sane;
    if n == 0 {
      AccountedItself(w);
    } else {
      var v := After(w, PeekOne(w.box, Now(o, w), uid));
      FetchAccounts(o, w, uid);
      StillSane(w, v);
      PeeksAccount(o, v, uid, n - 1);
      Then(w, v, Peeks(o, v, uid, n - 1));
    }
  }

  lemma ActOnMatchAccounts(o: Oracle, c: Config, w: World, rule: Rule, uid: Uid, id: nat)
    requires Sane(w.box)
    ensures Accounted(w, ActOnMatch(o, c, w, rule, uid, id))
  {
    hide Accounted, ActAll, StoreOne, Sane;
    var e := ActAll(o, c, JobFor(o, rule, id), Start(w, uid), rule.actions);
    ActAllAccounts(o, c, JobFor(o, rule, id), Start(w, uid), rule.actions);
    var v := ExecuteActions(o, c, w, rule, uid, id).0;
    Alike(w, e.w, v);
    if !e.moved {
      StillSane(w, v);
      StoreAccounts(o, v, uid, "\\Seen", true);
      Then(w, v, After(v, StoreOne(v.box, Now(o, v), uid, "\\Seen", true).0));
    }
  }

  lemma HandleUidAccounts(o: Oracle, c: Config, rules: seq<Rule>, w: World, uid: Uid)
    requires Sane(w.box)
    ensures Accounted(w, HandleUid(o, c, rules, w, uid).0)
  {
    hide Accounted, FetchOne, Peeks, ActOnMatch, Sane;
    var f := Now(o, w);
    FetchAccounts(o, w, uid);
    var (box, got) := FetchOne(w.box, f, uid);
    if got.Some? {
      var w1 := After(w, box);
      StillSane(w, w1);
      PeeksAccount(o, w1, uid, f.peeks);
      var w2 := Peeks(o, w1, uid, f.peeks);
      Then(w, w1, w2);
      if f.verdict.MatchedRule? && f.verdict.index < |rules| {
        StillSane(w, w2);
        ActOnMatchAccounts(o, c, w2, rules[f.verdict.index], uid, got.value);
        Then(w, w2, ActOnMatch(o, c, w2, rules[f.verdict.index], uid, got.value));
      }
    }
  }

  lemma {:induction false} TickLoopAccounts(o: Oracle, c: Config, rules: seq<Rule>, w: World, turns: nat, floor: nat,
                                            skip: set<Uid>, handled: seq<Uid>)
    requires Sane(w.box)
    ensures Accounted(w, TickLoop(o, c, rules, w, turns, floor, skip, handled).w)
    decreases turns
  {
    hide Accounted, SearchBox, HandleUid, Sane;
    if turns == 0 {
      AccountedItself(w);
    } else {
      SearchAccounts(o, w, c.source, floor);
      var (box, reply) := SearchBox(w.box, Now(o, w), o.wraps, c.source, floor);
      var w1 := After(w, box);
      StillSane(w, w1);
      if reply.FoundUid? {
        var u := reply.uid;
        if u in skip {
          TickLoopAccounts(o, c, rules, w1, turns - 1, floor, skip, handled);
          Then(w, w1, TickLoop(o, c, rules, w1, turns - 1, floor, skip, handled).w);
        } else {
          HandleUidAccounts(o, c, rules, w1, u);
          var floor' := if Next32(u) > floor then Next32(u) else floor;
          var (w2, h) := HandleUid(o, c, rules, w1, u);
          var skip' := if h == Unmatched then skip + {u} else skip;
          Then(w, w1, w2);
          StillSane(w, w2);
          TickLoopAccounts(o, c, rules, w2, turns - 1, floor', skip', handled + [u]);
          Then(w, w2, TickLoop(o, c, rules, w2, turns - 1, floor', skip', handled + [u]).w);
        }
      }
    }
  }

  lemma ApplyStepAccounts(o: Oracle, c: Config, rules: seq<Rule>, folder: string, p: Progress)
    requires Sane(p.w.box)
    ensures Accounted(p.w, ApplyStep(o, c, rules, folder, p).p.w)
  {
    hide Accounted, SearchBox, HandleUid, Sane;
    SearchAccounts(o, p.w, folder, p.minUid);
    var (box, reply) := SearchBox(p.w.box, Now(o, p.w), o.wraps, folder, p.minUid);
    var w1 := After(p.w, box);
    if reply.FoundUid? {
      StillSane(p.w, w1);
      HandleUidAccounts(o, c, rules, w1, reply.uid);
      Then(p.w, w1, HandleUid(o, c, rules, w1, reply.uid).0);
    }
  }

  lemma {:induction false} ApplyTurnsAccount(o: Oracle, c: Config, rules: seq<Rule>, folder: string, limit: nat,
                                             p: Progress, turns: nat)
    requires Sane(p.w.box)
    ensures Accounted(p.w, ApplyTurns(o, c, rules, folder, limit, p, turns).p.w)
    decreases turns
  {
    hide Accounted, ApplyStep, Sane;
    if p.processed >= limit || turns == 0 {
      AccountedItself(p.w);
    } else {
      ApplyStepAccounts(o, c, rules, folder, p);
      var t := ApplyStep(o, c, rules, folder, p);
      if t.ApplyOn? {
        StillSane(p.w, t.p.w);
        ApplyTurnsAccount(o, c, rules, folder, limit, t.p, turns - 1);
        Then(p.w, t.p.w, ApplyTurns(o, c, rules, folder, limit, t.p, turns - 1).p.w);
      }
    }
  }

  lemma PruneAccounts(o: Oracle, c: Config, w: World, age: nat)
    requires Sane(w.box)
    ensures Accounted(w, Run(o, c, w, CallPrune(age)))
  {
  }

  lemma RunAccounts(o: Oracle, c: Config, w: World, call: Call)
    requires Sane(w.box)
    ensures Accounted(w, Run(o, c, w, call))
  {
    hide Accounted, TickLoop, ApplyTurns, Sane;
    match call
    case CallTick(rules) => TickLoopAccounts(o, c, rules, w, c.batchSize, 0, {}, []);
    case CallApply(rules, folder, limit, turns) =>
      ApplyTurnsAccount(o, c, rules, folder, Limit(limit), FromTheStart(w), turns);
    case CallPrune(age) => PruneAccounts(o, c, w, age);
  }

  lemma {:induction false} RunAllAccounts(o: Oracle, c: Config, w: World, calls: seq<Call>)
    requires Sane(w.box)
    ensures Accounted(w, RunAll(o, c, w, calls))
    decreases |calls|
  {
    hide Accounted, Run, Sane;
    if calls == [] {
      AccountedItself(w);
    } else {
      var v := Run(o, c, w, calls[0]);
      RunAccounts(o, c, w, calls[0]);
      StillSane(w, v);
      RunAllAccounts(o, c, v, calls[1..]);
      Then(w, v, RunAll(o, c, v, calls[1..]));
    }
  }

  /** Main result. Whatever the other clients do, whatever fails and whichever replies are lost: a message that is
      in the mailbox after a run was there before it or was delivered during it, and one that is missing was
      expunged during it by another client from where it was. The poller itself adds and removes none. */
  lemma EveryMessageIsAccountedFor(o: Oracle, c: Config, w: World, calls: seq<Call>, id: nat)
    requires Sane(w.box) && w.box.arrived == {} && w.box.expunged == {}
    ensures var v := RunAll(o, c, w, calls);
      && (id in Ids(v.box) ==> id in Ids(w.box) || id in v.box.arrived)
      && (id in Ids(w.box) && id !in Ids(v.box) ==> id in v.box.expunged)
  {
    hide RunAll, Sane, Ids;
    RunAllAccounts(o, c, w, calls);
  }
}
