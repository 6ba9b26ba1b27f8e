/**
 Whatever fails, whatever other mail clients do and whatever the rules are, the poller never sends a
 command about one message while it is handling another.
*/
module AddressingProofs {
  import opened Imap
  import opened PollerSpec
  import opened RuleTypes
  import opened SessionProofs

  ghost predicate OnJob(e: Exec, id: nat) {
    Focus(e.w.box, e.uid, id)
  }

  lemma MoveAndFollowOnJob(o: Oracle, c: Config, job: Job, e: Exec, a: Action, dest: string, relabel: bool, id: nat)
    requires OnJob(e, id)
    ensures OnJob(MoveAndFollow(o, c, job, e, a, dest, relabel), id)
  {
    hide MoveOne, SelectBox, Disturb, IncrementAll, StatKeys, Focus;
    MoveFocus(e.w.box, Now(o, e.w), e.uid, dest, id);
    var (box, reply) := MoveOne(e.w.box, Now(o, e.w), e.uid, dest);
    if reply.MovedTo? {
      var e2 := LogAction(o, c, job, e.(w := After(e.w, box)), e.uid, a, "success");
      SelectFocus(e2.w.box, Now(o, e2.w), dest, reply.uid, id);
    }
  }

  lemma StoreAndLogOnJob(o: Oracle, c: Config, job: Job, e: Exec, a: Action, flag: string, add: bool, id: nat)
    requires OnJob(e, id)
    requires add ==> flag != "\\Deleted"
    ensures OnJob(StoreAndLog(o, c, job, e, a, flag, add), id)
  {
    StoreFocus(e.w.box, Now(o, e.w), e.uid, id, flag, add);
  }

  lemma DeliverOnJob(o: Oracle, w: World, medium: Medium, to: string, day: nat, uid: Uid, id: nat)
    requires Focus(w.box, uid, id)
    ensures Focus(Deliver(o, w, medium, to, day).0.box, uid, id)
  {
    DisturbFocus(w.box, Now(o, w), uid, id);
  }

  lemma ForwardAndLogOnJob(o: Oracle, c: Config, job: Job, e: Exec, a: Action, id: nat)
    requires OnJob(e, id)
    ensures OnJob(ForwardAndLog(o, c, job, e, a), id)
  {
    RawFocus(e.w.box, Now(o, e.w), e.uid, id);
    var (box, ok) := RawOne(e.w.box, Now(o, e.w), e.uid);
    DeliverOnJob(o, After(e.w, box), Forward, a.value, 0, e.uid, id);
  }

  lemma DeleteAndLogOnJob(o: Oracle, c: Config, job: Job, e: Exec, a: Action, id: nat)
    requires OnJob(e, id)
    ensures OnJob(DeleteAndLog(o, c, job, e, a), id)
  {
    var (w1, trash) := FindTrash(o, e.w);
    assert Focus(w1.box, e.uid, id) by {
      DisturbFocus(e.w.box, Now(o, e.w), e.uid, id);
    }
    if trash.Some? {
      MoveAndFollowOnJob(o, c, job, e.(w := w1), a, trash.value, false, id);
    }
  }

  lemma ReplyAndLogOnJob(o: Oracle, c: Config, job: Job, e: Exec, a: Action, id: nat)
    requires OnJob(e, id)
    ensures OnJob(ReplyAndLog(o, c, job, e, a), id)
  {
    if job.sender != c.account {
      var f := Now(o, e.w);
      DisturbFocus(e.w.box, f, e.uid, id);
      var w1 := After(e.w, Disturb(e.w.box, f));
      DeliverOnJob(o, w1, Reply, job.sender, f.day, e.uid, id);
      var w2 := Deliver(o, w1, Reply, job.sender, f.day).0;
      DisturbFocus(w2.box, Now(o, w2), e.uid, id);
      hide Disturb, IncrementAll, StatKeys;
    }
  }

  lemma ActOnJob(o: Oracle, c: Config, job: Job, e: Exec, a: Action, id: nat)
    requires OnJob(e, id)
    ensures OnJob(Act(o, c, job, e, a), id)
  {
    if a.kind == "move_to_folder" {
      MoveAndFollowOnJob(o, c, job, e, a, a.value, true, id);
    } else if a.kind == "mark_as_read" {
      StoreAndLogOnJob(o, c, job, e, a, "\\Seen", true, id);
    } else if a.kind == "mark_as_unread" {
      StoreAndLogOnJob(o, c, job, e, a, "\\Seen", false, id);
    } else if a.kind == "set_flag" {
      if a.value != "" && a.value != "\\Deleted" {
        StoreAndLogOnJob(o, c, job, e, a, a.value, true, id);
      }
    } else if a.kind == "forward" {
      ForwardAndLogOnJob(o, c, job, e, a, id);
    } else if a.kind == "delete" {
      DeleteAndLogOnJob(o, c, job, e, a, id);
    } else if a.kind == "remove_flag" {
      if NamedFlag(a.value).Some? {
        StoreAndLogOnJob(o, c, job, e, a, NamedFlag(a.value).value, false, id);
      }
    } else if a.kind == "auto_reply" {
      ReplyAndLogOnJob(o, c, job, e, a, id);
    } else if a.kind == "webhook" {
      DeliverOnJob(o, e.w, Webhook, a.value, 0, e.uid, id);
    }
  }

  /** Until a move is known to have succeeded, the UID is the one the list started with. */
  lemma ActKeepsUid(o: Oracle, c: Config, job: Job, e: Exec, a: Action)
    ensures var r := Act(o, c, job, e, a); (e.moved ==> r.moved) && (r.moved || r.uid == e.uid)
  {
    hide MoveOne, SelectBox, StoreOne, RawOne, Disturb, IncrementAll, StatKeys, NamedFlag;
  }

  lemma {:induction false} ActAllOnJob(o: Oracle, c: Config, job: Job, e: Exec, actions: seq<Action>, id: nat)
    requires OnJob(e, id)
    ensures var r := ActAll(o, c, job, e, actions);
      OnJob(r, id) && (e.moved ==> r.moved) && (r.moved || r.uid == e.uid)
    decreases |actions|
  {
    if actions == [] || e.stopped {
    } else {
      ActOnJob(o, c, job, e, actions[0], id);
      ActKeepsUid(o, c, job, e, actions[0]);
      ActAllOnJob(o, c, job, Act(o, c, job, e, actions[0]), actions[1..], id);
    }
  }

  lemma {:induction false} PeeksFocus(o: Oracle, w: World, uid: Uid, n: nat, id: nat)
    requires Focus(w.box, uid, id)
    ensures Focus(Peeks(o, w, uid, n).box, uid, id)
    decreases n
  {
    hide PeekOne, Focus;
    if n == 0 {
    } else {
      PeekFocus(w.box, Now(o, w), uid, id);
      PeeksFocus(o, After(w, PeekOne(w.box, Now(o, w), uid)), uid, n - 1, id);
    }
  }

  lemma ActOnMatchSound(o: Oracle, c: Config, w: World, rule: Rule, uid: Uid, id: nat)
    requires Focus(w.box, uid, id)
    ensures Sound(ActOnMatch(o, c, w, rule, uid, id).box)
  {
    hide ActAll, StoreOne;
    var job := JobFor(o, rule, id);
    var e := ActAll(o, c, job, Start(w, uid), rule.actions);
    ActAllOnJob(o, c, job, Start(w, uid), rule.actions, id);
    if !e.moved {
      StoreFocus(e.w.box, Now(o, e.w), uid, id, "\\Seen", true);
    }
  }

  lemma HandleUidSound(o: Oracle, c: Config, rules: seq<Rule>, w: World, uid: Uid)
    requires Sound(w.box)
    ensures Sound(HandleUid(o, c, rules, w, uid).0.box)
  {
    hide FetchOne, ActOnMatch;
    var f := Now(o, w);
    FetchFocus(w.box, f, uid);
    var (box, got) := FetchOne(w.box, f, uid);
    if got.Some? {
      var w1 := After(w, box);
      PeeksFocus(o, w1, uid, f.peeks, got.value);
      if f.verdict.MatchedRule? && f.verdict.index < |rules| {
        ActOnMatchSound(o, c, Peeks(o, w1, uid, f.peeks), rules[f.verdict.index], uid, got.value);
      }
    }
  }

  lemma {:induction false} TickLoopSound(o: Oracle, c: Config, rules: seq<Rule>, w: World, turns: nat, floor: nat,
                                         skip: set<Uid>, handled: seq<Uid>)
    requires Sound(w.box)
    ensures Sound(TickLoop(o, c, rules, w, turns, floor, skip, handled).w.box)
    decreases turns
  {
    hide HandleUid, SearchBox;
    if turns == 0 {
    } else {
      SearchSound(w.box, Now(o, w), o.wraps, c.source, floor);
      var (box, reply) := SearchBox(w.box, Now(o, w), o.wraps, c.source, floor);
      var w1 := After(w, box);
      if reply.FoundUid? {
        var u := reply.uid;
        if u in skip {
          TickLoopSound(o, c, rules, w1, turns - 1, floor, skip, handled);
        } else {
          HandleUidSound(o, c, rules, w1, u);
          var floor' := if Next32(u) > floor then Next32(u) else floor;
          var (w2, h) := HandleUid(o, c, rules, w1, u);
          TickLoopSound(o, c, rules, w2, turns - 1, floor', if h == Unmatched then skip + {u} else skip, handled + [u]);
        }
      }
    }
  }

  /** One tick, whether or not the server wraps "n:*". */
  lemma TickSound(o: Oracle, c: Config, rules: seq<Rule>, w: World)
    requires Sound(w.box)
    ensures Sound(RunTick(o, c, rules, w).w.box)
  {
    TickLoopSound(o, c, rules, w, c.batchSize, 0, {}, []);
  }

  /** One turn of an apply, whether or not the server wraps "n:*". */
  lemma ApplyStepSound(o: Oracle, c: Config, rules: seq<Rule>, folder: string, p: Progress)
    requires Sound(p.w.box)
    ensures Sound(ApplyStep(o, c, rules, folder, p).p.w.box)
  {
    hide HandleUid, SearchBox;
    SearchSound(p.w.box, Now(o, p.w), o.wraps, folder, p.minUid);
    var (box, reply) := SearchBox(p.w.box, Now(o, p.w), o.wraps, folder, p.minUid);
    if reply.FoundUid? {
      HandleUidSound(o, c, rules, After(p.w, box), reply.uid);
    }
  }

  lemma {:induction false} ApplyTurnsSound(o: Oracle, c: Config, rules: seq<Rule>, folder: string, limit: nat,
                                           p: Progress, turns: nat)
    requires Sound(p.w.box)
    ensures Sound(ApplyTurns(o, c, rules, folder, limit, p, turns).p.w.box)
    decreases turns
  {
    hide ApplyStep;
    if p.processed >= limit || turns == 0 {
    } else {
      ApplyStepSound(o, c, rules, folder, p);
      match ApplyStep(o, c, rules, folder, p)
      case ApplyEnd(_, _) =>
      case ApplyOn(q) =>
        ApplyTurnsSound(o, c, rules, folder, limit, q, turns - 1);
    }
  }

  lemma {:induction false} RunAllSound(o: Oracle, c: Config, w: World, calls: seq<Call>)
    requires Sound(w.box)
    ensures Sound(RunAll(o, c, w, calls).box)
    decreases |calls|
  {
    if calls == [] {
    } else {
      match calls[0] {
        case CallTick(rules) => TickSound(o, c, rules, w);
        case CallApply(rules, folder, limit, turns) =>
          ApplyTurnsSound(o, c, rules, folder, Limit(limit), FromTheStart(w), turns);
        case CallPrune(_) =>
      }
      RunAllSound(o, c, Run(o, c, w, calls[0]), calls[1..]);
    }
  }

  /** Main result. In every run of ticks, applies and prunes from a fresh session, with any failures, any
      missing destination UIDs and any other clients at work, each body, header, raw, move and flag
      command that reaches a mailbox names a UID that was given to the very message fetched last, and none
      stores the flag \Deleted in this spelling (DeletedProofs.dfy has the others). */
  lemma EveryCommandIsAboutTheFetchedMessage(o: Oracle, c: Config, w: World, calls: seq<Call>, i: nat)
    requires Sane(w.box) && w.box.trace == []
    requires i < |RunAll(o, c, w, calls).box.trace|
    ensures var trace := RunAll(o, c, w, calls).box.trace;
      && (trace[i].op.Addressed() && trace[i].at.Some? ==>
            trace[i].target.Some? && trace[i].target == Subject(trace[..i]))
      && trace[i].op != Store("\\Deleted")
  {
    RunAllSound(o, c, w, calls);
    assert AboutSubject(RunAll(o, c, w, calls).box.trace, i);
  }
}
