/** What a list of actions does while every command and every send fails: nothing, but it goes on. */
module FailureProofs {
  import opened Imap
  import opened PollerSpec
  import opened RuleTypes
  import opened SessionProofs

  predicate Failing(f: Fate) {
    Peaceful(f) && !f.ok && !f.readOk
  }

  ghost predicate FailsFor(o: Oracle, from: nat, n: nat) {
    forall k: nat :: from <= k < from + n ==> Failing(o.fate(k))
  }

  /** The interactions of one action that fails. */
  function Steps(c: Config, job: Job, a: Action): nat {
    match a.kind
    case "move_to_folder" => if a.value == "" then 0 else 1
    case "mark_as_read" => 1
    case "mark_as_unread" => 1
    case "set_flag" => if a.value == "" || a.value == "\\Deleted" then 0 else 1
    case "forward" => if a.value == "" then 0 else 1
    case "delete" => 1
    case "remove_flag" => if NamedFlag(a.value).None? then 0 else 1
    case "auto_reply" => if a.value == "" || job.sender == "" || job.sender == c.account then 0 else 2
    case "webhook" => if a.value == "" then 0 else 1
    case _ => 0
  }

  function StepsAll(c: Config, job: Job, actions: seq<Action>): nat {
    if actions == [] then 0 else Steps(c, job, actions[0]) + StepsAll(c, job, actions[1..])
  }

  /** The list is where it was, n interactions later. */
  ghost predicate Idle(e: Exec, r: Exec, n: nat) {
    && r.w.clock == e.w.clock + n
    && r.w.box.mail == e.w.box.mail && r.w.box.owner == e.w.box.owner && r.w.box.next == e.w.box.next
    && r.w.box.selected == e.w.box.selected
    && r.w.trash == e.w.trash && r.uid == e.uid && r.moved == e.moved && r.stopped == e.stopped
  }

  lemma LogIdle(o: Oracle, c: Config, job: Job, e: Exec, a: Action, status: string)
    ensures Idle(e, LogAction(o, c, job, e, e.uid, a, status), 0)
  {
  }

  lemma FailingMove(o: Oracle, c: Config, job: Job, e: Exec, a: Action, dest: string, relabel: bool)
    requires Failing(Now(o, e.w))
    ensures Idle(e, MoveAndFollow(o, c, job, e, a, dest, relabel), 1)
  {
    hide IncrementAll, StatKeys, Disturb;
    DisturbPeaceful(e.w.box, Now(o, e.w));
  }

  lemma FailingStore(o: Oracle, c: Config, job: Job, e: Exec, a: Action, flag: string, add: bool)
    requires Failing(Now(o, e.w))
    ensures Idle(e, StoreAndLog(o, c, job, e, a, flag, add), 1)
  {
    hide IncrementAll, StatKeys, Disturb;
    DisturbPeaceful(e.w.box, Now(o, e.w));
  }

  lemma FailingSend(o: Oracle, c: Config, job: Job, e: Exec, a: Action)
    requires Failing(Now(o, e.w))
    ensures Idle(e, ForwardAndLog(o, c, job, e, a), 1)
    ensures Idle(e, WebhookAndLog(o, c, job, e, a), 1)
  {
    hide IncrementAll, StatKeys, Disturb;
    DisturbPeaceful(e.w.box, Now(o, e.w));
  }

  lemma FailingDelete(o: Oracle, c: Config, job: Job, e: Exec, a: Action)
    requires Failing(Now(o, e.w))
    ensures Idle(e, DeleteAndLog(o, c, job, e, a), 1)
  {
    hide MoveAndFollow, IncrementAll, StatKeys, Disturb;
    DisturbPeaceful(e.w.box, Now(o, e.w));
    if e.w.trash != "" { FailingMove(o, c, job, e, a, e.w.trash, false); }
  }

  lemma FailingReply(o: Oracle, c: Config, job: Job, e: Exec, a: Action)
    requires job.sender != c.account && Failing(Now(o, e.w)) && Failing(o.fate(e.w.clock + 1))
    ensures Idle(e, ReplyAndLog(o, c, job, e, a), 2)
  {
    hide IncrementAll, StatKeys, Disturb;
    DisturbPeaceful(e.w.box, Now(o, e.w));
    DisturbPeaceful(e.w.box, o.fate(e.w.clock + 1));
  }

  lemma OwnReply(o: Oracle, c: Config, job: Job, e: Exec, a: Action)
    requires job.sender == c.account
    ensures Idle(e, ReplyAndLog(o, c, job, e, a), 0)
  {
    hide IncrementAll, StatKeys;
  }

  lemma FailingAct(o: Oracle, c: Config, job: Job, e: Exec, a: Action)
    requires FailsFor(o, e.w.clock, Steps(c, job, a))
    ensures Idle(e, Act(o, c, job, e, a), Steps(c, job, a))
  {
    hide MoveAndFollow, StoreAndLog, ForwardAndLog, WebhookAndLog, DeleteAndLog, ReplyAndLog, LogAction, NamedFlag;
    LogIdle(o, c, job, e, a, "error");
    if Steps(c, job, a) > 0 {
      assert Failing(o.fate(e.w.clock));
      FailingMove(o, c, job, e, a, a.value, true);
      FailingStore(o, c, job, e, a, "\\Seen", a.kind == "mark_as_read");
      FailingStore(o, c, job, e, a, a.value, true);
      if NamedFlag(a.value).Some? { FailingStore(o, c, job, e, a, NamedFlag(a.value).value, false); }
      FailingSend(o, c, job, e, a);
      FailingDelete(o, c, job, e, a);
      if Steps(c, job, a) == 2 { FailingReply(o, c, job, e, a); }
    } else if job.sender == c.account {
      OwnReply(o, c, job, e, a);
    }
  }

  /** So it reaches its end. */
  lemma {:induction false} FailingActAll(o: Oracle, c: Config, job: Job, e: Exec, actions: seq<Action>)
    requires !e.stopped && FailsFor(o, e.w.clock, StepsAll(c, job, actions))
    ensures Idle(e, ActAll(o, c, job, e, actions), StepsAll(c, job, actions))
    decreases |actions|
  {
    hide Act, Steps, Failing;
    if actions == [] {
    } else {
      FailingAct(o, c, job, e, actions[0]);
      FailingActAll(o, c, job, Act(o, c, job, e, actions[0]), actions[1..]);
    }
  }

  lemma {:induction false} ActAllAppend(o: Oracle, c: Config, job: Job, e: Exec, xs: seq<Action>, ys: seq<Action>)
    ensures ActAll(o, c, job, e, xs + ys) == ActAll(o, c, job, ActAll(o, c, job, e, xs), ys)
    decreases |xs|
  {
    hide Act;
    if xs == [] {
      assert xs + ys == ys;
    } else if e.stopped {
    } else {
      assert (xs + ys)[0] == xs[0] && (xs + ys)[1..] == xs[1..] + ys;
      ActAllAppend(o, c, job, Act(o, c, job, e, xs[0]), xs[1..], ys);
    }
  }
}
