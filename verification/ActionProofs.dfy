/** What one action sends, logs and counts, whatever becomes of its commands. */
module ActionProofs {
  import opened Wrappers
  import opened Imap
  import opened Text
  import opened PollerSpec
  import opened RuleTypes

  // ----- names the poller reads -----

  predicate FirstFlagged(folders: seq<FolderInfo>, i: nat) {
    && i < |folders| && Contains(folders[i].flags, "\\Trash")
    && forall j :: 0 <= j < i ==> !Contains(folders[j].flags, "\\Trash")
  }

  predicate CalledTrash(f: FolderInfo) {
    Lower(f.name) == "deleted messages"
  }

  predicate FirstCalled(folders: seq<FolderInfo>, i: nat) {
    i < |folders| && CalledTrash(folders[i]) && forall j :: 0 <= j < i ==> !CalledTrash(folders[j])
  }

  /** The folder that holds the trash: the first with the flag, if it has a name, else the first with the name. */
  ghost predicate IsTrash(folders: seq<FolderInfo>, i: nat) {
    if exists k: nat :: FirstFlagged(folders, k) && folders[k].name != "" then FirstFlagged(folders, i)
    else FirstCalled(folders, i)
  }

  lemma {:induction false} FlaggedMeaning(folders: seq<FolderInfo>)
    ensures forall i: nat :: FirstFlagged(folders, i) ==> FlaggedTrash(folders) == folders[i].name
    ensures (forall i: nat :: !FirstFlagged(folders, i)) ==> FlaggedTrash(folders) == ""
    decreases |folders|
  {
    hide Contains;
    if folders == [] {
    } else {
      var rest := folders[1..];
      FlaggedMeaning(rest);
      if Contains(folders[0].flags, "\\Trash") {
        assert FirstFlagged(folders, 0);
      } else {
        forall i: nat | FirstFlagged(folders, i) ensures FirstFlagged(rest, i - 1) && rest[i - 1] == folders[i] {
          assert forall j :: 0 <= j < i - 1 ==> rest[j] == folders[j + 1];
        }
        forall i: nat | FirstFlagged(rest, i) ensures FirstFlagged(folders, i + 1) {
          assert forall j :: 0 < j < i + 1 ==> folders[j] == rest[j - 1];
        }
      }
    }
  }

  lemma {:induction false} CalledMeaning(folders: seq<FolderInfo>)
    ensures forall i: nat :: FirstCalled(folders, i) ==> NamedTrash(folders) == folders[i].name
    ensures (forall i: nat :: !FirstCalled(folders, i)) ==> NamedTrash(folders) == ""
    decreases |folders|
  {
    hide Lower;
    if folders == [] {
    } else {
      var rest := folders[1..];
      CalledMeaning(rest);
      if CalledTrash(folders[0]) {
        assert FirstCalled(folders, 0);
      } else {
        forall i: nat | FirstCalled(folders, i) ensures FirstCalled(rest, i - 1) && rest[i - 1] == folders[i] {
          assert forall j :: 0 <= j < i - 1 ==> rest[j] == folders[j + 1];
        }
        forall i: nat | FirstCalled(rest, i) ensures FirstCalled(folders, i + 1) {
          assert forall j :: 0 < j < i + 1 ==> folders[j] == rest[j - 1];
        }
      }
    }
  }

  lemma CalledHasName(f: FolderInfo)
    requires CalledTrash(f)
    ensures f.name != ""
  {
  }

  /** The folder a listing names, none exactly when no folder of it holds the trash. */
  lemma TrashMeaning(folders: seq<FolderInfo>)
    ensures forall i: nat :: IsTrash(folders, i) ==> TrashName(folders) == folders[i].name
    ensures TrashName(folders) == "" <==> forall i: nat :: !IsTrash(folders, i)
  {
    hide FlaggedTrash, NamedTrash, Contains;
    FlaggedMeaning(folders);
    CalledMeaning(folders);
    assert Lower("") == "";
    forall i: nat | FirstCalled(folders, i) ensures folders[i].name != "" {
      CalledHasName(folders[i]);
    }
    if k: nat :| FirstFlagged(folders, k) && folders[k].name != "" {
      assert IsTrash(folders, k);
    } else {
      assert forall k: nat :: FirstFlagged(folders, k) ==> folders[k].name == "";
      if k: nat :| FirstFlagged(folders, k) {
        assert FlaggedTrash(folders) == "";
      }
      if i: nat :| FirstCalled(folders, i) { assert IsTrash(folders, i); }
    }
  }

  /** A flag written out, or one of four words in any case for the system flag. */
  predicate NamesFlag(v: string, flag: string) {
    if "\\" <= v then flag == v
    else if Lower(v) == "seen" then flag == "\\Seen"
    else if Lower(v) == "flagged" then flag == "\\Flagged"
    else if Lower(v) == "answered" then flag == "\\Answered"
    else Lower(v) == "draft" && flag == "\\Draft"
  }

  lemma NamedFlagMeaning(v: string, flag: string)
    ensures NamedFlag(v) == Some(flag) <==> NamesFlag(v, flag)
  {
    if v == "" {
      assert Lower(v) == "";
    } else if v[0] == '\\' {
    } else if Lower(v) in {"seen", "flagged", "answered", "draft"} {
      Capital(v);
    }
  }

  lemma Capital(v: string)
    requires Lower(v) in {"seen", "flagged", "answered", "draft"}
    ensures v != ""
    ensures "\\" + [UpperChar(v[0])] + Lower(v[1..])
         == (match Lower(v)
             case "seen" => "\\Seen"
             case "flagged" => "\\Flagged"
             case "answered" => "\\Answered"
             case _ => "\\Draft")
  {
    var l := Lower(v);
    assert |v| == |l| && l[0] == LowerChar(v[0]);
    assert UpperChar(v[0]) == UpperChar(l[0]);
    assert Lower(v[1..]) == l[1..];
  }

  // ----- one action -----

  /** Nothing to do: no value where one is needed, a word that is no flag, nobody to answer, an unknown kind. */
  ghost predicate Skipped(job: Job, a: Action) {
    match a.kind
    case "move_to_folder" => a.value == ""
    case "set_flag" => a.value == ""
    case "forward" => a.value == ""
    case "webhook" => a.value == ""
    case "auto_reply" => a.value == "" || job.sender == ""
    case "remove_flag" => forall flag :: !NamesFlag(a.value, flag)
    case "mark_as_read" => false
    case "mark_as_unread" => false
    case "delete" => false
    case _ => true
  }

  lemma SkippedIsNothing(o: Oracle, c: Config, job: Job, e: Exec, a: Action)
    requires Skipped(job, a)
    ensures Act(o, c, job, e, a) == e
  {
    hide NamesFlag, NamedFlag;
    if NamedFlag(a.value).Some? { NamedFlagMeaning(a.value, NamedFlag(a.value).value); }
  }

  /** The one row, about this message, this rule and this action, filed under the folder the list has reached. */
  predicate Logs(c: Config, job: Job, e: Exec, a: Action, status: string, r: Exec) {
    r.w.log == e.w.log + [LogRow(e.uid, job.subject, job.sender, job.rule.name, a.kind, a.value, status,
                                 if e.dest != "" then e.dest else c.source)]
    && r.counted
  }

  predicate MovesOrFlags(e: Event) {
    (e.op.Move? || e.op.Store? || e.op.Unstore?) && e.outcome.Done?
  }

  /** A move or a flag command was carried out and answered, or something was sent. */
  ghost predicate Succeeded(w: World, v: World) {
    || (exists i :: |w.box.trace| <= i < |v.box.trace| && MovesOrFlags(v.box.trace[i]))
    || (exists i :: |w.outbox| <= i < |v.outbox| && v.outbox[i].ok)
  }

  ghost predicate Extends(w: World, v: World) {
    w.box.trace <= v.box.trace && w.outbox <= v.outbox && v.jobs == w.jobs
  }

  /** One attempt to send. */
  predicate SentOne(w: World, v: World, medium: Medium, to: string, checkDay: nat, moment: nat) {
    |v.outbox| == |w.outbox| + 1
    && v.outbox == w.outbox + [Sent(medium, to, checkDay, v.outbox[|w.outbox|].ok, moment)]
  }

  /** The row tells what happened. */
  ghost predicate Tells(c: Config, job: Job, e: Exec, a: Action, r: Exec) {
    && Extends(e.w, r.w)
    && Logs(c, job, e, a, if Succeeded(e.w, r.w) then "success"
                          else if a.kind == "auto_reply" && r.w.outbox == e.w.outbox then "skipped" else "error", r)
  }

  lemma LogTells(o: Oracle, c: Config, job: Job, e: Exec, uid: Uid, a: Action, status: string)
    ensures var r := LogAction(o, c, job, e, uid, a, status);
      && r == e.(w := r.w, counted := true)
      && r.w == e.w.(log := r.w.log, stats := r.w.stats)
      && r.w.log == e.w.log + [LogRow(uid, job.subject, job.sender, job.rule.name, a.kind, a.value, status,
                                      if e.dest != "" then e.dest else c.source)]
  {
    hide IncrementAll, StatKeys;
  }

  /** One command was added to the trace. */
  lemma CommandTrace(s: Server, f: Fate, uid: Uid, dest: string, flag: string, add: bool)
    ensures var (t, r) := MoveOne(s, f, uid, dest);
      && |t.trace| == |s.trace| + 1 && s.trace <= t.trace && t.trace[|s.trace|].op == Move(dest)
      && (t.trace[|s.trace|].outcome.Done? <==> r.MovedTo?)
      && (t.trace[|s.trace|].outcome.DestUnknown? <==> r.MoveUnknown?)
    ensures var t := SelectBox(s, f, dest);
      |t.trace| == |s.trace| + 1 && s.trace <= t.trace && t.trace[|s.trace|].op == Select
    ensures var (t, ok) := StoreOne(s, f, uid, flag, add);
      && |t.trace| == |s.trace| + 1 && s.trace <= t.trace
      && t.trace[|s.trace|].op == (if add then Store(flag) else Unstore(flag))
      && (t.trace[|s.trace|].outcome.Done? <==> ok)
    ensures var (t, ok) := RawOne(s, f, uid);
      && |t.trace| == |s.trace| + 1 && s.trace <= t.trace && t.trace[|s.trace|].op == Raw
      && (t.trace[|s.trace|].outcome.Done? <==> ok)
    ensures Disturb(s, f).trace == s.trace
  {
    hide Numbered, Arrivals;
  }

  /** What a move makes of the list: the message is followed when it is known where it went. */
  ghost predicate Followed(e: Exec, r: Exec, dest: string, relabel: bool) {
    var done := Succeeded(e.w, r.w);
    && r.moved == (e.moved || done)
    && r.dest == (if done && relabel then dest else e.dest)
    && (!done ==> r.uid == e.uid)
    && (r.stopped ==> e.stopped || !done)
    && r.stopped == (e.stopped
                     || exists i :: |e.w.box.trace| <= i < |r.w.box.trace| && r.w.box.trace[i].outcome.DestUnknown?)
  }

  /** A move command, and after a move that told its UID a select. */
  lemma MoveShape(o: Oracle, c: Config, job: Job, e: Exec, a: Action, dest: string, relabel: bool)
    ensures var r := MoveAndFollow(o, c, job, e, a, dest, relabel);
      var reply := MoveOne(e.w.box, Now(o, e.w), e.uid, dest).1;
      var n := |e.w.box.trace|; var t := r.w.box.trace;
      && e.w.box.trace <= t && |t| == n + (if reply.MovedTo? then 2 else 1)
      && t[n].op.Move?
      && (t[n].outcome.Done? <==> reply.MovedTo?) && (t[n].outcome.DestUnknown? <==> reply.MoveUnknown?)
      && (reply.MovedTo? ==> t[n + 1].op.Select? && !t[n + 1].outcome.DestUnknown?)
      && r.w.outbox == e.w.outbox && r.w.throttle == e.w.throttle && r.w.jobs == e.w.jobs && r.counted
      && r.w.log == e.w.log + [LogRow(e.uid, job.subject, job.sender, job.rule.name, a.kind, a.value,
                                      Status(reply.MovedTo?), if e.dest != "" then e.dest else c.source)]
      && r.moved == (e.moved || reply.MovedTo?) && r.dest == (if reply.MovedTo? && relabel then dest else e.dest)
      && (!reply.MovedTo? ==> r.uid == e.uid) && r.stopped == (e.stopped || reply.MoveUnknown?)
  {
    hide MoveOne, SelectBox, LogAction;
    CommandTrace(e.w.box, Now(o, e.w), e.uid, dest, "", true);
    var (box, reply) := MoveOne(e.w.box, Now(o, e.w), e.uid, dest);
    var e1 := e.(w := After(e.w, box));
    LogTells(o, c, job, e1, e.uid, a, "error");
    LogTells(o, c, job, e1, e.uid, a, "success");
    if reply.MovedTo? {
      var e2 := LogAction(o, c, job, e1, e.uid, a, "success");
      CommandTrace(e2.w.box, Now(o, e2.w), e.uid, dest, "", true);
      SelectOutcome(e2.w.box, Now(o, e2.w), dest);
    }
  }

  lemma MoveTells(o: Oracle, c: Config, job: Job, e: Exec, a: Action, dest: string, relabel: bool)
    requires a.kind != "auto_reply"
    ensures var r := MoveAndFollow(o, c, job, e, a, dest, relabel);
      Tells(c, job, e, a, r) && r.w.outbox == e.w.outbox && r.w.throttle == e.w.throttle
        && Followed(e, r, dest, relabel)
  {
    hide MoveOne, MoveAndFollow;
    MoveShape(o, c, job, e, a, dest, relabel);
    var r, n := MoveAndFollow(o, c, job, e, a, dest, relabel), |e.w.box.trace|;
    assert MovesOrFlags(r.w.box.trace[n]) <==> r.w.box.trace[n].outcome.Done?;
  }

  lemma SelectOutcome(s: Server, f: Fate, dest: string)
    ensures var t := SelectBox(s, f, dest).trace; |t| == |s.trace| + 1 && !t[|s.trace|].outcome.DestUnknown?
  {
    hide Numbered, Arrivals;
  }

  lemma StoreTells(o: Oracle, c: Config, job: Job, e: Exec, a: Action, flag: string, add: bool)
    requires a.kind != "auto_reply"
    ensures var r := StoreAndLog(o, c, job, e, a, flag, add);
      && Tells(c, job, e, a, r) && r.w.outbox == e.w.outbox && r.w.throttle == e.w.throttle
      && r.moved == e.moved && r.dest == e.dest && r.uid == e.uid && r.stopped == e.stopped
  {
    hide StoreOne, LogAction;
    CommandTrace(e.w.box, Now(o, e.w), e.uid, "", flag, add);
    var (box, ok) := StoreOne(e.w.box, Now(o, e.w), e.uid, flag, add);
    LogTells(o, c, job, e.(w := After(e.w, box)), e.uid, a, Status(ok));
    var r := StoreAndLog(o, c, job, e, a, flag, add);
    assert r.w.box.trace == box.trace;
    if ok { assert MovesOrFlags(r.w.box.trace[|e.w.box.trace|]); }
  }

  /** A forward goes to the address of the action, once the message could be read. */
  lemma ForwardTells(o: Oracle, c: Config, job: Job, e: Exec, a: Action)
    requires a.kind != "auto_reply"
    ensures var r := ForwardAndLog(o, c, job, e, a); var n := |e.w.box.trace|;
      && Tells(c, job, e, a, r) && r.w.throttle == e.w.throttle
      && r.moved == e.moved && r.dest == e.dest && r.uid == e.uid && r.stopped == e.stopped
      && |r.w.box.trace| == n + 1 && r.w.box.trace[n].op == Raw
      && (if r.w.box.trace[n].outcome.Done?
          then SentOne(e.w, r.w, Forward, a.value, 0, e.w.clock + 1)
          else r.w.outbox == e.w.outbox)
  {
    hide RawOne, Disturb, LogAction;
    var f := Now(o, e.w);
    CommandTrace(e.w.box, f, e.uid, "", "", true);
    var (box, ok) := RawOne(e.w.box, f, e.uid);
    var e1 := e.(w := After(e.w, box));
    LogTells(o, c, job, e1, e.uid, a, "error");
    CommandTrace(e1.w.box, Now(o, e1.w), e.uid, "", "", true);
    var (w2, sent) := Deliver(o, e1.w, Forward, a.value, 0);
    LogTells(o, c, job, e1.(w := w2), e.uid, a, Status(sent));
    var r := ForwardAndLog(o, c, job, e, a);
    if ok { assert r.w.outbox[|e.w.outbox|].ok == sent; }
  }

  /** A webhook is called once, at the address of the action. */
  lemma WebhookTells(o: Oracle, c: Config, job: Job, e: Exec, a: Action)
    requires a.kind != "auto_reply"
    ensures var r := WebhookAndLog(o, c, job, e, a);
      && Tells(c, job, e, a, r) && r.w.throttle == e.w.throttle && r.w.box.trace == e.w.box.trace
      && r.moved == e.moved && r.dest == e.dest && r.uid == e.uid && r.stopped == e.stopped
      && SentOne(e.w, r.w, Webhook, a.value, 0, e.w.clock)
  {
    hide Disturb, LogAction;
    CommandTrace(e.w.box, Now(o, e.w), e.uid, "", "", true);
    var (w1, sent) := Deliver(o, e.w, Webhook, a.value, 0);
    LogTells(o, c, job, e.(w := w1), e.uid, a, Status(sent));
    var r := WebhookAndLog(o, c, job, e, a);
    assert r.w.outbox[|e.w.outbox|].ok == sent;
  }

  // ----- replies -----

  predicate HasSlot(w: World, recipient: string, day: nat) {
    exists row <- w.throttle :: row.recipient == recipient && row.date == day
  }

  /** An answer to this sender is due: it is not the account itself, and no slot of today is taken that can be read. */
  predicate Due(o: Oracle, c: Config, w: World, sender: string) {
    sender != c.account && !(Now(o, w).readOk && HasSlot(w, sender, Now(o, w).day))
  }

  lemma SlotRow(w: World, recipient: string, day: nat)
    ensures HasSlot(w, recipient, day) <==> ThrottleRow(recipient, day) in w.throttle
  {
    if row :| row in w.throttle && row.recipient == recipient && row.date == day {
      assert row == ThrottleRow(recipient, day);
    }
    if ThrottleRow(recipient, day) in w.throttle {
      var row := ThrottleRow(recipient, day);
      assert row in w.throttle && row.recipient == recipient && row.date == day;
    }
  }

  /** One answer when one is due, none otherwise; an answer that was sent takes the slot of the day it is written. */
  lemma TryReplyAnswers(o: Oracle, c: Config, job: Job, w: World)
    ensures var (v, status) := TryReply(o, c, job, w);
      && v.box.trace == w.box.trace && v.log == w.log && v.stats == w.stats && v.jobs == w.jobs && w.outbox <= v.outbox
      && (if Due(o, c, w, job.sender)
          then SentOne(w, v, Reply, job.sender, Now(o, w).day, w.clock + 1)
          else v.outbox == w.outbox)
      && v.throttle == (if v.outbox != w.outbox && v.outbox[|w.outbox|].ok && o.fate(w.clock + 2).writeOk
                        then w.throttle + {ThrottleRow(job.sender, o.fate(w.clock + 2).day)} else w.throttle)
      && status == (if v.outbox == w.outbox then "skipped"
                    else if v.outbox[|w.outbox|].ok then "success" else "error")
  {
    hide Disturb, HasSlot;
    SlotRow(w, job.sender, Now(o, w).day);
    if job.sender != c.account {
      var f := Now(o, w);
      CommandTrace(w.box, f, 1, "", "", true);
      var w1 := After(w, Disturb(w.box, f));
      CommandTrace(w1.box, Now(o, w1), 1, "", "", true);
      var w2 := Deliver(o, w1, Reply, job.sender, f.day).0;
      CommandTrace(w2.box, Now(o, w2), 1, "", "", true);
    }
  }

  lemma ReplyTells(o: Oracle, c: Config, job: Job, e: Exec, a: Action)
    requires a.kind == "auto_reply"
    ensures var r := ReplyAndLog(o, c, job, e, a);
      && Tells(c, job, e, a, r) && r.w.box.trace == e.w.box.trace
      && r.moved == e.moved && r.dest == e.dest && r.uid == e.uid && r.stopped == e.stopped
      && (if Due(o, c, e.w, job.sender)
          then SentOne(e.w, r.w, Reply, job.sender, Now(o, e.w).day, e.w.clock + 1)
          else r.w.outbox == e.w.outbox)
      && r.w.throttle == (if r.w.outbox != e.w.outbox && r.w.outbox[|e.w.outbox|].ok && o.fate(e.w.clock + 2).writeOk
                          then e.w.throttle + {ThrottleRow(job.sender, o.fate(e.w.clock + 2).day)} else e.w.throttle)
  {
    hide TryReply, LogAction, Due;
    TryReplyAnswers(o, c, job, e.w);
    var (w, status) := TryReply(o, c, job, e.w);
    LogTells(o, c, job, e.(w := w), e.uid, a, status);
  }

  // ----- deletes -----

  /** The folder once found is kept, and not asked for again; a listing is asked for it until one names it. */
  lemma TrashFound(o: Oracle, w: World)
    ensures var (v, found) := FindTrash(o, w);
      && v.box.trace == w.box.trace && v.outbox == w.outbox && v.throttle == w.throttle && v.log == w.log
      && v.jobs == w.jobs
      && (w.trash != "" ==> found == Some(w.trash) && v == w)
      && (found.Some? ==> found.value != "" && v.trash == found.value)
      && (w.trash == "" ==> (found.Some? <==> Now(o, w).ok && exists i: nat :: IsTrash(Now(o, w).folders, i)))
      && (w.trash == "" && found.Some? ==>
            exists i: nat :: IsTrash(Now(o, w).folders, i) && found.value == Now(o, w).folders[i].name)
      && (found.None? ==> v.trash == "")
  {
    hide Disturb, TrashName, IsTrash;
    CommandTrace(w.box, Now(o, w), 1, "", "", true);
    TrashMeaning(Now(o, w).folders);
  }

  lemma DeleteTells(o: Oracle, c: Config, job: Job, e: Exec, a: Action)
    requires a.kind == "delete"
    ensures var r := DeleteAndLog(o, c, job, e, a); var found := FindTrash(o, e.w).1;
      && Tells(c, job, e, a, r) && r.w.outbox == e.w.outbox && r.w.throttle == e.w.throttle
      && Followed(e, r, if found.Some? then found.value else "", false)
      && (if found.Some? then FirstOp(e.w, r.w, Move(found.value)) else r.w.box.trace == e.w.box.trace)
  {
    hide FindTrash, MoveAndFollow, LogAction;
    TrashFound(o, e.w);
    var (w1, found) := FindTrash(o, e.w);
    var e1 := e.(w := w1);
    LogTells(o, c, job, e1, e.uid, a, "error");
    if found.Some? {
      MoveTells(o, c, job, e1, a, found.value, false);
      MoveFirst(o, c, job, e1, a, found.value, false);
    }
  }

  // ----- any action -----

  /** The first new command of the action. */
  predicate FirstOp(w: World, v: World, op: Op) {
    |v.box.trace| > |w.box.trace| && v.box.trace[|w.box.trace|].op == op
  }

  lemma MoveFirst(o: Oracle, c: Config, job: Job, e: Exec, a: Action, dest: string, relabel: bool)
    ensures FirstOp(e.w, MoveAndFollow(o, c, job, e, a, dest, relabel).w, Move(dest))
  {
    hide MoveOne, SelectBox, LogAction;
    CommandTrace(e.w.box, Now(o, e.w), e.uid, dest, "", true);
    var (box, reply) := MoveOne(e.w.box, Now(o, e.w), e.uid, dest);
    var e1 := e.(w := After(e.w, box));
    LogTells(o, c, job, e1, e.uid, a, "error");
    LogTells(o, c, job, e1, e.uid, a, "success");
    var e2 := LogAction(o, c, job, e1, e.uid, a, "success");
    CommandTrace(e2.w.box, Now(o, e2.w), e.uid, dest, "", true);
  }

  lemma StoreFirst(o: Oracle, c: Config, job: Job, e: Exec, a: Action, flag: string, add: bool)
    ensures FirstOp(e.w, StoreAndLog(o, c, job, e, a, flag, add).w, if add then Store(flag) else Unstore(flag))
  {
    hide StoreOne, LogAction;
    CommandTrace(e.w.box, Now(o, e.w), e.uid, "", flag, add);
    var (box, ok) := StoreOne(e.w.box, Now(o, e.w), e.uid, flag, add);
    LogTells(o, c, job, e.(w := After(e.w, box)), e.uid, a, Status(ok));
  }

  /** The command of an action, if it is one that sends a command. */
  ghost predicate Commands(o: Oracle, e: Exec, a: Action, r: Exec) {
    match a.kind
    case "move_to_folder" => FirstOp(e.w, r.w, Move(a.value))
    case "mark_as_read" => FirstOp(e.w, r.w, Store("\\Seen"))
    case "mark_as_unread" => FirstOp(e.w, r.w, Unstore("\\Seen"))
    case "set_flag" =>
      if a.value == "\\Deleted" then r.w.box.trace == e.w.box.trace else FirstOp(e.w, r.w, Store(a.value))
    case "remove_flag" => forall flag :: NamesFlag(a.value, flag) ==> FirstOp(e.w, r.w, Unstore(flag))
    case "forward" => FirstOp(e.w, r.w, Raw)
    case "delete" =>
      var found := FindTrash(o, e.w).1;
      if found.Some? then FirstOp(e.w, r.w, Move(found.value)) else r.w.box.trace == e.w.box.trace
    case _ => r.w.box.trace == e.w.box.trace
  }

  /** What an action sends: a forward of a message that could be read, a webhook, an answer that is due. */
  ghost predicate Sends(o: Oracle, c: Config, job: Job, e: Exec, a: Action, r: Exec) {
    match a.kind
    case "forward" =>
      if |r.w.box.trace| > |e.w.box.trace| && r.w.box.trace[|e.w.box.trace|].outcome.Done?
      then SentOne(e.w, r.w, Forward, a.value, 0, e.w.clock + 1) else r.w.outbox == e.w.outbox
    case "webhook" => SentOne(e.w, r.w, Webhook, a.value, 0, e.w.clock)
    case "auto_reply" =>
      if Due(o, c, e.w, job.sender) then SentOne(e.w, r.w, Reply, job.sender, Now(o, e.w).day, e.w.clock + 1)
      else r.w.outbox == e.w.outbox
    case _ => r.w.outbox == e.w.outbox
  }

  lemma FlagActTells(o: Oracle, c: Config, job: Job, e: Exec, a: Action)
    requires !Skipped(job, a) && a.kind in {"mark_as_read", "mark_as_unread", "set_flag", "remove_flag"}
    ensures var r := Act(o, c, job, e, a);
      Tells(c, job, e, a, r) && Commands(o, e, a, r) && Sends(o, c, job, e, a, r) && r.w.throttle == e.w.throttle
      && r.moved == e.moved && r.dest == e.dest && r.uid == e.uid && r.stopped == e.stopped
  {
    hide StoreAndLog, LogAction, NamedFlag, NamesFlag, Tells, FindTrash, Due;
    if a.kind == "remove_flag" {
      var flag :| NamesFlag(a.value, flag);
      forall f { NamedFlagMeaning(a.value, f); }
      StoreTells(o, c, job, e, a, flag, false);
      StoreFirst(o, c, job, e, a, flag, false);
    } else if a.kind == "set_flag" && a.value == "\\Deleted" {
      GuardTells(o, c, job, e, a);
    } else {
      var flag := if a.kind == "set_flag" then a.value else "\\Seen";
      StoreTells(o, c, job, e, a, flag, a.kind != "mark_as_unread");
      StoreFirst(o, c, job, e, a, flag, a.kind != "mark_as_unread");
    }
  }

  lemma GuardTells(o: Oracle, c: Config, job: Job, e: Exec, a: Action)
    requires a.kind == "set_flag"
    ensures var r := LogAction(o, c, job, e, e.uid, a, "error");
      Tells(c, job, e, a, r) && r.w.box == e.w.box && r.w.outbox == e.w.outbox && r.w.throttle == e.w.throttle
      && r.moved == e.moved && r.dest == e.dest && r.uid == e.uid && r.stopped == e.stopped
  {
    hide LogAction;
    LogTells(o, c, job, e, e.uid, a, "error");
  }

  /** Main result. An action that has something to do sends its command, sends its mail, and writes exactly one row,
      about this message, rule and action and the UID it was told to act on. The row says "success" exactly when a move
      or flag command was carried out and answered or something was sent. Only an answer takes a throttle slot. */
  lemma ActTells(o: Oracle, c: Config, job: Job, e: Exec, a: Action)
    requires !Skipped(job, a)
    ensures var r := Act(o, c, job, e, a);
      Tells(c, job, e, a, r) && Commands(o, e, a, r) && Sends(o, c, job, e, a, r)
      && (a.kind != "auto_reply" ==> r.w.throttle == e.w.throttle)
  {
    hide MoveAndFollow, StoreAndLog, ForwardAndLog, WebhookAndLog, DeleteAndLog, ReplyAndLog, LogAction, NamedFlag,
         Tells, FindTrash, Due, NamesFlag;
    match a.kind
    case "move_to_folder" => MoveTells(o, c, job, e, a, a.value, true); MoveFirst(o, c, job, e, a, a.value, true);
    case "forward" => ForwardTells(o, c, job, e, a);
    case "delete" => DeleteTells(o, c, job, e, a);
    case "auto_reply" => ReplyTells(o, c, job, e, a);
    case "webhook" => WebhookTells(o, c, job, e, a);
    case _ => FlagActTells(o, c, job, e, a);
  }

  /** The list goes on filing rows where its last move to a folder put the message, and follows it; only a move can end
      it. */
  lemma ActFollows(o: Oracle, c: Config, job: Job, e: Exec, a: Action)
    ensures var r := Act(o, c, job, e, a); var done := Succeeded(e.w, r.w);
      && (a.kind == "move_to_folder" && a.value != "" && done ==> r.dest == a.value)
      && (a.kind != "move_to_folder" || !done ==> r.dest == e.dest)
      && r.moved == (e.moved || (a.kind in {"move_to_folder", "delete"} && done))
      && (r.stopped ==> e.stopped || (a.kind in {"move_to_folder", "delete"} && !done))
  {
    hide MoveAndFollow, StoreAndLog, ForwardAndLog, WebhookAndLog, DeleteAndLog, ReplyAndLog, LogAction, NamedFlag,
         Tells, FindTrash, Due, NamesFlag, Succeeded;
    if Skipped(job, a) {
      SkippedIsNothing(o, c, job, e, a);
      NothingSucceeded(e.w);
    } else {
      match a.kind
      case "move_to_folder" => MoveTells(o, c, job, e, a, a.value, true);
      case "forward" => ForwardTells(o, c, job, e, a);
      case "delete" => DeleteTells(o, c, job, e, a);
      case "auto_reply" => ReplyTells(o, c, job, e, a);
      case "webhook" => WebhookTells(o, c, job, e, a);
      case _ => FlagActTells(o, c, job, e, a);
    }
  }

  lemma NothingSucceeded(w: World)
    ensures !Succeeded(w, w)
  {
  }
}
