/**
 The objects of the poller: the session, the tables and the poller itself, updated in place the way the
 program does it, each method proved equal to its function on values.
*/
module PollerObjects {
  import opened Wrappers
  import opened Imap
  import opened PollerSpec
  import opened RuleTypes
  import opened Text

  /** The shared session of internal/imap/client.go with the server behind it. */
  class ImapClient {
    var mail: map<Addr, Mail>
    var owner: map<Addr, nat>
    var next: map<string, nat>
    var selected: Option<string>
    ghost var trace: seq<Event>
    ghost var arrived: set<nat>
    ghost var expunged: set<nat>

    ghost function State(): Server
      reads this
    {
      Server(mail, owner, next, selected, trace, arrived, expunged)
    }

    constructor (mail: map<Addr, Mail>, next: map<string, nat>)
      ensures State() == Server(mail, map a <- mail :: mail[a].id, next, None, [], {}, {})
    {
      this.mail, this.next, this.selected, this.trace := mail, next, None, [];
      this.arrived, this.expunged := {}, {};
      this.owner := map a <- mail :: mail[a].id;
    }

    /** Other clients had their turn. */
    method Settle(f: Fate)
      modifies this
      ensures State() == Disturb(old(State()), f)
    {
      var next' := Numbered(next, f.bump);
      var came := Arrivals(next, next', f.came);
      arrived := arrived + (set a | a in came :: came[a].id);
      expunged := expunged + (set a | a in f.gone && a in mail :: mail[a].id);
      mail := (mail - f.gone) + came;
      owner := owner + (map a | a in came :: came[a].id);
      next := next';
    }

    method SelectMailbox(f: Fate, name: string) returns (ok: bool)
      modifies this
      ensures State() == SelectBox(old(State()), f, name)
      ensures ok == selected.Some?
    {
      Settle(f);
      ok := f.selectOk && name in next;
      trace := trace + [Event(Select, selected, 0, None, false, if ok then Done else Failed)];
      selected := if ok then Some(name) else None;
    }

    method SearchMessages(f: Fate, wraps: bool, folder: string, floor: nat) returns (r: SearchReply)
      modifies this
      ensures (State(), r) == SearchBox(old(State()), f, wraps, folder, floor)
    {
      var ok := SelectMailbox(f, folder);
      if !ok { return SearchError; }
      trace := trace + [Event(Search, selected, 0, None, false, if f.ok then Done else Failed)];
      if !f.ok { return SearchError; }
      // the server's part: the least UID at or above the floor
      var above := set a | a in mail && a.folder == folder && floor <= a.uid :: a.uid as nat;
      var all := set a | a in mail && a.folder == folder :: a.uid as nat;
      if above != {} {
        r := FoundUid(Least(above));
      } else if wraps && all != {} {
        r := FoundUid(Greatest(all));
      } else {
        r := NoneFound;
      }
    }

    method FetchMessage(f: Fate, uid: Uid) returns (r: Option<nat>)
      modifies this
      ensures (State(), r) == FetchOne(old(State()), f, uid)
    {
      Settle(f);
      var ok := f.ok && selected.Some? && Addr(selected.value, uid) in mail;
      trace := trace + [Note(State(), Fetch, uid, if ok then Done else Failed)];
      r := if ok then Some(mail[Addr(selected.value, uid)].id) else None;
    }

    /** FetchMessageBody and FetchMessageHeader. */
    method PeekMessage(f: Fate, uid: Uid)
      modifies this
      ensures State() == PeekOne(old(State()), f, uid)
    {
      Settle(f);
      trace := trace + [Note(State(), Peek, uid, if f.ok && selected.Some? then Done else Failed)];
    }

    method FetchRawMessage(f: Fate, uid: Uid) returns (ok: bool)
      modifies this
      ensures (State(), ok) == RawOne(old(State()), f, uid)
    {
      Settle(f);
      ok := f.ok && selected.Some? && Addr(selected.value, uid) in mail;
      trace := trace + [Note(State(), Raw, uid, if ok then Done else Failed)];
      if (f.ok || f.lost) && selected.Some? && Addr(selected.value, uid) in mail {
        var a := Addr(selected.value, uid);
        mail := mail[a := mail[a].(flags := mail[a].flags + {FlagOf("\\Seen")} - {})];
      }
    }

    method StoreFlag(f: Fate, uid: Uid, flag: string, add: bool) returns (ok: bool)
      modifies this
      ensures (State(), ok) == StoreOne(old(State()), f, uid, flag, add)
    {
      Settle(f);
      ok := f.ok && selected.Some?;
      trace := trace + [Note(State(), if add then Store(flag) else Unstore(flag), uid, if ok then Done else Failed)];
      if (f.ok || f.lost) && selected.Some? && Addr(selected.value, uid) in mail {
        var a := Addr(selected.value, uid);
        var flags := if add then mail[a].flags + {FlagOf(flag)} - {} else mail[a].flags + {} - {FlagOf(flag)};
        mail := mail[a := mail[a].(flags := flags)];
      }
    }

    method MoveMessage(f: Fate, uid: Uid, dest: string) returns (r: MoveReply)
      modifies this
      ensures (State(), r) == MoveOne(old(State()), f, uid, dest)
    {
      Settle(f);
      if selected.None? || dest !in next || next[dest] >= UID_LIMIT || next[dest] < 1 || !(f.ok || f.lost) {
        trace := trace + [Note(State(), Move(dest), uid, Failed)];
        return MoveError;
      }
      var from := Addr(selected.value, uid);
      var there := from in mail;
      r := if !f.ok then MoveError else if f.uidKnown && there then MovedTo(next[dest]) else MoveUnknown;
      var outcome := match r case MovedTo(_) => Done case MoveError => Failed case MoveUnknown => DestUnknown;
      trace := trace + [Note(State(), Move(dest), uid, outcome)];
      if there {
        var to := Addr(dest, next[dest]);
        owner := owner[to := mail[from].id];
        mail := (mail - {from})[to := mail[from]];
        next := next[dest := next[dest] + 1];
      }
    }
  }

  class LogRepo {
    var rows: seq<LogRow>

    method Insert(row: LogRow)
      modifies this
      ensures rows == old(rows) + [row]
    {
      rows := rows + [row];
    }
  }

  class StatsRepo {
    var rows: seq<StatRow>

    /** The upsert: the row of the key is found and raised, or a new row is added. */
    method IncrementStat(category: string, key: string)
      modifies this
      ensures rows == Increment(old(rows), category, key)
    {
      var i := 0;
      while i < |rows| && !(rows[i].category == category && rows[i].key == key)
        invariant 0 <= i <= |rows| && rows == old(rows)
        invariant forall j :: 0 <= j < i ==> !(rows[j].category == category && rows[j].key == key)
      {
        i := i + 1;
      }
      IncrementAt(rows, category, key, i);
      if i < |rows| {
        rows := rows[i := rows[i].(value := rows[i].value + 1)];
      } else {
        rows := rows + [StatRow(category, key, 1)];
      }
    }
  }

  /** `i` is where a search for the key ends. */
  lemma {:induction false} IncrementAt(rows: seq<StatRow>, category: string, key: string, i: nat)
    requires i <= |rows|
    requires forall j :: 0 <= j < i ==> !(rows[j].category == category && rows[j].key == key)
    requires i < |rows| ==> rows[i].category == category && rows[i].key == key
    ensures Increment(rows, category, key) ==
            if i < |rows| then rows[i := rows[i].(value := rows[i].value + 1)] else rows + [StatRow(category, key, 1)]
  {
    if i == 0 {
    } else {
      IncrementAt(rows[1..], category, key, i - 1);
    }
  }

  /** A row is its address and its day. */
  lemma SlotRow(rows: set<ThrottleRow>, recipient: string, today: nat)
    ensures ThrottleRow(recipient, today) in rows
        <==> exists row <- rows :: row.recipient == recipient && row.date == today
  {
    if row :| row in rows && row.recipient == recipient && row.date == today {
      assert row == ThrottleRow(recipient, today);
    }
    if ThrottleRow(recipient, today) in rows {
      var row := ThrottleRow(recipient, today);
      assert row in rows && row.recipient == recipient && row.date == today;
    }
  }

  class AutoReplyRepo {
    var rows: set<ThrottleRow>

    /** A readable table says whether one of its rows is for this address and day. */
    method HasReplied(recipient: string, today: nat, readOk: bool) returns (r: Result<bool, ()>)
      ensures r.Ok? <==> readOk
      ensures r.Ok? ==> (r.value <==> exists row <- rows :: row.recipient == recipient && row.date == today)
    {
      if !readOk { return Err(()); }
      SlotRow(rows, recipient, today);
      r := Ok(ThrottleRow(recipient, today) in rows);
    }

    method RecordReply(recipient: string, today: nat, writeOk: bool)
      modifies this
      ensures rows == if writeOk then old(rows) + {ThrottleRow(recipient, today)} else old(rows)
    {
      if writeOk { rows := rows + {ThrottleRow(recipient, today)}; }
    }

    /** Rows go one by one until only those at or after the cutoff are left. */
    method Prune(cutoff: nat)
      modifies this
      ensures rows == PollerSpec.Prune(old(rows), cutoff)
    {
      var todo := rows;
      while todo != {}
        invariant todo <= rows <= old(rows)
        invariant forall r <- old(rows) :: cutoff <= r.date ==> r in rows
        invariant forall r <- rows :: r in todo || cutoff <= r.date
        decreases |todo|
      {
        var r :| r in todo;
        todo := todo - {r};
        if r.date < cutoff { rows := rows - {r}; }
      }
    }
  }

  lemma Tallied(p: Progress, w: World, uid: Uid, h: Handling)
    ensures var q := Tally(p, w, uid, h);
      && q.w == w && q.minUid == Next32(uid) && q.handled == p.handled + [uid]
      && q.errors == p.errors + (if h.FetchFailed? || h.MatchFailed? then 1 else 0)
      && q.processed == p.processed + (if h.Unmatched? || h.Matched? then 1 else 0)
      && q.matched == p.matched + (if h.Matched? then 1 else 0)
      && q.actions == p.actions + (if h.Matched? then h.actions else 0)
  {
  }

  lemma OneTurn(o: Oracle, c: Config, rules: seq<Rule>, folder: string, limit: nat, p: Progress, turns: nat)
    ensures p.processed >= limit ==> ApplyTurns(o, c, rules, folder, limit, p, turns) == ApplyEnd(p, false)
    ensures p.processed < limit && turns == 0 ==> ApplyTurns(o, c, rules, folder, limit, p, turns) == ApplyOn(p)
    ensures p.processed < limit && turns > 0 ==>
      var t := ApplyStep(o, c, rules, folder, p);
      ApplyTurns(o, c, rules, folder, limit, p, turns)
      == if t.ApplyEnd? then t else ApplyTurns(o, c, rules, folder, limit, t.p, turns - 1)
  {
  }

  class Poller {
    const o: Oracle
    const c: Config
    const client: ImapClient
    const logRepo: LogRepo
    const statsRepo: StatsRepo
    const autoReplyRepo: AutoReplyRepo
    var outbox: seq<Sent>
    var trashFolder: string
    var clock: nat
    ghost var jobs: seq<int>

    constructor (o: Oracle, c: Config, client: ImapClient, logRepo: LogRepo, statsRepo: StatsRepo,
                 autoReplyRepo: AutoReplyRepo)
      ensures this.o == o && this.c == c && this.client == client && this.logRepo == logRepo
      ensures this.statsRepo == statsRepo && this.autoReplyRepo == autoReplyRepo
      ensures W() == World(client.State(), logRepo.rows, statsRepo.rows, autoReplyRepo.rows, [], "", [], 0)
    {
      this.o, this.c, this.client, this.logRepo := o, c, client, logRepo;
      this.statsRepo, this.autoReplyRepo := statsRepo, autoReplyRepo;
      outbox, trashFolder, clock, jobs := [], "", 0, [];
    }

    /** Everything the poller can change, as one value. */
    ghost function W(): World
      reads this, client, logRepo, statsRepo, autoReplyRepo
    {
      World(client.State(), logRepo.rows, statsRepo.rows, autoReplyRepo.rows, outbox, trashFolder, jobs, clock)
    }

    method NextFate() returns (f: Fate)
      modifies this`clock
      ensures f == o.fate(old(clock)) && clock == old(clock) + 1
    {
      f := o.fate(clock);
      clock := clock + 1;
    }

    /** The closure `logAction`. */
    method LogAction(job: Job, uid: Uid, place: string, counted: bool, a: Action, status: string)
      modifies logRepo, statsRepo
      ensures W() == Logged(o, c, job, old(W()), place, counted, uid, a, status)
    {
      logRepo.Insert(LogRow(uid, job.subject, job.sender, job.rule.name, a.kind, a.value, status,
                            if place != "" then place else c.source));
      var keys := [("action", a.kind), ("status", status)];
      if !counted {
        var day := o.fate(clock).day;
        var mine := [("total", "processed"), ("rule_hit", job.rule.name)];
        if job.sender != "" { mine := mine + [("sender", job.sender)]; }
        keys := mine + [("daily", o.dayKey(day)), ("weekly", o.weekKey(day))] + keys;
      }
      if a.kind == "move_to_folder" && a.value != "" {
        keys := keys + [("folder", a.value)];
      }
      assert keys == StatKeys(o, job, old(W()), counted, a, status);
      CountAll(keys);
    }

    method CountAll(keys: seq<(string, string)>)
      modifies statsRepo
      ensures statsRepo.rows == IncrementAll(old(statsRepo.rows), keys)
    {
      var i := 0;
      while i < |keys|
        invariant 0 <= i <= |keys|
        invariant IncrementAll(statsRepo.rows, keys[i..]) == IncrementAll(old(statsRepo.rows), keys)
      {
        assert keys[i..][1..] == keys[i + 1..];
        statsRepo.IncrementStat(keys[i].0, keys[i].1);
        i := i + 1;
      }
    }

    // The next methods are the arms of the switch in `executeActions`. `place`, `moved` and `counted` are
    // its locals destFolder, movedOut and messageStatsDone; each arm hands back what it changes.

    method MoveAndFollow(job: Job, a: Action, dest: string, relabel: bool, uid: Uid, place: string, moved: bool,
                         counted: bool)
      returns (uid': Uid, place': string, moved': bool, stop: bool)
      modifies this`clock, client, logRepo, statsRepo
      ensures Exec(W(), uid', place', moved', true, stop)
           == PollerSpec.MoveAndFollow(o, c, job, Exec(old(W()), uid, place, moved, counted, false), a, dest, relabel)
    {
      hide MoveOne, SelectBox, IncrementAll, StatKeys;
      uid', place', moved', stop := uid, place, moved, false;
      var f := NextFate();
      var r := client.MoveMessage(f, uid, dest);
      if !r.MovedTo? {
        LogAction(job, uid, place, counted, a, "error");
        stop := r.MoveUnknown?;
      } else {
        LogAction(job, uid, place, counted, a, "success");
        uid' := r.uid;
        if relabel { place' := dest; }
        moved' := true;
        var g := NextFate();
        var _ := client.SelectMailbox(g, dest);
      }
    }

    method StoreAndLog(job: Job, a: Action, flag: string, add: bool, uid: Uid, place: string, moved: bool,
                       counted: bool)
      modifies this`clock, client, logRepo, statsRepo
      ensures Exec(W(), uid, place, moved, true, false)
           == PollerSpec.StoreAndLog(o, c, job, Exec(old(W()), uid, place, moved, counted, false), a, flag, add)
    {
      hide StoreOne, IncrementAll, StatKeys;
      var f := NextFate();
      var ok := client.StoreFlag(f, uid, flag, add);
      LogAction(job, uid, place, counted, a, if ok then "success" else "error");
    }

    /** smtp.SendRaw, smtp.Send or the webhook post. */
    method Deliver(medium: Medium, to: string, checkDay: nat) returns (ok: bool)
      modifies this`clock, this`outbox, client
      ensures (W(), ok) == PollerSpec.Deliver(o, old(W()), medium, to, checkDay)
    {
      hide Disturb;
      var f := NextFate();
      client.Settle(f);
      ok := f.ok;
      outbox := outbox + [Sent(medium, to, checkDay, ok, clock - 1)];
    }

    method ForwardAndLog(job: Job, a: Action, uid: Uid, place: string, moved: bool, counted: bool)
      modifies this`clock, this`outbox, client, logRepo, statsRepo
      ensures Exec(W(), uid, place, moved, true, false)
           == PollerSpec.ForwardAndLog(o, c, job, Exec(old(W()), uid, place, moved, counted, false), a)
    {
      hide RawOne, Disturb, IncrementAll, StatKeys;
      var f := NextFate();
      var ok := client.FetchRawMessage(f, uid);
      if !ok {
        LogAction(job, uid, place, counted, a, "error");
      } else {
        var sent := Deliver(Forward, a.value, 0);
        LogAction(job, uid, place, counted, a, if sent then "success" else "error");
      }
    }

    method WebhookAndLog(job: Job, a: Action, uid: Uid, place: string, moved: bool, counted: bool)
      modifies this`clock, this`outbox, client, logRepo, statsRepo
      ensures Exec(W(), uid, place, moved, true, false)
           == PollerSpec.WebhookAndLog(o, c, job, Exec(old(W()), uid, place, moved, counted, false), a)
    {
      hide Disturb, IncrementAll, StatKeys;
      var sent := Deliver(Webhook, a.value, 0);
      LogAction(job, uid, place, counted, a, if sent then "success" else "error");
    }

    method GetTrashFolder() returns (r: Option<string>)
      modifies this`clock, this`trashFolder, client
      ensures (W(), r) == FindTrash(o, old(W()))
    {
      hide Disturb, Contains, Lower;
      if trashFolder != "" { return Some(trashFolder); }
      var f := NextFate();
      client.Settle(f);
      if !f.ok { return None; }
      var found := "";
      for i := 0 to |f.folders|
        invariant found == ""
        invariant FlaggedTrash(f.folders[i..]) == FlaggedTrash(f.folders)
      {
        assert f.folders[i..][1..] == f.folders[i + 1..];
        if Contains(f.folders[i].flags, "\\Trash") {
          found := f.folders[i].name;
          break;
        }
      }
      assert found == FlaggedTrash(f.folders);
      if found == "" {
        for i := 0 to |f.folders|
          invariant found == ""
          invariant NamedTrash(f.folders[i..]) == NamedTrash(f.folders)
        {
          assert f.folders[i..][1..] == f.folders[i + 1..];
          if Lower(f.folders[i].name) == "deleted messages" {
            found := f.folders[i].name;
            break;
          }
        }
      }
      if found == "" { return None; }
      trashFolder := found;
      r := Some(trashFolder);
    }

    method DeleteAndLog(job: Job, a: Action, uid: Uid, place: string, moved: bool, counted: bool)
      returns (uid': Uid, moved': bool, stop: bool)
      modifies this`clock, this`trashFolder, client, logRepo, statsRepo
      ensures Exec(W(), uid', place, moved', true, stop)
           == PollerSpec.DeleteAndLog(o, c, job, Exec(old(W()), uid, place, moved, counted, false), a)
    {
      hide FindTrash, MoveOne, SelectBox, IncrementAll, StatKeys;
      uid', moved', stop := uid, moved, false;
      var trash := GetTrashFolder();
      match trash
      case None => LogAction(job, uid, place, counted, a, "error");
      case Some(folder) =>
        var same;
        uid', same, moved', stop := MoveAndFollow(job, a, folder, false, uid, place, moved, counted);
    }

    method TryReply(job: Job) returns (status: string)
      modifies this`clock, this`outbox, client, autoReplyRepo
      ensures (W(), status) == PollerSpec.TryReply(o, c, job, old(W()))
    {
      hide Disturb;
      if job.sender == c.account { return "skipped"; }
      var f := NextFate();
      client.Settle(f);
      var replied := autoReplyRepo.HasReplied(job.sender, f.day, f.readOk);
      SlotRow(autoReplyRepo.rows, job.sender, f.day);
      if replied == Ok(true) { return "skipped"; }
      var sent := Deliver(Reply, job.sender, f.day);
      if !sent { return "error"; }
      var g := NextFate();
      client.Settle(g);
      autoReplyRepo.RecordReply(job.sender, g.day, g.writeOk);
      status := "success";
    }

    method ReplyAndLog(job: Job, a: Action, uid: Uid, place: string, moved: bool, counted: bool)
      modifies this`clock, this`outbox, client, logRepo, statsRepo, autoReplyRepo
      ensures Exec(W(), uid, place, moved, true, false)
           == PollerSpec.ReplyAndLog(o, c, job, Exec(old(W()), uid, place, moved, counted, false), a)
    {
      hide PollerSpec.TryReply, IncrementAll, StatKeys;
      var status := TryReply(job);
      LogAction(job, uid, place, counted, a, status);
    }

    /** The switch: one turn of the loop of `executeActions`. */
    method Act(job: Job, a: Action, uid: Uid, place: string, moved: bool, counted: bool)
      returns (uid': Uid, place': string, moved': bool, counted': bool, stop: bool)
      modifies this`clock, this`outbox, this`trashFolder, client, logRepo, statsRepo, autoReplyRepo
      ensures Exec(W(), uid', place', moved', counted', stop)
           == PollerSpec.Act(o, c, job, Exec(old(W()), uid, place, moved, counted, false), a)
    {
      hide PollerSpec.MoveAndFollow, PollerSpec.StoreAndLog, PollerSpec.ForwardAndLog, PollerSpec.WebhookAndLog,
           PollerSpec.DeleteAndLog, PollerSpec.ReplyAndLog, IncrementAll, StatKeys, NamedFlag;
      uid', place', moved', counted', stop := uid, place, moved, counted, false;
      if a.kind == "move_to_folder" {
        if a.value == "" { return; }
        uid', place', moved', stop := MoveAndFollow(job, a, a.value, true, uid, place, moved, counted);
      } else if a.kind == "mark_as_read" {
        StoreAndLog(job, a, "\\Seen", true, uid, place, moved, counted);
      } else if a.kind == "mark_as_unread" {
        StoreAndLog(job, a, "\\Seen", false, uid, place, moved, counted);
      } else if a.kind == "set_flag" {
        if a.value == "" { return; }
        if a.value == "\\Deleted" {
          LogAction(job, uid, place, counted, a, "error");
        } else {
          StoreAndLog(job, a, a.value, true, uid, place, moved, counted);
        }
      } else if a.kind == "forward" {
        if a.value == "" { return; }
        ForwardAndLog(job, a, uid, place, moved, counted);
      } else if a.kind == "delete" {
        uid', moved', stop := DeleteAndLog(job, a, uid, place, moved, counted);
      } else if a.kind == "remove_flag" {
        var flag := NamedFlag(a.value);
        if flag.None? { return; }
        StoreAndLog(job, a, flag.value, false, uid, place, moved, counted);
      } else if a.kind == "auto_reply" {
        if a.value == "" || job.sender == "" { return; }
        ReplyAndLog(job, a, uid, place, moved, counted);
      } else if a.kind == "webhook" {
        if a.value == "" { return; }
        WebhookAndLog(job, a, uid, place, moved, counted);
      } else {
        return;
      }
      counted' := true;
    }

    method ExecuteActions(rule: Rule, uid: Uid, id: nat) returns (movedOut: bool)
      modifies this, client, logRepo, statsRepo, autoReplyRepo
      ensures (W(), movedOut) == PollerSpec.ExecuteActions(o, c, old(W()), rule, uid, id)
    {
      hide PollerSpec.Act;
      var job := JobFor(o, rule, id);
      var effectiveUid, destFolder, statsDone, stop := uid, "", false, false;
      movedOut := false;
      var i := 0;
      while i < |rule.actions| && !stop
        invariant 0 <= i <= |rule.actions|
        invariant jobs == old(jobs)
        invariant ActAll(o, c, job, Exec(W(), effectiveUid, destFolder, movedOut, statsDone, stop), rule.actions[i..])
               == ActAll(o, c, job, Start(old(W()), uid), rule.actions)
      {
        effectiveUid, destFolder, movedOut, statsDone, stop :=
          Act(job, rule.actions[i], effectiveUid, destFolder, movedOut, statsDone);
        i := i + 1;
      }
      jobs := jobs + [|logRepo.rows| - |old(logRepo.rows)|];
    }

    /** rules.Match: any number of body and header fetches, then its verdict. */
    method Match(uid: Uid, fetches: nat)
      modifies this`clock, client
      ensures W() == Peeks(o, old(W()), uid, fetches)
    {
      hide PeekOne;
      var n := fetches;
      while n > 0
        invariant Peeks(o, W(), uid, n) == Peeks(o, old(W()), uid, fetches)
      {
        var f := NextFate();
        client.PeekMessage(f, uid);
        n := n - 1;
      }
    }

    /** The lines the two loops share: fetch, match, act and mark what stayed as seen. */
    method HandleUid(rules: seq<Rule>, uid: Uid) returns (h: Handling)
      modifies this, client, logRepo, statsRepo, autoReplyRepo
      ensures (W(), h) == PollerSpec.HandleUid(o, c, rules, old(W()), uid)
    {
      hide FetchOne, Peeks, ActAll, StoreOne;
      var f := NextFate();
      var msg := client.FetchMessage(f, uid);
      if msg.None? { return FetchFailed; }
      Match(uid, f.peeks);
      match f.verdict
      case MatchError => return MatchFailed;
      case NoRule => return Unmatched;
      case MatchedRule(i) =>
        if i >= |rules| { return Unmatched; }
        var movedOut := ExecuteActions(rules[i], uid, msg.value);
        if !movedOut {
          var g := NextFate();
          var _ := client.StoreFlag(g, uid, "\\Seen", true);
        }
        h := Matched(|rules[i].actions|);
    }

    method RunTick(rules: seq<Rule>) returns (end: TickEnd, ghost handled: seq<Uid>)
      modifies this, client, logRepo, statsRepo, autoReplyRepo
      ensures Tick(W(), end, handled) == PollerSpec.RunTick(o, c, rules, old(W()))
    {
      hide SearchBox, PollerSpec.HandleUid;
      var skipUids: set<Uid> := {};
      var minUidFloor: nat := 0;
      var processed := 0;
      handled := [];
      while processed < c.batchSize
        invariant 0 <= processed <= c.batchSize
        invariant TickLoop(o, c, rules, W(), c.batchSize - processed, minUidFloor, skipUids, handled)
               == PollerSpec.RunTick(o, c, rules, old(W()))
      {
        var f := NextFate();
        var r := client.SearchMessages(f, o.wraps, c.source, minUidFloor);
        match r {
          case SearchError => return TickError, handled;
          case NoneFound => return TickDone, handled;
          case FoundUid(u) =>
            if u !in skipUids {
              if Next32(u) > minUidFloor { minUidFloor := Next32(u); }
              var h := HandleUid(rules, u);
              handled := handled + [u];
              if h.Unmatched? { skipUids := skipUids + {u}; }
            }
        }
        processed := processed + 1;
      }
      end := TickDone;
    }

    /** The loop of an apply, left after `turns` turns if it is still going on then; without the wrap of
        "n:*", which may keep it going for ever, 2^32 turns are enough for it to end. */
    method ApplyToFolder(rules: seq<Rule>, folder: string, limit: int, turns: nat)
      returns (processed: nat, matched: nat, errors: nat, actions: nat, ghost turn: ApplyTurn)
      modifies this, client, logRepo, statsRepo, autoReplyRepo
      ensures turn == PollerSpec.ApplyToFolder(o, c, rules, folder, limit, old(W()), turns)
      ensures turn.p.w == W()
      ensures (processed, matched, errors, actions) == (turn.p.processed, turn.p.matched, turn.p.errors, turn.p.actions)
    {
      hide SearchBox, PollerSpec.HandleUid, Next32, ApplyTurns, Tally;
      var max := if limit <= 0 || limit > 200 then 50 else limit;
      processed, matched, errors, actions := 0, 0, 0, 0;
      var minUid: nat := 0;
      ghost var p := FromTheStart(W());
      var left := turns;
      while processed < max && left > 0
        invariant p == Progress(W(), minUid, processed, matched, errors, actions, p.handled)
        invariant ApplyTurns(o, c, rules, folder, max, p, left)
               == PollerSpec.ApplyToFolder(o, c, rules, folder, limit, old(W()), turns)
        decreases left
      {
        OneTurn(o, c, rules, folder, max, p, left);
        var f := NextFate();
        var r := client.SearchMessages(f, o.wraps, folder, minUid);
        match r {
          case SearchError =>
            turn := ApplyEnd(p.(w := W()), true);
            return;
          case NoneFound =>
            turn := ApplyEnd(p.(w := W()), false);
            return;
          case FoundUid(u) =>
            var h := HandleUid(rules, u);
            match h {
              case FetchFailed => errors := errors + 1;
              case MatchFailed => errors := errors + 1;
              case Unmatched => processed := processed + 1;
              case Matched(n) => processed, matched, actions := processed + 1, matched + 1, actions + n;
            }
            minUid := Next32(u);
            Tallied(p, W(), u, h);
            p := Tally(p, W(), u, h);
        }
        left := left - 1;
      }
      OneTurn(o, c, rules, folder, max, p, left);
      turn := if processed >= max then ApplyEnd(p, false) else ApplyOn(p);
    }
  }
}
