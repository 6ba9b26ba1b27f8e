/** The statistics counters against the log: over whole runs their sums agree. */
module StatsProofs {
  import opened Imap
  import opened PollerSpec
  import opened RuleTypes

  function SumOf(rows: seq<StatRow>, category: string): nat {
    if rows == [] then 0
    else (if rows[0].category == category then rows[0].value else 0) + SumOf(rows[1..], category)
  }

  function ValueOf(rows: seq<StatRow>, category: string, key: string): nat {
    if rows == [] then 0
    else if rows[0].category == category && rows[0].key == key then rows[0].value
    else ValueOf(rows[1..], category, key)
  }

  /** The primary key of the table. */
  ghost predicate KeyedUniquely(rows: seq<StatRow>) {
    forall i, j :: 0 <= i < j < |rows| ==> (rows[i].category, rows[i].key) != (rows[j].category, rows[j].key)
  }

  /** An increment adds one to the named counter, nothing to any other, and keeps the primary key. */
  lemma {:induction false} IncrementMeaning(rows: seq<StatRow>, category: string, key: string, category': string,
                                            key': string)
    ensures var r := Increment(rows, category, key);
      && SumOf(r, category') == SumOf(rows, category') + (if category' == category then 1 else 0)
      && ValueOf(r, category', key')
           == ValueOf(rows, category', key') + (if (category', key') == (category, key) then 1 else 0)
  {
    if rows == [] {
    } else {
      var r := Increment(rows, category, key);
      IncrementMeaning(rows[1..], category, key, category', key');
      assert r[1..] == if rows[0].category == category && rows[0].key == key then rows[1..]
        else Increment(rows[1..], category, key);
    }
  }

  lemma {:induction false} IncrementKeys(rows: seq<StatRow>, category: string, key: string)
    requires KeyedUniquely(rows)
    ensures var r := Increment(rows, category, key);
      && KeyedUniquely(r)
      && (forall x <- r ::
          (x.category, x.key) == (category, key) || exists y <- rows :: (x.category, x.key) == (y.category, y.key))
  {
    if rows == [] || (rows[0].category == category && rows[0].key == key) {
    } else {
      IncrementKeys(rows[1..], category, key);
      var tail := Increment(rows[1..], category, key);
      forall j | 0 <= j < |tail| ensures (tail[j].category, tail[j].key) != (rows[0].category, rows[0].key) {
        assert tail[j] in tail;
        if (tail[j].category, tail[j].key) != (category, key) {
          var y :| y in rows[1..] && (tail[j].category, tail[j].key) == (y.category, y.key);
          var k :| 0 <= k < |rows[1..]| && rows[1..][k] == y;
          assert rows[k + 1] == y;
        }
      }
      forall x | x in Increment(rows, category, key)
        ensures (x.category, x.key) == (category, key) || exists y <- rows :: (x.category, x.key) == (y.category, y.key)
      {
        if x == rows[0] { assert x in rows; } else { assert x in tail; }
      }
    }
  }

  lemma {:induction false} IncrementAllKeys(rows: seq<StatRow>, keys: seq<(string, string)>)
    requires KeyedUniquely(rows)
    ensures KeyedUniquely(IncrementAll(rows, keys))
    decreases |keys|
  {
    if keys == [] {
    } else {
      IncrementKeys(rows, keys[0].0, keys[0].1);
      IncrementAllKeys(Increment(rows, keys[0].0, keys[0].1), keys[1..]);
    }
  }

  function CountCategory(keys: seq<(string, string)>, category: string): nat {
    if keys == [] then 0 else (if keys[0].0 == category then 1 else 0) + CountCategory(keys[1..], category)
  }

  function CountKey(keys: seq<(string, string)>, category: string, key: string): nat {
    if keys == [] then 0 else (if keys[0] == (category, key) then 1 else 0) + CountKey(keys[1..], category, key)
  }

  lemma {:induction false} IncrementAllMeaning(rows: seq<StatRow>, keys: seq<(string, string)>, category: string,
                                               key: string)
    ensures var r := IncrementAll(rows, keys);
      && SumOf(r, category) == SumOf(rows, category) + CountCategory(keys, category)
      && ValueOf(r, category, key) == ValueOf(rows, category, key) + CountKey(keys, category, key)
    decreases |keys|
  {
    if keys == [] {
    } else {
      IncrementMeaning(rows, keys[0].0, keys[0].1, category, key);
      IncrementAllMeaning(Increment(rows, keys[0].0, keys[0].1), keys[1..], category, key);
    }
  }

  lemma {:induction false} CountAppend(a: seq<(string, string)>, b: seq<(string, string)>, category: string,
                                       key: string)
    ensures CountCategory(a + b, category) == CountCategory(a, category) + CountCategory(b, category)
    ensures CountKey(a + b, category, key) == CountKey(a, category, key) + CountKey(b, category, key)
  {
    if a == [] {
      assert a + b == b;
    } else {
      assert (a + b)[1..] == a[1..] + b;
      CountAppend(a[1..], b, category, key);
    }
  }

  lemma CountPair(x: (string, string), y: (string, string), category: string, key: string)
    ensures CountCategory([x, y], category) == (if x.0 == category then 1 else 0) + (if y.0 == category then 1 else 0)
    ensures CountKey([x, y], category, key)
        == (if x == (category, key) then 1 else 0) + (if y == (category, key) then 1 else 0)
  {
    var none: seq<(string, string)> := [];
    assert [x, y][1..] == [y] && [y][1..] == none;
    assert CountCategory([y], category) == (if y.0 == category then 1 else 0) + CountCategory(none, category);
    assert CountKey([y], category, key) == (if y == (category, key) then 1 else 0) + CountKey(none, category, key);
    assert CountCategory([x, y], category) == (if x.0 == category then 1 else 0) + CountCategory([y], category);
    assert CountKey([x, y], category, key) == (if x == (category, key) then 1 else 0) + CountKey([y], category, key);
  }

  // ----- the log as the independent account -----

  function CountKind(log: seq<LogRow>, kind: string): nat {
    if log == [] then 0
    else CountKind(log[..|log| - 1], kind) + (if log[|log| - 1].kind == kind then 1 else 0)
  }

  function CountStatus(log: seq<LogRow>, status: string): nat {
    if log == [] then 0
    else CountStatus(log[..|log| - 1], status) + (if log[|log| - 1].status == status then 1 else 0)
  }

  function CountMovesTo(log: seq<LogRow>, folder: string): nat {
    if log == [] then 0
    else CountMovesTo(log[..|log| - 1], folder)
         + (if log[|log| - 1].kind == "move_to_folder" && log[|log| - 1].value == folder then 1 else 0)
  }

  /** Messages with at least one log row. */
  function CountLogged(jobs: seq<int>): nat {
    if jobs == [] then 0
    else CountLogged(jobs[..|jobs| - 1]) + (if jobs[|jobs| - 1] > 0 then 1 else 0)
  }

  ghost predicate Agree(stats: seq<StatRow>, log: seq<LogRow>) {
    && KeyedUniquely(stats)
    && SumOf(stats, "rule_hit") == ValueOf(stats, "total", "processed")
    && SumOf(stats, "daily") == ValueOf(stats, "total", "processed")
    && SumOf(stats, "weekly") == ValueOf(stats, "total", "processed")
    && SumOf(stats, "action") == |log|
    && SumOf(stats, "status") == |log|
    && SumOf(stats, "folder") == ValueOf(stats, "action", "move_to_folder")
    && (forall k :: ValueOf(stats, "action", k) == CountKind(log, k))
    && (forall k :: ValueOf(stats, "status", k) == CountStatus(log, k))
    && (forall k :: k != "" ==> ValueOf(stats, "folder", k) == CountMovesTo(log, k))
  }

  /** Between two actions: `total` is the counter when the list began, `rows` the log then. */
  ghost predicate Booked(e: Exec, total: nat, rows: nat) {
    && Agree(e.w.stats, e.w.log)
    && ValueOf(e.w.stats, "total", "processed") == total + (if e.counted then 1 else 0)
    && |e.w.log| >= rows
    && e.counted == (|e.w.log| > rows)
  }

  function MessageKeys(o: Oracle, job: Job, e: Exec): seq<(string, string)> {
    var today := Now(o, e.w).day;
    [("total", "processed"), ("rule_hit", job.rule.name)]
    + (if job.sender != "" then [("sender", job.sender)] else [])
    + [("daily", o.dayKey(today)), ("weekly", o.weekKey(today))]
  }

  function ActionKeys(a: Action, status: string): seq<(string, string)> {
    [("action", a.kind), ("status", status)]
    + (if a.kind == "move_to_folder" && a.value != "" then [("folder", a.value)] else [])
  }

  lemma MessageKeysCount(o: Oracle, job: Job, e: Exec, category: string, key: string)
    ensures CountCategory(MessageKeys(o, job, e), category) ==
            (if category in {"total", "rule_hit", "daily", "weekly"} then 1
             else if category == "sender" && job.sender != "" then 1 else 0)
    ensures CountKey(MessageKeys(o, job, e), "total", "processed") == 1
    ensures category in {"action", "status", "folder"} ==> CountKey(MessageKeys(o, job, e), category, key) == 0
  {
    var today := Now(o, e.w).day;
    var a := [("total", "processed"), ("rule_hit", job.rule.name)];
    var b := if job.sender != "" then [("sender", job.sender)] else [];
    var d := [("daily", o.dayKey(today)), ("weekly", o.weekKey(today))];
    CountAppend(a + b, d, category, key);
    CountAppend(a, b, category, key);
    CountAppend(a + b, d, "total", "processed");
    CountAppend(a, b, "total", "processed");
    CountPair(a[0], a[1], category, key);
    CountPair(d[0], d[1], category, key);
    CountPair(a[0], a[1], "total", "processed");
    CountPair(d[0], d[1], "total", "processed");
  }

  lemma ActionKeysCount(a: Action, status: string, category: string, key: string)
    ensures CountCategory(ActionKeys(a, status), category) ==
            (if category in {"action", "status"} then 1
             else if category == "folder" && a.kind == "move_to_folder" && a.value != "" then 1 else 0)
    ensures CountKey(ActionKeys(a, status), category, key) ==
            (if (category, key) in {("action", a.kind), ("status", status)} then 1
             else if category == "folder" && a.kind == "move_to_folder" && a.value != "" && key == a.value then 1
                  else 0)
  {
    var x := [("action", a.kind), ("status", status)];
    var y := if a.kind == "move_to_folder" && a.value != "" then [("folder", a.value)] else [];
    CountAppend(x, y, category, key);
    CountPair(x[0], x[1], category, key);
  }

  /** What one log call adds to one counter. */
  lemma LogActionCounters(o: Oracle, c: Config, job: Job, e: Exec, uid: Uid, a: Action, status: string,
                          category: string, key: string)
    ensures var r := LogAction(o, c, job, e, uid, a, status);
      && SumOf(r.w.stats, category) == SumOf(e.w.stats, category)
         + (if !e.counted then CountCategory(MessageKeys(o, job, e), category) else 0)
         + CountCategory(ActionKeys(a, status), category)
      && ValueOf(r.w.stats, category, key) == ValueOf(e.w.stats, category, key)
         + (if !e.counted then CountKey(MessageKeys(o, job, e), category, key) else 0)
         + CountKey(ActionKeys(a, status), category, key)
  {
    var keys := StatKeys(o, job, e.w, e.counted, a, status);
    var first := if e.counted then [] else MessageKeys(o, job, e);
    assert keys == first + ActionKeys(a, status);
    IncrementAllMeaning(e.w.stats, keys, category, key);
    CountAppend(first, ActionKeys(a, status), category, key);
  }

  lemma CountRow(log: seq<LogRow>, row: LogRow, k: string)
    ensures CountKind(log + [row], k) == CountKind(log, k) + (if row.kind == k then 1 else 0)
    ensures CountStatus(log + [row], k) == CountStatus(log, k) + (if row.status == k then 1 else 0)
    ensures CountMovesTo(log + [row], k) ==
            CountMovesTo(log, k) + (if row.kind == "move_to_folder" && row.value == k then 1 else 0)
  {
    assert (log + [row])[..|log|] == log;
  }

  lemma LogActionCounts(o: Oracle, c: Config, job: Job, e: Exec, uid: Uid, a: Action, status: string, k: string)
    requires a.kind == "move_to_folder" ==> a.value != ""
    ensures var r := LogAction(o, c, job, e, uid, a, status).w.stats;
      var s := e.w.stats;
      var once := if e.counted then 0 else 1;
      && ValueOf(r, "total", "processed") == ValueOf(s, "total", "processed") + once
      && SumOf(r, "rule_hit") == SumOf(s, "rule_hit") + once
      && SumOf(r, "daily") == SumOf(s, "daily") + once
      && SumOf(r, "weekly") == SumOf(s, "weekly") + once
      && SumOf(r, "action") == SumOf(s, "action") + 1
      && SumOf(r, "status") == SumOf(s, "status") + 1
      && SumOf(r, "folder") == SumOf(s, "folder") + (if a.kind == "move_to_folder" then 1 else 0)
      && ValueOf(r, "action", k) == ValueOf(s, "action", k) + (if k == a.kind then 1 else 0)
      && ValueOf(r, "status", k) == ValueOf(s, "status", k) + (if k == status then 1 else 0)
      && ValueOf(r, "folder", k)
           == ValueOf(s, "folder", k) + (if a.kind == "move_to_folder" && k == a.value then 1 else 0)
  {
    hide LogAction, IncrementAll, StatKeys, MessageKeys, ActionKeys, SumOf, ValueOf, CountCategory, CountKey;
    Counters(o, c, job, e, uid, a, status, "total", "processed");
    Counters(o, c, job, e, uid, a, status, "rule_hit", k);
    Counters(o, c, job, e, uid, a, status, "daily", k);
    Counters(o, c, job, e, uid, a, status, "weekly", k);
    Counters(o, c, job, e, uid, a, status, "action", k);
    Counters(o, c, job, e, uid, a, status, "status", k);
    Counters(o, c, job, e, uid, a, status, "folder", k);
  }

  lemma Counters(o: Oracle, c: Config, job: Job, e: Exec, uid: Uid, a: Action, status: string, category: string,
                 key: string)
    ensures var r := LogAction(o, c, job, e, uid, a, status).w.stats;
      var s := e.w.stats;
      var once := if e.counted then 0 else 1;
      && (category in {"rule_hit", "daily", "weekly"} ==> SumOf(r, category) == SumOf(s, category) + once)
      && (category in {"action", "status"} ==> SumOf(r, category) == SumOf(s, category) + 1)
      && (category == "folder"
          ==> SumOf(r, category) == SumOf(s, category) + (if a.kind == "move_to_folder" && a.value != "" then 1 else 0))
      && ((category, key) == ("total", "processed") ==> ValueOf(r, category, key) == ValueOf(s, category, key) + once)
      && (category == "action"
          ==> ValueOf(r, category, key) == ValueOf(s, category, key) + (if key == a.kind then 1 else 0))
      && (category == "status"
          ==> ValueOf(r, category, key) == ValueOf(s, category, key) + (if key == status then 1 else 0))
      && (category == "folder" ==> ValueOf(r, category, key) == ValueOf(s, category, key)
                                   + (if a.kind == "move_to_folder" && a.value != "" && key == a.value then 1 else 0))
  {
    LogActionCounters(o, c, job, e, uid, a, status, category, key);
    MessageKeysCount(o, job, e, category, key);
    ActionKeysCount(a, status, category, key);
    hide LogAction, IncrementAll, StatKeys, MessageKeys, ActionKeys, SumOf, ValueOf, CountCategory, CountKey;
  }

  lemma LogActionBooked(o: Oracle, c: Config, job: Job, e: Exec, uid: Uid, a: Action, status: string, total: nat,
                        rows: nat)
    requires Booked(e, total, rows)
    requires a.kind == "move_to_folder" ==> a.value != ""
    ensures Booked(LogAction(o, c, job, e, uid, a, status), total, rows)
  {
    hide IncrementAll, StatKeys, SumOf, ValueOf, CountKind, CountStatus, CountMovesTo, KeyedUniquely;
    var r := LogAction(o, c, job, e, uid, a, status);
    var row := r.w.log[|e.w.log|];
    LogActionCounts(o, c, job, e, uid, a, status, "move_to_folder");
    IncrementAllKeys(e.w.stats, StatKeys(o, job, e.w, e.counted, a, status));
    forall k ensures ValueOf(r.w.stats, "action", k) == CountKind(r.w.log, k) {
      CountRow(e.w.log, row, k);
      LogActionCounts(o, c, job, e, uid, a, status, k);
    }
    forall k ensures ValueOf(r.w.stats, "status", k) == CountStatus(r.w.log, k) {
      CountRow(e.w.log, row, k);
      LogActionCounts(o, c, job, e, uid, a, status, k);
    }
    forall k | k != "" ensures ValueOf(r.w.stats, "folder", k) == CountMovesTo(r.w.log, k) {
      CountRow(e.w.log, row, k);
      LogActionCounts(o, c, job, e, uid, a, status, k);
    }
  }

  lemma MoveAndFollowBooked(o: Oracle, c: Config, job: Job, e: Exec, a: Action, dest: string, relabel: bool, total: nat,
                            rows: nat)
    requires Booked(e, total, rows)
    requires a.kind == "move_to_folder" ==> a.value != ""
    ensures var r := MoveAndFollow(o, c, job, e, a, dest, relabel);
      Booked(r, total, rows) && r.w.jobs == e.w.jobs
  {
    hide MoveOne, SelectBox, IncrementAll, StatKeys, Agree, ValueOf;
    var (box, reply) := MoveOne(e.w.box, Now(o, e.w), e.uid, dest);
    var e1 := e.(w := After(e.w, box));
    LogActionBooked(o, c, job, e1, e.uid, a, Status(reply.MovedTo?), total, rows);
  }

  lemma StoreAndLogBooked(o: Oracle, c: Config, job: Job, e: Exec, a: Action, flag: string, add: bool, total: nat,
                          rows: nat)
    requires Booked(e, total, rows)
    requires a.kind != "move_to_folder"
    ensures var r := StoreAndLog(o, c, job, e, a, flag, add);
      Booked(r, total, rows) && r.w.jobs == e.w.jobs
  {
    hide StoreOne, IncrementAll, StatKeys, Agree, ValueOf;
    var (box, ok) := StoreOne(e.w.box, Now(o, e.w), e.uid, flag, add);
    LogActionBooked(o, c, job, e.(w := After(e.w, box)), e.uid, a, Status(ok), total, rows);
  }

  lemma ForwardAndLogBooked(o: Oracle, c: Config, job: Job, e: Exec, a: Action, total: nat, rows: nat)
    requires Booked(e, total, rows)
    requires a.kind != "move_to_folder"
    ensures var r := ForwardAndLog(o, c, job, e, a);
      Booked(r, total, rows) && r.w.jobs == e.w.jobs
  {
    hide RawOne, Disturb, IncrementAll, StatKeys, Agree, ValueOf;
    var (box, ok) := RawOne(e.w.box, Now(o, e.w), e.uid);
    var e1 := e.(w := After(e.w, box));
    if !ok {
      LogActionBooked(o, c, job, e1, e.uid, a, "error", total, rows);
    } else {
      var (w2, sent) := Deliver(o, e1.w, Forward, a.value, 0);
      LogActionBooked(o, c, job, e1.(w := w2), e.uid, a, Status(sent), total, rows);
    }
  }

  lemma WebhookAndLogBooked(o: Oracle, c: Config, job: Job, e: Exec, a: Action, total: nat, rows: nat)
    requires Booked(e, total, rows)
    requires a.kind != "move_to_folder"
    ensures var r := WebhookAndLog(o, c, job, e, a);
      Booked(r, total, rows) && r.w.jobs == e.w.jobs
  {
    hide Disturb, IncrementAll, StatKeys, Agree, ValueOf;
    var (w1, sent) := Deliver(o, e.w, Webhook, a.value, 0);
    LogActionBooked(o, c, job, e.(w := w1), e.uid, a, Status(sent), total, rows);
  }

  lemma DeleteAndLogBooked(o: Oracle, c: Config, job: Job, e: Exec, a: Action, total: nat, rows: nat)
    requires Booked(e, total, rows)
    requires a.kind != "move_to_folder"
    ensures var r := DeleteAndLog(o, c, job, e, a);
      Booked(r, total, rows) && r.w.jobs == e.w.jobs
  {
    hide Disturb, IncrementAll, StatKeys, Agree, ValueOf, MoveAndFollow;
    var (w1, trash) := FindTrash(o, e.w);
    var e1 := e.(w := w1);
    if trash.Some? {
      MoveAndFollowBooked(o, c, job, e1, a, trash.value, false, total, rows);
    } else {
      LogActionBooked(o, c, job, e1, e.uid, a, "error", total, rows);
    }
  }

  lemma ReplyAndLogBooked(o: Oracle, c: Config, job: Job, e: Exec, a: Action, total: nat, rows: nat)
    requires Booked(e, total, rows)
    requires a.kind != "move_to_folder"
    ensures var r := ReplyAndLog(o, c, job, e, a);
      Booked(r, total, rows) && r.w.jobs == e.w.jobs
  {
    hide Disturb, IncrementAll, StatKeys, Agree, ValueOf;
    var (w, status) := TryReply(o, c, job, e.w);
    LogActionBooked(o, c, job, e.(w := w), e.uid, a, status, total, rows);
  }

  lemma ActBooked(o: Oracle, c: Config, job: Job, e: Exec, a: Action, total: nat, rows: nat)
    requires Booked(e, total, rows)
    ensures var r := Act(o, c, job, e, a); Booked(r, total, rows) && r.w.jobs == e.w.jobs
  {
    hide MoveAndFollow, StoreAndLog, ForwardAndLog, WebhookAndLog, DeleteAndLog, ReplyAndLog, NamedFlag, Agree, ValueOf,
         IncrementAll, StatKeys;
    if a.kind == "move_to_folder" {
      if a.value != "" { MoveAndFollowBooked(o, c, job, e, a, a.value, true, total, rows); }
    } else if a.kind == "mark_as_read" {
      StoreAndLogBooked(o, c, job, e, a, "\\Seen", true, total, rows);
    } else if a.kind == "mark_as_unread" {
      StoreAndLogBooked(o, c, job, e, a, "\\Seen", false, total, rows);
    } else if a.kind == "set_flag" {
      if a.value == "\\Deleted" {
        LogActionBooked(o, c, job, e, e.uid, a, "error", total, rows);
      } else if a.value != "" {
        StoreAndLogBooked(o, c, job, e, a, a.value, true, total, rows);
      }
    } else if a.kind == "forward" {
      ForwardAndLogBooked(o, c, job, e, a, total, rows);
    } else if a.kind == "delete" {
      DeleteAndLogBooked(o, c, job, e, a, total, rows);
    } else if a.kind == "remove_flag" {
      if NamedFlag(a.value).Some? {
        StoreAndLogBooked(o, c, job, e, a, NamedFlag(a.value).value, false, total, rows);
      }
    } else if a.kind == "auto_reply" {
      ReplyAndLogBooked(o, c, job, e, a, total, rows);
    } else if a.kind == "webhook" {
      WebhookAndLogBooked(o, c, job, e, a, total, rows);
    }
  }

  lemma {:induction false} ActAllBooked(o: Oracle, c: Config, job: Job, e: Exec, actions: seq<Action>, total: nat,
                                        rows: nat)
    requires Booked(e, total, rows)
    ensures var r := ActAll(o, c, job, e, actions); Booked(r, total, rows) && r.w.jobs == e.w.jobs
    decreases |actions|
  {
    hide Act, Booked;
    if actions == [] || e.stopped {
    } else {
      ActBooked(o, c, job, e, actions[0], total, rows);
      ActAllBooked(o, c, job, Act(o, c, job, e, actions[0]), actions[1..], total, rows);
    }
  }

  /** The counters, the log and the history of action lists tell the same story. */
  ghost predicate Ledger(w: World) {
    && Agree(w.stats, w.log)
    && ValueOf(w.stats, "total", "processed") == CountLogged(w.jobs)
  }

  lemma ExecuteActionsLedger(o: Oracle, c: Config, w: World, rule: Rule, uid: Uid, id: nat)
    requires Ledger(w)
    ensures Ledger(ExecuteActions(o, c, w, rule, uid, id).0)
  {
    hide ActAll, Agree, ValueOf;
    var job := JobFor(o, rule, id);
    var total := ValueOf(w.stats, "total", "processed");
    ActAllBooked(o, c, job, Start(w, uid), rule.actions, total, |w.log|);
    var e := ActAll(o, c, job, Start(w, uid), rule.actions);
    var grew := |e.w.log| - |w.log|;
    assert (w.jobs + [grew])[..|w.jobs|] == w.jobs;
  }

  /** Same tables, whatever happened to the mailbox. */
  predicate SameBooks(w: World, v: World) {
    v.stats == w.stats && v.log == w.log && v.jobs == w.jobs
  }

  lemma {:induction false} PeeksBooks(o: Oracle, w: World, uid: Uid, n: nat)
    ensures SameBooks(w, Peeks(o, w, uid, n))
    decreases n
  {
    hide PeekOne;
    if n == 0 {
    } else {
      PeeksBooks(o, After(w, PeekOne(w.box, Now(o, w), uid)), uid, n - 1);
    }
  }

  lemma HandleUidLedger(o: Oracle, c: Config, rules: seq<Rule>, w: World, uid: Uid)
    requires Ledger(w)
    ensures Ledger(HandleUid(o, c, rules, w, uid).0)
  {
    hide FetchOne, Peeks, ExecuteActions, StoreOne, Agree, ValueOf, CountLogged;
    var f := Now(o, w);
    var (box, got) := FetchOne(w.box, f, uid);
    if got.Some? {
      var w1 := After(w, box);
      PeeksBooks(o, w1, uid, f.peeks);
      if f.verdict.MatchedRule? && f.verdict.index < |rules| {
        ExecuteActionsLedger(o, c, Peeks(o, w1, uid, f.peeks), rules[f.verdict.index], uid, got.value);
      }
    }
  }

  lemma {:induction false} TickLoopLedger(o: Oracle, c: Config, rules: seq<Rule>, w: World, turns: nat, floor: nat,
                                          skip: set<Uid>, handled: seq<Uid>)
    requires Ledger(w)
    ensures Ledger(TickLoop(o, c, rules, w, turns, floor, skip, handled).w)
    decreases turns
  {
    hide HandleUid, SearchBox, Agree, ValueOf, CountLogged;
    if turns == 0 {
    } else {
      var (box, reply) := SearchBox(w.box, Now(o, w), o.wraps, c.source, floor);
      var w1 := After(w, box);
      if reply.FoundUid? {
        var u := reply.uid;
        if u in skip {
          TickLoopLedger(o, c, rules, w1, turns - 1, floor, skip, handled);
        } else {
          HandleUidLedger(o, c, rules, w1, u);
          var floor' := if Next32(u) > floor then Next32(u) else floor;
          var (w2, h) := HandleUid(o, c, rules, w1, u);
          TickLoopLedger(o, c, rules, w2, turns - 1, floor', if h == Unmatched then skip + {u} else skip,
                         handled + [u]);
        }
      }
    }
  }

  lemma ApplyStepLedger(o: Oracle, c: Config, rules: seq<Rule>, folder: string, p: Progress)
    requires Ledger(p.w)
    ensures Ledger(ApplyStep(o, c, rules, folder, p).p.w)
  {
    hide HandleUid, SearchBox, Agree, ValueOf, CountLogged;
    var (box, reply) := SearchBox(p.w.box, Now(o, p.w), o.wraps, folder, p.minUid);
    if reply.FoundUid? {
      HandleUidLedger(o, c, rules, After(p.w, box), reply.uid);
    }
  }

  lemma {:induction false} ApplyTurnsLedger(o: Oracle, c: Config, rules: seq<Rule>, folder: string, limit: nat,
                                            p: Progress, turns: nat)
    requires Ledger(p.w)
    ensures Ledger(ApplyTurns(o, c, rules, folder, limit, p, turns).p.w)
    decreases turns
  {
    hide ApplyStep, Ledger;
    if p.processed >= limit || turns == 0 {
    } else {
      ApplyStepLedger(o, c, rules, folder, p);
      match ApplyStep(o, c, rules, folder, p)
      case ApplyEnd(_, _) =>
      case ApplyOn(q) =>
        ApplyTurnsLedger(o, c, rules, folder, limit, q, turns - 1);
    }
  }

  lemma {:induction false} RunAllLedger(o: Oracle, c: Config, w: World, calls: seq<Call>)
    requires Ledger(w)
    ensures Ledger(RunAll(o, c, w, calls))
    decreases |calls|
  {
    hide TickLoop, ApplyTurns, Agree, ValueOf, CountLogged;
    if calls == [] {
    } else {
      match calls[0] {
        case CallTick(rules) => TickLoopLedger(o, c, rules, w, c.batchSize, 0, {}, []);
        case CallApply(rules, folder, limit, turns) =>
          ApplyTurnsLedger(o, c, rules, folder, Limit(limit), FromTheStart(w), turns);
        case CallPrune(_) =>
      }
      RunAllLedger(o, c, Run(o, c, w, calls[0]), calls[1..]);
    }
  }

  /** Main result. From empty tables, after any run: the rule, day and week counters each sum to
      total/processed, which is the number of messages with at least one logged action; the action and
      status counters each sum to the number of log rows, and each agrees with the log key by key; the
      folder counters sum to the moves logged. */
  lemma CountersAgreeWithTheLog(o: Oracle, c: Config, w: World, calls: seq<Call>)
    requires w.stats == [] && w.log == [] && w.jobs == []
    ensures var v := RunAll(o, c, w, calls);
      && KeyedUniquely(v.stats)
      && SumOf(v.stats, "rule_hit") == CountLogged(v.jobs)
      && SumOf(v.stats, "daily") == CountLogged(v.jobs)
      && SumOf(v.stats, "weekly") == CountLogged(v.jobs)
      && ValueOf(v.stats, "total", "processed") == CountLogged(v.jobs)
      && SumOf(v.stats, "action") == |v.log| == SumOf(v.stats, "status")
      && SumOf(v.stats, "folder") == CountKind(v.log, "move_to_folder")
      && (forall k :: ValueOf(v.stats, "action", k) == CountKind(v.log, k))
      && (forall k :: ValueOf(v.stats, "status", k) == CountStatus(v.log, k))
      && (forall k :: k != "" ==> ValueOf(v.stats, "folder", k) == CountMovesTo(v.log, k))
  {
    hide RunAll;
    assert Agree([], []);
    RunAllLedger(o, c, w, calls);
  }
}
