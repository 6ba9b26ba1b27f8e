/**
 What internal/poller/poller.go does with its mailbox, its tables and its mail server, as functions on
 values. The class in PollerObjects.dfy is proved equal to these functions; AddressingProofs.dfy and the
 modules beside it prove what they mean.
*/
module PollerSpec {
  import opened Wrappers
  import opened Imap
  import opened Text
  import opened RuleTypes

  datatype Letter = Letter(sender: string, subject: string)

  /** Everything the poller does not decide itself. Interaction number k gets `fate(k)`. */
  datatype Oracle = Oracle(
    fate: nat -> Fate,
    wraps: bool,
    letter: nat -> Letter,
    dayKey: nat -> string,
    weekKey: nat -> string)

  datatype Config = Config(source: string, account: string, batchSize: nat)

  datatype LogRow = LogRow(
    uid: Uid, subject: string, sender: string, rule: string,
    kind: string, value: string, status: string, folder: string)

  datatype StatRow = StatRow(category: string, key: string, value: nat)

  datatype ThrottleRow = ThrottleRow(recipient: string, date: nat)

  datatype Medium = Reply | Forward | Webhook

  /** One attempt to send something, the interaction of that number; `checkDay` is the UTC day of the throttle check
      before it. */
  datatype Sent = Sent(medium: Medium, to: string, checkDay: nat, ok: bool, moment: nat)

  /** `jobs` is history: for each message an action list ran for, the number of log rows it wrote. */
  datatype World = World(
    box: Server,
    log: seq<LogRow>,
    stats: seq<StatRow>,
    throttle: set<ThrottleRow>,
    outbox: seq<Sent>,
    trash: string,
    jobs: seq<int>,
    clock: nat)

  // ----- the tables -----

  /** INSERT ... ON CONFLICT(category, key) DO UPDATE SET value = value + 1. */
  function Increment(rows: seq<StatRow>, category: string, key: string): seq<StatRow> {
    if rows == [] then [StatRow(category, key, 1)]
    else if rows[0].category == category && rows[0].key == key
    then [rows[0].(value := rows[0].value + 1)] + rows[1..]
    else [rows[0]] + Increment(rows[1..], category, key)
  }

  function IncrementAll(rows: seq<StatRow>, keys: seq<(string, string)>): seq<StatRow>
    decreases |keys|
  {
    if keys == [] then rows
    else IncrementAll(Increment(rows, keys[0].0, keys[0].1), keys[1..])
  }

  /** DELETE FROM auto_reply_log WHERE reply_date < cutoff. */
  function Prune(rows: set<ThrottleRow>, cutoff: nat): set<ThrottleRow> {
    set r | r in rows && cutoff <= r.date
  }

  // ----- one message -----

  /** The message an action list runs for. */
  datatype Job = Job(rule: Rule, sender: string, subject: string)

  /** The local variables of `executeActions`. */
  datatype Exec = Exec(w: World, uid: Uid, dest: string, moved: bool, counted: bool, stopped: bool)

  function Now(o: Oracle, w: World): Fate {
    o.fate(w.clock)
  }

  function After(w: World, box: Server): World {
    w.(box := box, clock := w.clock + 1)
  }

  /** The keys `logAction` increments: per message the first time, then per action. */
  function StatKeys(o: Oracle, job: Job, w: World, counted: bool, a: Action, status: string): seq<(string, string)> {
    var today := Now(o, w).day;
    (if counted then [] else
       [("total", "processed"), ("rule_hit", job.rule.name)]
       + (if job.sender != "" then [("sender", job.sender)] else [])
       + [("daily", o.dayKey(today)), ("weekly", o.weekKey(today))])
    + [("action", a.kind), ("status", status)]
    + (if a.kind == "move_to_folder" && a.value != "" then [("folder", a.value)] else [])
  }

  function Logged(o: Oracle, c: Config, job: Job, w: World, dest: string, counted: bool, uid: Uid, a: Action,
                  status: string): World {
    var row := LogRow(uid, job.subject, job.sender, job.rule.name, a.kind, a.value, status,
                      if dest != "" then dest else c.source);
    w.(log := w.log + [row], stats := IncrementAll(w.stats, StatKeys(o, job, w, counted, a, status)))
  }

  function LogAction(o: Oracle, c: Config, job: Job, e: Exec, uid: Uid, a: Action, status: string): Exec {
    e.(w := Logged(o, c, job, e.w, e.dest, e.counted, uid, a, status), counted := true)
  }

  function Status(ok: bool): string {
    if ok then "success" else "error"
  }

  /** MOVE, and after a move whose new UID is known, SELECT of the destination. `relabel` is true for
      move_to_folder, which from then on logs under the destination; "delete" does not. */
  function MoveAndFollow(o: Oracle, c: Config, job: Job, e: Exec, a: Action, dest: string, relabel: bool): Exec {
    var (box, reply) := MoveOne(e.w.box, Now(o, e.w), e.uid, dest);
    var e1 := e.(w := After(e.w, box));
    match reply
    case MoveError => LogAction(o, c, job, e1, e.uid, a, "error")
    case MoveUnknown => LogAction(o, c, job, e1, e.uid, a, "error").(stopped := true)
    case MovedTo(u) =>
      var e2 := LogAction(o, c, job, e1, e.uid, a, "success");
      e2.(w := After(e2.w, SelectBox(e2.w.box, Now(o, e2.w), dest)),
          uid := u,
          dest := if relabel then dest else e.dest,
          moved := true)
  }

  function StoreAndLog(o: Oracle, c: Config, job: Job, e: Exec, a: Action, flag: string, add: bool): Exec {
    var (box, ok) := StoreOne(e.w.box, Now(o, e.w), e.uid, flag, add);
    LogAction(o, c, job, e.(w := After(e.w, box)), e.uid, a, Status(ok))
  }

  /** A send through SMTP or HTTP: one interaction that leaves the mailbox to the others. */
  function Deliver(o: Oracle, w: World, medium: Medium, to: string, checkDay: nat): (World, bool) {
    var f := Now(o, w);
    (After(w, Disturb(w.box, f)).(outbox := w.outbox + [Sent(medium, to, checkDay, f.ok, w.clock)]), f.ok)
  }

  function ForwardAndLog(o: Oracle, c: Config, job: Job, e: Exec, a: Action): Exec {
    var (box, ok) := RawOne(e.w.box, Now(o, e.w), e.uid);
    var e1 := e.(w := After(e.w, box));
    if !ok then LogAction(o, c, job, e1, e.uid, a, "error")
    else
      var (w2, sent) := Deliver(o, e1.w, Forward, a.value, 0);
      LogAction(o, c, job, e1.(w := w2), e.uid, a, Status(sent))
  }

  function WebhookAndLog(o: Oracle, c: Config, job: Job, e: Exec, a: Action): Exec {
    var (w1, sent) := Deliver(o, e.w, Webhook, a.value, 0);
    LogAction(o, c, job, e.(w := w1), e.uid, a, Status(sent))
  }

  /** The first folder whose flags name \\Trash; "" if there is none, or it has no name. */
  function FlaggedTrash(folders: seq<FolderInfo>): string {
    if folders == [] then ""
    else if Contains(folders[0].flags, "\\Trash") then folders[0].name
    else FlaggedTrash(folders[1..])
  }

  /** The first folder called "Deleted Messages", in any case. */
  function NamedTrash(folders: seq<FolderInfo>): string {
    if folders == [] then ""
    else if Lower(folders[0].name) == "deleted messages" then folders[0].name
    else NamedTrash(folders[1..])
  }

  /** The trash folder of a listing, "" for none. */
  function TrashName(folders: seq<FolderInfo>): string {
    var flagged := FlaggedTrash(folders);
    if flagged != "" then flagged else NamedTrash(folders)
  }

  /** The cached trash folder, or the one a folder listing names. */
  function FindTrash(o: Oracle, w: World): (World, Option<string>) {
    if w.trash != "" then (w, Some(w.trash))
    else
      var f := Now(o, w);
      var w1 := After(w, Disturb(w.box, f));
      var found := if f.ok then TrashName(f.folders) else "";
      if found == "" then (w1, None) else (w1.(trash := found), Some(found))
  }

  function DeleteAndLog(o: Oracle, c: Config, job: Job, e: Exec, a: Action): Exec {
    var (w1, trash) := FindTrash(o, e.w);
    var e1 := e.(w := w1);
    match trash
    case None => LogAction(o, c, job, e1, e.uid, a, "error")
    case Some(folder) => MoveAndFollow(o, c, job, e1, a, folder, false)
  }

  function UpperChar(c: char): char {
    if 'a' <= c <= 'z' then c - 'a' + 'A' else c
  }

  /** The flag a remove_flag action names: a bare system flag gets its backslash and its capital, any
      other bare word is no flag. */
  function NamedFlag(v: string): Option<string> {
    if v == "" then None
    else if v[0] == '\\' then Some(v)
    else if Lower(v) in {"seen", "flagged", "answered", "draft"}
    then Some("\\" + [UpperChar(v[0])] + Lower(v[1..]))
    else None
  }

  /** HasReplied, then the send, then RecordReply; each reads the date of its own moment. The second
      result is the status to log. */
  function TryReply(o: Oracle, c: Config, job: Job, w: World): (World, string) {
    if job.sender == c.account then (w, "skipped")
    else
      var f := Now(o, w);
      var w1 := After(w, Disturb(w.box, f));
      if f.readOk && ThrottleRow(job.sender, f.day) in w.throttle then (w1, "skipped")
      else
        var (w2, sent) := Deliver(o, w1, Reply, job.sender, f.day);
        if !sent then (w2, "error")
        else (Record(o, w2, job.sender), "success")
  }

  function Record(o: Oracle, w: World, recipient: string): World {
    var f := Now(o, w);
    var v := After(w, Disturb(w.box, f));
    if f.writeOk then v.(throttle := v.throttle + {ThrottleRow(recipient, f.day)}) else v
  }

  function ReplyAndLog(o: Oracle, c: Config, job: Job, e: Exec, a: Action): Exec {
    var (w, status) := TryReply(o, c, job, e.w);
    LogAction(o, c, job, e.(w := w), e.uid, a, status)
  }

  /** One turn of the loop of `executeActions`. */
  function Act(o: Oracle, c: Config, job: Job, e: Exec, a: Action): Exec {
    if a.kind == "move_to_folder" then
      if a.value == "" then e else MoveAndFollow(o, c, job, e, a, a.value, true)
    else if a.kind == "mark_as_read" then StoreAndLog(o, c, job, e, a, "\\Seen", true)
    else if a.kind == "mark_as_unread" then StoreAndLog(o, c, job, e, a, "\\Seen", false)
    else if a.kind == "set_flag" then
      if a.value == "" then e
      else if a.value == "\\Deleted" then LogAction(o, c, job, e, e.uid, a, "error")
      else StoreAndLog(o, c, job, e, a, a.value, true)
    else if a.kind == "forward" then
      if a.value == "" then e else ForwardAndLog(o, c, job, e, a)
    else if a.kind == "delete" then DeleteAndLog(o, c, job, e, a)
    else if a.kind == "remove_flag" then
      match NamedFlag(a.value)
      case None => e
      case Some(flag) => StoreAndLog(o, c, job, e, a, flag, false)
    else if a.kind == "auto_reply" then
      if a.value == "" || job.sender == "" then e else ReplyAndLog(o, c, job, e, a)
    else if a.kind == "webhook" then
      if a.value == "" then e else WebhookAndLog(o, c, job, e, a)
    else e
  }

  function ActAll(o: Oracle, c: Config, job: Job, e: Exec, actions: seq<Action>): Exec
    decreases |actions|
  {
    if actions == [] || e.stopped then e
    else ActAll(o, c, job, Act(o, c, job, e, actions[0]), actions[1..])
  }

  function Start(w: World, uid: Uid): Exec {
    Exec(w, uid, "", false, false, false)
  }

  function JobFor(o: Oracle, rule: Rule, id: nat): Job {
    Job(rule, o.letter(id).sender, o.letter(id).subject)
  }

  function ExecuteActions(o: Oracle, c: Config, w: World, rule: Rule, uid: Uid, id: nat): (World, bool) {
    var e := ActAll(o, c, JobFor(o, rule, id), Start(w, uid), rule.actions);
    (e.w.(jobs := e.w.jobs + [|e.w.log| - |w.log|]), e.moved)
  }

  // ----- one UID -----

  function Peeks(o: Oracle, w: World, uid: Uid, n: nat): World
    decreases n
  {
    if n == 0 then w
    else Peeks(o, After(w, PeekOne(w.box, Now(o, w), uid)), uid, n - 1)
  }

  datatype Handling = FetchFailed | MatchFailed | Unmatched | Matched(actions: nat)

  /** Fetch, match, act, and the final \Seen on a message that stayed. */
  function HandleUid(o: Oracle, c: Config, rules: seq<Rule>, w: World, uid: Uid): (World, Handling) {
    var f := Now(o, w);
    var (box, got) := FetchOne(w.box, f, uid);
    var w1 := After(w, box);
    match got
    case None => (w1, FetchFailed)
    case Some(id) =>
      var w2 := Peeks(o, w1, uid, f.peeks);
      match f.verdict
      case MatchError => (w2, MatchFailed)
      case NoRule => (w2, Unmatched)
      case MatchedRule(i) =>
        if i >= |rules| then (w2, Unmatched)
        else (ActOnMatch(o, c, w2, rules[i], uid, id), Matched(|rules[i].actions|))
  }

  /** The actions of the matched rule, then \Seen on a message no action moved. */
  function ActOnMatch(o: Oracle, c: Config, w: World, rule: Rule, uid: Uid, id: nat): World {
    var (v, moved) := ExecuteActions(o, c, w, rule, uid, id);
    if moved then v else After(v, StoreOne(v.box, Now(o, v), uid, "\\Seen", true).0)
  }

  /** uint32 addition. */
  function Next32(uid: Uid): nat {
    (uid + 1) % 0x1_0000_0000
  }

  // ----- a tick -----

  datatype TickEnd = TickDone | TickError

  datatype Tick = Tick(w: World, end: TickEnd, handled: seq<Uid>)

  function TickLoop(o: Oracle, c: Config, rules: seq<Rule>, w: World, turns: nat, floor: nat,
                    skip: set<Uid>, handled: seq<Uid>): Tick
    decreases turns
  {
    if turns == 0 then Tick(w, TickDone, handled)
    else
      var (box, reply) := SearchBox(w.box, Now(o, w), o.wraps, c.source, floor);
      var w1 := After(w, box);
      match reply
      case SearchError => Tick(w1, TickError, handled)
      case NoneFound => Tick(w1, TickDone, handled)
      case FoundUid(u) =>
        if u in skip then TickLoop(o, c, rules, w1, turns - 1, floor, skip, handled)
        else
          var floor' := if Next32(u) > floor then Next32(u) else floor;
          var (w2, h) := HandleUid(o, c, rules, w1, u);
          TickLoop(o, c, rules, w2, turns - 1, floor', if h == Unmatched then skip + {u} else skip, handled + [u])
  }

  function RunTick(o: Oracle, c: Config, rules: seq<Rule>, w: World): Tick {
    TickLoop(o, c, rules, w, c.batchSize, 0, {}, [])
  }

  // ----- an apply -----

  datatype Progress = Progress(w: World, minUid: nat, processed: nat, matched: nat, errors: nat, actions: nat,
                               handled: seq<Uid>)

  datatype ApplyTurn = ApplyOn(p: Progress) | ApplyEnd(p: Progress, failed: bool)

  /** One turn of the loop of `ApplyToFolder`; without the wrap it goes on strictly above. */
  function ApplyStep(o: Oracle, c: Config, rules: seq<Rule>, folder: string, p: Progress): (t: ApplyTurn)
    ensures !o.wraps && t.ApplyOn? ==> p.minUid < t.p.minUid < 0x1_0000_0000
  {
    hide HandleUid, Disturb, SelectBox;
    var (box, reply) := SearchBox(p.w.box, Now(o, p.w), o.wraps, folder, p.minUid);
    var w1 := After(p.w, box);
    match reply
    case SearchError => ApplyEnd(p.(w := w1), true)
    case NoneFound => ApplyEnd(p.(w := w1), false)
    case FoundUid(u) =>
      var (w2, h) := HandleUid(o, c, rules, w1, u);
      ApplyOn(Tally(p, w2, u, h))
  }

  function Tally(p: Progress, w: World, uid: Uid, h: Handling): (q: Progress)
    ensures q.minUid == Next32(uid)
  {
    var q := p.(w := w, minUid := Next32(uid), handled := p.handled + [uid]);
    match h
    case FetchFailed => q.(errors := p.errors + 1)
    case MatchFailed => q.(errors := p.errors + 1)
    case Unmatched => q.(processed := p.processed + 1)
    case Matched(n) => q.(processed := p.processed + 1, matched := p.matched + 1, actions := p.actions + n)
  }

  /** The loop of `ApplyToFolder`, looked at for so many turns: it has ended, or it goes on. */
  function ApplyTurns(o: Oracle, c: Config, rules: seq<Rule>, folder: string, limit: nat, p: Progress,
                      turns: nat): ApplyTurn
    decreases turns
  {
    if p.processed >= limit then ApplyEnd(p, false)
    else if turns == 0 then ApplyOn(p)
    else match ApplyStep(o, c, rules, folder, p)
      case ApplyEnd(q, failed) => ApplyEnd(q, failed)
      case ApplyOn(q) => ApplyTurns(o, c, rules, folder, limit, q, turns - 1)
  }

  function Limit(limit: int): (r: nat)
    ensures 0 < r <= 200
  {
    if limit <= 0 || limit > 200 then 50 else limit
  }

  function FromTheStart(w: World): Progress {
    Progress(w, 0, 0, 0, 0, 0, [])
  }

  function ApplyToFolder(o: Oracle, c: Config, rules: seq<Rule>, folder: string, limit: int, w: World,
                         turns: nat): ApplyTurn {
    ApplyTurns(o, c, rules, folder, Limit(limit), FromTheStart(w), turns)
  }

  // ----- whole runs -----

  /** Each call brings the rules as they are then. An apply need not end on a server that wraps "n:*", so a
      run takes any number of turns of it; with enough of them it is the whole apply, if that ends. */
  datatype Call =
    | CallTick(rules: seq<Rule>)
    | CallApply(rules: seq<Rule>, folder: string, limit: int, turns: nat)
    | CallPrune(age: nat)

  function Run(o: Oracle, c: Config, w: World, call: Call): World {
    match call
    case CallTick(rules) => RunTick(o, c, rules, w).w
    case CallApply(rules, folder, limit, turns) => ApplyToFolder(o, c, rules, folder, limit, w, turns).p.w
    case CallPrune(age) =>
      var today := Now(o, w).day;
      w.(throttle := Prune(w.throttle, if age <= today then today - age else 0), clock := w.clock + 1)
  }

  function RunAll(o: Oracle, c: Config, w: World, calls: seq<Call>): World
    decreases |calls|
  {
    if calls == [] then w
    else RunAll(o, c, Run(o, c, w, calls[0]), calls[1..])
  }
}
