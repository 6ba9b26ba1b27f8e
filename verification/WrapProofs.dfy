/** What becomes of ticks and applies on a server that wraps "n:*", and exactly when they are safe from it. */
module WrapProofs {
  import opened Imap
  import opened PollerSpec
  import opened RuleTypes
  import opened Seqs
  import opened SessionProofs
  import opened ConservationProofs

  // ----- the UIDs such a server hands out -----

  function From(uids: set<nat>, floor: nat): set<nat> {
    set u | u in uids && floor <= u
  }

  /** The answer to a search at this floor. */
  function Answer(uids: set<nat>, floor: nat): (u: nat)
    requires uids != {}
    ensures u in uids
  {
    if From(uids, floor) != {} then Least(From(uids, floor)) else Greatest(uids)
  }

  /** The answers to n searches, each with its floor just above the answer before, while the folder stays as it is. */
  function Walk(uids: set<nat>, floor: nat, n: nat): (us: seq<nat>)
    requires uids != {}
    ensures |us| == n && forall u <- us :: u in uids
    decreases n
  {
    if n == 0 then [] else [Answer(uids, floor)] + Walk(uids, Answer(uids, floor) + 1, n - 1)
  }

  function Repeat(u: nat, n: nat): seq<nat> {
    if n == 0 then [] else [u] + Repeat(u, n - 1)
  }

  function Beyond(n: nat, k: nat): nat {
    if n > k then n - k else 0
  }

  lemma AnswerAbove(uids: set<nat>, floor: nat)
    requires From(uids, floor) != {}
    ensures Answer(uids, floor) == Least(From(uids, floor))
    ensures From(uids, Answer(uids, floor) + 1) == From(uids, floor) - {Answer(uids, floor)}
    ensures |From(uids, Answer(uids, floor) + 1)| == |From(uids, floor)| - 1
  {
    var u := Answer(uids, floor);
    assert From(uids, u + 1) == From(uids, floor) - {u};
  }

  lemma AnswerBeyond(uids: set<nat>, floor: nat)
    requires uids != {} && From(uids, floor) == {}
    ensures Answer(uids, floor) == Greatest(uids) && From(uids, Greatest(uids) + 1) == {}
  {
  }

  lemma RepeatUnfold(u: nat, n: nat)
    ensures Repeat(u, 0) == [] && (n > 0 ==> Repeat(u, n) == [u] + Repeat(u, n - 1))
  {
  }

  /** Once through the folder, and from then on the last UID again and again. */
  lemma {:induction false} WalkShape(uids: set<nat>, floor: nat, n: nat)
    requires uids != {}
    ensures var above := From(uids, floor);
      Walk(uids, floor, n) == Smallest(above, n) + Repeat(Greatest(uids), Beyond(n, |above|))
    decreases n
  {
    hide From, Answer, Smallest, Repeat;
    var above, last := From(uids, floor), Greatest(uids);
    SmallestUnfold(above, n);
    RepeatUnfold(last, n);
    if n == 0 {
      Nothing(Smallest(above, 0));
    } else if above == {} {
      AnswerBeyond(uids, floor);
      WalkShape(uids, last + 1, n - 1);
      SmallestUnfold({}, n - 1);
      Nothing(Repeat(last, n - 1));
      Nothing(Repeat(last, n));
    } else {
      var u := Answer(uids, floor);
      AnswerAbove(uids, floor);
      WalkShape(uids, u + 1, n - 1);
      Concat([u], Smallest(above - {u}, n - 1), Repeat(last, Beyond(n, |above|)));
    }
  }

  ghost predicate Once(us: seq<nat>) {
    forall i, j :: 0 <= i < j < |us| ==> us[i] != us[j]
  }

  lemma {:induction false} OnceFits(us: seq<nat>, uids: set<nat>)
    requires Once(us) && forall u <- us :: u in uids
    ensures |us| <= |uids|
    decreases |us|
  {
    if us == [] {
    } else {
      var rest := us[1..];
      forall u | u in rest ensures u in uids - {us[0]} {
        var k :| 0 <= k < |rest| && rest[k] == u;
        assert us[0] != us[k + 1];
      }
      OnceFits(rest, uids - {us[0]});
      assert |uids - {us[0]}| == |uids| - 1;
    }
  }

  lemma FromOfFolder(s: Server, folder: string, floor: nat)
    ensures UidsFrom(s, folder, floor) == From(Uids(s, folder), floor)
  {
    forall u | u in UidsFrom(s, folder, floor) ensures u in From(Uids(s, folder), floor) {
      var a :| a in s.mail && a.folder == folder && floor <= a.uid && a.uid as nat == u;
      assert u in Uids(s, folder);
    }
    forall u | u in From(Uids(s, folder), floor) ensures u in UidsFrom(s, folder, floor) {
      var a :| a in s.mail && a.folder == folder && a.uid as nat == u;
    }
  }

  // ----- a run in which nothing fails and the matcher always answers the same -----

  predicate SteadyFate(f: Fate, v: Verdict) {
    Peaceful(f) && f.ok && f.selectOk && f.verdict == v
  }

  ghost predicate Steady(o: Oracle, v: Verdict) {
    forall k: nat :: SteadyFate(o.fate(k), v)
  }

  /** The list never moves its message. */
  predicate StaysPut(actions: seq<Action>) {
    forall a <- actions :: !Relocates(a)
  }

  /** Either the matcher fails on every message, or the first rule matches and does not move it. */
  predicate LeavesMail(v: Verdict, rules: seq<Rule>) {
    v == MatchError || (v == MatchedRule(0) && rules != [] && StaysPut(rules[0].actions))
  }

  function Outgoing(a: Action): nat {
    if a.kind in {"forward", "webhook"} && a.value != "" then 1 else 0
  }

  /** How many forwards and webhooks one pass of the list sends. */
  function OutgoingAll(actions: seq<Action>): nat {
    if actions == [] then 0 else Outgoing(actions[0]) + OutgoingAll(actions[1..])
  }

  function CountSent(outbox: seq<Sent>): nat {
    if outbox == [] then 0
    else CountSent(outbox[..|outbox| - 1]) + (if outbox[|outbox| - 1].medium != Reply then 1 else 0)
  }

  lemma CountSentMore(outbox: seq<Sent>, s: Sent)
    ensures CountSent(outbox + [s]) == CountSent(outbox) + (if s.medium != Reply then 1 else 0)
  {
    assert (outbox + [s])[..|outbox|] == outbox;
  }

  /** The same mail in the same folders, the same mailbox selected. */
  ghost predicate SamePlaces(s: Server, t: Server) {
    t.mail.Keys == s.mail.Keys && t.next == s.next && t.selected == s.selected
  }

  /** The action left the message where it was and the list on it. */
  ghost predicate Stayed(e: Exec, r: Exec) {
    SamePlaces(e.w.box, r.w.box) && r.uid == e.uid && r.moved == e.moved && r.stopped == e.stopped
  }

  lemma DeliverStays(o: Oracle, w: World, medium: Medium, to: string, day: nat)
    requires Quiet(o)
    ensures var x := Deliver(o, w, medium, to, day).0;
      && x.box == w.box
      && CountSent(x.outbox) == CountSent(w.outbox) + (if medium != Reply then 1 else 0)
  {
    DisturbPeaceful(w.box, Now(o, w));
    CountSentMore(w.outbox, Sent(medium, to, day, Now(o, w).ok, w.clock));
  }

  lemma StoreStays(o: Oracle, c: Config, job: Job, e: Exec, a: Action, flag: string, add: bool)
    requires Quiet(o)
    ensures var r := StoreAndLog(o, c, job, e, a, flag, add);
      Stayed(e, r) && r.w.outbox == e.w.outbox
  {
    hide IncrementAll, StatKeys, Disturb;
    DisturbPeaceful(e.w.box, Now(o, e.w));
  }

  lemma ForwardStays(o: Oracle, c: Config, job: Job, e: Exec, a: Action)
    requires Quiet(o)
    ensures var r := ForwardAndLog(o, c, job, e, a);
      && Stayed(e, r)
      && (Now(o, e.w).ok && Present(e.w.box, e.uid) ==> CountSent(r.w.outbox) == CountSent(e.w.outbox) + 1)
  {
    hide IncrementAll, StatKeys, Disturb, Deliver, CountSent;
    DisturbPeaceful(e.w.box, Now(o, e.w));
    var (box, ok) := RawOne(e.w.box, Now(o, e.w), e.uid);
    DeliverStays(o, After(e.w, box), Forward, a.value, 0);
  }

  lemma WebhookStays(o: Oracle, c: Config, job: Job, e: Exec, a: Action)
    requires Quiet(o)
    ensures var r := WebhookAndLog(o, c, job, e, a);
      Stayed(e, r) && CountSent(r.w.outbox) == CountSent(e.w.outbox) + 1
  {
    hide IncrementAll, StatKeys, Disturb, Deliver, CountSent;
    DeliverStays(o, e.w, Webhook, a.value, 0);
  }

  lemma ReplyStays(o: Oracle, c: Config, job: Job, e: Exec, a: Action)
    requires Quiet(o)
    ensures var r := ReplyAndLog(o, c, job, e, a);
      Stayed(e, r) && CountSent(r.w.outbox) == CountSent(e.w.outbox)
  {
    hide IncrementAll, StatKeys, Disturb, Deliver, CountSent;
    if job.sender != c.account {
      var f := Now(o, e.w);
      DisturbPeaceful(e.w.box, f);
      var w1 := After(e.w, Disturb(e.w.box, f));
      DeliverStays(o, w1, Reply, job.sender, f.day);
      var w2 := Deliver(o, w1, Reply, job.sender, f.day).0;
      DisturbPeaceful(w2.box, Now(o, w2));
    }
  }

  predicate Relocates(a: Action) {
    a.kind == "move_to_folder" || a.kind == "delete"
  }

  predicate Flags(a: Action) {
    a.kind in {"mark_as_read", "mark_as_unread", "set_flag", "remove_flag"}
  }

  predicate Sends(a: Action) {
    a.kind in {"forward", "auto_reply", "webhook"}
  }

  /** Whether or not the action's commands fail, except for the one a forward begins with. */
  ghost predicate SentOut(o: Oracle, e: Exec, r: Exec, a: Action) {
    Now(o, e.w).ok && Present(e.w.box, e.uid) ==> CountSent(r.w.outbox) == CountSent(e.w.outbox) + Outgoing(a)
  }

  lemma FlagActStays(o: Oracle, c: Config, job: Job, e: Exec, a: Action)
    requires Quiet(o) && Flags(a)
    ensures Stayed(e, Act(o, c, job, e, a)) && SentOut(o, e, Act(o, c, job, e, a), a)
  {
    hide StoreAndLog, IncrementAll, StatKeys, NamedFlag, CountSent, Quiet;
    StoreStays(o, c, job, e, a, "\\Seen", true);
    StoreStays(o, c, job, e, a, "\\Seen", false);
    StoreStays(o, c, job, e, a, a.value, true);
    if NamedFlag(a.value).Some? { StoreStays(o, c, job, e, a, NamedFlag(a.value).value, false); }
  }

  lemma SendActStays(o: Oracle, c: Config, job: Job, e: Exec, a: Action)
    requires Quiet(o) && Sends(a)
    ensures Stayed(e, Act(o, c, job, e, a)) && SentOut(o, e, Act(o, c, job, e, a), a)
  {
    hide ForwardAndLog, ReplyAndLog, WebhookAndLog, CountSent, Quiet;
    if a.kind == "forward" {
      ForwardStays(o, c, job, e, a);
    } else if a.kind == "auto_reply" {
      ReplyStays(o, c, job, e, a);
    } else {
      WebhookStays(o, c, job, e, a);
    }
  }

  lemma OtherActStays(o: Oracle, c: Config, job: Job, e: Exec, a: Action)
    requires !Relocates(a) && !Flags(a) && !Sends(a)
    ensures Stayed(e, Act(o, c, job, e, a)) && SentOut(o, e, Act(o, c, job, e, a), a)
  {
  }

  lemma ActStays(o: Oracle, c: Config, job: Job, e: Exec, a: Action)
    requires Quiet(o) && !Relocates(a)
    ensures Stayed(e, Act(o, c, job, e, a)) && SentOut(o, e, Act(o, c, job, e, a), a)
  {
    hide *;
    if Flags(a) {
      FlagActStays(o, c, job, e, a);
    } else if Sends(a) {
      SendActStays(o, c, job, e, a);
    } else {
      OtherActStays(o, c, job, e, a);
    }
  }

  lemma SteadyNow(o: Oracle, v: Verdict, w: World)
    requires Steady(o, v)
    ensures SteadyFate(Now(o, w), v) && Quiet(o)
  {
  }

  lemma {:induction false} ActAllStays(o: Oracle, v: Verdict, c: Config, job: Job, e: Exec, actions: seq<Action>)
    requires Steady(o, v) && Present(e.w.box, e.uid) && StaysPut(actions) && !e.stopped
    ensures var r := ActAll(o, c, job, e, actions);
      Stayed(e, r) && CountSent(r.w.outbox) == CountSent(e.w.outbox) + OutgoingAll(actions)
    decreases |actions|
  {
    hide Act, CountSent, Steady, Outgoing;
    if actions == [] {
    } else {
      assert actions[0] in actions;
      SteadyNow(o, v, e.w);
      ActStays(o, c, job, e, actions[0]);
      ActAllStays(o, v, c, job, Act(o, c, job, e, actions[0]), actions[1..]);
    }
  }

  lemma {:induction false} PeeksStay(o: Oracle, w: World, uid: Uid, n: nat)
    requires Quiet(o)
    ensures SamePlaces(w.box, Peeks(o, w, uid, n).box) && Peeks(o, w, uid, n).outbox == w.outbox
    decreases n
  {
    if n == 0 {
    } else {
      DisturbPeaceful(w.box, Now(o, w));
      PeeksStay(o, After(w, PeekOne(w.box, Now(o, w), uid)), uid, n - 1);
    }
  }

  /** What handling one UID comes to in such a run. */
  function HandledAs(v: Verdict, rules: seq<Rule>): Handling
    requires LeavesMail(v, rules)
  {
    if v == MatchError then MatchFailed else Matched(|rules[0].actions|)
  }

  function SentEach(v: Verdict, rules: seq<Rule>): nat
    requires LeavesMail(v, rules)
  {
    if v == MatchError then 0 else OutgoingAll(rules[0].actions)
  }

  lemma HandleStays(o: Oracle, v: Verdict, c: Config, rules: seq<Rule>, w: World, uid: Uid)
    requires Steady(o, v) && LeavesMail(v, rules) && Present(w.box, uid)
    ensures var (x, h) := HandleUid(o, c, rules, w, uid);
      && h == HandledAs(v, rules) && SamePlaces(w.box, x.box)
      && CountSent(x.outbox) == CountSent(w.outbox) + SentEach(v, rules)
  {
    hide Peeks, ActAll, CountSent, OutgoingAll, StaysPut, Disturb;
    var f := Now(o, w);
    assert SteadyFate(o.fate(w.clock), v);
    DisturbPeaceful(w.box, f);
    var w1 := After(w, FetchOne(w.box, f, uid).0);
    PeeksStay(o, w1, uid, f.peeks);
    var w2 := Peeks(o, w1, uid, f.peeks);
    if v != MatchError { ActOnMatchStays(o, v, c, rules[0], w2, uid, w.box.mail[Addr(w.box.selected.value, uid)].id); }
  }

  lemma ActOnMatchStays(o: Oracle, v: Verdict, c: Config, rule: Rule, w: World, uid: Uid, id: nat)
    requires Steady(o, v) && StaysPut(rule.actions) && Present(w.box, uid)
    ensures var x := ActOnMatch(o, c, w, rule, uid, id);
      SamePlaces(w.box, x.box) && CountSent(x.outbox) == CountSent(w.outbox) + OutgoingAll(rule.actions)
  {
    hide ActAll, CountSent, OutgoingAll, StaysPut, Disturb;
    var job := JobFor(o, rule, id);
    ActAllStays(o, v, c, job, Start(w, uid), rule.actions);
    var e := ActAll(o, c, job, Start(w, uid), rule.actions);
    assert SteadyFate(o.fate(e.w.clock), v);
    DisturbPeaceful(e.w.box, Now(o, e.w));
  }

  // ----- turn by turn -----

  ghost predicate Stocked(w: World, folder: string, uids: set<nat>) {
    uids != {} && folder in w.box.next && Uids(w.box, folder) == uids
  }

  lemma SamePlacesSameUids(s: Server, t: Server, folder: string)
    requires SamePlaces(s, t)
    ensures Uids(t, folder) == Uids(s, folder)
  {
  }

  /** One search and what follows it. */
  lemma SteadyTurn(o: Oracle, v: Verdict, c: Config, rules: seq<Rule>, folder: string, w: World, floor: nat,
                   uids: set<nat>)
    requires Steady(o, v) && LeavesMail(v, rules) && o.wraps && Stocked(w, folder, uids)
    ensures var (box, reply) := SearchBox(w.box, Now(o, w), o.wraps, folder, floor);
      && reply.FoundUid? && reply.uid as nat == Answer(uids, floor)
      && var (x, h) := HandleUid(o, c, rules, After(w, box), reply.uid);
        && h == HandledAs(v, rules) && Stocked(x, folder, uids)
        && CountSent(x.outbox) == CountSent(w.outbox) + SentEach(v, rules)
  {
    hide HandleUid, CountSent, OutgoingAll, StaysPut, Disturb, Hit;
    assert SteadyFate(o.fate(w.clock), v);
    DisturbPeaceful(w.box, Now(o, w));
    var t := SelectBox(w.box, Now(o, w), folder);
    assert Uids(t, folder) == uids;
    FromOfFolder(t, folder, floor);
    var (box, reply) := SearchBox(w.box, Now(o, w), o.wraps, folder, floor);
    HandleStays(o, v, c, rules, After(w, box), reply.uid);
    SamePlacesSameUids(box, HandleUid(o, c, rules, After(w, box), reply.uid).0.box, folder);
  }

  lemma ApplyStepWalks(o: Oracle, v: Verdict, c: Config, rules: seq<Rule>, folder: string, p: Progress, uids: set<nat>)
    requires Steady(o, v) && LeavesMail(v, rules) && o.wraps && Stocked(p.w, folder, uids)
    ensures var t := ApplyStep(o, c, rules, folder, p); var u := Answer(uids, p.minUid);
      && t.ApplyOn? && t.p.minUid == u + 1 && t.p.handled == p.handled + [u] && Stocked(t.p.w, folder, uids)
      && CountSent(t.p.w.outbox) == CountSent(p.w.outbox) + SentEach(v, rules)
      && t.p.errors == p.errors + (if v == MatchError then 1 else 0)
      && t.p.processed == p.processed + (if v == MatchError then 0 else 1)
      && t.p.matched == p.matched + (if v == MatchError then 0 else 1)
  {
    hide SearchBox, HandleUid, CountSent, OutgoingAll, StaysPut, Stocked, Answer;
    SteadyTurn(o, v, c, rules, folder, p.w, p.minUid, uids);
    var (box, reply) := SearchBox(p.w.box, Now(o, p.w), o.wraps, folder, p.minUid);
    assert reply.uid as nat == Answer(uids, p.minUid) && Next32(reply.uid) == reply.uid + 1;
    assert [reply.uid] == [Answer(uids, p.minUid)];
  }

  /** So many turns of an apply: a failing match leaves it where it was, one error richer each time; a matched
      message is counted, and its actions are carried out, each time. */
  lemma {:induction false} ApplyWalks(o: Oracle, v: Verdict, c: Config, rules: seq<Rule>, folder: string, limit: nat,
                                      p: Progress, turns: nat, uids: set<nat>)
    requires Steady(o, v) && LeavesMail(v, rules) && o.wraps && Stocked(p.w, folder, uids)
    requires if v == MatchError then p.processed < limit else p.processed + turns <= limit
    ensures var t := ApplyTurns(o, c, rules, folder, limit, p, turns); var q := t.p;
      && q.handled == p.handled + Walk(uids, p.minUid, turns)
      && CountSent(q.w.outbox) == CountSent(p.w.outbox) + turns * SentEach(v, rules)
      && q.errors == p.errors + (if v == MatchError then turns else 0)
      && q.processed == p.processed + (if v == MatchError then 0 else turns)
      && q.matched == p.matched + (if v == MatchError then 0 else turns)
      && (t.ApplyEnd? <==> q.processed >= limit)
    decreases turns
  {
    hide ApplyStep, CountSent, SentEach, StaysPut, Stocked, Answer, Steady, LeavesMail;
    StockedMail(p.w, folder, uids);
    WalkFrom(uids, p.minUid, turns);
    if turns == 0 {
      assert p.handled + [] == p.handled;
    } else {
      ApplyStepWalks(o, v, c, rules, folder, p, uids);
      var q := ApplyStep(o, c, rules, folder, p).p;
      ApplyWalks(o, v, c, rules, folder, limit, q, turns - 1, uids);
      Concat(p.handled, [Answer(uids, p.minUid)], Walk(uids, q.minUid, turns - 1));
      Times(turns, SentEach(v, rules));
    }
  }

  lemma StockedMail(w: World, folder: string, uids: set<nat>)
    requires Stocked(w, folder, uids)
    ensures uids != {}
  {
  }

  lemma WalkFrom(uids: set<nat>, floor: nat, n: nat)
    requires uids != {}
    ensures Walk(uids, floor, n) == if n == 0 then []
        else [Answer(uids, floor)] + Walk(uids, Answer(uids, floor) + 1, n - 1)
  {
  }

  lemma Times(n: nat, k: nat)
    ensures 0 * k == 0
    ensures n > 0 ==> n * k == k + (n - 1) * k
  {
  }

  /** A finding. On a server that wraps "n:*", an apply to a folder that holds any mail never ends while no
      message can be matched: once through the folder, then the last message for ever. */
  lemma WrappedApplyNeverEnds(o: Oracle, c: Config, rules: seq<Rule>, folder: string, limit: int, w: World, turns: nat)
    requires Steady(o, MatchError) && o.wraps && Sane(w.box) && Uids(w.box, folder) != {}
    ensures var t := ApplyToFolder(o, c, rules, folder, limit, w, turns); var uids := Uids(w.box, folder);
      && t.ApplyOn? && t.p.processed == 0 && t.p.errors == turns
      && t.p.handled == Smallest(uids, turns) + Repeat(Greatest(uids), Beyond(turns, |uids|))
  {
    hide ApplyTurns, Walk;
    var uids := Uids(w.box, folder);
    FolderExists(w.box, folder);
    ApplyWalks(o, MatchError, c, rules, folder, Limit(limit), FromTheStart(w), turns, uids);
    WalkShape(uids, 0, turns);
    assert From(uids, 0) == uids;
    assert [] + Walk(uids, 0, turns) == Walk(uids, 0, turns);
  }

  /** A finding. There an apply carries out the actions of a rule that matches every message and moves none
      `limit` times, however few messages the folder holds: the last message gets all the surplus. */
  lemma WrappedApplyActsAgain(o: Oracle, c: Config, rules: seq<Rule>, folder: string, limit: int, w: World)
    requires Steady(o, MatchedRule(0)) && rules != [] && StaysPut(rules[0].actions)
    requires o.wraps && Sane(w.box) && Uids(w.box, folder) != {}
    ensures var n := Limit(limit); var uids := Uids(w.box, folder);
      var t := ApplyToFolder(o, c, rules, folder, limit, w, n);
      && t.ApplyEnd? && t.p.matched == n
      && t.p.handled == Smallest(uids, n) + Repeat(Greatest(uids), Beyond(n, |uids|))
      && CountSent(t.p.w.outbox) == CountSent(w.outbox) + n * OutgoingAll(rules[0].actions)
  {
    hide ApplyStep, Walk, CountSent, OutgoingAll, StaysPut;
    var uids, n := Uids(w.box, folder), Limit(limit);
    FolderExists(w.box, folder);
    ApplyWalks(o, MatchedRule(0), c, rules, folder, n, FromTheStart(w), n, uids);
    WalkShape(uids, 0, n);
    assert From(uids, 0) == uids;
    assert [] + Walk(uids, 0, n) == Walk(uids, 0, n);
  }

  lemma FolderExists(s: Server, folder: string)
    requires Sane(s) && Uids(s, folder) != {}
    ensures folder in s.next
  {
    var u :| u in Uids(s, folder);
    var a :| a in s.mail && a.folder == folder && a.uid as nat == u;
    assert a in s.owner;
  }

  lemma TickStepWalks(o: Oracle, v: Verdict, c: Config, rules: seq<Rule>, w: World, turns: nat, floor: nat,
                      handled: seq<Uid>, uids: set<nat>) returns (x: World, u: Uid)
    requires Steady(o, v) && LeavesMail(v, rules) && o.wraps && Stocked(w, c.source, uids)
    requires floor <= Greatest(uids) + 1 && turns > 0
    ensures u as nat == Answer(uids, floor) && Stocked(x, c.source, uids)
    ensures CountSent(x.outbox) == CountSent(w.outbox) + SentEach(v, rules)
    ensures TickLoop(o, c, rules, w, turns, floor, {}, handled)
         == TickLoop(o, c, rules, x, turns - 1, u as nat + 1, {}, handled + [u])
  {
    hide SearchBox, HandleUid, CountSent, OutgoingAll, StaysPut, Stocked;
    SteadyTurn(o, v, c, rules, c.source, w, floor, uids);
    var (box, reply) := SearchBox(w.box, Now(o, w), o.wraps, c.source, floor);
    u := reply.uid;
    x := HandleUid(o, c, rules, After(w, box), u).0;
  }

  lemma {:induction false} TickWalks(o: Oracle, v: Verdict, c: Config, rules: seq<Rule>, w: World, turns: nat,
                                     floor: nat, handled: seq<Uid>, uids: set<nat>)
    requires Steady(o, v) && LeavesMail(v, rules) && o.wraps && Stocked(w, c.source, uids)
        && floor <= Greatest(uids) + 1
    ensures var r := TickLoop(o, c, rules, w, turns, floor, {}, handled);
      && r.handled == handled + Walk(uids, floor, turns)
      && CountSent(r.w.outbox) == CountSent(w.outbox) + turns * SentEach(v, rules)
    decreases turns
  {
    hide TickLoop, CountSent, SentEach, StaysPut, Stocked, Answer, Steady, LeavesMail;
    StockedMail(w, c.source, uids);
    WalkFrom(uids, floor, turns);
    Times(turns, SentEach(v, rules));
    if turns == 0 {
      NoTurns(o, c, rules, w, floor, handled);
      assert handled + [] == handled;
    } else {
      var x, u := TickStepWalks(o, v, c, rules, w, turns, floor, handled, uids);
      TickWalks(o, v, c, rules, x, turns - 1, u as nat + 1, handled + [u], uids);
      Concat(handled, [u as nat], Walk(uids, u as nat + 1, turns - 1));
    }
  }

  lemma NoTurns(o: Oracle, c: Config, rules: seq<Rule>, w: World, floor: nat, handled: seq<Uid>)
    ensures TickLoop(o, c, rules, w, 0, floor, {}, handled) == Tick(w, TickDone, handled)
  {
  }

  /** A finding. The same in a tick, which ends, but only after `batchSize` turns: what exceeds the number of
      messages goes to the last one, failing or matched, with all its actions. */
  lemma WrappedTickRepeats(o: Oracle, v: Verdict, c: Config, rules: seq<Rule>, w: World)
    requires Steady(o, v) && LeavesMail(v, rules) && o.wraps && Sane(w.box) && Uids(w.box, c.source) != {}
    ensures var r := RunTick(o, c, rules, w); var uids := Uids(w.box, c.source);
      && r.handled == Smallest(uids, c.batchSize) + Repeat(Greatest(uids), Beyond(c.batchSize, |uids|))
      && CountSent(r.w.outbox) == CountSent(w.outbox) + c.batchSize * SentEach(v, rules)
  {
    hide TickLoop, Walk, CountSent, OutgoingAll, StaysPut;
    var uids := Uids(w.box, c.source);
    FolderExists(w.box, c.source);
    TickWalks(o, v, c, rules, w, c.batchSize, 0, [], uids);
    WalkShape(uids, 0, c.batchSize);
    assert From(uids, 0) == uids;
    assert [] + Walk(uids, 0, c.batchSize) == Walk(uids, 0, c.batchSize);
  }
}
