/** Which messages a tick or an apply takes, and exactly when it is sure to take none of them twice. */
module TakenProofs {
  import opened Wrappers
  import opened Imap
  import opened Text
  import opened PollerSpec
  import opened RuleTypes
  import opened Seqs
  import opened SessionProofs
  import opened ConservationProofs
  import opened AccountingProofs
  import opened WrapProofs
  import opened OnceProofs

  // ----- the messages fetched, in order -----

  /** The message this command fetched to be handled. */
  function TakenBy(e: Event): seq<nat> {
    if e.op.Fetch? && e.outcome.Done? && e.target.Some? then [e.target.value] else []
  }

  function Taken(trace: seq<Event>): seq<nat> {
    if trace == [] then [] else Taken(trace[..|trace| - 1]) + TakenBy(trace[|trace| - 1])
  }

  lemma TakenMore(trace: seq<Event>, e: Event)
    ensures Taken(trace + [e]) == Taken(trace) + TakenBy(e)
    ensures !e.op.Fetch? ==> Taken(trace + [e]) == Taken(trace)
  {
    assert (trace + [e])[..|trace|] == trace;
  }

  lemma CommandTakes(s: Server, f: Fate, uid: Uid, dest: string, flag: string, add: bool)
    ensures Taken(MoveOne(s, f, uid, dest).0.trace) == Taken(s.trace)
    ensures Taken(RawOne(s, f, uid).0.trace) == Taken(s.trace)
    ensures Taken(SelectBox(s, f, dest).trace) == Taken(s.trace)
    ensures Taken(PeekOne(s, f, uid).trace) == Taken(s.trace)
    ensures Taken(StoreOne(s, f, uid, flag, add).0.trace) == Taken(s.trace)
  {
    hide Numbered, Arrivals, Taken, TakenBy, Lower;
    TakenMore(s.trace, MoveOne(s, f, uid, dest).0.trace[|s.trace|]);
    TakenMore(s.trace, RawOne(s, f, uid).0.trace[|s.trace|]);
    TakenMore(s.trace, SelectBox(s, f, dest).trace[|s.trace|]);
    TakenMore(s.trace, PeekOne(s, f, uid).trace[|s.trace|]);
    TakenMore(s.trace, StoreOne(s, f, uid, flag, add).0.trace[|s.trace|]);
  }

  lemma SearchTakes(s: Server, f: Fate, wraps: bool, folder: string, floor: nat)
    ensures Taken(SearchBox(s, f, wraps, folder, floor).0.trace) == Taken(s.trace)
  {
    hide Taken, TakenBy, Disturb, Hit;
    CommandTakes(s, f, 1, folder, "", true);
    var t0 := SelectBox(s, f, folder);
    var t := SearchBox(s, f, wraps, folder, floor).0;
    if t0.selected.Some? { TakenMore(t0.trace, t.trace[|t0.trace|]); }
  }

  lemma FetchTakes(s: Server, f: Fate, uid: Uid)
    requires Sane(s)
    ensures var (t, got) := FetchOne(s, f, uid);
      && Taken(t.trace) == Taken(s.trace) + (if got.Some? then [got.value] else [])
      && (Peaceful(f) && got.Some? ==> Present(s, uid) && got.value == s.mail[Addr(s.selected.value, uid)].id)
  {
    hide Taken, Numbered, Arrivals;
    DisturbKeeps(s, f);
    TakenMore(s.trace, FetchOne(s, f, uid).0.trace[|s.trace|]);
    if Peaceful(f) { DisturbPeaceful(s, f); }
  }

  lemma DisturbTakes(s: Server, f: Fate)
    ensures Disturb(s, f).trace == s.trace
  {
  }

  ghost predicate TakesNone(w: World, v: World) {
    Taken(v.box.trace) == Taken(w.box.trace)
  }

  lemma LogTakes(o: Oracle, c: Config, job: Job, e: Exec, uid: Uid, a: Action, status: string)
    ensures LogAction(o, c, job, e, uid, a, status).w.box == e.w.box
  {
  }

  lemma MoveTakes(o: Oracle, c: Config, job: Job, e: Exec, a: Action, dest: string, relabel: bool)
    ensures TakesNone(e.w, MoveAndFollow(o, c, job, e, a, dest, relabel).w)
  {
    hide MoveOne, SelectBox, LogAction, Taken;
    CommandTakes(e.w.box, Now(o, e.w), e.uid, dest, "", true);
    var (box, reply) := MoveOne(e.w.box, Now(o, e.w), e.uid, dest);
    var e1 := e.(w := After(e.w, box));
    LogTakes(o, c, job, e1, e.uid, a, "error");
    LogTakes(o, c, job, e1, e.uid, a, "success");
    var e2 := LogAction(o, c, job, e1, e.uid, a, "success");
    CommandTakes(e2.w.box, Now(o, e2.w), e.uid, dest, "", true);
  }

  lemma StoreTakes(o: Oracle, c: Config, job: Job, e: Exec, a: Action, flag: string, add: bool)
    ensures TakesNone(e.w, StoreAndLog(o, c, job, e, a, flag, add).w)
  {
    hide StoreOne, LogAction, Taken;
    CommandTakes(e.w.box, Now(o, e.w), e.uid, "", flag, add);
    var (box, ok) := StoreOne(e.w.box, Now(o, e.w), e.uid, flag, add);
    LogTakes(o, c, job, e.(w := After(e.w, box)), e.uid, a, Status(ok));
  }

  lemma SendTakes(o: Oracle, c: Config, job: Job, e: Exec, a: Action)
    ensures TakesNone(e.w, ForwardAndLog(o, c, job, e, a).w) && TakesNone(e.w, WebhookAndLog(o, c, job, e, a).w)
  {
    hide RawOne, Disturb, LogAction, Taken;
    var f := Now(o, e.w);
    CommandTakes(e.w.box, f, e.uid, "", "", true);
    DisturbTakes(e.w.box, f);
    var (box, ok) := RawOne(e.w.box, f, e.uid);
    var e1 := e.(w := After(e.w, box));
    LogTakes(o, c, job, e1, e.uid, a, "error");
    DisturbTakes(e1.w.box, Now(o, e1.w));
    var (w2, sent) := Deliver(o, e1.w, Forward, a.value, 0);
    LogTakes(o, c, job, e1.(w := w2), e.uid, a, Status(sent));
    var (w3, called) := Deliver(o, e.w, Webhook, a.value, 0);
    LogTakes(o, c, job, e.(w := w3), e.uid, a, Status(called));
  }

  lemma ReplyTakes(o: Oracle, c: Config, job: Job, e: Exec, a: Action)
    ensures TakesNone(e.w, ReplyAndLog(o, c, job, e, a).w)
  {
    hide Disturb, LogAction, Taken;
    var f := Now(o, e.w);
    DisturbTakes(e.w.box, f);
    var w1 := After(e.w, Disturb(e.w.box, f));
    DisturbTakes(w1.box, Now(o, w1));
    var w2 := Deliver(o, w1, Reply, job.sender, f.day).0;
    DisturbTakes(w2.box, Now(o, w2));
    var (w, status) := TryReply(o, c, job, e.w);
    LogTakes(o, c, job, e.(w := w), e.uid, a, status);
  }

  lemma DeleteTakes(o: Oracle, c: Config, job: Job, e: Exec, a: Action)
    ensures TakesNone(e.w, DeleteAndLog(o, c, job, e, a).w)
  {
    hide MoveAndFollow, Disturb, LogAction, Taken, TrashName;
    DisturbTakes(e.w.box, Now(o, e.w));
    var (w1, trash) := FindTrash(o, e.w);
    var e1 := e.(w := w1);
    LogTakes(o, c, job, e1, e.uid, a, "error");
    if trash.Some? { MoveTakes(o, c, job, e1, a, trash.value, false); }
  }

  lemma ActTakes(o: Oracle, c: Config, job: Job, e: Exec, a: Action)
    ensures TakesNone(e.w, Act(o, c, job, e, a).w)
  {
    hide MoveAndFollow, StoreAndLog, ForwardAndLog, WebhookAndLog, DeleteAndLog, ReplyAndLog, LogAction, NamedFlag,
         Taken;
    LogTakes(o, c, job, e, e.uid, a, "error");
    MoveTakes(o, c, job, e, a, a.value, true);
    StoreTakes(o, c, job, e, a, "\\Seen", a.kind == "mark_as_read");
    StoreTakes(o, c, job, e, a, a.value, true);
    if NamedFlag(a.value).Some? { StoreTakes(o, c, job, e, a, NamedFlag(a.value).value, false); }
    SendTakes(o, c, job, e, a);
    ReplyTakes(o, c, job, e, a);
    DeleteTakes(o, c, job, e, a);
  }

  lemma {:induction false} ActAllTakes(o: Oracle, c: Config, job: Job, e: Exec, actions: seq<Action>)
    ensures TakesNone(e.w, ActAll(o, c, job, e, actions).w)
    decreases |actions|
  {
    hide Act, Taken;
    if actions == [] || e.stopped {
    } else {
      ActTakes(o, c, job, e, actions[0]);
      ActAllTakes(o, c, job, Act(o, c, job, e, actions[0]), actions[1..]);
    }
  }

  lemma {:induction false} PeeksTake(o: Oracle, w: World, uid: Uid, n: nat)
    ensures TakesNone(w, Peeks(o, w, uid, n))
    decreases n
  {
    hide PeekOne, Taken, Peaceful;
    if n == 0 {
    } else {
      CommandTakes(w.box, Now(o, w), uid, "", "", true);
      PeeksTake(o, After(w, PeekOne(w.box, Now(o, w), uid)), uid, n - 1);
    }
  }

  lemma MatchTakes(o: Oracle, c: Config, w: World, rule: Rule, uid: Uid, id: nat)
    ensures TakesNone(w, ActOnMatch(o, c, w, rule, uid, id))
  {
    hide ActAll, StoreOne, Taken;
    ActAllTakes(o, c, JobFor(o, rule, id), Start(w, uid), rule.actions);
    var (v, moved) := ExecuteActions(o, c, w, rule, uid, id);
    CommandTakes(v.box, Now(o, v), uid, "", "\\Seen", true);
  }

  /** Handling a UID takes the one message its fetch gives, if it gives one. */
  lemma HandleTakes(o: Oracle, c: Config, rules: seq<Rule>, w: World, uid: Uid)
    requires Sane(w.box)
    ensures var (v, h) := HandleUid(o, c, rules, w, uid);
      && h.FetchFailed? == FetchOne(w.box, Now(o, w), uid).1.None?
      && Taken(v.box.trace) == Taken(w.box.trace)
           + (if h.FetchFailed? then [] else [FetchOne(w.box, Now(o, w), uid).1.value])
      && (Peaceful(Now(o, w)) && !h.FetchFailed? ==>
            && Present(w.box, uid)
            && Taken(v.box.trace) == Taken(w.box.trace) + [w.box.mail[Addr(w.box.selected.value, uid)].id])
  {
    hide FetchOne, Peeks, ActOnMatch, Taken, Sane, Peaceful;
    var f := Now(o, w);
    FetchTakes(w.box, f, uid);
    var (box, got) := FetchOne(w.box, f, uid);
    if got.Some? {
      var w1 := After(w, box);
      PeeksTake(o, w1, uid, f.peeks);
      if f.verdict.MatchedRule? && f.verdict.index < |rules| {
        MatchTakes(o, c, Peeks(o, w1, uid, f.peeks), rules[f.verdict.index], uid, got.value);
      }
    }
  }

  // ----- taken once -----

  /** Each message was in the folder when the work began, under a UID below the floor, and is here once. */
  ghost predicate TakenBelow(s0: Server, folder: string, ids: seq<nat>, floor: nat) {
    Once(ids) && forall id <- ids :: WasBelow(s0, folder, id, floor)
  }

  ghost predicate WasBelow(s0: Server, folder: string, id: nat, floor: nat) {
    exists u: Uid :: u < floor && Addr(folder, u) in s0.mail && s0.mail[Addr(folder, u)].id == id
  }

  lemma TakenOn(s0: Server, folder: string, ids: seq<nat>, floor: nat, floor': nat)
    requires TakenBelow(s0, folder, ids, floor) && floor <= floor'
    ensures TakenBelow(s0, folder, ids, floor')
  {
    forall id | id in ids ensures WasBelow(s0, folder, id, floor') {
      assert WasBelow(s0, folder, id, floor);
    }
  }

  lemma NotBelow(s0: Server, folder: string, floor: nat, u: Uid)
    requires OneHome(s0) && floor <= u && Addr(folder, u) in s0.mail
    ensures !WasBelow(s0, folder, s0.mail[Addr(folder, u)].id, floor)
  {
    forall v: Uid | v < floor && Addr(folder, v) in s0.mail
      ensures s0.mail[Addr(folder, v)].id != s0.mail[Addr(folder, u)].id
    {
      assert Addr(folder, v) != Addr(folder, u);
    }
  }

  lemma TakenOneMore(s0: Server, folder: string, ids: seq<nat>, floor: nat, u: Uid)
    requires OneHome(s0) && TakenBelow(s0, folder, ids, floor) && floor <= u && Addr(folder, u) in s0.mail
    ensures TakenBelow(s0, folder, ids + [s0.mail[Addr(folder, u)].id], u as nat + 1)
  {
    var id := s0.mail[Addr(folder, u)].id;
    TakenOn(s0, folder, ids, floor, u as nat + 1);
    NotBelow(s0, folder, floor, u);
    assert id !in ids;
    assert WasBelow(s0, folder, id, u as nat + 1);
  }

  /** Between two turns of work that began at `s0`. */
  ghost predicate Since(s0: Server, w: World) {
    Sane(s0) && OneHome(s0) && Sound(w.box) && NeverMisses(w.box.trace) && Grew(s0, w.box)
  }

  /** One turn: the UID found was there from the beginning, and its message is a new one. */
  lemma TurnTakes(o: Oracle, c: Config, rules: seq<Rule>, w: World, folder: string, floor: nat, s0: Server)
    requires Quiet(o) && Since(s0, w) && TakenBelow(s0, folder, Taken(w.box.trace), floor)
    ensures var (box, reply) := SearchBox(w.box, Now(o, w), o.wraps, folder, floor);
      && box.mail == w.box.mail && box.next == w.box.next && Since(s0, After(w, box))
      && TakesNone(w, After(w, box))
      && (reply.FoundUid? ==>
            && Present(box, reply.uid) && box.selected == Some(folder)
            && var v := HandleUid(o, c, rules, After(w, box), reply.uid).0;
                 && Since(s0, v)
                 && (floor <= reply.uid && Addr(folder, reply.uid) in s0.mail ==>
                       TakenBelow(s0, folder, Taken(v.box.trace), reply.uid as nat + 1)))
  {
    hide SearchBox, HandleUid, OneHome, Sane, Grew, Taken, TakenBelow, NeverMisses, OnSubject, Conserved, Peaceful;
    SearchWithin(w.box, Now(o, w), o.wraps, folder, floor);
    SearchSound(w.box, Now(o, w), o.wraps, folder, floor);
    SearchQuiet(w.box, Now(o, w), o.wraps, folder, floor);
    SearchTakes(w.box, Now(o, w), o.wraps, folder, floor);
    var (box, reply) := SearchBox(w.box, Now(o, w), o.wraps, folder, floor);
    GrewOn(s0, w.box, box);
    if reply.FoundUid? {
      var u, w1 := reply.uid, After(w, box);
      HandleUidCalm(o, c, rules, w1, u, folder);
      HandleUidAccounts(o, c, rules, w1, u);
      HandleTakes(o, c, rules, w1, u);
      var (v, h) := HandleUid(o, c, rules, w1, u);
      AccountedGrew(w1, v);
      GrewOn(s0, box, v.box);
      if floor <= u && Addr(folder, u) in s0.mail {
        SameId(s0, box, Addr(folder, u));
        TakenOneMore(s0, folder, Taken(w.box.trace), floor, u);
        TakenOn(s0, folder, Taken(w.box.trace), floor, u as nat + 1);
        Nothing(Taken(w.box.trace));
      }
    }
  }

  lemma AccountedGrew(w: World, v: World)
    requires Accounted(w, v)
    ensures Grew(w.box, v.box)
  {
  }

  lemma GrewOn(s: Server, t: Server, x: Server)
    requires Grew(s, t) && Grew(t, x)
    ensures Grew(s, x)
  {
  }

  /** A UID stands for one message. */
  lemma SameId(s: Server, t: Server, a: Addr)
    requires Sane(s) && Sane(t) && Grew(s, t) && a in s.mail && a in t.mail
    ensures t.mail[a].id == s.mail[a].id
  {
  }

  // ----- while nothing comes back to the folder -----

  /** What is in the folder from the floor on was there from the beginning. */
  ghost predicate NothingNew(s0: Server, t: Server, folder: string, floor: nat) {
    forall a <- t.mail :: a.folder == folder && floor <= a.uid ==> a in s0.mail
  }

  lemma StillNothingNew(s0: Server, s: Server, t: Server, folder: string, floor: nat, u: Uid)
    requires NothingNew(s0, s, folder, floor) && floor <= u && OnlyUid(s, t, folder, u)
    ensures NothingNew(s0, t, folder, u as nat + 1)
  {
  }

  lemma {:induction false} TickLoopTakesOnce(o: Oracle, c: Config, rules: seq<Rule>, w: World, turns: nat, floor: nat,
                                             skip: set<Uid>, handled: seq<Uid>, s0: Server)
    requires Quiet(o) && !o.wraps && AllLeave(o, w, rules, c.source)
    requires Since(s0, w) && TakenBelow(s0, c.source, Taken(w.box.trace), floor)
    requires NothingNew(s0, w.box, c.source, floor) && forall x <- skip :: x < floor
    ensures Once(Taken(TickLoop(o, c, rules, w, turns, floor, skip, handled).w.box.trace))
    decreases turns
  {
    hide SearchBox, HandleUid, AllLeave, Since, Taken, NothingNew, OnlyUid, Quiet;
    if turns == 0 {
    } else {
      TurnTakes(o, c, rules, w, c.source, floor, s0);
      var (box, reply) := SearchBox(w.box, Now(o, w), o.wraps, c.source, floor);
      if reply.FoundUid? {
        var u, w1 := reply.uid, After(w, box);
        var (v, h) := HandleUid(o, c, rules, w1, u);
        LeavingTurn(o, c, rules, w, w1, u, c.source, floor, s0);
        var skip' := if h == Unmatched then skip + {u} else skip;
        TickLoopTakesOnce(o, c, rules, v, turns - 1, u as nat + 1, skip', handled + [u], s0);
      }
    }
  }

  lemma LeavingTurn(o: Oracle, c: Config, rules: seq<Rule>, w: World, w1: World, u: Uid, folder: string, floor: nat,
                    s0: Server)
    requires Quiet(o) && AllLeave(o, w, rules, folder) && w1.trash == w.trash && w1.box.mail == w.box.mail
    requires Since(s0, w1) && Present(w1.box, u) && w1.box.selected == Some(folder) && floor <= u
    requires NothingNew(s0, w.box, folder, floor)
    ensures var v := HandleUid(o, c, rules, w1, u).0;
      && Addr(folder, u) in s0.mail && AllLeave(o, v, rules, folder)
      && NothingNew(s0, v.box, folder, u as nat + 1)
  {
    hide HandleUid, AllLeave, OnlyUid, Quiet, TrashFrom;
    HandleUidCalm(o, c, rules, w1, u, folder);
    SameTrash(o, w, w1, rules, folder);
    TrashKeptAway(o, w1, HandleUid(o, c, rules, w1, u).0, rules, folder);
    StillNothingNew(s0, w1.box, HandleUid(o, c, rules, w1, u).0.box, folder, floor, u);
  }

  // ----- while the folder lasts -----

  /** What was there from the floor on is still there, and whatever else came has a higher UID. */
  ghost predicate Lasting(s0: Server, t: Server, folder: string, floor: nat) {
    && (forall a <- s0.mail :: a.folder == folder && floor <= a.uid ==> a in t.mail)
    && (folder in s0.next ==> folder in t.next && s0.next[folder] <= t.next[folder])
    && (forall a <- t.mail :: a.folder == folder ==> a in s0.mail || (folder in s0.next ==> s0.next[folder] <= a.uid))
  }

  /** So the next UID is one of them, as long as there are any. */
  lemma NextIsFirst(s0: Server, t: Server, folder: string, floor: nat, u: Uid)
    requires Sane(s0) && Lasting(s0, t, folder, floor) && UidsFrom(s0, folder, floor) != {}
    requires UidsFrom(t, folder, floor) != {} && u == Least(UidsFrom(t, folder, floor))
    ensures floor <= u && Addr(folder, u) in s0.mail
    ensures |UidsFrom(s0, folder, u as nat + 1)| == |UidsFrom(s0, folder, floor)| - 1
  {
    var r :| r in UidsFrom(s0, folder, floor);
    var a :| a in s0.mail && a.folder == folder && floor <= a.uid && a.uid as nat == r;
    assert r in UidsFrom(t, folder, floor) && a in s0.owner;
    assert u as nat in UidsFrom(t, folder, floor);
    assert UidsFrom(s0, folder, u as nat + 1) == UidsFrom(s0, folder, floor) - {u as nat} by {
      forall v | v in UidsFrom(s0, folder, floor) ensures v in UidsFrom(t, folder, floor) {
        var b :| b in s0.mail && b.folder == folder && floor <= b.uid && b.uid as nat == v;
        assert b in t.mail;
      }
    }
  }

  lemma FirstsLast(s0: Server, t: Server, folder: string, floor: nat)
    requires Lasting(s0, t, folder, floor)
    ensures UidsFrom(s0, folder, floor) <= UidsFrom(t, folder, floor)
  {
    forall v | v in UidsFrom(s0, folder, floor) ensures v in UidsFrom(t, folder, floor) {
      var b :| b in s0.mail && b.folder == folder && floor <= b.uid && b.uid as nat == v;
      assert b in t.mail;
    }
  }

  lemma StillLasting(s0: Server, s: Server, t: Server, folder: string, floor: nat, u: Uid)
    requires Lasting(s0, s, folder, floor) && floor <= u && Spares(s, t, Addr(folder, u))
    ensures Lasting(s0, t, folder, u as nat + 1)
  {
  }

  lemma {:induction false} FullTickTakesOnce(o: Oracle, c: Config, rules: seq<Rule>, w: World, turns: nat, floor: nat,
                                             skip: set<Uid>, handled: seq<Uid>, s0: Server)
    requires Quiet(o) && turns <= |UidsFrom(s0, c.source, floor)|
    requires Since(s0, w) && TakenBelow(s0, c.source, Taken(w.box.trace), floor)
    requires Lasting(s0, w.box, c.source, floor) && forall x <- skip :: x < floor
    ensures Once(Taken(TickLoop(o, c, rules, w, turns, floor, skip, handled).w.box.trace))
    decreases turns
  {
    hide SearchBox, HandleUid, Since, Taken, Lasting, Quiet, UidsFrom, Least;
    if turns == 0 {
    } else {
      TurnTakes(o, c, rules, w, c.source, floor, s0);
      var (box, reply) := SearchBox(w.box, Now(o, w), o.wraps, c.source, floor);
      if reply.FoundUid? {
        var u, w1 := reply.uid, After(w, box);
        LastingTurn(o, c, rules, w, w1, u, c.source, floor, s0);
        var (v, h) := HandleUid(o, c, rules, w1, u);
        var skip' := if h == Unmatched then skip + {u} else skip;
        FullTickTakesOnce(o, c, rules, v, turns - 1, u as nat + 1, skip', handled + [u], s0);
      }
    }
  }

  lemma LastingTurn(o: Oracle, c: Config, rules: seq<Rule>, w: World, w1: World, u: Uid, folder: string, floor: nat,
                    s0: Server)
    requires Quiet(o) && Since(s0, w1) && Present(w1.box, u) && w1.box.selected == Some(folder)
    requires SearchBox(w.box, Now(o, w), o.wraps, folder, floor) == (w1.box, FoundUid(u))
    requires Lasting(s0, w.box, folder, floor) && UidsFrom(s0, folder, floor) != {}
    ensures var v := HandleUid(o, c, rules, w1, u).0;
      && floor <= u && Addr(folder, u) in s0.mail && Lasting(s0, v.box, folder, u as nat + 1)
      && |UidsFrom(s0, folder, u as nat + 1)| == |UidsFrom(s0, folder, floor)| - 1
  {
    hide SearchBox, HandleUid, Lasting, UidsFrom, Least, Spares, OnSubject, NeverMisses;
    SearchWithin(w.box, Now(o, w), o.wraps, folder, floor);
    FirstsLast(s0, w.box, folder, floor);
    NextIsFirst(s0, w.box, folder, floor, u);
    HandleUidSpares(o, c, rules, w1, u);
    SameLasting(s0, w.box, w1.box, folder, floor);
    StillLasting(s0, w1.box, HandleUid(o, c, rules, w1, u).0.box, folder, floor, u);
  }

  lemma SameLasting(s0: Server, s: Server, t: Server, folder: string, floor: nat)
    requires Lasting(s0, s, folder, floor) && t.mail == s.mail && t.next == s.next
    ensures Lasting(s0, t, folder, floor)
  {
  }

  // ----- an apply -----

  /** A UID whose fetch or match fails leaves all mail where it is. */
  lemma ErrorsMoveNothing(o: Oracle, c: Config, rules: seq<Rule>, w: World, uid: Uid)
    requires Quiet(o)
    ensures var (v, h) := HandleUid(o, c, rules, w, uid);
      h.FetchFailed? || h.MatchFailed? ==> v.box.mail.Keys == w.box.mail.Keys
  {
    hide Peeks, ActOnMatch, Disturb;
    var f := Now(o, w);
    DisturbPeaceful(w.box, f);
    PeeksStay(o, After(w, FetchOne(w.box, f, uid).0), uid, f.peeks);
  }

  lemma SameKeysNothingNew(s0: Server, s: Server, t: Server, folder: string, floor: nat, floor': nat)
    requires NothingNew(s0, s, folder, floor) && t.mail.Keys == s.mail.Keys && floor <= floor'
    ensures NothingNew(s0, t, folder, floor')
  {
    assert forall a <- t.mail :: a in s.mail.Keys;
  }

  lemma ApplyTurn(o: Oracle, c: Config, rules: seq<Rule>, w: World, w1: World, u: Uid, folder: string, floor: nat,
                  s0: Server)
    requires Quiet(o) && w1.trash == w.trash && w1.box.mail == w.box.mail
    requires Since(s0, w1) && Present(w1.box, u) && w1.box.selected == Some(folder) && floor <= u
    requires NothingNew(s0, w.box, folder, floor)
    ensures var (v, h) := HandleUid(o, c, rules, w1, u);
      && Addr(folder, u) in s0.mail
      && (AllLeave(o, w, rules, folder) || h.FetchFailed? || h.MatchFailed? ==>
            NothingNew(s0, v.box, folder, u as nat + 1))
      && (AllLeave(o, w, rules, folder) ==> AllLeave(o, v, rules, folder))
  {
    hide HandleUid, AllLeave, Quiet;
    ErrorsMoveNothing(o, c, rules, w1, u);
    var (v, h) := HandleUid(o, c, rules, w1, u);
    if AllLeave(o, w, rules, folder) { LeavingTurn(o, c, rules, w, w1, u, folder, floor, s0); }
    if h.FetchFailed? || h.MatchFailed? { SameKeysNothingNew(s0, w1.box, v.box, folder, floor, u as nat + 1); }
  }

  lemma {:induction false} ApplyTakesOnce(o: Oracle, c: Config, rules: seq<Rule>, folder: string, limit: nat,
                                          p: Progress, turns: nat, s0: Server)
    requires Quiet(o) && !o.wraps && (AllLeave(o, p.w, rules, folder) || limit == 1)
    requires Since(s0, p.w) && TakenBelow(s0, folder, Taken(p.w.box.trace), p.minUid)
    requires p.processed < limit ==> NothingNew(s0, p.w.box, folder, p.minUid)
    ensures Once(Taken(ApplyTurns(o, c, rules, folder, limit, p, turns).p.w.box.trace))
    decreases turns
  {
    hide SearchBox, HandleUid, AllLeave, Since, Taken, NothingNew, Quiet;
    if p.processed >= limit || turns == 0 {
    } else {
      TurnTakes(o, c, rules, p.w, folder, p.minUid, s0);
      var (box, reply) := SearchBox(p.w.box, Now(o, p.w), o.wraps, folder, p.minUid);
      if reply.FoundUid? {
        var w1 := After(p.w, box);
        ApplyTurn(o, c, rules, p.w, w1, reply.uid, folder, p.minUid, s0);
        ApplyTakesOnce(o, c, rules, folder, limit, ApplyStep(o, c, rules, folder, p).p, turns - 1, s0);
      }
    }
  }
}
