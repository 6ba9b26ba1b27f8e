/** Exactly when an apply is sure to end, and a tick or an apply to handle no UID twice. A message may get a new UID in
    the same folder: TakenProofs.dfy and AgainProofs.dfy speak of messages. */
module OnceProofs {
  import opened Wrappers
  import opened Imap
  import opened PollerSpec
  import opened RuleTypes
  import opened Seqs
  import opened SessionProofs
  import opened AddressingProofs
  import opened ConservationProofs
  import opened TerminationProofs
  import opened WrapProofs

  // ----- handling a UID leaves all other mail of its folder alone -----

  /** All mail stands but that at `from`, what is new has a new UID, and no UID comes free again. */
  ghost predicate Spares(s: Server, t: Server, from: Addr) {
    && (forall a <- s.mail :: a != from ==> a in t.mail)
    && (forall a <- t.mail :: a in s.mail || (a.folder in s.next ==> s.next[a.folder] <= a.uid))
    && (forall g <- s.next :: g in t.next && s.next[g] <= t.next[g])
  }

  /** The list works on `from`, or on a place where there was no mail at `s`. */
  ghost predicate Aside(s: Server, e: Exec, from: Addr) {
    && Sane(s) && Spares(s, e.w.box, from)
    && (e.w.box.selected.Some? ==>
          var here := Addr(e.w.box.selected.value, e.uid); here == from || here !in s.mail)
  }

  lemma MoveSpares(s: Server, t: Server, f: Fate, uid: Uid, dest: string, from: Addr)
    requires Peaceful(f) && Sane(s) && Spares(s, t, from)
    requires t.selected.Some? ==> Addr(t.selected.value, uid) == from || Addr(t.selected.value, uid) !in s.mail
    ensures var (x, r) := MoveOne(t, f, uid, dest);
      && Spares(s, x, from) && x.selected == t.selected
      && (r.MovedTo? ==> Addr(dest, r.uid) !in s.mail)
  {
    DisturbPeaceful(t, f);
  }

  lemma SelectPeaceful(t: Server, f: Fate, dest: string)
    requires Peaceful(f)
    ensures var x := SelectBox(t, f, dest);
      x.mail == t.mail && x.next == t.next && (x.selected.Some? ==> x.selected.value == dest)
  {
    DisturbPeaceful(t, f);
  }

  lemma LoggedOnly(o: Oracle, c: Config, job: Job, e: Exec, uid: Uid, a: Action, status: string)
    ensures var r := LogAction(o, c, job, e, uid, a, status); r.w.box == e.w.box && r.uid == e.uid
  {
  }

  lemma MoveAndFollowAside(o: Oracle, c: Config, job: Job, e: Exec, a: Action, dest: string, relabel: bool, s: Server,
                           from: Addr)
    requires Quiet(o) && Aside(s, e, from)
    ensures Aside(s, MoveAndFollow(o, c, job, e, a, dest, relabel), from)
  {
    hide MoveOne, SelectBox, Peaceful, LogAction, Sane;
    MoveSpares(s, e.w.box, Now(o, e.w), e.uid, dest, from);
    var (box, reply) := MoveOne(e.w.box, Now(o, e.w), e.uid, dest);
    LoggedOnly(o, c, job, e.(w := After(e.w, box)), e.uid, a, "success");
    LoggedOnly(o, c, job, e.(w := After(e.w, box)), e.uid, a, "error");
    if reply.MovedTo? {
      var e2 := LogAction(o, c, job, e.(w := After(e.w, box)), e.uid, a, "success");
      SelectPeaceful(e2.w.box, Now(o, e2.w), dest);
    }
  }

  lemma DeleteAndLogAside(o: Oracle, c: Config, job: Job, e: Exec, a: Action, s: Server, from: Addr)
    requires Quiet(o) && Aside(s, e, from)
    ensures Aside(s, DeleteAndLog(o, c, job, e, a), from)
  {
    hide MoveAndFollow, Disturb, IncrementAll, StatKeys, Sane;
    DisturbPeaceful(e.w.box, Now(o, e.w));
    var (w1, trash) := FindTrash(o, e.w);
    if trash.Some? { MoveAndFollowAside(o, c, job, e.(w := w1), a, trash.value, false, s, from); }
  }

  lemma RelocateAside(o: Oracle, c: Config, job: Job, e: Exec, a: Action, s: Server, from: Addr)
    requires Quiet(o) && Aside(s, e, from) && Relocates(a)
    ensures Aside(s, Act(o, c, job, e, a), from)
  {
    hide MoveAndFollow, DeleteAndLog, Aside, Quiet;
    if a.kind == "delete" {
      DeleteAndLogAside(o, c, job, e, a, s, from);
    } else {
      MoveAndFollowAside(o, c, job, e, a, a.value, true, s, from);
    }
  }

  lemma StayedAside(s: Server, e: Exec, r: Exec, from: Addr)
    requires Aside(s, e, from) && Stayed(e, r)
    ensures Aside(s, r, from)
  {
  }

  lemma {:induction false} ActAllAside(o: Oracle, c: Config, job: Job, e: Exec, actions: seq<Action>, s: Server,
                                       from: Addr)
    requires Quiet(o) && Aside(s, e, from)
    ensures Aside(s, ActAll(o, c, job, e, actions), from)
    decreases |actions|
  {
    hide Act, Aside, Quiet, Stayed;
    if actions == [] || e.stopped {
    } else {
      if Relocates(actions[0]) {
        RelocateAside(o, c, job, e, actions[0], s, from);
      } else {
        ActStays(o, c, job, e, actions[0]);
        StayedAside(s, e, Act(o, c, job, e, actions[0]), from);
      }
      ActAllAside(o, c, job, Act(o, c, job, e, actions[0]), actions[1..], s, from);
    }
  }

  lemma SparesFrom(s: Server, t: Server, x: Server, from: Addr)
    requires s.mail.Keys == t.mail.Keys && s.next == t.next && Spares(t, x, from)
    ensures Spares(s, x, from)
  {
    assert forall a <- s.mail :: a in t.mail.Keys;
  }

  lemma ActOnMatchSpares(o: Oracle, c: Config, w: World, rule: Rule, uid: Uid, id: nat)
    requires Quiet(o) && Sane(w.box) && w.box.selected.Some?
    ensures Spares(w.box, ActOnMatch(o, c, w, rule, uid, id).box, Addr(w.box.selected.value, uid))
  {
    hide ActAll, Disturb, Sane;
    var from := Addr(w.box.selected.value, uid);
    ActAllAside(o, c, JobFor(o, rule, id), Start(w, uid), rule.actions, w.box, from);
    var e := ActAll(o, c, JobFor(o, rule, id), Start(w, uid), rule.actions);
    DisturbPeaceful(e.w.box, Now(o, e.w));
  }

  lemma HandleUidSpares(o: Oracle, c: Config, rules: seq<Rule>, w: World, uid: Uid)
    requires Quiet(o) && Sound(w.box) && w.box.selected.Some?
    ensures Spares(w.box, HandleUid(o, c, rules, w, uid).0.box, Addr(w.box.selected.value, uid))
  {
    hide Peeks, ActOnMatch, Disturb, OnSubject;
    var f := Now(o, w);
    DisturbPeaceful(w.box, f);
    FetchFocus(w.box, f, uid);
    var (box, got) := FetchOne(w.box, f, uid);
    if got.Some? {
      var w1 := After(w, box);
      PeeksStay(o, w1, uid, f.peeks);
      PeeksFocus(o, w1, uid, f.peeks, got.value);
      var w2 := Peeks(o, w1, uid, f.peeks);
      if f.verdict.MatchedRule? && f.verdict.index < |rules| {
        ActOnMatchSpares(o, c, w2, rules[f.verdict.index], uid, got.value);
        SparesFrom(w.box, w2.box, ActOnMatch(o, c, w2, rules[f.verdict.index], uid, got.value).box,
                   Addr(w.box.selected.value, uid));
      }
    }
  }

  // ----- a tick whose batch the folder can fill -----

  /** After the least UID of a range there is one fewer to come, whatever was delivered meanwhile. */
  lemma OneFewer(s: Server, t: Server, folder: string, floor: nat, u: Uid)
    requires UidsFrom(s, folder, floor) != {} && u == Least(UidsFrom(s, folder, floor))
    requires Spares(s, t, Addr(folder, u))
    ensures |UidsFrom(t, folder, u + 1)| >= |UidsFrom(s, folder, floor)| - 1
  {
    var before, left := UidsFrom(s, folder, floor), UidsFrom(t, folder, u + 1);
    forall v | v in before - {u as nat} ensures v in left {
      var a :| a in s.mail && a.folder == folder && floor <= a.uid && a.uid as nat == v;
      assert a in t.mail;
    }
    SubsetSize(before - {u as nat}, left);
    assert |before - {u as nat}| == |before| - 1;
  }

  lemma SearchWithin(s: Server, f: Fate, wraps: bool, folder: string, floor: nat)
    requires Peaceful(f)
    ensures var (t, r) := SearchBox(s, f, wraps, folder, floor);
      && t.mail == s.mail && t.next == s.next
      && (r.FoundUid? ==> t.selected == Some(folder))
      && (UidsFrom(s, folder, floor) != {} && r.FoundUid?
          ==> r.uid == Least(UidsFrom(s, folder, floor)) && floor <= r.uid)
      && (Uids(s, folder) == {} ==> !r.FoundUid?)
  {
    DisturbPeaceful(s, f);
    var t := SelectBox(s, f, folder);
    SameUids(t, s, folder, floor);
    assert Uids(t, folder) == Uids(s, folder);
    var r := SearchBox(s, f, wraps, folder, floor).1;
    if r.FoundUid? { assert r.uid as nat in Uids(t, folder); }
  }

  lemma SearchFinds(o: Oracle, w: World, folder: string, floor: nat) returns (u: Uid)
    requires Quiet(o) && folder in w.box.next && UidsFrom(w.box, folder, floor) != {}
    requires Now(o, w).ok && Now(o, w).selectOk
    ensures u as nat == Least(UidsFrom(w.box, folder, floor))
    ensures var (box, reply) := SearchBox(w.box, Now(o, w), o.wraps, folder, floor);
      && reply == FoundUid(u) && Present(box, u) && box.selected == Some(folder)
      && box.mail == w.box.mail && box.owner == w.box.owner && box.next == w.box.next
  {
    DisturbPeaceful(w.box, Now(o, w));
    var t := SelectBox(w.box, Now(o, w), folder);
    SameUids(t, w.box, folder, floor);
    u := SearchBox(w.box, Now(o, w), o.wraps, folder, floor).1.uid;
  }

  /** A search from the start that does not fail. */
  lemma FirstFound(o: Oracle, w: World, folder: string) returns (u: Uid)
    requires Quiet(o) && Sane(w.box) && Uids(w.box, folder) != {}
    requires Now(o, w).ok && Now(o, w).selectOk
    ensures u as nat == Least(Uids(w.box, folder))
    ensures var (box, reply) := SearchBox(w.box, Now(o, w), o.wraps, folder, 0);
      && reply == FoundUid(u) && Present(box, u) && box.selected == Some(folder)
      && box.mail == w.box.mail && box.owner == w.box.owner && box.next == w.box.next
  {
    FolderExists(w.box, folder);
    assert UidsFrom(w.box, folder, 0) == Uids(w.box, folder);
    u := SearchFinds(o, w, folder, 0);
  }

  lemma {:induction false} TickLoopOnce(o: Oracle, c: Config, rules: seq<Rule>, w: World, turns: nat, floor: nat,
                                        skip: set<Uid>, handled: seq<Uid>)
    requires Quiet(o) && Sound(w.box) && turns <= |UidsFrom(w.box, c.source, floor)|
    requires forall x <- skip :: x < floor
    requires Ascending(handled) && forall u <- handled :: u < floor
    ensures Ascending(TickLoop(o, c, rules, w, turns, floor, skip, handled).handled)
    decreases turns
  {
    hide HandleUid, SearchBox, Sound, Spares, UidsFrom, Least, Peaceful;
    if turns == 0 {
    } else {
      SearchWithin(w.box, Now(o, w), o.wraps, c.source, floor);
      SearchSound(w.box, Now(o, w), o.wraps, c.source, floor);
      var (box, reply) := SearchBox(w.box, Now(o, w), o.wraps, c.source, floor);
      SameUids(box, w.box, c.source, floor);
      if reply.FoundUid? {
        var u, w1 := reply.uid, After(w, box);
        HandleUidSpares(o, c, rules, w1, u);
        HandleUidSound(o, c, rules, w1, u);
        var (w2, h) := HandleUid(o, c, rules, w1, u);
        OneFewer(box, w2.box, c.source, floor, u);
        AscendingExtend(handled, u);
        TickLoopOnce(o, c, rules, w2, turns - 1, u as nat + 1, if h == Unmatched then skip + {u} else skip,
                     handled + [u]);
      }
    }
  }

  lemma EmptyTickHandlesNone(o: Oracle, c: Config, rules: seq<Rule>, w: World)
    requires Quiet(o) && Uids(w.box, c.source) == {}
    ensures RunTick(o, c, rules, w).handled == []
  {
    hide SearchBox, HandleUid;
    SearchWithin(w.box, Now(o, w), o.wraps, c.source, 0);
    assert !SearchBox(w.box, Now(o, w), o.wraps, c.source, 0).1.FoundUid?;
    assert TickLoop(o, c, rules, w, c.batchSize, 0, {}, []).handled == [];
  }

  lemma AscendingOnce(us: seq<nat>)
    requires Ascending(us)
    ensures Once(us)
  {
  }

  lemma TickOnceIf(o: Oracle, c: Config, rules: seq<Rule>, w: World)
    requires Quiet(o) && Sound(w.box)
    requires !o.wraps || Uids(w.box, c.source) == {} || c.batchSize <= |Uids(w.box, c.source)|
    ensures Once(RunTick(o, c, rules, w).handled)
  {
    hide TickLoop, Sound;
    if !o.wraps {
      TickAscends(o, c, rules, w);
    } else if Uids(w.box, c.source) == {} {
      EmptyTickHandlesNone(o, c, rules, w);
    } else {
      assert UidsFrom(w.box, c.source, 0) == Uids(w.box, c.source);
      TickLoopOnce(o, c, rules, w, c.batchSize, 0, {}, []);
    }
    AscendingOnce(RunTick(o, c, rules, w).handled);
  }

  /** Nobody else at work, no failure, and a matcher that fails on every message. */
  function NoMatch(wraps: bool): (o: Oracle)
    ensures Steady(o, MatchError) && o.wraps == wraps
  {
    var f := Fate(true, false, true, true, {}, map[], map[], [], true, true, 0, MatchError, 0);
    Oracle((k: nat) => f, wraps, (k: nat) => Letter("", ""), (k: nat) => "", (k: nat) => "")
  }

  /** No run of this tick, with no other client at work, takes a UID twice. */
  ghost predicate TickSurelyOnce(c: Config, rules: seq<Rule>, w: World, wraps: bool) {
    forall o: Oracle :: Quiet(o) && o.wraps == wraps ==> Once(RunTick(o, c, rules, w).handled)
  }

  /** Main result. Alone with the mailbox, a tick is sure to handle each UID at most once exactly when the
      server does not wrap "n:*", or the polled folder is empty, or holds at least `batchSize` messages. */
  lemma TickOnceIff(c: Config, rules: seq<Rule>, w: World, wraps: bool)
    requires Sound(w.box)
    ensures TickSurelyOnce(c, rules, w, wraps)
       <==> !wraps || Uids(w.box, c.source) == {} || c.batchSize <= |Uids(w.box, c.source)|
  {
    hide RunTick, OnSubject, Walk;
    var uids := Uids(w.box, c.source);
    if !wraps || uids == {} || c.batchSize <= |uids| {
      forall o: Oracle | Quiet(o) && o.wraps == wraps ensures Once(RunTick(o, c, rules, w).handled) {
        TickOnceIf(o, c, rules, w);
      }
    } else {
      var o := NoMatch(true);
      SteadyNow(o, MatchError, w);
      TickTwice(o, c, rules, w);
    }
  }

  lemma TickTwice(o: Oracle, c: Config, rules: seq<Rule>, w: World)
    requires Steady(o, MatchError) && o.wraps && Sane(w.box) && Uids(w.box, c.source) != {}
    requires c.batchSize > |Uids(w.box, c.source)|
    ensures !Once(RunTick(o, c, rules, w).handled)
  {
    hide TickLoop, Walk, CountSent;
    var uids := Uids(w.box, c.source);
    FolderExists(w.box, c.source);
    TickWalks(o, MatchError, c, rules, w, c.batchSize, 0, [], uids);
    var us := Walk(uids, 0, c.batchSize);
    assert RunTick(o, c, rules, w).handled == [] + us == us;
    if Once(us) { OnceFits(us, uids); }
  }

  // ----- an apply -----

  /** The apply ends, and has handled no UID twice. */
  ghost predicate EndsOnce(o: Oracle, c: Config, rules: seq<Rule>, folder: string, limit: int, w: World) {
    exists turns: nat ::
      var t := ApplyToFolder(o, c, rules, folder, limit, w, turns); t.ApplyEnd? && Once(t.p.handled)
  }

  ghost predicate ApplySurelyOnce(c: Config, rules: seq<Rule>, folder: string, limit: int, w: World, wraps: bool) {
    forall o: Oracle :: Quiet(o) && o.wraps == wraps ==> EndsOnce(o, c, rules, folder, limit, w)
  }

  lemma EmptyApplyEnds(o: Oracle, c: Config, rules: seq<Rule>, folder: string, limit: int, w: World)
    requires Quiet(o) && Uids(w.box, folder) == {}
    ensures var t := ApplyToFolder(o, c, rules, folder, limit, w, 1); t.ApplyEnd? && t.p.handled == []
  {
    hide SearchBox, HandleUid;
    SearchWithin(w.box, Now(o, w), o.wraps, folder, 0);
    var p := FromTheStart(w);
    assert !SearchBox(w.box, Now(o, w), o.wraps, folder, 0).1.FoundUid?;
    assert ApplyStep(o, c, rules, folder, p).ApplyEnd? && ApplyStep(o, c, rules, folder, p).p.handled == [];
    assert p.processed < Limit(limit);
  }

  /** Main result. Alone with the mailbox, an apply is sure to end and to handle each UID at most once
      exactly when the server does not wrap "n:*" or the folder is empty. */
  lemma ApplyOnceIff(c: Config, rules: seq<Rule>, folder: string, limit: int, w: World, wraps: bool)
    requires Sane(w.box)
    ensures ApplySurelyOnce(c, rules, folder, limit, w, wraps) <==> !wraps || Uids(w.box, folder) == {}
  {
    hide ApplyToFolder, Sane;
    if !wraps || Uids(w.box, folder) == {} {
      forall o: Oracle | Quiet(o) && o.wraps == wraps ensures EndsOnce(o, c, rules, folder, limit, w) {
        if !wraps {
          ApplyEnds(o, c, rules, folder, limit, w);
          ApplyReportAddsUp(o, c, rules, folder, limit, w, 0x1_0000_0000);
        } else {
          EmptyApplyEnds(o, c, rules, folder, limit, w);
        }
      }
    } else {
      var o := NoMatch(true);
      SteadyNow(o, MatchError, w);
      forall turns: nat ensures ApplyToFolder(o, c, rules, folder, limit, w, turns).ApplyOn? {
        WrappedApplyNeverEnds(o, c, rules, folder, limit, w, turns);
      }
      assert !EndsOnce(o, c, rules, folder, limit, w);
    }
  }
}
