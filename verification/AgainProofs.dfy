/** How a message is taken again, and exactly when it cannot be. */
module AgainProofs {
  import opened Wrappers
  import opened Imap
  import opened Text
  import opened PollerSpec
  import opened RuleTypes
  import opened Seqs
  import opened SessionProofs
  import opened ConservationProofs
  import opened AccountingProofs
  import opened TerminationProofs
  import opened WrapProofs
  import opened OnceProofs
  import opened FailureProofs
  import opened TakenProofs

  // ----- actions that bring a message back -----

  /** Every listing names this trash folder; "" for none. */
  ghost predicate TrashIs(o: Oracle, trash: string) {
    forall k: nat :: TrashName(o.fate(k).folders) == trash
  }

  /** The action moves a message of this folder into this folder. */
  predicate Returns(a: Action, folder: string, trash: string) {
    folder != "" && ((a.kind == "move_to_folder" && a.value == folder) || (a.kind == "delete" && trash == folder))
  }

  predicate SomeReturn(actions: seq<Action>, folder: string, trash: string) {
    exists a <- actions :: Returns(a, folder, trash)
  }

  predicate SomeRuleReturns(rules: seq<Rule>, folder: string, trash: string) {
    exists r <- rules :: SomeReturn(r.actions, folder, trash)
  }

  lemma AllLeaveUnlessReturns(o: Oracle, w: World, rules: seq<Rule>, folder: string, trash: string)
    requires TrashIs(o, trash) && w.trash in {"", trash} && !SomeRuleReturns(rules, folder, trash)
    ensures AllLeave(o, w, rules, folder)
  {
    hide TrashName;
    forall r | r in rules ensures Leaves(o, w, r.actions, folder) {
      assert !SomeReturn(r.actions, folder, trash);
      forall a | a in r.actions
        ensures (a.kind == "move_to_folder" && a.value != "" ==> a.value != folder)
             && (a.kind == "delete" ==> TrashElsewhere(o, w, folder))
      {
        assert !Returns(a, folder, trash);
      }
    }
  }

  // ----- from now on every match fails, or no rule matches -----

  ghost predicate VerdictFrom(o: Oracle, v: Verdict, from: nat) {
    forall k: nat :: from <= k ==> SteadyFate(o.fate(k), v)
  }

  ghost predicate ErrorsFrom(o: Oracle, from: nat) {
    VerdictFrom(o, MatchError, from)
  }

  /** One turn of it: a message is taken, and stays. */
  lemma StillTurn(o: Oracle, v: Verdict, c: Config, rules: seq<Rule>, folder: string, w: World, floor: nat,
                  uids: set<nat>)
    returns (u: Uid, x: World)
    requires v in {MatchError, NoRule} && Quiet(o) && VerdictFrom(o, v, w.clock) && Sane(w.box)
    requires Stocked(w, folder, uids) && (o.wraps || From(uids, floor) != {})
    ensures u as nat == Answer(uids, floor) && Addr(folder, u) in w.box.mail
    ensures var (box, reply) := SearchBox(w.box, Now(o, w), o.wraps, folder, floor);
      && box.mail == w.box.mail && Sane(box) && folder in box.next
      && reply == FoundUid(u)
      && HandleUid(o, c, rules, After(w, box), u) == (x, if v == MatchError then MatchFailed else Unmatched)
    ensures x.box.mail == w.box.mail && Stocked(x, folder, uids) && Sane(x.box) && VerdictFrom(o, v, x.clock)
    ensures Taken(x.box.trace) == Taken(w.box.trace) + [w.box.mail[Addr(folder, u)].id]
  {
    hide Taken, Sane, Disturb, Hit, Peeks;
    var f := Now(o, w);
    assert SteadyFate(f, v);
    DisturbPeaceful(w.box, f);
    var t := SelectBox(w.box, f, folder);
    assert Uids(t, folder) == uids;
    FromOfFolder(t, folder, floor);
    SearchTakes(w.box, f, o.wraps, folder, floor);
    var (box, reply) := SearchBox(w.box, f, o.wraps, folder, floor);
    u := reply.uid;
    var w1 := After(w, box);
    SearchIsSane(w.box, f, o.wraps, folder, floor);
    var g := Now(o, w1);
    assert SteadyFate(g, v);
    DisturbPeaceful(box, g);
    HandleTakes(o, c, rules, w1, u);
    x := HandleUid(o, c, rules, w1, u).0;
    PeeksMail(o, After(w1, FetchOne(box, g, u).0), u, g.peeks);
    HandleUidAccounts(o, c, rules, w1, u);
    StillSane(w1, x);
    assert Uids(x.box, folder) == uids;
  }

  lemma ErrorTurn(o: Oracle, c: Config, rules: seq<Rule>, folder: string, w: World, floor: nat, uids: set<nat>)
    returns (u: Uid, x: World)
    requires Quiet(o) && ErrorsFrom(o, w.clock) && Sane(w.box)
    requires Stocked(w, folder, uids) && (o.wraps || From(uids, floor) != {})
    ensures u as nat == Answer(uids, floor) && Addr(folder, u) in w.box.mail
    ensures var (box, reply) := SearchBox(w.box, Now(o, w), o.wraps, folder, floor);
      reply == FoundUid(u) && HandleUid(o, c, rules, After(w, box), u) == (x, MatchFailed)
    ensures x.box.mail == w.box.mail && Stocked(x, folder, uids) && Sane(x.box) && ErrorsFrom(o, x.clock)
    ensures Taken(x.box.trace) == Taken(w.box.trace) + [w.box.mail[Addr(folder, u)].id]
  {
    hide SearchBox, HandleUid, Taken, Sane, VerdictFrom, Stocked, From, Answer;
    u, x := StillTurn(o, MatchError, c, rules, folder, w, floor, uids);
  }

  ghost predicate SkipsBelow(skip: set<Uid>, uids: set<nat>, floor: nat) {
    forall u: Uid :: u in skip <==> u as nat in uids && u < floor
  }

  lemma UnmatchedStep(o: Oracle, c: Config, rules: seq<Rule>, w: World, turns: nat, floor: nat, skip: set<Uid>,
                      handled: seq<Uid>, uids: set<nat>) returns (u: Uid, x: World)
    requires Quiet(o) && VerdictFrom(o, NoRule, w.clock) && Sane(w.box) && Stocked(w, c.source, uids) && turns > 0
    requires SkipsBelow(skip, uids, floor) && From(uids, floor) != {}
    ensures u as nat == Least(From(uids, floor)) && From(uids, u as nat + 1) == From(uids, floor) - {u as nat}
    ensures VerdictFrom(o, NoRule, x.clock) && Sane(x.box) && Stocked(x, c.source, uids)
    ensures SkipsBelow(skip + {u}, uids, u as nat + 1) && u as nat in uids
    ensures TickLoop(o, c, rules, w, turns, floor, skip, handled)
         == TickLoop(o, c, rules, x, turns - 1, u as nat + 1, skip + {u}, handled + [u])
  {
    hide SearchBox, HandleUid, Taken, Sane, VerdictFrom, Stocked, Quiet;
    StockedMail(w, c.source, uids);
    u, x := StillTurn(o, NoRule, c, rules, c.source, w, floor, uids);
    AnswerAbove(uids, floor);
    hide Answer, From;
    InFrom(uids, floor, u);
    SkipMore(skip, uids, floor, u);
  }

  lemma SkippedStep(o: Oracle, c: Config, rules: seq<Rule>, w: World, turns: nat, floor: nat, skip: set<Uid>,
                    handled: seq<Uid>, uids: set<nat>) returns (x: World)
    requires Quiet(o) && VerdictFrom(o, NoRule, w.clock) && Sane(w.box) && Stocked(w, c.source, uids) && turns > 0
    requires SkipsBelow(skip, uids, floor) && From(uids, floor) == {} && o.wraps
    ensures VerdictFrom(o, NoRule, x.clock) && Sane(x.box) && Stocked(x, c.source, uids)
    ensures TickLoop(o, c, rules, w, turns, floor, skip, handled)
         == TickLoop(o, c, rules, x, turns - 1, floor, skip, handled)
  {
    hide SearchBox, HandleUid, Taken, Sane, VerdictFrom, Stocked, Quiet;
    StockedMail(w, c.source, uids);
    var u: Uid, y: World;
    u, y := StillTurn(o, NoRule, c, rules, c.source, w, floor, uids);
    AnswerBeyond(uids, floor);
    hide Answer;
    assert u as nat in uids && !(u as nat in From(uids, floor));
    x := After(w, SearchBox(w.box, Now(o, w), o.wraps, c.source, floor).0);
    StillStocked(w, x, c.source, uids);
    VerdictOn(o, NoRule, w.clock, w.clock + 1);
  }

  /** While no rule matches, the skip set holds what was handled: each message is handled once, wrap or not. */
  lemma {:induction false} UnmatchedLoop(o: Oracle, c: Config, rules: seq<Rule>, w: World, turns: nat, floor: nat,
                                         skip: set<Uid>, handled: seq<Uid>, uids: set<nat>)
    requires Quiet(o) && VerdictFrom(o, NoRule, w.clock) && Sane(w.box) && Stocked(w, c.source, uids)
    requires SkipsBelow(skip, uids, floor)
    ensures TickLoop(o, c, rules, w, turns, floor, skip, handled).handled
         == handled + Smallest(From(uids, floor), turns)
    decreases turns
  {
    hide TickLoop, Sane, VerdictFrom, Stocked, From, Smallest, Quiet, SkipsBelow;
    var above := From(uids, floor);
    SmallestUnfold(above, turns);
    Nothing(handled);
    if turns == 0 {
      NoTurnsLeft(o, c, rules, w, floor, skip, handled);
    } else if above != {} {
      var u: Uid, x: World;
      u, x := UnmatchedStep(o, c, rules, w, turns, floor, skip, handled, uids);
      UnmatchedLoop(o, c, rules, x, turns - 1, u as nat + 1, skip + {u}, handled + [u], uids);
      Concat(handled, [u as nat], Smallest(above - {u as nat}, turns - 1));
    } else if o.wraps {
      var x := SkippedStep(o, c, rules, w, turns, floor, skip, handled, uids);
      UnmatchedLoop(o, c, rules, x, turns - 1, floor, skip, handled, uids);
      SmallestUnfold(above, turns - 1);
    } else {
      NoneAbove(o, c, rules, w, turns, floor, skip, handled, uids);
    }
  }

  lemma NoTurnsLeft(o: Oracle, c: Config, rules: seq<Rule>, w: World, floor: nat, skip: set<Uid>, handled: seq<Uid>)
    ensures TickLoop(o, c, rules, w, 0, floor, skip, handled).handled == handled
  {
  }

  lemma InFrom(uids: set<nat>, floor: nat, u: Uid)
    requires u as nat in From(uids, floor) && forall v <- From(uids, floor) :: u as nat <= v
    ensures u as nat in uids && floor <= u && forall v <- uids :: floor <= v ==> u as nat <= v
  {
    forall v | v in uids && floor <= v ensures u as nat <= v {
      assert v in From(uids, floor);
    }
  }

  lemma SkipMore(skip: set<Uid>, uids: set<nat>, floor: nat, u: Uid)
    requires SkipsBelow(skip, uids, floor) && u as nat in uids && floor <= u
    requires forall v <- uids :: floor <= v ==> u as nat <= v
    ensures u !in skip && SkipsBelow(skip + {u}, uids, u as nat + 1)
  {
  }

  lemma StillStocked(w: World, v: World, folder: string, uids: set<nat>)
    requires Stocked(w, folder, uids) && v.box.mail == w.box.mail && folder in v.box.next
    ensures Stocked(v, folder, uids)
  {
    assert Uids(v.box, folder) == Uids(w.box, folder);
  }

  lemma VerdictOn(o: Oracle, v: Verdict, from: nat, from': nat)
    requires VerdictFrom(o, v, from) && from <= from'
    ensures VerdictFrom(o, v, from')
  {
  }

  lemma NoneAbove(o: Oracle, c: Config, rules: seq<Rule>, w: World, turns: nat, floor: nat, skip: set<Uid>,
                  handled: seq<Uid>, uids: set<nat>)
    requires Quiet(o) && !o.wraps && Stocked(w, c.source, uids) && From(uids, floor) == {} && turns > 0
    ensures TickLoop(o, c, rules, w, turns, floor, skip, handled).handled == handled
  {
    hide HandleUid;
    DisturbPeaceful(w.box, Now(o, w));
    var t := SelectBox(w.box, Now(o, w), c.source);
    assert Uids(t, c.source) == uids;
    FromOfFolder(t, c.source, floor);
    assert !SearchBox(w.box, Now(o, w), o.wraps, c.source, floor).1.FoundUid?;
  }

  /** Main result. When nothing fails and no rule matches, a tick handles each of the smallest `batchSize` UIDs once,
      even on a server that wraps. */
  lemma UnmatchedHandledOnce(o: Oracle, c: Config, rules: seq<Rule>, w: World)
    requires Steady(o, NoRule) && Sane(w.box) && Uids(w.box, c.source) != {}
    ensures RunTick(o, c, rules, w).handled == Smallest(Uids(w.box, c.source), c.batchSize)
  {
    hide TickLoop, Smallest;
    SteadyNow(o, NoRule, w);
    FolderExists(w.box, c.source);
    var uids := Uids(w.box, c.source);
    assert From(uids, 0) == uids;
    UnmatchedLoop(o, c, rules, w, c.batchSize, 0, {}, [], uids);
    Nothing(Smallest(uids, c.batchSize));
  }

  lemma SearchIsSane(s: Server, f: Fate, wraps: bool, folder: string, floor: nat)
    requires Sane(s)
    ensures Sane(SearchBox(s, f, wraps, folder, floor).0)
  {
    hide Disturb, Hit;
    DisturbKeeps(s, f);
  }

  lemma {:induction false} PeeksMail(o: Oracle, w: World, uid: Uid, n: nat)
    requires Quiet(o)
    ensures var v := Peeks(o, w, uid, n);
      v.box.mail == w.box.mail && v.box.next == w.box.next && v.box.owner == w.box.owner && v.clock == w.clock + n
    decreases n
  {
    if n == 0 {
    } else {
      DisturbPeaceful(w.box, Now(o, w));
      PeeksMail(o, After(w, PeekOne(w.box, Now(o, w), uid)), uid, n - 1);
    }
  }

  /** A message that no rule matches, or whose fetch or match fails, is left as it is, flags and all. */
  lemma UnmatchedMailStands(o: Oracle, c: Config, rules: seq<Rule>, w: World, uid: Uid)
    requires Quiet(o)
    ensures var (v, h) := HandleUid(o, c, rules, w, uid); !h.Matched? ==> v.box.mail == w.box.mail
  {
    hide Peeks, ActOnMatch, Disturb;
    var f := Now(o, w);
    DisturbPeaceful(w.box, f);
    PeeksMail(o, After(w, FetchOne(w.box, f, uid).0), uid, f.peeks);
  }

  /** So many turns and the last message of the folder has been taken. */
  function TurnsToLast(uids: set<nat>, floor: nat): nat {
    if From(uids, floor) == {} then 1 else |From(uids, floor)|
  }

  lemma OneTurnNearer(uids: set<nat>, floor: nat)
    requires uids != {}
    ensures TurnsToLast(uids, floor) == 1 ==>
      Answer(uids, floor) == Greatest(uids) && From(uids, Greatest(uids) + 1) == {}
    ensures TurnsToLast(uids, floor) > 1 ==>
      && From(uids, Answer(uids, floor) + 1) != {}
      && TurnsToLast(uids, Answer(uids, floor) + 1) == TurnsToLast(uids, floor) - 1
      && Answer(uids, floor) >= floor
  {
    var above := From(uids, floor);
    if above == {} {
      AnswerBeyond(uids, floor);
    } else {
      AnswerAbove(uids, floor);
      if |above| == 1 {
        var u := Answer(uids, floor);
        assert above - {u} == {};
        assert Greatest(uids) in above;
      }
    }
  }

  /** `more` messages were taken since, among them the one whose turn was last. */
  ghost predicate TookTo(w: World, x: World, folder: string, uids: set<nat>, more: seq<nat>) {
    && uids != {} && Taken(x.box.trace) == Taken(w.box.trace) + more
    && exists u: Uid :: u as nat == Greatest(uids) && Addr(folder, u) in w.box.mail
         && w.box.mail[Addr(folder, u)].id in more
  }

  lemma TookLast(w: World, x: World, folder: string, uids: set<nat>, u: Uid)
    requires uids != {} && u as nat == Greatest(uids) && Addr(folder, u) in w.box.mail
    requires Taken(x.box.trace) == Taken(w.box.trace) + [w.box.mail[Addr(folder, u)].id]
    ensures TookTo(w, x, folder, uids, [w.box.mail[Addr(folder, u)].id])
  {
  }

  lemma TookMore(w: World, x: World, y: World, folder: string, uids: set<nat>, id: nat, more: seq<nat>)
    requires Taken(x.box.trace) == Taken(w.box.trace) + [id] && x.box.mail == w.box.mail
    requires TookTo(x, y, folder, uids, more)
    ensures TookTo(w, y, folder, uids, [id] + more)
  {
    Concat(Taken(w.box.trace), [id], more);
  }

  lemma {:induction false} TickErrors(o: Oracle, c: Config, rules: seq<Rule>, w: World, turns: nat, floor: nat,
                                      handled: seq<Uid>, uids: set<nat>)
    returns (x: World, handled': seq<Uid>, more: seq<nat>)
    requires Quiet(o) && ErrorsFrom(o, w.clock) && Sane(w.box)
    requires Stocked(w, c.source, uids) && (o.wraps || From(uids, floor) != {})
    requires floor <= Greatest(uids) + 1 && TurnsToLast(uids, floor) <= turns
    ensures TickLoop(o, c, rules, w, turns, floor, {}, handled)
         == TickLoop(o, c, rules, x, turns - TurnsToLast(uids, floor), Greatest(uids) + 1, {}, handled')
    ensures x.box.mail == w.box.mail && Stocked(x, c.source, uids) && Sane(x.box) && ErrorsFrom(o, x.clock)
    ensures TookTo(w, x, c.source, uids, more)
    decreases turns
  {
    hide SearchBox, HandleUid, Stocked, Taken, Sane, ErrorsFrom, Answer, From, TurnsToLast, TookTo, Quiet;
    StockedMail(w, c.source, uids);
    OneTurnNearer(uids, floor);
    AtLeastOne(uids, floor);
    var u: Uid, y: World;
    u, y := ErrorTurn(o, c, rules, c.source, w, floor, uids);
    var id := w.box.mail[Addr(c.source, u)].id;
    if TurnsToLast(uids, floor) == 1 {
      x, handled', more := y, handled + [u], [id];
      TookLast(w, y, c.source, uids, u);
    } else {
      x, handled', more := TickErrors(o, c, rules, y, turns - 1, u as nat + 1, handled + [u], uids);
      TookMore(w, y, x, c.source, uids, id, more);
      more := [id] + more;
    }
  }

  lemma AtLeastOne(uids: set<nat>, floor: nat)
    ensures TurnsToLast(uids, floor) >= 1
  {
  }

  lemma {:induction false} ApplyErrors(o: Oracle, c: Config, rules: seq<Rule>, folder: string, limit: nat, p: Progress,
                                       turns: nat, uids: set<nat>) returns (q: Progress, more: seq<nat>)
    requires Quiet(o) && ErrorsFrom(o, p.w.clock) && Sane(p.w.box) && p.processed < limit
    requires Stocked(p.w, folder, uids) && (o.wraps || From(uids, p.minUid) != {})
    requires TurnsToLast(uids, p.minUid) <= turns
    ensures ApplyTurns(o, c, rules, folder, limit, p, turns)
         == ApplyTurns(o, c, rules, folder, limit, q, turns - TurnsToLast(uids, p.minUid))
    ensures q.processed == p.processed && q.minUid == Greatest(uids) + 1
    ensures q.w.box.mail == p.w.box.mail && Stocked(q.w, folder, uids) && Sane(q.w.box) && ErrorsFrom(o, q.w.clock)
    ensures TookTo(p.w, q.w, folder, uids, more)
    decreases turns
  {
    hide SearchBox, HandleUid, Stocked, Taken, Sane, ErrorsFrom, Answer, From, TurnsToLast, TookTo, Quiet;
    StockedMail(p.w, folder, uids);
    OneTurnNearer(uids, p.minUid);
    AtLeastOne(uids, p.minUid);
    var u: Uid, y: World;
    u, y := ErrorTurn(o, c, rules, folder, p.w, p.minUid, uids);
    var id := p.w.box.mail[Addr(folder, u)].id;
    var p1 := ApplyStep(o, c, rules, folder, p).p;
    assert p1.w == y && p1.minUid == u as nat + 1 && p1.processed == p.processed;
    if TurnsToLast(uids, p.minUid) == 1 {
      q, more := p1, [id];
      TookLast(p.w, y, folder, uids, u);
    } else {
      q, more := ApplyErrors(o, c, rules, folder, limit, p1, turns - 1, uids);
      TookMore(p.w, y, q.w, folder, uids, id, more);
      more := [id] + more;
    }
  }

  // ----- what was taken stays taken -----

  ghost predicate TakenOnly(w: World, v: World) {
    Sane(v.box) && Taken(w.box.trace) <= Taken(v.box.trace)
  }

  lemma SearchTakesOnly(o: Oracle, w: World, folder: string, floor: nat)
    requires Sane(w.box)
    ensures TakenOnly(w, After(w, SearchBox(w.box, Now(o, w), o.wraps, folder, floor).0))
  {
    hide SearchBox, Taken, Sane;
    SearchTakes(w.box, Now(o, w), o.wraps, folder, floor);
    SearchIsSane(w.box, Now(o, w), o.wraps, folder, floor);
  }

  lemma HandleTakesOnly(o: Oracle, c: Config, rules: seq<Rule>, w: World, uid: Uid)
    requires Sane(w.box)
    ensures TakenOnly(w, HandleUid(o, c, rules, w, uid).0)
  {
    hide HandleUid, Taken, Sane, Accounted;
    HandleTakes(o, c, rules, w, uid);
    HandleUidAccounts(o, c, rules, w, uid);
    StillSane(w, HandleUid(o, c, rules, w, uid).0);
  }

  lemma {:induction false} TickTakesOnly(o: Oracle, c: Config, rules: seq<Rule>, w: World, turns: nat, floor: nat,
                                         skip: set<Uid>, handled: seq<Uid>)
    requires Sane(w.box)
    ensures TakenOnly(w, TickLoop(o, c, rules, w, turns, floor, skip, handled).w)
    decreases turns
  {
    hide SearchBox, HandleUid, Taken, Sane;
    if turns == 0 {
    } else {
      SearchTakesOnly(o, w, c.source, floor);
      var (box, reply) := SearchBox(w.box, Now(o, w), o.wraps, c.source, floor);
      var w1 := After(w, box);
      if reply.FoundUid? {
        var u := reply.uid;
        if u in skip {
          TickTakesOnly(o, c, rules, w1, turns - 1, floor, skip, handled);
        } else {
          HandleTakesOnly(o, c, rules, w1, u);
          var floor' := if Next32(u) > floor then Next32(u) else floor;
          var (w2, h) := HandleUid(o, c, rules, w1, u);
          TickTakesOnly(o, c, rules, w2, turns - 1, floor', if h == Unmatched then skip + {u} else skip, handled + [u]);
        }
      }
    }
  }

  lemma TakenTwice(first: seq<nat>, second: seq<nat>, all: seq<nat>, id: nat)
    requires id in first && id in second && first + second <= all
    ensures !Once(all)
  {
    var i :| 0 <= i < |first| && first[i] == id;
    var j :| 0 <= j < |second| && second[j] == id;
    assert all[i] == (first + second)[i] && all[|first| + j] == (first + second)[|first| + j];
  }

  // ----- a move back into the folder -----

  /** A message of this folder was moved to a new UID of it. */
  ghost predicate CameBack(s: Server, t: Server, folder: string, u: Uid) {
    && Addr(folder, u) in s.mail && folder in s.next && 1 <= s.next[folder] < UID_LIMIT
    && t.mail == (s.mail - {Addr(folder, u)})[Addr(folder, s.next[folder]) := s.mail[Addr(folder, u)]]
    && folder in t.next && t.next[folder] == s.next[folder] + 1
  }

  lemma MoveBack(o: Oracle, c: Config, job: Job, e: Exec, a: Action, folder: string, relabel: bool)
    requires var f := Now(o, e.w); Peaceful(f) && f.ok && !f.uidKnown
    requires e.w.box.selected == Some(folder) && Addr(folder, e.uid) in e.w.box.mail
    requires folder in e.w.box.next && 1 <= e.w.box.next[folder] < UID_LIMIT
    ensures var r := MoveAndFollow(o, c, job, e, a, folder, relabel);
      && r.stopped && r.moved == e.moved && r.w.clock == e.w.clock + 1
      && r.w.box.selected == Some(folder) && CameBack(e.w.box, r.w.box, folder, e.uid)
  {
    hide IncrementAll, StatKeys, Disturb;
    DisturbPeaceful(e.w.box, Now(o, e.w));
  }

  /** The action succeeds without a UID to report, so the list stops there. */
  lemma ActBack(o: Oracle, c: Config, job: Job, e: Exec, a: Action, folder: string, trash: string)
    requires forall k: nat :: e.w.clock <= k ==> var f := o.fate(k); Peaceful(f) && f.ok && !f.uidKnown
    requires TrashIs(o, trash) && e.w.trash in {"", trash} && Returns(a, folder, trash)
    requires e.w.box.selected == Some(folder) && Addr(folder, e.uid) in e.w.box.mail
    requires folder in e.w.box.next && 1 <= e.w.box.next[folder] < UID_LIMIT
    ensures var r := Act(o, c, job, e, a);
      && r.stopped && r.moved == e.moved && e.w.clock < r.w.clock
      && r.w.box.selected == Some(folder) && CameBack(e.w.box, r.w.box, folder, e.uid)
  {
    hide MoveAndFollow, Disturb, CameBack, TrashName;
    if a.kind == "delete" {
      DisturbPeaceful(e.w.box, Now(o, e.w));
      var (w1, found) := FindTrash(o, e.w);
      assert found == Some(folder) && w1.box == e.w.box;
      MoveBack(o, c, job, e.(w := w1), a, folder, false);
    } else {
      MoveBack(o, c, job, e, a, folder, true);
    }
  }

  /** A search and a fetch that succeed, a match, failures up to some moment, and from then on nothing fails but the
      matcher, and no move reports its UID. */
  function OneReturn(trash: string, start: nat, i: nat, until: nat): (o: Oracle)
    ensures Quiet(o) && !o.wraps && TrashIs(o, trash)
    ensures forall id: nat :: o.letter(id) == Letter("", "")
    ensures var f := o.fate(start); f.ok && f.selectOk
    ensures var f := o.fate(start + 1); f.ok && f.peeks == 0 && f.verdict == MatchedRule(i)
    ensures forall k: nat :: start + 1 < k < until ==> Failing(o.fate(k))
    ensures start + 1 < until ==> ErrorsFrom(o, until)
    ensures start + 1 < until ==> forall k: nat :: until <= k ==> var f := o.fate(k); Peaceful(f) && f.ok && !f.uidKnown
  {
    ListingNames(trash);
    var f := Fate(true, false, true, false, {}, map[], map[], Listing(trash), false, true, 0, MatchError, 0);
    Oracle((k: nat) => if k == start + 1 then f.(verdict := MatchedRule(i))
           else if start < k < until then f.(ok := false)
                       else f,
           false, (k: nat) => Letter("", ""), (k: nat) => "", (k: nat) => "")
  }

  function Listing(trash: string): seq<FolderInfo> {
    if trash == "" then [] else [FolderInfo(trash, "\\Trash")]
  }

  lemma ListingNames(trash: string)
    ensures TrashName(Listing(trash)) == trash
  {
    assert OccursAt("\\Trash", "\\Trash", 0);
  }

  /** A matched list with such an action, of which all before it fail: the message is back under a new UID. */
  lemma ListBack(o: Oracle, c: Config, job: Job, w: World, uid: Uid, actions: seq<Action>, j: nat, folder: string,
                 trash: string)
    requires j < |actions| && Returns(actions[j], folder, trash) && TrashIs(o, trash) && w.trash in {"", trash}
    requires var n := StepsAll(c, job, actions[..j]);
      && FailsFor(o, w.clock, n)
      && forall k: nat :: w.clock + n <= k ==> var f := o.fate(k); Peaceful(f) && f.ok && !f.uidKnown
    requires w.box.selected == Some(folder) && Addr(folder, uid) in w.box.mail
    requires folder in w.box.next && 1 <= w.box.next[folder] < UID_LIMIT
    ensures var r := ActAll(o, c, job, Start(w, uid), actions);
      && !r.moved && r.w.box.selected == Some(folder) && CameBack(w.box, r.w.box, folder, uid)
      && w.clock + StepsAll(c, job, actions[..j]) < r.w.clock
  {
    hide Act, CameBack, Returns, Failing, FailsFor, StepsAll, Peaceful, TrashName;
    var e0 := Start(w, uid);
    var pre, rest := actions[..j], actions[j + 1..];
    FailingActAll(o, c, job, e0, pre);
    var e1 := ActAll(o, c, job, e0, pre);
    ActBack(o, c, job, e1, actions[j], folder, trash);
    SameCameBack(w.box, e1.w.box, Act(o, c, job, e1, actions[j]).w.box, folder, uid);
    assert actions == pre + ([actions[j]] + rest);
    ActAllAppend(o, c, job, e0, pre, [actions[j]] + rest);
    assert ([actions[j]] + rest)[1..] == rest;
  }

  lemma SameCameBack(s: Server, t: Server, x: Server, folder: string, u: Uid)
    requires t.mail == s.mail && t.next == s.next && CameBack(t, x, folder, u)
    ensures CameBack(s, x, folder, u)
  {
  }

  lemma MatchBack(o: Oracle, c: Config, w: World, rule: Rule, uid: Uid, id: nat, j: nat, folder: string, trash: string)
    requires j < |rule.actions| && Returns(rule.actions[j], folder, trash) && TrashIs(o, trash)
        && w.trash in {"", trash}
    requires var n := StepsAll(c, JobFor(o, rule, id), rule.actions[..j]);
      && FailsFor(o, w.clock, n)
      && forall k: nat :: w.clock + n <= k ==> var f := o.fate(k); Peaceful(f) && f.ok && !f.uidKnown
    requires w.box.selected == Some(folder) && Addr(folder, uid) in w.box.mail
    requires folder in w.box.next && 1 <= w.box.next[folder] < UID_LIMIT && uid as nat < w.box.next[folder]
    ensures var v := ActOnMatch(o, c, w, rule, uid, id);
      && CameBack(w.box, v.box, folder, uid)
      && w.clock + StepsAll(c, JobFor(o, rule, id), rule.actions[..j]) <= v.clock
  {
    hide ActAll, Returns, FailsFor, StepsAll, TrashName, Disturb;
    var job := JobFor(o, rule, id);
    ListBack(o, c, job, w, uid, rule.actions, j, folder, trash);
    var e := ActAll(o, c, job, Start(w, uid), rule.actions);
    DisturbPeaceful(e.w.box, Now(o, e.w));
  }

  function BlankJob(rule: Rule): Job {
    Job(rule, "", "")
  }

  lemma Placed(s: Server, folder: string, u: Uid)
    requires Sane(s) && Addr(folder, u) in s.mail
    ensures folder in s.next && 1 <= u as nat < s.next[folder] <= UID_LIMIT
  {
  }

  /** The first turn of such a run: the first message is taken and comes back behind all others. */
  lemma ReturnTurn(o: Oracle, c: Config, rules: seq<Rule>, w: World, folder: string, i: nat, j: nat, trash: string)
    returns (u: Uid, x: World)
    requires i < |rules| && j < |rules[i].actions| && Returns(rules[i].actions[j], folder, trash)
    requires o == OneReturn(trash, w.clock, i, w.clock + 2 + StepsAll(c, BlankJob(rules[i]), rules[i].actions[..j]))
    requires Sane(w.box) && Uids(w.box, folder) != {} && w.trash in {"", trash}
    requires folder in w.box.next && w.box.next[folder] < UID_LIMIT
    ensures u as nat == Least(Uids(w.box, folder)) && Addr(folder, u) in w.box.mail
    ensures var (box, reply) := SearchBox(w.box, Now(o, w), o.wraps, folder, 0);
      reply == FoundUid(u) && HandleUid(o, c, rules, After(w, box), u) == (x, Matched(|rules[i].actions|))
    ensures CameBack(w.box, x.box, folder, u) && Sane(x.box) && ErrorsFrom(o, x.clock)
    ensures Taken(x.box.trace) == Taken(w.box.trace) + [w.box.mail[Addr(folder, u)].id]
  {
    hide SearchBox, ActOnMatch, CameBack, Returns, Failing, StepsAll, Taken, TrashName, Disturb, Sane, Quiet,
         ErrorsFrom, OneReturn;
    u := FirstFound(o, w, folder);
    Placed(w.box, folder, u);
    SearchTakes(w.box, Now(o, w), o.wraps, folder, 0);
    SearchIsSane(w.box, Now(o, w), o.wraps, folder, 0);
    var (box, reply) := SearchBox(w.box, Now(o, w), o.wraps, folder, 0);
    var w1 := After(w, box);
    var f := Now(o, w1);
    QuietDisturb(o, w1);
    HandleTakes(o, c, rules, w1, u);
    QuietNow(o, w1);
    var (box2, got) := FetchOne(box, f, u);
    var w2 := After(w1, box2);
    assert Peeks(o, w2, u, 0) == w2;
    assert JobFor(o, rules[i], got.value) == BlankJob(rules[i]);
    MatchBack(o, c, w2, rules[i], u, got.value, j, folder, trash);
    x := HandleUid(o, c, rules, w1, u).0;
    SameCameBack(w.box, w2.box, x.box, folder, u);
    HandleUidAccounts(o, c, rules, w1, u);
    StillSane(w1, x);
    ErrorsOn(o, w.clock + 2 + StepsAll(c, BlankJob(rules[i]), rules[i].actions[..j]), x.clock);
  }

  lemma QuietNow(o: Oracle, w: World)
    requires Quiet(o)
    ensures Peaceful(Now(o, w))
  {
  }

  lemma ErrorsOn(o: Oracle, from: nat, from': nat)
    requires ErrorsFrom(o, from) && from <= from'
    ensures ErrorsFrom(o, from')
  {
    VerdictOn(o, MatchError, from, from');
  }

  lemma BackUids(s: Server, t: Server, folder: string, u: Uid)
    requires Sane(s) && CameBack(s, t, folder, u)
    ensures Uids(t, folder) == Uids(s, folder) - {u as nat} + {s.next[folder]}
    ensures u as nat in Uids(s, folder) && forall v <- Uids(s, folder) :: v < s.next[folder]
  {
    var before, after, n := Uids(s, folder), Uids(t, folder), s.next[folder];
    forall v | v in before ensures v < n {
      var a :| a in s.mail && a.folder == folder && a.uid as nat == v;
      assert a in s.owner;
    }
    assert Addr(folder, n) in t.mail && n in after;
    forall v | v in after ensures v in before - {u as nat} + {n} {
      var a :| a in t.mail && a.folder == folder && a.uid as nat == v;
    }
    forall v | v in before - {u as nat} + {n} ensures v in after {
      if v != n {
        var a :| a in s.mail && a.folder == folder && a.uid as nat == v;
        assert a in t.mail;
      }
    }
  }

  /** The folder holds as many messages as before, the one that came back last. */
  lemma BackLast(s: Server, t: Server, folder: string, u: Uid)
    requires Sane(s) && CameBack(s, t, folder, u) && Uids(s, folder) != {} && u as nat == Least(Uids(s, folder))
    ensures var after := Uids(t, folder);
      && after != {} && |after| == |Uids(s, folder)| && From(after, u as nat + 1) == after
      && Greatest(after) == s.next[folder] && u as nat < s.next[folder]
      && Addr(folder, s.next[folder]) in t.mail
      && t.mail[Addr(folder, s.next[folder])].id == s.mail[Addr(folder, u)].id
  {
    BackUids(s, t, folder, u);
    hide Uids, Sane;
    var before, after, n := Uids(s, folder), Uids(t, folder), s.next[folder];
    assert |before - {u as nat}| == |before| - 1;
    assert n !in before - {u as nat} && n in after;
  }

  /** Nobody else at work, no failure, and a matcher that fails on every message. */
  function AllErrors(wraps: bool, trash: string): (o: Oracle)
    ensures Quiet(o) && o.wraps == wraps && TrashIs(o, trash) && forall from: nat :: ErrorsFrom(o, from)
  {
    ListingNames(trash);
    var f := Fate(true, false, true, true, {}, map[], map[], Listing(trash), true, true, 0, MatchError, 0);
    Oracle((k: nat) => f, wraps, (k: nat) => Letter("", ""), (k: nat) => "", (k: nat) => "")
  }

  lemma IdOfLast(w: World, x: World, folder: string, uids: set<nat>, more: seq<nat>, u: Uid)
    requires TookTo(w, x, folder, uids, more) && u as nat == Greatest(uids)
    ensures Addr(folder, u) in w.box.mail && w.box.mail[Addr(folder, u)].id in more
    ensures Taken(x.box.trace) == Taken(w.box.trace) + more
  {
  }

  // ----- a tick -----

  lemma TickReturnTwice(o: Oracle, c: Config, rules: seq<Rule>, w: World, i: nat, j: nat, trash: string)
    requires i < |rules| && j < |rules[i].actions| && Returns(rules[i].actions[j], c.source, trash)
    requires o == OneReturn(trash, w.clock, i, w.clock + 2 + StepsAll(c, BlankJob(rules[i]), rules[i].actions[..j]))
    requires Sane(w.box) && Uids(w.box, c.source) != {} && w.trash in {"", trash}
    requires c.source in w.box.next && w.box.next[c.source] < UID_LIMIT && c.batchSize > |Uids(w.box, c.source)|
    ensures !Once(Taken(RunTick(o, c, rules, w).w.box.trace))
  {
    hide SearchBox, HandleUid, CameBack, Returns, StepsAll, Taken, Sane, Quiet, ErrorsFrom, OneReturn, Uids, TookTo,
         Once, From, TrashIs, Least, Greatest;
    var u, x := ReturnTurn(o, c, rules, w, c.source, i, j, trash);
    var uids := Uids(x.box, c.source);
    BackLast(w.box, x.box, c.source, u);
    CameBackStocked(w.box, x, c.source, u);
    var y, handled, more := TickErrors(o, c, rules, x, c.batchSize - 1, u as nat + 1, [u], uids);
    IdOfLast(x, y, c.source, uids, more, w.box.next[c.source]);
    var left := c.batchSize - 1 - |uids|;
    TickTakesOnly(o, c, rules, y, left, Greatest(uids) + 1, {}, handled);
    assert [] + [u] == [u] && Next32(u) == u as nat + 1;
    assert RunTick(o, c, rules, w) == TickLoop(o, c, rules, x, c.batchSize - 1, u as nat + 1, {}, [u]);
    TakenTwice(Taken(x.box.trace), more, Taken(RunTick(o, c, rules, w).w.box.trace), w.box.mail[Addr(c.source, u)].id);
  }

  lemma CameBackStocked(s: Server, x: World, folder: string, u: Uid)
    requires CameBack(s, x.box, folder, u) && Uids(x.box, folder) != {}
    ensures Stocked(x, folder, Uids(x.box, folder))
  {
  }

  lemma TickWrapTwice(o: Oracle, c: Config, rules: seq<Rule>, w: World)
    requires Quiet(o) && o.wraps && ErrorsFrom(o, w.clock) && Sane(w.box)
    requires Uids(w.box, c.source) != {} && c.batchSize > |Uids(w.box, c.source)|
    ensures !Once(Taken(RunTick(o, c, rules, w).w.box.trace))
  {
    hide SearchBox, HandleUid, TurnsToLast, Taken, Sane, Quiet, ErrorsFrom, TookTo, Once, Greatest, Stocked, From, Uids;
    var uids := Uids(w.box, c.source);
    WholeFolder(w, c.source);
    var last := LastUid(w, c.source, uids);
    var y, handled, more := TickErrors(o, c, rules, w, c.batchSize, 0, [], uids);
    IdOfLast(w, y, c.source, uids, more, last);
    var left := c.batchSize - |uids|;
    var z, handled', again := TickErrors(o, c, rules, y, left, Greatest(uids) + 1, handled, uids);
    IdOfLast(y, z, c.source, uids, again, last);
    TickTakesOnly(o, c, rules, z, left - 1, Greatest(uids) + 1, {}, handled');
    assert RunTick(o, c, rules, w) == TickLoop(o, c, rules, z, left - 1, Greatest(uids) + 1, {}, handled');
    TakenTwice(Taken(y.box.trace), again, Taken(RunTick(o, c, rules, w).w.box.trace),
               w.box.mail[Addr(c.source, last)].id);
  }

  lemma WholeFolder(w: World, folder: string)
    requires Sane(w.box) && Uids(w.box, folder) != {}
    ensures var uids := Uids(w.box, folder);
      && Stocked(w, folder, uids) && From(uids, 0) == uids && TurnsToLast(uids, 0) == |uids|
      && From(uids, Greatest(uids) + 1) == {} && TurnsToLast(uids, Greatest(uids) + 1) == 1
  {
    FolderExists(w.box, folder);
    var uids := Uids(w.box, folder);
    assert From(uids, 0) == uids && From(uids, Greatest(uids) + 1) == {};
  }

  lemma LastUid(w: World, folder: string, uids: set<nat>) returns (u: Uid)
    requires Stocked(w, folder, uids)
    ensures u as nat == Greatest(uids)
  {
    var a :| a in w.box.mail && a.folder == folder && a.uid as nat == Greatest(uids);
    u := a.uid;
  }

  /** No run of this tick, with no other client at work, takes a message twice. */
  ghost predicate TickSurelyTakesOnce(c: Config, rules: seq<Rule>, w: World, wraps: bool, trash: string) {
    forall o: Oracle :: Quiet(o) && o.wraps == wraps && TrashIs(o, trash) ==>
      Once(Taken(RunTick(o, c, rules, w).w.box.trace))
  }

  /** A fresh session, UIDs left in the folder, and the trash folder not yet looked for, or found. */
  ghost predicate Fresh(w: World, folder: string, trash: string) {
    && Sane(w.box) && OneHome(w.box) && w.box.trace == [] && w.trash in {"", trash}
    && (folder in w.box.next ==> w.box.next[folder] < UID_LIMIT)
  }

  lemma Begins(w: World, folder: string, trash: string)
    requires Fresh(w, folder, trash)
    ensures Since(w.box, w) && TakenBelow(w.box, folder, Taken(w.box.trace), 0) && Taken(w.box.trace) == []
    ensures NothingNew(w.box, w.box, folder, 0) && Lasting(w.box, w.box, folder, 0)
  {
  }

  lemma EmptyTickTakesNone(o: Oracle, c: Config, rules: seq<Rule>, w: World)
    requires Quiet(o) && Uids(w.box, c.source) == {}
    ensures Taken(RunTick(o, c, rules, w).w.box.trace) == Taken(w.box.trace)
  {
    hide SearchBox, HandleUid, Taken;
    SearchWithin(w.box, Now(o, w), o.wraps, c.source, 0);
    SearchTakes(w.box, Now(o, w), o.wraps, c.source, 0);
    var (box, reply) := SearchBox(w.box, Now(o, w), o.wraps, c.source, 0);
    assert c.batchSize > 0 ==> TickLoop(o, c, rules, w, c.batchSize, 0, {}, []).w.box == box;
  }

  lemma TickTakesOnceIf(o: Oracle, c: Config, rules: seq<Rule>, w: World, trash: string)
    requires Quiet(o) && TrashIs(o, trash) && Fresh(w, c.source, trash)
    requires var uids := Uids(w.box, c.source);
      uids == {} || c.batchSize <= |uids| || (!o.wraps && !SomeRuleReturns(rules, c.source, trash))
    ensures Once(Taken(RunTick(o, c, rules, w).w.box.trace))
  {
    hide TickLoop, Since, TakenBelow, NothingNew, Lasting, SomeRuleReturns, TrashIs;
    Begins(w, c.source, trash);
    if Uids(w.box, c.source) == {} {
      EmptyTickTakesNone(o, c, rules, w);
    } else if c.batchSize <= |Uids(w.box, c.source)| {
      assert UidsFrom(w.box, c.source, 0) == Uids(w.box, c.source);
      FullTickTakesOnce(o, c, rules, w, c.batchSize, 0, {}, [], w.box);
    } else {
      AllLeaveUnlessReturns(o, w, rules, c.source, trash);
      TickLoopTakesOnce(o, c, rules, w, c.batchSize, 0, {}, [], w.box);
    }
  }

  /** Main result. Alone with the mailbox, a tick is sure to take no message twice exactly when the polled folder is
      empty, or holds at least `batchSize` messages, or the server does not wrap "n:*" and no rule moves a message of
      that folder into that folder. */
  lemma TickTakesOnceIff(c: Config, rules: seq<Rule>, w: World, wraps: bool, trash: string)
    requires Fresh(w, c.source, trash)
    ensures TickSurelyTakesOnce(c, rules, w, wraps, trash)
       <==> || Uids(w.box, c.source) == {} || c.batchSize <= |Uids(w.box, c.source)|
            || (!wraps && !SomeRuleReturns(rules, c.source, trash))
  {
    hide RunTick, Taken, Once, Quiet, TrashIs, OneHome;
    var uids := Uids(w.box, c.source);
    if uids == {} || c.batchSize <= |uids| || (!wraps && !SomeRuleReturns(rules, c.source, trash)) {
      forall o: Oracle | Quiet(o) && o.wraps == wraps && TrashIs(o, trash)
        ensures Once(Taken(RunTick(o, c, rules, w).w.box.trace))
      {
        TickTakesOnceIf(o, c, rules, w, trash);
      }
    } else if wraps {
      TickWrapTwice(AllErrors(true, trash), c, rules, w);
    } else {
      FolderExists(w.box, c.source);
      var i, j := WhereItReturns(rules, c.source, trash);
      var o := OneReturn(trash, w.clock, i, w.clock + 2 + StepsAll(c, BlankJob(rules[i]), rules[i].actions[..j]));
      TickReturnTwice(o, c, rules, w, i, j, trash);
    }
  }

  lemma WhereItReturns(rules: seq<Rule>, folder: string, trash: string) returns (i: nat, j: nat)
    requires SomeRuleReturns(rules, folder, trash)
    ensures i < |rules| && j < |rules[i].actions| && Returns(rules[i].actions[j], folder, trash)
  {
    hide Returns;
    var r :| r in rules && SomeReturn(r.actions, folder, trash);
    i :| 0 <= i < |rules| && rules[i] == r;
    var a :| a in r.actions && Returns(a, folder, trash);
    j :| 0 <= j < |r.actions| && r.actions[j] == a;
  }

  // ----- an apply -----

  lemma ApplyReturnTwice(o: Oracle, c: Config, rules: seq<Rule>, folder: string, limit: nat, w: World, i: nat, j: nat,
                         trash: string)
    requires i < |rules| && j < |rules[i].actions| && Returns(rules[i].actions[j], folder, trash)
    requires o == OneReturn(trash, w.clock, i, w.clock + 2 + StepsAll(c, BlankJob(rules[i]), rules[i].actions[..j]))
    requires Sane(w.box) && Uids(w.box, folder) != {} && w.trash in {"", trash} && limit > 1
    requires folder in w.box.next && w.box.next[folder] < UID_LIMIT
    ensures var n := 1 + |Uids(w.box, folder)|;
      !Once(Taken(ApplyTurns(o, c, rules, folder, limit, FromTheStart(w), n).p.w.box.trace))
  {
    hide SearchBox, HandleUid, CameBack, Returns, StepsAll, Taken, Sane, Quiet, ErrorsFrom, OneReturn, Uids, TookTo,
         Once, From, TrashIs, Least, Greatest;
    var u, x := ReturnTurn(o, c, rules, w, folder, i, j, trash);
    var uids, p := Uids(x.box, folder), FromTheStart(w);
    BackLast(w.box, x.box, folder, u);
    CameBackStocked(w.box, x, folder, u);
    var p1 := ApplyStep(o, c, rules, folder, p).p;
    assert p1.w == x && p1.minUid == u as nat + 1 && p1.processed == 1;
    var q, more := ApplyErrors(o, c, rules, folder, limit, p1, |uids|, uids);
    IdOfLast(x, q.w, folder, uids, more, w.box.next[folder]);
    assert ApplyTurns(o, c, rules, folder, limit, p, 1 + |uids|) == ApplyTurns(o, c, rules, folder, limit, q, 0);
    TakenTwice(Taken(x.box.trace), more, Taken(q.w.box.trace), w.box.mail[Addr(folder, u)].id);
  }

  lemma ApplyWrapTwice(o: Oracle, c: Config, rules: seq<Rule>, folder: string, limit: nat, w: World)
    requires Quiet(o) && o.wraps && ErrorsFrom(o, w.clock) && Sane(w.box) && limit > 0
    requires Uids(w.box, folder) != {}
    ensures var n := |Uids(w.box, folder)| + 1;
      !Once(Taken(ApplyTurns(o, c, rules, folder, limit, FromTheStart(w), n).p.w.box.trace))
  {
    hide SearchBox, HandleUid, TurnsToLast, Taken, Sane, Quiet, ErrorsFrom, TookTo, Once, Greatest, Stocked, From, Uids;
    var uids, p := Uids(w.box, folder), FromTheStart(w);
    WholeFolder(w, folder);
    var last := LastUid(w, folder, uids);
    var q, more := ApplyErrors(o, c, rules, folder, limit, p, |uids| + 1, uids);
    IdOfLast(w, q.w, folder, uids, more, last);
    var r, again := ApplyErrors(o, c, rules, folder, limit, q, 1, uids);
    IdOfLast(q.w, r.w, folder, uids, again, last);
    assert ApplyTurns(o, c, rules, folder, limit, p, |uids| + 1) == ApplyTurns(o, c, rules, folder, limit, r, 0);
    TakenTwice(Taken(q.w.box.trace), again, Taken(r.w.box.trace), w.box.mail[Addr(folder, last)].id);
  }

  /** The apply ends, and at no moment has it taken a message twice. */
  ghost predicate EndsHavingTakenOnce(o: Oracle, c: Config, rules: seq<Rule>, folder: string, limit: int, w: World) {
    && (exists turns: nat :: ApplyToFolder(o, c, rules, folder, limit, w, turns).ApplyEnd?)
    && forall turns: nat :: Once(Taken(ApplyToFolder(o, c, rules, folder, limit, w, turns).p.w.box.trace))
  }

  /** Every run of this apply, with no other client at work. */
  ghost predicate ApplySurelyTakesOnce(c: Config, rules: seq<Rule>, folder: string, limit: int, w: World, wraps: bool,
                                       trash: string) {
    forall o: Oracle :: Quiet(o) && o.wraps == wraps && TrashIs(o, trash) ==>
      EndsHavingTakenOnce(o, c, rules, folder, limit, w)
  }

  lemma TakenTwiceByThen(o: Oracle, c: Config, rules: seq<Rule>, folder: string, limit: int, w: World, turns: nat)
    requires !Once(Taken(ApplyTurns(o, c, rules, folder, Limit(limit), FromTheStart(w), turns).p.w.box.trace))
    ensures !EndsHavingTakenOnce(o, c, rules, folder, limit, w)
  {
    hide ApplyTurns, Taken, Once;
    assert ApplyToFolder(o, c, rules, folder, limit, w, turns)
        == ApplyTurns(o, c, rules, folder, Limit(limit), FromTheStart(w), turns);
  }

  lemma EmptyApplyTakesNone(o: Oracle, c: Config, rules: seq<Rule>, folder: string, limit: int, w: World, turns: nat)
    requires Quiet(o) && Uids(w.box, folder) == {}
    ensures Taken(ApplyToFolder(o, c, rules, folder, limit, w, turns).p.w.box.trace) == Taken(w.box.trace)
  {
    hide SearchBox, HandleUid, Taken;
    SearchWithin(w.box, Now(o, w), o.wraps, folder, 0);
    SearchTakes(w.box, Now(o, w), o.wraps, folder, 0);
    var p := FromTheStart(w);
    assert !SearchBox(w.box, Now(o, w), o.wraps, folder, 0).1.FoundUid?;
    assert ApplyStep(o, c, rules, folder, p).ApplyEnd?;
  }

  lemma ApplyTakesOnceIf(o: Oracle, c: Config, rules: seq<Rule>, folder: string, limit: int, w: World, trash: string)
    requires Quiet(o) && TrashIs(o, trash) && Fresh(w, folder, trash)
    requires Uids(w.box, folder) == {}
          || (!o.wraps && (Limit(limit) == 1 || !SomeRuleReturns(rules, folder, trash)))
    ensures EndsHavingTakenOnce(o, c, rules, folder, limit, w)
  {
    hide ApplyTurns, Since, TakenBelow, NothingNew, Lasting, SomeRuleReturns, TrashIs, Taken;
    Begins(w, folder, trash);
    if Uids(w.box, folder) == {} {
      EmptyApplyEnds(o, c, rules, folder, limit, w);
      forall turns: nat ensures Once(Taken(ApplyToFolder(o, c, rules, folder, limit, w, turns).p.w.box.trace)) {
        EmptyApplyTakesNone(o, c, rules, folder, limit, w, turns);
      }
    } else {
      ApplyEnds(o, c, rules, folder, limit, w);
      if !SomeRuleReturns(rules, folder, trash) { AllLeaveUnlessReturns(o, w, rules, folder, trash); }
      forall turns: nat ensures Once(Taken(ApplyToFolder(o, c, rules, folder, limit, w, turns).p.w.box.trace)) {
        ApplyTakesOnce(o, c, rules, folder, Limit(limit), FromTheStart(w), turns, w.box);
      }
    }
  }

  /** Main result. Alone with the mailbox, an apply is sure to end and to take no message twice exactly when the folder
      is empty, or the server does not wrap "n:*" and no rule moves a message of that folder into that folder, or the
      limit is one. */
  lemma ApplyTakesOnceIff(c: Config, rules: seq<Rule>, folder: string, limit: int, w: World, wraps: bool, trash: string)
    requires Fresh(w, folder, trash)
    ensures ApplySurelyTakesOnce(c, rules, folder, limit, w, wraps, trash)
       <==> || Uids(w.box, folder) == {}
            || (!wraps && (Limit(limit) == 1 || !SomeRuleReturns(rules, folder, trash)))
  {
    hide ApplyTurns, Taken, Once, Quiet, TrashIs, OneHome, SomeRuleReturns;
    if Uids(w.box, folder) == {} || (!wraps && (Limit(limit) == 1 || !SomeRuleReturns(rules, folder, trash))) {
      forall o: Oracle | Quiet(o) && o.wraps == wraps && TrashIs(o, trash)
        ensures EndsHavingTakenOnce(o, c, rules, folder, limit, w)
      {
        ApplyTakesOnceIf(o, c, rules, folder, limit, w, trash);
      }
    } else if wraps {
      ApplyWrapTwice(AllErrors(true, trash), c, rules, folder, Limit(limit), w);
      TakenTwiceByThen(AllErrors(true, trash), c, rules, folder, limit, w, |Uids(w.box, folder)| + 1);
    } else {
      FolderExists(w.box, folder);
      var i, j := WhereItReturns(rules, folder, trash);
      var o := OneReturn(trash, w.clock, i, w.clock + 2 + StepsAll(c, BlankJob(rules[i]), rules[i].actions[..j]));
      ApplyReturnTwice(o, c, rules, folder, Limit(limit), w, i, j, trash);
      TakenTwiceByThen(o, c, rules, folder, limit, w, 1 + |Uids(w.box, folder)|);
    }
  }

  // ----- a case in point: the catch-all, applied to the folder it moves to -----

  /** Nothing fails, and the matcher always answers with the first rule. */
  ghost predicate AlwaysFirst(o: Oracle) {
    Steady(o, MatchedRule(0))
  }

  lemma MoveBackAnyhow(o: Oracle, c: Config, job: Job, e: Exec, a: Action, folder: string)
    requires AlwaysFirst(o) && e.w.box.selected == Some(folder) && Addr(folder, e.uid) in e.w.box.mail
    requires folder in e.w.box.next && 1 <= e.w.box.next[folder] < UID_LIMIT
    ensures var r := MoveAndFollow(o, c, job, e, a, folder, true);
      CameBack(e.w.box, r.w.box, folder, e.uid) && r.w.box.selected == Some(folder) && (r.moved || !e.moved)
  {
    hide IncrementAll, StatKeys, Disturb;
    SteadyNow(o, MatchedRule(0), e.w);
    DisturbPeaceful(e.w.box, Now(o, e.w));
    var (box, reply) := MoveOne(e.w.box, Now(o, e.w), e.uid, folder);
    SteadyNow(o, MatchedRule(0), After(e.w, box));
    DisturbPeaceful(box, Now(o, After(e.w, box)));
  }

  lemma CatchAllBack(o: Oracle, c: Config, w: World, rule: Rule, uid: Uid, id: nat, folder: string)
    requires AlwaysFirst(o) && folder != "" && rule.actions == [Action("move_to_folder", folder)]
    requires w.box.selected == Some(folder) && Addr(folder, uid) in w.box.mail
    requires folder in w.box.next && uid as nat < w.box.next[folder] < UID_LIMIT
    ensures CameBack(w.box, ActOnMatch(o, c, w, rule, uid, id).box, folder, uid)
  {
    hide MoveAndFollow, Disturb;
    var job, a := JobFor(o, rule, id), rule.actions[0];
    MoveBackAnyhow(o, c, job, Start(w, uid), a, folder);
    var e := Act(o, c, job, Start(w, uid), a);
    assert rule.actions[1..] == [];
    assert ActAll(o, c, job, e, []) == e;
    assert ActAll(o, c, job, Start(w, uid), rule.actions) == e;
    SteadyNow(o, MatchedRule(0), e.w);
    DisturbPeaceful(e.w.box, Now(o, e.w));
  }

  lemma CatchAllTurn(o: Oracle, c: Config, rule: Rule, folder: string, p: Progress, u: Uid) returns (n: Uid)
    requires AlwaysFirst(o) && folder != "" && rule.actions == [Action("move_to_folder", folder)]
    requires Sane(p.w.box) && Uids(p.w.box, folder) == {u as nat} && Addr(folder, u) in p.w.box.mail && p.minUid <= u
    requires folder in p.w.box.next && p.w.box.next[folder] < UID_LIMIT
    ensures var t := ApplyStep(o, c, [rule], folder, p); var id := p.w.box.mail[Addr(folder, u)].id;
      && t.ApplyOn? && t.p.processed == p.processed + 1 && t.p.matched == p.matched + 1
      && Sane(t.p.w.box) && Uids(t.p.w.box, folder) == {n as nat} && t.p.minUid <= n
      && Addr(folder, n) in t.p.w.box.mail && t.p.w.box.mail[Addr(folder, n)].id == id
      && folder in t.p.w.box.next && t.p.w.box.next[folder] == p.w.box.next[folder] + 1
      && Taken(t.p.w.box.trace) == Taken(p.w.box.trace) + [id]
  {
    hide SearchBox, ActOnMatch, Taken, Disturb, Sane, Uids, Steady;
    SteadyNow(o, MatchedRule(0), p.w);
    Placed(p.w.box, folder, u);
    OnlyOne(p.w.box, folder, u, p.minUid);
    var v := SearchFinds(o, p.w, folder, p.minUid);
    assert v == u;
    var (box, reply) := SearchBox(p.w.box, Now(o, p.w), o.wraps, folder, p.minUid);
    SearchTakes(p.w.box, Now(o, p.w), o.wraps, folder, p.minUid);
    SearchIsSane(p.w.box, Now(o, p.w), o.wraps, folder, p.minUid);
    var w1 := After(p.w, box);
    CatchAllHandled(o, c, rule, folder, w1, u);
    HandleUidAccounts(o, c, [rule], w1, u);
    var x := HandleUid(o, c, [rule], w1, u).0;
    StillSane(w1, x);
    SameCameBack(p.w.box, box, x.box, folder, u);
    BackUids(p.w.box, x.box, folder, u);
    n := p.w.box.next[folder];
  }

  lemma OnlyOne(s: Server, folder: string, u: Uid, floor: nat)
    requires Uids(s, folder) == {u as nat} && floor <= u
    ensures UidsFrom(s, folder, floor) == {u as nat} && Least({u as nat}) == u as nat
  {
    assert u as nat in Uids(s, folder);
    forall v | v in UidsFrom(s, folder, floor) ensures v == u as nat {
      assert v in Uids(s, folder);
    }
  }

  lemma CatchAllHandled(o: Oracle, c: Config, rule: Rule, folder: string, w: World, u: Uid)
    requires AlwaysFirst(o) && folder != "" && rule.actions == [Action("move_to_folder", folder)]
    requires Sane(w.box) && w.box.selected == Some(folder) && Addr(folder, u) in w.box.mail
    requires folder in w.box.next && u as nat < w.box.next[folder] < UID_LIMIT
    ensures var (x, h) := HandleUid(o, c, [rule], w, u);
      && h == Matched(1) && CameBack(w.box, x.box, folder, u)
      && Taken(x.box.trace) == Taken(w.box.trace) + [w.box.mail[Addr(folder, u)].id]
  {
    hide ActOnMatch, Taken, Disturb, Peeks, Steady;
    SteadyNow(o, MatchedRule(0), w);
    var f := Now(o, w);
    DisturbPeaceful(w.box, f);
    HandleTakes(o, c, [rule], w, u);
    var (box, got) := FetchOne(w.box, f, u);
    var w1 := After(w, box);
    PeeksMail(o, w1, u, f.peeks);
    PeeksStay(o, w1, u, f.peeks);
    var w2 := Peeks(o, w1, u, f.peeks);
    CatchAllBack(o, c, w2, rule, u, got.value, folder);
    SameCameBack(w.box, w2.box, ActOnMatch(o, c, w2, rule, u, got.value).box, folder, u);
  }

  lemma {:induction false} CatchAllTurns(o: Oracle, c: Config, rule: Rule, folder: string, limit: nat, p: Progress,
                                         u: Uid, turns: nat)
    requires AlwaysFirst(o) && folder != "" && rule.actions == [Action("move_to_folder", folder)]
    requires Sane(p.w.box) && Uids(p.w.box, folder) == {u as nat} && Addr(folder, u) in p.w.box.mail && p.minUid <= u
    requires folder in p.w.box.next && p.w.box.next[folder] + turns <= UID_LIMIT && p.processed + turns == limit
    ensures var t := ApplyTurns(o, c, [rule], folder, limit, p, turns);
      && t.ApplyEnd? && t.p.matched == p.matched + turns
      && Taken(t.p.w.box.trace) == Taken(p.w.box.trace) + Repeat(p.w.box.mail[Addr(folder, u)].id, turns)
    decreases turns
  {
    hide ApplyStep, Taken, Sane, Uids, Steady;
    var id := p.w.box.mail[Addr(folder, u)].id;
    RepeatUnfold(id, turns);
    if turns == 0 {
      Nothing(Taken(p.w.box.trace));
    } else {
      var n := CatchAllTurn(o, c, rule, folder, p, u);
      CatchAllTurns(o, c, rule, folder, limit, ApplyStep(o, c, [rule], folder, p).p, n, turns - 1);
      Concat(Taken(p.w.box.trace), [id], Repeat(id, turns - 1));
    }
  }

  /** A finding, whether or not the server wraps. With one message in INBOX and the built-in catch-all, which moves
      what no other rule matches to INBOX, an apply to INBOX takes that message `limit` times. */
  lemma CatchAllTakesAgain(o: Oracle, c: Config, rule: Rule, limit: int, w: World, u: Uid)
    requires Steady(o, MatchedRule(0)) && rule.actions == [Action("move_to_folder", "INBOX")]
    requires Sane(w.box) && Uids(w.box, "INBOX") == {u as nat} && Addr("INBOX", u) in w.box.mail && w.box.trace == []
    requires "INBOX" in w.box.next && w.box.next["INBOX"] + Limit(limit) <= UID_LIMIT
    ensures var t := ApplyToFolder(o, c, [rule], "INBOX", limit, w, Limit(limit));
      && t.ApplyEnd? && t.p.matched == Limit(limit)
      && Taken(t.p.w.box.trace) == Repeat(w.box.mail[Addr("INBOX", u)].id, Limit(limit))
  {
    hide ApplyTurns, Taken, Sane, Uids, Steady;
    CatchAllTurns(o, c, rule, "INBOX", Limit(limit), FromTheStart(w), u, Limit(limit));
    NoneTaken();
  }

  lemma NoneTaken()
    ensures Taken([]) == []
  {
  }
}
