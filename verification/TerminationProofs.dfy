/** Order, counts and ends of ticks and applies on a server that does not wrap "n:*". */
module TerminationProofs {
  import opened Imap
  import opened PollerSpec
  import opened RuleTypes
  import opened ConservationProofs

  /** A search answers with a UID below its floor exactly when the server wraps "n:*" and the folder has
      mail, but none at or above the floor. */
  lemma SearchGoesBackIff(s: Server, folder: string, floor: nat, wraps: bool)
    ensures (Hit(s, folder, floor, wraps).Some? && Hit(s, folder, floor, wraps).value < floor)
       <==> (wraps && UidsFrom(s, folder, floor) == {} && Uids(s, folder) != {})
  {
    var h := Hit(s, folder, floor, wraps);
    assert forall a <- s.mail :: a.folder == folder && floor <= a.uid ==> a.uid as nat in UidsFrom(s, folder, floor);
    if h.Some? && h.value < floor {
      assert h.value in Uids(s, folder);
    }
  }

  lemma {:induction false} TickLoopAscends(o: Oracle, c: Config, rules: seq<Rule>, w: World, turns: nat, floor: nat,
                                           skip: set<Uid>, handled: seq<Uid>)
    requires !o.wraps
    requires Ascending(handled) && forall u <- handled :: u < floor
    ensures var r := TickLoop(o, c, rules, w, turns, floor, skip, handled);
      && Ascending(r.handled) && handled <= r.handled && |r.handled| <= |handled| + turns
    decreases turns
  {
    hide HandleUid, SearchBox;
    if turns == 0 {
    } else {
      var (box, reply) := SearchBox(w.box, Now(o, w), o.wraps, c.source, floor);
      var w1 := After(w, box);
      if reply.FoundUid? {
        var u := reply.uid;
        if u in skip {
          TickLoopAscends(o, c, rules, w1, turns - 1, floor, skip, handled);
        } else {
          var floor' := if Next32(u) > floor then Next32(u) else floor;
          var (w2, h) := HandleUid(o, c, rules, w1, u);
          AscendingExtend(handled, u);
          TickLoopAscends(o, c, rules, w2, turns - 1, floor', if h == Unmatched then skip + {u} else skip,
                          handled + [u]);
        }
      }
    }
  }

  /** Main result. Without the wrap, and whatever else happens, a tick handles UIDs in strictly ascending
      order, so each at most once, and at most `batchSize` of them. */
  lemma TickAscends(o: Oracle, c: Config, rules: seq<Rule>, w: World)
    requires !o.wraps
    ensures Ascending(RunTick(o, c, rules, w).handled)
    ensures |RunTick(o, c, rules, w).handled| <= c.batchSize
  {
    hide TickLoop;
    TickLoopAscends(o, c, rules, w, c.batchSize, 0, {}, []);
  }

  ghost predicate Counted(p: Progress, limit: nat) {
    && p.matched <= p.processed <= limit
    && p.processed + p.errors == |p.handled|
  }

  ghost predicate Climbs(p: Progress) {
    Ascending(p.handled) && forall u <- p.handled :: u < p.minUid
  }

  lemma ApplyStepCounts(o: Oracle, c: Config, rules: seq<Rule>, folder: string, p: Progress, limit: nat)
    requires Counted(p, limit) && p.processed < limit
    ensures Counted(ApplyStep(o, c, rules, folder, p).p, limit)
    ensures !o.wraps && Climbs(p) ==> Climbs(ApplyStep(o, c, rules, folder, p).p)
  {
    hide HandleUid, SearchBox;
    var (box, reply) := SearchBox(p.w.box, Now(o, p.w), o.wraps, folder, p.minUid);
    if reply.FoundUid? && !o.wraps && Climbs(p) { AscendingExtend(p.handled, reply.uid); }
  }

  lemma {:induction false} ApplyTurnsCounts(o: Oracle, c: Config, rules: seq<Rule>, folder: string, limit: nat,
                                            p: Progress, turns: nat)
    requires Counted(p, limit)
    ensures var q := ApplyTurns(o, c, rules, folder, limit, p, turns).p;
      Counted(q, limit) && (!o.wraps && Climbs(p) ==> Climbs(q))
    decreases turns
  {
    hide ApplyStep, Counted, Climbs;
    if p.processed >= limit || turns == 0 {
    } else {
      ApplyStepCounts(o, c, rules, folder, p, limit);
      match ApplyStep(o, c, rules, folder, p)
      case ApplyEnd(_, _) =>
      case ApplyOn(q) => ApplyTurnsCounts(o, c, rules, folder, limit, q, turns - 1);
    }
  }

  /** Main result. At every moment of an apply its report adds up: Matched <= Processed <= limit, and
      Processed + Errors is the number of UIDs handled; without the wrap, no UID is handled twice. */
  lemma ApplyReportAddsUp(o: Oracle, c: Config, rules: seq<Rule>, folder: string, limit: int, w: World, turns: nat)
    ensures var q := ApplyToFolder(o, c, rules, folder, limit, w, turns).p;
      && q.matched <= q.processed <= Limit(limit) <= 200
      && q.processed + q.errors == |q.handled|
      && (!o.wraps ==> Ascending(q.handled))
  {
    hide ApplyTurns;
    ApplyTurnsCounts(o, c, rules, folder, Limit(limit), FromTheStart(w), turns);
  }

  lemma {:induction false} ApplyTurnsEnd(o: Oracle, c: Config, rules: seq<Rule>, folder: string, limit: nat,
                                         p: Progress, turns: nat)
    requires !o.wraps && p.minUid < 0x1_0000_0000 <= p.minUid + turns
    ensures ApplyTurns(o, c, rules, folder, limit, p, turns).ApplyEnd?
    decreases turns
  {
    hide ApplyStep;
    if p.processed < limit {
      match ApplyStep(o, c, rules, folder, p)
      case ApplyEnd(_, _) =>
      case ApplyOn(q) => ApplyTurnsEnd(o, c, rules, folder, limit, q, turns - 1);
    }
  }

  /** Main result. Without the wrap every apply ends: each turn goes on strictly above, below 2^32. */
  lemma ApplyEnds(o: Oracle, c: Config, rules: seq<Rule>, folder: string, limit: int, w: World)
    requires !o.wraps
    ensures ApplyToFolder(o, c, rules, folder, limit, w, 0x1_0000_0000).ApplyEnd?
  {
    hide ApplyTurns;
    ApplyTurnsEnd(o, c, rules, folder, Limit(limit), FromTheStart(w), 0x1_0000_0000);
  }

  // ----- errors -----

  /** The last command sent was a SELECT or a SEARCH that failed. */
  predicate SearchFailed(trace: seq<Event>) {
    && trace != [] && (trace[|trace| - 1].op.Select? || trace[|trace| - 1].op.Search?)
    && trace[|trace| - 1].outcome.Failed?
  }

  lemma FailedSearch(s: Server, f: Fate, wraps: bool, folder: string, floor: nat)
    ensures var (t, reply) := SearchBox(s, f, wraps, folder, floor); reply.SearchError? <==> SearchFailed(t.trace)
  {
    hide Numbered, Arrivals, Hit;
  }

  /** A tick ends with an error only when its last search failed; one that finds nothing more ends well. */
  lemma {:induction false} TickErrors(o: Oracle, c: Config, rules: seq<Rule>, w: World, turns: nat, floor: nat,
                                      skip: set<Uid>, handled: seq<Uid>)
    ensures var t := TickLoop(o, c, rules, w, turns, floor, skip, handled);
      t.end.TickError? ==> SearchFailed(t.w.box.trace)
    decreases turns
  {
    hide SearchBox, HandleUid, SearchFailed;
    if turns == 0 {
    } else {
      FailedSearch(w.box, Now(o, w), o.wraps, c.source, floor);
      var (box, reply) := SearchBox(w.box, Now(o, w), o.wraps, c.source, floor);
      if reply.FoundUid? {
        var w1, u := After(w, box), reply.uid;
        if u in skip {
          TickErrors(o, c, rules, w1, turns - 1, floor, skip, handled);
        } else {
          var (w2, h) := HandleUid(o, c, rules, w1, u);
          TickErrors(o, c, rules, w2, turns - 1, if Next32(u) > floor then Next32(u) else floor,
                     if h == Unmatched then skip + {u} else skip, handled + [u]);
        }
      }
    }
  }
}
