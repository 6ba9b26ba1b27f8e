/**
 With no other client at work: no message is lost or doubled, every command finds its message, and a
 tick handles exactly the smallest UIDs of its folder, in order.
*/
module ConservationProofs {
  import opened Wrappers
  import opened Imap
  import opened PollerSpec
  import opened RuleTypes
  import opened Seqs
  import opened SessionProofs
  import opened AddressingProofs

  ghost predicate Quiet(o: Oracle) {
    forall k: nat :: Peaceful(o.fate(k))
  }

  /** Nothing but the message under `uid` came to or left `folder`. */
  ghost predicate OnlyUid(s: Server, t: Server, folder: string, uid: Uid) {
    forall a: Addr :: a.folder == folder && a.uid != uid ==> (a in s.mail <==> a in t.mail)
  }

  /** Between two actions of one list that began at `s0` with message `u`. */
  ghost predicate Calm(s0: Server, e: Exec, u: Uid) {
    && Sane(e.w.box)
    && Conserved(s0, e.w.box)
    && Held(e.w.box, e.uid)
    && e.stopped == LostTrack(e.w.box.trace)
  }

  /** Nothing came to `folder`, and the selection is on it only at the UID `u`. */
  ghost predicate Outward(s0: Server, e: Exec, folder: string, u: Uid) {
    && OnlyUid(s0, e.w.box, folder, u)
    && (e.w.box.selected == Some(folder) ==> e.uid == u)
  }

  /** The trash folder is another one, the one known so far and the one any listing names. */
  ghost predicate TrashElsewhere(o: Oracle, w: World, folder: string) {
    folder == "" || (w.trash != folder && forall k: nat :: TrashName(o.fate(k).folders) != folder)
  }

  /** No action of the list moves its message into `folder`. */
  ghost predicate Leaves(o: Oracle, w: World, actions: seq<Action>, folder: string) {
    forall a <- actions ::
      && (a.kind == "move_to_folder" && a.value != "" ==> a.value != folder)
      && (a.kind == "delete" ==> TrashElsewhere(o, w, folder))
  }

  ghost predicate AllLeave(o: Oracle, w: World, rules: seq<Rule>, folder: string) {
    forall r <- rules :: Leaves(o, w, r.actions, folder)
  }

  /** Only a folder that a listing names becomes the trash folder. */
  ghost predicate TrashFrom(o: Oracle, w: World, v: World) {
    v.trash == w.trash || exists k: nat :: v.trash == TrashName(o.fate(k).folders)
  }

  lemma TrashKeptAway(o: Oracle, w: World, v: World, rules: seq<Rule>, folder: string)
    requires TrashFrom(o, w, v)
    ensures TrashElsewhere(o, w, folder) ==> TrashElsewhere(o, v, folder)
    ensures AllLeave(o, w, rules, folder) ==> AllLeave(o, v, rules, folder)
  {
  }

  lemma LeavesKept(o: Oracle, w: World, v: World, actions: seq<Action>, folder: string)
    requires TrashFrom(o, w, v) && Leaves(o, w, actions, folder)
    ensures Leaves(o, v, actions, folder)
  {
    hide TrashFrom, TrashElsewhere;
    TrashKeptAway(o, w, v, [], folder);
  }

  lemma MoveCalm(s0: Server, s: Server, f: Fate, uid: Uid, dest: string, id: nat, u: Uid, folder: string)
    requires Peaceful(f) && Sane(s) && Conserved(s0, s) && Held(s, uid) && !LostTrack(s.trace) && Focus(s, uid, id)
    ensures var (t, r) := MoveOne(s, f, uid, dest);
      && Sane(t) && Conserved(s0, t) && t.selected == s.selected
      && (r.MovedTo? ==> NeverMisses(t.trace) && !LostTrack(t.trace) && Addr(dest, r.uid) in t.mail)
      && (!r.MovedTo? ==> Held(t, uid) && LostTrack(t.trace) == r.MoveUnknown?)
      && (dest != folder && (s.selected == Some(folder) ==> uid == u) && OnlyUid(s0, s, folder, u)
          ==> OnlyUid(s0, t, folder, u))
  {
    hide MoveOne;
    MoveQuiet(s, f, uid, dest);
    MoveFocus(s, f, uid, dest, id);
  }

  lemma SelectCalm(s0: Server, s: Server, f: Fate, uid: Uid, dest: string, u: Uid, folder: string)
    requires Peaceful(f) && Sane(s) && Conserved(s0, s) && NeverMisses(s.trace) && !LostTrack(s.trace)
    requires Addr(dest, uid) in s.mail
    ensures var t := SelectBox(s, f, dest);
      && Sane(t) && Conserved(s0, t) && Held(t, uid) && !LostTrack(t.trace)
      && (dest != folder ==> t.selected != Some(folder))
      && (OnlyUid(s0, s, folder, u) ==> OnlyUid(s0, t, folder, u))
  {
    SelectQuiet(s, f, dest, uid);
    DisturbKeeps(s, f);
  }

  lemma MoveAndFollowCalm(o: Oracle, c: Config, job: Job, e: Exec, a: Action, dest: string, relabel: bool, s0: Server,
                          u: Uid, id: nat, folder: string)
    requires Quiet(o) && Calm(s0, e, u) && !e.stopped && OnJob(e, id)
    ensures var r := MoveAndFollow(o, c, job, e, a, dest, relabel);
      && Calm(s0, r, u)
      && (dest != folder && Outward(s0, e, folder, u) ==> Outward(s0, r, folder, u))
  {
    hide MoveOne, SelectBox, IncrementAll, StatKeys, NeverMisses, OnSubject, LostTrack, Subject, Focus, OnlyUid, Held,
         Conserved, Sane;
    var f := Now(o, e.w);
    var (box, reply) := MoveOne(e.w.box, f, e.uid, dest);
    MoveCalm(s0, e.w.box, f, e.uid, dest, id, u, folder);
    if reply.MovedTo? {
      var e2 := LogAction(o, c, job, e.(w := After(e.w, box)), e.uid, a, "success");
      SelectCalm(s0, box, Now(o, e2.w), reply.uid, dest, u, folder);
    }
  }

  lemma StoreAndLogCalm(o: Oracle, c: Config, job: Job, e: Exec, a: Action, flag: string, add: bool, s0: Server, u: Uid,
                        id: nat, folder: string)
    requires Quiet(o) && Calm(s0, e, u) && !e.stopped && OnJob(e, id)
    requires add ==> flag != "\\Deleted"
    ensures var r := StoreAndLog(o, c, job, e, a, flag, add);
      && Calm(s0, r, u)
      && (Outward(s0, e, folder, u) ==> Outward(s0, r, folder, u))
  {
    hide StoreOne, IncrementAll, StatKeys, NeverMisses, OnSubject, LostTrack, Subject;
    StoreQuiet(e.w.box, Now(o, e.w), e.uid, flag, add);
    StoreFocus(e.w.box, Now(o, e.w), e.uid, id, flag, add);
  }

  lemma QuietDisturb(o: Oracle, w: World)
    requires Quiet(o)
    ensures Disturb(w.box, Now(o, w)) == w.box
  {
    DisturbPeaceful(w.box, Now(o, w));
  }

  lemma ForwardAndLogCalm(o: Oracle, c: Config, job: Job, e: Exec, a: Action, s0: Server, u: Uid, id: nat,
                          folder: string)
    requires Quiet(o) && Calm(s0, e, u) && !e.stopped && OnJob(e, id)
    ensures var r := ForwardAndLog(o, c, job, e, a);
      && Calm(s0, r, u)
      && (Outward(s0, e, folder, u) ==> Outward(s0, r, folder, u))
  {
    hide RawOne, Disturb, IncrementAll, StatKeys, NeverMisses, OnSubject, LostTrack, Subject, Sane, Ids, OneHome;
    RawQuiet(e.w.box, Now(o, e.w), e.uid);
    RawFocus(e.w.box, Now(o, e.w), e.uid, id);
    var (box, ok) := RawOne(e.w.box, Now(o, e.w), e.uid);
    QuietDisturb(o, After(e.w, box));
  }

  lemma DeleteAndLogCalm(o: Oracle, c: Config, job: Job, e: Exec, a: Action, s0: Server, u: Uid, id: nat,
                         folder: string)
    requires Quiet(o) && Calm(s0, e, u) && !e.stopped && OnJob(e, id)
    ensures var r := DeleteAndLog(o, c, job, e, a);
      && Calm(s0, r, u)
      && (TrashElsewhere(o, e.w, folder) && Outward(s0, e, folder, u) ==> Outward(s0, r, folder, u))
  {
    hide MoveAndFollow, Disturb, IncrementAll, StatKeys, NeverMisses, OnSubject, LostTrack, Subject;
    QuietDisturb(o, e.w);
    var (w1, trash) := FindTrash(o, e.w);
    assert w1.box == e.w.box;
    if trash.Some? {
      MoveAndFollowCalm(o, c, job, e.(w := w1), a, trash.value, false, s0, u, id, folder);
      assert TrashElsewhere(o, e.w, folder) ==> trash.value != folder;
    }
  }

  lemma ReplyAndLogCalm(o: Oracle, c: Config, job: Job, e: Exec, a: Action)
    requires Quiet(o)
    ensures var r := ReplyAndLog(o, c, job, e, a);
      r.w.box == e.w.box && r.w.trash == e.w.trash && r.uid == e.uid && r.stopped == e.stopped
  {
    hide Disturb, IncrementAll, StatKeys;
    QuietDisturb(o, e.w);
    if job.sender != c.account {
      var f := Now(o, e.w);
      var w1 := After(e.w, e.w.box);
      QuietDisturb(o, w1);
      var w2 := Deliver(o, w1, Reply, job.sender, f.day).0;
      assert w2.box == e.w.box;
      QuietDisturb(o, w2);
    }
  }

  lemma WebhookAndLogCalm(o: Oracle, c: Config, job: Job, e: Exec, a: Action)
    requires Quiet(o)
    ensures var r := WebhookAndLog(o, c, job, e, a);
      r.w.box == e.w.box && r.w.trash == e.w.trash && r.uid == e.uid && r.stopped == e.stopped
  {
    hide Disturb, IncrementAll, StatKeys;
    QuietDisturb(o, e.w);
  }

  lemma ActCalm(o: Oracle, c: Config, job: Job, e: Exec, a: Action, s0: Server, u: Uid, id: nat, folder: string)
    requires Quiet(o) && Calm(s0, e, u) && !e.stopped && OnJob(e, id)
    ensures var r := Act(o, c, job, e, a);
      && Calm(s0, r, u)
      && (Leaves(o, e.w, [a], folder) && Outward(s0, e, folder, u) ==> Outward(s0, r, folder, u))
  {
    hide MoveAndFollow, StoreAndLog, ForwardAndLog, DeleteAndLog, ReplyAndLog, WebhookAndLog, IncrementAll, StatKeys,
         NamedFlag, OnJob, TrashElsewhere;
    assert a in [a];
    if a.kind == "move_to_folder" {
      if a.value != "" { MoveAndFollowCalm(o, c, job, e, a, a.value, true, s0, u, id, folder); }
    } else if a.kind == "mark_as_read" {
      StoreAndLogCalm(o, c, job, e, a, "\\Seen", true, s0, u, id, folder);
    } else if a.kind == "mark_as_unread" {
      StoreAndLogCalm(o, c, job, e, a, "\\Seen", false, s0, u, id, folder);
    } else if a.kind == "set_flag" {
      if a.value != "" && a.value != "\\Deleted" {
        StoreAndLogCalm(o, c, job, e, a, a.value, true, s0, u, id, folder);
      }
    } else if a.kind == "forward" {
      ForwardAndLogCalm(o, c, job, e, a, s0, u, id, folder);
    } else if a.kind == "delete" {
      DeleteAndLogCalm(o, c, job, e, a, s0, u, id, folder);
    } else if a.kind == "remove_flag" {
      if NamedFlag(a.value).Some? {
        StoreAndLogCalm(o, c, job, e, a, NamedFlag(a.value).value, false, s0, u, id, folder);
      }
    } else if a.kind == "auto_reply" {
      ReplyAndLogCalm(o, c, job, e, a);
    } else if a.kind == "webhook" {
      WebhookAndLogCalm(o, c, job, e, a);
    }
  }

  lemma MoveTrash(o: Oracle, c: Config, job: Job, e: Exec, a: Action, dest: string, relabel: bool)
    ensures MoveAndFollow(o, c, job, e, a, dest, relabel).w.trash == e.w.trash
  {
    hide MoveOne, SelectBox, IncrementAll, StatKeys;
  }

  lemma StoreTrash(o: Oracle, c: Config, job: Job, e: Exec, a: Action, flag: string, add: bool)
    ensures StoreAndLog(o, c, job, e, a, flag, add).w.trash == e.w.trash
  {
    hide StoreOne, IncrementAll, StatKeys;
  }

  lemma SendTrash(o: Oracle, c: Config, job: Job, e: Exec, a: Action)
    ensures ForwardAndLog(o, c, job, e, a).w.trash == e.w.trash
    ensures WebhookAndLog(o, c, job, e, a).w.trash == e.w.trash
    ensures ReplyAndLog(o, c, job, e, a).w.trash == e.w.trash
  {
    hide RawOne, Disturb, IncrementAll, StatKeys;
  }

  lemma DeleteTrash(o: Oracle, c: Config, job: Job, e: Exec, a: Action)
    ensures TrashFrom(o, e.w, DeleteAndLog(o, c, job, e, a).w)
  {
    hide MoveAndFollow, Disturb, IncrementAll, StatKeys, TrashName;
    var (w1, trash) := FindTrash(o, e.w);
    if trash.Some? { MoveTrash(o, c, job, e.(w := w1), a, trash.value, false); }
  }

  lemma ActTrash(o: Oracle, c: Config, job: Job, e: Exec, a: Action)
    ensures TrashFrom(o, e.w, Act(o, c, job, e, a).w)
  {
    hide MoveAndFollow, StoreAndLog, ForwardAndLog, DeleteAndLog, ReplyAndLog, WebhookAndLog, LogAction, NamedFlag,
         TrashName;
    MoveTrash(o, c, job, e, a, a.value, true);
    StoreTrash(o, c, job, e, a, "\\Seen", a.kind == "mark_as_read");
    StoreTrash(o, c, job, e, a, a.value, true);
    if NamedFlag(a.value).Some? { StoreTrash(o, c, job, e, a, NamedFlag(a.value).value, false); }
    SendTrash(o, c, job, e, a);
    DeleteTrash(o, c, job, e, a);
    LogTrash(o, c, job, e, a);
  }

  lemma LogTrash(o: Oracle, c: Config, job: Job, e: Exec, a: Action)
    ensures LogAction(o, c, job, e, e.uid, a, "error").w.trash == e.w.trash
  {
  }

  lemma {:induction false} ActAllCalm(o: Oracle, c: Config, job: Job, e: Exec, actions: seq<Action>, s0: Server, u: Uid,
                                      id: nat, folder: string)
    requires Quiet(o) && Calm(s0, e, u) && OnJob(e, id)
    ensures var r := ActAll(o, c, job, e, actions);
      && Calm(s0, r, u)
      && TrashFrom(o, e.w, r.w)
      && (Leaves(o, e.w, actions, folder) && Outward(s0, e, folder, u) ==> Outward(s0, r, folder, u))
    decreases |actions|
  {
    hide Act, Outward, Calm, OnJob, TrashElsewhere;
    if actions == [] || e.stopped {
    } else {
      ActTrash(o, c, job, e, actions[0]);
      if Leaves(o, e.w, actions, folder) {
        LeavesKept(o, e.w, Act(o, c, job, e, actions[0]).w, actions, folder);
        assert actions[0] in actions && forall a <- actions[1..] :: a in actions;
      }
      ActCalm(o, c, job, e, actions[0], s0, u, id, folder);
      ActOnJob(o, c, job, e, actions[0], id);
      ActAllCalm(o, c, job, Act(o, c, job, e, actions[0]), actions[1..], s0, u, id, folder);
    }
  }

  lemma {:induction false} PeeksCalm(o: Oracle, w: World, uid: Uid, n: nat)
    requires Quiet(o) && Held(w.box, uid) && !LostTrack(w.box.trace)
    ensures var v := Peeks(o, w, uid, n);
      && Conserved(w.box, v.box) && v.box.mail == w.box.mail && v.box.selected == w.box.selected
      && Held(v.box, uid) && !LostTrack(v.box.trace) && v.trash == w.trash
    decreases n
  {
    hide PeekOne;
    if n == 0 {
    } else {
      PeekQuiet(w.box, Now(o, w), uid);
      PeeksCalm(o, After(w, PeekOne(w.box, Now(o, w), uid)), uid, n - 1);
    }
  }

  lemma ActOnMatchCalm(o: Oracle, c: Config, w: World, rule: Rule, uid: Uid, id: nat, folder: string)
    requires Quiet(o) && Focus(w.box, uid, id) && Held(w.box, uid) && !LostTrack(w.box.trace)
    ensures var v := ActOnMatch(o, c, w, rule, uid, id);
      && Conserved(w.box, v.box) && NeverMisses(v.box.trace)
      && TrashFrom(o, w, v)
      && (Leaves(o, w, rule.actions, folder) ==> OnlyUid(w.box, v.box, folder, uid))
  {
    hide ActAll, StoreOne, Subject, OnSubject, Leaves, Sane;
    var job := JobFor(o, rule, id);
    var e := ActAll(o, c, job, Start(w, uid), rule.actions);
    ActAllOnJob(o, c, job, Start(w, uid), rule.actions, id);
    ActAllCalm(o, c, job, Start(w, uid), rule.actions, w.box, uid, id, folder);
    if !e.moved {
      StoreQuiet(e.w.box, Now(o, e.w), uid, "\\Seen", true);
    }
  }

  /** One UID of the selected mailbox, from its fetch to the final \Seen. */
  lemma HandleUidCalm(o: Oracle, c: Config, rules: seq<Rule>, w: World, uid: Uid, folder: string)
    requires Quiet(o) && Sound(w.box) && NeverMisses(w.box.trace)
    ensures var v := HandleUid(o, c, rules, w, uid).0;
      && Sound(v.box) && Conserved(w.box, v.box) && NeverMisses(v.box.trace)
      && TrashFrom(o, w, v)
      && (AllLeave(o, w, rules, folder) ==> OnlyUid(w.box, v.box, folder, uid))
  {
    hide FetchOne, ActOnMatch, Subject, OnSubject, Leaves, Peeks, Sane;
    HandleUidSound(o, c, rules, w, uid);
    var f := Now(o, w);
    FetchFocus(w.box, f, uid);
    FetchQuiet(w.box, f, uid);
    FetchKeepsTrack(w.box, f, uid);
    var (box, got) := FetchOne(w.box, f, uid);
    if got.Some? {
      var w1 := After(w, box);
      PeeksFocus(o, w1, uid, f.peeks, got.value);
      PeeksCalm(o, w1, uid, f.peeks);
      if f.verdict.MatchedRule? && f.verdict.index < |rules| {
        var w2, rule := Peeks(o, w1, uid, f.peeks), rules[f.verdict.index];
        ActOnMatchCalm(o, c, w2, rule, uid, got.value, folder);
        if AllLeave(o, w, rules, folder) { LeavesKept(o, w, w2, rule.actions, folder); }
      }
    }
  }

  lemma FetchKeepsTrack(s: Server, f: Fate, uid: Uid)
    ensures !LostTrack(FetchOne(s, f, uid).0.trace)
  {
    hide Disturb;
  }

  // ----- what a tick handles -----

  /** The n smallest members, in order. */
  function Smallest(uids: set<nat>, n: nat): seq<nat>
    decreases n
  {
    if n == 0 || uids == {} then []
    else [Least(uids)] + Smallest(uids - {Least(uids)}, n - 1)
  }

  lemma SmallestUnfold(uids: set<nat>, n: nat)
    ensures n == 0 || uids == {} ==> Smallest(uids, n) == []
    ensures n > 0 && uids != {} ==> Smallest(uids, n) == [Least(uids)] + Smallest(uids - {Least(uids)}, n - 1)
  {
  }

  ghost predicate Ascending(uids: seq<nat>) {
    forall i, j :: 0 <= i < j < |uids| ==> uids[i] < uids[j]
  }

  /** `Smallest` is what its name says. */
  lemma {:induction false} SmallestMeaning(uids: set<nat>, n: nat)
    ensures var r := Smallest(uids, n);
      && Ascending(r)
      && (forall u <- r :: u in uids)
      && |r| == (if |uids| < n then |uids| else n)
      && (forall u, v :: u in r && v in uids && v !in r ==> u < v)
    decreases n
  {
    if n == 0 || uids == {} {
    } else {
      var m := Least(uids);
      SmallestMeaning(uids - {m}, n - 1);
      var rest := Smallest(uids - {m}, n - 1);
      forall i, j | 0 <= i < j < |rest| + 1 ensures ([m] + rest)[i] < ([m] + rest)[j] {
        assert ([m] + rest)[j] == rest[j - 1] && rest[j - 1] in uids - {m};
        if i > 0 { assert ([m] + rest)[i] == rest[i - 1]; }
      }
    }
  }

  lemma OthersStay(s: Server, t: Server, folder: string, floor: nat, u: Uid)
    requires OnlyUid(s, t, folder, u)
    requires UidsFrom(s, folder, floor) != {} && u == Least(UidsFrom(s, folder, floor))
    ensures UidsFrom(t, folder, u + 1) == UidsFrom(s, folder, floor) - {u as nat}
  {
    var left, right := UidsFrom(t, folder, u + 1), UidsFrom(s, folder, floor) - {u as nat};
    forall v | v in left ensures v in right {
      var a :| a in t.mail && a.folder == folder && u + 1 <= a.uid && a.uid == v;
      assert a in s.mail;
      assert u in UidsFrom(s, folder, floor);
    }
    forall v | v in right ensures v in left {
      var a :| a in s.mail && a.folder == folder && floor <= a.uid && a.uid == v;
      assert a in t.mail;
    }
  }

  lemma AscendingExtend(uids: seq<nat>, u: nat)
    requires Ascending(uids) && forall v <- uids :: v < u
    ensures Ascending(uids + [u])
  {
    forall i, j | 0 <= i < j < |uids| + 1 ensures (uids + [u])[i] < (uids + [u])[j] {
      if j == |uids| { assert uids[i] in uids; }
    }
  }

  /** Where the folder stands before a turn. */
  ghost predicate Alone(o: Oracle, rules: seq<Rule>, w: World, folder: string) {
    && Quiet(o) && !o.wraps && AllLeave(o, w, rules, folder)
    && Sound(w.box) && NeverMisses(w.box.trace)
  }

  lemma SameTrash(o: Oracle, w: World, v: World, rules: seq<Rule>, folder: string)
    requires v.trash == w.trash
    ensures AllLeave(o, v, rules, folder) == AllLeave(o, w, rules, folder)
  {
  }

  /** A turn takes the least UID from the floor on, and leaves the ones above it. */
  lemma TurnTakesLeast(o: Oracle, c: Config, rules: seq<Rule>, w: World, folder: string, floor: nat)
    requires Alone(o, rules, w, folder)
    ensures var (box, reply) := SearchBox(w.box, Now(o, w), o.wraps, folder, floor);
      var above := UidsFrom(w.box, folder, floor);
      && (reply.NoneFound? ==> above == {})
      && (reply.FoundUid? ==>
            && floor <= reply.uid && above != {} && reply.uid == Least(above)
            && var w2 := HandleUid(o, c, rules, After(w, box), reply.uid).0;
                 && Alone(o, rules, w2, folder)
                 && UidsFrom(w2.box, folder, reply.uid + 1) == above - {reply.uid as nat})
  {
    hide HandleUid, SearchBox, NeverMisses, OnSubject, OnlyUid, AllLeave, TrashFrom, Conserved, Sane, Least, UidsFrom;
    SearchSound(w.box, Now(o, w), o.wraps, folder, floor);
    SearchQuiet(w.box, Now(o, w), o.wraps, folder, floor);
    SearchFindsLeast(w.box, Now(o, w), folder, floor);
    var (box, reply) := SearchBox(w.box, Now(o, w), o.wraps, folder, floor);
    SameUids(box, w.box, folder, floor);
    if reply.FoundUid? {
      HandleUidCalm(o, c, rules, After(w, box), reply.uid, folder);
      SameTrash(o, w, After(w, box), rules, folder);
      TrashKeptAway(o, After(w, box), HandleUid(o, c, rules, After(w, box), reply.uid).0, rules, folder);
      OthersStay(box, HandleUid(o, c, rules, After(w, box), reply.uid).0.box, folder, floor, reply.uid);
    }
  }

  lemma {:induction false} TickLoopExact(o: Oracle, c: Config, rules: seq<Rule>, w: World, turns: nat, floor: nat,
                                         skip: set<Uid>, handled: seq<Uid>)
    requires Alone(o, rules, w, c.source)
    requires forall x <- skip :: x < floor
    ensures var r := TickLoop(o, c, rules, w, turns, floor, skip, handled);
      var all := handled + Smallest(UidsFrom(w.box, c.source, floor), turns);
      r.handled <= all && (r.end == TickDone ==> r.handled == all)
    decreases turns
  {
    hide HandleUid, SearchBox, Alone, Least, UidsFrom, Smallest;
    var above := UidsFrom(w.box, c.source, floor);
    SmallestUnfold(above, turns);
    if turns == 0 {
    } else {
      TurnTakesLeast(o, c, rules, w, c.source, floor);
      var (box, reply) := SearchBox(w.box, Now(o, w), o.wraps, c.source, floor);
      if reply.FoundUid? {
        var u := reply.uid;
        var (w2, h) := HandleUid(o, c, rules, After(w, box), u);
        var skip' := if h == Unmatched then skip + {u} else skip;
        TickLoopExact(o, c, rules, w2, turns - 1, u as nat + 1, skip', handled + [u]);
        Concat(handled, [u as nat], Smallest(above - {u as nat}, turns - 1));
      }
    }
  }

  lemma SameUids(s: Server, t: Server, folder: string, floor: nat)
    requires s.mail == t.mail
    ensures UidsFrom(s, folder, floor) == UidsFrom(t, folder, floor)
  {
  }

  lemma SearchFindsLeast(s: Server, f: Fate, folder: string, floor: nat)
    requires Peaceful(f)
    ensures var (t, r) := SearchBox(s, f, false, folder, floor);
      && (r.NoneFound? ==> UidsFrom(s, folder, floor) == {})
      && (r.FoundUid? ==>
            floor <= r.uid && UidsFrom(s, folder, floor) != {} && r.uid == Least(UidsFrom(s, folder, floor)))
  {
    DisturbPeaceful(s, f);
    var t := SelectBox(s, f, folder);
    assert t.mail == s.mail;
    assert UidsFrom(t, folder, floor) == UidsFrom(s, folder, floor);
  }

  /** Main result. Alone with the mailbox, and with no action moving mail back into the polled folder, a
      tick handles exactly the `batchSize` smallest UIDs present when it began, in ascending order; one cut
      short by a failing search has handled a prefix of them. */
  lemma TickHandlesTheSmallest(o: Oracle, c: Config, rules: seq<Rule>, w: World)
    requires Quiet(o) && !o.wraps && AllLeave(o, w, rules, c.source)
    requires Sane(w.box) && w.box.trace == []
    ensures var r := RunTick(o, c, rules, w);
      var all := Smallest(Uids(w.box, c.source), c.batchSize);
      r.handled <= all && (r.end == TickDone ==> r.handled == all)
  {
    hide TickLoop, AllLeave;
    TickLoopExact(o, c, rules, w, c.batchSize, 0, {}, []);
    assert UidsFrom(w.box, c.source, 0) == Uids(w.box, c.source);
    assert [] + Smallest(Uids(w.box, c.source), c.batchSize) == Smallest(Uids(w.box, c.source), c.batchSize);
  }

  lemma ApplyStepTakes(o: Oracle, c: Config, rules: seq<Rule>, folder: string, p: Progress)
    ensures var t := ApplyStep(o, c, rules, folder, p);
      var (box, reply) := SearchBox(p.w.box, Now(o, p.w), o.wraps, folder, p.minUid);
      if reply.FoundUid? then
        && t.ApplyOn? && t.p.w == HandleUid(o, c, rules, After(p.w, box), reply.uid).0
        && t.p.minUid == reply.uid as nat + 1 && t.p.handled == p.handled + [reply.uid]
      else t.ApplyEnd? && t.p.handled == p.handled && (t.failed <==> reply.SearchError?)
  {
    hide HandleUid, SearchBox;
    var (box, reply) := SearchBox(p.w.box, Now(o, p.w), o.wraps, folder, p.minUid);
    match reply
    case SearchError =>
    case NoneFound =>
    case FoundUid(u) =>
      var (v, h) := HandleUid(o, c, rules, After(p.w, box), u);
      assert ApplyStep(o, c, rules, folder, p) == ApplyOn(Tally(p, v, u, h)) && Next32(u) == u as nat + 1;
  }

  lemma {:induction false} ApplyTurnsExact(o: Oracle, c: Config, rules: seq<Rule>, folder: string, limit: nat,
                                           p: Progress, turns: nat)
    requires Alone(o, rules, p.w, folder)
    ensures var t := ApplyTurns(o, c, rules, folder, limit, p, turns); var above := UidsFrom(p.w.box, folder, p.minUid);
      && |p.handled| <= |t.p.handled|
      && t.p.handled == p.handled + Smallest(above, |t.p.handled| - |p.handled|)
      && (t.ApplyEnd? && !t.failed && t.p.processed < limit ==> |t.p.handled| == |p.handled| + |above|)
    decreases turns
  {
    hide HandleUid, SearchBox, ApplyStep, Alone, Least, UidsFrom, Smallest;
    var above := UidsFrom(p.w.box, folder, p.minUid);
    ApplyStepTakes(o, c, rules, folder, p);
    SmallestUnfold(above, 0);
    Nothing(p.handled);
    if p.processed >= limit || turns == 0 {
    } else {
      TurnTakesLeast(o, c, rules, p.w, folder, p.minUid);
      var (box, reply) := SearchBox(p.w.box, Now(o, p.w), o.wraps, folder, p.minUid);
      if reply.FoundUid? {
        var u := reply.uid;
        var q := ApplyStep(o, c, rules, folder, p).p;
        ApplyTurnsExact(o, c, rules, folder, limit, q, turns - 1);
        var n := |ApplyTurns(o, c, rules, folder, limit, q, turns - 1).p.handled| - |q.handled|;
        SmallestUnfold(above, n + 1);
        Concat(p.handled, [u as nat], Smallest(above - {u as nat}, n));
        assert |above - {u as nat}| == |above| - 1;
      }
    }
  }

  /** Main result. Alone with the mailbox, and with no action moving mail back into it, an apply handles the smallest
      UIDs of its folder in ascending order; unless a search fails, it ends only when it has processed as many messages
      as its limit allows or has handled all there were. */
  lemma ApplyHandlesTheSmallest(o: Oracle, c: Config, rules: seq<Rule>, folder: string, limit: int, w: World,
                                turns: nat)
    requires Quiet(o) && !o.wraps && AllLeave(o, w, rules, folder)
    requires Sane(w.box) && w.box.trace == []
    ensures var t := ApplyToFolder(o, c, rules, folder, limit, w, turns); var uids := Uids(w.box, folder);
      var most := if 1 <= limit <= 200 then limit else 50;
      && t.p.handled == Smallest(uids, |t.p.handled|)
      && t.p.processed <= most
      && (t.ApplyEnd? && !t.failed ==> t.p.processed == most || |t.p.handled| == |uids|)
  {
    hide ApplyTurns, AllLeave, Smallest;
    ApplyTurnsExact(o, c, rules, folder, Limit(limit), FromTheStart(w), turns);
    AtMost(o, c, rules, folder, Limit(limit), FromTheStart(w), turns);
    assert UidsFrom(w.box, folder, 0) == Uids(w.box, folder);
    var t := ApplyToFolder(o, c, rules, folder, limit, w, turns);
    Nothing(Smallest(Uids(w.box, folder), |t.p.handled|));
  }

  lemma {:induction false} AtMost(o: Oracle, c: Config, rules: seq<Rule>, folder: string, limit: nat, p: Progress,
                                  turns: nat)
    requires p.processed <= limit
    ensures ApplyTurns(o, c, rules, folder, limit, p, turns).p.processed <= limit
    decreases turns
  {
    hide HandleUid, SearchBox;
    if p.processed >= limit || turns == 0 {
    } else if ApplyStep(o, c, rules, folder, p).ApplyOn? {
      AtMost(o, c, rules, folder, limit, ApplyStep(o, c, rules, folder, p).p, turns - 1);
    }
  }

  // ----- nothing is lost over whole runs -----

  ghost predicate Kept(w: World, v: World) {
    Sound(v.box) && NeverMisses(v.box.trace) && Conserved(w.box, v.box)
  }

  lemma SearchKeeps(o: Oracle, w: World, folder: string, floor: nat)
    requires Quiet(o) && Sound(w.box) && NeverMisses(w.box.trace)
    ensures Kept(w, After(w, SearchBox(w.box, Now(o, w), o.wraps, folder, floor).0))
  {
    SearchSound(w.box, Now(o, w), o.wraps, folder, floor);
    SearchQuiet(w.box, Now(o, w), o.wraps, folder, floor);
    hide SearchBox, NeverMisses, OnSubject, Sane, Conserved;
  }

  lemma HandleUidKeeps(o: Oracle, c: Config, rules: seq<Rule>, w: World, uid: Uid)
    requires Quiet(o) && Sound(w.box) && NeverMisses(w.box.trace)
    ensures Kept(w, HandleUid(o, c, rules, w, uid).0)
  {
    HandleUidCalm(o, c, rules, w, uid, c.source);
    hide HandleUid, NeverMisses, OnSubject, Sane, Conserved;
  }

  lemma KeptTransitive(u: World, v: World, w: World)
    requires Kept(u, v) && Kept(v, w)
    ensures Kept(u, w)
  {
    hide Ids, OneHome, Sound, NeverMisses;
  }

  lemma {:induction false} TickLoopKeeps(o: Oracle, c: Config, rules: seq<Rule>, w: World, turns: nat, floor: nat,
                                         skip: set<Uid>, handled: seq<Uid>)
    requires Quiet(o) && Sound(w.box) && NeverMisses(w.box.trace)
    ensures Kept(w, TickLoop(o, c, rules, w, turns, floor, skip, handled).w)
    decreases turns
  {
    hide HandleUid, SearchBox, NeverMisses, Sound, Conserved;
    KeptItself(w);
    if turns == 0 {
    } else {
      SearchKeeps(o, w, c.source, floor);
      var (box, reply) := SearchBox(w.box, Now(o, w), o.wraps, c.source, floor);
      var w1 := After(w, box);
      if reply.FoundUid? {
        var u := reply.uid;
        if u in skip {
          TickLoopKeeps(o, c, rules, w1, turns - 1, floor, skip, handled);
          KeptTransitive(w, w1, TickLoop(o, c, rules, w1, turns - 1, floor, skip, handled).w);
        } else {
          HandleUidKeeps(o, c, rules, w1, u);
          var floor' := if Next32(u) > floor then Next32(u) else floor;
          var (w2, h) := HandleUid(o, c, rules, w1, u);
          var skip' := if h == Unmatched then skip + {u} else skip;
          KeptTransitive(w, w1, w2);
          TickLoopKeeps(o, c, rules, w2, turns - 1, floor', skip', handled + [u]);
          KeptTransitive(w, w2, TickLoop(o, c, rules, w2, turns - 1, floor', skip', handled + [u]).w);
        }
      }
    }
  }

  lemma ApplyStepKeeps(o: Oracle, c: Config, rules: seq<Rule>, folder: string, p: Progress)
    requires Quiet(o) && Sound(p.w.box) && NeverMisses(p.w.box.trace)
    ensures Kept(p.w, ApplyStep(o, c, rules, folder, p).p.w)
  {
    hide HandleUid, SearchBox, NeverMisses, Sound, Conserved;
    SearchKeeps(o, p.w, folder, p.minUid);
    var (box, reply) := SearchBox(p.w.box, Now(o, p.w), o.wraps, folder, p.minUid);
    if reply.FoundUid? {
      var w1 := After(p.w, box);
      HandleUidKeeps(o, c, rules, w1, reply.uid);
      KeptTransitive(p.w, w1, HandleUid(o, c, rules, w1, reply.uid).0);
    }
  }

  lemma {:induction false} ApplyTurnsKeeps(o: Oracle, c: Config, rules: seq<Rule>, folder: string, limit: nat,
                                           p: Progress, turns: nat)
    requires Quiet(o) && Sound(p.w.box) && NeverMisses(p.w.box.trace)
    ensures Kept(p.w, ApplyTurns(o, c, rules, folder, limit, p, turns).p.w)
    decreases turns
  {
    hide ApplyStep, NeverMisses, Sound, Conserved;
    KeptItself(p.w);
    if p.processed >= limit || turns == 0 {
    } else {
      ApplyStepKeeps(o, c, rules, folder, p);
      match ApplyStep(o, c, rules, folder, p)
      case ApplyEnd(_, _) =>
      case ApplyOn(q) =>
        ApplyTurnsKeeps(o, c, rules, folder, limit, q, turns - 1);
        KeptTransitive(p.w, q.w, ApplyTurns(o, c, rules, folder, limit, q, turns - 1).p.w);
    }
  }

  lemma KeptItself(w: World)
    requires Sound(w.box) && NeverMisses(w.box.trace)
    ensures Kept(w, w)
  {
  }

  lemma {:induction false} RunAllKeeps(o: Oracle, c: Config, w: World, calls: seq<Call>)
    requires Quiet(o) && Sound(w.box) && NeverMisses(w.box.trace)
    ensures Kept(w, RunAll(o, c, w, calls))
    decreases |calls|
  {
    hide TickLoop, ApplyTurns, NeverMisses, OnSubject, Sane;
    if calls == [] {
    } else {
      match calls[0] {
        case CallTick(rules) => TickLoopKeeps(o, c, rules, w, c.batchSize, 0, {}, []);
        case CallApply(rules, folder, limit, turns) =>
          ApplyTurnsKeeps(o, c, rules, folder, Limit(limit), FromTheStart(w), turns);
        case CallPrune(_) =>
      }
      RunAllKeeps(o, c, Run(o, c, w, calls[0]), calls[1..]);
    }
  }

  /** Main result. Alone with the mailbox, no run of ticks and applies loses or doubles a message, and every
      command that reaches a mailbox finds its message there; the one exception is the final \Seen on a
      message whose move did not report a destination UID. */
  lemma NothingIsLost(o: Oracle, c: Config, w: World, calls: seq<Call>)
    requires Quiet(o)
    requires Sane(w.box) && OneHome(w.box) && w.box.trace == []
    ensures var v := RunAll(o, c, w, calls);
      && Ids(v.box) == Ids(w.box)
      && OneHome(v.box)
      && forall i :: 0 <= i < |v.box.trace| ==> FindsSubject(v.box.trace, i)
  {
    hide RunAll;
    RunAllKeeps(o, c, w, calls);
  }
}
