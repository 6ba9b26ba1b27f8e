/** What an action list achieves when nothing goes wrong: every action reaches the message wherever the
    earlier ones have put it. */
module EffectProofs {
  import opened Wrappers
  import opened Imap
  import opened PollerSpec
  import opened RuleTypes
  import opened SessionProofs
  import opened AddressingProofs

  /** No failures, no other clients, UIDs of moves reported, one trash folder. */
  ghost predicate Smooth(o: Oracle, trash: string) {
    trash != "" && forall k: nat :: SmoothFate(o.fate(k), trash)
  }

  predicate SmoothFate(f: Fate, trash: string) {
    Peaceful(f) && f.ok && f.selectOk && f.uidKnown && TrashName(f.folders) == trash
  }

  /** The folders the list moves to exist and have UIDs left for n more moves. */
  ghost predicate Roomy(s: Server, folders: set<string>, n: nat) {
    forall d <- folders :: d in s.next && 1 <= s.next[d] && s.next[d] + n <= UID_LIMIT
  }

  function Destination(a: Action, trash: string): Option<string> {
    if a.kind == "move_to_folder" && a.value != "" then Some(a.value)
    else if a.kind == "delete" then Some(trash)
    else None
  }

  function Destinations(actions: seq<Action>, trash: string): set<string> {
    set a | a in actions && Destination(a, trash).Some? :: Destination(a, trash).value
  }

  /** Where the list leaves a message that starts in `folder`. */
  function Landing(actions: seq<Action>, folder: string, trash: string): string {
    if actions == [] then folder
    else Landing(actions[1..],
                 if Destination(actions[0], trash).Some? then Destination(actions[0], trash).value else folder, trash)
  }

  const SEEN: FlagName := FlagOf("\\Seen")

  /** What one action makes of the flags, whose names have no case. */
  function Mark(a: Action, flags: set<FlagName>): set<FlagName> {
    match a.kind
    case "mark_as_read" => flags + {SEEN}
    case "mark_as_unread" => flags - {SEEN}
    case "set_flag" => if a.value == "" || a.value == "\\Deleted" then flags else flags + {FlagOf(a.value)}
    case "remove_flag" => if NamedFlag(a.value).Some? then flags - {FlagOf(NamedFlag(a.value).value)} else flags
    case "forward" => if a.value == "" then flags else flags + {SEEN}
    case _ => flags
  }

  function Marks(actions: seq<Action>, flags: set<FlagName>): set<FlagName> {
    if actions == [] then flags else Marks(actions[1..], Mark(actions[0], flags))
  }

  /** The message is the selected mailbox's `e.uid`, with these flags. */
  ghost predicate At(e: Exec, folder: string, m: Mail, trash: string) {
    && e.w.box.selected == Some(folder)
    && Addr(folder, e.uid) in e.w.box.mail
    && e.w.box.mail[Addr(folder, e.uid)] == m
    && !e.stopped
    && (e.w.trash == "" || e.w.trash == trash)
  }

  lemma MoveLands(o: Oracle, c: Config, job: Job, e: Exec, a: Action, dest: string, relabel: bool,
                  folder: string, m: Mail, trash: string, folders: set<string>, n: nat)
    requires Smooth(o, trash) && At(e, folder, m, trash)
    requires n > 0 && Roomy(e.w.box, folders, n) && dest in folders
    ensures var r := MoveAndFollow(o, c, job, e, a, dest, relabel);
      At(r, dest, m, trash) && r.moved && Roomy(r.w.box, folders, n - 1)
  {
    hide IncrementAll, StatKeys, Disturb;
    assert SmoothFate(o.fate(e.w.clock), trash) && SmoothFate(o.fate(e.w.clock + 1), trash);
    DisturbPeaceful(e.w.box, Now(o, e.w));
    var (box, reply) := MoveOne(e.w.box, Now(o, e.w), e.uid, dest);
    assert reply.MovedTo?;
    DisturbPeaceful(box, o.fate(e.w.clock + 1));
  }

  lemma StoreLands(o: Oracle, c: Config, job: Job, e: Exec, a: Action, flag: string, add: bool,
                   folder: string, m: Mail, trash: string)
    requires Smooth(o, trash) && At(e, folder, m, trash)
    ensures var r := StoreAndLog(o, c, job, e, a, flag, add);
      && At(r, folder, m.(flags := if add then m.flags + {FlagOf(flag)} else m.flags - {FlagOf(flag)}), trash)
      && r.moved == e.moved && r.w.box.next == e.w.box.next
  {
    hide IncrementAll, StatKeys, Disturb;
    assert SmoothFate(o.fate(e.w.clock), trash);
    DisturbPeaceful(e.w.box, Now(o, e.w));
    var name := FlagOf(flag);
    assert m.flags + {name} - {} == m.flags + {name} && m.flags + {} - {name} == m.flags - {name};
  }

  lemma QuietSteps(o: Oracle, w: World, trash: string)
    requires Smooth(o, trash)
    ensures Disturb(w.box, Now(o, w)) == w.box && Now(o, w).ok
  {
    assert SmoothFate(o.fate(w.clock), trash);
    DisturbPeaceful(w.box, Now(o, w));
  }

  lemma ForwardLands(o: Oracle, c: Config, job: Job, e: Exec, a: Action, folder: string, m: Mail, trash: string)
    requires Smooth(o, trash) && At(e, folder, m, trash)
    ensures var r := ForwardAndLog(o, c, job, e, a);
      At(r, folder, m.(flags := m.flags + {SEEN}), trash) && r.moved == e.moved && r.w.box.next == e.w.box.next
  {
    hide IncrementAll, StatKeys, Disturb;
    QuietSteps(o, e.w, trash);
    var (box, ok) := RawOne(e.w.box, Now(o, e.w), e.uid);
    QuietSteps(o, After(e.w, box), trash);
    assert m.flags + {SEEN} - {} == m.flags + {SEEN};
  }

  lemma ReplyLands(o: Oracle, c: Config, job: Job, e: Exec, a: Action, folder: string, m: Mail, trash: string)
    requires Smooth(o, trash) && At(e, folder, m, trash)
    ensures var r := ReplyAndLog(o, c, job, e, a);
      At(r, folder, m, trash) && r.moved == e.moved && r.w.box.next == e.w.box.next
  {
    hide IncrementAll, StatKeys, Disturb;
    if job.sender != c.account {
      QuietSteps(o, e.w, trash);
      var f := Now(o, e.w);
      var w1 := After(e.w, e.w.box);
      QuietSteps(o, w1, trash);
      var w2 := Deliver(o, w1, Reply, job.sender, f.day).0;
      QuietSteps(o, w2, trash);
    }
  }

  lemma DeleteLands(o: Oracle, c: Config, job: Job, e: Exec, a: Action,
                    folder: string, m: Mail, trash: string, folders: set<string>, n: nat)
    requires Smooth(o, trash) && At(e, folder, m, trash)
    requires n > 0 && Roomy(e.w.box, folders, n) && trash in folders
    ensures var r := DeleteAndLog(o, c, job, e, a);
      At(r, trash, m, trash) && r.moved && Roomy(r.w.box, folders, n - 1)
  {
    hide MoveAndFollow, Disturb;
    QuietSteps(o, e.w, trash);
    assert SmoothFate(o.fate(e.w.clock), trash);
    var (w1, found) := FindTrash(o, e.w);
    assert found == Some(trash) && w1.box == e.w.box;
    MoveLands(o, c, job, e.(w := w1), a, trash, false, folder, m, trash, folders, n);
  }

  lemma FlagLands(o: Oracle, c: Config, job: Job, e: Exec, a: Action, folder: string, m: Mail, trash: string)
    requires Smooth(o, trash) && At(e, folder, m, trash)
    requires a.kind in {"mark_as_read", "mark_as_unread", "set_flag", "remove_flag"}
    ensures var r := Act(o, c, job, e, a);
      && At(r, folder, m.(flags := Mark(a, m.flags)), trash)
      && r.moved == e.moved && r.w.box.next == e.w.box.next
  {
    hide StoreAndLog, Disturb, IncrementAll, StatKeys, NamedFlag, Smooth;
    if a.kind == "mark_as_read" {
      StoreLands(o, c, job, e, a, "\\Seen", true, folder, m, trash);
    } else if a.kind == "mark_as_unread" {
      StoreLands(o, c, job, e, a, "\\Seen", false, folder, m, trash);
    } else if a.kind == "set_flag" {
      if a.value != "" && a.value != "\\Deleted" { StoreLands(o, c, job, e, a, a.value, true, folder, m, trash); }
    } else if NamedFlag(a.value).Some? {
      StoreLands(o, c, job, e, a, NamedFlag(a.value).value, false, folder, m, trash);
    }
  }

  lemma ActLands(o: Oracle, c: Config, job: Job, e: Exec, a: Action,
                 folder: string, m: Mail, trash: string, folders: set<string>, n: nat)
    requires Smooth(o, trash) && At(e, folder, m, trash)
    requires n > 0 && Roomy(e.w.box, folders, n)
    requires Destination(a, trash).Some? ==> Destination(a, trash).value in folders
    ensures var r := Act(o, c, job, e, a); var d := Destination(a, trash);
      && At(r, if d.Some? then d.value else folder, m.(flags := Mark(a, m.flags)), trash)
      && r.moved == (e.moved || d.Some?)
      && Roomy(r.w.box, folders, n - 1)
  {
    hide MoveAndFollow, StoreAndLog, ForwardAndLog, DeleteAndLog, ReplyAndLog, Disturb, IncrementAll, StatKeys,
         NamedFlag, Smooth;
    if a.kind == "move_to_folder" {
      if a.value != "" { MoveLands(o, c, job, e, a, a.value, true, folder, m, trash, folders, n); }
    } else if a.kind in {"mark_as_read", "mark_as_unread", "set_flag", "remove_flag"} {
      FlagLands(o, c, job, e, a, folder, m, trash);
    } else if a.kind == "forward" {
      if a.value != "" { ForwardLands(o, c, job, e, a, folder, m, trash); }
    } else if a.kind == "delete" {
      DeleteLands(o, c, job, e, a, folder, m, trash, folders, n);
    } else if a.kind == "auto_reply" {
      ReplyLands(o, c, job, e, a, folder, m, trash);
    } else if a.kind == "webhook" {
      QuietSteps(o, e.w, trash);
    }
  }

  predicate Moves(actions: seq<Action>, trash: string) {
    exists a <- actions :: Destination(a, trash).Some?
  }

  lemma FirstAction(actions: seq<Action>, trash: string, folders: set<string>)
    requires actions != [] && Destinations(actions, trash) <= folders
    ensures Destination(actions[0], trash).Some? ==> Destination(actions[0], trash).value in folders
    ensures Destinations(actions[1..], trash) <= folders
    ensures Moves(actions, trash) == (Destination(actions[0], trash).Some? || Moves(actions[1..], trash))
  {
    hide Destination;
    assert actions == [actions[0]] + actions[1..];
    var a := actions[0];
    if Destination(a, trash).Some? {
      assert a in actions && Destination(a, trash).value in Destinations(actions, trash);
    }
    forall b | b in actions[1..] && Destination(b, trash).Some? ensures Destination(b, trash).value in folders {
      assert Destination(b, trash).value in Destinations(actions, trash);
    }
  }

  lemma Lively(e: Exec, folder: string, m: Mail, trash: string)
    requires At(e, folder, m, trash)
    ensures !e.stopped
  {
  }

  lemma {:induction false} ActAllLands(o: Oracle, c: Config, job: Job, e: Exec, actions: seq<Action>,
                                       folder: string, m: Mail, trash: string, folders: set<string>)
    requires Smooth(o, trash) && At(e, folder, m, trash)
    requires Destinations(actions, trash) <= folders && Roomy(e.w.box, folders, |actions|)
    ensures var r := ActAll(o, c, job, e, actions);
      && At(r, Landing(actions, folder, trash), m.(flags := Marks(actions, m.flags)), trash)
      && r.moved == (e.moved || Moves(actions, trash))
    decreases |actions|
  {
    hide Act, Mark, Smooth, At, Roomy, Destinations, Destination, Moves;
    Lively(e, folder, m, trash);
    if actions == [] {
      NoMoves(trash);
    } else {
      var a := actions[0];
      var d := Destination(a, trash);
      FirstAction(actions, trash, folders);
      ActLands(o, c, job, e, a, folder, m, trash, folders, |actions|);
      ActAllLands(o, c, job, Act(o, c, job, e, a), actions[1..],
                  if d.Some? then d.value else folder, m.(flags := Mark(a, m.flags)), trash, folders);
    }
  }

  lemma NoMoves(trash: string)
    ensures !Moves([], trash)
  {
  }

  /** Main result. In a smooth run a matched message ends where the last move of its rule puts it, with
      the flags the whole list leaves, plus \\Seen if no action moved it. */
  lemma MatchedMessageLands(o: Oracle, c: Config, w: World, rule: Rule, uid: Uid, id: nat, folder: string, m: Mail,
                            trash: string)
    requires Smooth(o, trash) && At(Start(w, uid), folder, m, trash) && m.id == id
    requires Roomy(w.box, Destinations(rule.actions, trash), |rule.actions|)
    ensures var v := ActOnMatch(o, c, w, rule, uid, id);
      var flags := Marks(rule.actions, m.flags) + (if Moves(rule.actions, trash) then {} else {SEEN});
      exists u: Uid :: Addr(Landing(rule.actions, folder, trash), u) in v.box.mail
                    && v.box.mail[Addr(Landing(rule.actions, folder, trash), u)] == Mail(id, flags)
  {
    hide ActAll, Smooth;
    var job := JobFor(o, rule, id);
    ActAllLands(o, c, job, Start(w, uid), rule.actions, folder, m, trash, Destinations(rule.actions, trash));
    var e := ActAll(o, c, job, Start(w, uid), rule.actions);
    var (x, moved) := ExecuteActions(o, c, w, rule, uid, id);
    assert x.box == e.w.box;
    var place := Addr(Landing(rule.actions, folder, trash), e.uid);
    var v := ActOnMatch(o, c, w, rule, uid, id);
    if moved {
      assert v.box.mail[place] == Mail(id, Marks(rule.actions, m.flags));
    } else {
      QuietSteps(o, x, trash);
      LandingWithoutMoves(o, c, job, Start(w, uid), rule.actions);
      assert e.uid == uid;
      assert v.box.mail[place].flags == Marks(rule.actions, m.flags) + {SEEN} - {};
    }
  }

  lemma {:induction false} LandingWithoutMoves(o: Oracle, c: Config, job: Job, e: Exec, actions: seq<Action>)
    ensures var r := ActAll(o, c, job, e, actions); !r.moved ==> r.uid == e.uid && !e.moved
    decreases |actions|
  {
    hide Act;
    if actions == [] || e.stopped {
    } else {
      LandingWithoutMoves(o, c, job, Act(o, c, job, e, actions[0]), actions[1..]);
      ActKeepsUid(o, c, job, e, actions[0]);
    }
  }
}
