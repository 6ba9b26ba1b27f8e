/** What every command of the session keeps, whatever other mail clients do in between. */
module SessionProofs {
  import opened Wrappers
  import opened Imap

  // ----- reading a trace -----

  /** The message the last FETCH of the trace was about. */
  function Subject(trace: seq<Event>): Option<nat> {
    if trace == [] then None
    else
      var last := trace[|trace| - 1];
      if last.op.Fetch? then last.target else Subject(trace[..|trace| - 1])
  }

  /** True when a MOVE since the last FETCH did not report its destination UID. */
  predicate LostTrack(trace: seq<Event>) {
    if trace == [] then false
    else
      var last := trace[|trace| - 1];
      if last.op.Fetch? then false
      else (last.op.Move? && last.outcome == DestUnknown) || LostTrack(trace[..|trace| - 1])
  }

  /** Command i is about the message fetched last before it (or reaches no mailbox at all), and does not
      store the flag \Deleted, spelled that way. */
  predicate AboutSubject(trace: seq<Event>, i: nat)
    requires i < |trace|
  {
    && (trace[i].op.Addressed() && trace[i].at.Some? ==>
          trace[i].target.Some? && trace[i].target == Subject(trace[..i]))
    && trace[i].op != Store("\\Deleted")
  }

  /** Command i finds its message, except a final \Seen after a move to an unknown UID. */
  predicate FindsSubject(trace: seq<Event>, i: nat)
    requires i < |trace|
  {
    trace[i].op.Addressed() && trace[i].at.Some? && !trace[i].hit ==>
      trace[i].op == Store("\\Seen") && LostTrack(trace[..i])
  }

  ghost predicate OnSubject(trace: seq<Event>) {
    forall i :: 0 <= i < |trace| ==> AboutSubject(trace, i)
  }

  ghost predicate NeverMisses(trace: seq<Event>) {
    forall i :: 0 <= i < |trace| ==> FindsSubject(trace, i)
  }

  lemma OnSubjectExtend(trace: seq<Event>, e: Event)
    requires OnSubject(trace)
    requires AboutSubject(trace + [e], |trace|)
    ensures OnSubject(trace + [e])
  {
    forall i | 0 <= i < |trace| + 1 ensures AboutSubject(trace + [e], i) {
      if i < |trace| {
        assert (trace + [e])[..i] == trace[..i];
        assert AboutSubject(trace, i);
      }
    }
  }

  lemma NeverMissesExtend(trace: seq<Event>, e: Event)
    requires NeverMisses(trace)
    requires FindsSubject(trace + [e], |trace|)
    ensures NeverMisses(trace + [e])
  {
    forall i | 0 <= i < |trace| + 1 ensures FindsSubject(trace + [e], i) {
      if i < |trace| {
        assert (trace + [e])[..i] == trace[..i];
        assert FindsSubject(trace, i);
      }
    }
  }

  lemma SubjectExtend(trace: seq<Event>, e: Event)
    ensures (trace + [e])[..|trace|] == trace
    ensures Subject(trace + [e]) == if e.op.Fetch? then e.target else Subject(trace)
    ensures LostTrack(trace + [e]) ==
            (!e.op.Fetch? && ((e.op.Move? && e.outcome == DestUnknown) || LostTrack(trace)))
  {
    assert (trace + [e])[..|trace|] == trace;
  }

  // ----- the invariant of an iteration -----

  ghost predicate Grew(s: Server, t: Server) {
    && (forall a <- s.owner :: a in t.owner && t.owner[a] == s.owner[a])
    && s.next.Keys <= t.next.Keys
  }

  ghost predicate Sound(s: Server) {
    Sane(s) && OnSubject(s.trace)
  }

  /** The iteration is about message `id`, and `uid` in the selected mailbox was given to it. */
  ghost predicate Focus(s: Server, uid: Uid, id: nat) {
    && Sound(s)
    && Subject(s.trace) == Some(id)
    && (s.selected.Some? ==> Target(s, uid) == Some(id))
  }

  lemma DisturbStaysSane(s: Server, f: Fate)
    requires Sane(s)
    ensures Sane(Disturb(s, f))
  {
  }

  lemma DisturbGrows(s: Server, f: Fate)
    requires Sane(s)
    ensures Grew(s, Disturb(s, f))
  {
  }

  lemma DisturbKeeps(s: Server, f: Fate)
    requires Sane(s)
    ensures Sane(Disturb(s, f)) && Grew(s, Disturb(s, f))
    ensures Disturb(s, f).selected == s.selected && Disturb(s, f).trace == s.trace
  {
    hide Sane, Grew, Numbered, Arrivals;
    DisturbStaysSane(s, f);
    DisturbGrows(s, f);
  }

  lemma DisturbFocus(s: Server, f: Fate, uid: Uid, id: nat)
    requires Focus(s, uid, id)
    ensures Focus(Disturb(s, f), uid, id)
  {
    DisturbKeeps(s, f);
  }

  lemma DisturbSpares(s: Server, f: Fate, a: Addr)
    requires Sane(s) && a in s.mail && a !in f.gone
    ensures a in Disturb(s, f).mail && Disturb(s, f).mail[a] == s.mail[a]
  {
    hide Numbered;
  }

  lemma SelectSound(s: Server, f: Fate, name: string)
    requires Sound(s)
    ensures Sound(SelectBox(s, f, name))
    ensures Grew(s, SelectBox(s, f, name))
    ensures Subject(SelectBox(s, f, name).trace) == Subject(s.trace)
    ensures forall a <- s.mail ::
      a !in f.gone ==> a in SelectBox(s, f, name).mail && SelectBox(s, f, name).mail[a] == s.mail[a]
  {
    hide Disturb;
    DisturbKeeps(s, f);
    forall a | a in s.mail && a !in f.gone ensures a in Disturb(s, f).mail && Disturb(s, f).mail[a] == s.mail[a] {
      DisturbSpares(s, f, a);
    }
    var r := SelectBox(s, f, name);
    SubjectExtend(s.trace, r.trace[|s.trace|]);
    OnSubjectExtend(s.trace, r.trace[|s.trace|]);
  }

  lemma SearchSound(s: Server, f: Fate, wraps: bool, folder: string, floor: nat)
    requires Sound(s)
    ensures var (t, r) := SearchBox(s, f, wraps, folder, floor);
      && Sound(t) && Grew(s, t)
      && (r.FoundUid? ==> t.selected == Some(folder) && Addr(folder, r.uid) in t.mail)
  {
    SelectSound(s, f, folder);
    SearchSelectedSound(SelectBox(s, f, folder), f, wraps, folder, floor);
  }

  lemma SearchSelectedSound(t0: Server, f: Fate, wraps: bool, folder: string, floor: nat)
    requires Sound(t0)
    requires t0.selected.Some? ==> t0.selected.value == folder
    ensures var (t, r) := SearchSelected(t0, f, wraps, folder, floor);
      && Sound(t) && t.owner == t0.owner && t.next == t0.next
      && (r.FoundUid? ==> t.selected == Some(folder) && Addr(folder, r.uid) in t.mail)
  {
    hide Hit, UidsFrom, Uids;
    if t0.selected.Some? {
      var t := SearchSelected(t0, f, wraps, folder, floor).0;
      SubjectExtend(t0.trace, t.trace[|t0.trace|]);
      OnSubjectExtend(t0.trace, t.trace[|t0.trace|]);
    }
  }

  /** A successful fetch makes its message the subject, and the UID points at it. */
  lemma FetchFocus(s: Server, f: Fate, uid: Uid)
    requires Sound(s)
    ensures var (t, got) := FetchOne(s, f, uid);
      && Sound(t)
      && (got.Some? ==> Focus(t, uid, got.value))
  {
    DisturbKeeps(s, f);
    var t := FetchOne(s, f, uid).0;
    SubjectExtend(s.trace, t.trace[|s.trace|]);
    OnSubjectExtend(s.trace, t.trace[|s.trace|]);
  }

  lemma PeekFocus(s: Server, f: Fate, uid: Uid, id: nat)
    requires Focus(s, uid, id)
    ensures Focus(PeekOne(s, f, uid), uid, id)
  {
    DisturbFocus(s, f, uid, id);
    var t := PeekOne(s, f, uid);
    SubjectExtend(s.trace, t.trace[|s.trace|]);
    OnSubjectExtend(s.trace, t.trace[|s.trace|]);
  }

  lemma RawFocus(s: Server, f: Fate, uid: Uid, id: nat)
    requires Focus(s, uid, id)
    ensures Focus(RawOne(s, f, uid).0, uid, id)
  {
    DisturbFocus(s, f, uid, id);
    RawNowFocus(Disturb(s, f), f, uid, id);
  }

  lemma RawNowFocus(s: Server, f: Fate, uid: Uid, id: nat)
    requires Focus(s, uid, id)
    ensures Focus(RawNow(s, f, uid).0, uid, id)
  {
    var t := RawNow(s, f, uid).0;
    SubjectExtend(s.trace, t.trace[|s.trace|]);
    OnSubjectExtend(s.trace, t.trace[|s.trace|]);
  }

  lemma StoreFocus(s: Server, f: Fate, uid: Uid, id: nat, flag: string, add: bool)
    requires Focus(s, uid, id)
    requires add ==> flag != "\\Deleted"
    ensures Focus(StoreOne(s, f, uid, flag, add).0, uid, id)
  {
    DisturbFocus(s, f, uid, id);
    StoreNowFocus(Disturb(s, f), f, uid, id, flag, add);
  }

  lemma StoreNowFocus(s: Server, f: Fate, uid: Uid, id: nat, flag: string, add: bool)
    requires Focus(s, uid, id)
    requires add ==> flag != "\\Deleted"
    ensures Focus(StoreNow(s, f, uid, flag, add).0, uid, id)
  {
    var t := StoreNow(s, f, uid, flag, add).0;
    SubjectExtend(s.trace, t.trace[|s.trace|]);
    OnSubjectExtend(s.trace, t.trace[|s.trace|]);
  }

  /** After a move with a known UID the message is the owner of that UID in the destination; after any
      other move the old UID still points at it, in the mailbox still selected. */
  lemma MoveFocus(s: Server, f: Fate, uid: Uid, dest: string, id: nat)
    requires Focus(s, uid, id)
    ensures var (t, r) := MoveOne(s, f, uid, dest);
      && Sound(t) && Subject(t.trace) == Some(id)
      && (r.MovedTo? ==> Addr(dest, r.uid) in t.owner && t.owner[Addr(dest, r.uid)] == id)
      && (!r.MovedTo? ==> Focus(t, uid, id))
  {
    DisturbFocus(s, f, uid, id);
    MoveNowFocus(Disturb(s, f), f, uid, dest, id);
  }

  lemma MoveNowFocus(s: Server, f: Fate, uid: Uid, dest: string, id: nat)
    requires Focus(s, uid, id)
    ensures var (t, r) := MoveNow(s, f, uid, dest);
      && Sound(t) && Subject(t.trace) == Some(id)
      && (r.MovedTo? ==> Addr(dest, r.uid) in t.owner && t.owner[Addr(dest, r.uid)] == id)
      && (!r.MovedTo? ==> Focus(t, uid, id))
  {
    MoveNowTrace(s, f, uid, dest, id);
    var (t, r) := MoveNow(s, f, uid, dest);
    if t.mail != s.mail || r.MovedTo? {
      RelocateSane(s, t, Addr(s.selected.value, uid), Addr(dest, s.next[dest]), id);
    }
    hide OnSubject, Subject, Sane;
  }

  lemma RelocateSane(s: Server, t: Server, from: Addr, to: Addr, id: nat)
    requires Sane(s) && from in s.mail && s.owner[from] == id
    requires to.folder in s.next && to.uid == s.next[to.folder]
    requires t.mail == (s.mail - {from})[to := s.mail[from]] && t.owner == s.owner[to := id]
    requires t.next == s.next[to.folder := s.next[to.folder] + 1] && t.selected == s.selected
    ensures Sane(t)
    ensures from != to && t.owner[from] == id
  {
  }

  lemma MoveNowTrace(s: Server, f: Fate, uid: Uid, dest: string, id: nat)
    requires Focus(s, uid, id)
    ensures var t := MoveNow(s, f, uid, dest).0;
      OnSubject(t.trace) && Subject(t.trace) == Some(id)
  {
    var t := MoveNow(s, f, uid, dest).0;
    SubjectExtend(s.trace, t.trace[|s.trace|]);
    OnSubjectExtend(s.trace, t.trace[|s.trace|]);
  }

  lemma SelectFocus(s: Server, f: Fate, dest: string, uid: Uid, id: nat)
    requires Sound(s) && Subject(s.trace) == Some(id)
    requires Addr(dest, uid) in s.owner && s.owner[Addr(dest, uid)] == id
    ensures Focus(SelectBox(s, f, dest), uid, id)
  {
    SelectSound(s, f, dest);
    DisturbKeeps(s, f);
  }

  // ----- without other clients -----

  lemma DisturbPeaceful(s: Server, f: Fate)
    requires Peaceful(f)
    ensures Disturb(s, f) == s
  {
  }

  /** Nothing lost, nothing doubled: the same messages, each in one place. */
  ghost predicate Conserved(s: Server, t: Server) {
    Ids(t) == Ids(s) && (OneHome(s) ==> OneHome(t))
  }

  /** `uid` in the selected mailbox is a message that is there, unless track of it was lost. */
  ghost predicate Held(s: Server, uid: Uid) {
    NeverMisses(s.trace) && (s.selected.Some? ==> Present(s, uid) || LostTrack(s.trace))
  }

  lemma FlagConserves(s: Server, uid: Uid, add: set<FlagName>, drop: set<FlagName>)
    requires Present(s, uid)
    ensures Conserved(s, Flag(s, uid, add, drop))
    ensures Flag(s, uid, add, drop).mail.Keys == s.mail.Keys
  {
    var t := Flag(s, uid, add, drop);
    assert t.mail.Keys == s.mail.Keys;
    assert forall a <- s.mail :: t.mail[a].id == s.mail[a].id;
    assert Ids(t) == Ids(s);
  }

  lemma SearchQuiet(s: Server, f: Fate, wraps: bool, folder: string, floor: nat)
    requires Peaceful(f)
    requires NeverMisses(s.trace)
    ensures var t := SearchBox(s, f, wraps, folder, floor).0;
      && Conserved(s, t) && t.mail == s.mail && NeverMisses(t.trace)
  {
    DisturbPeaceful(s, f);
    var t0 := SelectBox(s, f, folder);
    NeverMissesExtend(s.trace, t0.trace[|s.trace|]);
    if t0.selected.Some? {
      var t := SearchBox(s, f, wraps, folder, floor).0;
      NeverMissesExtend(t0.trace, t.trace[|t0.trace|]);
    }
  }

  lemma FetchQuiet(s: Server, f: Fate, uid: Uid)
    requires Peaceful(f)
    requires NeverMisses(s.trace)
    ensures var (t, got) := FetchOne(s, f, uid);
      && Conserved(s, t) && t.mail == s.mail && t.selected == s.selected && NeverMisses(t.trace)
      && (got.Some? ==> Held(t, uid))
  {
    DisturbPeaceful(s, f);
    var t := FetchOne(s, f, uid).0;
    NeverMissesExtend(s.trace, t.trace[|s.trace|]);
  }

  lemma PeekQuiet(s: Server, f: Fate, uid: Uid)
    requires Peaceful(f) && Held(s, uid) && !LostTrack(s.trace)
    ensures var t := PeekOne(s, f, uid);
      && Conserved(s, t) && t.mail == s.mail && t.selected == s.selected && Held(t, uid) && !LostTrack(t.trace)
  {
    DisturbPeaceful(s, f);
    var t := PeekOne(s, f, uid);
    SubjectExtend(s.trace, t.trace[|s.trace|]);
    NeverMissesExtend(s.trace, t.trace[|s.trace|]);
  }

  lemma RawQuiet(s: Server, f: Fate, uid: Uid)
    requires Peaceful(f) && Held(s, uid) && !LostTrack(s.trace)
    ensures var t := RawOne(s, f, uid).0;
      && Conserved(s, t) && t.mail.Keys == s.mail.Keys && t.selected == s.selected
      && Held(t, uid) && !LostTrack(t.trace)
  {
    DisturbPeaceful(s, f);
    if f.ok && Present(s, uid) { FlagConserves(s, uid, {FlagOf("\\Seen")}, {}); }
    var t := RawOne(s, f, uid).0;
    SubjectExtend(s.trace, t.trace[|s.trace|]);
    NeverMissesExtend(s.trace, t.trace[|s.trace|]);
  }

  lemma StoreQuiet(s: Server, f: Fate, uid: Uid, flag: string, add: bool)
    requires Peaceful(f) && Held(s, uid)
    requires LostTrack(s.trace) ==> add && flag == "\\Seen"
    ensures var t := StoreOne(s, f, uid, flag, add).0;
      && Conserved(s, t) && t.mail.Keys == s.mail.Keys && t.selected == s.selected
      && Held(t, uid) && LostTrack(t.trace) == LostTrack(s.trace)
  {
    DisturbPeaceful(s, f);
    if f.ok && Present(s, uid) {
      if add { FlagConserves(s, uid, {FlagOf(flag)}, {}); } else { FlagConserves(s, uid, {}, {FlagOf(flag)}); }
    }
    var t := StoreOne(s, f, uid, flag, add).0;
    SubjectExtend(s.trace, t.trace[|s.trace|]);
    NeverMissesExtend(s.trace, t.trace[|s.trace|]);
  }

  lemma RelocateConserves(s: Server, t: Server, from: Addr, to: Addr)
    requires from in s.mail && to !in s.mail
    requires t.mail == (s.mail - {from})[to := s.mail[from]]
    ensures Conserved(s, t)
  {
    forall i | i in Ids(s) ensures i in Ids(t) {
      var a :| a in s.mail && s.mail[a].id == i;
      var b := if a == from then to else a;
      assert b in t.mail && t.mail[b].id == i;
    }
    forall i | i in Ids(t) ensures i in Ids(s) {
      var b :| b in t.mail && t.mail[b].id == i;
      var a := if b == to then from else b;
      assert a in s.mail && s.mail[a].id == i;
    }
    assert Ids(t) == Ids(s);
  }

  lemma MoveQuiet(s: Server, f: Fate, uid: Uid, dest: string)
    requires Sane(s)
    requires Peaceful(f) && Held(s, uid) && !LostTrack(s.trace)
    ensures var (t, r) := MoveOne(s, f, uid, dest);
      && Conserved(s, t) && NeverMisses(t.trace) && t.selected == s.selected
      && LostTrack(t.trace) == r.MoveUnknown?
      && (r.MovedTo? ==> Addr(dest, r.uid) in t.mail)
      && (!r.MovedTo? ==> Held(t, uid))
      && (forall a :: a in t.mail && a.folder != dest ==> a in s.mail)
      && (forall a :: a in s.mail ==> a in t.mail || (s.selected.Some? && a == Addr(s.selected.value, uid)))
  {
    hide NeverMisses, LostTrack;
    DisturbPeaceful(s, f);
    var (t, r) := MoveOne(s, f, uid, dest);
    SubjectExtend(s.trace, t.trace[|s.trace|]);
    NeverMissesExtend(s.trace, t.trace[|s.trace|]);
    if r.MovedTo? || t.mail != s.mail {
      RelocateConserves(s, t, Addr(s.selected.value, uid), Addr(dest, s.next[dest]));
    }
  }

  lemma SelectQuiet(s: Server, f: Fate, name: string, uid: Uid)
    requires Peaceful(f) && NeverMisses(s.trace) && !LostTrack(s.trace)
    requires Addr(name, uid) in s.mail
    ensures var t := SelectBox(s, f, name);
      && Conserved(s, t) && t.mail == s.mail && Held(t, uid) && !LostTrack(t.trace)
      && (t.selected.Some? ==> t.selected.value == name)
  {
    DisturbPeaceful(s, f);
    var t := SelectBox(s, f, name);
    SubjectExtend(s.trace, t.trace[|s.trace|]);
    NeverMissesExtend(s.trace, t.trace[|s.trace|]);
  }
}
