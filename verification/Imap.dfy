/**
 The IMAP session of internal/imap/client.go as a deterministic state machine.

 A `Server` is what the session can see and change: the mail of every folder, the next UID of every
 folder and the one selected mailbox. What the network, the server and other mail clients decide is
 a `Fate`, one for every interaction; quantifying over fates quantifies over every run.
*/
module Imap {
  import opened Wrappers
  import opened Text

  /** First UID the model never hands out: 2^32 - 1, so that uid + 1 still fits in 32 bits. */
  const UID_LIMIT: nat := 0xFFFF_FFFF

  type Uid = u: nat | 1 <= u < UID_LIMIT witness 1

  datatype Addr = Addr(folder: string, uid: Uid)

  /** Flag names are one whatever the case of their letters (section 9 of RFC 3501); this is the lower-case one. */
  type FlagName = s: string | Lower(s) == s witness ""

  function FlagOf(flag: string): (r: FlagName)
    ensures r == Lower(flag)
  {
    assert Lower(Lower(flag)) == Lower(flag);
    Lower(flag)
  }

  datatype Mail = Mail(id: nat, flags: set<FlagName>)

  datatype Op =
    | Search
    | Select
    | Fetch
    | Peek
    | Raw
    | Move(dest: string)
    | Store(flag: string)
    | Unstore(flag: string)
  {
    /** Commands that name a message by UID and must be about the message of the current iteration. */
    predicate Addressed() {
      Peek? || Raw? || Move? || Store? || Unstore?
    }
  }

  datatype Outcome = Done | Failed | DestUnknown

  /** One command as the server saw it: `target` is the message the UID was once given to, if any;
      `hit` says that it is still there. */
  datatype Event = Event(op: Op, at: Option<string>, uid: nat, target: Option<nat>, hit: bool, outcome: Outcome)

  /** `arrived` and `expunged` are history: the messages other clients delivered, and those they expunged from
      where they were. */
  datatype Server = Server(
    mail: map<Addr, Mail>,
    owner: map<Addr, nat>,
    next: map<string, nat>,
    selected: Option<string>,
    trace: seq<Event>,
    arrived: set<nat>,
    expunged: set<nat>)

  /** One line of a folder listing. */
  datatype FolderInfo = FolderInfo(name: string, flags: string)

  /** What one interaction with the outside brings. `gone`, `came` and `bump` are the work of other
      clients since the last one: expunged mail, new mail, and UIDs used up (or folders created). A command
      that is not `ok` gives the program an error; it is `lost` when the server carried it out and only the
      reply did not come back. */
  datatype Fate = Fate(
    ok: bool,
    lost: bool,
    selectOk: bool,
    uidKnown: bool,
    gone: set<Addr>,
    came: map<Addr, Mail>,
    bump: map<string, nat>,
    folders: seq<FolderInfo>,
    readOk: bool,
    writeOk: bool,
    peeks: nat,
    verdict: Verdict,
    day: nat)

  /** The answer of the rule matcher for the message at hand. */
  datatype Verdict = NoRule | MatchError | MatchedRule(index: nat)

  /** No other client, and no reply lost. */
  predicate Peaceful(f: Fate) {
    f.gone == {} && f.came == map[] && f.bump == map[] && !f.lost
  }

  /** UIDs are never reused: whatever is in a folder is there under the UID it was given, and every UID
      ever given in a folder is below that folder's next UID. */
  ghost predicate Sane(s: Server) {
    && (forall a <- s.mail :: a in s.owner && s.owner[a] == s.mail[a].id)
    && (forall a <- s.owner :: a.folder in s.next && a.uid < s.next[a.folder])
    && (forall g <- s.next :: 1 <= s.next[g] <= UID_LIMIT)
    && (s.selected.Some? ==> s.selected.value in s.next)
  }

  /** No message is in two places. */
  ghost predicate OneHome(s: Server) {
    forall a, b :: a in s.mail && b in s.mail && s.mail[a].id == s.mail[b].id ==> a == b
  }

  function Ids(s: Server): set<nat> {
    set a | a in s.mail :: s.mail[a].id
  }

  function Uids(s: Server, folder: string): set<nat> {
    set a | a in s.mail && a.folder == folder :: a.uid as nat
  }

  function UidsFrom(s: Server, folder: string, floor: nat): set<nat> {
    set a | a in s.mail && a.folder == folder && floor <= a.uid :: a.uid as nat
  }

  lemma {:induction false} LeastExists(uids: set<nat>)
    requires uids != {}
    ensures exists u :: u in uids && forall v <- uids :: u <= v
    decreases uids
  {
    var x :| x in uids;
    var rest := uids - {x};
    if rest == {} {
      assert uids == {x};
      assert x in uids && forall v <- uids :: x <= v;
    } else {
      LeastExists(rest);
      var m :| m in rest && forall v <- rest :: m <= v;
      var u := if x < m then x else m;
      assert u in uids && forall v <- uids :: u <= v by {
        forall v <- uids ensures u <= v {
          assert v == x || v in rest;
        }
      }
    }
  }

  function Least(uids: set<nat>): (u: nat)
    requires uids != {}
    ensures u in uids
    ensures forall v <- uids :: u <= v
  {
    LeastExists(uids);
    var u :| u in uids && forall v <- uids :: u <= v;
    u
  }

  lemma {:induction false} GreatestExists(uids: set<nat>)
    requires uids != {}
    ensures exists u :: u in uids && forall v <- uids :: v <= u
    decreases uids
  {
    var x :| x in uids;
    var rest := uids - {x};
    if rest == {} {
      assert uids == {x};
      assert x in uids && forall v <- uids :: v <= x;
    } else {
      GreatestExists(rest);
      var m :| m in rest && forall v <- rest :: v <= m;
      var u := if m < x then x else m;
      assert u in uids && forall v <- uids :: v <= u by {
        forall v <- uids ensures v <= u {
          assert v == x || v in rest;
        }
      }
    }
  }

  function Greatest(uids: set<nat>): (u: nat)
    requires uids != {}
    ensures u in uids
    ensures forall v <- uids :: v <= u
  {
    GreatestExists(uids);
    var u :| u in uids && forall v <- uids :: v <= u;
    u
  }

  /** The one UID a search with limit 1 reports. The range sent for a positive floor is "floor:*", which
      section 6.4.8 of RFC 3501 reads as a set of two ends: with `wraps` it always contains the greatest
      UID of the mailbox, even one below the floor. */
  function Hit(s: Server, folder: string, floor: nat, wraps: bool): (r: Option<Uid>)
    ensures r.Some? ==> Addr(folder, r.value) in s.mail
    ensures r.Some? && !wraps ==> floor <= r.value
    ensures r.None? ==> UidsFrom(s, folder, floor) == {}
    ensures UidsFrom(s, folder, floor) != {} ==> r.Some? && r.value == Least(UidsFrom(s, folder, floor))
    ensures UidsFrom(s, folder, floor) == {} && r.Some? ==>
      wraps && Uids(s, folder) != {} && r.value == Greatest(Uids(s, folder))
    ensures wraps && Uids(s, folder) != {} ==> r.Some?
  {
    var above := UidsFrom(s, folder, floor);
    if above != {} then
      var u := Least(above);
      Some(u)
    else if wraps && Uids(s, folder) != {} then
      Some(Greatest(Uids(s, folder)))
    else
      None
  }

  function Target(s: Server, uid: Uid): Option<nat> {
    if s.selected.Some? && Addr(s.selected.value, uid) in s.owner
    then Some(s.owner[Addr(s.selected.value, uid)])
    else None
  }

  predicate Present(s: Server, uid: Uid) {
    s.selected.Some? && Addr(s.selected.value, uid) in s.mail
  }

  function Note(s: Server, op: Op, uid: Uid, outcome: Outcome): Event {
    Event(op, s.selected, uid, Target(s, uid), Present(s, uid), outcome)
  }

  /** What other clients did in the meantime. They may expunge anything and deliver anything, under new UIDs. */
  function Disturb(s: Server, f: Fate): Server {
    var next := Numbered(s.next, f.bump);
    var came := Arrivals(s.next, next, f.came);
    s.(mail := (s.mail - f.gone) + came,
       owner := s.owner + (map a | a in came :: came[a].id),
       next := next,
       arrived := s.arrived + (set a | a in came :: came[a].id),
       expunged := s.expunged + (set a | a in f.gone && a in s.mail :: s.mail[a].id))
  }

  function FirstFree(next: map<string, nat>, folder: string): nat {
    if folder in next then next[folder] else 1
  }

  function NextAfter(first: nat, wanted: nat): nat {
    if wanted <= first then first else if wanted <= UID_LIMIT then wanted else
    if first <= UID_LIMIT then UID_LIMIT else first
  }

  function Numbered(next: map<string, nat>, bump: map<string, nat>): map<string, nat> {
    map g | g in next.Keys + bump.Keys :: if g !in bump then next[g] else NextAfter(FirstFree(next, g), bump[g])
  }

  function Arrivals(next: map<string, nat>, next': map<string, nat>, came: map<Addr, Mail>): map<Addr, Mail> {
    map a | a in came && a.folder in next' && FirstFree(next, a.folder) <= a.uid < next'[a.folder] :: came[a]
  }

  // ----- commands -----

  datatype SearchReply = SearchError | NoneFound | FoundUid(uid: Uid)

  function SelectBox(s: Server, f: Fate, name: string): Server {
    var t := Disturb(s, f);
    // A failed SELECT leaves nothing selected (section 6.3.1 of RFC 3501).
    var ok := f.selectOk && name in t.next;
    t.(selected := if ok then Some(name) else None,
       trace := t.trace + [Event(Select, t.selected, 0, None, false, if ok then Done else Failed)])
  }

  function SearchBox(s: Server, f: Fate, wraps: bool, folder: string, floor: nat): (r: (Server, SearchReply))
    ensures !wraps && r.1.FoundUid? ==> floor <= r.1.uid
  {
    SearchSelected(SelectBox(s, f, folder), f, wraps, folder, floor)
  }

  function SearchSelected(t: Server, f: Fate, wraps: bool, folder: string, floor: nat): (r: (Server, SearchReply))
    ensures !wraps && r.1.FoundUid? ==> floor <= r.1.uid
  {
    if t.selected.None? then (t, SearchError)
    else
      var t' := t.(trace := t.trace + [Event(Search, t.selected, 0, None, false, if f.ok then Done else Failed)]);
      if !f.ok then (t', SearchError)
      else match Hit(t, folder, floor, wraps)
        case None => (t', NoneFound)
        case Some(u) => (t', FoundUid(u))
  }

  function FetchOne(s: Server, f: Fate, uid: Uid): (Server, Option<nat>) {
    var t := Disturb(s, f);
    var ok := f.ok && Present(t, uid);
    (t.(trace := t.trace + [Note(t, Fetch, uid, if ok then Done else Failed)]),
     if ok then Some(t.mail[Addr(t.selected.value, uid)].id) else None)
  }

  /** A body or header fetch of the matcher. It peeks, so nothing changes. */
  function PeekOne(s: Server, f: Fate, uid: Uid): Server {
    var t := Disturb(s, f);
    t.(trace := t.trace + [Note(t, Peek, uid, if f.ok && t.selected.Some? then Done else Failed)])
  }

  /** The whole message; this fetch does not peek, so the server marks it as seen. */
  function RawOne(s: Server, f: Fate, uid: Uid): (Server, bool) {
    RawNow(Disturb(s, f), f, uid)
  }

  function RawNow(t: Server, f: Fate, uid: Uid): (Server, bool) {
    var ok := f.ok && Present(t, uid);
    var e := Note(t, Raw, uid, if ok then Done else Failed);
    var t' := if (f.ok || f.lost) && Present(t, uid) then Flag(t, uid, {FlagOf("\\Seen")}, {}) else t;
    (t'.(trace := t.trace + [e]), ok)
  }

  function Flag(s: Server, uid: Uid, add: set<FlagName>, drop: set<FlagName>): Server
    requires Present(s, uid)
  {
    var a := Addr(s.selected.value, uid);
    s.(mail := s.mail[a := s.mail[a].(flags := (s.mail[a].flags + add) - drop)])
  }

  /** STORE of one flag. On an absent UID the server answers OK and does nothing (section 6.4.8 of RFC 3501). */
  function StoreOne(s: Server, f: Fate, uid: Uid, flag: string, add: bool): (Server, bool) {
    StoreNow(Disturb(s, f), f, uid, flag, add)
  }

  function StoreNow(t: Server, f: Fate, uid: Uid, flag: string, add: bool): (Server, bool) {
    var ok := f.ok && t.selected.Some?;
    var e := Note(t, if add then Store(flag) else Unstore(flag), uid, if ok then Done else Failed);
    var t' := if (f.ok || f.lost) && Present(t, uid)
              then (if add then Flag(t, uid, {FlagOf(flag)}, {}) else Flag(t, uid, {}, {FlagOf(flag)}))
              else t;
    (t'.(trace := t.trace + [e]), ok)
  }

  /** MOVE gives the message a fresh UID in the destination (section 3 of RFC 6851). The reply may omit
      that UID (COPYUID, section 3 of RFC 4315); moving an absent UID succeeds and reports none. */
  datatype MoveReply = MovedTo(uid: Uid) | MoveError | MoveUnknown

  function MoveOne(s: Server, f: Fate, uid: Uid, dest: string): (Server, MoveReply) {
    MoveNow(Disturb(s, f), f, uid, dest)
  }

  function MoveNow(t: Server, f: Fate, uid: Uid, dest: string): (Server, MoveReply) {
    if t.selected.None? || dest !in t.next || t.next[dest] >= UID_LIMIT || t.next[dest] < 1 || !(f.ok || f.lost) then
      (t.(trace := t.trace + [Note(t, Move(dest), uid, Failed)]), MoveError)
    else
      var reply := if !f.ok then MoveError
                   else if f.uidKnown && Present(t, uid) then MovedTo(t.next[dest]) else MoveUnknown;
      var e := Note(t, Move(dest), uid,
                    match reply case MovedTo(_) => Done case MoveError => Failed case MoveUnknown => DestUnknown);
      if !Present(t, uid) then (t.(trace := t.trace + [e]), reply)
      else
        var from := Addr(t.selected.value, uid);
        var to := Addr(dest, t.next[dest]);
        (t.(mail := (t.mail - {from})[to := t.mail[from]],
            owner := t.owner[to := t.mail[from].id],
            next := t.next[dest := t.next[dest] + 1],
            trace := t.trace + [e]),
         reply)
  }
}
