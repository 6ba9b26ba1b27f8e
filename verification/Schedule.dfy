/** The weekly schedule window of a rule (internal/rules/engine.go, internal/db/validate.go). */
module Schedule {
  import opened Text
  import opened RuleTypes

  const DAY_NAMES: seq<string> := ["mon", "tue", "wed", "thu", "fri", "sat", "sun"]

  /** Time is counted in minutes from the midnight before some Monday. */
  function DayOf(t: int): int {
    t / 1440
  }

  function MinuteOf(t: int): (m: nat)
    ensures m < 1440
  {
    t % 1440
  }

  function DayName(day: int): string {
    DAY_NAMES[day % 7]
  }

  /** The layout "15:04". */
  function Clock(m: nat): (r: string)
    requires m < 1440
    ensures |r| == 5
  {
    [Digit(m / 600), Digit(m / 60 % 10), ':', Digit(m % 60 / 10), Digit(m % 10)]
  }

  /** `inScheduleAt`. */
  function InScheduleAt(rule: Rule, t: int): bool {
    var current := Clock(MinuteOf(t));
    var start, end := rule.scheduleStart, rule.scheduleEnd;
    var crosses := start != "" && end != "" && Less(end, start);
    // The part of a window past midnight belongs to the day before.
    var day := if crosses && !Less(end, current) then DayName(DayOf(t) - 1) else DayName(DayOf(t));
    var days := Lower(rule.scheduleDays);
    if days != "" && !Contains(days, day) then false
    else if crosses then !Less(current, start) || !Less(end, current)
    else if start != "" && Less(current, start) then false
    else if end != "" && Less(end, current) then false
    else true
  }

  /** `inSchedule`: a rule without any schedule is always in it. */
  function InSchedule(rule: Rule, t: int): bool {
    if rule.scheduleDays == "" && rule.scheduleStart == "" && rule.scheduleEnd == "" then true
    else InScheduleAt(rule, t)
  }

  /** The day names of a list, as the validator reads them. */
  function DayList(days: string): seq<string> {
    var parts := Split(days, ',');
    seq(|parts|, i requires 0 <= i < |parts| => Lower(Trim(parts[i])))
  }

  predicate ValidDays(days: string) {
    forall d <- DayList(days) :: d == "" || d in DAY_NAMES
  }

  // ----- the substring test is membership -----

  /** A part without the separator occurs in the whole exactly when it occurs in a segment. */
  lemma {:induction false} ContainsInSegment(s: string, sep: char, part: string)
    requires sep !in part && part != ""
    ensures Contains(s, part) <==> exists p <- Split(s, sep) :: Contains(p, part)
  {
    var parts := Split(s, sep);
    if s == "" {
      assert parts == [""];
    } else {
      ContainsInSegment(s[1..], sep, part);
      var rest := Split(s[1..], sep);
      if s[0] == sep {
        ContainsShift(s, part);
        SeparatorBlocks(s, sep, part, 0);
        assert forall p <- parts :: p == "" || p in rest;
        assert forall p <- rest :: p in parts;
      } else {
        var first := [s[0]] + rest[0];
        assert first in parts && forall p <- rest[1..] :: p in parts;
        SplitPrefix(s[1..], sep);
        ContainsShift(s, part);
        ContainsShift(first, part);
        assert first[1..] == rest[0];
        if OccursAt(s, part, 0) {
          FirstSegmentHolds(s, sep, part);
          assert Contains(first, part);
        }
        if OccursAt(first, part, 0) {
          assert first <= s;
          assert OccursAt(s, part, 0);
        }
        if exists p <- rest :: Contains(p, part) {
          var p :| p in rest && Contains(p, part);
          if p != rest[0] { assert p in rest[1..]; }
        }
        if exists p <- parts :: Contains(p, part) {
          var p :| p in parts && Contains(p, part);
          if p != first { assert p in rest[1..]; assert p in rest; } else { assert rest[0] in rest; }
        }
      }
    }
  }

  /** No occurrence runs over a separator. */
  lemma SeparatorBlocks(s: string, sep: char, part: string, i: nat)
    requires i < |s| && s[i] == sep && sep !in part && i < |part|
    ensures !OccursAt(s, part, 0)
  {
    if |part| <= |s| {
      assert part[i] in part;
      assert s[0 + i] != part[i];
    }
  }

  lemma ContainsShift(s: string, part: string)
    requires s != ""
    ensures Contains(s, part) <==> OccursAt(s, part, 0) || Contains(s[1..], part)
  {
    if Contains(s, part) && !OccursAt(s, part, 0) {
      var i: nat :| i <= |s| && OccursAt(s, part, i);
      assert OccursAt(s[1..], part, i - 1);
    }
    if Contains(s[1..], part) {
      var i: nat :| i <= |s[1..]| && OccursAt(s[1..], part, i);
      forall k | 0 <= k < |part| ensures s[i + 1 + k] == part[k] {
        assert s[1..][i + k] == part[k];
      }
      assert OccursAt(s, part, i + 1);
    }
  }

  lemma {:induction false} SplitPrefix(s: string, sep: char)
    ensures Split(s, sep)[0] <= s
    ensures |Split(s, sep)[0]| < |s| ==> s[|Split(s, sep)[0]|] == sep
  {
    if s == "" {
    } else {
      SplitPrefix(s[1..], sep);
    }
  }

  lemma FirstSegmentHolds(s: string, sep: char, part: string)
    requires sep !in part && part != "" && OccursAt(s, part, 0)
    ensures OccursAt(Split(s, sep)[0], part, 0)
  {
    SplitPrefix(s, sep);
    var first := Split(s, sep)[0];
    if |first| < |part| {
      SeparatorBlocks(s, sep, part, |first|);
    }
  }

  lemma {:induction false} SplitOfLower(s: string)
    ensures |Split(Lower(s), ',')| == |Split(s, ',')|
    ensures forall i :: 0 <= i < |Split(s, ',')| ==> Split(Lower(s), ',')[i] == Lower(Split(s, ',')[i])
  {
    if s == "" {
    } else {
      SplitOfLower(s[1..]);
      assert Lower(s)[1..] == Lower(s[1..]);
      var rest := Split(s[1..], ',');
      if s[0] != ',' {
        assert Lower([s[0]] + rest[0]) == [LowerChar(s[0])] + Lower(rest[0]);
      }
    }
  }

  /** Three letters none of which is, in either case, a space. */
  predicate NameLike(name: string) {
    |name| == 3 && forall k, c: char :: 0 <= k < 3 && LowerChar(c) == name[k] ==> !IsSpace(c)
  }

  lemma OccurrenceInCore(lead: string, core: string, trail: string, name: string, i: nat)
    requires Blank(lead) && Blank(trail) && |core| in {0, 3} && NameLike(name)
    requires OccursAt(Lower(lead + core + trail), name, i)
    ensures i == |lead| && |core| == 3
  {
    var segment := lead + core + trail;
    var low := Lower(segment);
    assert low[i + 0] == name[0] && low[i + 2] == name[2];
    SpaceOutsideCore(lead, core, trail, i);
    SpaceOutsideCore(lead, core, trail, i + 2);
  }

  lemma SpaceOutsideCore(lead: string, core: string, trail: string, j: nat)
    requires Blank(lead) && Blank(trail)
    requires j < |lead + core + trail|
    ensures IsSpace((lead + core + trail)[j]) || |lead| <= j < |lead| + |core|
  {
    if j < |lead| {
      assert lead[j] in lead;
    } else if j >= |lead| + |core| {
      assert trail[j - |lead| - |core|] in trail;
    }
  }

  /** A padded name contains a name exactly when it is that name. */
  lemma PaddedName(lead: string, core: string, trail: string, name: string)
    requires Blank(lead) && Blank(trail) && |core| in {0, 3} && NameLike(name)
    ensures Contains(Lower(lead + core + trail), name) <==> Lower(core) == name
  {
    var low := Lower(lead + core + trail);
    if Lower(core) == name {
      assert OccursAt(low, name, |lead|);
    }
    if Contains(low, name) {
      var i: nat :| i <= |low| && OccursAt(low, name, i);
      OccurrenceInCore(lead, core, trail, name, i);
      assert forall k :: 0 <= k < 3 ==> low[|lead| + k] == name[k];
      assert forall k :: 0 <= k < 3 ==> Lower(core)[k] == low[|lead| + k];
    }
  }

  lemma SegmentIsName(segment: string, name: string)
    requires Lower(Trim(segment)) == "" || Lower(Trim(segment)) in DAY_NAMES
    requires name in DAY_NAMES
    ensures Contains(Lower(segment), name) <==> Lower(Trim(segment)) == name
  {
    var lead, trail := TrimMeaning(segment);
    NamesAreLetters(name);
    if Lower(Trim(segment)) != "" { NamesAreLetters(Lower(Trim(segment))); }
    PaddedName(lead, Trim(segment), trail, name);
    hide Contains, Trim, Lower, Blank, NameLike;
  }

  lemma NamesAreLetters(name: string)
    requires name in DAY_NAMES
    ensures ',' !in name && NameLike(name)
  {
  }

  /** The substring test of the evaluator is membership in the list the validator read. */
  lemma DayTestIsMembership(days: string, name: string)
    requires ValidDays(days) && name in DAY_NAMES
    ensures Contains(Lower(days), name) <==> name in DayList(days)
  {
    NamesAreLetters(name);
    ContainsInSegment(Lower(days), ',', name);
    SplitOfLower(days);
    var parts := Split(days, ',');
    var lows := Split(Lower(days), ',');
    forall i | 0 <= i < |parts| ensures Contains(lows[i], name) <==> DayList(days)[i] == name {
      assert DayList(days)[i] in DayList(days);
      SegmentIsName(parts[i], name);
    }
  }

  // ----- the clock test is arithmetic -----

  lemma LessByTail(a: string, b: string)
    requires a != "" && b != ""
    ensures Less(a, b) <==> a[0] < b[0] || (a[0] == b[0] && Less(a[1..], b[1..]))
  {
  }

  lemma LessOfFive(x: string, y: string)
    requires |x| == |y| == 5 && x[2] == y[2]
    ensures Less(x, y) <==> (x[0] < y[0] || (x[0] == y[0] && (x[1] < y[1] || (x[1] == y[1] &&
                             (x[3] < y[3] || (x[3] == y[3] && x[4] < y[4]))))))
  {
    LessByTail(x, y);
    LessByTail(x[1..], y[1..]);
    assert x[1..][1..] == x[2..] && y[1..][1..] == y[2..];
    LessByTail(x[2..], y[2..]);
    assert x[2..][1..] == x[3..] && y[2..][1..] == y[3..];
    LessByTail(x[3..], y[3..]);
    assert x[3..][1..] == x[4..] && y[3..][1..] == y[4..];
    LessByTail(x[4..], y[4..]);
    assert x[4..][1..] == "" && y[4..][1..] == "";
  }

  lemma ClockDigits(m: nat)
    requires m < 1440
    ensures m == m / 600 * 600 + m / 60 % 10 * 60 + m % 60 / 10 * 10 + m % 10
  {
  }

  lemma ClockOrder(a: nat, b: nat)
    requires a < 1440 && b < 1440
    ensures Less(Clock(a), Clock(b)) <==> a < b
  {
    LessOfFive(Clock(a), Clock(b));
    ClockDigits(a);
    ClockDigits(b);
    hide Less;
  }

  /** The "h:mm" the validator accepts beside "hh:mm". */
  function Unpadded(h: nat, mm: nat): string
    requires h < 10 && mm < 60
  {
    [Digit(h), ':', Digit(mm / 10), Digit(mm % 10)]
  }

  /** A colon sorts behind every digit. */
  lemma ClockAgainstUnpadded(m: nat, h: nat, mm: nat)
    requires m < 1440 && h < 10 && mm < 60
    ensures Less(Clock(m), Unpadded(h, mm)) <==> m < 600 * (h + 1)
    ensures Less(Unpadded(h, mm), Clock(m)) <==> 600 * (h + 1) <= m
  {
    var x, y := Clock(m), Unpadded(h, mm);
    LessByTail(x, y);
    LessByTail(y, x);
    LessByTail(x[1..], y[1..]);
    LessByTail(y[1..], x[1..]);
    assert x[1..][0] == x[1] && y[1..][0] == ':' && x[1] < ':';
    assert Less(x, y) <==> m / 600 <= h;
    assert Less(y, x) <==> h < m / 600;
  }

  lemma ZeroPadded(h: nat, mm: nat)
    requires h < 10 && mm < 60
    ensures 60 * h + mm < 1440 && Clock(60 * h + mm) == "0" + Unpadded(h, mm)
  {
    var m := 60 * h + mm;
    assert m / 60 == h && m % 60 == mm;
    assert m % 10 == mm % 10;
  }

  lemma UnpaddedOrder(h: nat, mm: nat, h': nat, mm': nat)
    requires h < 10 && mm < 60 && h' < 10 && mm' < 60
    ensures Less(Unpadded(h, mm), Unpadded(h', mm')) <==> 60 * h + mm < 60 * h' + mm'
  {
    hide Less, Clock, Unpadded;
    ZeroPadded(h, mm);
    ZeroPadded(h', mm');
    ClockOrder(60 * h + mm, 60 * h' + mm');
    var x, y := "0" + Unpadded(h, mm), "0" + Unpadded(h', mm');
    LessByTail(x, y);
    assert x[1..] == Unpadded(h, mm) && y[1..] == Unpadded(h', mm');
  }

  /** A bound of a window, as the validator accepts it: empty, "hh:mm", or "h:mm". */
  datatype Bound = Open | Minute(m: nat) | Short(h: nat, mm: nat)

  predicate GoodBound(b: Bound) {
    match b
    case Open => true
    case Minute(m) => m < 1440
    case Short(h, mm) => h < 10 && mm < 60
  }

  function Written(b: Bound): string
    requires GoodBound(b)
  {
    match b
    case Open => ""
    case Minute(m) => Clock(m)
    case Short(h, mm) => Unpadded(h, mm)
  }

  predicate Scheduled(days: string, day: int) {
    days == "" || DayName(day) in DayList(days)
  }

  /** A stretch of time each scheduled day begins: both ends are in it, and it may run into the next day. */
  datatype Window = Window(first: nat, last: nat, over: bool)

  predicate Spans(w: Window, day: int, t: int) {
    1440 * day + w.first <= t <= 1440 * day + w.last + (if w.over then 1440 else 0)
  }

  /** Some scheduled day's window holds the moment. */
  ghost predicate Covered(days: string, w: Window, t: int) {
    exists day :: Scheduled(days, day) && Spans(w, day, t)
  }

  function MinuteMeant(b: Bound, open: nat): nat {
    match b
    case Open => open
    case Minute(m) => m
    case Short(h, mm) => 60 * h + mm
  }

  /** What the bounds mean: the window runs over midnight when it starts after it ends. */
  function Meant(start: Bound, end: Bound): Window {
    var first, last := MinuteMeant(start, 0), MinuteMeant(end, 1439);
    Window(first, last, !start.Open? && !end.Open? && last < first)
  }

  /** The first minute of a day that is, as a string, not before "h:mm": (h+1)*10 o'clock, if the day has one. */
  function Tens(h: nat): nat {
    if h >= 2 then 1440 else 600 * (h + 1)
  }

  /** What the comparison of strings makes of them. */
  function Read(start: Bound, end: Bound): Window {
    var first := if start.Short? then Tens(start.h) else MinuteMeant(start, 0);
    var last := if end.Short? then Tens(end.h) - 1 else MinuteMeant(end, 1439);
    var over := if start.Short? && end.Short? then Meant(start, end).over
      else !start.Open? && !end.Open? && last < first;
    Window(first, last, over)
  }

  lemma DayTest(rule: Rule, day: int)
    requires ValidDays(rule.scheduleDays)
    ensures !(Lower(rule.scheduleDays) != "" && !Contains(Lower(rule.scheduleDays), DayName(day)))
       <==> Scheduled(rule.scheduleDays, day)
  {
    if rule.scheduleDays != "" { DayTestIsMembership(rule.scheduleDays, DayName(day)); }
  }

  /** A window told by the day and the minute of that day. */
  predicate At(days: string, w: Window, day: int, m: nat) {
    if w.over then (if m <= w.last then Scheduled(days, day - 1) else w.first <= m && Scheduled(days, day))
    else Scheduled(days, day) && w.first <= m <= w.last
  }

  predicate Proper(w: Window) {
    w.first <= 1440 && w.last < 1440 && (w.over ==> w.last < w.first)
  }

  lemma SpansTwoDays(w: Window, day: int, t: int)
    requires Proper(w)
    ensures var d, m := DayOf(t), MinuteOf(t);
      Spans(w, day, t)
      <==> (day == d && w.first <= m && (w.over || m <= w.last)) || (day == d - 1 && w.over && m <= w.last)
  {
  }

  /** Only the window of the day itself and one that began the day before can hold a moment. */
  lemma CoveredIff(days: string, w: Window, t: int)
    requires Proper(w)
    ensures Covered(days, w, t) <==> At(days, w, DayOf(t), MinuteOf(t))
  {
    hide DayOf, MinuteOf, Scheduled, Spans;
    forall day { SpansTwoDays(w, day, t); }
    if At(days, w, DayOf(t), MinuteOf(t)) {
      var day := if w.over && MinuteOf(t) <= w.last then DayOf(t) - 1 else DayOf(t);
      assert Scheduled(days, day) && Spans(w, day, t);
    }
  }

  lemma BothProper(start: Bound, end: Bound)
    requires GoodBound(start) && GoodBound(end)
    ensures Proper(Meant(start, end)) && Proper(Read(start, end))
  {
  }

  /** The three comparisons of the evaluator, as numbers. */
  lemma Comparisons(start: Bound, end: Bound, m: nat)
    requires GoodBound(start) && GoodBound(end) && m < 1440
    ensures var w := Read(start, end);
      && (start.Open? || (!Less(Clock(m), Written(start)) <==> w.first <= m))
      && (end.Open? || (!Less(Written(end), Clock(m)) <==> m <= w.last))
      && (start.Open? || end.Open? || (Less(Written(end), Written(start)) <==> w.over))
  {
    hide Less, Clock, Unpadded;
    match start {
      case Open =>
      case Minute(s) => ClockOrder(m, s);
      case Short(h, mm) => ClockAgainstUnpadded(m, h, mm);
    }
    match end {
      case Open =>
      case Minute(e) => ClockOrder(e, m); AgainstStart(start, e);
      case Short(h, mm) => ClockAgainstUnpadded(m, h, mm); AgainstEnd(start, h, mm);
    }
  }

  lemma AgainstStart(start: Bound, e: nat)
    requires GoodBound(start) && e < 1440
    ensures start.Open? || (Less(Clock(e), Written(start)) <==> e < Read(start, Minute(e)).first)
  {
    hide Less, Clock, Unpadded;
    match start
    case Open =>
    case Minute(s) => ClockOrder(e, s);
    case Short(h, mm) => ClockAgainstUnpadded(e, h, mm);
  }

  lemma AgainstEnd(start: Bound, h: nat, mm: nat)
    requires GoodBound(start) && h < 10 && mm < 60
    ensures start.Open? || (Less(Unpadded(h, mm), Written(start)) <==> Read(start, Short(h, mm)).over)
  {
    hide Less, Clock, Unpadded;
    match start
    case Open =>
    case Minute(s) => ClockAgainstUnpadded(s, h, mm);
    case Short(g, gg) => UnpaddedOrder(h, mm, g, gg);
  }

  lemma WrittenOpen(b: Bound)
    requires GoodBound(b)
    ensures Written(b) == "" <==> b.Open?
  {
  }

  /** The rule has these bounds and a day list the validator accepts. */
  predicate HasWindow(rule: Rule, start: Bound, end: Bound) {
    && GoodBound(start) && GoodBound(end)
    && rule.scheduleStart == Written(start) && rule.scheduleEnd == Written(end)
    && ValidDays(rule.scheduleDays)
  }

  /** Main result. For all bounds and day lists the validator accepts, a rule is in its schedule exactly when the
      window its strings are read as holds the moment on some scheduled day. */
  lemma ScheduleReads(rule: Rule, start: Bound, end: Bound, t: int)
    requires HasWindow(rule, start, end)
    ensures InScheduleAt(rule, t) <==> Covered(rule.scheduleDays, Read(start, end), t)
  {
    hide DayOf, MinuteOf, Scheduled, Contains, Less, ValidDays, Clock, DayName, Lower, Written, Covered, Read, Proper;
    BothProper(start, end);
    CoveredIff(rule.scheduleDays, Read(start, end), t);
    Comparisons(start, end, MinuteOf(t));
    WrittenOpen(start);
    WrittenOpen(end);
    DayTest(rule, DayOf(t));
    DayTest(rule, DayOf(t) - 1);
    OpenEnds(start, end, MinuteOf(t));
  }

  lemma OpenEnds(start: Bound, end: Bound, m: nat)
    requires m < 1440
    ensures start.Open? ==> Read(start, end).first <= m && !Read(start, end).over
    ensures end.Open? ==> m <= Read(start, end).last && !Read(start, end).over
  {
  }

  /** Main result. For zero-padded bounds that window is the one they mean. */
  lemma ScheduleMeaning(rule: Rule, start: Bound, end: Bound, t: int)
    requires HasWindow(rule, start, end) && !start.Short? && !end.Short?
    ensures InScheduleAt(rule, t) <==> Covered(rule.scheduleDays, Meant(start, end), t)
  {
    ScheduleReads(rule, start, end, t);
    assert Read(start, end) == Meant(start, end);
  }

  /** A rule without a schedule agrees with the same formula. */
  lemma NoScheduleMeaning(rule: Rule, t: int)
    requires rule.scheduleDays == "" && rule.scheduleStart == "" && rule.scheduleEnd == ""
    ensures InSchedule(rule, t) && InScheduleAt(rule, t)
  {
  }

  // ----- exactly when a rule means what it says -----

  /** Both bounds unpadded and next to each other, on every day, and no hole between them either as they are read. */
  ghost predicate AllRound(days: string, start: Bound, end: Bound) {
    && start.Short? && end.Short? && (forall day :: Scheduled(days, day))
    && 60 * start.h + start.mm == 60 * end.h + end.mm + 1
    && (start.h == end.h || end.h >= 2)
  }

  /** No day is scheduled, or no bound is unpadded, or the window is all the time. */
  ghost predicate MeansWhatItSays(days: string, start: Bound, end: Bound) {
    (forall day :: !Scheduled(days, day)) || (!start.Short? && !end.Short?) || AllRound(days, start, end)
  }

  /** Here the window as read and the window as meant differ. */
  predicate Differs(days: string, start: Bound, end: Bound, d: int, m: nat) {
    m < 1440 && At(days, Read(start, end), d, m) != At(days, Meant(start, end), d, m)
  }

  lemma StartOnlyDiffers(days: string, start: Bound, end: Bound, d: int)
    requires GoodBound(start) && GoodBound(end) && Scheduled(days, d) && start.Short? && !end.Short?
    ensures exists d', m: nat :: Differs(days, start, end, d', m)
  {
    hide Scheduled;
    var f := 60 * start.h + start.mm;
    if end.Open? || end.m < f || Tens(start.h) <= end.m {
      assert Differs(days, start, end, d, f);
    } else if f > 0 {
      assert Differs(days, start, end, d + 1, 0);
    } else {
      assert Differs(days, start, end, d, 600);
    }
  }

  lemma EndOnlyDiffers(days: string, start: Bound, end: Bound, d: int)
    requires GoodBound(start) && GoodBound(end) && Scheduled(days, d) && !start.Short? && end.Short?
    ensures exists d', m: nat :: Differs(days, start, end, d', m)
  {
    hide Scheduled;
    var l := 60 * end.h + end.mm;
    if start.Open? || start.m <= l {
      assert Differs(days, start, end, d, Tens(end.h) - 1);
    } else if start.m >= Tens(end.h) {
      assert Differs(days, start, end, d + 1, Tens(end.h) - 1);
    } else {
      assert Differs(days, start, end, d + 1, 0);
    }
  }

  /** A day is scheduled and the one before it is not, unless all are or none is. */
  lemma {:induction false} FirstOfSome(days: string, off: int, on: int) returns (d: int)
    requires off < on && !Scheduled(days, off) && Scheduled(days, on)
    ensures Scheduled(days, d) && !Scheduled(days, d - 1)
    decreases on - off
  {
    if Scheduled(days, off + 1) {
      d := off + 1;
    } else {
      d := FirstOfSome(days, off + 1, on);
    }
  }

  lemma WeekBefore(days: string, day: int, n: nat)
    ensures Scheduled(days, day - 7 * n) == Scheduled(days, day)
  {
    assert (day - 7 * n) % 7 == day % 7;
  }

  lemma BothDiffer(days: string, start: Bound, end: Bound, d: int)
    requires GoodBound(start) && GoodBound(end) && Scheduled(days, d) && start.Short? && end.Short?
    requires !AllRound(days, start, end)
    ensures exists d', m: nat :: Differs(days, start, end, d', m)
  {
    hide Scheduled;
    var f, l := 60 * start.h + start.mm, 60 * end.h + end.mm;
    if f <= l {
      assert Differs(days, start, end, d, f);
    } else if off :| !Scheduled(days, off) {
      var n := if off < d then 0 else off - d + 1;
      WeekBefore(days, off, n);
      var d' := FirstOfSome(days, off - 7 * n, d);
      assert Differs(days, start, end, d', f);
    } else if f > l + 1 {
      assert Differs(days, start, end, d, l + 1);
    } else {
      assert Differs(days, start, end, d, Tens(end.h));
    }
  }

  lemma SameWindows(days: string, start: Bound, end: Bound, d: int, m: nat)
    requires GoodBound(start) && GoodBound(end) && m < 1440 && MeansWhatItSays(days, start, end)
    ensures At(days, Read(start, end), d, m) == At(days, Meant(start, end), d, m)
  {
    hide Scheduled;
  }

  lemma SomewhereDiffers(days: string, start: Bound, end: Bound)
    requires GoodBound(start) && GoodBound(end) && !MeansWhatItSays(days, start, end)
    ensures exists d, m: nat :: Differs(days, start, end, d, m)
  {
    hide Scheduled, Differs, AllRound;
    var d :| Scheduled(days, d);
    if start.Short? && end.Short? {
      BothDiffer(days, start, end, d);
    } else if start.Short? {
      StartOnlyDiffers(days, start, end, d);
    } else {
      EndOnlyDiffers(days, start, end, d);
    }
  }

  lemma MomentAt(d: int, m: nat) returns (t: int)
    requires m < 1440
    ensures DayOf(t) == d && MinuteOf(t) == m
  {
    t := 1440 * d + m;
  }

  /** Main result and finding. For all bounds and day lists the validator accepts, a rule is in its schedule at just
      the moments its bounds mean exactly when no day is scheduled, or no bound lacks its zero, or both do and the
      window is all the time. */
  lemma ScheduleMeaningIff(rule: Rule, start: Bound, end: Bound)
    requires HasWindow(rule, start, end)
    ensures (forall t :: InScheduleAt(rule, t) <==> Covered(rule.scheduleDays, Meant(start, end), t))
       <==> MeansWhatItSays(rule.scheduleDays, start, end)
  {
    hide InScheduleAt, Covered, MeansWhatItSays, At, Read, Meant, Scheduled, ValidDays, Written, Proper;
    var days := rule.scheduleDays;
    BothProper(start, end);
    forall t
      ensures InScheduleAt(rule, t) <==> At(days, Read(start, end), DayOf(t), MinuteOf(t))
      ensures Covered(days, Meant(start, end), t) <==> At(days, Meant(start, end), DayOf(t), MinuteOf(t))
    {
      ScheduleReads(rule, start, end, t);
      CoveredIff(days, Read(start, end), t);
      CoveredIff(days, Meant(start, end), t);
    }
    if MeansWhatItSays(days, start, end) {
      forall t ensures InScheduleAt(rule, t) <==> Covered(days, Meant(start, end), t) {
        SameWindows(days, start, end, DayOf(t), MinuteOf(t));
      }
    } else {
      SomewhereDiffers(days, start, end);
      var d: int, m: nat :| Differs(days, start, end, d, m);
      var t := MomentAt(d, m);
      assert InScheduleAt(rule, t) != Covered(days, Meant(start, end), t);
    }
  }

  // ----- cases in point -----

  /** With an unpadded start alone the window opens at (h+1)*10 o'clock, which for h >= 2 never comes: from "9:00" on
      is never. */
  lemma UnpaddedStartOpensLate(rule: Rule, h: nat, mm: nat, t: int)
    requires h < 10 && mm < 60
    requires rule.scheduleDays == "" && rule.scheduleStart == Unpadded(h, mm) && rule.scheduleEnd == ""
    ensures InScheduleAt(rule, t) <==> MinuteOf(t) >= 600 * (h + 1)
  {
    hide InScheduleAt, MinuteOf, Covered;
    NoDays();
    ScheduleReads(rule, Short(h, mm), Open, t);
    CoveredIff("", Read(Short(h, mm), Open), t);
  }

  /** From "9:00" to "17:00" is from midnight to five in the afternoon: as strings the start comes after the end. */
  lemma NineToFive(rule: Rule, t: int)
    requires rule.scheduleDays == "" && rule.scheduleStart == "9:00" && rule.scheduleEnd == "17:00"
    ensures InScheduleAt(rule, t) <==> MinuteOf(t) <= 17 * 60
  {
    hide InScheduleAt, MinuteOf, Covered;
    NoDays();
    assert "9:00" == Unpadded(9, 0) && "17:00" == Clock(17 * 60);
    ScheduleReads(rule, Short(9, 0), Minute(17 * 60), t);
    CoveredIff("", Read(Short(9, 0), Minute(17 * 60)), t);
  }

  lemma NoDays()
    ensures ValidDays("")
  {
  }
}
