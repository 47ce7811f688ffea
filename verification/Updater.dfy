/** The upgrade scheduler (backend/app/updater.py, backend/app/config.py). Times are UTC seconds. */
module Updater {
  import opened Options
  import opened Words

  // ------------------------------------------------- the maintenance window

  const DAY := 1440

  datatype Window = Malformed | AnyTime | Between(start: nat, end: nat)

  /** Digits with single underscores between them. */
  function Digits10(s: string): Option<nat> {
    if s == "" || DigitValue(s[|s| - 1]).None? || DigitValue(s[|s| - 1]).value >= 10 then None
    else
      var d := DigitValue(s[|s| - 1]).value;
      var front := s[..|s| - 1];
      if front == "" then Some(d)
      else
        match Digits10(if front[|front| - 1] == '_' then front[..|front| - 1] else front)
        case None => None
        case Some(v) => Some(10 * v + d)
  }

  function Negated(v: Option<nat>): Option<int> {
    if v.None? then None else var n: int := 0 - v.value; Some(n)
  }

  /** int(text) */
  function PyInt(s: string): Option<int> {
    var t := Strip(s);
    if t != "" && t[0] == '-' then Negated(Digits10(t[1..]))
    else if t != "" && t[0] == '+' then Digits10(t[1..])
    else Digits10(t)
  }

  function Minutes(hhmm: string): (m: Option<nat>)
    ensures m.Some? ==> m.value < DAY
  {
    var parts := Split(Strip(hhmm), ':');
    if |parts| != 2 then None
    else
      match (PyInt(parts[0]), PyInt(parts[1]))
      case (Some(h), Some(m)) => if 0 <= h <= 23 && 0 <= m <= 59 then Some(h * 60 + m) else None
      case _ => None
  }

  function ParseWindow(value: string): (w: Window)
    ensures w.Between? ==> w.start < DAY && w.end < DAY && w.start != w.end
  {
    var text := Strip(value);
    if text == "" then AnyTime
    else
      var i := Find(text, '-');
      if i == |text| then Malformed
      else
        match (Minutes(text[..i]), Minutes(text[i + 1..]))
        case (Some(a), Some(b)) => if a == b then Malformed else Between(a, b)
        case _ => Malformed
  }

  function MinuteOfDay(now: int): (m: nat)
    ensures m < DAY
  {
    now / 60 % DAY
  }

  predicate Inside(minute: nat, start: nat, end: nat) {
    if start < end then start <= minute < end else minute >= start || minute < end
  }

  predicate InMaintenanceWindow(now: int, spec: string) { Open(ParseWindow(spec), now) }

  predicate Open(w: Window, now: int) {
    match w
    case Malformed => false
    case AnyTime => true
    case Between(start, end) => Inside(MinuteOfDay(now), start, end)
  }

  /** HH:MM */
  function Clock(m: nat): string
    requires m < DAY
  {
    [Digit(m / 60 / 10), Digit(m / 60 % 10)] + ":" + [Digit(m % 60 / 10), Digit(m % 60 % 10)]
  }

  function WindowText(a: nat, b: nat): string
    requires a < DAY && b < DAY
  {
    Clock(a) + "-" + Clock(b)
  }

  lemma TwoDigits(n: nat)
    requires n < 100
    ensures PyInt([Digit(n / 10), Digit(n % 10)]) == Some(n)
  {
    var s := [Digit(n / 10), Digit(n % 10)];
    StripNothing(s);
    assert s[..1] == [Digit(n / 10)] && s[..1][..0] == "";
    assert Digits10(s[..1]) == Some(n / 10);
  }

  /** int takes a sign, so "-05" is minus five. */
  lemma SignedReads(n: nat)
    requires n < 100
    ensures var r := PyInt(['-', Digit(n / 10), Digit(n % 10)]); r.Some? && r.value + n == 0
    ensures var r := PyInt(['+', Digit(n / 10), Digit(n % 10)]); r.Some? && r.value == n
  {
    var s := [Digit(n / 10), Digit(n % 10)];
    StripNothing(['-'] + s);
    StripNothing(['+'] + s);
    TwoDigits(n);
    StripNothing(s);
    assert (['-'] + s)[1..] == s && (['+'] + s)[1..] == s;
    assert ['-', Digit(n / 10), Digit(n % 10)] == ['-'] + s && ['+', Digit(n / 10), Digit(n % 10)] == ['+'] + s;
  }

  /** Two digits, a colon and two digits are a time exactly up to 23:59. */
  lemma ClockReadsIff(h: nat, mm: nat)
    requires h < 100 && mm < 100
    ensures Minutes([Digit(h / 10), Digit(h % 10)] + ":" + [Digit(mm / 10), Digit(mm % 10)])
              == if h <= 23 && mm <= 59 then Some(h * 60 + mm) else None
  {
    var a, b := [Digit(h / 10), Digit(h % 10)], [Digit(mm / 10), Digit(mm % 10)];
    var c := a + ":" + b;
    StripNothing(c);
    assert c == a + [':'] + b;
    SplitFirst(a, ':', b);
    SplitNone(b, ':');
    assert Split(c, ':') == [a, b];
    TwoDigits(h);
    TwoDigits(mm);
  }

  lemma ClockReads(m: nat)
    requires m < DAY
    ensures Minutes(Clock(m)) == Some(m)
  {
    ClockReadsIff(m / 60, m % 60);
  }

  /** Every pair of different times reads back from its HH:MM-HH:MM text; equal times are refused. */
  lemma WindowReads(a: nat, b: nat)
    requires a < DAY && b < DAY
    ensures ParseWindow(WindowText(a, b)) == if a == b then Malformed else Between(a, b)
  {
    var t := WindowText(a, b);
    StripNothing(t);
    FindIs(t, '-', |Clock(a)|);
    assert t[..|Clock(a)|] == Clock(a) && t[|Clock(a)| + 1..] == Clock(b);
    ClockReads(a);
    ClockReads(b);
  }

  /** Windows a-b and b-a share no minute and leave none out, midnight included. */
  lemma WindowsPartitionTheDay(a: nat, b: nat, now: int)
    requires a < DAY && b < DAY && a != b
    ensures InMaintenanceWindow(now, WindowText(a, b)) <==> !InMaintenanceWindow(now, WindowText(b, a))
  {
    WindowReads(a, b);
    WindowReads(b, a);
  }

  /** Inside a window, counted from its opening. */
  lemma InsideIff(m: nat, start: nat, end: nat)
    requires m < DAY && start < DAY && end < DAY && start != end
    ensures Inside(m, start, end) <==> (m - start) % DAY < (end - start) % DAY
  {
  }

  /** When the window that is open at `now` closes, and when it opens next. */
  function Closes(now: int, end: nat): int { (now / 60 + (end - MinuteOfDay(now)) % DAY) * 60 }

  function OpensAgain(now: int, start: nat, end: nat): int { Closes(now, end) + (start - end) % DAY * 60 }

  lemma MinuteLater(now: int, later: int)
    ensures MinuteOfDay(later) == (MinuteOfDay(now) + (later / 60 - now / 60)) % DAY
  {
  }

  lemma ModAdd(m: int, d: int, start: int)
    requires 0 <= (m - start) % DAY + d < DAY
    ensures ((m + d) % DAY - start) % DAY == (m - start) % DAY + d
  {
  }

  /** How long the window has been open at `now`, if it is, and how long it stays open. */
  function SinceOpening(now: int, start: nat): nat { (MinuteOfDay(now) - start) % DAY }

  function Length(start: nat, end: nat): nat { (end - start) % DAY }

  lemma ModShift(m: int, d: int, start: int)
    ensures ((m + d) % DAY - start) % DAY == ((m - start) % DAY + d) % DAY
  {
    var q, k := (m + d) / DAY, (m - start) / DAY;
    SameMod(m + d - start, (m + d) % DAY - start, q);
    SameMod(m - start + d, (m - start) % DAY + d, k);
  }

  lemma SameMod(x: int, y: int, k: int)
    requires x == y + k * DAY
    ensures x % DAY == y % DAY
  {
  }

  /** Whether one moment is inside the window decides it for every other. */
  lemma LaterInsideIff(now: int, later: int, start: nat, end: nat)
    requires start < DAY && end < DAY && start != end
    ensures Inside(MinuteOfDay(later), start, end) <==>
              (SinceOpening(now, start) + (later / 60 - now / 60)) % DAY < Length(start, end)
  {
    MinuteLater(now, later);
    ModShift(MinuteOfDay(now), later / 60 - now / 60, start);
    InsideIff(MinuteOfDay(later), start, end);
  }

  lemma MinutesLeft(m: nat, start: nat, end: nat)
    requires m < DAY && start < DAY && end < DAY && start != end && Inside(m, start, end)
    ensures (end - m) % DAY == (end - start) % DAY - (m - start) % DAY
    ensures (start - end) % DAY == DAY - (end - start) % DAY
  {
    if start < end {
      assert (end - start) % DAY == end - start && (m - start) % DAY == m - start && (end - m) % DAY == end - m;
    } else if m >= start {
      assert (end - start) % DAY == end - start + DAY && (m - start) % DAY == m - start
          && (end - m) % DAY == end - m + DAY;
    } else {
      assert (end - start) % DAY == end - start + DAY && (m - start) % DAY == m - start + DAY
          && (end - m) % DAY == end - m;
    }
  }

  lemma BeforeMinute(t: int, k: int)
    ensures t < k * 60 <==> t / 60 < k
  {
  }

  /** From a moment inside the window up to its next opening, a later moment is inside exactly when
      the window has not closed. */
  lemma StillInsideIff(now: int, later: int, start: nat, end: nat)
    requires start < DAY && end < DAY && start != end && Inside(MinuteOfDay(now), start, end)
    requires now <= later < OpensAgain(now, start, end)
    ensures Inside(MinuteOfDay(later), start, end) <==> later < Closes(now, end)
  {
    var m, d := MinuteOfDay(now), later / 60 - now / 60;
    MinutesLeft(m, start, end);
    InsideIff(m, start, end);
    BeforeMinute(later, now / 60 + (end - m) % DAY);
    BeforeMinute(later, now / 60 + (end - m) % DAY + (start - end) % DAY);
    MinuteLater(now, later);
    ModAdd(m, d, start);
    InsideIff(MinuteOfDay(later), start, end);
  }

  // ------------------------------------------------- which servers are due

  datatype UpdateState = Idle | Succeeded | Failed | Delegated

  /** The columns of a server row that matter; an absent text is "". */
  datatype Row = Row(enabled: bool, autoUpdate: bool, available: bool, latest: string, checkDisabled: bool,
                     docker: bool, agent: bool, version: string, cooldownUntil: Option<int>,
                     state: UpdateState, attempted: string, attemptedAt: Option<int>)

  datatype Config = Config(window: string, retryHours: int)

  datatype Reason = Disabled | AutoOff | OnBox | CheckOff | UpToDate | Cooldown | HandledOnBox | RetryLater(at: int)

  function RetryAt(attemptedAt: int, c: Config): int {
    attemptedAt + 3600 * if c.retryHours > 0 then c.retryHours else 0
  }

  function SkipReason(r: Row, now: int, c: Config): Option<Reason> {
    var target := Strip(r.latest);
    if !r.enabled then Some(Disabled)
    else if !r.autoUpdate then Some(AutoOff)
    else if !r.available || target == "" then
      Some(if r.checkDisabled then (if r.docker && !r.agent then OnBox else CheckOff) else UpToDate)
    else if r.cooldownUntil.Some? && r.cooldownUntil.value > now then Some(Cooldown)
    else if r.state.Delegated? && Strip(r.attempted) == target then Some(HandledOnBox)
    else if r.state.Failed? && Strip(r.attempted) == target && r.attemptedAt.Some?
        && RetryAt(r.attemptedAt.value, c) > now
    then Some(RetryLater(RetryAt(r.attemptedAt.value, c)))
    else None
  }

  /** A forced pass still has nothing to do without a release, except for an agent's container. */
  predicate Selected(r: Row, now: int, force: bool, c: Config) {
    if force then (r.agent && r.docker) || (r.available && Strip(r.latest) != "")
    else SkipReason(r, now, c).None?
  }

  predicate Picked(id: nat, r: Row, now: int, force: bool, only: Option<nat>, c: Config) {
    (only.None? || id == only.value) && Selected(r, now, force, c)
  }

  function PickedIds(rows: seq<(nat, Row)>, now: int, force: bool, only: Option<nat>, c: Config): seq<nat> {
    if rows == [] then []
    else (if Picked(rows[0].0, rows[0].1, now, force, only, c) then [rows[0].0] else [])
         + PickedIds(rows[1..], now, force, only, c)
  }

  function DueIds(rows: seq<(nat, Row)>, now: int, force: bool, only: Option<nat>, c: Config): seq<nat> {
    if !force && !InMaintenanceWindow(now, c.window) then [] else PickedIds(rows, now, force, only, c)
  }

  lemma PickedFrom(rows: seq<(nat, Row)>, i: nat, now: int, force: bool, only: Option<nat>, c: Config)
    requires i < |rows|
    ensures PickedIds(rows[i..], now, force, only, c)
            == (if Picked(rows[i].0, rows[i].1, now, force, only, c) then [rows[i].0] else [])
               + PickedIds(rows[i + 1..], now, force, only, c)
  {
    assert rows[i..][1..] == rows[i + 1..];
  }

  lemma Appended(due: seq<nat>, id: nat, rest: seq<nat>)
    ensures due + ([id] + rest) == due + [id] + rest && due + ([] + rest) == due + rest
  {
  }

  method Passes(row: Row, now: int, force: bool, c: Config) returns (ok: bool)
    ensures ok == Selected(row, now, force, c)
  {
    if force {
      if !(row.agent && row.docker) && (!row.available || Strip(row.latest) == "") { return false; }
    } else {
      var reason := SkipReason(row, now, c);
      if reason.Some? { return false; }
    }
    ok := true;
  }

  method DueServerIds(rows: seq<(nat, Row)>, now: int, force: bool, only: Option<nat>, c: Config)
    returns (due: seq<nat>)
    ensures due == DueIds(rows, now, force, only, c)
  {
    due := [];
    if !force && !InMaintenanceWindow(now, c.window) { return; }
    ghost var whole := PickedIds(rows, now, force, only, c);
    assert rows[0..] == rows;
    for i := 0 to |rows|
      invariant due + PickedIds(rows[i..], now, force, only, c) == whole
    {
      var (id, row) := rows[i];
      PickedFrom(rows, i, now, force, only, c);
      Appended(due, id, PickedIds(rows[i + 1..], now, force, only, c));
      if only.Some? && id != only.value { continue; }
      var ok := Passes(row, now, force, c);
      if ok { due := due + [id]; }
    }
  }

  /** The release is new, and neither left to the on-box updater nor failed within the retry hours. */
  predicate MayUpgrade(r: Row, now: int, retryHours: int) {
    var target := Strip(r.latest);
    && r.enabled && r.autoUpdate && r.available && target != ""
    && (r.cooldownUntil.Some? ==> r.cooldownUntil.value <= now)
    && (Strip(r.attempted) == target ==>
          && r.state != Delegated
          && (r.state == Failed && r.attemptedAt.Some? ==>
                now >= r.attemptedAt.value && (retryHours > 0 ==> now - r.attemptedAt.value >= 3600 * retryHours)))
  }

  lemma SkipNoneIff(r: Row, now: int, c: Config)
    requires r.attemptedAt.Some? ==> r.attemptedAt.value <= now
    ensures SkipReason(r, now, c).None? <==> MayUpgrade(r, now, c.retryHours)
  {
  }

  /** A malformed window holds every unforced upgrade back, and none holds back nothing. */
  lemma WindowlessDue(rows: seq<(nat, Row)>, now: int, only: Option<nat>, c: Config)
    ensures ParseWindow(c.window).Malformed? ==> DueIds(rows, now, false, only, c) == []
    ensures Strip(c.window) == "" ==> InMaintenanceWindow(now, c.window)
  {
  }

  lemma {:induction false} PickedConcat(a: seq<(nat, Row)>, b: seq<(nat, Row)>, now: int, force: bool,
                                        only: Option<nat>, c: Config)
    ensures PickedIds(a + b, now, force, only, c)
            == PickedIds(a, now, force, only, c) + PickedIds(b, now, force, only, c)
  {
    if a == [] {
      assert a + b == b;
    } else {
      assert (a + b)[1..] == a[1..] + b;
      PickedConcat(a[1..], b, now, force, only, c);
    }
  }

  /** A pass nobody forced takes a server exactly when the window is open, and the server is the one
      asked for, if any, and may be upgraded; the runs below are of such passes. */
  lemma UnforcedDueIff(rows: seq<(nat, Row)>, now: int, only: Option<nat>, c: Config, id: nat)
    requires forall i :: 0 <= i < |rows| && rows[i].1.attemptedAt.Some? ==> rows[i].1.attemptedAt.value <= now
    ensures id in DueIds(rows, now, false, only, c) <==>
              && InMaintenanceWindow(now, c.window) && (only.Some? ==> only.value == id)
              && exists r :: (id, r) in rows && MayUpgrade(r, now, c.retryHours)
  {
    PickedAre(rows, now, false, only, c, id);
    forall r | (id, r) in rows ensures SkipReason(r, now, c).None? <==> MayUpgrade(r, now, c.retryHours) {
      var i :| 0 <= i < |rows| && rows[i] == (id, r);
      SkipNoneIff(r, now, c);
    }
  }

  /** A forced pass takes no notice of the window, the switches and the retry hours. */
  lemma ForcedDueIff(rows: seq<(nat, Row)>, now: int, only: Option<nat>, c: Config, id: nat)
    ensures id in DueIds(rows, now, true, only, c) <==>
              && (only.Some? ==> only.value == id)
              && exists r :: (id, r) in rows && ((r.agent && r.docker) || (r.available && Strip(r.latest) != ""))
  {
    PickedAre(rows, now, true, only, c, id);
  }

  lemma {:induction false} PickedAre(rows: seq<(nat, Row)>, now: int, force: bool, only: Option<nat>, c: Config,
                                     id: nat)
    ensures id in PickedIds(rows, now, force, only, c) <==>
              (only.Some? ==> only.value == id) && exists r :: (id, r) in rows && Selected(r, now, force, c)
  {
    if rows != [] {
      var rest := PickedIds(rows[1..], now, force, only, c);
      PickedAre(rows[1..], now, force, only, c, id);
      if id in rest {
        var r :| (id, r) in rows[1..] && Selected(r, now, force, c);
        assert (id, r) in rows;
      }
      if Picked(rows[0].0, rows[0].1, now, force, only, c) && rows[0].0 == id {
        assert rows[0] == (id, rows[0].1) && rows[0] in rows;
      }
      if r :| (id, r) in rows && Selected(r, now, force, c) {
        if rows[0] != (id, r) { assert (id, r) in rows[1..]; }
      }
    }
  }

  // ------------------------------------------------- one upgrade and its record

  /** What the box and its agent answer, in the order they are asked. None is an error or no answer
      in time; an update request may also end in a transport error, which is no refusal. */
  datatype Answers = Answers(client: bool, check: Option<Release>, status: Option<string>,
                             agentReply: Option<bool>, back: Option<string>, accepted: bool, changed: Option<string>)

  datatype Release = Release(version: string, canUpdate: bool)

  /** One attempt's outcome: the state, the target it is recorded under and the version reported. */
  datatype Outcome = Outcome(state: UpdateState, target: string, version: string)

  /** update_server after it has the lock. hasAgent: the agent row and its URL were found. */
  function Attempt(r: Row, hasAgent: bool, a: Answers): Outcome {
    if !a.client || a.check.None? then Outcome(Failed, "", "")
    else
      var target := Strip(a.check.value.version);
      if a.status.None? then Outcome(Failed, target, "")
      else
        var current := if Strip(a.status.value) != "" then Strip(a.status.value) else r.version;
        if hasAgent && r.docker then
          match a.agentReply
          case None => Outcome(Failed, target, "")
          case Some(started) =>
            if !started then Outcome(Idle, "", "")
            else
              (match a.back
               case None => Outcome(Failed, target, "")
               case Some(v) => Outcome(Succeeded, if target != "" then target else v, v))
        else if target == "" || target == current then Outcome(Idle, "", "")
        else if r.docker || !a.check.value.canUpdate then Outcome(Delegated, target, "")
        else if !a.accepted then Outcome(Failed, target, "")
        else
          match a.changed
          case None => Outcome(Failed, target, "")
          case Some(v) => Outcome(Succeeded, target, v)
  }

  /** _record */
  function Recorded(r: Row, o: Outcome, now: int): Row {
    var noted := r.(state := o.state, attempted := o.target, attemptedAt := Some(now));
    if o.state.Succeeded? then
      noted.(version := if o.version != "" then o.version else r.version, available := false, latest := "")
    else noted
  }

  // ------------------------------------------------- what the answers lead to

  predicate AnsweredAll(a: Answers) { a.client && a.check.Some? && a.status.Some? }

  /** The box names the release the control plane knows. */
  predicate NamesLatest(r: Row, a: Answers) {
    a.client && a.check.Some? && Strip(a.check.value.version) == Strip(r.latest)
  }

  predicate ViaAgent(r: Row, hasAgent: bool) { hasAgent && r.docker }

  /** There is a release other than what runs. */
  predicate HasTarget(r: Row, a: Answers)
    requires AnsweredAll(a)
  {
    var target, reported := Strip(a.check.value.version), Strip(a.status.value);
    target != "" && target != if reported != "" then reported else r.version
  }

  predicate Fails(r: Row, hasAgent: bool, a: Answers) {
    !AnsweredAll(a) ||
    if ViaAgent(r, hasAgent) then a.agentReply.None? || (a.agentReply.value && a.back.None?)
    else HasTarget(r, a) && !r.docker && a.check.value.canUpdate && (!a.accepted || a.changed.None?)
  }

  predicate LeftToTheBox(r: Row, hasAgent: bool, a: Answers) {
    AnsweredAll(a) && !ViaAgent(r, hasAgent) && HasTarget(r, a) && (r.docker || !a.check.value.canUpdate)
  }

  predicate Succeeds(r: Row, hasAgent: bool, a: Answers) {
    AnsweredAll(a) &&
    if ViaAgent(r, hasAgent) then a.agentReply == Some(true) && a.back.Some?
    else HasTarget(r, a) && !r.docker && a.check.value.canUpdate && a.accepted && a.changed.Some?
  }

  lemma OutcomeIs(r: Row, hasAgent: bool, a: Answers)
    ensures Attempt(r, hasAgent, a).state ==
              if Fails(r, hasAgent, a) then Failed else if LeftToTheBox(r, hasAgent, a) then Delegated
              else if Succeeds(r, hasAgent, a) then Succeeded else Idle
    ensures Fails(r, hasAgent, a) || LeftToTheBox(r, hasAgent, a) ==>
              Attempt(r, hasAgent, a).target == if a.client && a.check.Some? then Strip(a.check.value.version) else ""
  {
  }

  /** The version the box, or its agent's container, reported when it was back. */
  function BackOn(r: Row, hasAgent: bool, a: Answers): string
    requires Succeeds(r, hasAgent, a)
  {
    if ViaAgent(r, hasAgent) then a.back.value else a.changed.value
  }

  /** After a success the row names that version and no new release; after anything else only the
      record of the attempt changed. */
  lemma RecordedIs(r: Row, hasAgent: bool, a: Answers, now: int)
    ensures var r' := Recorded(r, Attempt(r, hasAgent, a), now);
            && r'.attemptedAt == Some(now)
            && (Succeeds(r, hasAgent, a) ==>
                  r'.state == Succeeded && !r'.available && r'.latest == ""
                  && r'.version == if BackOn(r, hasAgent, a) != "" then BackOn(r, hasAgent, a) else r.version)
            && (!Succeeds(r, hasAgent, a) ==>
                  r' == r.(state := r'.state, attempted := r'.attempted, attemptedAt := r'.attemptedAt))
  {
    OutcomeIs(r, hasAgent, a);
  }

  /** Which answers keep the next pass away from a server that was due: a success; a hand-over to
      the on-box updater if the box names the known release; a failure if it does, and only for the
      retry period. A failure to build the client or to check the version has no backoff, nor has
      one whose box names another release. */
  lemma RecordBacksOffIff(r: Row, hasAgent: bool, a: Answers, at: int, now: int, c: Config)
    requires SkipReason(r, at, c).None? && at <= now && (r.cooldownUntil.Some? ==> r.cooldownUntil.value <= now)
    ensures SkipReason(Recorded(r, Attempt(r, hasAgent, a), at), now, c).Some? <==>
              if Fails(r, hasAgent, a) then NamesLatest(r, a) && now < RetryAt(at, c)
              else if LeftToTheBox(r, hasAgent, a) then NamesLatest(r, a)
              else Succeeds(r, hasAgent, a)
  {
    OutcomeIs(r, hasAgent, a);
    StripTwice(if a.check.Some? then a.check.value.version else "");
    assert Strip("") == "";
  }

  // ------------------------------------------------- runs of unforced passes over one server

  /** What a sync or an operator writes to the row: anything but the upgrade's own columns. */
  datatype Edit = Edit(enabled: bool, autoUpdate: bool, available: bool, latest: string, checkDisabled: bool,
                       docker: bool, agent: bool, version: string, cooldownUntil: Option<int>)

  function Edited(r: Row, e: Edit): Row {
    Row.Row(e.enabled, e.autoUpdate, e.available, e.latest, e.checkDisabled, e.docker, e.agent, e.version,
            e.cooldownUntil, r.state, r.attempted, r.attemptedAt)
  }

  /** A pass picks the server if it is due, which is all it checks; the attempt starts when the
      semaphore grants a permit, behind the other servers of the pass; Busy: it finds the lock taken
      or the row gone, and records nothing. */
  datatype Action = Wait(seconds: nat) | Write(edit: Edit) | Pick | Grant | Busy
                  | Finish(hasAgent: bool, answers: Answers)

  /** seen: the row as the attempt reads it when it begins. */
  datatype Turn = Resting | Queued(picked: int, version: string) | Running(seen: Row)

  /** An attempt: when it was picked and for which known release, and when it began. */
  datatype Start = Start(picked: int, at: int, version: string)

  /** What it came to: the target it is recorded under is the release its own box named, whichever
      the pick was for. */
  datatype Made = Made(state: UpdateState, target: string, at: int)

  /** The i-th of `made` is the end of the i-th of `starts`. */
  datatype Node = Node(row: Row, now: int, turn: Turn, starts: seq<Start>, made: seq<Made>)

  function Began(r: Row, at: int): Node { Node(r, at, Resting, [], []) }

  predicate Enabled(n: Node, a: Action) {
    match a
    case Pick => n.turn.Resting?
    case Grant => n.turn.Queued?
    case Busy => n.turn.Queued?
    case Finish(_, _) => n.turn.Running?
    case _ => true
  }

  predicate Due(n: Node, c: Config) { InMaintenanceWindow(n.now, c.window) && SkipReason(n.row, n.now, c).None? }

  /** A pass of these runs picks the server exactly when the loop over the fleet's rows returns it. */
  lemma DueIsSelected(n: Node, c: Config, rows: seq<(nat, Row)>, id: nat)
    requires (id, n.row) in rows && forall r :: (id, r) in rows ==> r == n.row
    ensures Due(n, c) <==> id in DueIds(rows, n.now, false, None, c)
  {
    PickedAre(rows, n.now, false, None, c, id);
  }

  function Step(n: Node, a: Action, c: Config): Node
    requires Enabled(n, a)
  {
    match a
    case Wait(seconds) => n.(now := n.now + seconds)
    case Write(edit) => n.(row := Edited(n.row, edit))
    case Pick => if Due(n, c) then n.(turn := Queued(n.now, Strip(n.row.latest))) else n
    case Grant => n.(turn := Running(n.row), starts := n.starts + [Start(n.turn.picked, n.now, n.turn.version)])
    case Busy => n.(turn := Resting)
    case Finish(hasAgent, answers) =>
      Ended(n, Attempt(n.turn.seen, hasAgent, answers))
  }

  predicate RunsTo(n: Node, actions: seq<Action>, c: Config, n': Node)
    decreases |actions|
  {
    if actions == [] then n' == n
    else Enabled(n, actions[0]) && RunsTo(Step(n, actions[0], c), actions[1..], c, n')
  }

  lemma RunStep(n: Node, a: Action, rest: seq<Action>, c: Config, n': Node)
    requires Enabled(n, a) && RunsTo(Step(n, a, c), rest, c, n')
    ensures RunsTo(n, [a] + rest, c, n')
  {
    assert ([a] + rest)[1..] == rest;
  }

  // ------------------------------------------------- the window over whole runs

  predicate PickedRight(picked: int, version: string, begun: int, c: Config) {
    InMaintenanceWindow(picked, c.window) && version != "" && picked <= begun
  }

  predicate AllPickedRight(n: Node, c: Config) {
    && (n.turn.Queued? ==> PickedRight(n.turn.picked, n.turn.version, n.now, c))
    && forall i :: 0 <= i < |n.starts| ==> PickedRight(n.starts[i].picked, n.starts[i].version, n.starts[i].at, c)
  }

  lemma StepPicksRight(n: Node, a: Action, c: Config)
    requires AllPickedRight(n, c) && Enabled(n, a)
    ensures AllPickedRight(Step(n, a, c), c)
  {
  }

  /** Every attempt of every run was picked inside the window, for a release that is known. */
  lemma {:induction false} AttemptsPickedInWindow(n: Node, actions: seq<Action>, c: Config, n': Node)
    requires AllPickedRight(n, c) && RunsTo(n, actions, c, n')
    ensures AllPickedRight(n', c)
    decreases |actions|
  {
    if actions != [] {
      StepPicksRight(n, actions[0], c);
      AttemptsPickedInWindow(Step(n, actions[0], c), actions[1..], c, n');
    }
  }

  predicate Proper(w: Window) { w.Between? ==> w.start < DAY && w.end < DAY && w.start != w.end }

  /** Counted in minutes from the opening of the window that `picked` is in, and whole days aside, the
      window is still open, or open again. */
  predicate OpenFrom(w: Window, picked: int, at: int) {
    w.Between? ==> (SinceOpening(picked, w.start) + (at / 60 - picked / 60)) % DAY < Length(w.start, w.end)
  }

  lemma OpenLaterIff(w: Window, picked: int, at: int)
    requires Proper(w) && Open(w, picked)
    ensures Open(w, at) <==> OpenFrom(w, picked, at)
  {
    if w.Between? { LaterInsideIff(picked, at, w.start, w.end); }
  }

  /** So an attempt, picked inside the window, is itself inside exactly when its permit came before
      the closing time, or while the window was open on a later day. */
  lemma AttemptInWindowIff(n: Node, actions: seq<Action>, c: Config, w: Window, n': Node, i: nat)
    requires n.starts == [] && n.turn.Resting? && RunsTo(n, actions, c, n') && i < |n'.starts|
              && w == ParseWindow(c.window)
    ensures Open(w, n'.starts[i].at) <==> OpenFrom(w, n'.starts[i].picked, n'.starts[i].at)
  {
    AttemptsPickedInWindow(n, actions, c, n');
    assert PickedRight(n'.starts[i].picked, n'.starts[i].version, n'.starts[i].at, c);
    OpenLaterIff(w, n'.starts[i].picked, n'.starts[i].at);
  }

  lemma ClosesLater(at: int, start: nat, end: nat)
    requires start < DAY && end < DAY && start != end && Inside(MinuteOfDay(at), start, end)
    ensures at < Closes(at, end) < OpensAgain(at, start, end)
  {
    MinutesLeft(MinuteOfDay(at), start, end);
    InsideIff(MinuteOfDay(at), start, end);
    BeforeMinute(at, at / 60 + (end - MinuteOfDay(at)) % DAY);
  }

  lemma EveryWindowCloses(at: int, spec: string)
    requires ParseWindow(spec).Between? && InMaintenanceWindow(at, spec)
    ensures at < Closes(at, ParseWindow(spec).end) && !InMaintenanceWindow(Closes(at, ParseWindow(spec).end), spec)
  {
    var w := ParseWindow(spec);
    ClosesLater(at, w.start, w.end);
    StillInsideIff(at, Closes(at, w.end), w.start, w.end);
  }

  /** Any server that is due may be upgraded after the window closed: the pass does not look at the
      clock again when the permit comes. */
  lemma AttemptOutsideWindow(r: Row, at: int, c: Config) returns (wait: nat, n: Node)
    requires ParseWindow(c.window).Between? && InMaintenanceWindow(at, c.window) && SkipReason(r, at, c).None?
    ensures RunsTo(Began(r, at), [Pick, Wait(wait), Grant], c, n)
    ensures |n.starts| == 1 && !InMaintenanceWindow(n.starts[0].at, c.window)
  {
    EveryWindowCloses(at, c.window);
    var closes := Closes(at, ParseWindow(c.window).end);
    wait := closes - at;
    n := LateGrant(r, at, wait, c);
    assert n.starts[0].at == closes;
  }

  lemma LateGrant(r: Row, at: int, seconds: nat, c: Config) returns (n: Node)
    requires InMaintenanceWindow(at, c.window) && SkipReason(r, at, c).None?
    ensures RunsTo(Began(r, at), [Pick, Wait(seconds), Grant], c, n)
    ensures n.starts == [Start(at, at + seconds, Strip(r.latest))]
  {
    var n0 := Began(r, at);
    var n1 := Step(n0, Pick, c);
    var n2 := Step(n1, Wait(seconds), c);
    n := Step(n2, Grant, c);
    assert RunsTo(n, [], c, n);
    RunStep(n2, Grant, [], c, n);
    RunStep(n1, Wait(seconds), [Grant], c, n);
    RunStep(n0, Pick, [Wait(seconds), Grant], c, n);
  }

  // ------------------------------------------------- backoff over whole runs

  /** The server's last attempt failed, or was left to the on-box updater, for release v. */
  predicate FailedFor(r: Row, v: string, at: int) { r.state.Failed? && r.attempted == v && r.attemptedAt == Some(at) }
  predicate DelegatedFor(r: Row, v: string) { r.state.Delegated? && r.attempted == v }

  /** The record keeps passes up to `until` away from release v. */
  predicate Blocks(r: Row, v: string, until: int, c: Config) {
    && v == Strip(v) != ""
    && (DelegatedFor(r, v)
        || (r.attemptedAt.Some? && FailedFor(r, v, r.attemptedAt.value) && until < RetryAt(r.attemptedAt.value, c)))
  }

  lemma BlockedIsNotDue(n: Node, v: string, until: int, c: Config)
    requires Blocks(n.row, v, until, c) && n.now <= until && Due(n, c)
    ensures Strip(n.row.latest) != v
  {
  }

  lemma {:induction false} ClockOnlyAdvances(n: Node, actions: seq<Action>, c: Config, n': Node)
    requires RunsTo(n, actions, c, n')
    ensures n'.now >= n.now && n.starts <= n'.starts
    decreases |actions|
  {
    if actions != [] { ClockOnlyAdvances(Step(n, actions[0], c), actions[1..], c, n'); }
  }

  predicate Ready(r: Row, now: int) {
    r.enabled && r.autoUpdate && r.available && Strip(r.latest) != ""
        && (r.cooldownUntil.Some? ==> r.cooldownUntil.value <= now)
  }

  /** While the record keeps v away, a pass picks the server exactly when another release is known. */
  lemma BlockedDueIff(n: Node, v: string, c: Config)
    requires Blocks(n.row, v, n.now, c)
    ensures Due(n, c) <==> InMaintenanceWindow(n.now, c.window) && Ready(n.row, n.now) && Strip(n.row.latest) != v
  {
  }

  /** The row carries the last attempt's record: no sync and no operator writes those columns. */
  predicate Logged(n: Node) {
    && |n.starts| == |n.made| + (if n.turn.Running? then 1 else 0)
    && (n.made != [] ==> Records(n.row, n.made[|n.made| - 1]))
  }

  predicate Records(r: Row, m: Made) {
    && r.state == m.state && r.attempted == m.target && r.attemptedAt == Some(m.at)
    && (m.state.Failed? || m.state.Delegated? ==> Strip(m.target) == m.target)
  }

  lemma TargetStripped(r: Row, hasAgent: bool, a: Answers)
    ensures var o := Attempt(r, hasAgent, a); o.state.Failed? || o.state.Delegated? ==> Strip(o.target) == o.target
  {
    OutcomeIs(r, hasAgent, a);
    StripTwice(if a.check.Some? then a.check.value.version else "");
    assert Strip("") == "";
  }

  function Ended(n: Node, o: Outcome): Node {
    n.(turn := Resting, row := Recorded(n.row, o, n.now), made := n.made + [Made(o.state, o.target, n.now)])
  }

  lemma EndLogs(n: Node, o: Outcome)
    requires Logged(n) && n.turn.Running? && (o.state.Failed? || o.state.Delegated? ==> Strip(o.target) == o.target)
    ensures Logged(Ended(n, o))
  {
    assert Ended(n, o).made[|n.made|] == Made(o.state, o.target, n.now);
  }

  lemma StepLogs(n: Node, a: Action, c: Config)
    requires Logged(n) && Enabled(n, a)
    ensures Logged(Step(n, a, c))
  {
    if a.Finish? {
      TargetStripped(n.turn.seen, a.hasAgent, a.answers);
      EndLogs(n, Attempt(n.turn.seen, a.hasAgent, a.answers));
    }
  }

  /** Still inside the retry period of a failed attempt, or at any time after a delegated one. */
  predicate Early(m: Made, picked: int, c: Config) {
    m.target != "" && (m.state.Delegated? || (m.state.Failed? && picked < RetryAt(m.at, c)))
  }

  /** The attempt after m is picked for another known release, unless it is late enough. */
  predicate Spaced(m: Made, picked: int, version: string, c: Config) { Early(m, picked, c) ==> version != m.target }

  predicate SpacedAt(n: Node, i: nat, c: Config)
    requires i < |n.made| && i + 1 < |n.starts|
  {
    Spaced(n.made[i], n.starts[i + 1].picked, n.starts[i + 1].version, c)
  }

  predicate AllSpaced(n: Node, c: Config) {
    && Logged(n)
    && (n.turn.Queued? && n.made != [] ==> Spaced(n.made[|n.made| - 1], n.turn.picked, n.turn.version, c))
    && forall i: nat | i < |n.made| && i + 1 < |n.starts| :: SpacedAt(n, i, c)
  }

  lemma StepSpaces(n: Node, a: Action, c: Config)
    requires AllSpaced(n, c) && Enabled(n, a)
    ensures AllSpaced(Step(n, a, c), c)
  {
    StepLogs(n, a, c);
    var n' := Step(n, a, c);
    forall i: nat | i < |n'.made| && i + 1 < |n'.starts| ensures SpacedAt(n', i, c) {
      if a.Grant? && i + 1 == |n.starts| {
        assert n'.made[i] == n.made[|n.made| - 1];
      } else {
        assert SpacedAt(n, i, c);
      }
    }
  }

  /** No attempt was picked before an earlier one. */
  predicate InOrder(n: Node) {
    && (n.turn.Queued? ==>
          n.turn.picked <= n.now && forall i :: 0 <= i < |n.starts| ==> n.starts[i].picked <= n.turn.picked)
    && (forall i :: 0 <= i < |n.starts| ==> n.starts[i].picked <= n.now)
    && forall i, j :: 0 <= i < j < |n.starts| ==> n.starts[i].picked <= n.starts[j].picked
  }

  lemma StepOrders(n: Node, a: Action, c: Config)
    requires InOrder(n) && Enabled(n, a)
    ensures InOrder(Step(n, a, c))
  {
  }

  lemma {:induction false} RunSpaces(n: Node, actions: seq<Action>, c: Config, n': Node)
    requires AllSpaced(n, c) && InOrder(n) && RunsTo(n, actions, c, n')
    ensures AllSpaced(n', c) && InOrder(n')
    decreases |actions|
  {
    if actions != [] {
      StepSpaces(n, actions[0], c);
      StepOrders(n, actions[0], c);
      RunSpaces(Step(n, actions[0], c), actions[1..], c, n');
    }
  }

  /** Every run of unforced passes, whatever syncs and operators write meanwhile and whatever the
      boxes answer: when the k-th attempt is picked within the retry period of a failed i-th, or at
      any time after a delegated one, then the attempt right after the i-th was picked for a known
      release other than the i-th's target. So the target itself is attempted again early only by
      or after such an attempt. */
  lemma EarlyRetryFollowsAnother(r: Row, at: int, actions: seq<Action>, c: Config, n': Node, i: nat, k: nat)
    requires RunsTo(Began(r, at), actions, c, n') && i < k < |n'.starts|
    ensures k <= |n'.made|
    ensures Early(n'.made[i], n'.starts[k].picked, c) ==> n'.starts[i + 1].version != n'.made[i].target
  {
    RunSpaces(Began(r, at), actions, c, n');
    assert SpacedAt(n', i, c);
    assert i + 1 < k ==> n'.starts[i + 1].picked <= n'.starts[k].picked;
  }

  /** A pass, its permit and its end, after each of the given waits. */
  function Rounds(waits: seq<nat>, hasAgent: bool, a: Answers): seq<Action> {
    if waits == [] then []
    else [Wait(waits[0])] + ([Pick] + ([Grant] + ([Finish(hasAgent, a)] + Rounds(waits[1..], hasAgent, a))))
  }

  /** The row knows a release that is due, and its box names another one, v, whose upgrade fails. */
  predicate NamesAnother(r: Row, now: int, hasAgent: bool, a: Answers, v: string, c: Config) {
    && SkipReason(r, now, c).None? && (r.cooldownUntil.Some? ==> r.cooldownUntil.value <= now)
    && Attempt(r, hasAgent, a).state.Failed? && Attempt(r, hasAgent, a).target == v == Strip(v) && v != Strip(r.latest)
  }

  function RoundEnd(n: Node, wait: nat, v: string): Node {
    Node(n.row.(state := Failed, attempted := v, attemptedAt := Some(n.now + wait)), n.now + wait, Resting,
         n.starts + [Start(n.now + wait, n.now + wait, Strip(n.row.latest))], n.made + [Made(Failed, v, n.now + wait)])
  }

  lemma RoundThen(n: Node, wait: nat, hasAgent: bool, a: Answers, v: string, c: Config, rest: seq<Action>, n': Node)
    requires c.window == "" && n.turn.Resting? && NamesAnother(n.row, n.now, hasAgent, a, v, c)
    requires SkipReason(n.row, n.now + wait, c).None? && RunsTo(RoundEnd(n, wait, v), rest, c, n')
    ensures RunsTo(n, [Wait(wait)] + ([Pick] + ([Grant] + ([Finish(hasAgent, a)] + rest))), c, n')
  {
    var n1 := Step(n, Wait(wait), c);
    var n2 := Step(n1, Pick, c);
    var n3 := Step(n2, Grant, c);
    assert Step(n3, Finish(hasAgent, a), c) == RoundEnd(n, wait, v);
    RunStep(n3, Finish(hasAgent, a), rest, c, n');
    RunStep(n2, Grant, [Finish(hasAgent, a)] + rest, c, n');
    RunStep(n1, Pick, [Grant] + ([Finish(hasAgent, a)] + rest), c, n');
    RunStep(n, Wait(wait), [Pick] + ([Grant] + ([Finish(hasAgent, a)] + rest)), c, n');
  }

  /** The record is of another release than the known one. */
  predicate RecordsElsewhere(r: Row) {
    r.state.Failed? || r.state.Delegated? ==> Strip(r.attempted) != Strip(r.latest)
  }

  lemma StillNamesAnother(n: Node, wait: nat, hasAgent: bool, a: Answers, v: string, c: Config)
    requires NamesAnother(n.row, n.now, hasAgent, a, v, c) && RecordsElsewhere(n.row)
    ensures SkipReason(n.row, n.now + wait, c).None?
    ensures NamesAnother(RoundEnd(n, wait, v).row, n.now + wait, hasAgent, a, v, c)
    ensures RecordsElsewhere(RoundEnd(n, wait, v).row)
  {
  }

  function RoundsEnd(n: Node, waits: seq<nat>, v: string): Node
    decreases |waits|
  {
    if waits == [] then n else RoundsEnd(RoundEnd(n, waits[0], v), waits[1..], v)
  }

  lemma {:induction false} RoundsMade(n: Node, waits: seq<nat>, v: string)
    ensures var made := RoundsEnd(n, waits, v).made;
            && n.made <= made && |made| == |n.made| + |waits|
            && forall i :: |n.made| <= i < |made| ==> made[i].state.Failed? && made[i].target == v
    decreases |waits|
  {
    if waits != [] {
      var next := RoundEnd(n, waits[0], v);
      RoundsMade(next, waits[1..], v);
      assert RoundsEnd(n, waits, v).made[|n.made|] == next.made[|n.made|];
    }
  }

  lemma {:induction false} RoundsRun(n: Node, waits: seq<nat>, hasAgent: bool, a: Answers, v: string, c: Config)
    requires c.window == "" && n.turn.Resting? && NamesAnother(n.row, n.now, hasAgent, a, v, c)
    requires RecordsElsewhere(n.row)
    ensures RunsTo(n, Rounds(waits, hasAgent, a), c, RoundsEnd(n, waits, v))
    decreases |waits|
  {
    if waits != [] {
      StillNamesAnother(n, waits[0], hasAgent, a, v, c);
      var next := RoundEnd(n, waits[0], v);
      RoundsRun(next, waits[1..], hasAgent, a, v, c);
      RoundThen(n, waits[0], hasAgent, a, v, c, Rounds(waits[1..], hasAgent, a), RoundsEnd(next, waits[1..], v));
    }
  }

  /** Such a box is sent the release that just failed by every pass, at whatever intervals: the
      record never names the release that the passes look at. */
  lemma StaleReleaseNeverBacksOff(n: Node, waits: seq<nat>, hasAgent: bool, a: Answers, v: string, c: Config)
    requires c.window == "" && n.turn.Resting? && NamesAnother(n.row, n.now, hasAgent, a, v, c)
    requires RecordsElsewhere(n.row)
    ensures var n' := RoundsEnd(n, waits, v);
            && RunsTo(n, Rounds(waits, hasAgent, a), c, n')
            && n.made <= n'.made && |n'.made| == |n.made| + |waits|
            && forall i :: |n.made| <= i < |n'.made| ==> n'.made[i].state.Failed? && n'.made[i].target == v
  {
    RoundsRun(n, waits, hasAgent, a, v, c);
    RoundsMade(n, waits, v);
  }

  /** There is such a row and such a box for any two releases, v having failed just now. */
  lemma BoxNamesAnother(v: string, w: string, at: int, c: Config) returns (r: Row, a: Answers)
    requires IsRelease(v) && IsRelease(w) && v != w
    ensures FailedFor(r, v, at) && NamesAnother(r, at, false, a, v, c)
  {
    r := Row.Row(true, true, true, w, false, false, false, "", None, Failed, v, Some(at));
    a := Answers(true, Some(Release(v, true)), Some(""), None, None, false, None);
    assert Strip("") == "";
  }

  /** Nothing but v, or no release at all, becomes known. */
  predicate OnlyKnows(actions: seq<Action>, v: string) {
    forall i :: 0 <= i < |actions| && actions[i].Write? ==> Strip(actions[i].edit.latest) in {"", v}
  }

  predicate KnowsOnly(n: Node, v: string) { n.turn.Resting? && Strip(n.row.latest) in {"", v} }

  lemma QuietStep(n: Node, a: Action, v: string, until: int, c: Config)
    requires Blocks(n.row, v, until, c) && KnowsOnly(n, v) && Enabled(n, a) && n.now <= until
    requires a.Write? ==> Strip(a.edit.latest) in {"", v}
    ensures Blocks(Step(n, a, c).row, v, until, c) && KnowsOnly(Step(n, a, c), v) && Step(n, a, c).starts == n.starts
  {
    if a.Pick? && Due(n, c) { BlockedIsNotDue(n, v, until, c); }
  }

  /** So with no other release known, it is not attempted at all. */
  lemma {:induction false} BackoffHolds(n: Node, v: string, actions: seq<Action>, c: Config, n': Node)
    requires Blocks(n.row, v, n'.now, c) && KnowsOnly(n, v)
    requires RunsTo(n, actions, c, n') && OnlyKnows(actions, v)
    ensures n'.starts == n.starts
    decreases |actions|
  {
    if actions != [] {
      ClockOnlyAdvances(n, actions, c, n');
      assert actions[0].Write? ==> Strip(actions[0].edit.latest) in {"", v};
      QuietStep(n, actions[0], v, n'.now, c);
      assert forall i :: 0 <= i < |actions[1..]| ==> actions[1..][i] == actions[i + 1];
      BackoffHolds(Step(n, actions[0], c), v, actions[1..], c, n');
    }
  }

  /** A server whose version cannot be checked is tried again by the very next pass. */
  lemma UncheckedIsRetriedAtOnce(r: Row, at: int, c: Config, hasAgent: bool, a: Answers) returns (n: Node)
    requires InMaintenanceWindow(at, c.window) && SkipReason(r, at, c).None? && !(a.client && a.check.Some?)
    ensures RunsTo(Began(r, at), [Pick, Grant, Finish(hasAgent, a), Pick, Grant], c, n)
    ensures n.starts == [Start(at, at, Strip(r.latest)), Start(at, at, Strip(r.latest))]
  {
    var finish := Finish(hasAgent, a);
    var n0 := Began(r, at);
    var n1 := Step(n0, Pick, c);
    var n2 := Step(n1, Grant, c);
    var n3 := Step(n2, finish, c);
    RecordBacksOffIff(r, hasAgent, a, at, at, c);
    var n4 := Step(n3, Pick, c);
    n := Step(n4, Grant, c);
    assert RunsTo(n, [], c, n);
    RunStep(n4, Grant, [], c, n);
    RunStep(n3, Pick, [Grant], c, n);
    RunStep(n2, finish, [Pick, Grant], c, n);
    RunStep(n1, Grant, [finish, Pick, Grant], c, n);
    RunStep(n0, Pick, [Grant, finish, Pick, Grant], c, n);
  }

  function Reattempted(n: Node, e: Edit, v: string): Node {
    Node(Edited(n.row, e), n.now, Running(Edited(n.row, e)), n.starts + [Start(n.now, n.now, v)], n.made)
  }

  /** The release becomes known, is picked and attempted; the run goes on from there. */
  lemma ReattemptThen(n: Node, e: Edit, v: string, c: Config, rest: seq<Action>, n': Node)
    requires c.window == "" && n.turn.Resting? && Strip(v) == v != ""
    requires e.enabled && e.autoUpdate && e.available && e.cooldownUntil.None? && e.latest == v
    requires Strip(n.row.attempted) != v
    requires RunsTo(Reattempted(n, e, v), rest, c, n')
    ensures RunsTo(n, [Write(e)] + ([Pick] + ([Grant] + rest)), c, n')
  {
    var n1 := Step(n, Write(e), c);
    var n2 := Step(n1, Pick, c);
    assert Step(n2, Grant, c) == Reattempted(n, e, v);
    RunStep(n2, Grant, rest, c, n');
    RunStep(n1, Pick, [Grant] + rest, c, n');
    RunStep(n, Write(e), [Pick] + ([Grant] + rest), c, n');
  }

  lemma UncheckedRecord(n: Node, a: Answers, c: Config)
    requires n.turn.Running? && !(a.client && a.check.Some?)
    ensures var m := Step(n, Finish(false, a), c);
            m.row.attempted == "" && m.now == n.now && m.turn == Resting && m.starts == n.starts
  {
  }

  lemma FinishThenReattempt(n: Node, a: Answers, e: Edit, v: string, c: Config) returns (n': Node)
    requires n.turn.Running? && !(a.client && a.check.Some?) && c.window == "" && Strip(v) == v != ""
    requires e.enabled && e.autoUpdate && e.available && e.cooldownUntil.None? && e.latest == v
    ensures n'.starts == n.starts + [Start(n.now, n.now, v)]
    ensures RunsTo(n, [Finish(false, a)] + ([Write(e)] + ([Pick] + ([Grant] + []))), c, n')
  {
    UncheckedRecord(n, a, c);
    assert Strip("") == "";
    var m := Step(n, Finish(false, a), c);
    n' := Reattempted(m, e, v);
    assert RunsTo(n', [], c, n');
    ReattemptThen(m, e, v, c, [], n');
    RunStep(n, Finish(false, a), [Write(e)] + ([Pick] + ([Grant] + [])), c, n');
  }

  predicate IsRelease(v: string) { v != "" && Strip(v) == v }

  /** And such a retry happens, for any two releases: v failed, w is attempted, v is known again and
      retried at once. */
  lemma FlippedReleaseIsRetriedEarly(r: Row, at: int, c: Config, e: Edit, a: Answers, v: string, w: string)
    returns (n: Node, actions: seq<Action>)
    requires c.window == "" && c.retryHours > 0 && FailedFor(r, v, at) && IsRelease(v) && IsRelease(w) && v != w
    requires e.enabled && e.autoUpdate && e.available && e.cooldownUntil.None? && !(a.client && a.check.Some?)
    ensures RunsTo(Began(r, at), actions, c, n)
    ensures n.starts == [Start(at, at, w), Start(at, at, v)] && at < RetryAt(at, c)
  {
    var n0 := Began(r, at);
    var other, again := e.(latest := w), e.(latest := v);
    var n1 := Reattempted(n0, other, w);
    n := FinishThenReattempt(n1, a, again, v, c);
    var rest := [Finish(false, a)] + ([Write(again)] + ([Pick] + ([Grant] + [])));
    ReattemptThen(n0, other, w, c, rest, n);
    actions := [Write(other)] + ([Pick] + ([Grant] + rest));
  }
}
