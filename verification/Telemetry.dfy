/** The sample store (backend/app/telemetry.py): hourly rollup and pruning. Times are
    microseconds since the epoch, naive UTC. */
module Telemetry {
  import opened Options

  const HOUR := 3_600_000_000

  function HourOf(t: int): int { t / HOUR * HOUR }

  /** A 1m row; an absent value and None are the same. */
  datatype Sample = Sample(ts: int, kind: string, entity: int, values: map<string, real>)

  datatype Group = Group(kind: string, entity: int, start: int)

  /** A 1h row with its means and the number of samples behind them. */
  datatype HourRow = HourRow(group: Group, means: map<string, real>, samples: nat)

  /** Settings: retention of 1m and of 1h rows, and the fields that are averaged. */
  datatype Config = Config(retention: int, rollupRetention: int, averaged: set<string>)

  function GroupOf(s: Sample): Group { Group(s.kind, s.entity, HourOf(s.ts)) }

  // ------------------------------------------------- means

  function Sum(rows: seq<Sample>, field: string): real {
    if rows == [] then 0.0
    else (if field in rows[0].values then rows[0].values[field] else 0.0) + Sum(rows[1..], field)
  }

  function Count(rows: seq<Sample>, field: string): nat {
    if rows == [] then 0 else (if field in rows[0].values then 1 else 0) + Count(rows[1..], field)
  }

  function Means(c: Config, rows: seq<Sample>): map<string, real> {
    map field | field in c.averaged && Count(rows, field) > 0 :: Sum(rows, field) / Count(rows, field) as real
  }

  function Summary(c: Config, g: Group, rows: seq<Sample>): HourRow { HourRow(g, Means(c, rows), |rows|) }

  // ------------------------------------------------- what a pass rolls up

  function Done(hours: seq<HourRow>, floor: int): set<Group> {
    set r | r in hours && r.group.start >= floor :: r.group
  }

  predicate Fresh(s: Sample, floor: int, hour: int, done: set<Group>) {
    floor <= s.ts < hour && GroupOf(s) !in done
  }

  function FreshOnes(minutes: seq<Sample>, floor: int, hour: int, done: set<Group>): seq<Sample> {
    if minutes == [] then []
    else
      (if Fresh(minutes[0], floor, hour, done) then [minutes[0]] else [])
      + FreshOnes(minutes[1..], floor, hour, done)
  }

  lemma {:induction false} FreshOnesAre(minutes: seq<Sample>, floor: int, hour: int, done: set<Group>)
    ensures forall s :: s in FreshOnes(minutes, floor, hour, done) <==> s in minutes && Fresh(s, floor, hour, done)
  {
    if minutes != [] { FreshOnesAre(minutes[1..], floor, hour, done); }
  }

  function InGroup(rows: seq<Sample>, g: Group): seq<Sample> {
    if rows == [] then [] else (if GroupOf(rows[0]) == g then [rows[0]] else []) + InGroup(rows[1..], g)
  }

  lemma {:induction false} InGroupAppend(rows: seq<Sample>, s: Sample, g: Group)
    ensures InGroup(rows + [s], g) == InGroup(rows, g) + if GroupOf(s) == g then [s] else []
  {
    if rows == [] {
      assert rows + [s] == [s];
    } else {
      assert (rows + [s])[1..] == rows[1..] + [s];
      InGroupAppend(rows[1..], s, g);
    }
  }

  function Groups(rows: seq<Sample>): set<Group> { set s | s in rows :: GroupOf(s) }

  datatype Store = Store(minutes: seq<Sample>, hours: seq<HourRow>)

  function ToRoll(c: Config, st: Store, at: int): seq<Sample> {
    FreshOnes(st.minutes, at - c.retention, HourOf(at), Done(st.hours, at - c.retention))
  }

  /** What rollup adds: one row for each group of those samples, over exactly its samples. */
  ghost predicate OneRowEach(c: Config, due: seq<Sample>, rows: seq<HourRow>) {
    && (forall i, j :: 0 <= i < j < |rows| ==> rows[i].group != rows[j].group)
    && (forall r :: r in rows ==> r.group in Groups(due) && r == Summary(c, r.group, InGroup(due, r.group)))
    && (forall g :: g in Groups(due) ==> HasRow(rows, g))
  }

  ghost predicate RolledUp(c: Config, st: Store, at: int, st': Store) {
    && st'.minutes == st.minutes
    && st.hours <= st'.hours
    && OneRowEach(c, ToRoll(c, st, at), st'.hours[|st.hours|..])
  }

  function KeepMinutes(minutes: seq<Sample>, from: int): seq<Sample> {
    if minutes == [] then []
    else (if minutes[0].ts < from then [] else [minutes[0]]) + KeepMinutes(minutes[1..], from)
  }

  function KeepHours(hours: seq<HourRow>, from: int): seq<HourRow> {
    if hours == [] then []
    else (if hours[0].group.start < from then [] else [hours[0]]) + KeepHours(hours[1..], from)
  }

  function Pruned(c: Config, st: Store, at: int): Store {
    Store(KeepMinutes(st.minutes, at - c.retention), KeepHours(st.hours, at - c.rollupRetention))
  }

  lemma {:induction false} KeepMinutesAre(minutes: seq<Sample>, from: int)
    ensures forall s :: s in KeepMinutes(minutes, from) <==> s in minutes && s.ts >= from
  {
    if minutes != [] { KeepMinutesAre(minutes[1..], from); }
  }

  lemma {:induction false} KeepHoursAre(hours: seq<HourRow>, from: int)
    ensures forall r :: r in KeepHours(hours, from) <==> r in hours && r.group.start >= from
  {
    if hours != [] { KeepHoursAre(hours[1..], from); }
  }

  /** prune keeps a row as often as it was there, or not at all: exactly when its time is at or after
      the cut for its resolution. */
  lemma {:induction false} KeepMinutesCount(minutes: seq<Sample>, from: int, s: Sample)
    ensures multiset(KeepMinutes(minutes, from))[s] == if s.ts >= from then multiset(minutes)[s] else 0
  {
    if minutes != [] {
      KeepMinutesCount(minutes[1..], from, s);
      assert minutes == [minutes[0]] + minutes[1..];
    }
  }

  lemma {:induction false} KeepHoursCount(hours: seq<HourRow>, from: int, r: HourRow)
    ensures multiset(KeepHours(hours, from))[r] == if r.group.start >= from then multiset(hours)[r] else 0
  {
    if hours != [] {
      KeepHoursCount(hours[1..], from, r);
      assert hours == [hours[0]] + hours[1..];
    }
  }

  // ------------------------------------------------- groups are an entity and an hour

  /** The hour of g, for its entity only; 3_600_000_000 microseconds. */
  predicate Covers(g: Group, s: Sample) {
    s.kind == g.kind && s.entity == g.entity && g.start <= s.ts < g.start + 3_600_000_000
  }

  predicate OnTheHour(g: Group) { g.start % 3_600_000_000 == 0 }

  function CoveredBy(rows: seq<Sample>, g: Group): seq<Sample> {
    if rows == [] then [] else (if Covers(g, rows[0]) then [rows[0]] else []) + CoveredBy(rows[1..], g)
  }

  lemma GroupOfIff(s: Sample, g: Group)
    ensures OnTheHour(GroupOf(s)) && Covers(GroupOf(s), s)
    ensures OnTheHour(g) ==> (Covers(g, s) <==> g == GroupOf(s))
  {
    var q := s.ts / 3_600_000_000;
    assert HourOf(s.ts) == q * 3_600_000_000;
    if OnTheHour(g) && Covers(g, s) {
      var k := g.start / 3_600_000_000;
      assert g.start == k * 3_600_000_000;
      assert k == q;
    }
  }

  lemma {:induction false} InGroupIsCovered(rows: seq<Sample>, g: Group)
    requires OnTheHour(g)
    ensures InGroup(rows, g) == CoveredBy(rows, g)
  {
    if rows != [] {
      GroupOfIff(rows[0], g);
      InGroupIsCovered(rows[1..], g);
    }
  }

  /** A stored 1m row is due when it is within the retention, before the running hour, and no 1h row
      that starts within the retention is for its entity and hour. */
  predicate IsDue(c: Config, st: Store, at: int, s: Sample) {
    && at - c.retention <= s.ts && s.ts / 3_600_000_000 < at / 3_600_000_000
    && forall r :: r in st.hours && at - c.retention <= r.group.start ==> !(OnTheHour(r.group) && Covers(r.group, s))
  }

  lemma DueIff(c: Config, st: Store, at: int, s: Sample)
    ensures s in ToRoll(c, st, at) <==> s in st.minutes && IsDue(c, st, at, s)
  {
    FreshOnesAre(st.minutes, at - c.retention, HourOf(at), Done(st.hours, at - c.retention));
    assert s.ts < HourOf(at) <==> s.ts / HOUR < at / HOUR;
    forall g: Group ensures OnTheHour(g) && Covers(g, s) <==> g == GroupOf(s) { GroupOfIff(s, g); }
  }

  /** Rows on the hour, no two for one entity and hour, each over all the due samples of its entity
      and hour and no others, and none of them left out. */
  ghost predicate RowsCover(c: Config, due: seq<Sample>, rows: seq<HourRow>) {
    && (forall i, j :: 0 <= i < j < |rows| ==> rows[i].group != rows[j].group)
    && (forall r :: r in rows ==> OnTheHour(r.group) && CoveredBy(due, r.group) != []
                                  && r == Summary(c, r.group, CoveredBy(due, r.group)))
    && (forall s :: s in due ==> HasCover(rows, s))
  }

  predicate HasCover(rows: seq<HourRow>, s: Sample) { exists r :: r in rows && Covers(r.group, s) }

  lemma AddedRowsCover(c: Config, due: seq<Sample>, rows: seq<HourRow>)
    requires OneRowEach(c, due, rows)
    ensures RowsCover(c, due, rows)
  {
    forall r | r in rows
      ensures OnTheHour(r.group) && CoveredBy(due, r.group) != [] && r == Summary(c, r.group, CoveredBy(due, r.group))
    {
      var s :| s in due && GroupOf(s) == r.group;
      GroupOfIff(s, r.group);
      InGroupIsCovered(due, r.group);
      SomeInGroup(due, s);
    }
    forall s | s in due ensures HasCover(rows, s) {
      assert HasRow(rows, GroupOf(s));
      GroupOfIff(s, GroupOf(s));
    }
  }

  // ------------------------------------------------- the table, updated in place

  class Table {
    const config: Config
    var minutes: seq<Sample>
    var hours: seq<HourRow>

    function Contents(): Store
      reads this
    {
      Store(minutes, hours)
    }

    constructor (config: Config)
      ensures this.config == config && Contents() == Store([], [])
    {
      this.config := config;
      minutes, hours := [], [];
    }

    /** rollup: group the due 1m rows, then add one 1h row a group. */
    method Rollup(at: int) returns (added: nat)
      modifies this`hours
      ensures minutes == old(minutes) && old(hours) <= hours
      ensures RowsCover(config, ToRoll(config, old(Contents()), at), hours[|old(hours)|..])
      ensures RolledUp(config, old(Contents()), at, Contents())
      ensures |hours| == |old(hours)| + added
    {
      var due := ToRoll(config, Contents(), at);
      var groups := GroupRows(due);
      var rows := SummaryRows(config, due, groups);
      AddedRowsCover(config, due, rows);
      hours := hours + rows;
      added := |rows|;
      assert hours[|old(hours)|..] == rows;
    }

    method Prune(at: int)
      modifies this
      // A row stays exactly when its time is at or after the cut.
      ensures forall s :: s in minutes <==> s in old(minutes) && s.ts >= at - config.retention
      ensures forall r :: r in hours <==> r in old(hours) && r.group.start >= at - config.rollupRetention
      ensures Contents() == Pruned(config, old(Contents()), at)
    {
      KeepMinutesAre(minutes, at - config.retention);
      KeepHoursAre(hours, at - config.rollupRetention);
      minutes, hours := KeepMinutes(minutes, at - config.retention), KeepHours(hours, at - config.rollupRetention);
    }
  }

  method GroupRows(due: seq<Sample>) returns (groups: map<Group, seq<Sample>>)
    ensures groups.Keys == Groups(due)
    ensures forall g :: g in groups ==> groups[g] == InGroup(due, g)
  {
    groups := map[];
    var i := 0;
    while i < |due|
      invariant i <= |due|
      invariant groups.Keys == Groups(due[..i])
      invariant forall g :: g in groups ==> groups[g] == InGroup(due[..i], g)
    {
      var g := GroupOf(due[i]);
      GroupsAppend(due[..i], due[i], groups);
      assert due[..i + 1] == due[..i] + [due[i]];
      groups := groups[g := (if g in groups then groups[g] else []) + [due[i]]];
      i := i + 1;
    }
    assert due[..i] == due;
  }

  /** defaultdict(list).append keeps every group complete. */
  lemma GroupsAppend(rows: seq<Sample>, s: Sample, groups: map<Group, seq<Sample>>)
    requires groups.Keys == Groups(rows) && forall g :: g in groups ==> groups[g] == InGroup(rows, g)
    ensures var g := GroupOf(s);
            var groups' := groups[g := (if g in groups then groups[g] else []) + [s]];
            groups'.Keys == Groups(rows + [s]) && forall k :: k in groups' ==> groups'[k] == InGroup(rows + [s], k)
  {
    var g := GroupOf(s);
    assert Groups(rows + [s]) == Groups(rows) + {g} by {
      assert forall x :: x in rows + [s] <==> x in rows || x == s;
    }
    if g !in groups { NoneInGroup(rows, g); }
    forall k ensures InGroup(rows + [s], k) == InGroup(rows, k) + if g == k then [s] else [] {
      InGroupAppend(rows, s, k);
    }
  }

  method SummaryRows(c: Config, due: seq<Sample>, groups: map<Group, seq<Sample>>) returns (rows: seq<HourRow>)
    requires groups.Keys == Groups(due)
    requires forall g :: g in groups ==> groups[g] == InGroup(due, g)
    ensures OneRowEach(c, due, rows)
  {
    rows := [];
    var left := groups.Keys;
    while left != {}
      invariant left <= groups.Keys
      invariant forall i, j :: 0 <= i < j < |rows| ==> rows[i].group != rows[j].group
      invariant forall r :: r in rows ==> r.group in groups.Keys - left && r == Summary(c, r.group, groups[r.group])
      invariant forall g :: g in groups.Keys - left ==> HasRow(rows, g)
      decreases left
    {
      var g :| g in left;
      ghost var before := rows;
      rows := rows + [Summary(c, g, groups[g])];
      HasRowAppend(before, Summary(c, g, groups[g]));
      left := left - {g};
    }
    assert forall g :: g in Groups(due) ==> HasRow(rows, g);
  }

  predicate HasRow(hours: seq<HourRow>, g: Group) { exists r :: r in hours && r.group == g }

  lemma HasRowAppend(rows: seq<HourRow>, r: HourRow)
    ensures HasRow(rows + [r], r.group)
    ensures forall g :: HasRow(rows, g) ==> HasRow(rows + [r], g)
  {
    assert r in rows + [r];
    forall g | HasRow(rows, g) ensures HasRow(rows + [r], g) {
      var r' :| r' in rows && r'.group == g;
      assert r' in rows + [r];
    }
  }

  lemma {:induction false} NoneInGroup(rows: seq<Sample>, g: Group)
    requires g !in Groups(rows)
    ensures InGroup(rows, g) == []
  {
    if rows != [] {
      assert rows[0] in rows;
      assert forall s :: s in rows[1..] ==> s in rows;
      NoneInGroup(rows[1..], g);
    }
  }

  // ------------------------------------------------- a row stands for its samples

  /** A mean times the number of samples that carry the field is their sum, so nothing is lost
      or invented in a rollup; the samples of a row are all of its hour and entity. */
  lemma SummaryConserves(c: Config, due: seq<Sample>, rows: seq<HourRow>, r: HourRow, field: string)
    requires OneRowEach(c, due, rows) && r in rows && field in c.averaged
    ensures r.samples == |CoveredBy(due, r.group)| > 0
    ensures field in r.means <==> Count(CoveredBy(due, r.group), field) > 0
    ensures field in r.means ==>
              Times(r.means[field], Count(CoveredBy(due, r.group), field)) == Sum(CoveredBy(due, r.group), field)
  {
    AddedRowsCover(c, due, rows);
    MeansConserve(c, CoveredBy(due, r.group), r.means, field);
  }

  function Times(x: real, n: nat): real { x * n as real }

  lemma MeansConserve(c: Config, rows: seq<Sample>, means: map<string, real>, field: string)
    requires field in c.averaged && means == Means(c, rows)
    ensures field in means <==> Count(rows, field) > 0
    ensures field in means ==> Times(means[field], Count(rows, field)) == Sum(rows, field)
  {
    if Count(rows, field) > 0 { MeanTimesCount(Sum(rows, field), Count(rows, field) as real); }
  }

  lemma MeanTimesCount(sum: real, count: real)
    requires count != 0.0
    ensures sum / count * count == sum
  {
  }

  lemma {:induction false} SomeInGroup(rows: seq<Sample>, s: Sample)
    requires s in rows
    ensures s in InGroup(rows, GroupOf(s))
  {
    if rows[0] != s { SomeInGroup(rows[1..], s); }
  }

  // ------------------------------------------------- second rows

  /** A pass adds a second row for an hour exactly when that hour starts before the retention
      floor and still has a 1m row at or after it: the floor is not aligned to the hour. In
      particular never for an hour starting at or after the floor. */
  lemma SecondRowIff(c: Config, st: Store, at: int, st': Store, g: Group)
    requires RolledUp(c, st, at, st') && HasRow(st.hours, g)
    ensures HasRow(st'.hours[|st.hours|..], g) <==>
              && g.start < at - c.retention
              && exists s :: s in st.minutes && GroupOf(s) == g && at - c.retention <= s.ts < HourOf(at)
  {
    var floor, due := at - c.retention, ToRoll(c, st, at);
    FreshOnesAre(st.minutes, floor, HourOf(at), Done(st.hours, floor));
    var old' :| old' in st.hours && old'.group == g;
    if g.start >= floor { assert g in Done(st.hours, floor); }
    if s :| g.start < floor && s in st.minutes && GroupOf(s) == g && floor <= s.ts < HourOf(at) {
      assert s in due;
      assert g in Groups(due);
    }
  }

  // ------------------------------------------------- runs of the collector

  /** The store with the process variable _last_rollup, and as history the time of the latest
      pass, every sample ever taken, every sample some 1h row counted, and every 1h row after
      each pass. */
  datatype Run = Run(store: Store, last: Option<int>, pass: Option<int>, ever: set<Sample>, counted: set<Sample>,
                     rows: seq<HourRow>)

  const START := Run(Store([], []), None, None, {}, {}, [])

  /** A 1h row of the sample's entity and hour was added at some time. */
  predicate Recorded(r: Run, s: Sample) { HasCover(r.rows, s) }

  predicate AllRecorded(r: Run) { forall s :: s in r.counted ==> Recorded(r, s) }

  function AsSet(xs: seq<Sample>): set<Sample> { set s | s in xs }

  /** collect_all stores one sample per entity at time `at`. */
  predicate Collected(r: Run, at: int, samples: seq<Sample>, r': Run) {
    && (forall s :: s in samples ==> s.ts == at)
    && r' == r.(store := Store(r.store.minutes + samples, r.store.hours), ever := r.ever + AsSet(samples))
  }

  /** The pass is due: at least an hour after the last one of this process. */
  predicate PassDue(r: Run, at: int) { r.last.None? || at - r.last.value >= HOUR }

  /** rollup, prune and commit. */
  ghost predicate Passed(c: Config, r: Run, at: int, r': Run) {
    exists mid :: RolledUp(c, r.store, at, mid)
      && r' == r.(store := Pruned(c, mid, at), last := Some(at), pass := Some(at),
                  counted := r.counted + AsSet(ToRoll(c, r.store, at)), rows := r.rows + mid.hours)
  }

  /** One cycle of the collector, with a pass that commits or without one; or a restart. */
  datatype Event = Cycle(at: int, samples: seq<Sample>, passes: bool) | Restart

  ghost predicate Step(c: Config, r: Run, e: Event, r': Run) {
    match e
    case Restart => r' == r.(last := None)
    case Cycle(at, samples, passes) =>
      exists mid :: Collected(r, at, samples, mid)
        && (if passes then PassDue(mid, at) && CloseEnough(c, mid, at) && Passed(c, mid, at, r') else r' == mid)
  }

  /** Passes are close enough: at most the retention minus one hour after the one before, and
      the first within the retention of the oldest sample. */
  predicate CloseEnough(c: Config, r: Run, at: int) {
    match r.pass
    case Some(p) => at - p <= c.retention - HOUR
    case None => forall s :: s in r.ever ==> s.ts >= at - c.retention
  }

  /** No sample is lost: what is no longer stored was counted, and so was every sample of an hour
      that was complete at the latest pass. */
  ghost predicate Inv(r: Run, now: int) {
    && (forall s :: s in r.store.minutes ==> s in r.ever)
    && (forall s :: s in r.ever ==> s.ts <= now)
    && (forall s :: s in r.ever && s !in r.counted ==> s in r.store.minutes)
    && match r.pass
       case None => r.store.hours == [] && r.counted == {}
       case Some(p) =>
         && p <= now
         && (forall s :: s in r.counted ==> s.ts < HourOf(p))
         && (forall s :: s in r.ever && s.ts < HourOf(p) ==> s in r.counted)
         && (forall h :: h in r.store.hours ==> h.group.start < HourOf(p))
  }

  lemma CollectKeeps(r: Run, now: int, at: int, samples: seq<Sample>, r': Run)
    requires Inv(r, now) && now <= at && Collected(r, at, samples, r')
    ensures Inv(r', at)
  {
    if r.pass.Some? {
      assert HourOf(r.pass.value) <= r.pass.value;
      forall s | s in r'.ever && s.ts < HourOf(r.pass.value) ensures s in r'.counted {
        assert s.ts != at;
      }
    }
  }

  /** Everything eligible is counted: an uncounted sample is still stored, not below the floor,
      and its hour has no row yet. */
  lemma PassCounts(c: Config, r: Run, at: int, s: Sample)
    requires Inv(r, at) && CloseEnough(c, r, at) && s in r.ever && s !in r.counted
    ensures s.ts >= at - c.retention
    ensures s.ts < HourOf(at) ==> s in ToRoll(c, r.store, at)
  {
    var floor := at - c.retention;
    FreshOnesAre(r.store.minutes, floor, HourOf(at), Done(r.store.hours, floor));
    if r.pass.Some? {
      var p := r.pass.value;
      assert p - HOUR < HourOf(p) <= s.ts;
      assert HourOf(p) / HOUR * HOUR == HourOf(p);
      assert HourOf(p) <= HourOf(s.ts);
    }
  }

  lemma PassSamples(c: Config, r: Run, at: int, s: Sample)
    requires Inv(r, at) && CloseEnough(c, r, at) && s in r.ever
    ensures var counted := r.counted + AsSet(ToRoll(c, r.store, at));
            && (s !in counted ==> s in KeepMinutes(r.store.minutes, at - c.retention))
            && (s.ts < HourOf(at) ==> s in counted)
  {
    KeepMinutesAre(r.store.minutes, at - c.retention);
    if s !in r.counted { PassCounts(c, r, at, s); }
  }

  lemma PassHours(c: Config, r: Run, at: int, mid: Store, h: HourRow)
    requires Inv(r, at) && RolledUp(c, r.store, at, mid) && h in mid.hours
    ensures h.group.start < HourOf(at)
  {
    var n := |r.store.hours|;
    assert mid.hours == r.store.hours + mid.hours[n..];
    if h in r.store.hours {
      assert r.pass.value <= at && HourOf(r.pass.value) <= HourOf(at);
    } else {
      assert h in mid.hours[n..];
      var due := ToRoll(c, r.store, at);
      FreshOnesAre(r.store.minutes, at - c.retention, HourOf(at), Done(r.store.hours, at - c.retention));
      var s :| s in due && GroupOf(s) == h.group;
      assert HourOf(s.ts) <= s.ts;
    }
  }

  lemma CountedBefore(c: Config, r: Run, at: int, s: Sample)
    requires Inv(r, at) && s in r.counted + AsSet(ToRoll(c, r.store, at))
    ensures s.ts < HourOf(at)
  {
    if s in r.counted {
      assert HourOf(r.pass.value) <= HourOf(at);
    } else {
      FreshOnesAre(r.store.minutes, at - c.retention, HourOf(at), Done(r.store.hours, at - c.retention));
    }
  }

  lemma PassRecords(c: Config, r: Run, at: int, mid: Store, s: Sample)
    requires RolledUp(c, r.store, at, mid) && (s in r.counted ==> Recorded(r, s))
    requires s in r.counted + AsSet(ToRoll(c, r.store, at))
    ensures HasCover(r.rows + mid.hours, s)
  {
    if s in r.counted {
      var row :| row in r.rows && Covers(row.group, s);
      assert row in r.rows + mid.hours;
    } else {
      var added := mid.hours[|r.store.hours|..];
      AddedRowsCover(c, ToRoll(c, r.store, at), added);
      assert HasCover(added, s);
      var row :| row in added && Covers(row.group, s);
      assert row in mid.hours && row in r.rows + mid.hours;
    }
  }

  lemma PassRecordsAll(c: Config, r: Run, at: int, r': Run)
    requires AllRecorded(r) && Passed(c, r, at, r')
    ensures AllRecorded(r')
  {
    var mid := PassedIs(c, r, at, r');
    forall s | s in r'.counted ensures Recorded(r', s) { PassRecords(c, r, at, mid, s); }
  }

  lemma PassedSamples(c: Config, r: Run, at: int, r': Run)
    requires Inv(r, at) && CloseEnough(c, r, at) && Passed(c, r, at, r')
    ensures r'.ever == r.ever && forall s :: s in r'.store.minutes ==> s in r.store.minutes
    ensures forall s :: s in r'.ever ==>
              (s !in r'.counted ==> s in r'.store.minutes) && (s.ts < HourOf(at) ==> s in r'.counted)
    ensures forall s :: s in r'.counted ==> s.ts < HourOf(at)
  {
    var mid := PassedIs(c, r, at, r');
    KeepMinutesAre(r.store.minutes, at - c.retention);
    forall s | s in r'.ever
      ensures (s !in r'.counted ==> s in r'.store.minutes) && (s.ts < HourOf(at) ==> s in r'.counted)
    {
      PassSamples(c, r, at, s);
    }
    forall s | s in r'.counted ensures s.ts < HourOf(at) { CountedBefore(c, r, at, s); }
  }

  lemma PassedHours(c: Config, r: Run, at: int, r': Run)
    requires Inv(r, at) && Passed(c, r, at, r')
    ensures forall h :: h in r'.store.hours ==> h.group.start < HourOf(at)
  {
    var mid := PassedIs(c, r, at, r');
    KeepHoursAre(mid.hours, at - c.rollupRetention);
    forall h | h in r'.store.hours ensures h.group.start < HourOf(at) { PassHours(c, r, at, mid, h); }
  }

  lemma PassKeeps(c: Config, r: Run, at: int, r': Run)
    requires Inv(r, at) && CloseEnough(c, r, at) && Passed(c, r, at, r')
    ensures Inv(r', at)
  {
    PassedSamples(c, r, at, r');
    PassedHours(c, r, at, r');
    PassStamps(c, r, at, r');
  }

  predicate TimesFrom(now: int, e: Event) { e.Cycle? ==> now <= e.at }

  function After(now: int, e: Event): int { if e.Cycle? then e.at else now }

  /** A run whose clock never goes back and whose passes are close enough. A cycle whose rollup
      fails, or is not yet due, is one without a pass. */
  ghost predicate Reaches(c: Config, r: Run, now: int, es: seq<Event>, r': Run)
    decreases |es|
  {
    if es == [] then r' == r
    else TimesFrom(now, es[0]) && exists mid ::
      Step(c, r, es[0], mid) && Reaches(c, mid, After(now, es[0]), es[1..], r')
  }

  lemma StepKeeps(c: Config, r: Run, now: int, e: Event, r': Run)
    requires Inv(r, now) && TimesFrom(now, e) && Step(c, r, e, r')
    ensures Inv(r', After(now, e))
  {
    if e.Cycle? {
      var mid :| Collected(r, e.at, e.samples, mid)
        && (if e.passes then PassDue(mid, e.at) && CloseEnough(c, mid, e.at) && Passed(c, mid, e.at, r')
            else r' == mid);
      CollectKeeps(r, now, e.at, e.samples, mid);
      if e.passes { PassKeeps(c, mid, e.at, r'); }
    }
  }

  lemma StepRecords(c: Config, r: Run, e: Event, r': Run)
    requires AllRecorded(r) && Step(c, r, e, r')
    ensures AllRecorded(r')
  {
    if e.Cycle? {
      var mid :| Collected(r, e.at, e.samples, mid)
        && (if e.passes then PassDue(mid, e.at) && CloseEnough(c, mid, e.at) && Passed(c, mid, e.at, r')
            else r' == mid);
      if e.passes { PassRecordsAll(c, mid, e.at, r'); }
    }
  }

  /** Over every such run, a sample that prune has deleted was counted before, in a 1h row of its own
      entity and hour, and so was every sample of an hour complete at the latest pass. */
  lemma {:induction false} EverySampleIsCounted(c: Config, r: Run, now: int, es: seq<Event>, r': Run)
    requires Inv(r, now) && AllRecorded(r) && Reaches(c, r, now, es, r')
    ensures forall s :: s in r'.ever && s !in r'.store.minutes ==> s in r'.counted && Recorded(r', s)
    ensures r'.pass.Some? ==>
              forall s :: s in r'.ever && s.ts < HourOf(r'.pass.value) ==> s in r'.counted && Recorded(r', s)
    decreases |es|
  {
    if es != [] {
      var mid :| Step(c, r, es[0], mid) && Reaches(c, mid, After(now, es[0]), es[1..], r');
      StepKeeps(c, r, now, es[0], mid);
      StepRecords(c, r, es[0], mid);
      EverySampleIsCounted(c, mid, After(now, es[0]), es[1..], r');
    }
  }

  lemma StartInv(now: int)
    ensures Inv(START, now) && AllRecorded(START)
  {
  }

  /** In particular from an empty database on. */
  lemma EverySampleIsCountedFromStart(c: Config, now: int, es: seq<Event>, r: Run)
    requires Reaches(c, START, now, es, r)
    ensures forall s :: s in r.ever && s !in r.store.minutes ==> s in r.counted && Recorded(r, s)
    ensures r.pass.Some? ==>
              forall s :: s in r.ever && s.ts < HourOf(r.pass.value) ==> s in r.counted && Recorded(r, s)
  {
    StartInv(now);
    EverySampleIsCounted(c, START, now, es, r);
  }

  /** Without that spacing: a pass deletes an uncounted sample exactly when one has fallen below
      the retention floor. */
  lemma PassLosesIff(c: Config, r: Run, at: int, r': Run)
    requires Passed(c, r, at, r')
    ensures (exists s :: s in r.store.minutes && s !in r'.store.minutes && s !in r'.counted)
            <==> exists s :: s in r.store.minutes && s !in r.counted && s.ts < at - c.retention
  {
    PassMinutes(c, r, at, r');
    FreshOnesAre(r.store.minutes, at - c.retention, HourOf(at), Done(r.store.hours, at - c.retention));
  }

  lemma PassedIs(c: Config, r: Run, at: int, r': Run) returns (mid: Store)
    requires Passed(c, r, at, r')
    ensures RolledUp(c, r.store, at, mid)
    ensures r' == r.(store := Pruned(c, mid, at), last := Some(at), pass := Some(at),
                     counted := r.counted + AsSet(ToRoll(c, r.store, at)), rows := r.rows + mid.hours)
    ensures r'.store.minutes == KeepMinutes(r.store.minutes, at - c.retention)
  {
    mid :| RolledUp(c, r.store, at, mid)
      && r' == r.(store := Pruned(c, mid, at), last := Some(at), pass := Some(at),
                  counted := r.counted + AsSet(ToRoll(c, r.store, at)), rows := r.rows + mid.hours);
  }

  lemma PassMinutes(c: Config, r: Run, at: int, r': Run)
    requires Passed(c, r, at, r')
    ensures r'.counted == r.counted + AsSet(ToRoll(c, r.store, at))
    ensures forall s :: s in r'.store.minutes <==> s in r.store.minutes && s.ts >= at - c.retention
  {
    var mid := PassedIs(c, r, at, r');
    KeepMinutesAre(r.store.minutes, at - c.retention);
  }

  /** In terms of what is stored and when the passes were: however late it comes, a pass loses a
      sample exactly when a stored one is below the retention floor and its hour was not complete at
      the pass before. */
  lemma LatePassLosesIff(c: Config, r: Run, at: int, r': Run)
    requires Inv(r, at) && Passed(c, r, at, r')
    ensures (exists s :: s in r.store.minutes && s !in r'.store.minutes && s !in r'.counted)
            <==> exists s ::
              s in r.store.minutes && s.ts < at - c.retention && (r.pass.Some? ==> HourOf(r.pass.value) <= s.ts)
  {
    PassLosesIff(c, r, at, r');
    forall s | s in r.store.minutes ensures s !in r.counted <==> (r.pass.Some? ==> HourOf(r.pass.value) <= s.ts) {
      assert s in r.ever;
    }
  }

  // ------------------------------------------------- runs that go wrong

  /** One row for each of these groups. */
  ghost predicate RowsFor(c: Config, due: seq<Sample>, gs: set<Group>, rows: seq<HourRow>) {
    && (forall i, j :: 0 <= i < j < |rows| ==> rows[i].group != rows[j].group)
    && (forall r :: r in rows ==> r.group in gs && r == Summary(c, r.group, InGroup(due, r.group)))
    && (forall g :: g in gs ==> HasRow(rows, g))
  }

  lemma RowsExist(c: Config, due: seq<Sample>, gs: set<Group>) returns (rows: seq<HourRow>)
    ensures RowsFor(c, due, gs, rows)
  {
    if gs == {} {
      rows := [];
    } else {
      var g :| g in gs;
      var others := RowsExist(c, due, gs - {g});
      rows := others + [Summary(c, g, InGroup(due, g))];
      HasRowAppend(others, Summary(c, g, InGroup(due, g)));
    }
  }

  /** A pass can always be made. */
  lemma PassExists(c: Config, r: Run, at: int) returns (r': Run)
    ensures Passed(c, r, at, r')
  {
    var due := ToRoll(c, r.store, at);
    var rows := RowsExist(c, due, Groups(due));
    var mid := Store(r.store.minutes, r.store.hours + rows);
    assert mid.hours[|r.store.hours|..] == rows;
    r' := r.(store := Pruned(c, mid, at), last := Some(at), pass := Some(at), counted := r.counted + AsSet(due),
               rows := r.rows + mid.hours);
  }

  lemma NothingCollected(r: Run, at: int)
    ensures Collected(r, at, [], r)
  {
    assert r.store.minutes + [] == r.store.minutes && r.ever + AsSet([]) == r.ever;
  }

  /** A step with the pass due, however late. */
  ghost predicate AnyStep(c: Config, r: Run, e: Event, r': Run) {
    match e
    case Restart => r' == r.(last := None)
    case Cycle(at, samples, passes) =>
      exists mid :: Collected(r, at, samples, mid)
        && (if passes then PassDue(mid, at) && Passed(c, mid, at, r') else r' == mid)
  }

  ghost predicate Runs(c: Config, r: Run, now: int, es: seq<Event>, r': Run)
    decreases |es|
  {
    if es == [] then r' == r
    else TimesFrom(now, es[0]) && exists mid ::
      AnyStep(c, r, es[0], mid) && Runs(c, mid, After(now, es[0]), es[1..], r')
  }

  lemma RunThen(c: Config, r: Run, now: int, e: Event, mid: Run, es: seq<Event>, r': Run)
    requires TimesFrom(now, e) && AnyStep(c, r, e, mid) && Runs(c, mid, After(now, e), es, r')
    ensures Runs(c, r, now, [e] + es, r')
  {
    assert ([e] + es)[1..] == es;
  }

  lemma ReachThen(c: Config, r: Run, now: int, e: Event, mid: Run, es: seq<Event>, r': Run)
    requires TimesFrom(now, e) && Step(c, r, e, mid) && Reaches(c, mid, After(now, e), es, r')
    ensures Reaches(c, r, now, [e] + es, r')
  {
    assert ([e] + es)[1..] == es;
  }

  const LATE := Sample(60_000_000, "server", 1, map[])

  /** A pass at 0, a sample a minute later, and the next pass an hour more than the retention after
      the first: the sample is gone, and no 1h row ever counted it. */
  lemma LateSampleLost(c: Config, r1: Run, r2: Run, r3: Run)
    requires Passed(c, START, 0, r1)
    requires Collected(r1, LATE.ts, [LATE], r2)
    requires Passed(c, r2, c.retention + HOUR, r3)
    ensures LATE in r3.ever && LATE !in r3.store.minutes && LATE !in r3.counted
    ensures !HasRow(r3.store.hours, GroupOf(LATE))
  {
    NothingToRoll(c, START, 0, r1);
    PassMinutes(c, START, 0, r1);
    assert r2.store.minutes == [LATE];
    NoneFresh([LATE], HOUR, HourOf(c.retention + HOUR), Done(r2.store.hours, HOUR));
    NothingToRoll(c, r2, c.retention + HOUR, r3);
    PassMinutes(c, r2, c.retention + HOUR, r3);
  }

  lemma AnyPassAlone(c: Config, r: Run, at: int, r': Run)
    requires PassDue(r, at) && Passed(c, r, at, r')
    ensures AnyStep(c, r, Cycle(at, [], true), r')
  {
    NothingCollected(r, at);
  }

  /** A pass, a sample, and another pass. */
  lemma LossRun(c: Config, r1: Run, r2: Run, r3: Run, end: int) returns (es: seq<Event>)
    requires Passed(c, START, 0, r1) && Collected(r1, LATE.ts, [LATE], r2) && PassDue(r2, end) && LATE.ts <= end
    requires Passed(c, r2, end, r3)
    ensures es == [Cycle(0, [], true)] + ([Cycle(LATE.ts, [LATE], false)] + ([Cycle(end, [], true)] + []))
    ensures Runs(c, START, 0, es, r3)
  {
    AnyPassAlone(c, START, 0, r1);
    AnyPassAlone(c, r2, end, r3);
    RunThen(c, r2, LATE.ts, Cycle(end, [], true), r3, [], r3);
    RunThen(c, r1, 0, Cycle(LATE.ts, [LATE], false), r2, [Cycle(end, [], true)] + [], r3);
    es := [Cycle(0, [], true)] + ([Cycle(LATE.ts, [LATE], false)] + ([Cycle(end, [], true)] + []));
    RunThen(c, START, 0, Cycle(0, [], true), r1, [Cycle(LATE.ts, [LATE], false)] + ([Cycle(end, [], true)] + []), r3);
  }

  /** That run from the empty database, for every retention. */
  lemma LossHappens(c: Config) returns (es: seq<Event>, r: Run)
    requires c.retention >= 0
    ensures es == [Cycle(0, [], true)]
              + ([Cycle(LATE.ts, [LATE], false)] + ([Cycle(c.retention + HOUR, [], true)] + []))
    ensures Runs(c, START, 0, es, r)
    ensures LATE in r.ever && LATE !in r.store.minutes && LATE !in r.counted && !HasRow(r.store.hours, GroupOf(LATE))
  {
    var end := c.retention + HOUR;
    var r1 := PassExists(c, START, 0);
    PassStamps(c, START, 0, r1);
    var r2 := r1.(store := Store(r1.store.minutes + [LATE], r1.store.hours), ever := r1.ever + AsSet([LATE]));
    r := PassExists(c, r2, end);
    LateSampleLost(c, r1, r2, r);
    es := LossRun(c, r1, r2, r, end);
  }

  lemma {:induction false} NoneFresh(minutes: seq<Sample>, floor: int, hour: int, done: set<Group>)
    requires forall s :: s in minutes ==> s.ts < floor
    ensures FreshOnes(minutes, floor, hour, done) == []
  {
    if minutes != [] {
      assert minutes[0] in minutes;
      NoneFresh(minutes[1..], floor, hour, done);
    }
  }

  /** A pass with nothing due adds no row. */
  lemma NothingToRoll(c: Config, r: Run, at: int, r': Run)
    requires Passed(c, r, at, r') && ToRoll(c, r.store, at) == []
    ensures r'.counted == r.counted && r'.ever == r.ever
    ensures forall h :: h in r'.store.hours ==> h in r.store.hours
  {
    var mid := PassedIs(c, r, at, r');
    var added := mid.hours[|r.store.hours|..];
    assert mid.hours == r.store.hours + added;
    assert forall h :: h in added ==> h.group in Groups([]);
    KeepHoursAre(mid.hours, at - c.rollupRetention);
  }

  // ------------------------------------------------- a second row does happen

  const WEEK := 7 * 24 * HOUR

  /** With a seven-day retention: a sample at minute 59 of hour 0 with a pass, another pass at hour 2,
      and one seven days later with the floor at minute 30. The passes are close enough, no sample is
      lost, and yet there are two 1h rows for the same hour. */
  lemma SecondRowHappens(c: Config) returns (es: seq<Event>, r: Run)
    requires c.retention == WEEK && c.rollupRetention >= WEEK + HOUR
    ensures es == [Cycle(OLD.ts, [OLD], true)]
              + ([Cycle(2 * HOUR, [], true)] + ([Cycle(WEEK + HOUR / 2, [], true)] + []))
    ensures Reaches(c, START, 0, es, r)
    ensures exists i, j :: 0 <= i < j < |r.store.hours|
              && r.store.hours[i].group == r.store.hours[j].group == GroupOf(OLD)
  {
    var r1 := OldSample(c);
    var r2 := PassExists(c, r1, 2 * HOUR);
    var mid := PassedIs(c, r1, 2 * HOUR, r2);
    FirstRow(c, mid);
    OnlyOld(c, r1.store, 2 * HOUR, mid);
    assert r2.store == Pruned(c, mid, 2 * HOUR);
    KeepHoursAre(mid.hours, 2 * HOUR - c.rollupRetention);
    r := PassExists(c, r2, WEEK + HOUR / 2);
    var end := PassedIs(c, r2, WEEK + HOUR / 2, r);
    SecondRow(c, r2.store, end);
    TwoRows(r2.store.hours, end.hours, GroupOf(OLD));
    OnlyOld(c, r2.store, WEEK + HOUR / 2, end);
    KeepAllHours(end.hours, WEEK + HOUR / 2 - c.rollupRetention);
    es := OldRun(c, r1, r2, r);
  }

  lemma SomeElement<T>(xs: seq<T>)
    ensures xs == [] || exists x :: x in xs
  {
    if xs != [] { assert xs[0] in xs; }
  }

  lemma OldNotDue(c: Config)
    ensures ToRoll(c, Store([OLD], []), OLD.ts) == []
  {
    FreshOnesAre([OLD], OLD.ts - c.retention, HourOf(OLD.ts), Done([], OLD.ts - c.retention));
    SomeElement(ToRoll(c, Store([OLD], []), OLD.ts));
  }

  lemma OldStays(c: Config, r0: Run, r1: Run)
    requires c.retention == WEEK && r0.store == Store([OLD], []) && Passed(c, r0, OLD.ts, r1)
    ensures r1.store == Store([OLD], []) && r1.last == r1.pass == Some(OLD.ts)
  {
    OldNotDue(c);
    NothingToRoll(c, r0, OLD.ts, r1);
    SomeElement(r1.store.hours);
    var mid := PassedIs(c, r0, OLD.ts, r1);
    assert KeepMinutes([OLD], OLD.ts - WEEK) == [OLD];
  }

  lemma OldSample(c: Config) returns (r1: Run)
    requires c.retention == WEEK
    ensures Step(c, START, Cycle(OLD.ts, [OLD], true), r1)
    ensures r1.store == Store([OLD], []) && r1.last == r1.pass == Some(OLD.ts)
  {
    var r0 := START.(store := Store([] + [OLD], []), ever := {} + AsSet([OLD]));
    assert Collected(START, OLD.ts, [OLD], r0) && [] + [OLD] == [OLD];
    r1 := PassExists(c, r0, OLD.ts);
    OldStays(c, r0, r1);
  }

  lemma PassAlone(c: Config, r: Run, at: int, r': Run)
    requires PassDue(r, at) && CloseEnough(c, r, at) && Passed(c, r, at, r')
    ensures Step(c, r, Cycle(at, [], true), r')
  {
    NothingCollected(r, at);
  }

  lemma PassStamps(c: Config, r: Run, at: int, r': Run)
    requires Passed(c, r, at, r')
    ensures r'.last == r'.pass == Some(at)
  {
  }

  lemma OldRun(c: Config, r1: Run, r2: Run, r3: Run) returns (es: seq<Event>)
    requires c.retention == WEEK && Step(c, START, Cycle(OLD.ts, [OLD], true), r1)
    requires r1.last == r1.pass == Some(OLD.ts) && Passed(c, r1, 2 * HOUR, r2) && Passed(c, r2, WEEK + HOUR / 2, r3)
    ensures es == [Cycle(OLD.ts, [OLD], true)]
              + ([Cycle(2 * HOUR, [], true)] + ([Cycle(WEEK + HOUR / 2, [], true)] + []))
    ensures Reaches(c, START, 0, es, r3)
  {
    var second, third := Cycle(2 * HOUR, [], true), Cycle(WEEK + HOUR / 2, [], true);
    PassStamps(c, r1, 2 * HOUR, r2);
    PassAlone(c, r1, 2 * HOUR, r2);
    PassAlone(c, r2, WEEK + HOUR / 2, r3);
    ReachThen(c, r2, 2 * HOUR, third, r3, [], r3);
    ReachThen(c, r1, OLD.ts, second, r2, [third] + [], r3);
    es := [Cycle(OLD.ts, [OLD], true)] + ([second] + ([third] + []));
    ReachThen(c, START, 0, Cycle(OLD.ts, [OLD], true), r1, [second] + ([third] + []), r3);
  }

  /** With no other sample stored, no other row is added. */
  lemma OnlyOld(c: Config, st: Store, at: int, mid: Store)
    requires RolledUp(c, st, at, mid) && (forall s :: s in st.minutes ==> s == OLD)
    requires forall h :: h in st.hours ==> h.group == GroupOf(OLD)
    ensures forall h :: h in mid.hours ==> h.group == GroupOf(OLD)
  {
    FreshOnesAre(st.minutes, at - c.retention, HourOf(at), Done(st.hours, at - c.retention));
    var added := mid.hours[|st.hours|..];
    assert mid.hours == st.hours + added;
    assert forall h :: h in added ==> h.group in Groups(ToRoll(c, st, at));
  }

  lemma {:induction false} KeepAllHours(hours: seq<HourRow>, from: int)
    requires forall h :: h in hours ==> h.group.start >= from
    ensures KeepHours(hours, from) == hours
  {
    if hours != [] {
      assert hours[0] in hours;
      KeepAllHours(hours[1..], from);
    }
  }

  lemma SecondRow(c: Config, between: Store, end: Store)
    requires c.retention == 7 * 24 * HOUR && OLD in between.minutes && HasRow(between.hours, GroupOf(OLD))
    requires RolledUp(c, between, 7 * 24 * HOUR + HOUR / 2, end)
    ensures HasRow(end.hours[|between.hours|..], GroupOf(OLD))
  {
    var at := 7 * 24 * HOUR + HOUR / 2;
    assert GroupOf(OLD).start == 0 && at - c.retention == 1_800_000_000;
    assert HourOf(at) == 7 * 24 * HOUR;
    assert OLD in between.minutes && at - c.retention <= OLD.ts < HourOf(at);
    SecondRowIff(c, between, 7 * 24 * HOUR + HOUR / 2, end, GroupOf(OLD));
  }

  lemma TwoRows(before: seq<HourRow>, after: seq<HourRow>, g: Group)
    requires before <= after && HasRow(before, g) && HasRow(after[|before|..], g)
    ensures exists i, j :: 0 <= i < j < |after| && after[i].group == after[j].group == g
  {
    var n := |before|;
    RowIndex(before, g);
    RowIndex(after[n..], g);
    var i :| 0 <= i < n && before[i].group == g;
    var j :| 0 <= j < |after[n..]| && after[n..][j].group == g;
    assert after[i] == before[i] && after[n + j] == after[n..][j];
  }

  lemma RowIndex(hours: seq<HourRow>, g: Group)
    requires HasRow(hours, g)
    ensures exists i :: 0 <= i < |hours| && hours[i].group == g
  {
    var r :| r in hours && r.group == g;
    var i :| 0 <= i < |hours| && hours[i] == r;
  }

  lemma FirstRow(c: Config, mid: Store)
    requires c.retention == 7 * 24 * HOUR && c.rollupRetention > c.retention
    requires RolledUp(c, Store([OLD], []), 2 * HOUR, mid)
    ensures HasRow(Pruned(c, mid, 2 * HOUR).hours, GroupOf(OLD)) && OLD in Pruned(c, mid, 2 * HOUR).minutes
  {
    var due := ToRoll(c, Store([OLD], []), 2 * HOUR);
    FreshOnesAre([OLD], 2 * HOUR - c.retention, HourOf(2 * HOUR), Done([], 2 * HOUR - c.retention));
    assert OLD in [OLD] && OLD in due;
    assert GroupOf(OLD) in Groups(due);
    assert mid.hours[0..] == mid.hours;
    var first :| first in mid.hours && first.group == GroupOf(OLD);
    KeepMinutesAre(mid.minutes, 2 * HOUR - c.retention);
    KeepHoursAre(mid.hours, 2 * HOUR - c.rollupRetention);
    assert first in Pruned(c, mid, 2 * HOUR).hours;
  }

  const OLD := Sample(59 * 60_000_000, "server", 1, map[])
}
