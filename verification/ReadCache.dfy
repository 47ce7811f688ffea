/** The TTL cache that collapses concurrent loads (backend/app/routers/ha_compat.py ReadCache):
    gets interleave at their await points, which are waiting for a key's lock and loading. */
module ReadCache {
  import opened Options

  type Value = nat

  /** epoch: how many clears had happened when the load began. overlapped: one happened during it. */
  datatype Entry = Entry(at: real, value: Value, epoch: nat, overlapped: bool)

  /** Returned remembers the entry a get answered with; stale: cleared since that load began. */
  datatype Pc =
    | Waiting
    | Loading(epoch: nat, overlapped: bool)
    | Returned(entry: Entry, hit: bool, at: real, stale: bool)
    | Raised

  datatype Get = Get(key: string, pc: Pc)

  /** held: the key locks now taken. loads: the keys whose loader was started, in order. */
  datatype State = State(now: real, entries: map<string, Entry>, held: map<string, nat>, gets: map<nat, Get>,
                         clears: nat, loads: seq<string>)

  const START := State(0.0, map[], map[], map[], 0, [])

  datatype Action =
    | Tick(dt: real)
    | Ask(t: nat, key: string)
    | Resume(t: nat)
    | Loaded(t: nat, value: Value)
    | Abandon(t: nat)
    | Clear

  /** ttl 0 switches the cache off. */
  predicate FreshIn(entries: map<string, Entry>, key: string, now: real, ttl: real) {
    key in entries && now - entries[key].at < ttl
  }

  predicate Hit(s: State, key: string, ttl: real) { ttl > 0.0 && FreshIn(s.entries, key, s.now, ttl) }

  function Answered(s: State, t: nat, key: string): State
    requires key in s.entries
  {
    s.(gets := s.gets[t := Get(key, Returned(s.entries[key], true, s.now, s.entries[key].epoch < s.clears))])
  }

  /** From taking the lock to the next await: look again, then return or start the loader. */
  function UnderLock(s: State, t: nat, key: string, ttl: real): State {
    if Hit(s, key, ttl) then Answered(s, t, key)
    else s.(held := s.held[key := t], loads := s.loads + [key], gets := s.gets[t := Get(key, Loading(s.clears, false))])
  }

  predicate Queued(s: State, key: string) {
    exists t :: t in s.gets && s.gets[t] == Get(key, Waiting)
  }

  predicate Enabled(s: State, a: Action) {
    match a
    case Tick(dt) => dt >= 0.0
    case Ask(t, _) => t !in s.gets
    case Resume(t) => t in s.gets && s.gets[t].pc.Waiting? && s.gets[t].key !in s.held
    case Loaded(t, _) => t in s.gets && s.gets[t].pc.Loading? && s.gets[t].key in s.held
    case Abandon(t) => t in s.gets && (s.gets[t].pc.Waiting? || (s.gets[t].pc.Loading? && s.gets[t].key in s.held))
    case Clear => true
  }

  function Overlap(g: Get): Get {
    if g.pc.Loading? then g.(pc := g.pc.(overlapped := true)) else g
  }

  function Step(s: State, a: Action, ttl: real): State
    requires Enabled(s, a)
  {
    match a
    case Tick(dt) => s.(now := s.now + dt)
    case Ask(t, key) =>
      if Hit(s, key, ttl) then Answered(s, t, key)
      else if key in s.held || Queued(s, key) then s.(gets := s.gets[t := Get(key, Waiting)])
      else UnderLock(s, t, key, ttl)
    case Resume(t) => UnderLock(s, t, s.gets[t].key, ttl)
    case Loaded(t, value) =>
      var g := s.gets[t];
      var e := Entry(s.now, value, g.pc.epoch, g.pc.overlapped);
      s.(entries := s.entries[g.key := e], held := s.held - {g.key},
         gets := s.gets[t := Get(g.key, Returned(e, false, s.now, e.epoch < s.clears))])
    case Abandon(t) =>
      var g := s.gets[t];
      s.(held := if g.pc.Loading? then s.held - {g.key} else s.held, gets := s.gets[t := Get(g.key, Raised)])
    case Clear => s.(entries := map[], clears := s.clears + 1, gets := map t | t in s.gets :: Overlap(s.gets[t]))
  }

  // ------------------------------------------------- invariants

  /** A key's lock is held exactly while one get loads it. */
  predicate LocksRight(s: State) {
    && (forall t :: t in s.gets && s.gets[t].pc.Loading? ==> s.gets[t].key in s.held && s.held[s.gets[t].key] == t)
    && forall key :: key in s.held ==>
         s.held[key] in s.gets && s.gets[s.held[key]].key == key && s.gets[s.held[key]].pc.Loading?
  }

  predicate EpochRight(epoch: nat, overlapped: bool, clears: nat) {
    epoch <= clears && (epoch < clears <==> overlapped)
  }

  predicate EntriesRight(s: State) {
    forall key :: key in s.entries ==>
      s.entries[key].at <= s.now && EpochRight(s.entries[key].epoch, s.entries[key].overlapped, s.clears)
  }

  predicate PcRight(pc: Pc, clears: nat, ttl: real) {
    match pc
    case Loading(epoch, overlapped) => EpochRight(epoch, overlapped, clears)
    case Returned(e, hit, at, stale) => e.at <= at && (hit ==> at - e.at < ttl) && (stale <==> e.overlapped)
    case _ => true
  }

  predicate GetsRight(s: State, ttl: real) { forall t :: t in s.gets ==> PcRight(s.gets[t].pc, s.clears, ttl) }

  predicate Inv(s: State, ttl: real) { LocksRight(s) && EntriesRight(s) && GetsRight(s, ttl) }

  lemma UnderLockKeepsLocks(s: State, t: nat, key: string, ttl: real)
    requires LocksRight(s) && key !in s.held && (t in s.gets ==> s.gets[t] == Get(key, Waiting))
    ensures LocksRight(UnderLock(s, t, key, ttl))
  {
  }

  lemma ReleaseKeepsLocks(s: State, a: Action, ttl: real)
    requires LocksRight(s) && Enabled(s, a) && (a.Loaded? || a.Abandon?)
    ensures LocksRight(Step(s, a, ttl))
  {
    var s' := Step(s, a, ttl);
    assert forall u :: u in s.gets && u != a.t ==> u in s'.gets && s'.gets[u] == s.gets[u];
  }

  lemma StepKeepsLocks(s: State, a: Action, ttl: real)
    requires LocksRight(s) && Enabled(s, a)
    ensures LocksRight(Step(s, a, ttl))
  {
    match a
    case Tick(_) =>
    case Clear =>
    case Resume(t) => UnderLockKeepsLocks(s, t, s.gets[t].key, ttl);
    case Ask(t, key) =>
      if !Hit(s, key, ttl) && key !in s.held && !Queued(s, key) { UnderLockKeepsLocks(s, t, key, ttl); }
    case _ => ReleaseKeepsLocks(s, a, ttl);
  }

  lemma StepKeepsEntries(s: State, a: Action, ttl: real)
    requires EntriesRight(s) && GetsRight(s, ttl) && Enabled(s, a)
    ensures EntriesRight(Step(s, a, ttl))
  {
  }

  lemma StepKeepsGets(s: State, a: Action, ttl: real)
    requires EntriesRight(s) && GetsRight(s, ttl) && Enabled(s, a)
    ensures GetsRight(Step(s, a, ttl), ttl)
  {
  }

  predicate RunsTo(s: State, actions: seq<Action>, ttl: real, s': State)
    decreases |actions|
  {
    if actions == [] then s' == s
    else Enabled(s, actions[0]) && RunsTo(Step(s, actions[0], ttl), actions[1..], ttl, s')
  }

  lemma {:induction false} RunKeeps(s: State, actions: seq<Action>, ttl: real, s': State)
    requires Inv(s, ttl) && RunsTo(s, actions, ttl, s')
    ensures Inv(s', ttl)
    decreases |actions|
  {
    if actions != [] {
      StepKeepsLocks(s, actions[0], ttl);
      StepKeepsEntries(s, actions[0], ttl);
      StepKeepsGets(s, actions[0], ttl);
      RunKeeps(Step(s, actions[0], ttl), actions[1..], ttl, s');
    }
  }

  /** Under every interleaving: at most one loader runs per key; a cached answer is younger than
      the TTL; and an answer is one a clear should have dropped exactly when a clear fell into its
      own load. */
  lemma SingleFlight(actions: seq<Action>, ttl: real, s: State)
    requires RunsTo(START, actions, ttl, s)
    ensures forall t, u | t in s.gets && u in s.gets && s.gets[t].pc.Loading? && s.gets[u].pc.Loading? ::
              s.gets[t].key == s.gets[u].key ==> t == u
    ensures forall t :: t in s.gets && s.gets[t].pc.Returned? && s.gets[t].pc.hit ==>
              0.0 <= s.gets[t].pc.at - s.gets[t].pc.entry.at < ttl
    ensures forall t :: t in s.gets && s.gets[t].pc.Returned? ==>
              (s.gets[t].pc.stale <==> s.gets[t].pc.entry.overlapped)
  {
    RunKeeps(START, actions, ttl, s);
  }

  // ------------------------------------------------- one load for many gets

  function LoadsOf(s: State, key: string): nat { multiset(s.loads)[key] }

  /** No clear, no failing load of key, and no wait past the life of its entry. */
  predicate Calm(s: State, a: Action, key: string, ttl: real) {
    match a
    case Clear => false
    case Abandon(t) => t in s.gets && s.gets[t].pc.Loading? ==> s.gets[t].key != key
    case Tick(dt) => key in s.entries ==> s.now + dt - s.entries[key].at < ttl
    case _ => true
  }

  predicate Untouched(s: State, key: string) {
    && key !in s.entries && key !in s.held && LoadsOf(s, key) == 0
    && forall t :: t in s.gets ==> s.gets[t].key != key
  }

  predicate InFlight(s: State, key: string) {
    && key !in s.entries && key in s.held && LoadsOf(s, key) == 1
    && forall t | t in s.gets && s.gets[t].key == key ::
         s.gets[t].pc.Waiting? || s.gets[t].pc.Raised? || (s.gets[t].pc.Loading? && s.held[key] == t)
  }

  predicate Cached(s: State, key: string, ttl: real) {
    && FreshIn(s.entries, key, s.now, ttl) && key !in s.held && LoadsOf(s, key) == 1
    && forall t | t in s.gets && s.gets[t].key == key ::
         s.gets[t].pc.Waiting? || s.gets[t].pc.Raised?
         || (s.gets[t].pc.Returned? && s.gets[t].pc.entry == s.entries[key])
  }

  predicate Phase(s: State, key: string, ttl: real) { Untouched(s, key) || InFlight(s, key) || Cached(s, key, ttl) }

  lemma UnderLockFirst(s: State, t: nat, k: string, key: string, ttl: real)
    requires ttl > 0.0 && Untouched(s, key) && k !in s.held && (t in s.gets ==> s.gets[t] == Get(k, Waiting))
    ensures Phase(UnderLock(s, t, k, ttl), key, ttl)
  {
    var s' := UnderLock(s, t, k, ttl);
    if k == key { assert InFlight(s', key); } else { assert Untouched(s', key); }
  }

  lemma UnderLockLater(s: State, t: nat, k: string, key: string, ttl: real)
    requires ttl > 0.0 && (InFlight(s, key) || Cached(s, key, ttl)) && k !in s.held
    requires t in s.gets ==> s.gets[t] == Get(k, Waiting)
    ensures Phase(UnderLock(s, t, k, ttl), key, ttl)
  {
    var s' := UnderLock(s, t, k, ttl);
    if InFlight(s, key) { assert InFlight(s', key); } else { assert Cached(s', key, ttl); }
  }

  lemma UnderLockKeepsPhase(s: State, t: nat, k: string, key: string, ttl: real)
    requires ttl > 0.0 && Phase(s, key, ttl) && k !in s.held
    requires t in s.gets ==> s.gets[t] == Get(k, Waiting)
    ensures Phase(UnderLock(s, t, k, ttl), key, ttl)
  {
    if Untouched(s, key) { UnderLockFirst(s, t, k, key, ttl); } else { UnderLockLater(s, t, k, key, ttl); }
  }

  lemma AskKeepsPhase(s: State, t: nat, k: string, key: string, ttl: real)
    requires ttl > 0.0 && Phase(s, key, ttl) && t !in s.gets
    ensures Phase(Step(s, Ask(t, k), ttl), key, ttl)
  {
    var s' := Step(s, Ask(t, k), ttl);
    if !Hit(s, k, ttl) && k !in s.held && !Queued(s, k) {
      UnderLockKeepsPhase(s, t, k, key, ttl);
    } else if Untouched(s, key) {
      assert Untouched(s', key);
    } else if InFlight(s, key) {
      assert InFlight(s', key);
    } else {
      assert Cached(s', key, ttl);
    }
  }

  lemma LoadedKeepsPhase(s: State, t: nat, value: Value, key: string, ttl: real)
    requires ttl > 0.0 && Phase(s, key, ttl) && LocksRight(s) && Enabled(s, Loaded(t, value))
    ensures Phase(Step(s, Loaded(t, value), ttl), key, ttl)
  {
    var s' := Step(s, Loaded(t, value), ttl);
    if s.gets[t].key == key {
      assert InFlight(s, key);
      assert Cached(s', key, ttl);
    } else if Untouched(s, key) {
      assert Untouched(s', key);
    } else if InFlight(s, key) {
      assert InFlight(s', key);
    } else {
      assert Cached(s', key, ttl);
    }
  }

  lemma AbandonKeepsPhase(s: State, t: nat, key: string, ttl: real)
    requires ttl > 0.0 && Phase(s, key, ttl) && LocksRight(s) && Enabled(s, Abandon(t)) && Calm(s, Abandon(t), key, ttl)
    ensures Phase(Step(s, Abandon(t), ttl), key, ttl)
  {
    var s' := Step(s, Abandon(t), ttl);
    if Untouched(s, key) {
      assert Untouched(s', key);
    } else if InFlight(s, key) {
      assert InFlight(s', key);
    } else {
      assert Cached(s', key, ttl);
    }
  }

  predicate CalmRun(s: State, actions: seq<Action>, key: string, ttl: real, s': State)
    decreases |actions|
  {
    if actions == [] then s' == s
    else
      && Enabled(s, actions[0]) && Calm(s, actions[0], key, ttl)
      && CalmRun(Step(s, actions[0], ttl), actions[1..], key, ttl, s')
  }

  lemma {:induction false} CalmRunKeeps(s: State, actions: seq<Action>, key: string, ttl: real, s': State)
    requires ttl > 0.0 && LocksRight(s) && Phase(s, key, ttl) && CalmRun(s, actions, key, ttl, s')
    ensures LocksRight(s') && Phase(s', key, ttl)
    decreases |actions|
  {
    if actions != [] {
      var a := actions[0];
      StepKeepsLocks(s, a, ttl);
      match a {
        case Ask(t, k) => AskKeepsPhase(s, t, k, key, ttl);
        case Resume(t) => UnderLockKeepsPhase(s, t, s.gets[t].key, key, ttl);
        case Loaded(t, value) => LoadedKeepsPhase(s, t, value, key, ttl);
        case Abandon(t) => AbandonKeepsPhase(s, t, key, ttl);
        case _ =>
      }
      CalmRunKeeps(Step(s, a, ttl), actions[1..], key, ttl, s');
    }
  }

  /** Any number of concurrent gets on a cold key start one load, and all that return, return what
      it loaded. */
  lemma OneLoadServesAll(actions: seq<Action>, key: string, ttl: real, s: State)
    requires ttl > 0.0 && CalmRun(START, actions, key, ttl, s)
    ensures LoadsOf(s, key) <= 1
    ensures forall t :: t in s.gets && s.gets[t].key == key && s.gets[t].pc.Returned? ==>
              key in s.entries && s.gets[t].pc.entry == s.entries[key]
  {
    CalmRunKeeps(START, actions, key, ttl, s);
  }

  /** A clear during a load does not stop the old value from being stored and served. */
  lemma ClearMissesLoadInFlight(ttl: real, v: Value)
    requires ttl > 0.0
    ensures exists s ::
              && RunsTo(START, [Ask(0, "stats"), Clear, Loaded(0, v), Ask(1, "stats")], ttl, s)
              && 1 in s.gets && s.gets[1].pc.Returned? && s.gets[1].pc.hit && s.gets[1].pc.stale
              && s.gets[1].pc.entry.value == v
  {
    var ask, loaded, again := Ask(0, "stats"), Loaded(0, v), Ask(1, "stats");
    var s1 := Step(START, ask, ttl);
    var s2 := Step(s1, Clear, ttl);
    assert s2.gets[0] == Get("stats", Loading(0, true));
    var s3 := Step(s2, loaded, ttl);
    var s4 := Step(s3, again, ttl);
    assert RunsTo(s4, [], ttl, s4);
    assert [again][1..] == [];
    assert RunsTo(s3, [again], ttl, s4);
    assert [loaded, again][1..] == [again];
    assert RunsTo(s2, [loaded, again], ttl, s4);
    assert [Clear, loaded, again][1..] == [loaded, again];
    assert RunsTo(s1, [Clear, loaded, again], ttl, s4);
    assert [ask, Clear, loaded, again][1..] == [Clear, loaded, again];
  }

  // ------------------------------------------------- the class

  /** What a get does up to its next await. */
  datatype Look = Return(value: Value) | Wait | Load

  class Cache {
    var entries: map<string, (real, Value)>
    var locked: set<string>

    ghost predicate Shows(s: State)
      reads this
    {
      && locked == s.held.Keys
      && entries.Keys == s.entries.Keys
      && forall key :: key in entries ==> entries[key] == (s.entries[key].at, s.entries[key].value)
    }

    method Fresh(key: string, now: real, ttl: real) returns (hit: bool, value: Value)
      ensures hit <==> key in entries && now - entries[key].0 < ttl
      ensures hit ==> value == entries[key].1
    {
      hit, value := false, 0;
      if key in entries && now - entries[key].0 < ttl { hit, value := true, entries[key].1; }
    }

    /** A get arriving. */
    method Arrive(key: string, queued: bool, now: real, ttl: real, ghost s: State, ghost t: nat) returns (look: Look)
      requires Shows(s) && now == s.now && t !in s.gets && (queued <==> Queued(s, key))
      modifies `locked
      ensures Shows(Step(s, Ask(t, key), ttl))
      ensures Matches(look, Step(s, Ask(t, key), ttl).gets[t].pc)
    {
      if ttl > 0.0 {
        var hit, value := Fresh(key, now, ttl);
        if hit { return Return(value); }
      }
      if key in locked || queued { return Wait; }
      look := Locked(key, now, ttl, s, t);
    }

    /** The lock is ours: the rest of get up to `await loader()`. */
    method Locked(key: string, now: real, ttl: real, ghost s: State, ghost t: nat) returns (look: Look)
      requires Shows(s) && now == s.now && key !in locked
      modifies `locked
      ensures Shows(UnderLock(s, t, key, ttl))
      ensures Matches(look, UnderLock(s, t, key, ttl).gets[t].pc)
    {
      if ttl > 0.0 {
        var hit, value := Fresh(key, now, ttl);
        if hit { return Return(value); }
      }
      locked := locked + {key};
      look := Load;
    }

    /** The loader returned: store and release. */
    method Store(key: string, now: real, value: Value, ghost s: State, ghost t: nat)
      requires Shows(s) && Enabled(s, Loaded(t, value)) && s.gets[t].key == key && now == s.now
      modifies `entries, `locked
      ensures Shows(Step(s, Loaded(t, value), 0.0))
    {
      entries := entries[key := (now, value)];
      locked := locked - {key};
    }

    method Clear(ghost s: State)
      requires Shows(s)
      modifies `entries
      ensures Shows(Step(s, Action.Clear, 0.0))
    {
      entries := map[];
    }
  }

  predicate Matches(look: Look, pc: Pc) {
    match look
    case Return(value) => pc.Returned? && pc.hit && pc.entry.value == value
    case Wait => pc.Waiting?
    case Load => pc.Loading?
  }
}
