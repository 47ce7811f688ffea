/** Mutual exclusion per server (sync.py lock_for, _reconcile_one, reconcile_all; updater.py
    update_server, run_updates): asyncio tasks that interleave at await points. */
module ServerLocks {
  datatype Pc = Queued | Admitted | Waiting | Critical | Done

  /** One server of one call; reconcile passes and upgrades differ only in what they do inside. */
  datatype Task = Task(call: nat, server: nat, pc: Pc)

  /** held: the locks now taken, by task. slots: free permits of each call's semaphore. */
  datatype State = State(tasks: map<nat, Task>, held: map<nat, nat>, slots: map<nat, nat>, limits: map<nat, nat>)

  const START := State(map[], map[], map[], map[])

  datatype Action =
    | Call(call: nat, limit: int, servers: map<nat, nat>)
    | Admit(t: nat)
    | Enter(t: nat)
    | Leave(t: nat)
    | Finish(t: nat)

  function WithPc(s: State, t: nat, pc: Pc): State
    requires t in s.tasks
  {
    s.(tasks := s.tasks[t := s.tasks[t].(pc := pc)])
  }

  /** asyncio.Lock.acquire: at once when free, else the caller is parked. */
  function Acquire(s: State, t: nat): State
    requires t in s.tasks
  {
    var server := s.tasks[t].server;
    if server in s.held then WithPc(s, t, Waiting)
    else WithPc(s.(held := s.held[server := t]), t, Critical)
  }

  predicate Enabled(s: State, a: Action) {
    match a
    case Call(call, _, servers) => call !in s.limits && servers.Keys !! s.tasks.Keys
    case Admit(t) => t in s.tasks && s.tasks[t].pc.Queued? && s.tasks[t].call in s.slots && s.slots[s.tasks[t].call] > 0
    case Enter(t) => t in s.tasks && s.tasks[t].pc.Admitted?
    case Leave(t) => t in s.tasks && s.tasks[t].pc.Critical?
    case Finish(t) => t in s.tasks && s.tasks[t].pc.Done? && s.tasks[t].call in s.slots
  }

  /** Each action runs from one await point to the next. The check of the lock and its acquisition
      have no await between them, so they are one action. */
  function Step(s: State, a: Action): State
    requires Enabled(s, a)
  {
    match a
    case Call(call, limit, servers) =>
      var n: nat := if limit > 1 then limit else 1;
      s.(tasks := s.tasks + (map t | t in servers :: Task(call, servers[t], Queued)),
         slots := s.slots[call := n], limits := s.limits[call := n])
    case Admit(t) =>
      var c := s.tasks[t].call;
      WithPc(s.(slots := s.slots[c := s.slots[c] - 1]), t, Admitted)
    case Enter(t) =>
      if s.tasks[t].server in s.held then WithPc(s, t, Done) else Acquire(s, t)
    case Leave(t) => WithPc(s.(held := s.held - {s.tasks[t].server}), t, Done)
    case Finish(t) =>
      var c := s.tasks[t].call;
      s.(tasks := s.tasks - {t}, slots := s.slots[c := s.slots[c] + 1])
  }

  // ------------------------------------------------- invariants

  predicate InFlight(s: State, t: nat) { t in s.tasks && !s.tasks[t].pc.Queued? }

  function FlightsOf(s: State, call: nat): set<nat> {
    set t | t in s.tasks && InFlight(s, t) && s.tasks[t].call == call
  }

  /** A lock is held by exactly whoever is inside its server's critical section. */
  predicate LocksRight(s: State) {
    && (forall t :: t in s.tasks && s.tasks[t].pc.Critical? ==>
          s.tasks[t].server in s.held && s.held[s.tasks[t].server] == t)
    && (forall server :: server in s.held ==>
          s.held[server] in s.tasks && s.tasks[s.held[server]] == Task(s.tasks[s.held[server]].call, server, Critical))
  }

  predicate NoneWaits(s: State) { forall t :: t in s.tasks ==> !s.tasks[t].pc.Waiting? }

  /** Permits are conserved: free ones and tasks in flight make up the limit. */
  predicate PermitsRight(s: State) {
    && s.slots.Keys == s.limits.Keys
    && (forall t :: t in s.tasks ==> s.tasks[t].call in s.limits)
    && forall c :: c in s.limits ==> s.slots[c] + |FlightsOf(s, c)| == s.limits[c] && s.limits[c] >= 1
  }

  predicate Inv(s: State) { LocksRight(s) && NoneWaits(s) && PermitsRight(s) }

  lemma CountAfter(before: set<nat>, after: set<nat>, t: nat)
    requires after - {t} == before - {t}
    ensures |after| - (if t in after then 1 else 0) == |before| - (if t in before then 1 else 0)
  {
    assert before == before - {t} + if t in before then {t} else {};
    assert after == after - {t} + if t in after then {t} else {};
  }

  /** What one task's move does to the flights of a call. */
  lemma FlightsAfter(s: State, s': State, t: nat, c: nat)
    requires forall u :: u != t ==> (u in s'.tasks <==> u in s.tasks)
    requires forall u :: u in s.tasks && u != t ==> s'.tasks[u] == s.tasks[u]
    ensures var before, after := FlightsOf(s, c), FlightsOf(s', c);
            |after| - (if t in after then 1 else 0) == |before| - (if t in before then 1 else 0)
  {
    CountAfter(FlightsOf(s, c), FlightsOf(s', c), t);
  }

  lemma CallKeepsPermits(s: State, call: nat, limit: int, servers: map<nat, nat>)
    requires PermitsRight(s) && Enabled(s, Call(call, limit, servers))
    ensures PermitsRight(Step(s, Call(call, limit, servers)))
  {
    var s' := Step(s, Call(call, limit, servers));
    forall c | c in s'.limits ensures s'.slots[c] + |FlightsOf(s', c)| == s'.limits[c] && s'.limits[c] >= 1 {
      if c == call {
        assert FlightsOf(s', c) == {};
      } else {
        assert FlightsOf(s', c) == FlightsOf(s, c);
      }
    }
  }

  predicate Moves(a: Action, t: nat) { a in {Admit(t), Enter(t), Leave(t), Finish(t)} }

  /** A move trades a free permit against a flight of the same call, or neither. */
  lemma MoveTrades(s: State, a: Action, t: nat, c: nat)
    requires PermitsRight(s) && Enabled(s, a) && Moves(a, t) && c in s.limits
    ensures var s' := Step(s, a); c in s'.slots && s'.slots[c] + |FlightsOf(s', c)| == s.slots[c] + |FlightsOf(s, c)|
  {
    FlightsAfter(s, Step(s, a), t, c);
  }

  lemma MoveKeepsPermits(s: State, a: Action, t: nat)
    requires PermitsRight(s) && Enabled(s, a) && Moves(a, t)
    ensures PermitsRight(Step(s, a))
  {
    var s' := Step(s, a);
    forall c | c in s'.limits ensures s'.slots[c] + |FlightsOf(s', c)| == s'.limits[c] && s'.limits[c] >= 1 {
      MoveTrades(s, a, t, c);
    }
  }

  lemma CallKeepsLocks(s: State, call: nat, limit: int, servers: map<nat, nat>)
    requires LocksRight(s) && Enabled(s, Call(call, limit, servers))
    ensures LocksRight(Step(s, Call(call, limit, servers)))
  {
    var s' := Step(s, Call(call, limit, servers));
    assert forall t :: t in s.tasks ==> s'.tasks[t] == s.tasks[t];
  }

  lemma MoveKeepsLocks(s: State, a: Action, t: nat)
    requires LocksRight(s) && Enabled(s, a) && Moves(a, t)
    ensures LocksRight(Step(s, a))
  {
    var s' := Step(s, a);
    assert forall u :: u in s.tasks && u != t ==> u in s'.tasks && s'.tasks[u] == s.tasks[u];
  }

  lemma StepKeepsNoneWaits(s: State, a: Action)
    requires NoneWaits(s) && Enabled(s, a)
    ensures NoneWaits(Step(s, a))
  {
  }

  lemma StepKeeps(s: State, a: Action)
    requires Inv(s) && Enabled(s, a)
    ensures Inv(Step(s, a))
  {
    StepKeepsNoneWaits(s, a);
    if a.Call? {
      CallKeepsLocks(s, a.call, a.limit, a.servers);
      CallKeepsPermits(s, a.call, a.limit, a.servers);
    } else {
      MoveKeepsLocks(s, a, a.t);
      MoveKeepsPermits(s, a, a.t);
    }
  }

  predicate RunsTo(s: State, actions: seq<Action>, s': State)
    decreases |actions|
  {
    if actions == [] then s' == s
    else Enabled(s, actions[0]) && RunsTo(Step(s, actions[0]), actions[1..], s')
  }

  lemma {:induction false} RunKeeps(s: State, actions: seq<Action>, s': State)
    requires Inv(s) && RunsTo(s, actions, s')
    ensures Inv(s')
    decreases |actions|
  {
    if actions != [] {
      StepKeeps(s, actions[0]);
      RunKeeps(Step(s, actions[0]), actions[1..], s');
    }
  }

  /** Under every interleaving of any number of calls: at most one task is inside a server's
      critical section, no task is ever parked on a server lock, and a call never has more than
      its limit of servers in flight. */
  lemma Exclusion(actions: seq<Action>, s: State)
    requires RunsTo(START, actions, s)
    ensures forall t, u | t in s.tasks && u in s.tasks && s.tasks[t].pc.Critical? && s.tasks[u].pc.Critical? ::
              s.tasks[t].server == s.tasks[u].server ==> t == u
    ensures NoneWaits(s)
    ensures forall c :: c in s.limits ==> |FlightsOf(s, c)| <= s.limits[c]
  {
    RunKeeps(START, actions, s);
  }

  /** A task goes inside exactly when no other is inside for its server; else it is skipped. */
  lemma EntersIff(actions: seq<Action>, s: State, t: nat)
    requires RunsTo(START, actions, s) && Enabled(s, Enter(t))
    ensures var busy := exists u :: u in s.tasks && s.tasks[u].pc.Critical? && s.tasks[u].server == s.tasks[t].server;
            Step(s, Enter(t)).tasks[t].pc == if busy then Done else Critical
  {
    RunKeeps(START, actions, s);
    if s.tasks[t].server in s.held {
      var u := s.held[s.tasks[t].server];
      assert u in s.tasks && s.tasks[u].pc.Critical? && s.tasks[u].server == s.tasks[t].server;
    }
  }

  lemma {:induction false} LimitKept(s: State, actions: seq<Action>, s': State, call: nat)
    requires RunsTo(s, actions, s') && call in s.limits
    ensures call in s'.limits && s'.limits[call] == s.limits[call]
    decreases |actions|
  {
    if actions != [] { LimitKept(Step(s, actions[0]), actions[1..], s', call); }
  }

  lemma {:induction false} RunSplit(s: State, a: seq<Action>, b: seq<Action>, s': State) returns (m: State)
    requires RunsTo(s, a + b, s')
    ensures RunsTo(s, a, m) && RunsTo(m, b, s')
    decreases |a|
  {
    if a == [] {
      m := s;
      assert a + b == b;
    } else {
      assert (a + b)[1..] == a[1..] + b;
      m := RunSplit(Step(s, a[0]), a[1..], b, s');
    }
  }

  /** At every later moment a call's free permits and the servers it has in flight make up what it asked
      for, or one if it asked for fewer. */
  lemma LimitAsAsked(first: seq<Action>, call: nat, limit: int, servers: map<nat, nat>, rest: seq<Action>, s: State)
    requires RunsTo(START, first + ([Call(call, limit, servers)] + rest), s)
    ensures call in s.slots && s.slots[call] + |FlightsOf(s, call)| == if limit < 1 then 1 else limit
  {
    var all := first + ([Call(call, limit, servers)] + rest);
    var m := RunSplit(START, first, [Call(call, limit, servers)] + rest, s);
    assert ([Call(call, limit, servers)] + rest)[1..] == rest;
    LimitKept(Step(m, Call(call, limit, servers)), rest, s, call);
    RunKeeps(START, all, s);
  }

  /** And no interleaving gets stuck: while a task is left, some task can move. */
  lemma NeverStuck(actions: seq<Action>, s: State)
    requires RunsTo(START, actions, s) && s.tasks != map[]
    ensures exists t :: t in s.tasks
              && (Enabled(s, Admit(t)) || Enabled(s, Enter(t)) || Enabled(s, Leave(t)) || Enabled(s, Finish(t)))
  {
    RunKeeps(START, actions, s);
    var t :| t in s.tasks;
    var c := s.tasks[t].call;
    if s.tasks[t].pc.Queued? && s.slots[c] == 0 {
      var u :| u in FlightsOf(s, c);
      assert Enabled(s, Enter(u)) || Enabled(s, Leave(u)) || Enabled(s, Finish(u));
    } else {
      assert Enabled(s, Admit(t)) || Enabled(s, Enter(t)) || Enabled(s, Leave(t)) || Enabled(s, Finish(t));
    }
  }

  // ------------------------------------------------- the table of locks

  /** asyncio.Lock: only its identity matters here. */
  class Lock {
    constructor () {}
  }

  class LockTable {
    var locks: map<nat, Lock>

    /** No two servers share a lock. */
    ghost predicate Valid()
      reads this
    {
      forall a, b :: a in locks && b in locks && a != b ==> locks[a] != locks[b]
    }

    /** lock_for: a server's lock is made once and never replaced. */
    method LockFor(server: nat) returns (lock: Lock)
      requires Valid()
      modifies this
      ensures Valid() && server in locks && locks[server] == lock
      ensures server in old(locks) ==> locks == old(locks)
      ensures server !in old(locks) ==> fresh(lock) && locks == old(locks)[server := lock]
    {
      if server in locks { return locks[server]; }
      lock := new Lock();
      locks := locks[server := lock];
    }
  }
}
