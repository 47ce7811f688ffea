/** Container swaps that interleave. A converge swaps under the role's converge lock, an update asked
    for over HTTP without it (agent/internal/server/server.go adguardUpdate). */
module SwapRace {
  import opened Swap

  /** The command a swap runs next (adguard.go recreate); Answered once the web has. */
  datatype Pc = Clearing | Renaming | Stopping | Starting | Waiting | Answered
              | Removing | Restoring | Restarting | Finished | GaveUp

  /** aside: as history, which swap last set a container aside, by the container's id. */
  datatype State = State(at: Containers, next: nat, swaps: map<nat, Pc>, aside: map<nat, nat>)

  /** A swap begins; the next command of swap t is carried out or not; or its docker run fails and
      leaves the new container behind. */
  datatype Action = Begin(t: nat) | Run(t: nat, ok: bool) | Leave(t: nat)

  predicate Over(pc: Pc) { pc.Finished? || pc.GaveUp? }

  predicate Enabled(s: State, a: Action) {
    match a
    case Begin(t) => t !in s.swaps
    case Run(t, _) => t in s.swaps && !Over(s.swaps[t])
    case Leave(t) => t in s.swaps && s.swaps[t].Starting? && NAME !in s.at
  }

  function Renamed(cs: Containers, from: string, to: string): Containers
    requires from in cs
  {
    (cs - {from})[to := cs[from]]
  }

  function WithRunning(cs: Containers, name: string, running: bool): Containers {
    if name in cs then cs[name := cs[name].(running := running)] else cs
  }

  function Go(s: State, t: nat, at: Containers, pc: Pc): State { s.(at := at, swaps := s.swaps[t := pc]) }

  function Command(s: State, t: nat, ok: bool): State
    requires t in s.swaps
  {
    match s.swaps[t]
    case Clearing => Go(s, t, if ok then s.at - {PREV} else s.at, Renaming)
    case Renaming =>
      if ok && NAME in s.at && PREV !in s.at
      then Go(s, t, Renamed(s.at, NAME, PREV), Stopping).(aside := s.aside[s.at[NAME].id := t])
      else Go(s, t, s.at, GaveUp)
    case Stopping => Go(s, t, if ok then WithRunning(s.at, PREV, false) else s.at, Starting)
    case Starting =>
      if ok && NAME !in s.at then Go(s, t, s.at[NAME := Container(s.next, true)], Waiting).(next := s.next + 1)
      else Go(s, t, s.at, Removing)
    case Waiting => Go(s, t, s.at, if ok && AnyRuns(s.at) then Answered else Removing)
    case Answered => Go(s, t, if ok then s.at - {PREV} else s.at, Finished)
    case Removing => Go(s, t, if ok then s.at - {NAME} else s.at, Restoring)
    case Restoring =>
      Go(s, t, if ok && PREV in s.at && NAME !in s.at then Renamed(s.at, PREV, NAME) else s.at, Restarting)
    case Restarting => Go(s, t, if ok then WithRunning(s.at, NAME, true) else s.at, GaveUp)
    case _ => s
  }

  function Step(s: State, a: Action): State
    requires Enabled(s, a)
  {
    match a
    case Begin(t) => Go(s, t, s.at, Clearing)
    case Run(t, ok) => Command(s, t, ok)
    case Leave(t) => Go(s, t, s.at[NAME := Container(s.next, false)], Removing).(next := s.next + 1)
  }

  predicate RunsTo(s: State, actions: seq<Action>, s': State)
    decreases |actions|
  {
    if actions == [] then s' == s
    else Enabled(s, actions[0]) && RunsTo(Step(s, actions[0]), actions[1..], s')
  }

  // ------------------------------------------------- one container through any interleaving

  predicate Under(cs: Containers, name: string, id: nat) { name in cs && cs[name].id == id }

  predicate Only(cs: Containers, name: string, id: nat) {
    Under(cs, name, id) && forall other :: other in cs && other != name ==> cs[other].id != id
  }

  /** Between the rename and the end of the rollback. */
  predicate Midway(pc: Pc) { pc.Stopping? || pc.Starting? || pc.Waiting? || pc.Removing? || pc.Restoring? }

  predicate NoneMidway(s: State) { forall t :: t in s.swaps ==> !Midway(s.swaps[t]) }

  predicate OneMidway(s: State) {
    forall t, u :: t in s.swaps && u in s.swaps && Midway(s.swaps[t]) && Midway(s.swaps[u]) ==> t == u
  }

  predicate FreshNext(s: State, id: nat) { id < s.next }

  /** The container is under one of the two names: its own while no swap is midway, the other while
      at most one is. */
  predicate Tracked(s: State, id: nat) {
    FreshNext(s, id) && ((Only(s.at, NAME, id) && NoneMidway(s)) || (Only(s.at, PREV, id) && OneMidway(s)))
  }

  /** The first command of a swap, or the last one of an answered swap, while the container is set
      aside. */
  predicate Fatal(s: State, a: Action, id: nat) {
    && a.Run? && a.t in s.swaps && (s.swaps[a.t].Clearing? || s.swaps[a.t].Answered?)
    && a.ok && Under(s.at, PREV, id)
  }

  /** The swap that set the container aside has been answered, so it may go. */
  predicate Replaced(s: State, id: nat) {
    id in s.aside && s.aside[id] in s.swaps && (s.swaps[s.aside[id]].Answered? || s.swaps[s.aside[id]].Finished?)
  }

  lemma BeginTracked(s: State, t: nat, id: nat)
    requires Tracked(s, id) && t !in s.swaps
    ensures Tracked(Step(s, Begin(t)), id)
  {
  }

  lemma LeaveTracked(s: State, t: nat, id: nat)
    requires Tracked(s, id) && Enabled(s, Leave(t))
    ensures Tracked(Step(s, Leave(t)), id)
  {
    var s' := Step(s, Leave(t));
    assert forall u :: u in s.swaps && u != t ==> s'.swaps[u] == s.swaps[u];
    assert Only(s'.at, PREV, id);
  }

  lemma OwnNameTracked(s: State, t: nat, ok: bool, id: nat)
    requires Tracked(s, id) && Only(s.at, NAME, id) && Enabled(s, Run(t, ok))
    ensures Tracked(Step(s, Run(t, ok)), id)
  {
    var s' := Step(s, Run(t, ok));
    assert forall u :: u in s.swaps && u != t ==> s'.swaps[u] == s.swaps[u];
    if s.swaps[t].Renaming? && ok && PREV !in s.at {
      assert Only(s'.at, PREV, id);
    } else {
      assert Only(s'.at, NAME, id);
    }
  }

  lemma SetAsideTracked(s: State, t: nat, ok: bool, id: nat)
    requires Tracked(s, id) && Only(s.at, PREV, id) && Enabled(s, Run(t, ok))
    requires !Fatal(s, Run(t, ok), id)
    ensures Tracked(Step(s, Run(t, ok)), id)
  {
    var s' := Step(s, Run(t, ok));
    assert forall u :: u in s.swaps && u != t ==> s'.swaps[u] == s.swaps[u];
    if s.swaps[t].Restoring? && ok && NAME !in s.at {
      assert Only(s'.at, NAME, id);
    } else {
      assert Only(s'.at, PREV, id);
    }
  }

  /** Whatever else interleaves, one command loses the container exactly when it clears the other
      name while the container is set aside there. */
  lemma StepLosesIff(s: State, a: Action, id: nat)
    requires Tracked(s, id) && Enabled(s, a)
    ensures Has(Step(s, a).at, id) <==> !Fatal(s, a, id)
    ensures !Fatal(s, a, id) ==> Tracked(Step(s, a), id)
  {
    if !Fatal(s, a, id) {
      if a.Begin? {
        BeginTracked(s, a.t, id);
      } else if a.Leave? {
        LeaveTracked(s, a.t, id);
      } else if Only(s.at, NAME, id) {
        OwnNameTracked(s, a.t, a.ok, id);
      } else {
        SetAsideTracked(s, a.t, a.ok, id);
      }
    }
  }

  lemma LostStaysLost(s: State, a: Action, id: nat)
    requires FreshNext(s, id) && !Has(s.at, id) && Enabled(s, a)
    ensures FreshNext(Step(s, a), id) && !Has(Step(s, a).at, id)
  {
    var s' := Step(s, a);
    forall name | name in s'.at ensures s'.at[name].id != id {
      if name in s.at { assert s.at[name].id != id; }
      if PREV in s.at { assert s.at[PREV].id != id; }
      if NAME in s.at { assert s.at[NAME].id != id; }
    }
  }

  /** What becomes of the container in a run: it stays; it goes before the swap that set it aside was
      answered; or it goes after that. */
  datatype Fate = Stays | LostEarly | Dropped

  function FateOf(s: State, actions: seq<Action>, id: nat): Fate
    decreases |actions|
  {
    if actions == [] || !Enabled(s, actions[0]) then Stays
    else if Fatal(s, actions[0], id) then (if Replaced(s, id) then Dropped else LostEarly)
    else FateOf(Step(s, actions[0]), actions[1..], id)
  }

  lemma {:induction false} LostForGood(s: State, id: nat, actions: seq<Action>, s': State)
    requires FreshNext(s, id) && !Has(s.at, id) && RunsTo(s, actions, s')
    ensures !Has(s'.at, id)
    decreases |actions|
  {
    if actions != [] {
      LostStaysLost(s, actions[0], id);
      LostForGood(Step(s, actions[0]), id, actions[1..], s');
    }
  }

  /** Any number of swaps beginning, answering and interleaving in any way, one after another included:
      a container is still there exactly when no swap has cleared the other name, as its first command
      or after its answer, with the container set aside under it. */
  lemma {:induction false} OriginalLostIff(s: State, id: nat, actions: seq<Action>, s': State)
    requires Tracked(s, id) && RunsTo(s, actions, s')
    ensures Has(s'.at, id) <==> FateOf(s, actions, id).Stays?
    decreases |actions|
  {
    if actions == [] {
      assert Under(s.at, NAME, id) || Under(s.at, PREV, id);
    } else {
      var a, next := actions[0], Step(s, actions[0]);
      StepLosesIff(s, a, id);
      if Fatal(s, a, id) {
        assert FreshNext(next, id);
        LostForGood(next, id, actions[1..], s');
      } else {
        OriginalLostIff(next, id, actions[1..], s');
      }
    }
  }

  // ------------------------------------------------- a swap alone

  /** Whoever swaps what ran under NAME keeps it under one of the two names unless the web answered. */
  predicate Holds(s: State, t: nat, id: nat) {
    t in s.swaps &&
    match s.swaps[t]
    case Clearing => Under(s.at, NAME, id)
    case Renaming => Under(s.at, NAME, id)
    case Answered => true
    case Finished => true
    case Restarting => Under(s.at, PREV, id) || Under(s.at, NAME, id)
    case GaveUp => Under(s.at, PREV, id) || Under(s.at, NAME, id)
    case _ => Under(s.at, PREV, id)
  }

  lemma StepHolds(s: State, a: Action, id: nat)
    requires Enabled(s, a) && !a.Begin? && Holds(s, a.t, id)
    ensures Holds(Step(s, a), a.t, id)
  {
  }

  predicate Alone(actions: seq<Action>, t: nat) {
    forall i :: 0 <= i < |actions| ==> !actions[i].Begin? && actions[i].t == t
  }

  /** With no other swap's command in between, as under the converge lock, the original is there
      after every command until the web has answered, and for good if the swap gives up, whichever
      commands fail. */
  lemma {:induction false} AloneKeepsOriginal(s: State, t: nat, id: nat, actions: seq<Action>, s': State)
    requires Holds(s, t, id) && Alone(actions, t) && RunsTo(s, actions, s')
    ensures Holds(s', t, id)
    ensures !s'.swaps[t].Answered? && !s'.swaps[t].Finished? ==> Has(s'.at, id)
    decreases |actions|
  {
    if actions != [] {
      StepHolds(s, actions[0], id);
      assert forall i :: 0 <= i < |actions[1..]| ==> actions[1..][i] == actions[i + 1];
      AloneKeepsOriginal(Step(s, actions[0]), t, id, actions[1..], s');
    }
  }

  // ------------------------------------------------- the two ways to lose it

  lemma Then(s: State, a: Action, rest: seq<Action>, s': State)
    requires Enabled(s, a) && RunsTo(Step(s, a), rest, s')
    ensures RunsTo(s, [a] + rest, s')
  {
    assert ([a] + rest)[1..] == rest;
  }

  lemma {:induction false} Join(s: State, a: seq<Action>, m: State, b: seq<Action>, s': State)
    requires RunsTo(s, a, m) && RunsTo(m, b, s')
    ensures RunsTo(s, a + b, s')
    decreases |a|
  {
    if a == [] {
      assert a + b == b;
    } else {
      Join(Step(s, a[0]), a[1..], m, b, s');
      Then(s, a[0], a[1..] + b, s');
      assert a + b == [a[0]] + (a[1..] + b);
    }
  }

  function Original(c: Container, next: nat): State { State(map[NAME := c], next, map[0 := Clearing], map[]) }

  lemma OriginalTracked(c: Container, next: nat)
    requires c.id < next
    ensures Tracked(Original(c, next), c.id)
  {
  }

  /** Clear, rename and stop, all carried out. */
  lemma SetAside(c: Container, next: nat) returns (s: State)
    requires c.id < next
    ensures RunsTo(Original(c, next), [Run(0, true), Run(0, true), Run(0, true)], s)
    ensures s == State(map[PREV := c.(running := false)], next, map[0 := Starting], map[c.id := 0])
  {
    var a := Run(0, true);
    var s1 := Step(Original(c, next), a);
    assert s1 == State(map[NAME := c], next, map[0 := Renaming], map[]);
    var s2 := Step(s1, a);
    assert s2 == State(map[PREV := c], next, map[0 := Stopping], map[c.id := 0]);
    s := Step(s2, a);
    assert RunsTo(s, [], s);
    Then(s2, a, [], s);
    Then(s1, a, [a], s);
    Then(Original(c, next), a, [a, a], s);
  }

  /** The next swap begins and clears the other name. */
  lemma NextSwapClears(s: State, id: nat) returns (s': State)
    requires 1 !in s.swaps && Only(s.at, PREV, id)
    ensures RunsTo(s, [Begin(1), Run(1, true)], s')
    ensures !Has(s'.at, id) && s'.swaps == s.swaps[1 := Renaming]
    ensures FateOf(s, [Begin(1), Run(1, true)], id) == if Replaced(s, id) then Dropped else LostEarly
  {
    var m := Step(s, Begin(1));
    s' := Step(m, Run(1, true));
    assert RunsTo(s', [], s');
    Then(m, Run(1, true), [], s');
    Then(s, Begin(1), [Run(1, true)], s');
    assert [Begin(1), Run(1, true)][1..] == [Run(1, true)] && FateOf(m, [Run(1, true)], id) != Stays;
    assert Replaced(m, id) <==> Replaced(s, id);
  }

  /** Two swaps at once: the second clears away what the first has just renamed, before any
      replacement has answered. */
  lemma TwoSwapsLoseOriginal(c: Container, next: nat) returns (s: State, actions: seq<Action>)
    requires c.id < next
    ensures actions == [Run(0, true), Run(0, true), Run(0, true)] + [Begin(1), Run(1, true)]
    ensures RunsTo(Original(c, next), actions, s)
    ensures !Has(s.at, c.id) && s.swaps == map[0 := Starting, 1 := Renaming]
    ensures FateOf(Original(c, next), actions, c.id).LostEarly?
  {
    var m := SetAside(c, next);
    s := NextSwapClears(m, c.id);
    var first, second := [Run(0, true), Run(0, true), Run(0, true)], [Begin(1), Run(1, true)];
    Join(Original(c, next), first, m, second, s);
    actions := first + second;
    OriginalTracked(c, next);
    FateOn(Original(c, next), first, m, second, c.id);
  }

  /** While the container is there, its fate is decided by what follows. */
  lemma FateOn(s: State, a: seq<Action>, m: State, b: seq<Action>, id: nat)
    requires Tracked(s, id) && RunsTo(s, a, m) && Under(m.at, PREV, id)
    ensures FateOf(s, a + b, id) == FateOf(m, b, id)
  {
    OriginalLostIff(s, id, a, m);
    FateJoin(s, a, m, b, id);
  }

  lemma {:induction false} FateJoin(s: State, a: seq<Action>, m: State, b: seq<Action>, id: nat)
    requires RunsTo(s, a, m) && FateOf(s, a, id).Stays?
    ensures FateOf(s, a + b, id) == FateOf(m, b, id)
    decreases |a|
  {
    if a == [] {
      assert a + b == b;
    } else {
      assert (a + b)[1..] == a[1..] + b;
      FateJoin(Step(s, a[0]), a[1..], m, b, id);
    }
  }

  function SwapAt(c: Container, next: nat, pc: Pc): State {
    State(map[PREV := c], next, map[0 := pc], map[c.id := 0])
  }

  /** The commands of a rollback whose rename fails, and the one that fails before it. */
  lemma RollBackStep(c: Container, next: nat, pc: Pc, ok: bool, pc': Pc)
    requires (pc, ok, pc') in {(Starting, false, Removing), (Removing, true, Restoring),
                               (Restoring, false, Restarting), (Restarting, true, GaveUp)}
    ensures Enabled(SwapAt(c, next, pc), Run(0, ok))
    ensures Step(SwapAt(c, next, pc), Run(0, ok)) == SwapAt(c, next, pc')
  {
    assert map[0 := pc][0 := pc'] == map[0 := pc'];
  }

  /** One swap after another: the replacement does not start, the rename back fails, and the swap gives
      up with the original set aside. */
  lemma RollBackFails(c: Container, next: nat)
    ensures RunsTo(SwapAt(c, next, Starting), [Run(0, false), Run(0, true), Run(0, false), Run(0, true)],
                   SwapAt(c, next, GaveUp))
  {
    var end := SwapAt(c, next, GaveUp);
    RollBackStep(c, next, Restarting, true, GaveUp);
    Then(SwapAt(c, next, Restarting), Run(0, true), [], end);
    RollBackStep(c, next, Restoring, false, Restarting);
    Then(SwapAt(c, next, Restoring), Run(0, false), [Run(0, true)], end);
    RollBackStep(c, next, Removing, true, Restoring);
    Then(SwapAt(c, next, Removing), Run(0, true), [Run(0, false), Run(0, true)], end);
    RollBackStep(c, next, Starting, false, Removing);
    Then(SwapAt(c, next, Starting), Run(0, false), [Run(0, true), Run(0, false), Run(0, true)], end);
  }

  /** Then the next swap deletes the original, although no two swaps ever overlapped and nothing
      crashed. */
  lemma SerialSwapsLoseOriginal(c: Container, next: nat) returns (s: State, actions: seq<Action>)
    requires c.id < next
    ensures actions == [Run(0, true), Run(0, true), Run(0, true)]
                       + ([Run(0, false), Run(0, true), Run(0, false), Run(0, true)] + [Begin(1), Run(1, true)])
    ensures RunsTo(Original(c, next), actions, s)
    ensures !Has(s.at, c.id) && s.swaps == map[0 := GaveUp, 1 := Renaming]
    ensures FateOf(Original(c, next), actions, c.id).LostEarly?
  {
    var m := SetAside(c, next);
    var n := SwapAt(c.(running := false), next, GaveUp);
    RollBackFails(c.(running := false), next);
    s := NextSwapClears(n, c.id);
    var first := [Run(0, true), Run(0, true), Run(0, true)];
    var back, again := [Run(0, false), Run(0, true), Run(0, false), Run(0, true)], [Begin(1), Run(1, true)];
    Join(m, back, n, again, s);
    Join(Original(c, next), first, m, back + again, s);
    actions := first + (back + again);
    OriginalTracked(c, next);
    FateOn(Original(c, next), first, m, back + again, c.id);
    FateOn(m, back, n, again, c.id);
  }

  /** The new container of swap 0 has answered, and another swap begins, clears and sets it aside. */
  lemma AnsweredThenSetAside(o: Container, r: Container, next: nat, aside: map<nat, nat>) returns (s: State)
    requires o.id != r.id && r.id < next
    ensures RunsTo(State(map[NAME := r, PREV := o], next, map[0 := Answered], aside),
                   [Begin(1), Run(1, true), Run(1, true)], s)
    ensures s == State(map[PREV := r], next, map[0 := Answered, 1 := Stopping], aside[r.id := 1])
  {
    var s0 := State(map[NAME := r, PREV := o], next, map[0 := Answered], aside);
    var s1 := Step(s0, Begin(1));
    assert s1 == s0.(swaps := map[0 := Answered, 1 := Clearing]);
    var s2 := Step(s1, Run(1, true));
    assert s2 == State(map[NAME := r], next, map[0 := Answered, 1 := Renaming], aside);
    s := Step(s2, Run(1, true));
    assert RunsTo(s, [], s);
    Then(s2, Run(1, true), [], s);
    Then(s1, Run(1, true), [Run(1, true)], s);
    Then(s0, Begin(1), [Run(1, true), Run(1, true)], s);
  }

  /** Then the last command of the answered swap deletes what serves, and nothing is left at all. */
  lemma AnsweredSwapLosesServing(o: Container, r: Container, next: nat, aside: map<nat, nat>)
    returns (s: State, actions: seq<Action>)
    requires o.id != r.id && r.id < next
    ensures actions == [Begin(1), Run(1, true), Run(1, true)] + [Run(0, true)]
    ensures RunsTo(State(map[NAME := r, PREV := o], next, map[0 := Answered], aside), actions, s)
    ensures s.at == map[] && s.swaps == map[0 := Finished, 1 := Stopping]
    ensures FateOf(State(map[NAME := r, PREV := o], next, map[0 := Answered], aside), actions, r.id).LostEarly?
  {
    var s0 := State(map[NAME := r, PREV := o], next, map[0 := Answered], aside);
    var m := AnsweredThenSetAside(o, r, next, aside);
    s := Step(m, Run(0, true));
    assert RunsTo(s, [], s);
    Then(m, Run(0, true), [], s);
    var first := [Begin(1), Run(1, true), Run(1, true)];
    Join(s0, first, m, [Run(0, true)], s);
    actions := first + [Run(0, true)];
    assert Tracked(s0, r.id);
    FateOn(s0, first, m, [Run(0, true)], r.id);
  }

  /** The state it starts from is what a swap comes to whose web has answered. */
  lemma AnsweredIsReached(c: Container, next: nat) returns (s: State)
    requires c.id < next
    ensures RunsTo(State(map[PREV := c], next, map[0 := Starting], map[c.id := 0]), [Run(0, true), Run(0, true)], s)
    ensures s == State(map[NAME := Container(next, true), PREV := c], next + 1, map[0 := Answered], map[c.id := 0])
  {
    var s0 := State(map[PREV := c], next, map[0 := Starting], map[c.id := 0]);
    var s1 := Step(s0, Run(0, true));
    assert s1 == State(map[NAME := Container(next, true), PREV := c], next + 1, map[0 := Waiting], map[c.id := 0]);
    assert s1.at[NAME].running;
    s := Step(s1, Run(0, true));
    assert RunsTo(s, [], s);
    Then(s1, Run(0, true), [], s);
    Then(s0, Run(0, true), [Run(0, true)], s);
  }
}
