/** Swapping the AdGuard Home container (adguard/adguard.go recreate). Every docker command may
    fail; `log` is the host after each command, which is where a crash would leave it. */
module Swap {
  datatype Container = Container(id: nat, running: bool)

  type Containers = map<string, Container>

  const NAME := "adguardhome"
  const PREV := "adguardhome-prev"

  ghost predicate Has(cs: Containers, id: nat) { exists name :: name in cs && cs[name].id == id }

  /** The container is there at every one of these moments. */
  ghost predicate Kept(moments: seq<Containers>, id: nat) { forall i :: 0 <= i < |moments| ==> Has(moments[i], id) }

  lemma KeptMore(moments: seq<Containers>, cs: Containers, name: string, id: nat)
    requires Kept(moments, id) && name in cs && cs[name].id == id
    ensures Kept(moments + [cs], id)
  {
    assert Has(cs, id);
  }

  lemma KeptBoth(a: seq<Containers>, b: seq<Containers>, id: nat)
    requires Kept(a, id) && Kept(b, id)
    ensures Kept(a + b, id)
  {
  }

  predicate AnyRuns(cs: Containers) { exists name :: name in cs && cs[name].running }

  datatype Report = Swapped | NotRenamed | RolledBack(restored: bool)

  class Host {
    var at: Containers
    var next: nat
    ghost var log: seq<Containers>
    /** How many commands had run when the web address last answered. */
    ghost var answeredAfter: nat

    ghost predicate Valid()
      reads this
    {
      answeredAfter <= |log| && forall name :: name in at ==> at[name].id < next
    }

    twostate predicate Logged()
      reads this
    {
      log == old(log) + [at] && answeredAfter == old(answeredAfter)
    }

    /** docker rm -f */
    method Remove(name: string) returns (ok: bool)
      requires Valid()
      modifies this
      ensures Valid() && Logged() && next == old(next)
      ensures at == if ok then old(at) - {name} else old(at)
    {
      ok := *;
      if ok { at := at - {name}; }
      log := log + [at];
    }

    /** docker rename refuses an absent container and a name in use. */
    method Rename(from: string, to: string) returns (ok: bool)
      requires Valid() && from != to
      modifies this
      ensures Valid() && Logged() && next == old(next)
      ensures ok ==> from in old(at) && to !in old(at) && at == (old(at) - {from})[to := old(at)[from]]
      ensures !ok ==> at == old(at)
    {
      ok := *;
      ok := ok && from in at && to !in at;
      if ok { at := (at - {from})[to := at[from]]; }
      log := log + [at];
    }

    method SetRunning(name: string, running: bool) returns (ok: bool)
      requires Valid()
      modifies this
      ensures Valid() && Logged() && next == old(next)
      ensures ok ==> name in old(at) && at == old(at)[name := old(at)[name].(running := running)]
      ensures !ok ==> at == old(at)
    {
      ok := *;
      ok := ok && name in at;
      if ok { at := at[name := at[name].(running := running)]; }
      log := log + [at];
    }

    /** docker run -d --name: a failure may leave the new container behind, stopped. */
    method RunNew(name: string) returns (ok: bool)
      requires Valid()
      modifies this
      ensures Valid() && Logged() && next == old(next) + 1
      ensures ok ==> name !in old(at) && at == old(at)[name := Container(old(next), true)]
      ensures !ok ==> at == old(at) || (name !in old(at) && at == old(at)[name := Container(old(next), false)])
    {
      var created: bool := *;
      ok := *;
      if name in at {
        ok := false;
      } else if ok {
        at := at[name := Container(next, true)];
      } else if created {
        at := at[name := Container(next, false)];
      }
      next := next + 1;
      log := log + [at];
    }

    /** waitWeb: something that runs answered on the web address before the deadline. */
    method WaitWeb() returns (ok: bool)
      requires Valid()
      modifies `answeredAfter
      ensures Valid()
      ensures ok ==> answeredAfter == |log| && AnyRuns(at)
      ensures !ok ==> answeredAfter == old(answeredAfter)
    {
      ok := *;
      if !AnyRuns(at) { ok := false; }
      if ok { answeredAfter := |log|; }
    }

    method RollBack(ghost id: nat) returns (restored: bool, ghost moments: seq<Containers>)
      requires Valid() && PREV in at && at[PREV].id == id
      modifies this
      ensures Valid() && log == old(log) + moments && Kept(moments, id)
      ensures restored ==> NAME in at && at[NAME] == old(at)[PREV].(running := true) && PREV !in at
    {
      var cleared := Remove(NAME);
      moments := [at];
      KeptMore([], at, PREV, id);
      var renamed := Rename(PREV, NAME);
      KeptMore(moments, at, if renamed then NAME else PREV, id);
      moments := moments + [at];
      var started := SetRunning(NAME, true);
      KeptMore(moments, at, if renamed then NAME else PREV, id);
      moments := moments + [at];
      restored := renamed && started;
    }

    /** The first half: what runs is renamed out of the way and stopped. */
    method SetAside() returns (renamed: bool, stopped: bool, ghost moments: seq<Containers>)
      requires Valid()
      modifies this
      ensures Valid() && next == old(next) && log == old(log) + moments
      ensures NAME in old(at) ==> Kept(moments, old(at)[NAME].id)
      ensures renamed ==> NAME in old(at) && NAME !in at && PREV in at
                          && at[PREV] == if stopped then old(at)[NAME].(running := false) else old(at)[NAME]
      ensures !renamed && NAME in old(at) ==> NAME in at && at[NAME] == old(at)[NAME]
    {
      stopped := false;
      ghost var id := if NAME in at then at[NAME].id else 0;
      var cleared := Remove(PREV);
      moments := [at];
      if NAME in at { KeptMore([], at, NAME, id); }
      renamed := Rename(NAME, PREV);
      if PREV in at && renamed {
        KeptMore(moments, at, PREV, id);
      } else if NAME in at {
        KeptMore(moments, at, NAME, id);
      }
      moments := moments + [at];
      if renamed {
        stopped := SetRunning(PREV, false);
        KeptMore(moments, at, PREV, id);
        moments := moments + [at];
      }
    }

    /** moments: the host after each command, but for the last one of a successful swap. */
    method Recreate() returns (r: Report, ghost moments: seq<Containers>)
      requires Valid()
      modifies this
      ensures Valid()
      ensures log == old(log) + moments + if r == Swapped then [at] else []
      ensures NAME in old(at) ==> Kept(moments, old(at)[NAME].id)
      ensures r == Swapped ==> NAME in old(at) && NAME in at && at[NAME] == Container(old(next), true)
      ensures r == Swapped ==> moments != [] && answeredAfter == |old(log)| + |moments|
      ensures r == NotRenamed && NAME in old(at) ==> NAME in at && at[NAME] == old(at)[NAME]
      ensures r.RolledBack? ==> NAME in old(at)
      ensures r == RolledBack(true) ==>
                NAME in at && at[NAME] == old(at)[NAME].(running := true) && PREV !in at
    {
      var renamed, stopped;
      renamed, stopped, moments := SetAside();
      if !renamed { return NotRenamed, moments; }
      ghost var id := at[PREV].id;
      var run := RunNew(NAME);
      KeptMore(moments, at, PREV, id);
      moments := moments + [at];
      var answered := false;
      if run { answered := WaitWeb(); }
      if !answered {
        var restored, more := RollBack(id);
        KeptBoth(moments, more, id);
        moments := moments + more;
        return RolledBack(restored), moments;
      }
      var dropped := Remove(PREV);
      r := Swapped;
    }
  }
}
