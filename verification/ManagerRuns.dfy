/** What whole runs of the desired-state manager store, write and apply: when the phase, the disk
    and the control plane's push rule agree with it (agent/internal/roles/manager.go, hosts.py). */
module ManagerRuns {
  import opened Utf8
  import opened Options
  import opened Manager
  import Canon
  import Json

  // ------------------------------------------------- the last spec a run stores and writes

  predicate NoRestart(actions: seq<Action>) {
    actions == [] || (!actions[0].Restart? && NoRestart(actions[1..]))
  }

  /** Put's section stores a spec in memory. */
  predicate Stores(s: State, a: Action) { a.PutStore? && a.t in s.puts && s.puts[a.t].Written? }

  /** Put's file write reaches the disk. */
  predicate Writes(s: State, a: Action) { a.PutWrite? && a.ok && a.t in s.puts && s.puts[a.t].Checked? }

  function StoredBy(s: State, a: Action, last: Option<Desired>): Option<Desired> {
    if Stores(s, a) then Some(s.puts[a.t].d) else last
  }

  function WrittenBy(s: State, a: Action, last: Option<Desired>): Option<Desired> {
    if Writes(s, a) then Some(s.puts[a.t].d) else last
  }

  /** What the last PutStore of a run stores, `last` if there is none. */
  ghost function LastStored(c: Codec, s: State, actions: seq<Action>, last: Option<Desired>): Option<Desired>
    decreases |actions|
  {
    if actions == [] || !Enabled(c, s, actions[0]) then last
    else LastStored(c, Step(c, s, actions[0]), actions[1..], StoredBy(s, actions[0], last))
  }

  /** What the last successful PutWrite of a run writes. */
  ghost function LastWritten(c: Codec, s: State, actions: seq<Action>, last: Option<Desired>): Option<Desired>
    decreases |actions|
  {
    if actions == [] || !Enabled(c, s, actions[0]) then last
    else LastWritten(c, Step(c, s, actions[0]), actions[1..], WrittenBy(s, actions[0], last))
  }

  lemma StepStores(c: Codec, s: State, a: Action)
    requires Enabled(c, s, a) && !a.Restart?
    ensures Step(c, s, a).mem.desired == StoredBy(s, a, s.mem.desired)
    ensures Step(c, s, a).disk.desired == if Writes(s, a) then Some(s.puts[a.t].d.raw) else s.disk.desired
  {
  }

  /** Without a restart, memory holds the last spec the run stored. */
  lemma {:induction false} MemoryHoldsLastStored(c: Codec, s: State, actions: seq<Action>, s': State)
    requires RunsTo(c, s, actions, s') && NoRestart(actions)
    ensures s'.mem.desired == LastStored(c, s, actions, s.mem.desired)
    decreases |actions|
  {
    if actions != [] {
      StepStores(c, s, actions[0]);
      MemoryHoldsLastStored(c, Step(c, s, actions[0]), actions[1..], s');
    }
  }

  /** A default only shows when the run stores nothing. */
  lemma {:induction false} LastStoredDefault(c: Codec, s: State, actions: seq<Action>, last: Option<Desired>)
    ensures LastStored(c, s, actions, last)
            == if LastStored(c, s, actions, None).Some? then LastStored(c, s, actions, None) else last
    decreases |actions|
  {
    if actions != [] && Enabled(c, s, actions[0]) {
      var a, next := actions[0], Step(c, s, actions[0]);
      LastStoredDefault(c, next, actions[1..], StoredBy(s, a, last));
      LastStoredDefault(c, next, actions[1..], StoredBy(s, a, None));
    }
  }

  // ------------------------------------------------- state versus hash

  lemma RunningStays(c: Codec, s: State, a: Action)
    requires Enabled(c, s, a) && s.loop.Running? && !a.Restart? && !a.LoopDone? && !a.LoopFail?
    ensures Step(c, s, a).loop == s.loop
  {
  }

  lemma {:induction false} StaysRunning(c: Codec, s: State, actions: seq<Action>, s': State)
    requires RunsTo(c, s, actions, s') && NoRestart(actions) && NoneFinishes(actions) && s.loop.Running?
    ensures s'.loop == s.loop
    decreases |actions|
  {
    if actions != [] {
      RunningStays(c, s, actions[0]);
      StaysRunning(c, Step(c, s, actions[0]), actions[1..], s');
    }
  }

  lemma {:induction false} InvStays(c: Codec, s: State, actions: seq<Action>, s': State)
    requires Inv(c, s) && RunsTo(c, s, actions, s')
    ensures Inv(c, s')
  {
    RunKeeps(c, s, actions, s');
  }

  lemma DoneFacts(c: Codec, s: State, enabled: bool)
    requires Inv(c, s) && s.loop.Running?
    ensures var s' := Step(c, s, LoopDone(enabled));
            && s'.mem.common.phase in {Ready, Stopped} && s'.mem.desired == s.mem.desired
            && s'.mem.common.appliedHash == Some(s.loop.d.hash)
            && (s.mem.desired.Some? ==> s'.mem.common.desiredHash == Some(s.mem.desired.value.hash))
  {
  }

  /** The phase alone does not show which spec is applied: a PUT may overtake a converge. From the
      read of a converge to its success, whatever is interleaved, the two hashes end up equal
      exactly when nothing was stored meanwhile, or the last thing stored has the hash read. */
  lemma DoneIsCurrentIffNotOvertaken(c: Codec, s: State, during: seq<Action>, enabled: bool, s': State)
    requires Inv(c, s) && Enabled(c, s, LoopRead) && s.mem.desired.Some?
    requires NoRestart(during) && NoneFinishes(during)
    requires RunsTo(c, s, [LoopRead] + (during + [LoopDone(enabled)]), s')
    ensures s'.mem.common.phase in {Ready, Stopped}
    ensures InStep(s') <==>
              match LastStored(c, Step(c, s, LoopRead), during, None)
              case None => true
              case Some(d) => d.hash == s.mem.desired.value.hash
  {
    var all := [LoopRead] + (during + [LoopDone(enabled)]);
    assert all[1..] == during + [LoopDone(enabled)];
    var m1 := Step(c, s, LoopRead);
    StepKeeps(c, s, LoopRead);
    var m2 := RunSplit(c, m1, during, [LoopDone(enabled)], s');
    assert [LoopDone(enabled)][1..] == [];
    InvStays(c, m1, during, m2);
    StaysRunning(c, m1, during, m2);
    MemoryHoldsLastStored(c, m1, during, m2);
    LastStoredDefault(c, m1, during, m1.mem.desired);
    DoneFacts(c, m2, enabled);
  }

  /** A whole PUT up to its store, beside whatever the loop is doing. */
  lemma PutStores(c: Codec, s: State, t: nat, b: Bytes) returns (m: State)
    requires Acceptable(c, b) && t !in s.puts
    ensures RunsTo(c, s, [PutBegin(t, b), PutWrite(t, true), PutStore(t)], m)
    ensures m.mem == StoreDesired(s.mem, Desired(b, Hash(c, b).value)) && m.loop == s.loop
  {
    var m1 := Step(c, s, PutBegin(t, b));
    var m2 := Step(c, m1, PutWrite(t, true));
    m := Step(c, m2, PutStore(t));
    assert RunsTo(c, m, [], m);
    RunStep(c, m2, PutStore(t), [], m);
    RunStep(c, m1, PutWrite(t, true), [PutStore(t)], m);
    RunStep(c, s, PutBegin(t, b), [PutWrite(t, true), PutStore(t)], m);
  }

  /** The run that shows it. */
  lemma ReadyBesideOlderHash(c: Codec, a: Bytes, b: Bytes) returns (s: State)
    requires Acceptable(c, a) && Acceptable(c, b) && Hash(c, a) != Hash(c, b)
    ensures Reachable(c, s) && s.mem.common.phase == Ready
    ensures s.mem.common.appliedHash == Hash(c, a) && s.mem.common.desiredHash == Hash(c, b)
  {
    var boot := Boot(c, Disk(Some(a), None));
    var s2 := FirstRead(c, Disk(Some(a), None));
    var s5 := PutStores(c, s2, 0, b);
    RunJoin(c, boot, [LoopLock, LoopRead], s2, [PutBegin(0, b), PutWrite(0, true), PutStore(0)], s5);
    s := Step(c, s5, LoopDone(true));
    assert RunsTo(c, s, [], s);
    RunStep(c, s5, LoopDone(true), [], s);
    RunJoin(c, boot, [LoopLock, LoopRead] + [PutBegin(0, b), PutWrite(0, true), PutStore(0)], s5, [LoopDone(true)], s);
  }

  // ------------------------------------------------- the push rule (hosts.py)

  /** _run_lb_plan sends a plan only when the agent's desired hash differs. */
  ghost predicate Pushes(c: Codec, s: State, plan: Json.Spec) {
    s.mem.common.desiredHash != Some(c.digest(Json.PyCanonical(plan)))
  }

  /** What a new process reads back from disk has hash h. */
  ghost predicate LoadsHash(c: Codec, disk: Disk, h: Digest) {
    disk.desired.Some? && Acceptable(c, disk.desired.value) && Hash(c, disk.desired.value) == Some(h)
  }

  ghost predicate KeepsHash(c: Codec, s: State, a: Action, h: Digest) {
    && (Stores(s, a) ==> s.puts[a.t].d.hash == h)
    && (a.Restart? ==> LoadsHash(c, s.disk, h))
  }

  /** One step keeps the desired hash exactly when it stores no other and, a restart, finds it. */
  lemma HashKeptIff(c: Codec, s: State, a: Action, h: Digest)
    requires Inv(c, s) && Enabled(c, s, a) && s.mem.common.desiredHash == Some(h)
    ensures Step(c, s, a).mem.common.desiredHash == Some(h) <==> KeepsHash(c, s, a, h)
  {
  }

  /** A restart finds the hash whenever disk and memory agree. */
  lemma AgreeingDiskLoadsHash(c: Codec, s: State, h: Digest)
    requires Inv(c, s) && DiskAgrees(s) && s.mem.common.desiredHash == Some(h)
    ensures LoadsHash(c, s.disk, h)
  {
  }

  ghost predicate AllKeepHash(c: Codec, s: State, actions: seq<Action>, h: Digest)
    decreases |actions|
  {
    actions == [] ||
    (Enabled(c, s, actions[0]) && KeepsHash(c, s, actions[0], h)
     && AllKeepHash(c, Step(c, s, actions[0]), actions[1..], h))
  }

  lemma {:induction false} HashStays(c: Codec, s: State, actions: seq<Action>, h: Digest, s': State)
    requires Inv(c, s) && s.mem.common.desiredHash == Some(h)
    requires RunsTo(c, s, actions, s') && AllKeepHash(c, s, actions, h)
    ensures s'.mem.common.desiredHash == Some(h)
    decreases |actions|
  {
    if actions != [] {
      HashKeptIff(c, s, actions[0], h);
      StepKeeps(c, s, actions[0]);
      HashStays(c, Step(c, s, actions[0]), actions[1..], h, s');
    }
  }

  /** Once the agent has stored any text of the plan, the push rule does not fire at the end of any
      run that stores no other hash and whose restarts find this one on disk. */
  lemma StoredPlanIsNotPushedAgain(c: Codec, s: State, t: nat, plan: Json.Spec, actions: seq<Action>, s': State)
    requires Inv(c, s) && t in s.puts && s.puts[t].Written?
    requires Canon.Canonical(s.puts[t].d.raw) == Canon.Ok(Json.PyCanonical(plan))
    requires RunsTo(c, Step(c, s, PutStore(t)), actions, s')
    requires AllKeepHash(c, Step(c, s, PutStore(t)), actions, c.digest(Json.PyCanonical(plan)))
    ensures !Pushes(c, s', plan)
  {
    var m := Step(c, s, PutStore(t));
    assert m.mem.common.desiredHash == Some(s.puts[t].d.hash);
    StepKeeps(c, s, PutStore(t));
    HashStays(c, m, actions, c.digest(Json.PyCanonical(plan)), s');
  }

  // ------------------------------------------------- disk and memory

  predicate DiskAgrees(s: State) {
    s.disk.desired == match s.mem.desired case None => None case Some(d) => Some(d.raw)
  }

  /** PUTs one at a time: none begins while another is under way. */
  predicate Serial(s: State, a: Action) { a.PutBegin? ==> s.puts == map[] }

  ghost predicate SerialInv(c: Codec, s: State) {
    && (s.disk.desired.Some? ==> Acceptable(c, s.disk.desired.value))
    && (forall t, u :: t in s.puts && u in s.puts ==> t == u)
    && (forall t :: t in s.puts && s.puts[t].Written? ==> s.disk.desired == Some(s.puts[t].d.raw))
    && (NoneWritten(s) ==> DiskAgrees(s))
  }

  ghost predicate SerialRunsTo(c: Codec, s: State, actions: seq<Action>, s': State)
    decreases |actions|
  {
    if actions == [] then s' == s
    else Enabled(c, s, actions[0]) && Serial(s, actions[0]) && SerialRunsTo(c, Step(c, s, actions[0]), actions[1..], s')
  }

  predicate NoneWritten(s: State) { forall t :: t in s.puts ==> !s.puts[t].Written? }

  lemma SerialPutStep(c: Codec, s: State, a: Action)
    requires Inv(c, s) && SerialInv(c, s) && Enabled(c, s, a) && Serial(s, a)
    requires a.PutBegin? || a.PutWrite? || a.PutStore? || a.PutSignal?
    ensures SerialInv(c, Step(c, s, a))
  {
    match a
    case PutBegin(_, _) => assert NoneWritten(s);
    case PutWrite(t, ok) =>
      assert NoneWritten(s);
      if ok { assert t in Step(c, s, a).puts && Step(c, s, a).puts[t].Written?; }
    case PutStore(_) =>
    case PutSignal(_) => assert NoneWritten(s);
    case _ =>
  }

  lemma SpecUntouched(c: Codec, s: State, a: Action)
    requires Enabled(c, s, a) && !a.Restart?
    requires !(a.PutBegin? || a.PutWrite? || a.PutStore? || a.PutSignal?)
    ensures var s' := Step(c, s, a);
            s'.puts == s.puts && s'.mem.desired == s.mem.desired && s'.disk.desired == s.disk.desired
  {
  }

  lemma SerialStep(c: Codec, s: State, a: Action)
    requires Inv(c, s) && SerialInv(c, s) && Enabled(c, s, a) && Serial(s, a)
    ensures SerialInv(c, Step(c, s, a))
  {
    if a.PutBegin? || a.PutWrite? || a.PutStore? || a.PutSignal? {
      SerialPutStep(c, s, a);
    } else if !a.Restart? {
      SpecUntouched(c, s, a);
    }
  }

  /** With PUTs one at a time, disk and memory name the same spec whenever no PUT is under way. */
  lemma {:induction false} SerialPutsAgree(c: Codec, s: State, actions: seq<Action>, s': State)
    requires Inv(c, s) && SerialInv(c, s) && SerialRunsTo(c, s, actions, s')
    ensures SerialInv(c, s') && (s'.puts == map[] ==> DiskAgrees(s'))
    decreases |actions|
  {
    if actions != [] {
      SerialStep(c, s, actions[0]);
      StepKeeps(c, s, actions[0]);
      SerialPutsAgree(c, Step(c, s, actions[0]), actions[1..], s');
    }
  }

  lemma BothWrite(c: Codec, s: State, a: Bytes, b: Bytes) returns (m: State)
    requires Acceptable(c, a) && Acceptable(c, b) && s.puts == map[]
    ensures RunsTo(c, s, [PutBegin(0, a), PutBegin(1, b), PutWrite(0, true), PutWrite(1, true)], m)
    ensures m.disk.desired == Some(b) && m.puts.Keys == {0, 1} && m.puts[0].Written? && m.puts[1].Written?
    ensures m.puts[0].d.raw == a
  {
    var s1 := Step(c, s, PutBegin(0, a));
    var s2 := Step(c, s1, PutBegin(1, b));
    var s3 := Step(c, s2, PutWrite(0, true));
    m := Step(c, s3, PutWrite(1, true));
    assert RunsTo(c, m, [], m);
    RunStep(c, s3, PutWrite(1, true), [], m);
    RunStep(c, s2, PutWrite(0, true), [PutWrite(1, true)], m);
    RunStep(c, s1, PutBegin(1, b), [PutWrite(0, true), PutWrite(1, true)], m);
    RunStep(c, s, PutBegin(0, a), [PutBegin(1, b), PutWrite(0, true), PutWrite(1, true)], m);
  }

  lemma StoreBackwards(c: Codec, m: State) returns (s': State)
    requires m.puts.Keys == {0, 1} && m.puts[0].Written? && m.puts[1].Written?
    ensures RunsTo(c, m, [PutStore(1), PutStore(0), PutSignal(0), PutSignal(1)], s')
    ensures s'.puts == map[] && s'.disk == m.disk && s'.mem.desired == Some(m.puts[0].d)
  {
    var s1 := Step(c, m, PutStore(1));
    var s2 := Step(c, s1, PutStore(0));
    var s3 := Step(c, s2, PutSignal(0));
    s' := Step(c, s3, PutSignal(1));
    assert RunsTo(c, s', [], s');
    RunStep(c, s3, PutSignal(1), [], s');
    RunStep(c, s2, PutSignal(0), [PutSignal(1)], s');
    RunStep(c, s1, PutStore(0), [PutSignal(0), PutSignal(1)], s');
    RunStep(c, m, PutStore(1), [PutStore(0), PutSignal(0), PutSignal(1)], s');
  }

  /** Overlapping PUTs of any two different texts can leave them disagreeing, from any state. */
  lemma OverlappingPutsCanDisagree(c: Codec, s: State, a: Bytes, b: Bytes) returns (s': State)
    requires Acceptable(c, a) && Acceptable(c, b) && a != b && s.puts == map[]
    ensures exists actions :: RunsTo(c, s, actions, s')
    ensures s'.puts == map[] && !DiskAgrees(s')
  {
    var m := BothWrite(c, s, a, b);
    s' := StoreBackwards(c, m);
    RunJoin(c, s, [PutBegin(0, a), PutBegin(1, b), PutWrite(0, true), PutWrite(1, true)], m,
            [PutStore(1), PutStore(0), PutSignal(0), PutSignal(1)], s');
  }

  /** A process starts with agreeing disk and memory exactly when it accepts what it finds. */
  lemma BootAgreesIff(c: Codec, disk: Disk)
    ensures SerialInv(c, Boot(c, disk)) <==> disk.desired.Some? ==> Acceptable(c, disk.desired.value)
    ensures DiskAgrees(Boot(c, disk)) <==> disk.desired.Some? ==> Acceptable(c, disk.desired.value)
  {
  }

  /** Until something is written every PUT is only checked, and until something is stored one of
      the writers has still to store. */
  ghost predicate Tracked(s: State, written: Option<Desired>, stored: Option<Desired>) {
    && (written.None? ==> stored.None? && forall t :: t in s.puts ==> s.puts[t].Checked?)
    && (written.Some? && stored.None? ==> exists t :: t in s.puts && s.puts[t].Written?)
  }

  lemma TrackStep(c: Codec, s: State, a: Action, written: Option<Desired>, stored: Option<Desired>)
    requires Tracked(s, written, stored) && Enabled(c, s, a) && !a.Restart?
    ensures Tracked(Step(c, s, a), WrittenBy(s, a, written), StoredBy(s, a, stored))
  {
    var s' := Step(c, s, a);
    if written.Some? && stored.None? {
      var t :| t in s.puts && s.puts[t].Written?;
      if !Stores(s, a) { assert t in s'.puts && s'.puts[t].Written?; }
    } else if Writes(s, a) {
      assert a.t in s'.puts && s'.puts[a.t].Written?;
    }
  }

  lemma {:induction false} TrackRun(c: Codec, s: State, actions: seq<Action>, s': State,
                                    written: Option<Desired>, stored: Option<Desired>)
    requires Tracked(s, written, stored) && RunsTo(c, s, actions, s') && NoRestart(actions)
    ensures Tracked(s', LastWritten(c, s, actions, written), LastStored(c, s, actions, stored))
    decreases |actions|
  {
    if actions != [] {
      var a := actions[0];
      TrackStep(c, s, a, written, stored);
      TrackRun(c, Step(c, s, a), actions[1..], s', WrittenBy(s, a, written), StoredBy(s, a, stored));
    }
  }

  /** Without a restart, the disk holds the last text the run wrote. */
  lemma {:induction false} DiskHoldsLastWritten(c: Codec, s: State, actions: seq<Action>, s': State,
                                                last: Option<Desired>)
    requires RunsTo(c, s, actions, s') && NoRestart(actions)
    requires last.Some? ==> s.disk.desired == Some(last.value.raw)
    ensures var w := LastWritten(c, s, actions, last);
            && (last.Some? ==> w.Some?)
            && s'.disk.desired == if w.Some? then Some(w.value.raw) else s.disk.desired
    decreases |actions|
  {
    if actions != [] {
      StepStores(c, s, actions[0]);
      DiskHoldsLastWritten(c, Step(c, s, actions[0]), actions[1..], s', WrittenBy(s, actions[0], last));
    }
  }

  predicate SameText(a: Option<Desired>, b: Option<Desired>) {
    match (a, b)
    case (None, None) => true
    case (Some(x), Some(y)) => x.raw == y.raw
    case _ => false
  }

  /** PUTs overlapping in any way, from the first to the last of them: disk and memory end up
      naming the same spec exactly when the last file write and the last store were of one text. */
  lemma PutsAgreeIff(c: Codec, s: State, actions: seq<Action>, s': State)
    requires s.puts == map[] && DiskAgrees(s)
    requires RunsTo(c, s, actions, s') && NoRestart(actions) && s'.puts == map[]
    ensures DiskAgrees(s') <==> SameText(LastWritten(c, s, actions, None), LastStored(c, s, actions, None))
  {
    TrackRun(c, s, actions, s', None, None);
    DiskHoldsLastWritten(c, s, actions, s', None);
    MemoryHoldsLastStored(c, s, actions, s');
    LastStoredDefault(c, s, actions, s.mem.desired);
  }
}
