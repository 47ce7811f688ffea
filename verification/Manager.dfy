/** The agent's desired-state manager (agent/internal/roles/manager.go) for one role, as atomic
    steps: what happens under one hold of Manager.mu, or is one file write, or one operation on
    the wake channel or the converge lock, is one step. PUT requests, resets, the converge loop
    and restarts interleave freely. */
module Manager {
  import opened Utf8
  import opened Options
  import opened Parser
  import Canon
  import Json

  type Digest = Bytes

  /** The parts of the agent that are fixed: which specs a role accepts, and SHA-256. */
  datatype Codec = Codec(accepts: Bytes -> bool, digest: Bytes -> Digest)

  /** canon.Hash */
  ghost function Hash(c: Codec, raw: Bytes): Option<Digest> {
    var r := Canon.Canonical(raw);
    if r.Ok? then Some(c.digest(r.text)) else None
  }

  /** What Decode and canon.Hash both accept. */
  ghost predicate Acceptable(c: Codec, raw: Bytes) { c.accepts(raw) && Hash(c, raw).Some? }

  datatype Phase = Absent | Installing | Configuring | Ready | Stopped | Error

  datatype Desired = Desired(raw: Bytes, hash: Digest)

  /** The part of Common the protocol uses; None is Go's "". */
  datatype Common = Common(phase: Phase, desiredHash: Option<Digest>, appliedHash: Option<Digest>)

  /** An entry's fields guarded by Manager.mu, and its wake channel of capacity 1. */
  datatype Memory = Memory(desired: Option<Desired>, common: Common, wake: bool)

  /** desired/<role>.json and status/<role>.json */
  datatype Disk = Disk(desired: Option<Bytes>, applied: Option<Digest>)

  datatype PutPc = Checked(d: Desired) | Written(d: Desired) | Stored
  datatype ResetPc = Wiping | Wiped | Cleared(c: Common) | Persisted
  datatype LoopPc = Starting | Waiting | Woken | Locked | Running(d: Desired) | Saving(c: Common)
  datatype Lock = Free | ByLoop | ByReset(t: nat)

  /** Where the applied hash comes from. */
  datatype Origin = Restored(h: Option<Digest>) | Forgotten | Converged(d: Desired)

  /** History variables: how many specs were stored and applied hashes cleared in this process,
      how many of each the latest read came after, and what that read saw. */
  datatype History = History(stores: nat, storesSeen: nat, clears: nat, clearsSeen: nat,
                             read: Option<Desired>, origin: Origin)

  datatype State = State(mem: Memory, disk: Disk, lock: Lock, loop: LoopPc,
                         puts: map<nat, PutPc>, resets: map<nat, ResetPc>, hist: History)

  datatype Action =
    | PutBegin(t: nat, raw: Bytes)
    | PutWrite(t: nat, ok: bool)
    | PutStore(t: nat)
    | PutSignal(t: nat)
    | ResetLock(t: nat)
    | ResetWipe(t: nat, ok: bool)
    | ResetClear(t: nat)
    | ResetPersist(t: nat, ok: bool)
    | ResetWake(t: nat)
    | LoopWake
    | LoopTick
    | LoopLock
    | LoopRead
    | LoopReport(phase: Phase)
    | LoopFail
    | LoopDone(enabled: bool)
    | LoopSave(ok: bool)
    | Restart

  // ------------------------------------------------- the critical sections

  /** Put's section: manager.go:145-151. */
  function StoreDesired(m: Memory, d: Desired): Memory {
    m.(desired := Some(d),
       common := if m.common.appliedHash == Some(d.hash) then m.common.(desiredHash := Some(d.hash))
                 else m.common.(desiredHash := Some(d.hash), phase := Installing))
  }

  function Signal(m: Memory): Memory { m.(wake := true) }

  /** ResetApplied's section: manager.go:227-231. */
  function ForgetApplied(m: Memory): Memory {
    m.(common := m.common.(appliedHash := None, phase := Installing))
  }

  /** converge's last section: manager.go:288-309. */
  function RecordDone(m: Memory, d: Desired, enabled: bool): Memory {
    m.(common := m.common.(appliedHash := Some(d.hash), phase := if enabled then Ready else Stopped))
  }

  function RecordPhase(m: Memory, phase: Phase): Memory { m.(common := m.common.(phase := phase)) }

  /** NewManager and Load: manager.go:70-126. */
  ghost function Load(c: Codec, disk: Disk): Memory {
    if disk.desired.Some? && Acceptable(c, disk.desired.value) then
      var d := Desired(disk.desired.value, Hash(c, disk.desired.value).value);
      Memory(Some(d), Common(Installing, Some(d.hash), disk.applied), false)
    else Memory(None, Common(Absent, None, disk.applied), false)
  }

  ghost function Boot(c: Codec, disk: Disk): State {
    State(Load(c, disk), disk, Free, Starting, map[], map[], History(1, 0, 0, 0, None, Restored(disk.applied)))
  }

  /** The fields of an entry, updated in place by the sections above. */
  class Entry {
    var desired: Option<Desired>
    var common: Common
    var wake: bool

    function Contents(): Memory
      reads this
    {
      Memory(desired, common, wake)
    }

    constructor ()
      ensures Contents() == Memory(None, Common(Absent, None, None), false)
    {
      desired, common, wake := None, Common(Absent, None, None), false;
    }

    method Store(d: Desired)
      modifies this
      // Text and hash are stored together, and nothing claims to be applied that was not before:
      // the entry reports installing exactly when this hash is not the applied one.
      ensures desired == Some(d) && common.desiredHash == Some(d.hash)
      ensures common.appliedHash == old(common.appliedHash) && wake == old(wake)
      ensures common.phase == if old(common.appliedHash) == Some(d.hash) then old(common.phase) else Installing
      ensures Contents() == StoreDesired(old(Contents()), d)
    {
      desired := Some(d);
      common := common.(desiredHash := Some(d.hash));
      if common.appliedHash != Some(d.hash) {
        common := common.(phase := Installing);
      }
    }

    /** The non-blocking send: a full channel drops the token. */
    method Wake()
      modifies this`wake
      ensures wake  // whether or not a token was there
      ensures Contents() == Signal(old(Contents()))
    {
      if !wake { wake := true; }
    }

    method ResetApplied() returns (c: Common)
      modifies this`common
      // The desired side is untouched, so the next converge starts from the same spec.
      ensures common.appliedHash.None? && common.phase == Installing && common.desiredHash == old(common.desiredHash)
      ensures Contents() == ForgetApplied(old(Contents())) && c == common
    {
      common := common.(appliedHash := None);
      common := common.(phase := Installing);
      c := common;
    }

    /** The end of converge; result is None after an error, else whether the role is enabled. */
    method Finish(d: Desired, result: Option<bool>) returns (c: Common)
      modifies this`common
      // An error keeps the hash that was applied; only a success names d, and only a success rests.
      ensures common.appliedHash == if result.None? then old(common.appliedHash) else Some(d.hash)
      ensures common.desiredHash == old(common.desiredHash)
      ensures common.phase in {Ready, Stopped} <==> result.Some?
      ensures common.phase == Ready <==> result == Some(true)
      ensures result.None? ==> Contents() == RecordPhase(old(Contents()), Error)
      ensures result.Some? ==> Contents() == RecordDone(old(Contents()), d, result.value)
      ensures c == common
    {
      if result.None? {
        common := common.(phase := Error);
      } else {
        common := common.(appliedHash := Some(d.hash));
        if result.value { common := common.(phase := Ready); } else { common := common.(phase := Stopped); }
      }
      c := common;
    }
  }

  // ------------------------------------------------- the steps

  ghost predicate Enabled(c: Codec, s: State, a: Action) {
    match a
    case PutBegin(t, raw) => t !in s.puts && Acceptable(c, raw)
    case PutWrite(t, _) => t in s.puts && s.puts[t].Checked?
    case PutStore(t) => t in s.puts && s.puts[t].Written?
    case PutSignal(t) => t in s.puts && s.puts[t].Stored?
    case ResetLock(t) => t !in s.resets && s.lock == Free && s.mem.desired.Some?
    case ResetWipe(t, _) => t in s.resets && s.resets[t].Wiping?
    case ResetClear(t) => t in s.resets && s.resets[t].Wiped?
    case ResetPersist(t, _) => t in s.resets && s.resets[t].Cleared?
    case ResetWake(t) => t in s.resets && s.resets[t].Persisted?
    case LoopWake => s.loop.Waiting? && s.mem.wake
    case LoopTick => s.loop.Waiting?
    case LoopLock => (s.loop.Starting? || s.loop.Woken?) && s.lock == Free
    case LoopRead => s.loop.Locked?
    case LoopReport(_) => s.loop.Running?
    case LoopFail => s.loop.Running?
    case LoopDone(_) => s.loop.Running?
    case LoopSave(_) => s.loop.Saving?
    case Restart => true
  }

  ghost function Step(c: Codec, s: State, a: Action): State
    requires Enabled(c, s, a)
  {
    match a
    case PutBegin(t, raw) => s.(puts := s.puts[t := Checked(Desired(raw, Hash(c, raw).value))])
    case PutWrite(t, ok) =>
      if ok then s.(disk := s.disk.(desired := Some(s.puts[t].d.raw)), puts := s.puts[t := Written(s.puts[t].d)])
      else s.(puts := s.puts - {t})
    case PutStore(t) =>
      s.(mem := StoreDesired(s.mem, s.puts[t].d), puts := s.puts[t := Stored],
         hist := s.hist.(stores := s.hist.stores + 1))
    case PutSignal(t) => s.(mem := Signal(s.mem), puts := s.puts - {t})
    case ResetLock(t) => s.(lock := ByReset(t), resets := s.resets[t := Wiping])
    case ResetWipe(t, ok) =>
      s.(lock := Free, resets := if ok then s.resets[t := Wiped] else s.resets - {t})
    case ResetClear(t) =>
      var m := ForgetApplied(s.mem);
      s.(mem := m, resets := s.resets[t := Cleared(m.common)],
         hist := s.hist.(clears := s.hist.clears + 1, origin := Forgotten))
    case ResetPersist(t, ok) =>
      s.(disk := if ok then s.disk.(applied := s.resets[t].c.appliedHash) else s.disk,
         resets := s.resets[t := Persisted])
    case ResetWake(t) => s.(mem := Signal(s.mem), resets := s.resets - {t})
    case LoopWake => s.(mem := s.mem.(wake := false), loop := Woken)
    case LoopTick => s.(loop := Woken)
    case LoopLock => s.(lock := ByLoop, loop := Locked)
    case LoopRead =>
      var h := s.hist.(storesSeen := s.hist.stores, clearsSeen := s.hist.clears, read := s.mem.desired);
      if s.mem.desired.None? then s.(lock := Free, loop := Waiting, hist := h)
      else s.(loop := Running(s.mem.desired.value), hist := h)
    case LoopReport(phase) => s.(mem := RecordPhase(s.mem, phase))
    case LoopFail =>
      var m := RecordPhase(s.mem, Error);
      s.(mem := m, loop := Saving(m.common))
    case LoopDone(enabled) =>
      var m := RecordDone(s.mem, s.loop.d, enabled);
      s.(mem := m, loop := Saving(m.common), hist := s.hist.(origin := Converged(s.loop.d)))
    case LoopSave(ok) =>
      s.(disk := if ok then s.disk.(applied := s.loop.c.appliedHash) else s.disk, lock := Free, loop := Waiting)
    case Restart => Boot(c, s.disk)
  }

  /** as is a run from s, and s' is where it ends. */
  ghost predicate RunsTo(c: Codec, s: State, actions: seq<Action>, s': State)
    decreases |actions|
  {
    if actions == [] then s' == s
    else Enabled(c, s, actions[0]) && RunsTo(c, Step(c, s, actions[0]), actions[1..], s')
  }

  ghost predicate Reachable(c: Codec, s: State) {
    exists disk, actions :: RunsTo(c, Boot(c, disk), actions, s)
  }

  // ------------------------------------------------- what every step keeps

  ghost predicate HashedRight(c: Codec, d: Desired) { Acceptable(c, d.raw) && Hash(c, d.raw) == Some(d.hash) }

  /** DesiredHash always describes the stored spec. */
  ghost predicate DesiredHashMatches(c: Codec, s: State) {
    match s.mem.desired
    case None => s.mem.common.desiredHash == None
    case Some(d) => HashedRight(c, d) && s.mem.common.desiredHash == Some(d.hash)
  }

  /** AppliedHash is what was restored, or empty after a reset, or the latest successful converge's. */
  ghost predicate AppliedHashExplained(c: Codec, s: State) {
    s.mem.common.appliedHash ==
      match s.hist.origin
      case Restored(h) => h
      case Forgotten => None
      case Converged(d) => Some(d.hash)
  }

  predicate AboutToRead(s: State) { s.loop.Starting? || s.loop.Woken? || s.loop.Locked? }

  predicate PutWillSignal(s: State) { exists t :: t in s.puts && s.puts[t].Stored? }

  predicate ResetWillSignal(s: State) { exists t :: t in s.resets && (s.resets[t].Cleared? || s.resets[t].Persisted?) }

  /** A spec no converge has read, or an applied hash cleared since the latest read, is never
      forgotten: a wake is pending, the loop is about to read, or the thread responsible has
      still to signal. */
  predicate NoLostWakeup(s: State) {
    && (s.hist.storesSeen < s.hist.stores ==> s.mem.wake || AboutToRead(s) || PutWillSignal(s))
    && (s.hist.clearsSeen < s.hist.clears ==> s.mem.wake || AboutToRead(s) || ResetWillSignal(s))
  }

  /** A wipe and a converge never overlap. */
  predicate LockHeldRight(s: State) {
    && (s.lock == ByLoop <==> s.loop.Locked? || s.loop.Running? || s.loop.Saving?)
    && (forall t :: t in s.resets && s.resets[t].Wiping? ==> s.lock == ByReset(t))
    && (s.lock.ByReset? ==> s.lock.t in s.resets && s.resets[s.lock.t].Wiping?)
  }

  ghost predicate HistoryRight(c: Codec, s: State) {
    && s.hist.storesSeen <= s.hist.stores && s.hist.clearsSeen <= s.hist.clears
    && (s.hist.storesSeen == s.hist.stores ==> s.hist.read == s.mem.desired)
    && (s.loop.Running? ==> s.hist.read == Some(s.loop.d) && HashedRight(c, s.loop.d))
    && (s.hist.origin.Converged? ==> HashedRight(c, s.hist.origin.d))
    && forall t :: t in s.puts && !s.puts[t].Stored? ==> HashedRight(c, s.puts[t].d)
  }

  /** "ready" and "stopped" come from a finished converge, except while one is running and
      reports its own phases. */
  predicate PhaseExplained(s: State) {
    s.mem.common.phase in {Ready, Stopped} ==> s.hist.origin.Converged? || s.loop.Running?
  }

  ghost predicate Inv(c: Codec, s: State) {
    && DesiredHashMatches(c, s)
    && AppliedHashExplained(c, s)
    && NoLostWakeup(s)
    && LockHeldRight(s)
    && HistoryRight(c, s)
    && PhaseExplained(s)
  }

  lemma PutStoreKeeps(c: Codec, s: State, t: nat)
    requires Inv(c, s) && Enabled(c, s, PutStore(t))
    ensures Inv(c, Step(c, s, PutStore(t)))
  {
    var s' := Step(c, s, PutStore(t));
    assert t in s'.puts && s'.puts[t].Stored?;
  }

  lemma PutSignalKeeps(c: Codec, s: State, t: nat)
    requires Inv(c, s) && Enabled(c, s, PutSignal(t))
    ensures Inv(c, Step(c, s, PutSignal(t)))
  {
  }

  lemma SignallersStay(s: State, s': State, t: nat)
    requires t in s.puts && !s.puts[t].Stored?
              && (s'.puts == s.puts - {t} || (t in s'.puts && s'.puts == s.puts[t := s'.puts[t]]))
    ensures PutWillSignal(s) ==> PutWillSignal(s')
  {
    if PutWillSignal(s) {
      var u :| u in s.puts && s.puts[u].Stored?;
      assert u in s'.puts && s'.puts[u].Stored?;
    }
  }

  lemma PutWriteKeeps(c: Codec, s: State, t: nat, ok: bool)
    requires Inv(c, s) && Enabled(c, s, PutWrite(t, ok))
    ensures Inv(c, Step(c, s, PutWrite(t, ok)))
  {
    SignallersStay(s, Step(c, s, PutWrite(t, ok)), t);
  }

  lemma PutBeginKeeps(c: Codec, s: State, t: nat, raw: Bytes)
    requires Inv(c, s) && Enabled(c, s, PutBegin(t, raw))
    ensures Inv(c, Step(c, s, PutBegin(t, raw)))
  {
    var s' := Step(c, s, PutBegin(t, raw));
    assert HashedRight(c, s'.puts[t].d);
    if PutWillSignal(s) {
      var u :| u in s.puts && s.puts[u].Stored?;
      assert u in s'.puts && s'.puts[u].Stored?;
    }
  }

  lemma ResetStepKeeps(c: Codec, s: State, a: Action)
    requires Inv(c, s) && Enabled(c, s, a)
    requires a.ResetLock? || a.ResetWipe? || a.ResetClear? || a.ResetPersist? || a.ResetWake?
    ensures Inv(c, Step(c, s, a))
  {
    var s' := Step(c, s, a);
    if a.ResetClear? {
      assert a.t in s'.resets && s'.resets[a.t].Cleared?;
    } else if !a.ResetWake? && ResetWillSignal(s) {
      var t :| t in s.resets && (s.resets[t].Cleared? || s.resets[t].Persisted?);
      assert t in s'.resets && (s'.resets[t].Cleared? || s'.resets[t].Persisted?);
    }
  }

  lemma SameSignals(s: State, s': State)
    requires s'.puts == s.puts && s'.resets == s.resets
    ensures PutWillSignal(s') == PutWillSignal(s) && ResetWillSignal(s') == ResetWillSignal(s)
  {
  }

  lemma LoopWaitKeeps(c: Codec, s: State, a: Action)
    requires Inv(c, s) && Enabled(c, s, a)
    requires a.LoopWake? || a.LoopTick? || a.LoopLock? || a.LoopSave?
    ensures Inv(c, Step(c, s, a))
  {
    SameSignals(s, Step(c, s, a));
  }

  lemma LoopWorkKeeps(c: Codec, s: State, a: Action)
    requires Inv(c, s) && Enabled(c, s, a)
    requires a.LoopRead? || a.LoopReport? || a.LoopFail? || a.LoopDone?
    ensures Inv(c, Step(c, s, a))
  {
    SameSignals(s, Step(c, s, a));
  }

  lemma BootInv(c: Codec, disk: Disk)
    ensures Inv(c, Boot(c, disk))
  {
  }

  lemma StepKeeps(c: Codec, s: State, a: Action)
    requires Inv(c, s) && Enabled(c, s, a)
    ensures Inv(c, Step(c, s, a))
  {
    match a
    case Restart => BootInv(c, s.disk);
    case PutBegin(t, raw) => PutBeginKeeps(c, s, t, raw);
    case PutWrite(t, ok) => PutWriteKeeps(c, s, t, ok);
    case PutStore(t) => PutStoreKeeps(c, s, t);
    case PutSignal(t) => PutSignalKeeps(c, s, t);
    case ResetLock(_) => ResetStepKeeps(c, s, a);
    case ResetWipe(_, _) => ResetStepKeeps(c, s, a);
    case ResetClear(_) => ResetStepKeeps(c, s, a);
    case ResetPersist(_, _) => ResetStepKeeps(c, s, a);
    case ResetWake(_) => ResetStepKeeps(c, s, a);
    case LoopWake => LoopWaitKeeps(c, s, a);
    case LoopTick => LoopWaitKeeps(c, s, a);
    case LoopLock => LoopWaitKeeps(c, s, a);
    case LoopSave(_) => LoopWaitKeeps(c, s, a);
    case _ => LoopWorkKeeps(c, s, a);
  }

  lemma {:induction false} RunKeeps(c: Codec, s: State, actions: seq<Action>, s': State)
    requires Inv(c, s) && RunsTo(c, s, actions, s')
    ensures Inv(c, s')
    decreases |actions|
  {
    if actions != [] {
      StepKeeps(c, s, actions[0]);
      RunKeeps(c, Step(c, s, actions[0]), actions[1..], s');
    }
  }

  /** Every interleaving of PUTs, resets, ticks, converges and restarts keeps the invariants,
      the absence of lost wakeups among them. */
  lemma ReachableInv(c: Codec, s: State)
    requires Reachable(c, s)
    ensures Inv(c, s)
  {
    var disk, actions :| RunsTo(c, Boot(c, disk), actions, s);
    RunKeeps(c, Boot(c, disk), actions, s);
  }

  /** So an idle loop with no PUT under way has read the current spec. */
  lemma IdleMeansPickedUp(c: Codec, s: State)
    requires Reachable(c, s) && s.loop.Waiting? && !s.mem.wake && !PutWillSignal(s)
    ensures s.hist.read == s.mem.desired
  {
    ReachableInv(c, s);
  }

  // ------------------------------------------------- convergence

  predicate Quiet(a: Action) { !a.PutStore? && !a.ResetClear? && !a.Restart? }

  predicate AllQuiet(actions: seq<Action>) {
    actions == [] || (Quiet(actions[0]) && AllQuiet(actions[1..]))
  }

  predicate NoneFinishes(actions: seq<Action>) {
    actions == [] || (!actions[0].LoopDone? && !actions[0].LoopFail? && NoneFinishes(actions[1..]))
  }

  predicate InStep(s: State) { s.mem.desired.Some? && s.mem.common.appliedHash == s.mem.common.desiredHash }

  /** The running converge works on the current spec. */
  predicate OnCurrent(s: State) { s.loop.Running? && s.mem.desired == Some(s.loop.d) }

  lemma {:induction false} RunSplit(c: Codec, s: State, a: seq<Action>, b: seq<Action>, s': State) returns (m: State)
    requires RunsTo(c, s, a + b, s')
    ensures RunsTo(c, s, a, m) && RunsTo(c, m, b, s')
    decreases |a|
  {
    if a == [] {
      m := s;
      assert a + b == b;
    } else {
      assert (a + b)[1..] == a[1..] + b;
      m := RunSplit(c, Step(c, s, a[0]), a[1..], b, s');
    }
  }

  lemma {:induction false} QuietKeepsSpec(c: Codec, s: State, actions: seq<Action>, s': State)
    requires Inv(c, s) && AllQuiet(actions) && RunsTo(c, s, actions, s')
    ensures Inv(c, s') && s'.mem.desired == s.mem.desired
    decreases |actions|
  {
    if actions != [] {
      StepKeeps(c, s, actions[0]);
      QuietKeepsSpec(c, Step(c, s, actions[0]), actions[1..], s');
    }
  }

  lemma {:induction false} StaysOnCurrent(c: Codec, s: State, actions: seq<Action>, s': State)
    requires OnCurrent(s) && AllQuiet(actions) && NoneFinishes(actions) && RunsTo(c, s, actions, s')
    ensures OnCurrent(s')
    decreases |actions|
  {
    if actions != [] {
      StaysOnCurrent(c, Step(c, s, actions[0]), actions[1..], s');
    }
  }

  predicate Settled(s: State) { InStep(s) && (s.loop.Running? ==> OnCurrent(s)) }

  lemma SettledStep(c: Codec, s: State, a: Action)
    requires Inv(c, s) && Settled(s) && Enabled(c, s, a) && Quiet(a)
    ensures Settled(Step(c, s, a))
  {
  }

  lemma {:induction false} SettledStays(c: Codec, s: State, actions: seq<Action>, s': State)
    requires Inv(c, s) && Settled(s) && AllQuiet(actions) && RunsTo(c, s, actions, s')
    ensures Settled(s')
    decreases |actions|
  {
    if actions != [] {
      SettledStep(c, s, actions[0]);
      StepKeeps(c, s, actions[0]);
      SettledStays(c, Step(c, s, actions[0]), actions[1..], s');
    }
  }

  /** In a run without further PUTs, clears and restarts, a converge that begins and succeeds
      leaves AppliedHash equal to DesiredHash, and it stays so to the end of the run, whatever
      else is interleaved. */
  lemma QuietRunConverges(c: Codec, s: State, before: seq<Action>, during: seq<Action>, enabled: bool,
                          after: seq<Action>, s': State)
    requires Inv(c, s) && s.mem.desired.Some?
    requires AllQuiet(before) && AllQuiet(during) && AllQuiet(after) && NoneFinishes(during)
    requires RunsTo(c, s, before + ([LoopRead] + (during + ([LoopDone(enabled)] + after))), s')
    ensures InStep(s') && s'.mem.desired == s.mem.desired
  {
    var m0 := RunSplit(c, s, before, [LoopRead] + (during + ([LoopDone(enabled)] + after)), s');
    QuietKeepsSpec(c, s, before, m0);
    assert ([LoopRead] + (during + ([LoopDone(enabled)] + after)))[1..] == during + ([LoopDone(enabled)] + after);
    var m1 := Step(c, m0, LoopRead);
    StepKeeps(c, m0, LoopRead);
    var m2 := RunSplit(c, m1, during, [LoopDone(enabled)] + after, s');
    StaysOnCurrent(c, m1, during, m2);
    QuietKeepsSpec(c, m1, during, m2);
    assert ([LoopDone(enabled)] + after)[1..] == after;
    var m3 := Step(c, m2, LoopDone(enabled));
    StepKeeps(c, m2, LoopDone(enabled));
    SettledStays(c, m3, after, s');
    QuietKeepsSpec(c, m3, after, s');
  }

  lemma RunStep(c: Codec, s: State, a: Action, rest: seq<Action>, s': State)
    requires Enabled(c, s, a) && RunsTo(c, Step(c, s, a), rest, s')
    ensures RunsTo(c, s, [a] + rest, s')
  {
    assert ([a] + rest)[1..] == rest;
  }

  lemma {:induction false} RunJoin(c: Codec, s: State, a: seq<Action>, m: State, b: seq<Action>, s': State)
    requires RunsTo(c, s, a, m) && RunsTo(c, m, b, s')
    ensures RunsTo(c, s, a + b, s')
    decreases |a|
  {
    if a == [] {
      assert a + b == b;
    } else {
      RunJoin(c, Step(c, s, a[0]), a[1..], m, b, s');
      RunStep(c, s, a[0], a[1..] + b, s');
      assert a + b == [a[0]] + (a[1..] + b);
    }
  }

  /** A new process that accepts what is on disk reads it first. */
  lemma FirstRead(c: Codec, disk: Disk) returns (s: State)
    requires disk.desired.Some? && Acceptable(c, disk.desired.value)
    ensures RunsTo(c, Boot(c, disk), [LoopLock, LoopRead], s)
    ensures s.loop == Running(Desired(disk.desired.value, Hash(c, disk.desired.value).value))
    ensures s.mem == Load(c, disk) && s.puts == map[] && s.hist.origin == Restored(disk.applied)
  {
    var s1 := Step(c, Boot(c, disk), LoopLock);
    s := Step(c, s1, LoopRead);
    assert RunsTo(c, s, [], s);
    RunStep(c, s1, LoopRead, [], s);
    RunStep(c, Boot(c, disk), LoopLock, [LoopRead], s);
  }

  // ------------------------------------------------- the control plane's view (hosts.py)

  /** _run_lb_plan: in sync means this hash was applied and the role rests. */
  ghost predicate ReportsInSync(c: Codec, s: State, plan: Json.Spec) {
    s.mem.common.appliedHash == Some(c.digest(Json.PyCanonical(plan))) && s.mem.common.phase in {Ready, Stopped}
  }

  ghost predicate NoCollision(c: Codec, plan: Json.Spec) {
    forall x :: c.digest(x) == c.digest(Json.PyCanonical(plan)) ==> x == Json.PyCanonical(plan)
  }

  /** Whenever the control plane computes in_sync for the plan of this pass, a converge running or
      not: the latest successful converge of this agent process was of a spec with exactly the
      plan's canonical text; or this process has finished none yet, and the hash is the plan's as
      restored from disk while the first one is running. */
  lemma InSyncIsHonest(c: Codec, s: State, plan: Json.Spec)
    requires Reachable(c, s) && ReportsInSync(c, s, plan) && NoCollision(c, plan)
    ensures s.hist.origin.Converged? ==> Canon.Canonical(s.hist.origin.d.raw) == Canon.Ok(Json.PyCanonical(plan))
    ensures !s.hist.origin.Converged? ==>
              s.loop.Running? && s.hist.origin == Restored(Some(c.digest(Json.PyCanonical(plan))))
  {
    ReachableInv(c, s);
  }

  // ------------------------------------------------- where an applied hash comes from

  /** The specs whose converges succeed in this run. */
  ghost function Done(c: Codec, s: State, actions: seq<Action>): set<Desired>
    decreases |actions|
  {
    if actions == [] || !Enabled(c, s, actions[0]) then {}
    else
      (if actions[0].LoopDone? then {s.loop.d} else {}) + Done(c, Step(c, s, actions[0]), actions[1..])
  }

  /** No hash, the one on disk at first, or one of these specs'. */
  predicate From(h: Option<Digest>, first: Option<Digest>, done: set<Desired>) {
    h == None || h == first || exists d :: d in done && h == Some(d.hash)
  }

  /** In memory, on disk, and in what is about to be saved. */
  predicate AllFrom(s: State, first: Option<Digest>, done: set<Desired>) {
    && From(s.mem.common.appliedHash, first, done) && From(s.disk.applied, first, done)
    && (s.loop.Saving? ==> From(s.loop.c.appliedHash, first, done))
    && forall t :: t in s.resets && s.resets[t].Cleared? ==> From(s.resets[t].c.appliedHash, first, done)
  }

  lemma StepFrom(c: Codec, s: State, a: Action, first: Option<Digest>, done: set<Desired>)
    requires AllFrom(s, first, done) && Enabled(c, s, a)
    ensures AllFrom(Step(c, s, a), first, done + if a.LoopDone? then {s.loop.d} else {})
  {
    var more := done + if a.LoopDone? then {s.loop.d} else {};
    forall h | From(h, first, done) ensures From(h, first, more) {
      if d :| d in done && h == Some(d.hash) { assert d in more; }
    }
    if a.LoopDone? { assert s.loop.d in more; }
  }

  lemma {:induction false} RunFrom(c: Codec, s: State, actions: seq<Action>, s': State, first: Option<Digest>,
                                   done: set<Desired>)
    requires AllFrom(s, first, done) && RunsTo(c, s, actions, s')
    ensures AllFrom(s', first, done + Done(c, s, actions))
    decreases |actions|
  {
    if actions == [] {
      assert done + {} == done;
    } else {
      var now := if actions[0].LoopDone? then {s.loop.d} else {};
      StepFrom(c, s, actions[0], first, done);
      RunFrom(c, Step(c, s, actions[0]), actions[1..], s', first, done + now);
      assert done + now + Done(c, Step(c, s, actions[0]), actions[1..]) == done + Done(c, s, actions);
    }
  }

  lemma {:induction false} DoneHashedRight(c: Codec, s: State, actions: seq<Action>)
    requires Inv(c, s)
    ensures forall d :: d in Done(c, s, actions) ==> HashedRight(c, d)
    decreases |actions|
  {
    if actions != [] && Enabled(c, s, actions[0]) {
      StepKeeps(c, s, actions[0]);
      DoneHashedRight(c, Step(c, s, actions[0]), actions[1..]);
    }
  }

  /** Over any run from a first boot, restarts included, every applied hash in memory, on disk and in
      a pending save is none, the one on disk at first, or that of a spec whose converge succeeded. */
  lemma AppliedHashesAreEarned(c: Codec, disk: Disk, actions: seq<Action>, s: State)
    requires RunsTo(c, Boot(c, disk), actions, s)
    ensures AllFrom(s, disk.applied, Done(c, Boot(c, disk), actions))
    ensures forall d :: d in Done(c, Boot(c, disk), actions) ==> HashedRight(c, d)
  {
    RunFrom(c, Boot(c, disk), actions, s, disk.applied, {});
    assert {} + Done(c, Boot(c, disk), actions) == Done(c, Boot(c, disk), actions);
    BootInv(c, disk);
    DoneHashedRight(c, Boot(c, disk), actions);
  }

  /** So in_sync, restored or not, means that a converge of a spec with exactly the plan's canonical
      text once succeeded, in this process or one before it; or the hash was there at first. */
  lemma InSyncWasConverged(c: Codec, disk: Disk, actions: seq<Action>, s: State, plan: Json.Spec)
    requires RunsTo(c, Boot(c, disk), actions, s) && ReportsInSync(c, s, plan) && NoCollision(c, plan)
    requires disk.applied != Some(c.digest(Json.PyCanonical(plan)))
    ensures exists d :: d in Done(c, Boot(c, disk), actions)
                        && Canon.Canonical(d.raw) == Canon.Ok(Json.PyCanonical(plan))
  {
    AppliedHashesAreEarned(c, disk, actions, s);
    var done := Done(c, Boot(c, disk), actions);
    var d :| d in done && s.mem.common.appliedHash == Some(d.hash);
    assert HashedRight(c, d);
  }

  predicate NoneSaves(actions: seq<Action>) {
    actions == [] || (!actions[0].LoopSave? && !actions[0].Restart? && NoneSaves(actions[1..]))
  }

  lemma {:induction false} SavingStays(c: Codec, s: State, actions: seq<Action>, s': State)
    requires s.loop.Saving? && NoneSaves(actions) && RunsTo(c, s, actions, s')
    ensures s'.loop == s.loop
    decreases |actions|
  {
    if actions != [] { SavingStays(c, Step(c, s, actions[0]), actions[1..], s'); }
  }

  /** What the completed save at the end of a converge leaves on disk, whatever happens meanwhile: the
      spec's own hash after a success, and after a failure the hash that was applied before. */
  lemma ConvergeSaves(c: Codec, s: State, end: Action, during: seq<Action>, s': State)
    requires s.loop.Running? && (end.LoopDone? || end.LoopFail?) && NoneSaves(during)
    requires RunsTo(c, s, [end] + (during + [LoopSave(true)]), s')
    ensures s'.disk.applied == if end.LoopDone? then Some(s.loop.d.hash) else s.mem.common.appliedHash
  {
    assert ([end] + (during + [LoopSave(true)]))[1..] == during + [LoopSave(true)];
    var m := RunSplit(c, Step(c, s, end), during, [LoopSave(true)], s');
    SavingStays(c, Step(c, s, end), during, m);
  }

  predicate NonePersists(actions: seq<Action>, t: nat) {
    actions == [] || (actions[0] !in {ResetPersist(t, true), ResetPersist(t, false)} && !actions[0].Restart?
                      && NonePersists(actions[1..], t))
  }

  lemma {:induction false} ClearedStays(c: Codec, s: State, t: nat, actions: seq<Action>, s': State)
    requires t in s.resets && s.resets[t].Cleared? && NonePersists(actions, t) && RunsTo(c, s, actions, s')
    ensures t in s'.resets && s'.resets[t] == s.resets[t]
    decreases |actions|
  {
    if actions != [] { ClearedStays(c, Step(c, s, actions[0]), t, actions[1..], s'); }
  }

  /** And the completed save of a reset leaves none. */
  lemma ResetSaves(c: Codec, s: State, t: nat, during: seq<Action>, s': State)
    requires NonePersists(during, t) && RunsTo(c, s, [ResetClear(t)] + (during + [ResetPersist(t, true)]), s')
    ensures s'.disk.applied == None
  {
    assert ([ResetClear(t)] + (during + [ResetPersist(t, true)]))[1..] == during + [ResetPersist(t, true)];
    var m := RunSplit(c, Step(c, s, ResetClear(t)), during, [ResetPersist(t, true)], s');
    ClearedStays(c, Step(c, s, ResetClear(t)), t, during, m);
  }

  /** A reset clears the applied hash only after its wipe succeeded: one whose wipe failed leaves it. */
  lemma {:induction false} ClearFollowsWipe(c: Codec, s: State, t: nat, actions: seq<Action>, s': State)
    requires RunsTo(c, s, actions, s') && (t in s.resets ==> s.resets[t].Wiping?) && Enabled(c, s', ResetClear(t))
    ensures ResetWipe(t, true) in actions
    decreases |actions|
  {
    var a := actions[0];
    if a != ResetWipe(t, true) {
      ClearFollowsWipe(c, Step(c, s, a), t, actions[1..], s');
    }
  }

  /** The second case happens, whatever spec is being converged: the role itself reports "ready"
      while it runs (keepalived.go:499, dnsdist.go:424). */
  lemma RestoredReportsInSync(c: Codec, raw: Bytes, plan: Json.Spec) returns (s: State)
    requires Acceptable(c, raw)
    ensures Reachable(c, s) && ReportsInSync(c, s, plan)
    ensures s.loop.Running? && s.loop.d.raw == raw && !s.hist.origin.Converged?
  {
    var disk := Disk(Some(raw), Some(c.digest(Json.PyCanonical(plan))));
    var s2 := FirstRead(c, disk);
    assert s2.mem.common.appliedHash == disk.applied;
    s := Step(c, s2, LoopReport(Ready));
    assert RunsTo(c, s, [], s);
    RunStep(c, s2, LoopReport(Ready), [], s);
    RunJoin(c, Boot(c, disk), [LoopLock, LoopRead], s2, [LoopReport(Ready)], s);
  }
}
