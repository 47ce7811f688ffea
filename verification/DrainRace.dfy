/** Drain calls that overlap a converge of the same spec, and each other (keepalived/keepalived.go
    SetDrained and reapplyDrains): every ipvsadm command, every hold of the role's mutex and every
    write of drained.json is one step, and may fail. */
module DrainRace {
  import opened Options
  import opened Drains
  import DrainFailures

  /** A converge: resting, keepalived just restarted, or with the slots of its snapshot still to be
      set to 0. */
  datatype Phase = Resting | Restarted | Reapplying(pending: seq<Slot>)

  /** A SetDrained call: with slots still to edit, or the name marked and the names to be written. */
  datatype Call = Editing(b: Backend, drain: bool, left: set<Slot>) | Writing(names: set<string>)

  /** file: what drained.json names. last: whether the last command on a slot set it to 0 for a drain,
      or to its backend's weight. */
  datatype State = State(kernel: Kernel, drained: set<string>, file: set<string>, phase: Phase,
                         calls: map<nat, Call>, last: map<Slot, bool>)

  /** What is carried out, with what a trace of it would show. */
  datatype Action =
    | Program
    | Snapshot(order: seq<Slot>)
    | Reapply(slot: Slot)
    | Forget(name: string)
    | Finish
    | Fail
    | Begin(t: nat, b: Backend, drain: bool)
    | Edit(t: nat, slot: Slot, drain: bool)
    | Abort(t: nat)
    | Mark(t: nat, name: string, drain: bool, names: set<string>)
    | Write(t: nat, names: set<string>)
    | WriteFails(t: nat)

  function SlotsOfBackend(v: Ipvs, b: Backend): set<Slot> {
    set port, protocol | port in v.ports && protocol in v.protocols :: Slot(v.vip, port, protocol, b.at)
  }

  predicate IsOf(v: Ipvs, b: Backend, slot: Slot) { b in v.backends && slot in SlotsOfBackend(v, b) }

  ghost predicate OfDrained(v: Ipvs, drained: set<string>, slot: Slot) {
    exists b :: IsOf(v, b, slot) && b.name in drained
  }

  predicate Edits(s: State, t: nat) { t in s.calls && s.calls[t].Editing? }

  ghost predicate Enabled(v: Ipvs, s: State, a: Action) {
    match a
    case Program => s.phase.Resting?
    case Snapshot(order) =>
      !s.phase.Reapplying? && forall slot :: slot in order <==> OfDrained(v, s.drained, slot)
    case Reapply(slot) =>
      s.phase.Reapplying? && s.phase.pending != [] && s.phase.pending[0] == slot && slot in s.kernel
    case Forget(name) => s.phase.Reapplying? && name !in Names(v)
    case Finish => s.phase == Reapplying([])
    case Fail => !s.phase.Resting?
    case Begin(t, b, _) => t !in s.calls && b in v.backends
    case Edit(t, slot, drain) =>
      Edits(s, t) && slot in s.calls[t].left && s.calls[t].drain == drain && slot in s.kernel
    case Abort(t) => Edits(s, t)
    case Mark(t, name, drain, names) =>
      && Edits(s, t) && s.calls[t].left == {} && s.calls[t].b.name == name && s.calls[t].drain == drain
      && names == Marked(s.drained, name, drain)
    case Write(t, names) => t in s.calls && s.calls[t] == Writing(names)
    case WriteFails(t) => t in s.calls && s.calls[t].Writing?
  }

  function Edited(s: State, slot: Slot, weight: nat, zero: bool): State {
    s.(kernel := s.kernel[slot := weight], last := s.last[slot := zero])
  }

  function EditOne(s: State, t: nat, slot: Slot): State
    requires Edits(s, t)
  {
    var call := s.calls[t];
    var s' := Edited(s, slot, SpecWeight(call.b, call.drain), call.drain);
    s'.(calls := s.calls[t := call.(left := call.left - {slot})])
  }

  ghost function Step(spec: Spec, s: State, a: Action): State
    requires IPVSOn(spec) && Enabled(spec.ipvs.value, s, a)
  {
    var v := spec.ipvs.value;
    match a
    case Program =>
      var kernel := Programmed(Render(spec));
      s.(kernel := kernel, phase := Restarted, last := map slot | slot in kernel :: false)
    case Snapshot(order) => s.(phase := Reapplying(order))
    case Reapply(slot) => Edited(s, slot, 0, true).(phase := Reapplying(s.phase.pending[1..]))
    case Forget(name) => s.(drained := s.drained - {name})
    case Finish => s.(phase := Resting)
    case Fail => s.(phase := Resting)
    case Begin(t, b, drain) => s.(calls := s.calls[t := Editing(b, drain, SlotsOfBackend(v, b))])
    case Edit(t, slot, _) => EditOne(s, t, slot)
    case Abort(t) => s.(calls := s.calls - {t})
    case Mark(t, name, drain, names) => s.(drained := names, calls := s.calls[t := Writing(names)])
    case Write(t, names) => s.(file := names, calls := s.calls - {t})
    case WriteFails(t) => s.(calls := s.calls - {t})
  }

  // ------------------------------------------------- every weight is what the last command set

  predicate SlotAt(s: State, b: Backend, slot: Slot) {
    slot in s.kernel && slot in s.last && s.kernel[slot] == if s.last[slot] then 0 else b.weight
  }

  predicate CallFits(v: Ipvs, c: Call) { c.Editing? ==> c.b in v.backends && c.left <= SlotsOfBackend(v, c.b) }

  /** Every slot is there, at what the last command on it says; what is pending is of the table. */
  ghost predicate Consistent(v: Ipvs, s: State) {
    && (forall b, slot :: IsOf(v, b, slot) ==> SlotAt(s, b, slot))
    && (forall t :: t in s.calls ==> CallFits(v, s.calls[t]))
    && (s.phase.Reapplying? ==> forall slot :: slot in s.phase.pending ==> Owned(v, slot))
  }

  ghost predicate Owned(v: Ipvs, slot: Slot) { exists b :: IsOf(v, b, slot) }

  lemma OneOwner(v: Ipvs, b: Backend, c: Backend, slot: Slot)
    requires Fit(v) && IsOf(v, b, slot) && IsOf(v, c, slot)
    ensures b == c
  {
    BackendIs(v, b, c);
  }

  lemma ProgramConsistent(spec: Spec, s: State)
    requires IPVSOn(spec) && SpecFits(spec) && Consistent(spec.ipvs.value, s) && s.phase.Resting?
    ensures Consistent(spec.ipvs.value, Step(spec, s, Program))
  {
    var v, s' := spec.ipvs.value, Step(spec, s, Program);
    forall b, slot | IsOf(v, b, slot) ensures SlotAt(s', b, slot) {
      assert slot == SlotOf(v, slot.port, slot.protocol, b);
      ProgrammedWeighs(spec, b, slot.port, slot.protocol);
    }
  }

  lemma EditConsistent(v: Ipvs, s: State, b: Backend, slot: Slot, drain: bool)
    requires Fit(v) && Consistent(v, s) && IsOf(v, b, slot)
    ensures Consistent(v, Edited(s, slot, SpecWeight(b, drain), drain))
  {
    var s' := Edited(s, slot, SpecWeight(b, drain), drain);
    forall c, other | IsOf(v, c, other) ensures SlotAt(s', c, other) {
      assert SlotAt(s, c, other);
      if other == slot { OneOwner(v, b, c, slot); }
    }
  }

  lemma StepConsistent(spec: Spec, s: State, a: Action)
    requires IPVSOn(spec) && SpecFits(spec) && Enabled(spec.ipvs.value, s, a) && Consistent(spec.ipvs.value, s)
    ensures Consistent(spec.ipvs.value, Step(spec, s, a))
  {
    var v := spec.ipvs.value;
    match a
    case Program => ProgramConsistent(spec, s);
    case Snapshot(order) => assert forall slot :: slot in order ==> Owned(v, slot);
    case Reapply(slot) =>
      assert slot in s.phase.pending;
      var b :| IsOf(v, b, slot);
      EditConsistent(v, s, b, slot, true);
      assert forall other :: other in s.phase.pending[1..] ==> other in s.phase.pending;
    case Edit(t, slot, drain) =>
      assert CallFits(v, s.calls[t]);
      EditConsistent(v, s, s.calls[t].b, slot, drain);
    case _ =>
  }

  // ------------------------------------------------- runs and their traces

  ghost predicate RunsTo(spec: Spec, s: State, actions: seq<Action>, s': State)
    requires IPVSOn(spec)
    decreases |actions|
  {
    if actions == [] then s' == s
    else Enabled(spec.ipvs.value, s, actions[0]) && RunsTo(spec, Step(spec, s, actions[0]), actions[1..], s')
  }

  lemma {:induction false} RunConsistent(spec: Spec, s: State, actions: seq<Action>, s': State)
    requires IPVSOn(spec) && SpecFits(spec) && RunsTo(spec, s, actions, s') && Consistent(spec.ipvs.value, s)
    ensures Consistent(spec.ipvs.value, s')
    decreases |actions|
  {
    if actions != [] {
      StepConsistent(spec, s, actions[0]);
      RunConsistent(spec, Step(spec, s, actions[0]), actions[1..], s');
    }
  }

  /** The last command on the slot set it to 0; `before` if there is none. */
  function LastZeroes(actions: seq<Action>, slot: Slot, before: bool): bool
    decreases |actions|
  {
    if actions == [] then before
    else
      var now := match actions[0]
        case Program => false
        case Reapply(other) => if other == slot then true else before
        case Edit(_, other, drain) => if other == slot then drain else before
        case _ => before;
      LastZeroes(actions[1..], slot, now)
  }

  /** The last mark of the name drained it. */
  function LastMarks(actions: seq<Action>, name: string, before: bool): bool
    decreases |actions|
  {
    if actions == [] then before
    else
      var now := match actions[0]
        case Mark(_, other, drain, _) => if other == name then drain else before
        case _ => before;
      LastMarks(actions[1..], name, now)
  }

  function WasZeroed(s: State, slot: Slot): bool { slot in s.last && s.last[slot] }

  lemma {:induction false} TraceZeroes(spec: Spec, s: State, actions: seq<Action>, s': State, b: Backend, slot: Slot)
    requires IPVSOn(spec) && SpecFits(spec) && RunsTo(spec, s, actions, s') && Consistent(spec.ipvs.value, s)
    requires IsOf(spec.ipvs.value, b, slot)
    ensures WasZeroed(s', slot) == LastZeroes(actions, slot, WasZeroed(s, slot))
    decreases |actions|
  {
    if actions != [] {
      StepConsistent(spec, s, actions[0]);
      TraceZeroes(spec, Step(spec, s, actions[0]), actions[1..], s', b, slot);
    }
  }

  lemma {:induction false} TraceMarks(spec: Spec, s: State, actions: seq<Action>, s': State, name: string)
    requires IPVSOn(spec) && RunsTo(spec, s, actions, s') && name in Names(spec.ipvs.value)
    ensures (name in s'.drained) == LastMarks(actions, name, name in s.drained)
    decreases |actions|
  {
    if actions != [] { TraceMarks(spec, Step(spec, s, actions[0]), actions[1..], s', name); }
  }

  // ------------------------------------------------- when the weights are right

  lemma RightIffAgree(v: Ipvs, s: State)
    requires Consistent(v, s)
    ensures Right(s.kernel, v, s.drained) <==>
              forall b, slot | IsOf(v, b, slot) :: b.weight == 0 || WasZeroed(s, slot) == (b.name in s.drained)
  {
    forall b, slot | IsOf(v, b, slot)
      ensures slot in s.kernel
      ensures (b.weight == 0 || WasZeroed(s, slot) == (b.name in s.drained)) <==>
                s.kernel[slot] == if b.name in s.drained then 0 else b.weight
    {
      assert SlotAt(s, b, slot);
    }
    if Right(s.kernel, v, s.drained) {
      forall b, slot | IsOf(v, b, slot) ensures b.weight == 0 || WasZeroed(s, slot) == (b.name in s.drained) {
        assert slot == Slot(v.vip, slot.port, slot.protocol, b.at);
      }
    }
    if forall b, slot | IsOf(v, b, slot) :: b.weight == 0 || WasZeroed(s, slot) == (b.name in s.drained) {
      forall b, port, protocol | b in v.backends && port in v.ports && protocol in v.protocols
        ensures var slot := Slot(v.vip, port, protocol, b.at);
                slot in s.kernel && s.kernel[slot] == if b.name in s.drained then 0 else b.weight
      {
        assert IsOf(v, b, Slot(v.vip, port, protocol, b.at));
      }
    }
  }

  /** The last command on the slot and the last mark of its backend say the same. */
  predicate TraceAgrees(s: State, actions: seq<Action>, b: Backend, slot: Slot) {
    LastZeroes(actions, slot, WasZeroed(s, slot)) == LastMarks(actions, b.name, b.name in s.drained)
  }

  /** Any number of drain calls and converges, overlapping and failing in any way: at every moment the
      weights are right exactly when on every slot of a backend that weighs anything the last command
      and the last mark of the backend's name agree. */
  lemma OverlapRightIff(spec: Spec, s: State, actions: seq<Action>, s': State)
    requires IPVSOn(spec) && SpecFits(spec) && RunsTo(spec, s, actions, s') && Consistent(spec.ipvs.value, s)
    ensures Right(s'.kernel, spec.ipvs.value, s'.drained) <==>
              forall b, slot | IsOf(spec.ipvs.value, b, slot) :: b.weight == 0 || TraceAgrees(s, actions, b, slot)
  {
    var v := spec.ipvs.value;
    RunConsistent(spec, s, actions, s');
    RightIffAgree(v, s');
    forall b, slot | IsOf(v, b, slot)
      ensures (WasZeroed(s', slot) == (b.name in s'.drained)) <==> TraceAgrees(s, actions, b, slot)
    {
      TraceZeroes(spec, s, actions, s', b, slot);
      TraceMarks(spec, s, actions, s', b.name);
    }
  }

  /** Where the invariant of operations one at a time leaves off. */
  ghost function StartOf(n: Node, v: Ipvs): State {
    var last := map slot | slot in n.kernel :: OfDrained(v, n.drained, slot);
    State(n.kernel, n.drained, n.persisted, Resting, map[], last)
  }

  lemma InvStarts(n: Node, spec: Spec)
    requires IPVSOn(spec) && Inv(n, spec)
    ensures Consistent(spec.ipvs.value, StartOf(n, spec.ipvs.value))
    ensures Right(StartOf(n, spec.ipvs.value).kernel, spec.ipvs.value, StartOf(n, spec.ipvs.value).drained)
  {
    var v := spec.ipvs.value;
    var s := StartOf(n, v);
    forall b, slot | IsOf(v, b, slot) ensures SlotAt(s, b, slot) {
      assert slot == Slot(v.vip, slot.port, slot.protocol, b.at);
      if c :| IsOf(v, c, slot) && c.name in n.drained { OneOwner(v, b, c, slot); }
    }
  }

  // ------------------------------------------------- drain calls that do not overlap each other

  ghost predicate Lone(s: State) { forall t, u :: Edits(s, t) && Edits(s, u) ==> t == u }

  /** No two calls edit at once, and none gives up half-way. */
  ghost predicate LoneCalls(spec: Spec, s: State, actions: seq<Action>)
    requires IPVSOn(spec)
    decreases |actions|
  {
    && Lone(s)
    && (actions != [] && Enabled(spec.ipvs.value, s, actions[0]) ==>
          !actions[0].Abort? && LoneCalls(spec, Step(spec, s, actions[0]), actions[1..]))
  }

  predicate HasEdited(s: State, t: nat, b: Backend, slot: Slot) {
    Edits(s, t) && s.calls[t].b == b && slot !in s.calls[t].left
  }

  /** The slot is as the call that has edited it wants it, or else as the name is marked. */
  ghost predicate Follows(s: State, b: Backend, slot: Slot) {
    && (forall t :: HasEdited(s, t, b, slot) ==> WasZeroed(s, slot) == s.calls[t].drain)
    && ((forall t :: !HasEdited(s, t, b, slot)) ==> WasZeroed(s, slot) == (b.name in s.drained))
  }

  /** The last command on the slot was a drain call's. */
  function LastByCall(actions: seq<Action>, slot: Slot, before: bool): bool
    decreases |actions|
  {
    if actions == [] then before
    else
      var now := match actions[0]
        case Program => false
        case Reapply(other) => if other == slot then false else before
        case Edit(_, other, _) => if other == slot then true else before
        case _ => before;
      LastByCall(actions[1..], slot, now)
  }

  lemma EditFollows(v: Ipvs, s: State, t: nat, edited: Slot, b: Backend, slot: Slot)
    requires Fit(v) && Consistent(v, s) && Lone(s) && Edits(s, t) && edited in s.calls[t].left && IsOf(v, b, slot)
    requires edited == slot || Follows(s, b, slot)
    ensures Follows(EditOne(s, t, edited), b, slot)
  {
    var s' := EditOne(s, t, edited);
    assert CallFits(v, s.calls[t]);
    if edited == slot {
      OneOwner(v, b, s.calls[t].b, slot);
      assert HasEdited(s', t, b, slot);
      forall u | HasEdited(s', u, b, slot) ensures u == t { assert Edits(s, u); }
    } else {
      assert forall u :: HasEdited(s', u, b, slot) <==> HasEdited(s, u, b, slot);
    }
  }

  lemma MarkFollows(v: Ipvs, s: State, a: Action, s': State, b: Backend, slot: Slot)
    requires Fit(v) && Consistent(v, s) && Lone(s) && IsOf(v, b, slot) && Follows(s, b, slot)
    requires a.Mark? && Enabled(v, s, a) && s' == s.(drained := a.names, calls := s.calls[a.t := Writing(a.names)])
    ensures Follows(s', b, slot)
  {
    assert CallFits(v, s.calls[a.t]);
    if b.name == a.name {
      BackendIs(v, b, s.calls[a.t].b);
      assert HasEdited(s, a.t, b, slot);
    } else {
      assert forall u :: HasEdited(s', u, b, slot) <==> HasEdited(s, u, b, slot);
    }
  }

  lemma StepFollows(spec: Spec, s: State, a: Action, b: Backend, slot: Slot)
    requires IPVSOn(spec) && SpecFits(spec) && Enabled(spec.ipvs.value, s, a) && Consistent(spec.ipvs.value, s)
    requires Lone(s) && !a.Abort? && IsOf(spec.ipvs.value, b, slot)
    requires a.Program? || (a.Reapply? && a.slot == slot) || (a.Edit? && a.slot == slot) || Follows(s, b, slot)
    ensures a.Program? || (a.Reapply? && a.slot == slot) || Follows(Step(spec, s, a), b, slot)
  {
    var v, s' := spec.ipvs.value, Step(spec, s, a);
    if a.Edit? {
      EditFollows(v, s, a.t, a.slot, b, slot);
    } else if a.Mark? {
      MarkFollows(v, s, a, s', b, slot);
    } else if !a.Program? {
      assert forall u :: HasEdited(s', u, b, slot) <==> HasEdited(s, u, b, slot);
    }
  }

  lemma {:induction false} CallsFollow(spec: Spec, s: State, actions: seq<Action>, s': State, b: Backend, slot: Slot,
                                       byCall: bool)
    requires IPVSOn(spec) && SpecFits(spec) && RunsTo(spec, s, actions, s') && Consistent(spec.ipvs.value, s)
    requires LoneCalls(spec, s, actions) && IsOf(spec.ipvs.value, b, slot) && (byCall ==> Follows(s, b, slot))
    ensures LastByCall(actions, slot, byCall) ==> Follows(s', b, slot)
    decreases |actions|
  {
    if actions != [] {
      var a := actions[0];
      StepConsistent(spec, s, a);
      var now := match a
        case Program => false
        case Reapply(other) => if other == slot then false else byCall
        case Edit(_, other, _) => if other == slot then true else byCall
        case _ => byCall;
      if now { StepFollows(spec, s, a, b, slot); }
      CallsFollow(spec, Step(spec, s, a), actions[1..], s', b, slot, now);
    }
  }

  /** Drain calls one at a time beside converges, from right weights to the end of the last call: only
      the commands of a converge can leave a weight wrong, a restart after the name was marked drained
      or a re-application after it was marked otherwise. */
  lemma LoneCallsRightIff(spec: Spec, s: State, actions: seq<Action>, s': State)
    requires IPVSOn(spec) && SpecFits(spec) && RunsTo(spec, s, actions, s') && Consistent(spec.ipvs.value, s)
    requires LoneCalls(spec, s, actions) && (forall t :: !Edits(s, t)) && (forall t :: !Edits(s', t))
    requires Right(s.kernel, spec.ipvs.value, s.drained)
    ensures Right(s'.kernel, spec.ipvs.value, s'.drained) <==>
              forall b, slot | IsOf(spec.ipvs.value, b, slot) ::
                b.weight == 0 || LastByCall(actions, slot, true) || TraceAgrees(s, actions, b, slot)
  {
    var v := spec.ipvs.value;
    OverlapRightIff(spec, s, actions, s');
    RightIffAgree(v, s);
    forall b, slot | IsOf(v, b, slot) && b.weight != 0 && LastByCall(actions, slot, true)
      ensures TraceAgrees(s, actions, b, slot)
    {
      assert Follows(s, b, slot);
      CallsFollow(spec, s, actions, s', b, slot, true);
      TraceZeroes(spec, s, actions, s', b, slot);
      TraceMarks(spec, s, actions, s', b.name);
    }
  }

  // ------------------------------------------------- drained.json

  function LastWritten(actions: seq<Action>, before: set<string>): set<string>
    decreases |actions|
  {
    if actions == [] then before
    else LastWritten(actions[1..], if actions[0].Write? then actions[0].names else before)
  }

  function LastMarked(actions: seq<Action>, before: set<string>): set<string>
    decreases |actions|
  {
    if actions == [] then before
    else LastMarked(actions[1..], if actions[0].Mark? then actions[0].names else before)
  }

  predicate SameNames(v: Ipvs, a: set<string>, b: set<string>) { a * Names(v) == b * Names(v) }

  lemma StepNames(spec: Spec, s: State, a: Action, marked: set<string>)
    requires IPVSOn(spec) && Enabled(spec.ipvs.value, s, a) && SameNames(spec.ipvs.value, s.drained, marked)
    ensures SameNames(spec.ipvs.value, Step(spec, s, a).drained, if a.Mark? then a.names else marked)
  {
    if a.Forget? { assert (s.drained - {a.name}) * Names(spec.ipvs.value) == s.drained * Names(spec.ipvs.value); }
  }

  lemma {:induction false} TraceNames(spec: Spec, s: State, actions: seq<Action>, s': State, marked: set<string>)
    requires IPVSOn(spec) && RunsTo(spec, s, actions, s') && SameNames(spec.ipvs.value, s.drained, marked)
    ensures s'.file == LastWritten(actions, s.file)
    ensures SameNames(spec.ipvs.value, s'.drained, LastMarked(actions, marked))
    decreases |actions|
  {
    if actions != [] {
      StepNames(spec, s, actions[0], marked);
      var now := if actions[0].Mark? then actions[0].names else marked;
      TraceNames(spec, Step(spec, s, actions[0]), actions[1..], s', now);
    }
  }

  /** Names the spec does not know are only ever forgotten. */
  lemma {:induction false} UnknownForgotten(spec: Spec, s: State, actions: seq<Action>, s': State, name: string)
    requires IPVSOn(spec) && SpecFits(spec) && RunsTo(spec, s, actions, s') && Consistent(spec.ipvs.value, s)
    requires name !in Names(spec.ipvs.value) && name in s'.drained
    ensures name in s.drained
    decreases |actions|
  {
    if actions != [] {
      StepConsistent(spec, s, actions[0]);
      UnknownForgotten(spec, Step(spec, s, actions[0]), actions[1..], s', name);
      if actions[0].Mark? { assert CallFits(spec.ipvs.value, s.calls[actions[0].t]); }
    }
  }

  /** After calls overlapping in any way the file and the memory name the same of the spec's backends
      exactly when the last file write and the last mark were of the same ones. */
  lemma FileAgreesIff(spec: Spec, s: State, actions: seq<Action>, s': State)
    requires IPVSOn(spec) && RunsTo(spec, s, actions, s')
    ensures SameNames(spec.ipvs.value, s'.file, s'.drained) <==>
              SameNames(spec.ipvs.value, LastWritten(actions, s.file), LastMarked(actions, s.drained))
  {
    TraceNames(spec, s, actions, s', s.drained);
  }

  /** At most one call is under way, its write included, and no write fails. */
  ghost predicate SerialCalls(spec: Spec, s: State, actions: seq<Action>)
    requires IPVSOn(spec)
    decreases |actions|
  {
    && (forall t, u :: t in s.calls && u in s.calls ==> t == u)
    && (actions != [] && Enabled(spec.ipvs.value, s, actions[0]) ==>
          !actions[0].WriteFails? && SerialCalls(spec, Step(spec, s, actions[0]), actions[1..]))
  }

  /** The file names what is marked, or will when the call under way has written. */
  predicate FileFollows(v: Ipvs, s: State) {
    && (forall t :: t in s.calls && s.calls[t].Writing? ==> SameNames(v, s.calls[t].names, s.drained))
    && ((forall t :: t in s.calls ==> s.calls[t].Editing?) ==> SameNames(v, s.file, s.drained))
  }

  lemma StepFile(spec: Spec, s: State, a: Action)
    requires IPVSOn(spec) && Enabled(spec.ipvs.value, s, a) && !a.WriteFails? && FileFollows(spec.ipvs.value, s)
    requires forall t, u :: t in s.calls && u in s.calls ==> t == u
    ensures FileFollows(spec.ipvs.value, Step(spec, s, a))
  {
    var v, s' := spec.ipvs.value, Step(spec, s, a);
    StepNames(spec, s, a, s.drained);
    if a.Mark? {
      assert s'.calls[a.t] == Writing(a.names);
    } else if (forall t :: t in s'.calls ==> s'.calls[t].Editing?) && !a.Write? {
      forall t | t in s.calls ensures s.calls[t].Editing? {
        assert t in s'.calls || a.Abort?;
      }
    }
  }

  /** With calls one at a time they agree whenever none is under way. */
  lemma {:induction false} SerialFileAgrees(spec: Spec, s: State, actions: seq<Action>, s': State)
    requires IPVSOn(spec) && RunsTo(spec, s, actions, s') && SerialCalls(spec, s, actions)
    requires FileFollows(spec.ipvs.value, s)
    ensures s'.calls == map[] ==> SameNames(spec.ipvs.value, s'.file, s'.drained)
    decreases |actions|
  {
    if actions != [] {
      StepFile(spec, s, actions[0]);
      SerialFileAgrees(spec, Step(spec, s, actions[0]), actions[1..], s');
    }
  }

  // ------------------------------------------------- nothing overlaps a converge

  predicate Quiet(a: Action) {
    a.Program? || a.Snapshot? || a.Reapply? || a.Forget? || a.Finish?
  }

  /** What the snapshot holds is still drained. */
  ghost predicate PendingDrained(v: Ipvs, s: State) {
    s.phase.Reapplying? ==> forall slot :: slot in s.phase.pending ==> OfDrained(v, s.drained, slot)
  }

  /** The slot is as marked, or drained and still to be set to 0 by this converge. */
  predicate SoonRight(s: State, b: Backend, slot: Slot) {
    || WasZeroed(s, slot) == (b.name in s.drained)
    || (b.name in s.drained && (s.phase.Restarted? || (s.phase.Reapplying? && slot in s.phase.pending)))
  }

  ghost predicate OnlyPendingWrong(v: Ipvs, s: State) { forall b, slot | IsOf(v, b, slot) :: SoonRight(s, b, slot) }

  lemma ReapplySoonRight(v: Ipvs, s: State, s': State, b: Backend, slot: Slot, edited: Slot)
    requires Fit(v) && Consistent(v, s) && PendingDrained(v, s) && Enabled(v, s, Reapply(edited))
    requires s' == Edited(s, edited, 0, true).(phase := Reapplying(s.phase.pending[1..]))
    requires IsOf(v, b, slot) && SoonRight(s, b, slot)
    ensures SoonRight(s', b, slot)
  {
    assert forall x :: x in s.phase.pending ==> x == edited || x in s.phase.pending[1..];
    if edited == slot {
      assert edited in s.phase.pending;
      var c :| IsOf(v, c, slot) && c.name in s.drained;
      OneOwner(v, b, c, slot);
    }
  }

  lemma ForgetKeeps(v: Ipvs, s: State, name: string, b: Backend, slot: Slot)
    requires name !in Names(v) && IsOf(v, b, slot)
    ensures b.name in s.drained - {name} <==> b.name in s.drained
  {
  }

  lemma QuietStep(spec: Spec, s: State, a: Action)
    requires IPVSOn(spec) && SpecFits(spec) && Enabled(spec.ipvs.value, s, a) && Quiet(a)
    requires Consistent(spec.ipvs.value, s)
    requires PendingDrained(spec.ipvs.value, s) && OnlyPendingWrong(spec.ipvs.value, s)
    ensures OnlyPendingWrong(spec.ipvs.value, Step(spec, s, a))
  {
    var v, s' := spec.ipvs.value, Step(spec, s, a);
    StepConsistent(spec, s, a);
    forall b, slot | IsOf(v, b, slot) ensures SoonRight(s', b, slot) {
      assert SoonRight(s, b, slot) && SlotAt(s', b, slot);
      match a
      case Reapply(edited) => ReapplySoonRight(v, s, s', b, slot, edited);
      case Forget(name) => ForgetKeeps(v, s, name, b, slot);
      case Snapshot(order) => if b.name in s.drained { assert OfDrained(v, s.drained, slot); }
      case _ =>
    }
  }

  lemma QuietPending(spec: Spec, s: State, a: Action)
    requires IPVSOn(spec) && Enabled(spec.ipvs.value, s, a) && Quiet(a) && PendingDrained(spec.ipvs.value, s)
    ensures PendingDrained(spec.ipvs.value, Step(spec, s, a))
  {
    var v, s' := spec.ipvs.value, Step(spec, s, a);
    match a
    case Reapply(_) => assert forall slot :: slot in s.phase.pending[1..] ==> slot in s.phase.pending;
    case Forget(name) =>
      forall slot | slot in s.phase.pending ensures OfDrained(v, s'.drained, slot) {
        var b :| IsOf(v, b, slot) && b.name in s.drained;
        ForgetKeeps(v, s, name, b, slot);
      }
    case _ =>
  }

  /** Converges of the spec, one after another, with no step of a drain call in between and none that
      fails: whenever they rest, the weights are right. */
  lemma {:induction false} QuietRunRight(spec: Spec, s: State, actions: seq<Action>, s': State)
    requires IPVSOn(spec) && SpecFits(spec) && RunsTo(spec, s, actions, s') && Consistent(spec.ipvs.value, s)
    requires forall i :: 0 <= i < |actions| ==> Quiet(actions[i])
    requires PendingDrained(spec.ipvs.value, s) && OnlyPendingWrong(spec.ipvs.value, s)
    ensures s'.phase.Resting? ==> Right(s'.kernel, spec.ipvs.value, s'.drained)
    decreases |actions|
  {
    var v := spec.ipvs.value;
    if actions == [] {
      if s.phase.Resting? {
        RightIffAgree(v, s);
        forall b, slot | IsOf(v, b, slot) ensures WasZeroed(s, slot) == (b.name in s.drained) {
          assert SoonRight(s, b, slot);
        }
      }
    } else {
      assert Quiet(actions[0]);
      QuietStep(spec, s, actions[0]);
      QuietPending(spec, s, actions[0]);
      StepConsistent(spec, s, actions[0]);
      assert forall i :: 0 <= i < |actions[1..]| ==> actions[1..][i] == actions[i + 1];
      QuietRunRight(spec, Step(spec, s, actions[0]), actions[1..], s');
    }
  }

  // ------------------------------------------------- what the next converge mends

  /** The node that an overlapping run leaves, keepalived still running the spec's file. */
  predicate Leaves(s: State, spec: Spec, n: Node) {
    n.file == n.running == Some(Render(spec)) && n.kernel == s.kernel && n.drained == s.drained && n.persisted == s.file
  }

  lemma OthersRightIff(v: Ipvs, s: State)
    requires Consistent(v, s)
    ensures Complete(s.kernel, v)
    ensures OthersRight(s.kernel, v, s.drained) <==>
              forall b, slot | IsOf(v, b, slot) && b.weight != 0 && b.name !in s.drained :: !WasZeroed(s, slot)
  {
    forall b, port, protocol | b in v.backends && port in v.ports && protocol in v.protocols
      ensures SlotAt(s, b, SlotOf(v, port, protocol, b))
    {
      assert IsOf(v, b, SlotOf(v, port, protocol, b));
    }
    if OthersRight(s.kernel, v, s.drained) {
      forall b, slot | IsOf(v, b, slot) && b.weight != 0 && b.name !in s.drained ensures !WasZeroed(s, slot) {
        assert SlotAt(s, b, slot) && slot == SlotOf(v, slot.port, slot.protocol, b);
      }
    }
    if forall b, slot | IsOf(v, b, slot) && b.weight != 0 && b.name !in s.drained :: !WasZeroed(s, slot) {
      forall b, port, protocol | b in v.backends && port in v.ports && protocol in v.protocols && b.name !in s.drained
        ensures s.kernel[SlotOf(v, port, protocol, b)] == b.weight
      {
        assert IsOf(v, b, SlotOf(v, port, protocol, b)) && SlotAt(s, b, SlotOf(v, port, protocol, b));
      }
    }
  }

  /** The next converge of the spec mends a lost drain, and mends no lost undrain: it leaves the weights
      right exactly when the last command on no slot of an undrained backend set it to 0. */
  lemma NextConvergeMendsIff(spec: Spec, s: State, actions: seq<Action>, s': State, n: Node)
    requires IPVSOn(spec) && SpecFits(spec) && RunsTo(spec, s, actions, s') && Consistent(spec.ipvs.value, s)
    requires Leaves(s', spec, n)
    ensures Right(Converged(n, spec).kernel, spec.ipvs.value, Converged(n, spec).drained) <==>
              forall b, slot | IsOf(spec.ipvs.value, b, slot) && b.weight != 0 ::
                LastMarks(actions, b.name, b.name in s.drained) || !LastZeroes(actions, slot, WasZeroed(s, slot))
  {
    var v := spec.ipvs.value;
    RunConsistent(spec, s, actions, s');
    OthersRightIff(v, s');
    ZeroedRightIff(s'.kernel, v, s'.drained);
    forall b, slot | IsOf(v, b, slot)
      ensures WasZeroed(s', slot) == LastZeroes(actions, slot, WasZeroed(s, slot))
      ensures (b.name in s'.drained) == LastMarks(actions, b.name, b.name in s.drained)
    {
      TraceZeroes(spec, s, actions, s', b, slot);
      TraceMarks(spec, s, actions, s', b.name);
    }
  }

  /** However often the converge is repeated, a backend set to 0 with nothing drained stays there. */
  lemma {:induction false} LostUndrainStays(n: Node, spec: Spec, b: Backend, slot: Slot, times: nat)
    requires IPVSOn(spec) && IsOf(spec.ipvs.value, b, slot) && b.weight != 0 && b.name !in n.drained
    requires n.running.Some? && n.file == Some(Render(spec)) && slot in n.kernel && n.kernel[slot] == 0
    ensures var n' := DrainFailures.ConvergedTimes(n, spec, times);
            && b.name !in n'.drained && slot in n'.kernel && n'.kernel[slot] == 0
            && !Right(n'.kernel, spec.ipvs.value, n'.drained)
    decreases times
  {
    if times > 0 {
      LostUndrainStays(Converged(n, spec), spec, b, slot, times - 1);
    } else {
      assert slot == Slot(spec.ipvs.value.vip, slot.port, slot.protocol, b.at);
    }
  }

  // ------------------------------------------------- three ways it goes wrong

  const SLOT := Slot("10.0.0.53", 53, Udp, A)
  const BACKEND := Backend("a", A, 1)

  /** The only slot is at 0, or at its backend's weight, by its last command. */
  function One(zero: bool, drained: set<string>, file: set<string>, phase: Phase, calls: map<nat, Call>): State {
    State(map[SLOT := SpecWeight(BACKEND, zero)], drained, file, phase, calls, map[SLOT := zero])
  }

  lemma SoloSlots()
    ensures IPVSOn(Solo("a")) && SpecFits(Solo("a"))
    ensures forall b, slot :: IsOf(Solo("a").ipvs.value, b, slot) <==> b == BACKEND && slot == SLOT
    ensures SlotsOfBackend(Solo("a").ipvs.value, BACKEND) == {SLOT}
    ensures Programmed(Render(Solo("a"))) == map[SLOT := 1]
  {
    var v := Solo("a").ipvs.value;
    assert v.backends[0] == BACKEND && 53 in v.ports && Udp in v.protocols;
    assert SlotsOfBackend(v, BACKEND) == {SLOT};
    ProgrammedWeighs(Solo("a"), BACKEND, 53, Udp);
    assert SlotsOf(Render(Solo("a")).servers.value) == {SLOT};
  }

  lemma SoloOn()
    ensures IPVSOn(Solo("a"))
  {
  }

  lemma SoloRight(weight: nat, drained: set<string>)
    ensures Right(map[SLOT := weight], Solo("a").ipvs.value, drained) <==> weight == if "a" in drained then 0 else 1
  {
    var v := Solo("a").ipvs.value;
    assert v.backends[0] == BACKEND && 53 in v.ports && Udp in v.protocols;
  }

  /** A weight or phase moves, the calls as before. */
  lemma CommandOnOne(zero: bool, drained: set<string>, file: set<string>, phase: Phase, calls: map<nat, Call>,
                     now: bool)
    ensures Edited(One(zero, drained, file, phase, calls), SLOT, SpecWeight(BACKEND, now), now)
            == One(now, drained, file, phase, calls)
  {
    var s := One(zero, drained, file, phase, calls);
    assert s.kernel[SLOT := SpecWeight(BACKEND, now)] == map[SLOT := SpecWeight(BACKEND, now)];
    assert s.last[SLOT := now] == map[SLOT := now];
  }

  lemma BeginOne(s: State, t: nat, drain: bool)
    requires t !in s.calls && IPVSOn(Solo("a"))
    ensures Enabled(Solo("a").ipvs.value, s, Begin(t, BACKEND, drain))
    ensures Step(Solo("a"), s, Begin(t, BACKEND, drain)) == s.(calls := s.calls[t := Editing(BACKEND, drain, {SLOT})])
  {
    SoloSlots();
    assert IsOf(Solo("a").ipvs.value, BACKEND, SLOT);
  }

  lemma EditOfOne(zero: bool, drained: set<string>, file: set<string>, phase: Phase, calls: map<nat, Call>, t: nat,
                  drain: bool)
    requires t in calls && calls[t] == Editing(BACKEND, drain, {SLOT}) && IPVSOn(Solo("a"))
    ensures var s := One(zero, drained, file, phase, calls);
            && Enabled(Solo("a").ipvs.value, s, Edit(t, SLOT, drain))
            && Step(Solo("a"), s, Edit(t, SLOT, drain))
               == One(drain, drained, file, phase, calls[t := Editing(BACKEND, drain, {})])
  {
    CommandOnOne(zero, drained, file, phase, calls, drain);
    assert {SLOT} - {SLOT} == {};
  }

  lemma MarkOfOne(s: State, t: nat, drain: bool)
    requires t in s.calls && s.calls[t] == Editing(BACKEND, drain, {}) && IPVSOn(Solo("a"))
    ensures var names := Marked(s.drained, "a", drain);
            && Enabled(Solo("a").ipvs.value, s, Mark(t, "a", drain, names))
            && Step(Solo("a"), s, Mark(t, "a", drain, names))
               == s.(drained := names, calls := s.calls[t := Writing(names)])
  {
  }

  lemma RunStep(spec: Spec, s: State, a: Action, rest: seq<Action>, s': State)
    requires IPVSOn(spec) && Enabled(spec.ipvs.value, s, a) && RunsTo(spec, Step(spec, s, a), rest, s')
    ensures RunsTo(spec, s, [a] + rest, s')
  {
    assert ([a] + rest)[1..] == rest;
  }

  /** Call 0 set to c, from nothing or from another stage, and ended. */
  lemma CallMaps(c: Call, d: Call)
    ensures map[][0 := c] == map[0 := c] && map[0 := c][0 := d] == map[0 := d] && map[0 := c] - {0} == map[]
  {
  }

  /** A call alone begins and edits. */
  lemma OpenThen(zero: bool, drained: set<string>, phase: Phase, drain: bool, rest: seq<Action>, s': State)
    requires IPVSOn(Solo("a"))
    requires RunsTo(Solo("a"), One(drain, drained, drained, phase, map[0 := Editing(BACKEND, drain, {})]), rest, s')
    ensures RunsTo(Solo("a"), One(zero, drained, drained, phase, map[]),
                   [Begin(0, BACKEND, drain)] + ([Edit(0, SLOT, drain)] + rest), s')
  {
    var begun, edited := Editing(BACKEND, drain, {SLOT}), Editing(BACKEND, drain, {});
    CallMaps(begun, edited);
    EditOfOne(zero, drained, drained, phase, map[0 := begun], 0, drain);
    RunStep(Solo("a"), One(zero, drained, drained, phase, map[0 := begun]), Edit(0, SLOT, drain), rest, s');
    BeginOne(One(zero, drained, drained, phase, map[]), 0, drain);
    RunStep(Solo("a"), One(zero, drained, drained, phase, map[]), Begin(0, BACKEND, drain),
            [Edit(0, SLOT, drain)] + rest, s');
  }

  /** And marks and writes. */
  lemma CloseThen(zero: bool, drained: set<string>, phase: Phase, drain: bool, names: set<string>, rest: seq<Action>,
                  s': State)
    requires IPVSOn(Solo("a")) && names == Marked(drained, "a", drain)
    requires RunsTo(Solo("a"), One(zero, names, names, phase, map[]), rest, s')
    ensures RunsTo(Solo("a"), One(zero, drained, drained, phase, map[0 := Editing(BACKEND, drain, {})]),
                   [Mark(0, "a", drain, names)] + ([Write(0, names)] + rest), s')
  {
    var edited := Editing(BACKEND, drain, {});
    CallMaps(edited, Writing(names));
    CallMaps(Writing(names), edited);
    RunStep(Solo("a"), One(zero, names, drained, phase, map[0 := Writing(names)]), Write(0, names), rest, s');
    MarkOfOne(One(zero, drained, drained, phase, map[0 := edited]), 0, drain);
    RunStep(Solo("a"), One(zero, drained, drained, phase, map[0 := edited]), Mark(0, "a", drain, names),
            [Write(0, names)] + rest, s');
  }

  lemma SnapshotSlot()
    requires IPVSOn(Solo("a"))
    ensures Enabled(Solo("a").ipvs.value, One(true, {"a"}, {"a"}, Resting, map[]), Snapshot([SLOT]))
  {
    SoloSlots();
    assert IsOf(Solo("a").ipvs.value, BACKEND, SLOT) && BACKEND.name in {"a"};
  }

  /** The snapshot still names a backend whose undrain then finishes: the re-application takes it out
      of service with nothing drained. */
  lemma UndrainedInSnapshot() returns (actions: seq<Action>)
    ensures actions == [Snapshot([SLOT])] + ([Begin(0, BACKEND, false)] + ([Edit(0, SLOT, false)]
                       + ([Mark(0, "a", false, {})] + ([Write(0, {})] + ([Reapply(SLOT)] + ([Finish] + []))))))
    ensures IPVSOn(Solo("a"))
    ensures Right(map[SLOT := 0], Solo("a").ipvs.value, {"a"}) && !Right(map[SLOT := 0], Solo("a").ipvs.value, {})
    ensures RunsTo(Solo("a"), One(true, {"a"}, {"a"}, Resting, map[]), actions, One(true, {}, {}, Resting, map[]))
  {
    SoloOn();
    SoloRight(0, {"a"});
    SoloRight(0, {});
    var spec, end := Solo("a"), One(true, {}, {}, Resting, map[]);
    assert Marked({"a"}, "a", false) == {};
    assert RunsTo(spec, end, [], end);
    var r1 := One(true, {}, {}, Reapplying([]), map[]);
    RunStep(spec, r1, Finish, [], end);
    var r0 := One(false, {}, {}, Reapplying([SLOT]), map[]);
    CommandOnOne(false, {}, {}, Reapplying([SLOT]), map[], true);
    assert [SLOT][1..] == [];
    RunStep(spec, r0, Reapply(SLOT), [Finish] + [], end);
    var call := [Begin(0, BACKEND, false)] + ([Edit(0, SLOT, false)]
                + ([Mark(0, "a", false, {})] + ([Write(0, {})] + ([Reapply(SLOT)] + ([Finish] + [])))));
    CloseThen(false, {"a"}, Reapplying([SLOT]), false, {}, [Reapply(SLOT)] + ([Finish] + []), end);
    OpenThen(true, {"a"}, Reapplying([SLOT]), false,
             [Mark(0, "a", false, {})] + ([Write(0, {})] + ([Reapply(SLOT)] + ([Finish] + []))), end);
    actions := [Snapshot([SLOT])] + call;
    var s0 := One(true, {"a"}, {"a"}, Resting, map[]);
    SnapshotSlot();
    RunStep(spec, s0, Snapshot([SLOT]), call, end);
  }

  lemma ProgramOne(calls: map<nat, Call>)
    requires IPVSOn(Solo("a"))
    ensures Step(Solo("a"), One(true, {}, {}, Resting, calls), Program) == One(false, {}, {}, Restarted, calls)
  {
    SoloSlots();
    assert (map slot | slot in Programmed(Render(Solo("a"))) :: false) == map[SLOT := false];
  }

  lemma SnapshotNone(calls: map<nat, Call>)
    requires IPVSOn(Solo("a"))
    ensures Enabled(Solo("a").ipvs.value, One(false, {}, {}, Restarted, calls), Snapshot([]))
  {
  }

  /** The drain's edit and mark with a restart in between. */
  lemma RestartThen(calls: map<nat, Call>, rest: seq<Action>, s': State)
    requires IPVSOn(Solo("a")) && RunsTo(Solo("a"), One(false, {}, {}, Resting, calls), rest, s')
    ensures RunsTo(Solo("a"), One(true, {}, {}, Resting, calls), [Program] + ([Snapshot([])] + ([Finish] + rest)), s')
  {
    var spec := Solo("a");
    RunStep(spec, One(false, {}, {}, Reapplying([]), calls), Finish, rest, s');
    SnapshotNone(calls);
    RunStep(spec, One(false, {}, {}, Restarted, calls), Snapshot([]), [Finish] + rest, s');
    ProgramOne(calls);
    RunStep(spec, One(true, {}, {}, Resting, calls), Program, [Snapshot([])] + ([Finish] + rest), s');
  }

  /** keepalived restarts between a drain's edit and its mark, so the converge does not know of it:
      the backend stays in service though it is drained. */
  lemma DrainedAcrossRestart() returns (actions: seq<Action>)
    ensures actions == [Begin(0, BACKEND, true)] + ([Edit(0, SLOT, true)] + ([Program] + ([Snapshot([])] + ([Finish]
                       + ([Mark(0, "a", true, {"a"})] + ([Write(0, {"a"})] + []))))))
    ensures IPVSOn(Solo("a"))
    ensures Right(map[SLOT := 1], Solo("a").ipvs.value, {}) && !Right(map[SLOT := 1], Solo("a").ipvs.value, {"a"})
    ensures RunsTo(Solo("a"), One(false, {}, {}, Resting, map[]), actions, One(false, {"a"}, {"a"}, Resting, map[]))
  {
    SoloOn();
    SoloRight(1, {});
    SoloRight(1, {"a"});
    var spec, end := Solo("a"), One(false, {"a"}, {"a"}, Resting, map[]);
    assert RunsTo(spec, end, [], end) && Marked({}, "a", true) == {"a"};
    var last := [Mark(0, "a", true, {"a"})] + ([Write(0, {"a"})] + []);
    CloseThen(false, {}, Resting, true, {"a"}, [], end);
    RestartThen(map[0 := Editing(BACKEND, true, {})], last, end);
    var more := [Program] + ([Snapshot([])] + ([Finish] + last));
    OpenThen(false, {}, Resting, true, more, end);
    actions := [Begin(0, BACKEND, true)] + ([Edit(0, SLOT, true)] + more);
  }

  /** Two calls, 0 and 1. */
  function Two(c: Call, d: Call): map<nat, Call> { map[0 := c, 1 := d] }

  lemma TwoMaps(c: Call, d: Call, e: Call)
    ensures map[][0 := c] == map[0 := c] && map[0 := c][1 := d] == Two(c, d)
    ensures Two(c, d)[0 := e] == Two(e, d) && Two(c, d)[1 := e] == Two(c, e)
    ensures Two(c, d) - {0} == map[1 := d] && map[1 := d] - {1} == map[]
  {
  }

  const DRAIN := Editing(BACKEND, true, {SLOT})
  const UNDRAIN := Editing(BACKEND, false, {SLOT})
  const DRAIN_EDITED := Editing(BACKEND, true, {})
  const UNDRAIN_EDITED := Editing(BACKEND, false, {})

  /** Both calls have edited, the drain first; they mark and write in the other orders. */
  lemma CrossedEnd() returns (actions: seq<Action>)
    requires IPVSOn(Solo("a"))
    ensures actions == [Mark(1, "a", false, {})] + ([Mark(0, "a", true, {"a"})]
                       + ([Write(0, {"a"})] + ([Write(1, {})] + [])))
    ensures RunsTo(Solo("a"), One(false, {}, {}, Resting, Two(DRAIN_EDITED, UNDRAIN_EDITED)), actions,
                   One(false, {"a"}, {}, Resting, map[]))
  {
    var spec, end := Solo("a"), One(false, {"a"}, {}, Resting, map[]);
    TwoMaps(DRAIN_EDITED, UNDRAIN_EDITED, Writing({}));
    TwoMaps(DRAIN_EDITED, Writing({}), Writing({"a"}));
    TwoMaps(Writing({"a"}), Writing({}), Writing({}));
    assert Marked({}, "a", false) == {} && Marked({}, "a", true) == {"a"};
    var s0 := One(false, {}, {}, Resting, Two(DRAIN_EDITED, UNDRAIN_EDITED));
    var s1 := One(false, {}, {}, Resting, Two(DRAIN_EDITED, Writing({})));
    var s2 := One(false, {"a"}, {}, Resting, Two(Writing({"a"}), Writing({})));
    var s3 := One(false, {"a"}, {"a"}, Resting, map[1 := Writing({})]);
    assert RunsTo(spec, end, [], end);
    RunStep(spec, s3, Write(1, {}), [], end);
    RunStep(spec, s2, Write(0, {"a"}), [Write(1, {})] + [], end);
    MarkOfOne(s1, 0, true);
    var writes := [Write(0, {"a"})] + ([Write(1, {})] + []);
    RunStep(spec, s1, Mark(0, "a", true, {"a"}), writes, end);
    MarkOfOne(s0, 1, false);
    RunStep(spec, s0, Mark(1, "a", false, {}), [Mark(0, "a", true, {"a"})] + writes, end);
    actions := [Mark(1, "a", false, {})] + ([Mark(0, "a", true, {"a"})] + writes);
  }

  /** A drain and an undrain at once, with no converge near: the backend ends marked drained and at its
      full weight, and drained.json does not name it. */
  lemma OverlappingCallsCross() returns (actions: seq<Action>)
    ensures actions == [Begin(0, BACKEND, true)] + ([Begin(1, BACKEND, false)] + ([Edit(0, SLOT, true)]
                       + ([Edit(1, SLOT, false)] + ([Mark(1, "a", false, {})] + ([Mark(0, "a", true, {"a"})]
                       + ([Write(0, {"a"})] + ([Write(1, {})] + [])))))))
    ensures IPVSOn(Solo("a"))
    ensures Right(map[SLOT := 1], Solo("a").ipvs.value, {}) && !Right(map[SLOT := 1], Solo("a").ipvs.value, {"a"})
    ensures RunsTo(Solo("a"), One(false, {}, {}, Resting, map[]), actions, One(false, {"a"}, {}, Resting, map[]))
  {
    SoloOn();
    SoloRight(1, {});
    SoloRight(1, {"a"});
    var spec, end := Solo("a"), One(false, {"a"}, {}, Resting, map[]);
    var ends := CrossedEnd();
    TwoMaps(DRAIN, UNDRAIN, DRAIN_EDITED);
    TwoMaps(DRAIN_EDITED, UNDRAIN, UNDRAIN_EDITED);
    EditOfOne(true, {}, {}, Resting, Two(DRAIN_EDITED, UNDRAIN), 1, false);
    RunStep(spec, One(true, {}, {}, Resting, Two(DRAIN_EDITED, UNDRAIN)), Edit(1, SLOT, false), ends, end);
    EditOfOne(false, {}, {}, Resting, Two(DRAIN, UNDRAIN), 0, true);
    var edits := [Edit(0, SLOT, true)] + ([Edit(1, SLOT, false)] + ends);
    RunStep(spec, One(false, {}, {}, Resting, Two(DRAIN, UNDRAIN)), Edit(0, SLOT, true),
            [Edit(1, SLOT, false)] + ends, end);
    BeginOne(One(false, {}, {}, Resting, map[0 := DRAIN]), 1, false);
    RunStep(spec, One(false, {}, {}, Resting, map[0 := DRAIN]), Begin(1, BACKEND, false), edits, end);
    BeginOne(One(false, {}, {}, Resting, map[]), 0, true);
    RunStep(spec, One(false, {}, {}, Resting, map[]), Begin(0, BACKEND, true), [Begin(1, BACKEND, false)] + edits, end);
    actions := [Begin(0, BACKEND, true)] + ([Begin(1, BACKEND, false)] + edits);
  }
}
