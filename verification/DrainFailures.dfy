/** Drains when a converge may fail (keepalived/keepalived.go Converge): what the next converge can
    still put right, and what it cannot. */
module DrainFailures {
  import opened Options
  import opened Drains

  // ------------------------------------------------- one converge from any state

  /** A converge that finds its own text in the file does not restart keepalived, so keepalived must
      run just that, with every backend in the table and at its weight unless drained. */
  predicate SafeToConverge(n: Node, s: Spec) {
    s.enabled && n.running.Some? && n.file == Some(Render(s)) ==>
      && n.running == n.file
      && (IPVSOn(s) ==> Complete(n.kernel, s.ipvs.value) && OthersRight(n.kernel, s.ipvs.value, n.drained))
  }

  lemma RightIsComplete(k: Kernel, v: Ipvs, drained: set<string>, zeroed: set<string>)
    requires Right(Zeroed(k, v, zeroed), v, drained)
    ensures Complete(k, v)
  {
    forall b, port, protocol | b in v.backends && port in v.ports && protocol in v.protocols
      ensures SlotOf(v, port, protocol, b) in k
    {
      assert SlotOf(v, port, protocol, b) in Zeroed(k, v, zeroed);
    }
  }

  lemma KeptRightIff(n: Node, s: Spec)
    requires IPVSOn(s) && SpecFits(s) && n.drained <= n.persisted && n.running.Some? && n.file == Some(Render(s))
    ensures Inv(Converged(n, s), s) <==> SafeToConverge(n, s)
  {
    var v := s.ipvs.value;
    if Complete(n.kernel, v) {
      ZeroedRightIff(n.kernel, v, n.drained);
    } else if Right(Zeroed(n.kernel, v, n.drained), v, n.drained * Names(v)) {
      RightIsComplete(n.kernel, v, n.drained * Names(v), n.drained);
    }
  }

  /** Whatever happened before, a successful converge leaves everything right exactly when this
      holds of the state it finds. */
  lemma ConvergeFromAnyIff(n: Node, s: Spec)
    requires SpecFits(s) && n.drained <= n.persisted
    ensures Inv(Converged(n, s), s) <==> SafeToConverge(n, s)
  {
    if IPVSOn(s) {
      if n.running.Some? && n.file == Some(Render(s)) {
        KeptRightIff(n, s);
      } else {
        AfreshIsRight(s, n.drained);
      }
    }
  }

  // ------------------------------------------------- a failed converge, then a successful one

  lemma StartedIsSafe(n: Node, s: Spec, s': Spec)
    requires SpecFits(s') && s.enabled
    ensures SafeToConverge(Failed(n, s, LeavesStarted), s')
  {
    var n' := Failed(n, s, LeavesStarted);
    if IPVSOn(s') && n'.file == Some(Render(s')) {
      var v := s'.ipvs.value;
      forall b, port, protocol | b in v.backends && port in v.ports && protocol in v.protocols
        ensures SlotOf(v, port, protocol, b) in n'.kernel && n'.kernel[SlotOf(v, port, protocol, b)] == b.weight
      {
        ProgrammedWeighs(s', b, port, protocol);
      }
    }
  }

  /** After a converge of `tried` failed in the given way, a converge of `next` that succeeds. */
  predicate Recovers(n: Node, s: Spec, tried: Spec, f: Failure, next: Spec) {
    match f
    case BeforeWrite => Harmless(n, s, Converge(next))
    case LeavesRunning =>
      s.enabled && next.enabled && Render(next) == Render(tried) ==>
        Render(s) == Render(tried) && Harmless(n, s, Converge(next))
    case LeavesDown => true
    case LeavesStarted => true
  }

  lemma SafeIsHarmless(n: Node, s: Spec, next: Spec)
    requires Inv(n, s) && SpecFits(next)
    ensures SafeToConverge(n, next) <==> Harmless(n, s, Converge(next))
  {
    ConvergeFromAnyIff(n, next);
    ConvergeRightIff(n, s, next);
  }

  /** The one failure a later success does not mend: the file was written, keepalived still runs
      the older one, and the next spec renders to what is in the file. */
  lemma RecoversIff(n: Node, s: Spec, tried: Spec, f: Failure, next: Spec)
    requires Inv(n, s) && SpecFits(tried) && tried.enabled && SpecFits(next)
    ensures Inv(Converged(Failed(n, tried, f), next), next) <==> Recovers(n, s, tried, f, next)
  {
    var n' := Failed(n, tried, f);
    ConvergeFromAnyIff(n', next);
    match f
    case BeforeWrite => SafeIsHarmless(n, s, next);
    case LeavesRunning =>
      if s.enabled && next.enabled && Render(next) == Render(tried) && Render(s) == Render(tried) {
        assert n' == n;
        SafeIsHarmless(n, s, next);
      }
    case LeavesDown =>
    case LeavesStarted => StartedIsSafe(n, tried, next);
  }

  function ConvergedTimes(n: Node, s: Spec, times: nat): Node
    decreases times
  {
    if times == 0 then n else ConvergedTimes(Converged(n, s), s, times - 1)
  }

  /** The manager retries the same spec for ever, each time with success, and keepalived never gets
      it: a failed restart is not made up for. */
  lemma {:induction false} RetriesNeverRestart(n: Node, s: Spec, times: nat)
    requires s.enabled && n.running.Some? && n.file == Some(Render(s)) && n.running != n.file
    ensures var n' := ConvergedTimes(n, s, times); n'.running == n.running && n'.file == n.file && !Inv(n', s)
    decreases times
  {
    if times > 0 { RetriesNeverRestart(Converged(n, s), s, times - 1); }
  }

  /** So it is after any failed restart of a changed file. */
  lemma FailedRestartStays(n: Node, s: Spec, tried: Spec, times: nat)
    requires Inv(n, s) && s.enabled && tried.enabled && Render(s) != Render(tried)
    ensures ConvergedTimes(Failed(n, tried, LeavesRunning), tried, times).running == Some(Render(s))
  {
    RetriesNeverRestart(Failed(n, tried, LeavesRunning), tried, times);
  }

  const DOUBLED := Spec(true, "", Some(Ipvs("10.0.0.53", [53], [Udp], "", [Backend("a", A, 2)])))

  /** A new weight whose restart failed does not arrive with the retry that succeeds. */
  lemma WeightNeverArrives(n: Node)
    requires Inv(n, Solo("a")) && n.drained == {}
    ensures var n' := Converged(Failed(n, DOUBLED, LeavesRunning), DOUBLED);
            var slot := Slot("10.0.0.53", 53, Udp, A);
            slot in n'.kernel && n'.kernel[slot] == 1 && !Right(n'.kernel, DOUBLED.ipvs.value, n'.drained)
  {
    var before, after := Solo("a").ipvs.value, DOUBLED.ipvs.value;
    assert before.backends[0] in before.backends && 53 in before.ports && Udp in before.protocols;
    assert after.backends[0] in after.backends && 53 in after.ports && Udp in after.protocols;
    var n' := Converged(Failed(n, DOUBLED, LeavesRunning), DOUBLED);
    assert n'.kernel == Zeroed(n.kernel, after, {});
    assert n'.drained == {};
  }

  // ------------------------------------------------- runs with failures

  datatype Event = Succeeds(a: Action) | Fails(spec: Spec, f: Failure)

  /** Every backend is in the table at its weight, or at 0 if drained: its drain may still have to be
      re-applied. */
  predicate AtWeights(k: Kernel, v: Ipvs, drained: set<string>) {
    forall b, port, protocol | b in v.backends && port in v.ports && protocol in v.protocols ::
      var slot := SlotOf(v, port, protocol, b);
      slot in k && (k[slot] == b.weight || (b.name in drained && k[slot] == 0))
  }

  /** keepalived runs the file, rendered from t. */
  predicate Loose(n: Node, t: Spec) {
    && SpecFits(t) && t.enabled && n.file == n.running == Some(Render(t))
    && (IPVSOn(t) ==> AtWeights(n.kernel, t.ipvs.value, n.drained))
  }

  /** settled: the last converge succeeded, and s is its spec; if it did not, s is the spec that
      keepalived was last started for. */
  predicate Holds(n: Node, s: Spec, settled: bool) {
    if settled then Inv(n, s) else n.drained <= n.persisted && (n.running.None? || Loose(n, s))
  }

  predicate EventEnabled(s: Spec, e: Event) {
    match e
    case Succeeds(a) => Enabled(s, a)
    case Fails(spec, _) => SpecFits(spec) && spec.enabled
  }

  /** A failure is mended by the next success unless it leaves keepalived running another file; and
      a keepalived that was started, or not even that, has nothing to lose. */
  predicate EventHarmless(n: Node, s: Spec, settled: bool, e: Event) {
    match e
    case Succeeds(a) =>
      if settled then Harmless(n, s, a)
      else a.Converge? && n.running.Some? && n.kernel != Programmed(Render(s)) ==> Harmless(n, s, a)
    case Fails(spec, f) => f.LeavesRunning? ==> n.running.None? || n.running == Some(Render(spec))
  }

  function EventStep(n: Node, s: Spec, e: Event): Node
    requires e.Succeeds? ==> Enabled(s, e.a)
  {
    match e
    case Succeeds(a) => Step(n, s, a)
    case Fails(spec, f) => Failed(n, spec, f)
  }

  function SpecAfter(s: Spec, e: Event): Spec {
    match e
    case Succeeds(a) => After(s, a)
    case Fails(spec, f) => if f.LeavesStarted? then spec else s
  }

  predicate SettledAfter(settled: bool, e: Event) {
    match e
    case Succeeds(a) => a.Converge? || settled
    case Fails(_, f) => settled && (f.BeforeWrite? || f.LeavesRunning?)
  }

  lemma StartedIsLoose(n: Node, spec: Spec)
    requires SpecFits(spec) && spec.enabled
    ensures Loose(Failed(n, spec, LeavesStarted), spec)
  {
    var n' := Failed(n, spec, LeavesStarted);
    if IPVSOn(spec) {
      var v := spec.ipvs.value;
      forall b, port, protocol | b in v.backends && port in v.ports && protocol in v.protocols
        ensures SlotOf(v, port, protocol, b) in n'.kernel && n'.kernel[SlotOf(v, port, protocol, b)] == b.weight
      {
        ProgrammedWeighs(spec, b, port, protocol);
      }
    }
  }

  lemma KeptNamesSafe(v: Ipvs, v': Ipvs, k: Kernel, drained: set<string>)
    requires v.vip == v'.vip && v.ports == v'.ports && v.protocols == v'.protocols && |v.backends| == |v'.backends|
    requires forall i :: 0 <= i < |v.backends| ==>
               v.backends[i].at == v'.backends[i].at && v.backends[i].weight == v'.backends[i].weight
    requires AtWeights(k, v, drained) && NamesKept(v, v', drained)
    ensures Complete(k, v') && OthersRight(k, v', drained)
  {
    forall b', port, protocol | b' in v'.backends && port in v'.ports && protocol in v'.protocols
      ensures SlotOf(v', port, protocol, b') in k
      ensures b'.name !in drained ==> k[SlotOf(v', port, protocol, b')] == b'.weight
    {
      var i :| 0 <= i < |v'.backends| && v'.backends[i] == b';
      var b := v.backends[i];
      assert b in v.backends && SlotOf(v', port, protocol, b') == SlotOf(v, port, protocol, b);
    }
  }

  lemma LooseIsSafe(n: Node, t: Spec, s: Spec)
    requires Loose(n, t) && SpecFits(s)
    requires n.kernel == Programmed(Render(t)) || Harmless(n, t, Converge(s))
    ensures SafeToConverge(n, s)
  {
    if n.kernel == Programmed(Render(t)) {
      assert Failed(n, t, LeavesStarted) == n;
      StartedIsSafe(n, t, s);
    } else if s.enabled && n.file == Some(Render(s)) && IPVSOn(s) {
      SameRender(t, s);
      KeptNamesSafe(t.ipvs.value, s.ipvs.value, n.kernel, n.drained);
    }
  }

  lemma DrainKeepsAtWeights(k: Kernel, v: Ipvs, drained: set<string>, b: Backend, drain: bool)
    requires Fit(v) && b in v.backends && AtWeights(k, v, drained)
    ensures AtWeights(Weighted(k, v, b.at, SpecWeight(b, drain)), v, Marked(drained, b.name, drain))
  {
    var k' := Weighted(k, v, b.at, SpecWeight(b, drain));
    forall c, port, protocol | c in v.backends && port in v.ports && protocol in v.protocols
      ensures var slot := SlotOf(v, port, protocol, c);
              slot in k' && (k'[slot] == c.weight || (c.name in Marked(drained, b.name, drain) && k'[slot] == 0))
    {
      if c.at == b.at || c.name == b.name { BackendIs(v, b, c); }
    }
  }

  lemma FailureHolds(n: Node, s: Spec, settled: bool, spec: Spec, f: Failure)
    requires Holds(n, s, settled) && EventEnabled(s, Fails(spec, f)) && EventHarmless(n, s, settled, Fails(spec, f))
    ensures Holds(Failed(n, spec, f), SpecAfter(s, Fails(spec, f)), SettledAfter(settled, Fails(spec, f)))
  {
    match f
    case BeforeWrite =>
    case LeavesRunning => if n.running.Some? { assert Failed(n, spec, f) == n; }
    case LeavesDown =>
    case LeavesStarted => StartedIsLoose(n, spec);
  }

  lemma UnsettledHolds(n: Node, s: Spec, a: Action)
    requires Holds(n, s, false) && Enabled(s, a) && EventHarmless(n, s, false, Succeeds(a))
    ensures Holds(Step(n, s, a), After(s, a), a.Converge?)
  {
    match a
    case Converge(spec) =>
      if n.running.Some? { LooseIsSafe(n, s, spec); }
      ConvergeFromAnyIff(n, spec);
    case SetDrained(name, drain) =>
      var v := s.ipvs.value;
      if n.running.Some? { DrainKeepsAtWeights(n.kernel, v, n.drained, Named(v, name), drain); }
    case Restart =>
  }

  lemma EventKeeps(n: Node, s: Spec, settled: bool, e: Event)
    requires Holds(n, s, settled) && EventEnabled(s, e) && EventHarmless(n, s, settled, e)
    ensures Holds(EventStep(n, s, e), SpecAfter(s, e), SettledAfter(settled, e))
  {
    match e
    case Fails(spec, f) => FailureHolds(n, s, settled, spec, f);
    case Succeeds(a) => if settled { StepKeepsIff(n, s, a); } else { UnsettledHolds(n, s, a); }
  }

  predicate EventsTo(n: Node, s: Spec, settled: bool, es: seq<Event>, n': Node, s': Spec, settled': bool)
    decreases |es|
  {
    if es == [] then n' == n && s' == s && settled' == settled
    else
      && EventEnabled(s, es[0]) && EventHarmless(n, s, settled, es[0])
      && EventsTo(EventStep(n, s, es[0]), SpecAfter(s, es[0]), SettledAfter(settled, es[0]), es[1..], n', s', settled')
  }

  lemma {:induction false} EventsKeep(n: Node, s: Spec, settled: bool, es: seq<Event>, n': Node, s': Spec,
                                      settled': bool)
    requires Holds(n, s, settled) && EventsTo(n, s, settled, es, n', s', settled')
    ensures Holds(n', s', settled')
    decreases |es|
  {
    if es != [] {
      EventKeeps(n, s, settled, es[0]);
      EventsKeep(EventStep(n, s, es[0]), SpecAfter(s, es[0]), SettledAfter(settled, es[0]), es[1..], n', s', settled');
    }
  }

  /** The drain invariant over whole runs in which converges may fail, with drains and restarts after
      the failed ones too, none overlapping another: whenever the last converge succeeded, a backend
      weighs 0 on every port and protocol exactly when drained or specified so. */
  lemma WeightsFollowDrainsThroughFailures(n: Node, es: seq<Event>, n': Node, s: Spec, settled: bool)
    requires Fresh(n) && EventsTo(n, OFF, true, es, n', s, settled)
    ensures n'.drained <= n'.persisted
    ensures settled && IPVSOn(s) ==> Right(n'.kernel, s.ipvs.value, n'.drained)
  {
    EventsKeep(n, OFF, true, es, n', s, settled);
  }

  /** The excluded failure is excluded for cause: the retry of the same spec succeeds and is wrong. */
  lemma HarmfulFailureIff(n: Node, s: Spec, tried: Spec, f: Failure)
    requires Inv(n, s) && SpecFits(tried) && tried.enabled
    requires Harmless(n, s, Converge(tried))
    ensures Inv(Converged(Failed(n, tried, f), tried), tried) <==> EventHarmless(n, s, true, Fails(tried, f))
  {
    RecoversIff(n, s, tried, f, tried);
  }
}
