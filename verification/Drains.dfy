/** Backend drains on an IPVS director (keepalived/keepalived.go: Converge, setWeight, SetDrained,
    reapplyDrains). The kernel's table is state that commands edit; any command may fail. */
module Drains {
  import opened Options

  datatype Protocol = Udp | Tcp

  datatype Address = Address(host: string, port: nat)

  datatype Backend = Backend(name: string, at: Address, weight: nat)

  /** options: the scheduler and the check schedule. */
  datatype Ipvs = Ipvs(vip: string, ports: seq<nat>, protocols: seq<Protocol>, options: string, backends: seq<Backend>)

  /** vrrp: everything else keepalived.conf is rendered from; ipvs is None when switched off. */
  datatype Spec = Spec(enabled: bool, vrrp: string, ipvs: Option<Ipvs>)

  /** What the rendered keepalived.conf says: the backends' names are not in it. */
  datatype Conf = Conf(vrrp: string, servers: Option<Servers>)
  datatype Servers = Servers(vip: string, ports: seq<nat>, protocols: seq<Protocol>, options: string, reals: seq<Real>)
  datatype Real = Real(at: Address, weight: nat)

  /** One destination of one kernel service. */
  datatype Slot = Slot(vip: string, port: nat, protocol: Protocol, at: Address)

  type Kernel = map<Slot, nat>

  predicate IPVSOn(s: Spec) { s.enabled && s.ipvs.Some? }

  function RealsOf(bs: seq<Backend>): (rs: seq<Real>)
    ensures |rs| == |bs| && forall i :: 0 <= i < |bs| ==> rs[i] == Real(bs[i].at, bs[i].weight)
  {
    if bs == [] then [] else [Real(bs[0].at, bs[0].weight)] + RealsOf(bs[1..])
  }

  function Render(s: Spec): Conf {
    if IPVSOn(s) then
      var v := s.ipvs.value;
      Conf(s.vrrp, Some(Servers(v.vip, v.ports, v.protocols, v.options, RealsOf(v.backends))))
    else Conf(s.vrrp, None)
  }

  /** What Decode leaves: some port and protocol, and distinct names. Addresses are taken to be
      distinct too, which it does not check. */
  predicate Fit(v: Ipvs) {
    && v.ports != [] && v.protocols != []
    && (forall i, j :: 0 <= i < j < |v.backends| ==> v.backends[i].name != v.backends[j].name)
    && forall i, j :: 0 <= i < j < |v.backends| ==> v.backends[i].at != v.backends[j].at
  }

  predicate SpecFits(s: Spec) { s.ipvs.Some? ==> Fit(s.ipvs.value) }

  // ------------------------------------------------- the kernel's table

  function WeightOf(rs: seq<Real>, at: Address): Option<nat> {
    if rs == [] then None else if rs[0].at == at then Some(rs[0].weight) else WeightOf(rs[1..], at)
  }

  function SlotsOf(v: Servers): set<Slot> {
    set port, protocol, r | port in v.ports && protocol in v.protocols && r in v.reals ::
      Slot(v.vip, port, protocol, r.at)
  }

  lemma {:induction false} WeightFound(rs: seq<Real>, i: nat)
    requires i < |rs| && forall j, k :: 0 <= j < k < |rs| ==> rs[j].at != rs[k].at
    ensures WeightOf(rs, rs[i].at) == Some(rs[i].weight)
  {
    if i > 0 {
      assert rs[1..][i - 1] == rs[i];
      WeightFound(rs[1..], i - 1);
    }
  }

  /** What keepalived programs when it starts. */
  function Programmed(c: Conf): Kernel {
    if c.servers.None? then map[]
    else map slot | slot in SlotsOf(c.servers.value) :: WeightOf(c.servers.value.reals, slot.at).GetOr(0)
  }

  predicate IsSlot(v: Ipvs, at: Address, slot: Slot) {
    slot.vip == v.vip && slot.port in v.ports && slot.protocol in v.protocols && slot.at == at
  }

  /** setWeight: one destination on every service. */
  function Weighted(k: Kernel, v: Ipvs, at: Address, w: nat): (r: Kernel)
    ensures r.Keys == k.Keys
  {
    map slot | slot in k :: if IsSlot(v, at, slot) then w else k[slot]
  }

  function Names(v: Ipvs): set<string> { set b | b in v.backends :: b.name }

  /** The drained backends at weight 0. */
  function Zeroed(k: Kernel, v: Ipvs, drained: set<string>): (r: Kernel)
    ensures r.Keys == k.Keys
  {
    map slot | slot in k ::
      if exists b :: b in v.backends && b.name in drained && IsSlot(v, b.at, slot) then 0 else k[slot]
  }

  /** The drain invariant: on every port and protocol a backend weighs 0 exactly when drained or
      specified so, and its specified weight otherwise. */
  predicate Right(k: Kernel, v: Ipvs, drained: set<string>) {
    forall b, port, protocol | b in v.backends && port in v.ports && protocol in v.protocols ::
      var slot := Slot(v.vip, port, protocol, b.at);
      slot in k && k[slot] == if b.name in drained then 0 else b.weight
  }

  // ------------------------------------------------- the role's state and its successful operations

  /** file: keepalived.conf. running: what keepalived was started with, None when stopped.
      persisted: drained.json. */
  datatype Node = Node(file: Option<Conf>, running: Option<Conf>, kernel: Kernel,
                       drained: set<string>, persisted: set<string>)

  function Converged(n: Node, s: Spec): Node {
    if !s.enabled then n.(running := None, kernel := map[])
    else
      var c := Render(s);
      var kernel := if n.file == Some(c) && n.running.Some? then n.kernel else Programmed(c);
      var running := if n.file == Some(c) && n.running.Some? then n.running else Some(c);
      if s.ipvs.None? then n.(file := Some(c), running := running, kernel := kernel)
      else n.(file := Some(c), running := running, kernel := Zeroed(kernel, s.ipvs.value, n.drained),
              drained := n.drained * Names(s.ipvs.value))
  }

  /** Where a converge may stop with an error: before its file is written; after it, with keepalived
      left as it was; with keepalived down; or with keepalived just started, drains not re-applied. */
  datatype Failure = BeforeWrite | LeavesRunning | LeavesDown | LeavesStarted

  function Failed(n: Node, s: Spec, f: Failure): Node {
    match f
    case BeforeWrite => n
    case LeavesRunning => n.(file := Some(Render(s)))
    case LeavesDown => n.(file := Some(Render(s)), running := None, kernel := map[])
    case LeavesStarted => n.(file := Some(Render(s)), running := Some(Render(s)), kernel := Programmed(Render(s)))
  }

  function SpecWeight(b: Backend, drain: bool): nat { if drain then 0 else b.weight }

  function Marked(drained: set<string>, name: string, drain: bool): set<string> {
    if drain then drained + {name} else drained - {name}
  }

  function DrainSet(n: Node, v: Ipvs, b: Backend, drain: bool): Node {
    var marked := Marked(n.drained, b.name, drain);
    n.(kernel := Weighted(n.kernel, v, b.at, SpecWeight(b, drain)), drained := marked, persisted := marked)
  }

  /** A new agent process reads drained.json. */
  function Restarted(n: Node): Node { n.(drained := n.persisted) }

  // ------------------------------------------------- what a converge makes of the table

  function SlotOf(v: Ipvs, port: nat, protocol: Protocol, b: Backend): Slot { Slot(v.vip, port, protocol, b.at) }

  /** Every backend is programmed, at weights read off `drained`. */
  lemma BackendIs(v: Ipvs, b: Backend, c: Backend)
    requires Fit(v) && b in v.backends && c in v.backends && (b.at == c.at || b.name == c.name)
    ensures b == c
  {
    var i :| 0 <= i < |v.backends| && v.backends[i] == b;
    var j :| 0 <= j < |v.backends| && v.backends[j] == c;
    if i < j { } else if j < i { }
  }

  lemma ProgrammedWeighs(s: Spec, b: Backend, port: nat, protocol: Protocol)
    requires IPVSOn(s) && SpecFits(s)
    requires var v := s.ipvs.value; b in v.backends && port in v.ports && protocol in v.protocols
    ensures var slot := SlotOf(s.ipvs.value, port, protocol, b);
            slot in Programmed(Render(s)) && Programmed(Render(s))[slot] == b.weight
  {
    var v := s.ipvs.value;
    var rs := RealsOf(v.backends);
    var i :| 0 <= i < |v.backends| && v.backends[i] == b;
    assert rs[i] == Real(b.at, b.weight) && rs[i] in rs;
    WeightFound(rs, i);
    assert SlotOf(v, port, protocol, b) in SlotsOf(Render(s).servers.value);
  }

  /** The table holds every backend of v. */
  predicate Complete(k: Kernel, v: Ipvs) {
    forall b, port, protocol | b in v.backends && port in v.ports && protocol in v.protocols ::
      SlotOf(v, port, protocol, b) in k
  }

  /** Backends not drained are at their specified weight. */
  predicate OthersRight(k: Kernel, v: Ipvs, drained: set<string>)
    requires Complete(k, v)
  {
    forall b, port, protocol | b in v.backends && port in v.ports && protocol in v.protocols && b.name !in drained ::
      k[SlotOf(v, port, protocol, b)] == b.weight
  }

  lemma ZeroedWeighs(k: Kernel, v: Ipvs, drained: set<string>, b: Backend, port: nat, protocol: Protocol)
    requires Fit(v) && b in v.backends && port in v.ports && protocol in v.protocols
    requires SlotOf(v, port, protocol, b) in k
    ensures var slot := SlotOf(v, port, protocol, b);
            Zeroed(k, v, drained)[slot] == if b.name in drained then 0 else k[slot]
  {
    var slot := SlotOf(v, port, protocol, b);
    if b.name in drained {
      assert IsSlot(v, b.at, slot);
    } else if c :| c in v.backends && c.name in drained && IsSlot(v, c.at, slot) {
      BackendIs(v, b, c);
    }
  }

  lemma ZeroedRightIff(k: Kernel, v: Ipvs, drained: set<string>)
    requires Fit(v) && Complete(k, v)
    ensures Right(Zeroed(k, v, drained), v, drained * Names(v)) <==> OthersRight(k, v, drained)
  {
    var z, known := Zeroed(k, v, drained), drained * Names(v);
    forall b, port, protocol | b in v.backends && port in v.ports && protocol in v.protocols
      ensures SlotOf(v, port, protocol, b) in z
      ensures z[SlotOf(v, port, protocol, b)] == if b.name in known then 0 else k[SlotOf(v, port, protocol, b)]
      ensures b.name in known <==> b.name in drained
    {
      ZeroedWeighs(k, v, drained, b, port, protocol);
    }
    if Right(z, v, known) {
      forall b, port, protocol | b in v.backends && port in v.ports && protocol in v.protocols && b.name !in drained
        ensures k[SlotOf(v, port, protocol, b)] == b.weight
      {
        assert b.name !in known;
        assert z[SlotOf(v, port, protocol, b)] == b.weight;
      }
    }
  }

  /** A converge that starts keepalived afresh leaves the table right. */
  lemma AfreshIsRight(s: Spec, drained: set<string>)
    requires IPVSOn(s) && SpecFits(s)
    ensures Right(Zeroed(Programmed(Render(s)), s.ipvs.value, drained), s.ipvs.value, drained * Names(s.ipvs.value))
  {
    var v, k := s.ipvs.value, Programmed(Render(s));
    forall b, port, protocol | b in v.backends && port in v.ports && protocol in v.protocols
      ensures SlotOf(v, port, protocol, b) in k && k[SlotOf(v, port, protocol, b)] == b.weight
    {
      ProgrammedWeighs(s, b, port, protocol);
    }
    ZeroedRightIff(k, v, drained);
  }

  // ------------------------------------------------- runs of successful operations

  datatype Action = Converge(spec: Spec) | SetDrained(name: string, drain: bool) | Restart

  /** n with s the spec of the last converge. */
  predicate Inv(n: Node, s: Spec) {
    && SpecFits(s)
    && n.drained <= n.persisted
    && (s.enabled <==> n.running.Some?)
    && (s.enabled ==> n.running == n.file == Some(Render(s)))
    && (IPVSOn(s) ==> Right(n.kernel, s.ipvs.value, n.drained))
  }

  predicate Enabled(s: Spec, a: Action) {
    match a
    case Converge(s') => SpecFits(s')
    case SetDrained(name, _) => IPVSOn(s) && name in Names(s.ipvs.value)
    case Restart => true
  }

  function Named(v: Ipvs, name: string): (b: Backend)
    requires name in Names(v)
    ensures b in v.backends && b.name == name
  {
    FirstNamed(v.backends, name)
  }

  function FirstNamed(bs: seq<Backend>, name: string): (b: Backend)
    requires exists b :: b in bs && b.name == name
    ensures b in bs && b.name == name
  {
    if bs[0].name == name then bs[0] else FirstNamed(bs[1..], name)
  }

  function Step(n: Node, s: Spec, a: Action): Node
    requires Enabled(s, a)
  {
    match a
    case Converge(s') => Converged(n, s')
    case SetDrained(name, drain) => DrainSet(n, s.ipvs.value, Named(s.ipvs.value, name), drain)
    case Restart => Restarted(n)
  }

  function After(s: Spec, a: Action): Spec { if a.Converge? then a.spec else s }

  /** The rendered file leaves names out, so a spec that only moves them does not restart
      keepalived: then no drained backend may hand its address to a name that is not drained. */
  predicate NamesKept(v: Ipvs, v': Ipvs, drained: set<string>) {
    forall i | 0 <= i < |v.backends| && i < |v'.backends| ::
      v.backends[i].name in drained && v'.backends[i].name !in drained ==> v'.backends[i].weight == 0
  }

  /** No drain that only the file still remembers belongs to a backend in use. */
  predicate NothingReturns(n: Node, v: Ipvs) {
    forall b :: b in v.backends && b.name in n.persisted && b.name !in n.drained ==> b.weight == 0
  }

  predicate Harmless(n: Node, s: Spec, a: Action) {
    match a
    case Converge(s') =>
      IPVSOn(s) && IPVSOn(s') && Render(s) == Render(s') ==> NamesKept(s.ipvs.value, s'.ipvs.value, n.drained)
    case SetDrained(_, _) => true
    case Restart => IPVSOn(s) ==> NothingReturns(n, s.ipvs.value)
  }

  lemma SameRender(s: Spec, s': Spec)
    requires IPVSOn(s') && s.enabled && Render(s) == Render(s')
    ensures IPVSOn(s)
    ensures var v, v' := s.ipvs.value, s'.ipvs.value;
            && v.vip == v'.vip && v.ports == v'.ports && v.protocols == v'.protocols && |v.backends| == |v'.backends|
            && forall i :: 0 <= i < |v.backends| ==>
                 v.backends[i].at == v'.backends[i].at && v.backends[i].weight == v'.backends[i].weight
  {
    var rs, rs' := RealsOf(s.ipvs.value.backends), RealsOf(s'.ipvs.value.backends);
    assert rs == rs';
    assert |s.ipvs.value.backends| == |rs|;
    forall i | 0 <= i < |rs|
      ensures s.ipvs.value.backends[i].at == s'.ipvs.value.backends[i].at
      ensures s.ipvs.value.backends[i].weight == s'.ipvs.value.backends[i].weight
    {
      assert rs[i] == rs'[i];
    }
  }

  lemma {:induction false} RealsSameIff(bs: seq<Backend>, cs: seq<Backend>)
    ensures RealsOf(bs) == RealsOf(cs) <==>
              |bs| == |cs| && forall i :: 0 <= i < |bs| ==> bs[i].at == cs[i].at && bs[i].weight == cs[i].weight
  {
    var rs, ss := RealsOf(bs), RealsOf(cs);
    if rs == ss {
      forall i | 0 <= i < |bs| ensures bs[i].at == cs[i].at && bs[i].weight == cs[i].weight {
        assert rs[i] == ss[i];
      }
    }
  }

  predicate SameTable(v: Ipvs, v': Ipvs) {
    && v.vip == v'.vip && v.ports == v'.ports && v.protocols == v'.protocols && v.options == v'.options
    && |v.backends| == |v'.backends|
    && forall i :: 0 <= i < |v.backends| ==>
         v.backends[i].at == v'.backends[i].at && v.backends[i].weight == v'.backends[i].weight
  }

  /** keepalived is left running exactly when nothing but the backends' names changed: any other change
      shows in the rendered file. */
  lemma RenderSameIff(s: Spec, s': Spec)
    ensures Render(s) == Render(s') <==>
              && s.vrrp == s'.vrrp && (IPVSOn(s) <==> IPVSOn(s'))
              && (IPVSOn(s) ==> SameTable(s.ipvs.value, s'.ipvs.value))
  {
    if IPVSOn(s) && IPVSOn(s') { RealsSameIff(s.ipvs.value.backends, s'.ipvs.value.backends); }
  }

  /** A converge that leaves keepalived running keeps the table right exactly when names are kept. */
  lemma UnchangedRightIff(n: Node, s: Spec, s': Spec)
    requires Inv(n, s) && SpecFits(s') && IPVSOn(s') && s.enabled && Render(s) == Render(s')
    ensures IPVSOn(s)
    ensures Right(Zeroed(n.kernel, s'.ipvs.value, n.drained), s'.ipvs.value, n.drained * Names(s'.ipvs.value))
            <==> NamesKept(s.ipvs.value, s'.ipvs.value, n.drained)
  {
    SameRender(s, s');
    var v, v', k := s.ipvs.value, s'.ipvs.value, n.kernel;
    forall b', port, protocol | b' in v'.backends && port in v'.ports && protocol in v'.protocols
      ensures SlotOf(v', port, protocol, b') in k
    {
      var i :| 0 <= i < |v'.backends| && v'.backends[i] == b';
      SameSlot(v, v', k, n.drained, i, port, protocol);
    }
    assert Complete(k, v');
    ZeroedRightIff(k, v', n.drained);
    OthersRightIff(v, v', k, n.drained);
  }

  lemma SameSlot(v: Ipvs, v': Ipvs, k: Kernel, drained: set<string>, i: nat, port: nat, protocol: Protocol)
    requires v.vip == v'.vip && v.ports == v'.ports && v.protocols == v'.protocols && |v.backends| == |v'.backends|
    requires i < |v.backends| && v.backends[i].at == v'.backends[i].at && v.backends[i].weight == v'.backends[i].weight
    requires port in v.ports && protocol in v.protocols && Right(k, v, drained)
    ensures SlotOf(v', port, protocol, v'.backends[i]) in k
    ensures k[SlotOf(v', port, protocol, v'.backends[i])]
            == if v.backends[i].name in drained then 0 else v'.backends[i].weight
  {
    assert v.backends[i] in v.backends;
  }

  lemma OthersRightIff(v: Ipvs, v': Ipvs, k: Kernel, drained: set<string>)
    requires Fit(v') && v.vip == v'.vip && v.ports == v'.ports && v.protocols == v'.protocols
    requires |v.backends| == |v'.backends| && Right(k, v, drained) && Complete(k, v')
    requires forall i :: 0 <= i < |v.backends| ==>
               v.backends[i].at == v'.backends[i].at && v.backends[i].weight == v'.backends[i].weight
    ensures OthersRight(k, v', drained) <==> NamesKept(v, v', drained)
  {
    if NamesKept(v, v', drained) {
      forall b', port, protocol | b' in v'.backends && port in v'.ports && protocol in v'.protocols
        && b'.name !in drained
        ensures k[SlotOf(v', port, protocol, b')] == b'.weight
      {
        var i :| 0 <= i < |v'.backends| && v'.backends[i] == b';
        SameSlot(v, v', k, drained, i, port, protocol);
      }
    }
    if OthersRight(k, v', drained) {
      forall i | 0 <= i < |v.backends| && v.backends[i].name in drained && v'.backends[i].name !in drained
        ensures v'.backends[i].weight == 0
      {
        assert v'.backends[i] in v'.backends && v.ports[0] in v.ports && v.protocols[0] in v.protocols;
        SameSlot(v, v', k, drained, i, v.ports[0], v.protocols[0]);
      }
    }
  }

  /** Which of its two ways a converge takes, by the specs alone. */
  lemma ConvergedCases(n: Node, s: Spec, s': Spec)
    requires Inv(n, s) && IPVSOn(s')
    ensures var kernel := if s.enabled && Render(s) == Render(s') then n.kernel else Programmed(Render(s'));
            Converged(n, s') == Node(Some(Render(s')), Some(Render(s')), Zeroed(kernel, s'.ipvs.value, n.drained),
                                     n.drained * Names(s'.ipvs.value), n.persisted)
  {
  }

  lemma ConvergeRightIff(n: Node, s: Spec, s': Spec)
    requires Inv(n, s) && SpecFits(s')
    ensures Inv(Converged(n, s'), s') <==> Harmless(n, s, Converge(s'))
  {
    if IPVSOn(s') {
      ConvergedCases(n, s, s');
      var n' := Converged(n, s');
      assert n'.drained <= n'.persisted;
      assert Inv(n', s') <==> Right(n'.kernel, s'.ipvs.value, n'.drained);
      if s.enabled && Render(s) == Render(s') {
        UnchangedRightIff(n, s, s');
      } else {
        AfreshIsRight(s', n.drained);
      }
    }
  }

  lemma DrainKeepsRight(n: Node, s: Spec, b: Backend, drain: bool)
    requires Inv(n, s) && IPVSOn(s) && b in s.ipvs.value.backends
    ensures Inv(DrainSet(n, s.ipvs.value, b, drain), s)
  {
    var v, n' := s.ipvs.value, DrainSet(n, s.ipvs.value, b, drain);
    forall c, port, protocol | c in v.backends && port in v.ports && protocol in v.protocols
      ensures var slot := SlotOf(v, port, protocol, c);
              slot in n'.kernel && n'.kernel[slot] == if c.name in n'.drained then 0 else c.weight
    {
      var slot := Slot(v.vip, port, protocol, c.at);
      assert slot in n.kernel && n.kernel[slot] == if c.name in n.drained then 0 else c.weight;
      if c.at == b.at || c.name == b.name { BackendIs(v, b, c); }
    }
  }

  /** A new process comes up with the drains as they are. */
  lemma DrainSurvivesRestart(n: Node, v: Ipvs, b: Backend, drain: bool)
    ensures Restarted(DrainSet(n, v, b, drain)) == DrainSet(n, v, b, drain)
    ensures b.name in Restarted(DrainSet(n, v, b, drain)).drained <==> drain
  {
  }

  lemma RestartRightIff(n: Node, s: Spec)
    requires Inv(n, s)
    ensures Inv(Restarted(n), s) <==> Harmless(n, s, Restart)
  {
    if IPVSOn(s) {
      var v := s.ipvs.value;
      if Right(n.kernel, v, n.persisted) {
        forall b | b in v.backends && b.name in n.persisted && b.name !in n.drained ensures b.weight == 0 {
          var slot := Slot(v.vip, v.ports[0], v.protocols[0], b.at);
          assert v.ports[0] in v.ports && v.protocols[0] in v.protocols;
          assert slot in n.kernel && n.kernel[slot] == b.weight;
        }
      }
      if NothingReturns(n, v) {
        forall b, port, protocol | b in v.backends && port in v.ports && protocol in v.protocols
          ensures var slot := Slot(v.vip, port, protocol, b.at);
                  slot in n.kernel && n.kernel[slot] == if b.name in n.persisted then 0 else b.weight
        {
        }
      }
    }
  }

  /** Each successful operation keeps the drain invariant exactly when it is harmless. */
  lemma StepKeepsIff(n: Node, s: Spec, a: Action)
    requires Inv(n, s) && Enabled(s, a)
    ensures Inv(Step(n, s, a), After(s, a)) <==> Harmless(n, s, a)
  {
    match a
    case Converge(s') => ConvergeRightIff(n, s, s');
    case SetDrained(name, drain) => DrainKeepsRight(n, s, Named(s.ipvs.value, name), drain);
    case Restart => RestartRightIff(n, s);
  }

  predicate RunsTo(n: Node, s: Spec, actions: seq<Action>, n': Node, s': Spec)
    decreases |actions|
  {
    if actions == [] then n' == n && s' == s
    else
      && Enabled(s, actions[0]) && Harmless(n, s, actions[0])
      && RunsTo(Step(n, s, actions[0]), After(s, actions[0]), actions[1..], n', s')
  }

  /** Before the first converge keepalived is stopped; drains are what the file remembers. */
  predicate Fresh(n: Node) { n.running.None? && n.drained == n.persisted }

  const OFF := Spec(false, "", None)

  lemma {:induction false} RunKeeps(n: Node, s: Spec, actions: seq<Action>, n': Node, s': Spec)
    requires Inv(n, s) && RunsTo(n, s, actions, n', s')
    ensures Inv(n', s')
    decreases |actions|
  {
    if actions != [] {
      StepKeepsIff(n, s, actions[0]);
      RunKeeps(Step(n, s, actions[0]), After(s, actions[0]), actions[1..], n', s');
    }
  }

  /** The drain invariant over whole runs: after any successful converges, drains, undrains and
      harmless agent restarts, every backend weighs 0 on every port and protocol exactly when
      drained or specified so, and no drain in memory is missing from the file. */
  lemma WeightsFollowDrains(n: Node, actions: seq<Action>, n': Node, s: Spec)
    requires Fresh(n) && RunsTo(n, OFF, actions, n', s)
    ensures IPVSOn(s) ==> Right(n'.kernel, s.ipvs.value, n'.drained)
    ensures n'.drained <= n'.persisted
  {
    RunKeeps(n, OFF, actions, n', s);
  }

  const A := Address("10.0.0.1", 53)

  function Solo(name: string): Spec {
    Spec(true, "", Some(Ipvs("10.0.0.53", [53], [Udp], "", [Backend(name, A, 1)])))
  }

  /** Renaming a drained backend leaves it without traffic although nothing is drained any more. */
  lemma RenameStrandsBackend(n: Node)
    requires Inv(n, Solo("a")) && n.drained == {"a"}
    ensures var n' := Step(n, Solo("a"), Converge(Solo("b")));
            n'.drained == {} && !Right(n'.kernel, Solo("b").ipvs.value, n'.drained)
  {
    assert Solo("a").ipvs.value.backends == [Backend("a", A, 1)]
        && Solo("b").ipvs.value.backends == [Backend("b", A, 1)];
    assert Render(Solo("a")) == Render(Solo("b"));
    assert Names(Solo("b").ipvs.value) == {"b"} by { assert Backend("b", A, 1) in Solo("b").ipvs.value.backends; }
    UnchangedRightIff(n, Solo("a"), Solo("b"));
    assert !NamesKept(Solo("a").ipvs.value, Solo("b").ipvs.value, {"a"});
    ConvergedCases(n, Solo("a"), Solo("b"));
  }

  /** A drain whose backend left the spec comes back with the next agent process: the file still
      names it, and the kernel does not. */
  lemma ForgottenDrainReturns(n: Node)
    requires Inv(n, Solo("a")) && n.drained == {} && n.persisted == {"a"}
    ensures var n' := Step(n, Solo("a"), Restart);
            n'.drained == {"a"} && !Right(n'.kernel, Solo("a").ipvs.value, n'.drained)
  {
    RestartRightIff(n, Solo("a"));
    assert Solo("a").ipvs.value.backends[0] == Backend("a", A, 1);
    assert !NothingReturns(n, Solo("a").ipvs.value);
  }

  const NOBODY := Spec(true, "", Some(Ipvs("10.0.0.53", [53], [Udp], "", [])))

  lemma NamesOfSolo(name: string)
    ensures Names(Solo(name).ipvs.value) == {name}
    ensures Render(Solo(name)) != Render(NOBODY)
  {
    assert Solo(name).ipvs.value.backends[0].name == name;
    assert |RealsOf(Solo(name).ipvs.value.backends)| == 1;
  }

  /** a converged, then drained. */
  lemma DrainReached(n: Node) returns (n': Node)
    requires Fresh(n) && n.drained == {}
    ensures Inv(n', Solo("a")) && n'.drained == n'.persisted == {"a"}
    ensures RunsTo(n, OFF, [Converge(Solo("a")), SetDrained("a", true)], n', Solo("a"))
  {
    var first, drain := Converge(Solo("a")), SetDrained("a", true);
    NamesOfSolo("a");
    var n1 := Step(n, OFF, first);
    StepKeepsIff(n, OFF, first);
    OneMore(n, OFF, first, [], n, OFF);
    assert [] + [first] == [first];
    n' := Step(n1, Solo("a"), drain);
    StepKeepsIff(n1, Solo("a"), drain);
    OneMore(n, OFF, drain, [first], n1, Solo("a"));
    assert [first] + [drain] == [first, drain];
  }

  lemma Replaced(n: Node) returns (n': Node)
    requires Inv(n, Solo("a")) && n.drained == n.persisted == {"a"}
    ensures n' == Step(n, Solo("a"), Converge(NOBODY)) && Harmless(n, Solo("a"), Converge(NOBODY))
    ensures Inv(n', NOBODY) && n'.drained == {} && n'.persisted == {"a"}
  {
    NamesOfSolo("a");
    n' := Step(n, Solo("a"), Converge(NOBODY));
    StepKeepsIff(n, Solo("a"), Converge(NOBODY));
  }

  lemma TakenBack(n: Node) returns (n': Node)
    requires Inv(n, NOBODY) && n.drained == {} && n.persisted == {"a"}
    ensures n' == Step(n, NOBODY, Converge(Solo("a"))) && Harmless(n, NOBODY, Converge(Solo("a")))
    ensures Inv(n', Solo("a")) && n'.drained == {} && n'.persisted == {"a"}
  {
    NamesOfSolo("a");
    n' := Step(n, NOBODY, Converge(Solo("a")));
    StepKeepsIff(n, NOBODY, Converge(Solo("a")));
  }

  /** Both states are reached by successful operations: drain a; then replace it and take it back. */
  lemma BothAreReached(n: Node) returns (drained: Node, back: Node)
    requires Fresh(n) && n.drained == {}
    ensures Inv(drained, Solo("a")) && drained.drained == {"a"}
    ensures RunsTo(n, OFF, [Converge(Solo("a")), SetDrained("a", true)], drained, Solo("a"))
    ensures Inv(back, Solo("a")) && back.drained == {} && back.persisted == {"a"}
    ensures RunsTo(n, OFF, [Converge(Solo("a")), SetDrained("a", true), Converge(NOBODY), Converge(Solo("a"))],
                   back, Solo("a"))
  {
    var first, gone, drain := Converge(Solo("a")), Converge(NOBODY), SetDrained("a", true);
    drained := DrainReached(n);
    var replaced := Replaced(drained);
    OneMore(n, OFF, gone, [first, drain], drained, Solo("a"));
    assert [first, drain] + [gone] == [first, drain, gone];
    back := TakenBack(replaced);
    OneMore(n, OFF, first, [first, drain, gone], replaced, NOBODY);
    assert [first, drain, gone] + [first] == [first, drain, gone, first];
  }

  lemma {:induction false} OneMore(n: Node, s: Spec, a: Action, actions: seq<Action>, m: Node, t: Spec)
    requires RunsTo(n, s, actions, m, t) && Enabled(t, a) && Harmless(m, t, a)
    ensures RunsTo(n, s, actions + [a], Step(m, t, a), After(t, a))
    decreases |actions|
  {
    if actions == [] {
      assert RunsTo(Step(n, s, a), After(s, a), [], Step(n, s, a), After(s, a));
      assert [a][1..] == [];
      assert actions + [a] == [a];
    } else {
      OneMore(Step(n, s, actions[0]), After(s, actions[0]), a, actions[1..], m, t);
      assert (actions + [a])[1..] == actions[1..] + [a];
    }
  }

  // ------------------------------------------------- the methods

  datatype Outcome = Done | NotManaged | NoBackend | EditFailed | WriteFailed

  class Role {
    var file: Option<Conf>
    var running: Option<Conf>
    var kernel: Kernel
    var drained: set<string>
    var persisted: set<string>

    function State(): Node
      reads this
    {
      Node(file, running, kernel, drained, persisted)
    }

    /** ipvsadm -e, which fails on a destination that is not there. */
    method Edit(slot: Slot, w: nat) returns (ok: bool)
      modifies `kernel
      ensures ok ==> slot in old(kernel) && kernel == old(kernel)[slot := w]
      ensures !ok ==> kernel == old(kernel)
    {
      var answered: bool := *;
      ok := answered && slot in kernel;
      if ok { kernel := kernel[slot := w]; }
    }

    method SetWeight(v: Ipvs, b: Backend, w: nat) returns (ok: bool)
      modifies `kernel
      ensures ok ==> kernel == Weighted(old(kernel), v, b.at, w)
      ensures Touched(old(kernel), kernel, v, b.at, w)
    {
      for i := 0 to |v.ports|
        invariant Touched(old(kernel), kernel, v, b.at, w)
        invariant forall slot :: slot in kernel && IsSlot(v, b.at, slot) && slot.port in v.ports[..i] ==>
                    kernel[slot] == w
      {
        for j := 0 to |v.protocols|
          invariant Touched(old(kernel), kernel, v, b.at, w)
          invariant forall slot :: slot in kernel && IsSlot(v, b.at, slot) && slot.port in v.ports[..i] ==>
                    kernel[slot] == w
          invariant forall slot | slot in kernel && IsSlot(v, b.at, slot) && slot.port == v.ports[i] ::
                      slot.protocol in v.protocols[..j] ==> kernel[slot] == w
        {
          var edited := Edit(Slot(v.vip, v.ports[i], v.protocols[j], b.at), w);
          if !edited { return false; }
          assert v.protocols[..j + 1] == v.protocols[..j] + [v.protocols[j]];
        }
        assert v.protocols[..|v.protocols|] == v.protocols;
        assert v.ports[..i + 1] == v.ports[..i] + [v.ports[i]];
      }
      assert v.ports[..|v.ports|] == v.ports;
      ok := true;
    }

    /** s is None when the role has no spec. */
    method SetDrained(s: Option<Spec>, name: string, drain: bool) returns (r: Outcome)
      requires s.Some? ==> SpecFits(s.value)
      modifies `kernel, `drained, `persisted
      ensures r == NotManaged <==> s.None? || !IPVSOn(s.value)
      ensures r == NoBackend <==> s.Some? && IPVSOn(s.value) && name !in Names(s.value.ipvs.value)
      ensures r == NotManaged || r == NoBackend ==> State() == old(State())
      // Done, this name and no other changes sides, and the file says so for the next process.
      ensures r == Done || r == WriteFailed ==>
                forall x :: x in drained <==> if x == name then drain else x in old(drained)
      ensures r == Done ==> persisted == drained
      ensures r == Done ==>
                State() == DrainSet(old(State()), s.value.ipvs.value, Named(s.value.ipvs.value, name), drain)
      ensures r == WriteFailed ==>
                State() == DrainSet(old(State()), s.value.ipvs.value, Named(s.value.ipvs.value, name), drain)
                           .(persisted := old(persisted))
      ensures r == EditFailed ==>
                var b := Named(s.value.ipvs.value, name);
                && Touched(old(kernel), kernel, s.value.ipvs.value, b.at, SpecWeight(b, drain))
                && drained == old(drained) && persisted == old(persisted)
    {
      if s.None? || !IPVSOn(s.value) { return NotManaged; }
      var v := s.value.ipvs.value;
      var found, b := FindBackend(v, name);
      if !found { return NoBackend; }
      BackendIs(v, b, Named(v, name));
      var weight := b.weight;
      if drain { weight := 0; }
      var edited := SetWeight(v, b, weight);
      if !edited { return EditFailed; }
      if drain {
        drained := drained + {name};
      } else {
        drained := drained - {name};
      }
      var names := drained;
      var written: bool := *;
      if !written { return WriteFailed; }
      persisted := names;
      r := Done;
    }

    /** One name of reapplyDrains: forgotten in memory when the spec no longer has it. */
    method ReapplyDrain(v: Ipvs, name: string) returns (ok: bool)
      requires Fit(v)
      modifies `kernel, `drained
      ensures ok ==> kernel == ZeroedOne(old(kernel), v, name)
      ensures !ok ==> name in Names(v) && Touched(old(kernel), kernel, v, Named(v, name).at, 0)
      ensures drained == if name in Names(v) then old(drained) else old(drained) - {name}
    {
      var found, b := FindBackend(v, name);
      if !found {
        drained := drained - {name};
        return true;
      }
      BackendIs(v, b, Named(v, name));
      ok := SetWeight(v, b, 0);
    }

    method ReapplyDrains(v: Ipvs) returns (ok: bool)
      requires Fit(v)
      modifies `kernel, `drained
      ensures ok ==> kernel == Zeroed(old(kernel), v, old(drained)) && drained == old(drained) * Names(v)
      ensures !ok ==> Between(old(kernel), kernel, Zeroed(old(kernel), v, old(drained)))
      ensures old(drained) * Names(v) <= drained <= old(drained)
    {
      ghost var k0, d0 := kernel, drained;
      var names := drained;
      ghost var done: set<string> := {};
      ZeroedNone(k0, v);
      while names != {}
        invariant done + names == d0
        invariant drained == Remembered(d0, done, Names(v))
        invariant kernel == Zeroed(k0, v, done)
        decreases |names|
      {
        var name :| name in names;
        names := names - {name};
        ok := ReapplyDrain(v, name);
        RememberedMore(d0, done, Names(v), name);
        ZeroedMore(k0, v, done, name);
        if !ok {
          ZeroedPart(k0, v, done, d0, Named(v, name), kernel);
          return;
        }
        done := done + {name};
      }
      assert done == d0;
      ok := true;
    }

    method Start(c: Conf) returns (ok: bool)
      modifies `running, `kernel
      ensures ok ==> running == Some(c) && kernel == Programmed(c)
      ensures !ok ==> (running == old(running) && kernel == old(kernel)) || (running.None? && kernel == map[])
    {
      ok := *;
      if ok {
        running, kernel := Some(c), Programmed(c);
      } else {
        var down: bool := *;
        if down { running, kernel := None, map[]; }
      }
    }

    /** ok: no error is returned. clean: every command succeeded; a failed stop and drains not
        re-applied are not errors. */
    method Converge(s: Spec) returns (ok: bool, clean: bool)
      requires SpecFits(s)
      modifies this
      ensures clean ==> ok && State() == Converged(old(State()), s)
      ensures ok && !clean && !s.enabled ==> State() == old(State())
      ensures ok && !clean && s.enabled ==>
                var n := Converged(old(State()), s);
                IPVSOn(s) && file == n.file && running == n.running && kernel.Keys == n.kernel.Keys
      ensures persisted == old(persisted) && drained <= old(drained)
      ensures !ok ==> s.enabled && exists f :: State() == Failed(old(State()), s, f)
    {
      ghost var n := State();
      if !s.enabled {
        clean := *;
        if clean { running, kernel := None, map[]; }
        return true, clean;
      }
      var installed: bool := *;
      if !installed {
        assert State() == Failed(n, s, BeforeWrite);
        return false, false;
      }
      var rendered := Render(s);
      var changed := file != Some(rendered);
      if changed {
        var written: bool := *;
        if !written {
          assert State() == Failed(n, s, BeforeWrite);
          return false, false;
        }
        file := Some(rendered);
      }
      assert State() == Failed(n, s, LeavesRunning);
      if running.None? {
        ok := Start(rendered);
        if !ok {
          assert State() in {Failed(n, s, LeavesRunning), Failed(n, s, LeavesDown)};
          return false, false;
        }
        assert State() == Failed(n, s, LeavesStarted);
      } else {
        ok := *;
        if !ok { return false, false; }
      }
      if changed {
        ok := Start(rendered);
        if !ok {
          assert State() in {Failed(n, s, LeavesRunning), Failed(n, s, LeavesDown), Failed(n, s, LeavesStarted)};
          return false, false;
        }
      }
      clean := true;
      if IPVSOn(s) { clean := ReapplyDrains(s.ipvs.value); }
      ok := true;
    }
  }

  /** What is left of the drained names when `done` of them were looked up among the known ones. */
  function Remembered(all: set<string>, done: set<string>, known: set<string>): (left: set<string>)
    ensures all * known <= left <= all
    ensures done == all ==> left == all * known
    ensures done == {} ==> left == all
  {
    all - (done - known)
  }

  lemma RememberedMore(all: set<string>, done: set<string>, known: set<string>, name: string)
    ensures Remembered(all, done + {name}, known)
            == if name in known then Remembered(all, done, known) else Remembered(all, done, known) - {name}
  {
  }

  /** Every weight is the one in k or the one in z. */
  predicate Between(k: Kernel, k': Kernel, z: Kernel) {
    k'.Keys == k.Keys == z.Keys && forall slot :: slot in k ==> k'[slot] == k[slot] || k'[slot] == z[slot]
  }

  method FindBackend(v: Ipvs, name: string) returns (found: bool, b: Backend)
    ensures found <==> name in Names(v)
    ensures found ==> b in v.backends && b.name == name
  {
    b := Backend("", Address("", 0), 0);
    for i := 0 to |v.backends|
      invariant forall j :: 0 <= j < i ==> v.backends[j].name != name
    {
      if v.backends[i].name == name {
        assert v.backends[i] in v.backends;
        return true, v.backends[i];
      }
    }
    found := false;
  }

  function ZeroedOne(k: Kernel, v: Ipvs, name: string): Kernel {
    if name in Names(v) then Weighted(k, v, Named(v, name).at, 0) else k
  }

  lemma ZeroedNone(k: Kernel, v: Ipvs)
    ensures Zeroed(k, v, {}) == k
  {
  }

  lemma ZeroedMore(k: Kernel, v: Ipvs, done: set<string>, name: string)
    requires Fit(v)
    ensures Zeroed(k, v, done + {name}) == ZeroedOne(Zeroed(k, v, done), v, name)
  {
    if name in Names(v) {
      var b := Named(v, name);
      forall slot | slot in k
        ensures Weighted(Zeroed(k, v, done), v, b.at, 0)[slot] == Zeroed(k, v, done + {name})[slot]
      {
        if c :| c in v.backends && c.name in done + {name} && IsSlot(v, c.at, slot) {
          if c.name == name { BackendIs(v, b, c); }
        }
      }
    }
  }

  lemma ZeroedPart(k: Kernel, v: Ipvs, done: set<string>, all: set<string>, b: Backend, k': Kernel)
    requires b in v.backends && done <= all && b.name in all
    requires Touched(Zeroed(k, v, done), k', v, b.at, 0)
    ensures Between(k, k', Zeroed(k, v, all))
  {
  }

  /** Only one destination's weights moved, and only to w. */
  predicate Touched(k: Kernel, k': Kernel, v: Ipvs, at: Address, w: nat) {
    k'.Keys == k.Keys && forall slot :: slot in k ==> k'[slot] == k[slot] || (IsSlot(v, at, slot) && k'[slot] == w)
  }
}
