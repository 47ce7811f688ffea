/** The two IPVS readers see the same table. */
module IpvsAgreement {
  import opened Options
  import opened Words
  import opened Ipvs

  // ------------------------------------------------- what programming a table into a reading does

  /** What one listing counts for a destination; the other columns stay. */
  function Counted(kind: Kind, d: Dest, r: RealServer): Dest {
    match kind
    case PlainKind =>
      d.(weight := r.weight, seenWeight := true, active := r.active as real, inactive := r.inactive as real)
    case StatsKind =>
      d.(conns := r.stats.conns as real, inPkts := r.stats.inPkts as real, inBytes := r.stats.inBytes as real)
    case RateKind => d.(cps := r.rate.cps as real, inPps := r.rate.inPps as real)
  }

  function WithReal(kind: Kind, t: Reading, r: RealServer): (u: Reading)
    requires Ok(t) && t.cur.Some? && IPv4(r.at)
    ensures Ok(u) && u.cur == t.cur && u.order == t.order
  {
    var a := TextAddr(r.at);
    WithDest(t, a, Counted(kind, DestOf(t.services[t.cur.value].dests, a), r))
  }

  function WithReals(kind: Kind, t: Reading, rs: seq<RealServer>): (u: Reading)
    requires Ok(t) && t.cur.Some? && RealsFit(rs)
    ensures Ok(u) && u.cur == t.cur && u.order == t.order
    decreases |rs|
  {
    if rs == [] then t else WithReals(kind, WithReal(kind, t, rs[0]), rs[1..])
  }

  /** `always`: the listing's order names a service each time it appears, the other only once. */
  function Opened(t: Reading, v: Virtual, always: bool): (u: Reading)
    requires Fit(v)
    ensures Ok(u) && u.cur == Some(Key(v))
  {
    var order := if always || Key(v) !in t.services then t.order + [Key(v)] else t.order;
    Open(t.(order := order), v.proto, TextAddr(v.at))
  }

  function WithTable(kind: Kind, t: Reading, vs: seq<Virtual>, always: bool): (u: Reading)
    requires Ok(t) && TableFits(vs)
    ensures Ok(u)
    decreases |vs|
  {
    if vs == [] then t
    else
      assert Fit(vs[0]) by { assert vs[0] in vs; }
      WithTable(kind, WithReals(kind, Opened(t, vs[0], always), vs[0].reals), vs[1..], always)
  }

  // ------------------------------------------------- both readers program the table

  lemma PlainIsCounted(d: Dest, r: RealServer)
    ensures Plain(d, Decimal(r.weight), Decimal(r.active), Decimal(r.inactive)) == Counted(PlainKind, d, r)
  {
    BigNumOfDecimal(r.weight);
    BigNumOfDecimal(r.active);
    BigNumOfDecimal(r.inactive);
  }

  lemma ColumnsAreCounted(kind: Kind, d: Dest, r: RealServer)
    ensures Columns(d, Cells(r, ListingForm(kind)), kind) == Counted(kind, d, r)
  {
    match kind
    case PlainKind => PlainIsCounted(d, r);
    case StatsKind =>
      BigNumOfDecimal(r.stats.conns);
      BigNumOfDecimal(r.stats.inPkts);
      BigNumOfDecimal(r.stats.inBytes);
    case RateKind =>
      BigNumOfDecimal(r.rate.cps);
      BigNumOfDecimal(r.rate.inPps);
  }

  lemma ProcRowIs(r: RealServer)
    requires IPv4(r.at)
    ensures RealRow(r, ProcForm)
            == ["->", HexAddr(r.at), r.forward, Decimal(r.weight), Decimal(r.active), Decimal(r.inactive)]
  {
  }

  lemma ProcReadsReal(t: Reading, r: RealServer, print6: seq<nat> -> string)
    requires Ok(t) && t.cur.Some? && IPv4(r.at)
    ensures ProcLine(t, RealRow(r, ProcForm), print6) == WithReal(PlainKind, t, r)
  {
    ProcRowIs(r);
    DecodesToText(r.at, print6);
    PlainIsCounted(DestOf(t.services[t.cur.value].dests, TextAddr(r.at)), r);
  }

  lemma TextAddrIsNoTitle(e: Endpoint)
    requires IPv4(e)
    ensures TextAddr(e) != "RemoteAddress:Port"
  {
    assert Dotted(e.ip)[0] == Decimal(e.ip[0])[0] && Decimal(e.ip[0])[0] in Decimal(e.ip[0]);
    assert TextAddr(e)[0] == Dotted(e.ip)[0];
  }

  lemma ListingReadsReal(kind: Kind, t: Reading, r: RealServer)
    requires Ok(t) && t.cur.Some? && IPv4(r.at)
    ensures ListingLine(t, RealRow(r, ListingForm(kind)), kind) == WithReal(kind, t, r)
  {
    TextAddrIsNoTitle(r.at);
    assert RealRow(r, ListingForm(kind))[2..] == Cells(r, ListingForm(kind));
    ColumnsAreCounted(kind, DestOf(t.services[t.cur.value].dests, TextAddr(r.at)), r);
  }

  lemma RealRowsFirst(rs: seq<RealServer>, form: Form, rest: seq<seq<string>>)
    requires rs != [] && RealsFit(rs)
    ensures var rows := RealRows(rs, form) + rest;
            rows[0] == RealRow(rs[0], form) && rows[1..] == RealRows(rs[1..], form) + rest
  {
    Regroup(RealRow(rs[0], form), RealRows(rs[1..], form), rest);
  }

  lemma Regroup(first: seq<string>, more: seq<seq<string>>, rest: seq<seq<string>>)
    ensures var rows := [first] + more + rest; rows[0] == first && rows[1..] == more + rest
  {
  }

  lemma {:induction false} ProcReadsReals(t: Reading, rs: seq<RealServer>, rest: seq<seq<string>>,
                                          print6: seq<nat> -> string)
    requires Ok(t) && t.cur.Some? && RealsFit(rs)
    ensures ProcRows(t, RealRows(rs, ProcForm) + rest, print6) == ProcRows(WithReals(PlainKind, t, rs), rest, print6)
    decreases |rs|
  {
    var rows := RealRows(rs, ProcForm) + rest;
    if rs == [] {
      assert rows == rest;
    } else {
      RealRowsFirst(rs, ProcForm, rest);
      ProcReadsReal(t, rs[0], print6);
      ProcReadsReals(WithReal(PlainKind, t, rs[0]), rs[1..], rest, print6);
    }
  }

  lemma {:induction false} ListingReadsReals(kind: Kind, t: Reading, rs: seq<RealServer>, rest: seq<seq<string>>)
    requires Ok(t) && t.cur.Some? && RealsFit(rs)
    ensures ListingRows(t, RealRows(rs, ListingForm(kind)) + rest, kind)
            == ListingRows(WithReals(kind, t, rs), rest, kind)
    decreases |rs|
  {
    var rows := RealRows(rs, ListingForm(kind)) + rest;
    if rs == [] {
      assert rows == rest;
    } else {
      RealRowsFirst(rs, ListingForm(kind), rest);
      ListingReadsReal(kind, t, rs[0]);
      ListingReadsReals(kind, WithReal(kind, t, rs[0]), rs[1..], rest);
    }
  }

  lemma RowsRegroup(first: seq<string>, reals: seq<seq<string>>, more: seq<seq<string>>, rest: seq<seq<string>>)
    ensures var rows := [first] + reals + more + rest; rows[0] == first && rows[1..] == reals + (more + rest)
  {
  }

  /** Neither reader knows the line of a marked service: its destinations go to the service before. */
  function WithEntry(kind: Kind, t: Reading, e: Entry, always: bool): (u: Reading)
    requires Ok(t) && EntryFits(e)
    ensures Ok(u)
  {
    match e
    case Listed(v) => WithReals(kind, Opened(t, v, always), v.reals)
    case Marked(_, _, reals) => if t.cur.Some? then WithReals(kind, t, reals) else t
  }

  function WithEntries(kind: Kind, t: Reading, es: seq<Entry>, always: bool): (u: Reading)
    requires Ok(t) && EntriesFit(es)
    ensures Ok(u)
    decreases |es|
  {
    if es == [] then t
    else
      assert EntryFits(es[0]) by { assert es[0] in es; }
      WithEntries(kind, WithEntry(kind, t, es[0], always), es[1..], always)
  }

  /** Before the first service a destination is of none. */
  lemma {:induction false} ProcSkipsReals(t: Reading, rs: seq<RealServer>, rest: seq<seq<string>>,
                                          print6: seq<nat> -> string)
    requires Ok(t) && t.cur.None? && RealsFit(rs)
    ensures ProcRows(t, RealRows(rs, ProcForm) + rest, print6) == ProcRows(t, rest, print6)
    decreases |rs|
  {
    if rs == [] {
      assert RealRows(rs, ProcForm) + rest == rest;
    } else {
      RealRowsFirst(rs, ProcForm, rest);
      assert RealRow(rs[0], ProcForm)[0] == "->" && !IsProtoLine(RealRow(rs[0], ProcForm));
      ProcSkipsReals(t, rs[1..], rest, print6);
    }
  }

  lemma {:induction false} ListingSkipsReals(kind: Kind, t: Reading, rs: seq<RealServer>, rest: seq<seq<string>>)
    requires Ok(t) && t.cur.None? && RealsFit(rs)
    ensures ListingRows(t, RealRows(rs, ListingForm(kind)) + rest, kind) == ListingRows(t, rest, kind)
    decreases |rs|
  {
    if rs == [] {
      assert RealRows(rs, ListingForm(kind)) + rest == rest;
    } else {
      RealRowsFirst(rs, ListingForm(kind), rest);
      assert RealRow(rs[0], ListingForm(kind))[0] == "->" && !IsProtoLine(RealRow(rs[0], ListingForm(kind)));
      ListingSkipsReals(kind, t, rs[1..], rest);
    }
  }

  function EntryRow(e: Entry, form: Form): seq<string>
    requires EntryFits(e)
  {
    match e
    case Listed(v) => VirtualRow(v, form)
    case Marked(kernel, shown, _) => ["FWM"] + if form.ProcForm? then kernel else shown
  }

  function EntryReals(e: Entry): (rs: seq<RealServer>)
    requires EntryFits(e)
    ensures RealsFit(rs)
  {
    match e
    case Listed(v) => v.reals
    case Marked(_, _, reals) => reals
  }

  lemma ProcReadsEntry(t: Reading, e: Entry, rest: seq<seq<string>>, print6: seq<nat> -> string)
    requires Ok(t) && EntryFits(e)
    ensures ProcRows(ProcLine(t, EntryRow(e, ProcForm), print6), RealRows(EntryReals(e), ProcForm) + rest, print6)
            == ProcRows(WithEntry(PlainKind, t, e, false), rest, print6)
  {
    match e
    case Listed(v) =>
      DecodesToText(v.at, print6);
      assert ProcLine(t, VirtualRow(v, ProcForm), print6) == Opened(t, v, false);
      ProcReadsReals(Opened(t, v, false), v.reals, rest, print6);
    case Marked(kernel, shown, reals) =>
      assert EntryRow(e, ProcForm)[0] == "FWM";
      if t.cur.Some? { ProcReadsReals(t, reals, rest, print6); } else { ProcSkipsReals(t, reals, rest, print6); }
  }

  lemma ListingReadsEntry(kind: Kind, t: Reading, e: Entry, rest: seq<seq<string>>)
    requires Ok(t) && EntryFits(e)
    ensures ListingRows(ListingLine(t, EntryRow(e, ListingForm(kind)), kind),
                        RealRows(EntryReals(e), ListingForm(kind)) + rest, kind)
            == ListingRows(WithEntry(kind, t, e, true), rest, kind)
  {
    match e
    case Listed(v) =>
      assert ListingLine(t, VirtualRow(v, ListingForm(kind)), kind) == Opened(t, v, true);
      ListingReadsReals(kind, Opened(t, v, true), v.reals, rest);
    case Marked(kernel, shown, reals) =>
      assert EntryRow(e, ListingForm(kind))[0] == "FWM";
      if t.cur.Some? { ListingReadsReals(kind, t, reals, rest); } else { ListingSkipsReals(kind, t, reals, rest); }
  }

  lemma {:induction false} ProcReadsEntries(t: Reading, es: seq<Entry>, rest: seq<seq<string>>,
                                            print6: seq<nat> -> string)
    requires Ok(t) && EntriesFit(es)
    ensures ProcRows(t, EntryRows(es, ProcForm) + rest, print6)
            == ProcRows(WithEntries(PlainKind, t, es, false), rest, print6)
    decreases |es|
  {
    if es == [] {
      assert EntryRows(es, ProcForm) + rest == rest;
    } else {
      var e, more := es[0], EntryRows(es[1..], ProcForm);
      assert EntryFits(e) by { assert e in es; }
      RowsRegroup(EntryRow(e, ProcForm), RealRows(EntryReals(e), ProcForm), more, rest);
      ProcReadsEntry(t, e, more + rest, print6);
      ProcReadsEntries(WithEntry(PlainKind, t, e, false), es[1..], rest, print6);
    }
  }

  lemma {:induction false} ListingReadsEntries(kind: Kind, t: Reading, es: seq<Entry>, rest: seq<seq<string>>)
    requires Ok(t) && EntriesFit(es)
    ensures ListingRows(t, EntryRows(es, ListingForm(kind)) + rest, kind)
            == ListingRows(WithEntries(kind, t, es, true), rest, kind)
    decreases |es|
  {
    if es == [] {
      assert EntryRows(es, ListingForm(kind)) + rest == rest;
    } else {
      var e, more := es[0], EntryRows(es[1..], ListingForm(kind));
      assert EntryFits(e) by { assert e in es; }
      RowsRegroup(EntryRow(e, ListingForm(kind)), RealRows(EntryReals(e), ListingForm(kind)), more, rest);
      ListingReadsEntry(kind, t, e, more + rest);
      ListingReadsEntries(kind, WithEntry(kind, t, e, true), es[1..], rest);
    }
  }

  /** Before the first service nothing is read. */
  lemma {:induction false} ProcSkipsHeading(t: Reading, heading: seq<seq<string>>, rows: seq<seq<string>>,
                                            print6: seq<nat> -> string)
    requires Ok(t) && t.cur.None? && Heading(heading)
    ensures ProcRows(t, heading + rows, print6) == ProcRows(t, rows, print6)
    decreases |heading|
  {
    if heading == [] {
      assert heading + rows == rows;
    } else {
      assert heading[0] in heading && (heading + rows)[1..] == heading[1..] + rows;
      ProcSkipsHeading(t, heading[1..], rows, print6);
    }
  }

  lemma {:induction false} ListingSkipsHeading(kind: Kind, t: Reading, heading: seq<seq<string>>,
                                               rows: seq<seq<string>>)
    requires Ok(t) && t.cur.None? && Heading(heading)
    ensures ListingRows(t, heading + rows, kind) == ListingRows(t, rows, kind)
    decreases |heading|
  {
    if heading == [] {
      assert heading + rows == rows;
    } else {
      assert heading[0] in heading && (heading + rows)[1..] == heading[1..] + rows;
      ListingSkipsHeading(kind, t, heading[1..], rows);
    }
  }

  // ------------------------------------------------- the table the entries are read as

  /** The destinations that follow no listed service of es. */
  function Leading(es: seq<Entry>): (rs: seq<RealServer>)
    requires EntriesFit(es)
    ensures RealsFit(rs)
  {
    if es == [] || es[0].Listed? then []
    else
      assert EntryFits(es[0]) by { assert es[0] in es; }
      es[0].reals + Leading(es[1..])
  }

  function Swelled(v: Virtual, more: seq<RealServer>): (w: Virtual)
    requires Fit(v) && RealsFit(more)
    ensures Fit(w)
  {
    v.(reals := v.reals + more)
  }

  /** Each listed service with the destinations of the marked ones after it as well. */
  function Attributed(es: seq<Entry>): (vs: seq<Virtual>)
    requires EntriesFit(es)
    ensures TableFits(vs)
  {
    if es == [] then []
    else
      assert EntryFits(es[0]) by { assert es[0] in es; }
      (match es[0]
       case Marked(_, _, _) => Attributed(es[1..])
       case Listed(v) => [Swelled(v, Leading(es[1..]))] + Attributed(es[1..]))
  }

  lemma {:induction false} WithRealsTwice(kind: Kind, t: Reading, a: seq<RealServer>, b: seq<RealServer>)
    requires Ok(t) && t.cur.Some? && RealsFit(a) && RealsFit(b)
    ensures RealsFit(a + b) && WithReals(kind, t, a + b) == WithReals(kind, WithReals(kind, t, a), b)
    decreases |a|
  {
    if a == [] {
      assert a + b == b;
    } else {
      assert (a + b)[1..] == a[1..] + b;
      WithRealsTwice(kind, WithReal(kind, t, a[0]), a[1..], b);
    }
  }

  function WithLeading(kind: Kind, t: Reading, es: seq<Entry>): (u: Reading)
    requires Ok(t) && EntriesFit(es)
    ensures Ok(u)
  {
    if t.cur.Some? then WithReals(kind, t, Leading(es)) else t
  }

  lemma FirstAttributed(kind: Kind, t: Reading, v: Virtual, es: seq<Entry>, always: bool)
    requires Ok(t) && Fit(v) && EntriesFit(es)
    ensures WithTable(kind, t, [Swelled(v, Leading(es))] + Attributed(es), always)
            == WithTable(kind, WithLeading(kind, WithReals(kind, Opened(t, v, always), v.reals), es), Attributed(es),
                         always)
  {
    var w := Swelled(v, Leading(es));
    assert ([w] + Attributed(es))[1..] == Attributed(es);
    assert Opened(t, w, always) == Opened(t, v, always);
    WithRealsTwice(kind, Opened(t, v, always), v.reals, Leading(es));
  }

  lemma {:induction false} EntriesAsTable(kind: Kind, t: Reading, es: seq<Entry>, always: bool)
    requires Ok(t) && EntriesFit(es)
    ensures WithEntries(kind, t, es, always) == WithTable(kind, WithLeading(kind, t, es), Attributed(es), always)
    decreases |es|
  {
    if es != [] {
      var e, rest := es[0], es[1..];
      assert EntryFits(e) by { assert e in es; }
      EntriesAsTable(kind, WithEntry(kind, t, e, always), rest, always);
      match e
      case Marked(_, _, reals) => if t.cur.Some? { WithRealsTwice(kind, t, reals, Leading(rest)); }
      case Listed(v) => FirstAttributed(kind, t, v, rest, always);
    }
  }

  function ListedOnly(es: seq<Entry>): seq<Virtual> {
    if es == [] then [] else (if es[0].Listed? then [es[0].v] else []) + ListedOnly(es[1..])
  }

  predicate SamePlace(v: Virtual, w: Virtual) { v.proto == w.proto && v.at == w.at }

  predicate SamePlaces(vs: seq<Virtual>, ws: seq<Virtual>) {
    |vs| == |ws| && forall i :: 0 <= i < |vs| ==> SamePlace(vs[i], ws[i])
  }

  lemma SamePlacesFirst(v: Virtual, w: Virtual, vs: seq<Virtual>, ws: seq<Virtual>)
    requires SamePlace(v, w) && SamePlaces(vs, ws)
    ensures SamePlaces([v] + vs, [w] + ws)
  {
    forall i | 0 < i <= |vs| ensures SamePlace(([v] + vs)[i], ([w] + ws)[i]) {
      assert SamePlace(vs[i - 1], ws[i - 1]);
    }
  }

  lemma {:induction false} AttributedPlaces(es: seq<Entry>)
    requires EntriesFit(es)
    ensures SamePlaces(Attributed(es), ListedOnly(es))
  {
    if es != [] {
      var e, rest := es[0], es[1..];
      assert EntryFits(e) by { assert e in es; }
      AttributedPlaces(rest);
      match e
      case Marked(_, _, _) => assert [] + ListedOnly(rest) == ListedOnly(rest);
      case Listed(v) => SamePlacesFirst(Swelled(v, Leading(rest)), v, Attributed(rest), ListedOnly(rest));
    }
  }

  predicate NoneStrays(es: seq<Entry>)
    requires EntriesFit(es)
  {
    es == [] || (NoneStrays(es[1..]) && (es[0].Listed? ==> Leading(es[1..]) == []))
  }

  lemma SwelledIsSame(v: Virtual, more: seq<RealServer>)
    requires Fit(v) && RealsFit(more)
    ensures Swelled(v, more) == v <==> more == []
  {
    assert more == [] <==> v.reals + more == v.reals by { assert |v.reals + more| == |v.reals| + |more|; }
  }

  lemma SameFirst(v: Virtual, w: Virtual, vs: seq<Virtual>, ws: seq<Virtual>)
    ensures [v] + vs == [w] + ws <==> v == w && vs == ws
  {
    if [v] + vs == [w] + ws {
      assert v == ([v] + vs)[0] && w == ([w] + ws)[0];
      assert vs == ([v] + vs)[1..] && ws == ([w] + ws)[1..];
    }
  }

  /** Every destination is read as one of its own service's exactly when no marked service with
      destinations comes after a listed one. */
  lemma {:induction false} AttributedIsListedIff(es: seq<Entry>)
    requires EntriesFit(es)
    ensures Attributed(es) == ListedOnly(es) <==> NoneStrays(es)
  {
    if es != [] {
      var e, rest := es[0], es[1..];
      assert EntryFits(e) by { assert e in es; }
      AttributedIsListedIff(rest);
      if e.Listed? {
        SwelledIsSame(e.v, Leading(rest));
        SameFirst(Swelled(e.v, Leading(rest)), e.v, Attributed(rest), ListedOnly(rest));
      } else {
        assert [] + ListedOnly(rest) == ListedOnly(rest);
      }
    }
  }

  // ------------------------------------------------- both programmings compared

  predicate SameServices(t: Reading, u: Reading) { t.services == u.services && t.cur == u.cur }

  lemma {:induction false} RealsSame(t: Reading, u: Reading, rs: seq<RealServer>)
    requires Ok(t) && Ok(u) && SameServices(t, u) && t.cur.Some? && RealsFit(rs)
    ensures SameServices(WithReals(PlainKind, t, rs), WithReals(PlainKind, u, rs))
    decreases |rs|
  {
    if rs != [] { RealsSame(WithReal(PlainKind, t, rs[0]), WithReal(PlainKind, u, rs[0]), rs[1..]); }
  }

  lemma {:induction false} RealsKeepKeys(t: Reading, rs: seq<RealServer>)
    requires Ok(t) && t.cur.Some? && RealsFit(rs)
    ensures WithReals(PlainKind, t, rs).services.Keys == t.services.Keys
    decreases |rs|
  {
    if rs != [] { RealsKeepKeys(WithReal(PlainKind, t, rs[0]), rs[1..]); }
  }

  function Keys(vs: seq<Virtual>): seq<string>
    requires TableFits(vs)
  {
    if vs == [] then [] else [Key(vs[0])] + Keys(vs[1..])
  }

  /** No service of vs is repeated or already known. */
  predicate Fresh(vs: seq<Virtual>, known: set<string>)
    requires TableFits(vs)
  {
    vs == [] || (Key(vs[0]) !in known && Fresh(vs[1..], known + {Key(vs[0])}))
  }

  /** One more service, programmed both ways. */
  lemma ServiceCompared(t: Reading, u: Reading, v: Virtual)
    requires Ok(t) && Ok(u) && SameServices(t, u) && Fit(v)
    ensures var a := WithReals(PlainKind, Opened(t, v, false), v.reals);
            var b := WithReals(PlainKind, Opened(u, v, true), v.reals);
            && SameServices(a, b)
            && a.services.Keys == t.services.Keys + {Key(v)}
            && a.order == (if Key(v) in t.services then t.order else t.order + [Key(v)])
            && b.order == u.order + [Key(v)]
  {
    RealsSame(Opened(t, v, false), Opened(u, v, true), v.reals);
    RealsKeepKeys(Opened(t, v, false), v.reals);
  }

  lemma KeysFirst(order: seq<string>, vs: seq<Virtual>)
    requires vs != [] && TableFits(vs)
    ensures order + [Key(vs[0])] + Keys(vs[1..]) == order + Keys(vs)
  {
  }

  lemma {:induction false} TablesCompared(t: Reading, u: Reading, vs: seq<Virtual>)
    requires Ok(t) && Ok(u) && SameServices(t, u) && TableFits(vs)
    ensures SameServices(WithTable(PlainKind, t, vs, false), WithTable(PlainKind, u, vs, true))
    ensures WithTable(PlainKind, u, vs, true).order == u.order + Keys(vs)
    decreases |vs|
  {
    if vs != [] {
      var v := vs[0];
      assert Fit(v) by { assert v in vs; }
      ServiceCompared(t, u, v);
      var t' := WithReals(PlainKind, Opened(t, v, false), v.reals);
      var u' := WithReals(PlainKind, Opened(u, v, true), v.reals);
      assert WithTable(PlainKind, t, vs, false) == WithTable(PlainKind, t', vs[1..], false);
      assert WithTable(PlainKind, u, vs, true) == WithTable(PlainKind, u', vs[1..], true);
      TablesCompared(t', u', vs[1..]);
      KeysFirst(u.order, vs);
    }
  }

  function FirstTimes(order: seq<string>, vs: seq<Virtual>, known: set<string>): seq<string>
    requires TableFits(vs)
    decreases |vs|
  {
    if vs == [] then order
    else FirstTimes(if Key(vs[0]) in known then order else order + [Key(vs[0])], vs[1..], known + {Key(vs[0])})
  }

  lemma {:induction false} ProcOrder(t: Reading, vs: seq<Virtual>)
    requires Ok(t) && TableFits(vs)
    ensures WithTable(PlainKind, t, vs, false).order == FirstTimes(t.order, vs, t.services.Keys)
    decreases |vs|
  {
    if vs != [] {
      var v := vs[0];
      assert Fit(v) by { assert v in vs; }
      ServiceCompared(t, t, v);
      ProcOrder(WithReals(PlainKind, Opened(t, v, false), v.reals), vs[1..]);
    }
  }

  lemma {:induction false} FirstTimesAll(a: seq<string>, b: seq<string>, vs: seq<Virtual>, known: set<string>)
    requires TableFits(vs) && |a| <= |b|
    ensures FirstTimes(a, vs, known) == b + Keys(vs) <==> a == b && Fresh(vs, known)
    decreases |vs|
  {
    if vs == [] {
      assert b + Keys(vs) == b;
    } else {
      var k := Key(vs[0]);
      LongerByOne(a, b, k, k in known);
      FirstTimesAll(if k in known then a else a + [k], b + [k], vs[1..], known + {k});
      KeysFirst(b, vs);
    }
  }

  lemma LongerByOne(a: seq<string>, b: seq<string>, k: string, known: bool)
    requires |a| <= |b|
    ensures var c := if known then a else a + [k]; |c| <= |b + [k]| && (c == b + [k] <==> a == b && !known)
  {
    if !known && a + [k] == b + [k] {
      assert a == (a + [k])[..|a|] && b == (b + [k])[..|b|];
    }
  }

  // ------------------------------------------------- what the kernel holds

  predicate DistinctServices(vs: seq<Virtual>) {
    forall i, j :: 0 <= i < j < |vs| ==> vs[i].proto != vs[j].proto || vs[i].at != vs[j].at
  }

  /** What the rows of one service say: for each address the last of them. */
  function KernelDests(rs: seq<RealServer>): map<string, Dest>
    requires RealsFit(rs)
  {
    if rs == [] then map[] else map[TextAddr(rs[0].at) := Counted(PlainKind, UNSEEN, rs[0])] + KernelDests(rs[1..])
  }

  /** Their addresses after `order`, each at its first row. */
  function InOrder(order: seq<string>, known: set<string>, rs: seq<RealServer>): seq<string>
    requires RealsFit(rs)
    decreases |rs|
  {
    if rs == [] then order
    else
      var a := TextAddr(rs[0].at);
      InOrder(if a in known then order else order + [a], known + {a}, rs[1..])
  }

  function KernelService(v: Virtual): Service
    requires Fit(v)
  {
    Service(v.proto, TextAddr(v.at), KernelDests(v.reals), InOrder([], {}, v.reals))
  }

  function KernelServices(vs: seq<Virtual>): Services
    requires TableFits(vs)
  {
    if vs == [] then map[]
    else
      assert Fit(vs[0]) by { assert vs[0] in vs; }
      map[Key(vs[0]) := KernelService(vs[0])] + KernelServices(vs[1..])
  }

  /** Nothing but the columns of this listing has been counted. */
  predicate CountedOnly(dests: map<string, Dest>) { forall a :: a in dests ==> Bare(dests[a]) }

  predicate Bare(d: Dest) {
    d == UNSEEN.(weight := d.weight, seenWeight := d.seenWeight, active := d.active, inactive := d.inactive)
  }

  lemma CountedAfresh(dests: map<string, Dest>, r: RealServer)
    requires CountedOnly(dests) && IPv4(r.at)
    ensures Counted(PlainKind, DestOf(dests, TextAddr(r.at)), r) == Counted(PlainKind, UNSEEN, r)
    ensures CountedOnly(dests[TextAddr(r.at) := Counted(PlainKind, UNSEEN, r)])
  {
    assert TextAddr(r.at) in dests ==> Bare(dests[TextAddr(r.at)]);
  }

  /** A service with more rows of destinations. */
  function Extended(s: Service, rs: seq<RealServer>): Service
    requires RealsFit(rs)
  {
    s.(dests := s.dests + KernelDests(rs), order := InOrder(s.order, s.dests.Keys, rs))
  }

  /** t with s as its current service. */
  function Put(t: Reading, s: Service): (u: Reading)
    requires t.cur.Some?
    ensures Ok(u) && u.cur == t.cur && u.services[u.cur.value] == s
  {
    t.(services := t.services[t.cur.value := s])
  }

  lemma PutTwice(t: Reading, s: Service, s': Service)
    requires t.cur.Some?
    ensures Put(Put(t, s), s') == Put(t, s')
  {
    assert t.services[t.cur.value := s][t.cur.value := s'] == t.services[t.cur.value := s'];
  }

  function WithFirst(s: Service, r: RealServer): Service
    requires IPv4(r.at)
  {
    var a := TextAddr(r.at);
    s.(dests := s.dests[a := Counted(PlainKind, UNSEEN, r)], order := if a in s.dests then s.order else s.order + [a])
  }

  lemma FirstReal(t: Reading, r: RealServer, s: Service)
    requires Ok(t) && t.cur.Some? && IPv4(r.at) && t.services[t.cur.value] == s && CountedOnly(s.dests)
    ensures WithReal(PlainKind, t, r) == Put(t, WithFirst(s, r))
  {
    CountedAfresh(s.dests, r);
  }

  lemma AddedFirst<T>(m: map<string, T>, k: string, x: T, rest: map<string, T>)
    ensures m[k := x] + rest == m + (map[k := x] + rest)
    ensures m[k := x].Keys == m.Keys + {k}
  {
  }

  lemma ExtendedFirst(s: Service, rs: seq<RealServer>)
    requires rs != [] && RealsFit(rs)
    ensures RealsFit(rs[1..]) && IPv4(rs[0].at)
    ensures Extended(WithFirst(s, rs[0]), rs[1..]) == Extended(s, rs)
  {
    assert rs[0] in rs;
    AddedFirst(s.dests, TextAddr(rs[0].at), Counted(PlainKind, UNSEEN, rs[0]), KernelDests(rs[1..]));
  }

  lemma {:induction false} RealsRead(t: Reading, rs: seq<RealServer>, s: Service)
    requires Ok(t) && t.cur.Some? && RealsFit(rs) && t.services[t.cur.value] == s && CountedOnly(s.dests)
    ensures WithReals(PlainKind, t, rs) == Put(t, Extended(s, rs))
    decreases |rs|
  {
    if rs == [] {
      assert s.dests + map[] == s.dests && Extended(s, rs) == s;
      assert t.services[t.cur.value := s] == t.services;
    } else {
      ExtendedFirst(s, rs);
      FirstReal(t, rs[0], s);
      CountedAfresh(s.dests, rs[0]);
      RealsRead(Put(t, WithFirst(s, rs[0])), rs[1..], WithFirst(s, rs[0]));
      PutTwice(t, WithFirst(s, rs[0]), Extended(s, rs));
    }
  }

  function Empty(v: Virtual): Service
    requires Fit(v)
  {
    Service(v.proto, TextAddr(v.at), map[], [])
  }

  lemma OpenedIs(t: Reading, v: Virtual, always: bool)
    requires Fit(v) && Key(v) !in t.services
    ensures Opened(t, v, always).services == t.services[Key(v) := Empty(v)]
  {
  }

  lemma EmptyExtended(v: Virtual)
    requires Fit(v)
    ensures Extended(Empty(v), v.reals) == KernelService(v)
  {
    assert map[] + KernelDests(v.reals) == KernelDests(v.reals) && Empty(v).dests.Keys == {};
  }

  lemma StoredTwice(m: Services, k: string, s: Service, s': Service)
    ensures m[k := s][k := s'] == m[k := s']
  {
  }

  lemma NewService(t: Reading, v: Virtual, always: bool)
    requires Ok(t) && Fit(v) && Key(v) !in t.services
    ensures WithReals(PlainKind, Opened(t, v, always), v.reals).services == t.services[Key(v) := KernelService(v)]
  {
    OpenedIs(t, v, always);
    RealsRead(Opened(t, v, always), v.reals, Empty(v));
    StoredTwice(t.services, Key(v), Empty(v), KernelService(v));
    EmptyExtended(v);
  }

  lemma {:induction false} TableRead(t: Reading, vs: seq<Virtual>, always: bool)
    requires Ok(t) && TableFits(vs) && Fresh(vs, t.services.Keys)
    ensures WithTable(PlainKind, t, vs, always).services == t.services + KernelServices(vs)
    decreases |vs|
  {
    if vs != [] {
      var v := vs[0];
      assert Fit(v) by { assert v in vs; }
      NewService(t, v, always);
      var t' := WithReals(PlainKind, Opened(t, v, always), v.reals);
      AddedFirst(t.services, Key(v), KernelService(v), KernelServices(vs[1..]));
      TableRead(t', vs[1..], always);
      assert WithTable(PlainKind, t, vs, always) == WithTable(PlainKind, t', vs[1..], always);
    }
  }

  // ------------------------------------------------- destinations listed more than once

  predicate LastWith(rs: seq<RealServer>, i: nat) {
    i < |rs| && forall j :: i < j < |rs| ==> rs[j].at != rs[i].at
  }

  lemma {:induction false} DestsAre(rs: seq<RealServer>)
    requires RealsFit(rs)
    ensures forall a :: a in KernelDests(rs) ==> exists i :: 0 <= i < |rs| && TextAddr(rs[i].at) == a
    decreases |rs|
  {
    if rs != [] {
      DestsAre(rs[1..]);
      forall a | a in KernelDests(rs) ensures exists i :: 0 <= i < |rs| && TextAddr(rs[i].at) == a {
        if a in KernelDests(rs[1..]) {
          var i :| 0 <= i < |rs[1..]| && TextAddr(rs[1..][i].at) == a;
          assert rs[i + 1] == rs[1..][i];
        }
      }
    }
  }

  /** Of rows for one address the last one counts. */
  lemma {:induction false} LastRowCounts(rs: seq<RealServer>, i: nat)
    requires RealsFit(rs) && LastWith(rs, i)
    ensures TextAddr(rs[i].at) in KernelDests(rs)
    ensures KernelDests(rs)[TextAddr(rs[i].at)] == Counted(PlainKind, UNSEEN, rs[i])
    decreases |rs|
  {
    assert rs[i] in rs;
    if i > 0 {
      assert rs[1..][i - 1] == rs[i] && forall j :: i - 1 < j < |rs[1..]| ==> rs[1..][j] == rs[j + 1];
      LastRowCounts(rs[1..], i - 1);
    } else {
      DestsAre(rs[1..]);
      if TextAddr(rs[0].at) in KernelDests(rs[1..]) {
        var j :| 0 <= j < |rs[1..]| && TextAddr(rs[1..][j].at) == TextAddr(rs[0].at);
        assert rs[j + 1] == rs[1..][j] && rs[j + 1] in rs;
        TextAddrInjective(rs[j + 1].at, rs[0].at);
      }
    }
  }

  lemma LastUnique(rs: seq<RealServer>, i: nat, j: nat)
    requires LastWith(rs, i) && LastWith(rs, j) && rs[i].at == rs[j].at
    ensures i == j
  {
  }

  lemma DestsFirst(r: RealServer, rs: seq<RealServer>)
    requires IPv4(r.at) && RealsFit(rs)
    ensures RealsFit([r] + rs)
    ensures KernelDests([r] + rs) == map[TextAddr(r.at) := Counted(PlainKind, UNSEEN, r)] + KernelDests(rs)
  {
    assert ([r] + rs)[1..] == rs;
  }

  lemma MapsAssociate(a: map<string, Dest>, b: map<string, Dest>, c: map<string, Dest>)
    ensures a + (b + c) == a + b + c
  {
  }

  lemma {:induction false} DestsConcat(rs: seq<RealServer>, more: seq<RealServer>)
    requires RealsFit(rs) && RealsFit(more)
    ensures KernelDests(rs + more) == KernelDests(rs) + KernelDests(more)
    decreases |rs|
  {
    if rs == [] {
      assert rs + more == more;
    } else {
      var r, rest := rs[0], rs[1..];
      assert r in rs && rs == [r] + rest && rs + more == [r] + (rest + more);
      DestsConcat(rest, more);
      DestsFirst(r, rest + more);
      MapsAssociate(map[TextAddr(r.at) := Counted(PlainKind, UNSEEN, r)], KernelDests(rest), KernelDests(more));
    }
  }

  /** A service whose backends a marked one after it shares: a destination keeps its own weight and
      counts exactly when the marked service does not list it, or lists it with the same. */
  lemma SharedKeepsIff(v: Virtual, more: seq<RealServer>, i: nat)
    requires Fit(v) && RealsFit(more) && LastWith(v.reals, i)
    ensures TextAddr(v.reals[i].at) in KernelDests(Swelled(v, more).reals)
    ensures KernelDests(Swelled(v, more).reals)[TextAddr(v.reals[i].at)] == Counted(PlainKind, UNSEEN, v.reals[i]) <==>
              forall j :: 0 <= j < |more| && LastWith(more, j) && more[j].at == v.reals[i].at ==>
                Counted(PlainKind, UNSEEN, more[j]) == Counted(PlainKind, UNSEEN, v.reals[i])
  {
    var a := TextAddr(v.reals[i].at);
    LastRowCounts(v.reals, i);
    DestsConcat(v.reals, more);
    if k :| 0 <= k < |more| && LastWith(more, k) && more[k].at == v.reals[i].at {
      LastRowCounts(more, k);
      forall j | 0 <= j < |more| && LastWith(more, j) && more[j].at == v.reals[i].at ensures j == k {
        LastUnique(more, j, k);
      }
    } else if a in KernelDests(more) {
      DestsAre(more);
      var j :| 0 <= j < |more| && TextAddr(more[j].at) == a;
      assert more[j] in more && v.reals[i] in v.reals;
      TextAddrInjective(more[j].at, v.reals[i].at);
      var k := LastOf(more, j);
    }
  }

  lemma {:induction false} LastOf(rs: seq<RealServer>, i: nat) returns (k: nat)
    requires i < |rs|
    ensures i <= k && LastWith(rs, k) && rs[k].at == rs[i].at
    decreases |rs| - i
  {
    k := i;
    if j :| i < j < |rs| && rs[j].at == rs[i].at { k := LastOf(rs, j); }
  }

  /** And a destination the marked service lists is reported with the marked service's numbers. */
  lemma SharedTakesMarked(v: Virtual, more: seq<RealServer>, j: nat)
    requires Fit(v) && RealsFit(more) && LastWith(more, j)
    ensures TextAddr(more[j].at) in KernelDests(Swelled(v, more).reals)
    ensures KernelDests(Swelled(v, more).reals)[TextAddr(more[j].at)] == Counted(PlainKind, UNSEEN, more[j])
  {
    LastRowCounts(more, j);
    DestsConcat(v.reals, more);
  }

  /** No address is listed twice, and exactly those of the rows are. */
  lemma {:induction false} InOrderOnce(order: seq<string>, known: set<string>, rs: seq<RealServer>)
    requires RealsFit(rs) && (forall i, j :: 0 <= i < j < |order| ==> order[i] != order[j])
    requires known == (set a | a in order)
    ensures var r := InOrder(order, known, rs);
            && order <= r && (forall i, j :: 0 <= i < j < |r| ==> r[i] != r[j])
            && (set a | a in r) == known + KernelDests(rs).Keys
    decreases |rs|
  {
    if rs != [] {
      var a := TextAddr(rs[0].at);
      var order' := if a in known then order else order + [a];
      assert (set x | x in order') == known + {a};
      InOrderOnce(order', known + {a}, rs[1..]);
    }
  }

  predicate Differ(v: Virtual, w: Virtual) { v.proto != w.proto || v.at != w.at }

  predicate NoneKnown(vs: seq<Virtual>, known: set<string>)
    requires TableFits(vs)
  {
    forall v :: v in vs ==> Key(v) !in known
  }

  lemma DistinctFirst(v: Virtual, rest: seq<Virtual>)
    ensures DistinctServices([v] + rest) <==> DistinctServices(rest) && forall w :: w in rest ==> Differ(v, w)
  {
    var vs := [v] + rest;
    if DistinctServices(vs) {
      forall w | w in rest ensures Differ(v, w) {
        var j :| 0 <= j < |rest| && rest[j] == w;
        assert vs[0] == v && vs[j + 1] == w;
      }
      forall i, j | 0 <= i < j < |rest| ensures Differ(rest[i], rest[j]) {
        assert vs[i + 1] == rest[i] && vs[j + 1] == rest[j];
      }
    }
    if DistinctServices(rest) && forall w :: w in rest ==> Differ(v, w) {
      forall i, j | 0 <= i < j < |vs| ensures Differ(vs[i], vs[j]) {
        assert vs[j] == rest[j - 1] && rest[j - 1] in rest;
        if i > 0 { assert vs[i] == rest[i - 1]; }
      }
    }
  }

  lemma OthersKnown(v: Virtual, rest: seq<Virtual>, known: set<string>)
    requires Fit(v) && TableFits(rest)
    ensures NoneKnown(rest, known + {Key(v)}) <==> NoneKnown(rest, known) && forall w :: w in rest ==> Differ(v, w)
  {
    forall w | w in rest ensures Key(w) == Key(v) <==> !Differ(v, w) {
      if Key(w) == Key(v) { KeyInjective(v, w); }
    }
  }

  lemma {:induction false} FreshIffDistinct(vs: seq<Virtual>, known: set<string>)
    requires TableFits(vs)
    ensures Fresh(vs, known) <==> DistinctServices(vs) && NoneKnown(vs, known)
    decreases |vs|
  {
    if vs != [] {
      var v, rest := vs[0], vs[1..];
      assert Fit(v) by { assert v in vs; }
      FreshIffDistinct(rest, known + {Key(v)});
      assert vs == [v] + rest;
      DistinctFirst(v, rest);
      OthersKnown(v, rest, known);
      assert NoneKnown(vs, known) <==> Key(v) !in known && NoneKnown(rest, known);
    }
  }

  // ------------------------------------------------- the two sources agree

  /** rows are some printing of the listing: any heading and any column padding. */
  predicate Prints(rows: seq<Row>, heading: seq<seq<string>>, es: seq<Entry>, form: Form)
    requires EntriesFit(es)
  {
    (forall r :: r in rows ==> Fits(r)) && Heading(heading) && RowWords(rows) == Listing(heading, es, form)
  }

  /** The empty line after the last newline. */
  const BLANK: seq<seq<string>> := [[]]

  lemma ReadsProc(rows: seq<Row>, heading: seq<seq<string>>, es: seq<Entry>, print6: seq<nat> -> string)
    requires EntriesFit(es) && Prints(rows, heading, es, ProcForm)
    ensures ReadProc(PrintRows(rows), print6) == WithTable(PlainKind, EMPTY, Attributed(es), false)
  {
    LayoutIrrelevant(rows);
    var body := EntryRows(es, ProcForm);
    assert heading + body + BLANK == heading + (body + BLANK);
    ProcSkipsHeading(EMPTY, heading, body + BLANK, print6);
    ProcReadsEntries(EMPTY, es, BLANK, print6);
    EntriesAsTable(PlainKind, EMPTY, es, false);
    var t := WithTable(PlainKind, EMPTY, Attributed(es), false);
    assert ProcLine(t, [], print6) == t;
    assert ProcRows(t, BLANK, print6) == t by { assert BLANK[1..] == []; }
  }

  lemma ReadsListing(rows: seq<Row>, heading: seq<seq<string>>, es: seq<Entry>)
    requires EntriesFit(es) && Prints(rows, heading, es, ListingForm(PlainKind))
    ensures ReadListing(PrintRows(rows), PlainKind, map[]) == WithTable(PlainKind, EMPTY, Attributed(es), true)
  {
    LayoutIrrelevant(rows);
    var body := EntryRows(es, ListingForm(PlainKind));
    assert heading + body + BLANK == heading + (body + BLANK);
    ListingSkipsHeading(PlainKind, EMPTY, heading, body + BLANK);
    ListingReadsEntries(PlainKind, EMPTY, es, BLANK);
    EntriesAsTable(PlainKind, EMPTY, es, true);
    var t := WithTable(PlainKind, EMPTY, Attributed(es), true);
    assert ListingRows(t, BLANK, PlainKind) == t by { assert BLANK[1..] == []; }
  }

  lemma DistinctListed(es: seq<Entry>)
    requires EntriesFit(es)
    ensures DistinctServices(Attributed(es)) <==> DistinctServices(ListedOnly(es))
  {
    AttributedPlaces(es);
    var vs, ws := Attributed(es), ListedOnly(es);
    forall i, j | 0 <= i < j < |vs| ensures Differ(vs[i], vs[j]) <==> Differ(ws[i], ws[j]) {
      assert SamePlace(vs[i], ws[i]) && SamePlace(vs[j], ws[j]);
    }
  }

  /** For every IPv4 table, marked services included, every heading and every padding of the two
      printings, both readers build the same services; they report the same order exactly when no
      service is listed twice. */
  lemma SourcesAgree(es: seq<Entry>, proc: seq<Row>, listing: seq<Row>, h: seq<seq<string>>, h': seq<seq<string>>,
                     print6: seq<nat> -> string)
    requires EntriesFit(es) && Prints(proc, h, es, ProcForm) && Prints(listing, h', es, ListingForm(PlainKind))
    ensures ReadProc(PrintRows(proc), print6).services == ReadListing(PrintRows(listing), PlainKind, map[]).services
    ensures ReadProc(PrintRows(proc), print6).order == ReadListing(PrintRows(listing), PlainKind, map[]).order
            <==> DistinctServices(ListedOnly(es))
  {
    var vs := Attributed(es);
    ReadsProc(proc, h, es, print6);
    ReadsListing(listing, h', es);
    TablesCompared(EMPTY, EMPTY, vs);
    ProcOrder(EMPTY, vs);
    FirstTimesAll([], [], vs, {});
    assert EMPTY.services.Keys == {};
    FreshIffDistinct(vs, {});
    DistinctListed(es);
  }

  /** And what both read from the kernel's distinct services and destinations is the table itself:
      every listed service in order, each with its destinations, weights and connection counts, and
      with those of the marked services after it. */
  lemma SourcesReadTheKernel(es: seq<Entry>, proc: seq<Row>, listing: seq<Row>, h: seq<seq<string>>,
                             h': seq<seq<string>>, print6: seq<nat> -> string)
    requires EntriesFit(es) && Prints(proc, h, es, ProcForm) && Prints(listing, h', es, ListingForm(PlainKind))
    requires DistinctServices(ListedOnly(es))
    ensures ReadProc(PrintRows(proc), print6).services == KernelServices(Attributed(es))
    ensures ReadProc(PrintRows(proc), print6).order == Keys(Attributed(es))
    ensures ReadListing(PrintRows(listing), PlainKind, map[]).services == KernelServices(Attributed(es))
    ensures ReadListing(PrintRows(listing), PlainKind, map[]).order == Keys(Attributed(es))
    ensures NoneStrays(es) <==> Attributed(es) == ListedOnly(es)
  {
    var vs := Attributed(es);
    SourcesAgree(es, proc, listing, h, h', print6);
    ReadsProc(proc, h, es, print6);
    ReadsListing(listing, h', es);
    DistinctListed(es);
    FreshIffDistinct(vs, {});
    assert EMPTY.services.Keys == {};
    TableRead(EMPTY, vs, true);
    assert map[] + KernelServices(vs) == KernelServices(vs);
    TablesCompared(EMPTY, EMPTY, vs);
    assert [] + Keys(vs) == Keys(vs);
    AttributedIsListedIff(es);
  }
}
