/** What reading ipvsadm's three listings one after another makes of the kernel's table
    (keepalived/keepalived.go readIPVS). */
module IpvsCounters {
  import opened Options
  import opened Words
  import opened Ipvs
  import opened IpvsAgreement

  /** For each address the last of its rows. */
  function LastRows(rs: seq<RealServer>): map<string, RealServer>
    requires RealsFit(rs)
  {
    if rs == [] then map[] else map[TextAddr(rs[0].at) := rs[0]] + LastRows(rs[1..])
  }

  /** Each destination with what the listing counts in its last row. */
  function Updated(kind: Kind, dests: map<string, Dest>, rows: map<string, RealServer>): map<string, Dest> {
    map a | a in dests.Keys + rows.Keys :: if a in rows then Counted(kind, DestOf(dests, a), rows[a]) else dests[a]
  }

  function Grown(kind: Kind, s: Service, rs: seq<RealServer>): Service
    requires RealsFit(rs)
  {
    s.(dests := Updated(kind, s.dests, LastRows(rs)), order := InOrder(s.order, s.dests.Keys, rs))
  }

  function GrownFirst(kind: Kind, s: Service, r: RealServer): Service
    requires IPv4(r.at)
  {
    var a := TextAddr(r.at);
    s.(dests := s.dests[a := Counted(kind, DestOf(s.dests, a), r)],
       order := if a in s.dests then s.order else s.order + [a])
  }

  lemma CountedTwice(kind: Kind, d: Dest, r: RealServer, r': RealServer)
    ensures Counted(kind, Counted(kind, d, r), r') == Counted(kind, d, r')
  {
  }

  lemma UpdatedFirst(kind: Kind, dests: map<string, Dest>, a: string, r: RealServer, rows: map<string, RealServer>)
    ensures Updated(kind, dests[a := Counted(kind, DestOf(dests, a), r)], rows)
            == Updated(kind, dests, map[a := r] + rows)
  {
    var d := Counted(kind, DestOf(dests, a), r);
    var x, y := Updated(kind, dests[a := d], rows), Updated(kind, dests, map[a := r] + rows);
    assert x.Keys == y.Keys;
    forall b | b in x ensures x[b] == y[b] {
      if b == a && a in rows { CountedTwice(kind, DestOf(dests, a), r, rows[a]); }
    }
  }

  lemma GrownRest(kind: Kind, s: Service, rs: seq<RealServer>)
    requires rs != [] && RealsFit(rs)
    ensures RealsFit(rs[1..]) && IPv4(rs[0].at)
    ensures Grown(kind, GrownFirst(kind, s, rs[0]), rs[1..]) == Grown(kind, s, rs)
  {
    assert rs[0] in rs;
    UpdatedFirst(kind, s.dests, TextAddr(rs[0].at), rs[0], LastRows(rs[1..]));
    assert GrownFirst(kind, s, rs[0]).dests.Keys == s.dests.Keys + {TextAddr(rs[0].at)};
  }

  lemma GrownByNone(kind: Kind, s: Service)
    ensures Grown(kind, s, []) == s
  {
    assert Updated(kind, s.dests, map[]) == s.dests;
  }

  lemma OneRealGrows(kind: Kind, t: Reading, r: RealServer, s: Service)
    requires Ok(t) && t.cur.Some? && IPv4(r.at) && t.services[t.cur.value] == s
    ensures WithReal(kind, t, r) == Put(t, GrownFirst(kind, s, r))
  {
  }

  lemma {:induction false} RealsGrow(kind: Kind, t: Reading, rs: seq<RealServer>, s: Service)
    requires Ok(t) && t.cur.Some? && RealsFit(rs) && t.services[t.cur.value] == s
    ensures WithReals(kind, t, rs) == Put(t, Grown(kind, s, rs))
    decreases |rs|
  {
    if rs == [] {
      GrownByNone(kind, s);
      assert t.services[t.cur.value := s] == t.services;
    } else {
      GrownRest(kind, s, rs);
      OneRealGrows(kind, t, rs[0], s);
      RealsGrow(kind, Put(t, GrownFirst(kind, s, rs[0])), rs[1..], GrownFirst(kind, s, rs[0]));
      PutTwice(t, GrownFirst(kind, s, rs[0]), Grown(kind, s, rs));
    }
  }

  function Known(m: Services, v: Virtual): Service
    requires Fit(v)
  {
    if Key(v) in m then m[Key(v)] else Empty(v)
  }

  function ServicesAfter(kind: Kind, m: Services, vs: seq<Virtual>): Services
    requires TableFits(vs)
    decreases |vs|
  {
    if vs == [] then m
    else
      assert Fit(vs[0]) by { assert vs[0] in vs; }
      ServicesAfter(kind, m[Key(vs[0]) := Grown(kind, Known(m, vs[0]), vs[0].reals)], vs[1..])
  }

  lemma ServiceGrows(kind: Kind, t: Reading, v: Virtual)
    requires Ok(t) && Fit(v)
    ensures WithReals(kind, Opened(t, v, true), v.reals).services
            == t.services[Key(v) := Grown(kind, Known(t.services, v), v.reals)]
  {
    var u, s := Opened(t, v, true), Known(t.services, v);
    assert u.services == t.services[Key(v) := s];
    RealsGrow(kind, u, v.reals, s);
    StoredTwice(t.services, Key(v), s, Grown(kind, s, v.reals));
  }

  lemma {:induction false} TableGrows(kind: Kind, t: Reading, vs: seq<Virtual>)
    requires Ok(t) && TableFits(vs)
    ensures WithTable(kind, t, vs, true).services == ServicesAfter(kind, t.services, vs)
    decreases |vs|
  {
    if vs != [] {
      var v := vs[0];
      assert Fit(v) by { assert v in vs; }
      ServiceGrows(kind, t, v);
      TableGrows(kind, WithReals(kind, Opened(t, v, true), v.reals), vs[1..]);
    }
  }

  /** Of distinct services each grows by its own rows only. */
  lemma {:induction false} EachGrows(kind: Kind, m: Services, vs: seq<Virtual>, known: set<string>)
    requires TableFits(vs) && Fresh(vs, known)
    ensures forall k :: k in known && k in m ==>
              k in ServicesAfter(kind, m, vs) && ServicesAfter(kind, m, vs)[k] == m[k]
    ensures forall v :: v in vs ==>
              Key(v) in ServicesAfter(kind, m, vs)
              && ServicesAfter(kind, m, vs)[Key(v)] == Grown(kind, Known(m, v), v.reals)
    ensures forall k :: k in ServicesAfter(kind, m, vs) ==> k in m || k in Keys(vs)
    decreases |vs|
  {
    if vs != [] {
      var v, rest := vs[0], vs[1..];
      assert Fit(v) by { assert v in vs; }
      var m' := m[Key(v) := Grown(kind, Known(m, v), v.reals)];
      EachGrows(kind, m', rest, known + {Key(v)});
      FreshKeys(rest, known + {Key(v)});
      forall w | w in vs
        ensures Key(w) in ServicesAfter(kind, m, vs)
        ensures ServicesAfter(kind, m, vs)[Key(w)] == Grown(kind, Known(m, w), w.reals)
      {
        if w in rest {
          assert Key(w) != Key(v) && Known(m', w) == Known(m, w);
        } else {
          assert w == v && Key(v) in known + {Key(v)};
        }
      }
    }
  }

  lemma FreshKeys(vs: seq<Virtual>, known: set<string>)
    requires TableFits(vs) && Fresh(vs, known)
    ensures forall v :: v in vs ==> Key(v) !in known
  {
    FreshIffDistinct(vs, known);
  }

  // ------------------------------------------------- the three listings

  /** Everything the kernel counts for a destination that a reader keeps. */
  function FullDest(r: RealServer): Dest {
    Dest(r.weight, true, r.active as real, r.inactive as real, r.stats.conns as real, r.stats.inPkts as real,
         r.stats.inBytes as real, r.rate.cps as real, r.rate.inPps as real)
  }

  function FullDests(rows: map<string, RealServer>): map<string, Dest> { map a | a in rows :: FullDest(rows[a]) }

  function FullService(v: Virtual): Service
    requires Fit(v)
  {
    Service(v.proto, TextAddr(v.at), FullDests(LastRows(v.reals)), InOrder([], {}, v.reals))
  }

  lemma {:induction false} NothingNew(order: seq<string>, known: set<string>, rs: seq<RealServer>)
    requires RealsFit(rs) && LastRows(rs).Keys <= known
    ensures InOrder(order, known, rs) == order
    decreases |rs|
  {
    if rs != [] {
      assert TextAddr(rs[0].at) in LastRows(rs) && LastRows(rs[1..]).Keys <= LastRows(rs).Keys;
      NothingNew(order, known + {TextAddr(rs[0].at)}, rs[1..]);
    }
  }

  lemma AllThree(rows: map<string, RealServer>)
    ensures var plain := Updated(PlainKind, map[], rows);
            && plain.Keys == rows.Keys && Updated(StatsKind, plain, rows).Keys == rows.Keys
            && Updated(RateKind, Updated(StatsKind, plain, rows), rows) == FullDests(rows)
  {
  }

  lemma ServiceFull(v: Virtual)
    requires Fit(v)
    ensures Grown(RateKind, Grown(StatsKind, Grown(PlainKind, Empty(v), v.reals), v.reals), v.reals) == FullService(v)
  {
    var rows := LastRows(v.reals);
    AllThree(rows);
    var plain := Grown(PlainKind, Empty(v), v.reals);
    assert Empty(v).dests.Keys == {};
    NothingNew(plain.order, rows.Keys, v.reals);
  }

  lemma ReadsAsTable(kind: Kind, rows: seq<Row>, heading: seq<seq<string>>, es: seq<Entry>, into: Services)
    requires EntriesFit(es) && Prints(rows, heading, es, ListingForm(kind))
    ensures ReadListing(PrintRows(rows), kind, into).services == ServicesAfter(kind, into, Attributed(es))
  {
    var t := Reading(into, [], None);
    LayoutIrrelevant(rows);
    var body := EntryRows(es, ListingForm(kind));
    assert heading + body + BLANK == heading + (body + BLANK);
    ListingSkipsHeading(kind, t, heading, body + BLANK);
    ListingReadsEntries(kind, t, es, BLANK);
    EntriesAsTable(kind, t, es, true);
    var u := WithTable(kind, t, Attributed(es), true);
    assert ListingRows(u, BLANK, kind) == u by { assert BLANK[1..] == []; }
    TableGrows(kind, t, Attributed(es));
  }

  /** Reading the plain listing, then the statistics, then the rates of one table gives every service
      its own destinations, each with its own weight, connections, packets, bytes and rates: no listing
      disturbs what another counted, and no column is taken for another. */
  lemma ListingsReadAll(es: seq<Entry>, plain: seq<Row>, stats: seq<Row>, rate: seq<Row>, h: seq<seq<string>>,
                        h': seq<seq<string>>, h'': seq<seq<string>>)
    requires EntriesFit(es) && DistinctServices(ListedOnly(es))
    requires Prints(plain, h, es, ListingForm(PlainKind)) && Prints(stats, h', es, ListingForm(StatsKind))
    requires Prints(rate, h'', es, ListingForm(RateKind))
    ensures var one := ReadListing(PrintRows(plain), PlainKind, map[]).services;
            var two := ReadListing(PrintRows(stats), StatsKind, one).services;
            var all := ReadListing(PrintRows(rate), RateKind, two).services;
            && (forall k :: k in all ==> k in Keys(Attributed(es)))
            && forall v :: v in Attributed(es) ==> Key(v) in all && all[Key(v)] == FullService(v)
  {
    var vs := Attributed(es);
    DistinctListed(es);
    FreshIffDistinct(vs, {});
    var one := ReadListing(PrintRows(plain), PlainKind, map[]).services;
    var two := ReadListing(PrintRows(stats), StatsKind, one).services;
    var all := ReadListing(PrintRows(rate), RateKind, two).services;
    ReadsAsTable(PlainKind, plain, h, es, map[]);
    ReadsAsTable(StatsKind, stats, h', es, one);
    ReadsAsTable(RateKind, rate, h'', es, two);
    EachGrows(PlainKind, map[], vs, {});
    EachGrows(StatsKind, one, vs, {});
    EachGrows(RateKind, two, vs, {});
    forall v | v in vs ensures Key(v) in all && all[Key(v)] == FullService(v) { ServiceFull(v); }
  }
}
