/** AdGuard's upstream_dns list: rendered from rows (backend/app/sync.py) and parsed back
    (backend/app/routers/servers.py). */
module Upstreams {
  import opened Options
  import opened Words

  // ------------------------------------------------- order-keeping removal of repeats

  function AddNew(out: seq<string>, e: string): seq<string> { if e == "" || e in out then out else out + [e] }

  function AddAll(out: seq<string>, es: seq<string>): seq<string>
    decreases |es|
  {
    if es == [] then out else AddAll(AddNew(out, es[0]), es[1..])
  }

  function Deduped(es: seq<string>): seq<string> { AddAll([], es) }

  predicate NoRepeats(s: seq<string>) { forall i, j :: 0 <= i < j < |s| ==> s[i] != s[j] }

  lemma {:induction false} AddAllKeeps(out: seq<string>, es: seq<string>)
    requires NoRepeats(out) && "" !in out
    ensures NoRepeats(AddAll(out, es)) && "" !in AddAll(out, es) && out <= AddAll(out, es)
    ensures forall e :: e in AddAll(out, es) <==> e in out || (e in es && e != "")
    decreases |es|
  {
    if es != [] {
      AddAllKeeps(AddNew(out, es[0]), es[1..]);
      assert forall e :: e in es <==> e == es[0] || e in es[1..];
    }
  }

  lemma {:induction false} AddAllConcat(out: seq<string>, a: seq<string>, b: seq<string>)
    ensures AddAll(out, a + b) == AddAll(AddAll(out, a), b)
    decreases |a|
  {
    if a == [] {
      assert a + b == b;
    } else {
      assert (a + b)[1..] == a[1..] + b;
      AddAllConcat(AddNew(out, a[0]), a[1..], b);
    }
  }

  lemma {:induction false} AddAllNothing(out: seq<string>, es: seq<string>)
    requires forall e :: e in es ==> e == "" || e in out
    ensures AddAll(out, es) == out
    decreases |es|
  {
    if es != [] {
      assert es[0] in es;
      AddAllNothing(out, es[1..]);
    }
  }

  lemma {:induction false} AddAllGrows(out: seq<string>, es: seq<string>)
    ensures forall e :: e in out ==> e in AddAll(out, es)
    ensures forall e :: e in es && e != "" ==> e in AddAll(out, es)
    decreases |es|
  {
    if es != [] { AddAllGrows(AddNew(out, es[0]), es[1..]); }
  }

  /** _dedupe: what is left has no blanks and no repeats, and is everything that came in. */
  method Dedupe(entries: seq<string>) returns (out: seq<string>)
    ensures out == Deduped(entries)
    ensures NoRepeats(out) && forall e :: e in out <==> e in entries && e != ""
  {
    AddAllKeeps([], entries);
    var seen: set<string> := {};
    out := [];
    for i := 0 to |entries|
      invariant AddAll(out, entries[i..]) == Deduped(entries)
      invariant forall e :: e in seen <==> e in out
    {
      var e := entries[i];
      assert entries[i..][1..] == entries[i + 1..];
      if e != "" && e !in seen {
        seen := seen + {e};
        out := out + [e];
      }
    }
  }

  // ------------------------------------------------- the per-domain syntax

  /** Index of the first "/]", or the length. */
  function Close(s: string): (n: nat)
    ensures n <= |s|
    ensures n < |s| ==> n + 1 < |s| && s[n] == '/' && s[n + 1] == ']'
  {
    if |s| < 2 then |s| else if s[0] == '/' && s[1] == ']' then 0
    else var n := Close(s[1..]); n + 1
  }

  datatype Forward = Forward(domains: string, addrs: string)

  predicate ClosesAt(s: string, p: nat) { p + 1 < |s| && s[p] == '/' && s[p + 1] == ']' }

  /** The domains may end at j: at least one character before this "/]", addresses after it and any
      blanks, and no line break in either part. */
  predicate MatchesAt(body: string, j: nat) {
    0 < j && ClosesAt(body, j) && '\n' !in body[..j] &&
    var addrs := TrimLeft(body[j + 2..]);
    addrs != "" && '\n' !in addrs
  }

  function MatchFrom(body: string, j: nat): Option<Forward>
    requires j <= |body|
    decreases |body| - j
  {
    if j == |body| then None
    else if MatchesAt(body, j) then Some(Forward(body[..j], TrimLeft(body[j + 2..])))
    else MatchFrom(body, j + 1)
  }

  /** _FORWARD_RE on a stripped line: "[/", and the shortest domains after which the rest matches. */
  function MatchForward(line: string): Option<Forward> {
    if |line| < 3 || line[..2] != "[/" then None else MatchFrom(line[2..], 1)
  }

  lemma {:induction false} MatchFromLeast(body: string, j: nat) returns (k: nat)
    requires j <= |body| && MatchFrom(body, j).Some?
    ensures j <= k < |body| && MatchesAt(body, k)
              && MatchFrom(body, j).value == Forward(body[..k], TrimLeft(body[k + 2..]))
    ensures forall p :: j <= p < k ==> !MatchesAt(body, p)
    decreases |body| - j
  {
    k := j;
    if !MatchesAt(body, j) { k := MatchFromLeast(body, j + 1); }
  }

  lemma {:induction false} MatchFromIs(body: string, j: nat, k: nat)
    requires j <= k < |body| && MatchesAt(body, k) && forall p :: j <= p < k ==> !MatchesAt(body, p)
    ensures MatchFrom(body, j) == Some(Forward(body[..k], TrimLeft(body[k + 2..])))
    decreases k - j
  {
    if j < k { MatchFromIs(body, j + 1, k); }
  }

  function NonEmpty(ps: seq<string>): seq<string> {
    if ps == [] then [] else (if ps[0] != "" then [ps[0]] else []) + NonEmpty(ps[1..])
  }

  type Zones = map<seq<string>, seq<string>>

  /** Plain addresses, and per tuple of domains its addresses. */
  datatype Parsed = Parsed(plain: seq<string>, zones: Zones)

  function AddTo(m: Zones, domains: seq<string>, addr: string): Zones {
    m[domains := AddNew(if domains in m then m[domains] else [], addr)]
  }

  function AddAllTo(m: Zones, domains: seq<string>, addrs: seq<string>): Zones
    decreases |addrs|
  {
    if addrs == [] then m else AddAllTo(AddTo(m, domains, addrs[0]), domains, addrs[1..])
  }

  function ParseLine(p: Parsed, raw: string): Parsed {
    var line := Strip(raw);
    if line == "" || line[0] == '#' then p
    else
      match MatchForward(line)
      case Some(f) => p.(zones := AddAllTo(p.zones, NonEmpty(Split(f.domains, '/')), Fields(f.addrs)))
      case None => p.(plain := AddAll(p.plain, Fields(line)))
  }

  function ParseLines(p: Parsed, entries: seq<string>): Parsed
    decreases |entries|
  {
    if entries == [] then p else ParseLines(ParseLine(p, entries[0]), entries[1..])
  }

  const NOTHING := Parsed([], map[])

  method AddForward(m: Zones, domains: seq<string>, addrs: seq<string>) returns (forwards: Zones)
    ensures forwards == AddAllTo(m, domains, addrs)
    requires "" !in addrs
  {
    forwards := m;
    for i := 0 to |addrs|
      invariant AddAllTo(forwards, domains, addrs[i..]) == AddAllTo(m, domains, addrs)
    {
      assert addrs[i..][1..] == addrs[i + 1..] && addrs[i] in addrs;
      ghost var before := forwards;
      if domains !in forwards { forwards := forwards[domains := []]; }
      if addrs[i] !in forwards[domains] {
        forwards := forwards[domains := forwards[domains] + [addrs[i]]];
      }
      assert forwards == AddTo(before, domains, addrs[i]);
    }
  }

  method AddPlain(list: seq<string>, addrs: seq<string>) returns (plain: seq<string>)
    requires "" !in addrs
    ensures plain == AddAll(list, addrs)
  {
    plain := list;
    for i := 0 to |addrs|
      invariant AddAll(plain, addrs[i..]) == AddAll(list, addrs)
    {
      assert addrs[i..][1..] == addrs[i + 1..];
      if addrs[i] !in plain { plain := plain + [addrs[i]]; }
    }
  }

  method ParseUpstreams(entries: seq<string>) returns (plain: seq<string>, forwards: Zones)
    ensures Parsed(plain, forwards) == ParseLines(NOTHING, entries)
  {
    plain, forwards := [], map[];
    for i := 0 to |entries|
      invariant ParseLines(Parsed(plain, forwards), entries[i..]) == ParseLines(NOTHING, entries)
    {
      assert entries[i..][1..] == entries[i + 1..];
      var line := Strip(entries[i]);
      if line == "" || line[0] == '#' { continue; }
      var m := MatchForward(line);
      if m.Some? {
        forwards := AddForward(forwards, NonEmpty(Split(m.value.domains, '/')), Fields(m.value.addrs));
      } else {
        plain := AddPlain(plain, Fields(line));
      }
    }
  }

  /** _plain_list, for the bootstrap, fallback and private lists. */
  function Unbracketed(ts: seq<string>): seq<string> {
    if ts == [] then [] else (if ts[0] != "" && ts[0][0] == '[' then [] else [ts[0]]) + Unbracketed(ts[1..])
  }

  function AllFields(entries: seq<string>): seq<string> {
    if entries == [] then [] else Fields(entries[0]) + AllFields(entries[1..])
  }

  method AddUnbracketed(list: seq<string>, addrs: seq<string>) returns (out: seq<string>)
    requires "" !in addrs
    ensures out == AddAll(list, Unbracketed(addrs))
  {
    out := list;
    for i := 0 to |addrs|
      invariant AddAll(out, Unbracketed(addrs[i..])) == AddAll(list, Unbracketed(addrs))
    {
      assert addrs[i..][1..] == addrs[i + 1..] && addrs[i] in addrs;
      AddFirst(out, addrs[i], Unbracketed(addrs[i + 1..]));
      if addrs[i][0] != '[' && addrs[i] !in out { out := out + [addrs[i]]; }
    }
  }

  lemma AddFirst(out: seq<string>, e: string, rest: seq<string>)
    ensures AddAll(out, [e] + rest) == AddAll(AddNew(out, e), rest) && AddAll(out, [] + rest) == AddAll(out, rest)
  {
    assert ([e] + rest)[1..] == rest && [] + rest == rest;
  }

  lemma UnbracketedCons(t: string, rest: seq<string>)
    ensures Unbracketed([t] + rest) == (if t != "" && t[0] == '[' then [] else [t]) + Unbracketed(rest)
  {
    assert ([t] + rest)[1..] == rest;
  }

  lemma Associate(a: seq<string>, b: seq<string>, c: seq<string>)
    ensures a + (b + c) == a + b + c
  {
  }

  lemma {:induction false} UnbracketedConcat(a: seq<string>, b: seq<string>)
    ensures Unbracketed(a + b) == Unbracketed(a) + Unbracketed(b)
  {
    if a == [] {
      assert a + b == b;
    } else {
      assert a + b == [a[0]] + (a[1..] + b) && a == [a[0]] + a[1..];
      UnbracketedConcat(a[1..], b);
      UnbracketedCons(a[0], a[1..] + b);
      UnbracketedCons(a[0], a[1..]);
      Associate(Unbracketed([a[0]]), Unbracketed(a[1..]), Unbracketed(b));
      UnbracketedCons(a[0], []);
      assert [a[0]] + [] == [a[0]];
    }
  }

  method PlainList(entries: seq<string>) returns (out: seq<string>)
    ensures out == Deduped(Unbracketed(AllFields(entries)))
  {
    out := [];
    assert entries[0..] == entries;
    for i := 0 to |entries|
      invariant AddAll(out, Unbracketed(AllFields(entries[i..]))) == Deduped(Unbracketed(AllFields(entries)))
    {
      assert entries[i..][1..] == entries[i + 1..];
      UnbracketedConcat(Fields(entries[i]), AllFields(entries[i + 1..]));
      AddAllConcat(out, Unbracketed(Fields(entries[i])), Unbracketed(AllFields(entries[i + 1..])));
      out := AddUnbracketed(out, Fields(entries[i]));
    }
  }

  // ------------------------------------------------- the desired list

  datatype Scope = Everywhere | InZones(ids: seq<nat>) | OnServer(id: Option<nat>)
  datatype Server = Server(id: nat, zone: Option<nat>)

  datatype Kind = General | Bootstrap | Fallback | Private

  datatype Upstream = Upstream(enabled: bool, kind: Kind, scope: Scope, address: string)
  datatype ForwardZone = ForwardZone(enabled: bool, scope: Scope, domains: string, upstreams: string)

  predicate ScopeMatches(scope: Scope, server: Server) {
    match scope
    case Everywhere => true
    case InZones(ids) => server.zone.Some? && server.zone.value in ids
    case OnServer(id) => id == Some(server.id)
  }

  function Addresses(rows: seq<Upstream>, kind: Kind, server: Server): seq<string> {
    if rows == [] then []
    else
      var a := Strip(rows[0].address);
      (if rows[0].enabled && rows[0].kind == kind && ScopeMatches(rows[0].scope, server) && a != "" then [a] else [])
      + Addresses(rows[1..], kind, server)
  }

  function AddressesOfKind(rows: seq<Upstream>, kind: Kind, server: Server): seq<string> {
    Deduped(Addresses(rows, kind, server))
  }

  function CommasToBlanks(s: string): (t: string)
    ensures |t| == |s| && forall i :: 0 <= i < |s| ==> t[i] == if s[i] == ',' then ' ' else s[i]
  {
    if s == "" then "" else [if s[0] == ',' then ' ' else s[0]] + CommasToBlanks(s[1..])
  }

  /** re.split on commas and blanks, without the empty pieces. */
  function Tokens(s: string): (ts: seq<string>)
    ensures forall t :: t in ts ==> Word(t)
  {
    Fields(CommasToBlanks(s))
  }

  function Join(ts: seq<string>, sep: char): string {
    if ts == [] then "" else if |ts| == 1 then ts[0] else ts[0] + ([sep] + Join(ts[1..], sep))
  }

  function ZoneLine(domains: seq<string>, upstreams: seq<string>): string {
    "[/" + Join(domains, '/') + "/]" + Join(upstreams, ' ')
  }

  datatype Zone = Zone(domains: seq<string>, upstreams: seq<string>)

  /** The forward zones that make it into the list. */
  function ZonesFor(rows: seq<ForwardZone>, server: Server): seq<Zone> {
    if rows == [] then []
    else
      var z := Zone(Tokens(rows[0].domains), Tokens(rows[0].upstreams));
      (if rows[0].enabled && ScopeMatches(rows[0].scope, server) && z.domains != [] && z.upstreams != []
       then [z] else [])
      + ZonesFor(rows[1..], server)
  }

  function Lines(zs: seq<Zone>): seq<string> {
    if zs == [] then [] else [ZoneLine(zs[0].domains, zs[0].upstreams)] + Lines(zs[1..])
  }

  function DesiredUpstreams(rows: seq<Upstream>, zones: seq<ForwardZone>, server: Server): seq<string> {
    Deduped(AddressesOfKind(rows, General, server) + Lines(ZonesFor(zones, server)))
  }

  function LineFor(fz: ForwardZone, server: Server): seq<string> {
    var domains, upstreams := Tokens(fz.domains), Tokens(fz.upstreams);
    if fz.enabled && ScopeMatches(fz.scope, server) && domains != [] && upstreams != []
    then [ZoneLine(domains, upstreams)] else []
  }

  lemma ZonesForFirst(fz: ForwardZone, rest: seq<ForwardZone>, server: Server)
    ensures Lines(ZonesFor([fz] + rest, server)) == LineFor(fz, server) + Lines(ZonesFor(rest, server))
  {
    assert ([fz] + rest)[1..] == rest;
    var z, zs := Zone(Tokens(fz.domains), Tokens(fz.upstreams)), ZonesFor(rest, server);
    assert ([z] + zs)[1..] == zs;
    assert [] + zs == zs && [] + Lines(zs) == Lines(zs);
  }

  lemma LinesFrom(zones: seq<ForwardZone>, i: nat, server: Server, entries: seq<string>)
    requires i < |zones|
    ensures entries + Lines(ZonesFor(zones[i..], server))
            == entries + LineFor(zones[i], server) + Lines(ZonesFor(zones[i + 1..], server))
  {
    assert zones[i..] == [zones[i]] + zones[i + 1..];
    ZonesForFirst(zones[i], zones[i + 1..], server);
  }

  method ZoneEntry(fz: ForwardZone, server: Server) returns (line: seq<string>)
    ensures line == LineFor(fz, server)
  {
    if !fz.enabled || !ScopeMatches(fz.scope, server) { return []; }
    var domains, upstreams := Tokens(fz.domains), Tokens(fz.upstreams);
    if domains == [] || upstreams == [] { return []; }
    line := [ZoneLine(domains, upstreams)];
  }

  method DesiredUpstreamsForServer(rows: seq<Upstream>, zones: seq<ForwardZone>, server: Server)
    returns (list: seq<string>)
    ensures list == DesiredUpstreams(rows, zones, server)
  {
    var entries := AddressesOfKind(rows, General, server);
    ghost var whole := entries + Lines(ZonesFor(zones, server));
    assert zones[0..] == zones;
    for i := 0 to |zones|
      invariant entries + Lines(ZonesFor(zones[i..], server)) == whole
    {
      LinesFrom(zones, i, server, entries);
      var line := ZoneEntry(zones[i], server);
      entries := entries + line;
    }
    assert Lines(ZonesFor(zones[|zones|..], server)) == [];
    assert entries == whole;
    list := Dedupe(entries);
  }

  // ------------------------------------------------- a zone's line reads back

  predicate Bracketed(d: string) { d != "" && d[0] == ']' }

  /** Domains that can stand in the syntax: no slash; only the first may begin with a bracket. */
  predicate DomainsFit(ds: seq<string>) {
    ds != [] && (forall d :: d in ds ==> Word(d) && '/' !in d) && forall i :: 0 < i < |ds| ==> !Bracketed(ds[i])
  }

  predicate WordsOnly(ts: seq<string>) { ts != [] && forall t :: t in ts ==> Word(t) }

  lemma {:induction false} CloseSkips(d: string, rest: string)
    requires '/' !in d && |rest| >= 2 && rest[0] == '/'
    ensures Close(d + rest) == |d| + Close(rest)
  {
    if d == "" {
      assert d + rest == rest;
    } else {
      assert (d + rest)[1..] == d[1..] + rest;
      CloseSkips(d[1..], rest);
    }
  }

  lemma CloseAfter(s: string)
    requires s != "" && s[0] != ']'
    ensures Close("/" + s) == 1 + Close(s)
  {
    assert ("/" + s)[1..] == s;
  }

  lemma Regroup(d: string, tail: string, rest: string)
    ensures d + (['/'] + tail) + rest == d + ("/" + (tail + rest))
  {
  }

  lemma CloseNext(d: string, tail: string, rest: string)
    requires '/' !in d && tail != "" && tail[0] != ']' && Close(tail + ("/]" + rest)) == |tail|
    ensures Close(d + (['/'] + tail) + ("/]" + rest)) == |d + (['/'] + tail)|
  {
    var after := tail + ("/]" + rest);
    assert after[0] == tail[0];
    CloseAfter(after);
    CloseSkips(d, "/" + after);
    Regroup(d, tail, "/]" + rest);
  }

  lemma DomainsFitRest(ds: seq<string>)
    requires DomainsFit(ds) && |ds| > 1
    ensures DomainsFit(ds[1..]) && Word(ds[0]) && '/' !in ds[0] && Word(ds[1]) && ds[1][0] != ']'
  {
    assert ds[0] in ds && ds[1] in ds;
    assert forall i :: 0 < i < |ds[1..]| ==> ds[1..][i] == ds[i + 1];
  }

  lemma {:induction false} JoinStarts(ts: seq<string>, sep: char)
    requires WordsOnly(ts)
    ensures Join(ts, sep) != "" && Word(ts[0]) && Join(ts, sep)[0] == ts[0][0]
  {
    assert ts[0] in ts;
  }

  lemma {:induction false} JoinEnds(ts: seq<string>, sep: char)
    requires WordsOnly(ts)
    ensures Join(ts, sep) != "" && !Blank(Join(ts, sep)[|Join(ts, sep)| - 1])
  {
    assert ts[0] in ts;
    if |ts| > 1 {
      assert WordsOnly(ts[1..]);
      JoinEnds(ts[1..], sep);
    } else {
      assert ts[0][|ts[0]| - 1] in ts[0];
    }
  }

  lemma {:induction false} JoinIsOneLine(ts: seq<string>, sep: char)
    requires WordsOnly(ts) && sep != '\n'
    ensures '\n' !in Join(ts, sep)
  {
    assert ts[0] in ts && Blank('\n');
    if |ts| > 1 {
      assert WordsOnly(ts[1..]);
      JoinIsOneLine(ts[1..], sep);
    }
  }

  lemma {:induction false} CloseOfJoin(ds: seq<string>, rest: string)
    requires DomainsFit(ds)
    ensures Close(Join(ds, '/') + ("/]" + rest)) == |Join(ds, '/')|
  {
    if |ds| == 1 {
      assert ds[0] in ds;
      CloseSkips(ds[0], "/]" + rest);
    } else {
      DomainsFitRest(ds);
      CloseOfJoin(ds[1..], rest);
      JoinStarts(ds[1..], '/');
      CloseNext(ds[0], Join(ds[1..], '/'), rest);
    }
  }

  lemma JoinFirst(ts: seq<string>, sep: char)
    requires |ts| > 1
    ensures Join(ts, sep) == ts[0] + [sep] + Join(ts[1..], sep)
  {
  }

  lemma SplitMore(d: string, rest: string, parts: seq<string>)
    requires '/' !in d && Split(rest, '/') == parts
    ensures Split(d + ['/'] + rest, '/') == [d] + parts
  {
    SplitFirst(d, '/', rest);
  }

  lemma {:induction false} SplitJoined(ds: seq<string>)
    requires ds != [] && forall d :: d in ds ==> '/' !in d
    ensures Split(Join(ds, '/'), '/') == ds
  {
    var d, rest := ds[0], ds[1..];
    assert d in ds && ds == [d] + rest;
    if rest == [] {
      SplitNone(d, '/');
    } else {
      assert forall e :: e in rest ==> e in ds;
      SplitJoined(rest);
      JoinFirst(ds, '/');
      SplitMore(d, Join(rest, '/'), rest);
    }
  }

  lemma {:induction false} FieldsJoined(ts: seq<string>)
    requires WordsOnly(ts)
    ensures Fields(Join(ts, ' ')) == ts
  {
    assert ts[0] in ts;
    if |ts| == 1 {
      FieldsWord(ts[0], "");
      assert ts[0] + "" == ts[0];
    } else {
      var rest := Join(ts[1..], ' ');
      assert WordsOnly(ts[1..]);
      FieldsJoined(ts[1..]);
      FieldsWord(ts[0], [' '] + rest);
      FieldsSkip(" ", rest);
    }
  }

  lemma {:induction false} NonEmptyOfWords(ts: seq<string>)
    requires forall t :: t in ts ==> t != ""
    ensures NonEmpty(ts) == ts
  {
    if ts != [] {
      assert ts[0] in ts && forall t :: t in ts[1..] ==> t in ts;
      NonEmptyOfWords(ts[1..]);
    }
  }

  lemma LineParts(j: string, a: string)
    ensures var line, body := "[/" + j + "/]" + a, j + ("/]" + a);
            line[..2] == "[/" && line[2..] == body && body[|j| + 2..] == a && body[..|j|] == j
  {
  }

  lemma ZoneLineParts(j: string, a: string)
    requires |j| >= 1 && Close(j + ("/]" + a)) == |j|
    ensures var line := "[/" + j + "/]" + a;
            && line[..2] == "[/" && line[2..] == j + ("/]" + a)
            && line[2..][|j| + 2..] == a && line[2..][..|j|] == j && ClosesAt(line[2..], |j|)
            && forall p :: 0 <= p < |j| ==> !ClosesAt(line[2..], p)
  {
    LineParts(j, a);
    forall p | 0 <= p < |j| ensures !ClosesAt(j + ("/]" + a), p) { CloseIsFirst(j + ("/]" + a), p); }
  }

  lemma MatchOf(j: string, a: string)
    requires |j| >= 1 && Close(j + ("/]" + a)) == |j| && '\n' !in j && '\n' !in a && a != "" && !Blank(a[0])
    ensures MatchForward("[/" + j + "/]" + a) == Some(Forward(j, a))
  {
    ZoneLineParts(j, a);
    assert TrimLeft(a) == a;
    MatchFromIs(j + ("/]" + a), 1, |j|);
  }

  lemma StripOf(j: string, a: string)
    requires a != "" && !Blank(a[|a| - 1])
    ensures var line := "[/" + j + "/]" + a; Strip(line) == line && line[0] == '['
  {
    var line := "[/" + j + "/]" + a;
    assert line[|line| - 1] == a[|a| - 1];
    StripNothing(line);
  }

  /** The line a zone is rendered to matches, and gives back the joined domains and addresses. */
  lemma ZoneLineMatches(z: Zone)
    requires DomainsFit(z.domains) && WordsOnly(z.upstreams)
    ensures var line := ZoneLine(z.domains, z.upstreams);
            && Strip(line) == line && line[0] == '['
            && MatchForward(line) == Some(Forward(Join(z.domains, '/'), Join(z.upstreams, ' ')))
  {
    var j, a := Join(z.domains, '/'), Join(z.upstreams, ' ');
    assert WordsOnly(z.domains);
    JoinStarts(z.domains, '/');
    JoinStarts(z.upstreams, ' ');
    assert z.upstreams[0][0] in z.upstreams[0];
    JoinEnds(z.upstreams, ' ');
    JoinIsOneLine(z.domains, '/');
    JoinIsOneLine(z.upstreams, ' ');
    CloseOfJoin(z.domains, a);
    MatchOf(j, a);
    StripOf(j, a);
  }

  lemma ZoneLineReads(p: Parsed, z: Zone)
    requires DomainsFit(z.domains) && WordsOnly(z.upstreams)
    ensures ParseLine(p, ZoneLine(z.domains, z.upstreams)) == p.(zones := AddAllTo(p.zones, z.domains, z.upstreams))
  {
    ZoneLineMatches(z);
    SplitJoined(z.domains);
    NonEmptyOfWords(z.domains);
    FieldsJoined(z.upstreams);
  }

  // ------------------------------------------------- exactly which zones read back

  predicate ReadsBack(z: Zone) {
    var m := MatchForward(ZoneLine(z.domains, z.upstreams));
    m.Some? && NonEmpty(Split(m.value.domains, '/')) == z.domains && Fields(m.value.addrs) == z.upstreams
  }

  lemma {:induction false} CloseIsFirst(s: string, p: nat)
    requires p < Close(s)
    ensures !ClosesAt(s, p)
  {
    if p > 0 {
      assert ClosesAt(s, p) ==> ClosesAt(s[1..], p - 1);
      CloseIsFirst(s[1..], p - 1);
    }
  }

  lemma {:induction false} SplitPartsPlain(s: string)
    ensures forall t :: t in Split(s, '/') ==> '/' !in t
    decreases |s|
  {
    var n := Find(s, '/');
    if n < |s| { SplitPartsPlain(s[n + 1..]); }
  }

  lemma {:induction false} LaterPartsUnbracketed(s: string, k: nat)
    requires (forall p :: !ClosesAt(s, p)) && 0 < k < |Split(s, '/')|
    ensures !Bracketed(Split(s, '/')[k])
    decreases |s|
  {
    var n := Find(s, '/');
    var rest := s[n + 1..];
    var parts := Split(rest, '/');
    assert Split(s, '/')[k] == parts[k - 1];
    if k == 1 {
      assert !ClosesAt(s, n);
      assert parts[0] == rest[..Find(rest, '/')];
    } else {
      forall p: nat ensures !ClosesAt(rest, p) { assert !ClosesAt(s, n + 1 + p); }
      LaterPartsUnbracketed(rest, k - 1);
    }
  }

  lemma {:induction false} NonEmptyIndex(ps: seq<string>, i: nat) returns (k: nat)
    requires i < |NonEmpty(ps)|
    ensures i <= k < |ps| && NonEmpty(ps)[i] == ps[k]
  {
    if ps[0] != "" {
      if i == 0 { return 0; }
      k := NonEmptyIndex(ps[1..], i - 1);
    } else {
      k := NonEmptyIndex(ps[1..], i);
    }
    k := k + 1;
  }

  lemma MatchedDomainsFit(j: string, i: nat)
    requires forall p :: p > 0 ==> !ClosesAt(j, p)
    requires 0 < i < |NonEmpty(Split(j, '/'))|
    ensures !Bracketed(NonEmpty(Split(j, '/'))[i])
  {
    if j != "" && j[0] == '/' {
      var t := j[1..];
      FindIs(j, '/', 0);
      assert Split(j, '/')[1..] == Split(t, '/');
      assert NonEmpty(Split(j, '/')) == NonEmpty(Split(t, '/'));
      forall p: nat ensures !ClosesAt(t, p) { assert !ClosesAt(j, p + 1); }
      var k := NonEmptyIndex(Split(t, '/'), i);
      LaterPartsUnbracketed(t, k);
    } else {
      forall p: nat ensures !ClosesAt(j, p) { if p > 0 { assert !ClosesAt(j, p); } }
      var k := NonEmptyIndex(Split(j, '/'), i);
      LaterPartsUnbracketed(j, k);
    }
  }

  lemma {:induction false} TrimLeftKeeps(s: string)
    requires s != "" && !Blank(s[|s| - 1])
    ensures TrimLeft(s) != "" && forall c :: c in TrimLeft(s) ==> c in s
  {
    if Blank(s[0]) { TrimLeftKeeps(s[1..]); }
  }

  /** On a single line the domains end at the first "/]". */
  lemma MatchNeverCloses(line: string, p: nat)
    requires MatchForward(line).Some? && p > 0 && '\n' !in line && !Blank(line[|line| - 1])
    ensures !ClosesAt(MatchForward(line).value.domains, p)
  {
    var body := line[2..];
    var k := MatchFromLeast(body, 1);
    if ClosesAt(body[..k], p) {
      var rest := body[p + 2..];
      assert rest[|rest| - 1] == line[|line| - 1];
      TrimLeftKeeps(rest);
      assert MatchesAt(body, p);
      assert false;
    }
  }

  lemma OneLine(z: Zone)
    requires WordsOnly(z.domains) && WordsOnly(z.upstreams)
    ensures var line := ZoneLine(z.domains, z.upstreams); '\n' !in line && line != "" && !Blank(line[|line| - 1])
  {
    JoinIsOneLine(z.domains, '/');
    JoinIsOneLine(z.upstreams, ' ');
    JoinEnds(z.upstreams, ' ');
  }

  /** A zone's line gives the zone back exactly when no domain holds a slash and none but the first
      begins with a closing bracket. */
  lemma ReadsBackIff(z: Zone)
    requires WordsOnly(z.domains) && WordsOnly(z.upstreams)
    ensures ReadsBack(z) <==> DomainsFit(z.domains)
  {
    if DomainsFit(z.domains) {
      ZoneLineMatches(z);
      SplitJoined(z.domains);
      NonEmptyOfWords(z.domains);
      FieldsJoined(z.upstreams);
    }
    if ReadsBack(z) {
      var line := ZoneLine(z.domains, z.upstreams);
      var j := MatchForward(line).value.domains;
      SplitPartsPlain(j);
      forall d | d in z.domains ensures '/' !in d {
        var i :| 0 <= i < |z.domains| && z.domains[i] == d;
        var k := NonEmptyIndex(Split(j, '/'), i);
      }
      OneLine(z);
      forall p | p > 0 ensures !ClosesAt(j, p) { MatchNeverCloses(line, p); }
      forall i | 0 < i < |z.domains| ensures !Bracketed(z.domains[i]) { MatchedDomainsFit(j, i); }
    }
  }

  // ------------------------------------------------- a repeated line changes nothing

  /** Reading raw again adds nothing to p. */
  predicate Absorbs(p: Parsed, raw: string) {
    var line := Strip(raw);
    line == "" || line[0] == '#' ||
    match MatchForward(line)
    case Some(f) =>
      var d := NonEmpty(Split(f.domains, '/'));
      Fields(f.addrs) == [] || (d in p.zones && forall a :: a in Fields(f.addrs) ==> a in p.zones[d])
    case None => forall t :: t in Fields(line) ==> t in p.plain
  }

  predicate Grows(p: Parsed, q: Parsed) {
    && (forall t :: t in p.plain ==> t in q.plain)
    && forall d :: d in p.zones ==> d in q.zones && forall a :: a in p.zones[d] ==> a in q.zones[d]
  }

  lemma {:induction false} AddAllToIs(m: Zones, d: seq<string>, addrs: seq<string>)
    requires addrs != []
    ensures AddAllTo(m, d, addrs) == m[d := AddAll(if d in m then m[d] else [], addrs)]
    decreases |addrs|
  {
    if addrs[1..] != [] { AddAllToIs(AddTo(m, d, addrs[0]), d, addrs[1..]); }
  }

  lemma AbsorbedIsNoOp(p: Parsed, raw: string)
    requires Absorbs(p, raw)
    ensures ParseLine(p, raw) == p
  {
    var line := Strip(raw);
    if line != "" && line[0] != '#' {
      match MatchForward(line)
      case Some(f) =>
        var d, addrs := NonEmpty(Split(f.domains, '/')), Fields(f.addrs);
        if addrs != [] {
          AddAllToIs(p.zones, d, addrs);
          AddAllNothing(p.zones[d], addrs);
          assert p.zones[d := p.zones[d]] == p.zones;
        }
      case None => AddAllNothing(p.plain, Fields(line));
    }
  }

  lemma ParsedIsAbsorbed(p: Parsed, raw: string)
    ensures Absorbs(ParseLine(p, raw), raw) && Grows(p, ParseLine(p, raw))
  {
    var line := Strip(raw);
    if line != "" && line[0] != '#' {
      match MatchForward(line)
      case Some(f) =>
        var d, addrs := NonEmpty(Split(f.domains, '/')), Fields(f.addrs);
        if addrs != [] {
          AddAllToIs(p.zones, d, addrs);
          AddAllGrows(if d in p.zones then p.zones[d] else [], addrs);
        }
      case None => AddAllGrows(p.plain, Fields(line));
    }
  }

  lemma AbsorbsStays(p: Parsed, q: Parsed, raw: string)
    requires Absorbs(p, raw) && Grows(p, q)
    ensures Absorbs(q, raw)
  {
  }

  /** The entries of es not yet in out, each once. */
  function New(out: seq<string>, es: seq<string>): seq<string>
    decreases |es|
  {
    if es == [] then []
    else if es[0] == "" || es[0] in out then New(out, es[1..])
    else [es[0]] + New(out + [es[0]], es[1..])
  }

  lemma {:induction false} AddAllIsNew(out: seq<string>, es: seq<string>)
    ensures AddAll(out, es) == out + New(out, es)
    decreases |es|
  {
    if es != [] {
      AddAllIsNew(AddNew(out, es[0]), es[1..]);
      assert out + [es[0]] + New(out + [es[0]], es[1..]) == out + ([es[0]] + New(out + [es[0]], es[1..]));
    }
  }

  lemma {:induction false} OnlyNewCount(p: Parsed, out: seq<string>, es: seq<string>)
    requires forall e :: e in out ==> Absorbs(p, e)
    ensures ParseLines(p, es) == ParseLines(p, New(out, es))
    decreases |es|
  {
    if es != [] {
      var e := es[0];
      if e == "" || e in out {
        AbsorbedIsNoOp(p, e);
        OnlyNewCount(p, out, es[1..]);
      } else {
        var q := ParseLine(p, e);
        ParsedIsAbsorbed(p, e);
        forall x | x in out + [e] ensures Absorbs(q, x) {
          if x in out { AbsorbsStays(p, q, x); }
        }
        OnlyNewCount(q, out + [e], es[1..]);
        var rest := New(out + [e], es[1..]);
        assert ([e] + rest)[1..] == rest;
      }
    }
  }

  /** Leaving out repeated entries never changes what a list parses to. */
  lemma DedupeIrrelevant(p: Parsed, es: seq<string>)
    ensures ParseLines(p, Deduped(es)) == ParseLines(p, es)
  {
    AddAllIsNew([], es);
    assert [] + New([], es) == New([], es);
    OnlyNewCount(p, [], es);
  }

  lemma {:induction false} ParseConcat(p: Parsed, a: seq<string>, b: seq<string>)
    ensures ParseLines(p, a + b) == ParseLines(ParseLines(p, a), b)
    decreases |a|
  {
    if a == [] {
      assert a + b == b;
    } else {
      assert (a + b)[1..] == a[1..] + b;
      ParseConcat(ParseLine(p, a[0]), a[1..], b);
    }
  }

  // ------------------------------------------------- the round trip

  /** An address that is neither a comment nor a forward zone; it may hold several tokens. */
  predicate PlainEntry(a: string) { a != "" && Strip(a) == a && a[0] != '#' && MatchForward(a).None? }

  lemma {:induction false} PlainEntriesRead(p: Parsed, entries: seq<string>)
    requires forall a :: a in entries ==> PlainEntry(a)
    ensures ParseLines(p, entries) == p.(plain := AddAll(p.plain, AllFields(entries)))
    decreases |entries|
  {
    if entries != [] {
      assert entries[0] in entries && forall a :: a in entries[1..] ==> a in entries;
      PlainEntriesRead(ParseLine(p, entries[0]), entries[1..]);
      AddAllConcat(p.plain, Fields(entries[0]), AllFields(entries[1..]));
    }
  }

  function Grouped(m: Zones, zs: seq<Zone>): Zones
    decreases |zs|
  {
    if zs == [] then m else Grouped(AddAllTo(m, zs[0].domains, zs[0].upstreams), zs[1..])
  }

  predicate ZonesFit(zs: seq<Zone>) { forall z :: z in zs ==> DomainsFit(z.domains) && WordsOnly(z.upstreams) }

  lemma {:induction false} ZoneLinesRead(p: Parsed, zs: seq<Zone>)
    requires ZonesFit(zs)
    ensures ParseLines(p, Lines(zs)) == p.(zones := Grouped(p.zones, zs))
    decreases |zs|
  {
    if zs != [] {
      assert zs[0] in zs && forall z :: z in zs[1..] ==> z in zs;
      ZoneLineReads(p, zs[0]);
      ZoneLinesRead(ParseLine(p, Lines(zs)[0]), zs[1..]);
    }
  }

  /** All upstreams the zones name for these domains, in order. */
  function UpstreamsOf(zs: seq<Zone>, d: seq<string>): seq<string> {
    if zs == [] then [] else (if zs[0].domains == d then zs[0].upstreams else []) + UpstreamsOf(zs[1..], d)
  }

  /** Equal tuples of domains are merged: each keeps its upstreams once, in order. */
  lemma {:induction false} GroupedIs(m: Zones, zs: seq<Zone>, d: seq<string>)
    requires forall z :: z in zs ==> z.upstreams != []
    ensures d in Grouped(m, zs) <==> d in m || exists z :: z in zs && z.domains == d
    ensures d in Grouped(m, zs) ==> Grouped(m, zs)[d] == AddAll(if d in m then m[d] else [], UpstreamsOf(zs, d))
    decreases |zs|
  {
    if zs != [] {
      var z := zs[0];
      assert z in zs && forall y :: y in zs[1..] ==> y in zs;
      AddAllToIs(m, z.domains, z.upstreams);
      var m' := AddAllTo(m, z.domains, z.upstreams);
      GroupedIs(m', zs[1..], d);
      AddAllConcat(if d in m then m[d] else [], if z.domains == d then z.upstreams else [], UpstreamsOf(zs[1..], d));
      assert forall y :: y in zs <==> y == z || y in zs[1..];
    }
  }

  lemma {:induction false} ZonesForAreWords(zones: seq<ForwardZone>, server: Server)
    ensures forall z :: z in ZonesFor(zones, server) ==> WordsOnly(z.domains) && WordsOnly(z.upstreams)
  {
    if zones != [] { ZonesForAreWords(zones[1..], server); }
  }

  /** Parsing the list rendered for a server gives back its plain addresses without repeats and its
      forward zones with equal domains merged. */
  lemma UpstreamsRoundTrip(rows: seq<Upstream>, zones: seq<ForwardZone>, server: Server)
    requires forall a :: a in Addresses(rows, General, server) ==> PlainEntry(a)
    requires forall z :: z in ZonesFor(zones, server) ==> DomainsFit(z.domains)
    ensures ParseLines(NOTHING, DesiredUpstreams(rows, zones, server))
            == Parsed(Deduped(AllFields(Addresses(rows, General, server))), Grouped(map[], ZonesFor(zones, server)))
  {
    var addresses, zs := Addresses(rows, General, server), ZonesFor(zones, server);
    ZonesForAreWords(zones, server);
    DedupeIrrelevant(NOTHING, Deduped(addresses) + Lines(zs));
    ParseConcat(NOTHING, Deduped(addresses), Lines(zs));
    DedupeIrrelevant(NOTHING, addresses);
    PlainEntriesRead(NOTHING, addresses);
    ZoneLinesRead(Parsed(Deduped(AllFields(addresses)), map[]), zs);
  }

  lemma {:induction false} FieldsOfWords(ws: seq<string>)
    requires forall w :: w in ws ==> Word(w)
    ensures AllFields(ws) == ws
  {
    if ws != [] {
      assert ws[0] in ws && forall w :: w in ws[1..] ==> w in ws;
      FieldsWord(ws[0], "");
      assert ws[0] + "" == ws[0];
      FieldsOfWords(ws[1..]);
    }
  }

  lemma UnbracketedIsPlain(a: string)
    requires Word(a) && a[0] != '#' && a[0] != '['
    ensures PlainEntry(a)
  {
    assert a[0] in a && a[|a| - 1] in a;
    StripNothing(a);
    assert |a| >= 3 ==> a[..2][0] == a[0];
  }

  /** For single addresses that begin with neither # nor [, what comes back is the rendered list of
      addresses itself. */
  lemma PlainAddressesReturn(rows: seq<Upstream>, zones: seq<ForwardZone>, server: Server)
    requires forall a :: a in Addresses(rows, General, server) ==> Word(a) && a[0] !in {'#', '['}
    requires forall z :: z in ZonesFor(zones, server) ==> DomainsFit(z.domains)
    ensures ParseLines(NOTHING, DesiredUpstreams(rows, zones, server)).plain == AddressesOfKind(rows, General, server)
  {
    forall a | a in Addresses(rows, General, server) ensures PlainEntry(a) { UnbracketedIsPlain(a); }
    UpstreamsRoundTrip(rows, zones, server);
    FieldsOfWords(Addresses(rows, General, server));
  }

  // ------------------------------------------------- what is listed for a server

  /** The scope is the whole fleet, the server's zone, or the server. */
  predicate Reaches(scope: Scope, server: Server) {
    || scope == Everywhere
    || (scope.InZones? && exists z :: z in scope.ids && server.zone == Some(z))
    || scope == OnServer(Some(server.id))
  }

  lemma ScopeIff(scope: Scope, server: Server)
    ensures ScopeMatches(scope, server) <==> Reaches(scope, server)
  {
  }

  predicate Contributes(row: Upstream, kind: Kind, server: Server, a: string) {
    row.enabled && row.kind == kind && Reaches(row.scope, server) && a == Strip(row.address) != ""
  }

  /** An address of a kind is listed exactly when an enabled row of that kind that reaches the server
      has it. */
  lemma {:induction false} AddressListedIff(rows: seq<Upstream>, kind: Kind, server: Server, a: string)
    ensures a in Addresses(rows, kind, server) <==> exists row :: row in rows && Contributes(row, kind, server, a)
  {
    if rows != [] {
      ScopeIff(rows[0].scope, server);
      AddressListedIff(rows[1..], kind, server, a);
      if a in Addresses(rows[1..], kind, server) {
        var row :| row in rows[1..] && Contributes(row, kind, server, a);
        assert row in rows;
      } else if a in Addresses(rows, kind, server) {
        assert Contributes(rows[0], kind, server, a) && rows[0] in rows;
      }
      if row :| row in rows && Contributes(row, kind, server, a) {
        if row != rows[0] { assert row in rows[1..]; }
      }
    }
  }

  predicate Forwards(fz: ForwardZone, server: Server, line: string) {
    && fz.enabled && Reaches(fz.scope, server) && Tokens(fz.domains) != [] && Tokens(fz.upstreams) != []
    && line == ZoneLine(Tokens(fz.domains), Tokens(fz.upstreams))
  }

  lemma {:induction false} ZoneListedIff(zones: seq<ForwardZone>, server: Server, line: string)
    ensures line in Lines(ZonesFor(zones, server)) <==> exists fz :: fz in zones && Forwards(fz, server, line)
  {
    if zones != [] {
      ScopeIff(zones[0].scope, server);
      ZoneListedIff(zones[1..], server, line);
      assert zones == [zones[0]] + zones[1..];
      ZonesForFirst(zones[0], zones[1..], server);
      if line in Lines(ZonesFor(zones[1..], server)) {
        var fz :| fz in zones[1..] && Forwards(fz, server, line);
        assert fz in zones;
      } else if line in Lines(ZonesFor(zones, server)) {
        assert line in LineFor(zones[0], server);
        assert Forwards(zones[0], server, line) && zones[0] in zones;
      }
      if fz :| fz in zones && Forwards(fz, server, line) {
        if fz != zones[0] { assert fz in zones[1..]; } else { assert line in LineFor(zones[0], server); }
      }
    }
  }

  /** The rendered list holds exactly those addresses and lines, each once, addresses first. */
  lemma DesiredListedIff(rows: seq<Upstream>, zones: seq<ForwardZone>, server: Server, e: string)
    ensures e in DesiredUpstreams(rows, zones, server) <==>
              || (exists row :: row in rows && Contributes(row, General, server, e))
              || (exists fz :: fz in zones && Forwards(fz, server, e))
    ensures NoRepeats(DesiredUpstreams(rows, zones, server))
    ensures AddressesOfKind(rows, General, server) <= DesiredUpstreams(rows, zones, server)
  {
    var plain, lines := Addresses(rows, General, server), Lines(ZonesFor(zones, server));
    AddressListedIff(rows, General, server, e);
    ZoneListedIff(zones, server, e);
    AddAllKeeps([], plain);
    AddAllKeeps([], Deduped(plain) + lines);
    AddAllConcat([], Deduped(plain), lines);
    DedupedTwice(plain);
    AddAllKeeps(Deduped(plain), lines);
    LinesNotBlank(ZonesFor(zones, server));
  }

  lemma LinesNotBlank(zs: seq<Zone>)
    ensures "" !in Lines(zs)
  {
  }

  lemma DedupedTwice(es: seq<string>)
    ensures Deduped(Deduped(es)) == Deduped(es)
  {
    AddAllKeeps([], es);
    AddAllFresh([], Deduped(es));
  }

  lemma {:induction false} AddAllFresh(out: seq<string>, es: seq<string>)
    requires NoRepeats(es) && "" !in es && forall e :: e in es ==> e !in out
    ensures AddAll(out, es) == out + es
    decreases |es|
  {
    if es != [] {
      assert es[0] in es && NoRepeats(es[1..]) && forall e :: e in es[1..] ==> e in es;
      AddAllFresh(out + [es[0]], es[1..]);
      assert out + [es[0]] + es[1..] == out + es;
    } else {
      assert out + es == out;
    }
  }

  lemma {:induction false} CommasOf(s: string, t: string)
    ensures CommasToBlanks(s + t) == CommasToBlanks(s) + CommasToBlanks(t)
  {
  }

  lemma {:induction false} BlanksOfJoin(ts: seq<string>, sep: char)
    requires WordsOnly(ts) && sep in {',', ' '} && forall t :: t in ts ==> ',' !in t
    ensures CommasToBlanks(Join(ts, sep)) == Join(ts, ' ')
  {
    assert ts[0] in ts;
    NoCommas(ts[0]);
    if |ts| > 1 {
      assert WordsOnly(ts[1..]);
      BlanksOfJoin(ts[1..], sep);
      CommasOf(ts[0], [sep] + Join(ts[1..], sep));
      CommasOf([sep], Join(ts[1..], sep));
      assert CommasToBlanks([sep]) == " ";
    }
  }

  lemma NoCommas(s: string)
    requires ',' !in s
    ensures CommasToBlanks(s) == s
  {
    assert forall i :: 0 <= i < |s| ==> s[i] in s;
  }

  /** Domains and upstreams may be separated by commas or by blanks. */
  lemma TokensOfJoined(ts: seq<string>, sep: char)
    requires WordsOnly(ts) && sep in {',', ' '} && forall t :: t in ts ==> ',' !in t
    ensures Tokens(Join(ts, sep)) == ts
  {
    BlanksOfJoin(ts, sep);
    FieldsJoined(ts);
  }

  // ------------------------------------------------- lines that are no addresses

  /** Blank lines and comments add nothing. */
  lemma CommentsAddNothing(p: Parsed, raw: string)
    requires Strip(raw) == "" || Strip(raw)[0] == '#'
    ensures ParseLine(p, raw) == p
  {
  }

  /** The other lists keep every token but the bracketed ones, in order. */
  lemma {:induction false} UnbracketedAre(ts: seq<string>, t: string)
    ensures t in Unbracketed(ts) <==> t in ts && !(t != "" && t[0] == '[')
  {
    if ts != [] {
      UnbracketedAre(ts[1..], t);
      assert t in ts <==> t == ts[0] || t in ts[1..];
    }
  }

  /** Empty pieces between slashes are no domains. */
  lemma {:induction false} NonEmptyAre(ps: seq<string>, p: string)
    ensures p in NonEmpty(ps) <==> p in ps && p != ""
  {
    if ps != [] {
      NonEmptyAre(ps[1..], p);
      assert p in ps <==> p == ps[0] || p in ps[1..];
    }
  }

  lemma PlainListIff(entries: seq<string>, t: string)
    ensures t in Deduped(Unbracketed(AllFields(entries))) <==>
              t in AllFields(entries) && t != "" && t[0] != '['
    ensures NoRepeats(Deduped(Unbracketed(AllFields(entries))))
  {
    AddAllKeeps([], Unbracketed(AllFields(entries)));
    UnbracketedAre(AllFields(entries), t);
  }
}
