/** The two readers of the kernel's IPVS table (keepalived/procipvs.go, keepalived/ipvsadm.go). */
module Ipvs {
  import opened Options
  import opened Words

  /** The counters one destination collects from the listings. */
  datatype Dest = Dest(weight: int, seenWeight: bool, active: real, inactive: real,
                       conns: real, inPkts: real, inBytes: real, cps: real, inPps: real)

  const UNSEEN := Dest(0, false, 0.0, 0.0, 0.0, 0.0, 0.0, 0.0, 0.0)

  /** dests is keyed by address; order lists the addresses as they first appeared. */
  datatype Service = Service(proto: string, addr: string, dests: map<string, Dest>, order: seq<string>)

  type Services = map<string, Service>

  /** Where a reader stands: `cur` is the key of the service whose destinations follow. */
  datatype Reading = Reading(services: Services, order: seq<string>, cur: Option<string>)

  const EMPTY := Reading(map[], [], None)

  predicate Ok(t: Reading) { t.cur.Some? ==> t.cur.value in t.services }

  predicate IsProtoLine(fields: seq<string>) { |fields| >= 2 && fields[0] in {"TCP", "UDP", "SCTP"} }

  // ------------------------------------------------- numbers

  function Pow10(k: nat): (p: real)
    ensures p >= 1.0
  {
    if k == 0 then 1.0 else 10.0 * Pow10(k - 1)
  }

  /** strconv.ParseFloat on digits with an optional fraction. */
  function ParseFloat(s: string): Option<real> {
    var dot := Find(s, '.');
    var frac := if dot < |s| then s[dot + 1..] else "";
    if s[..dot] + frac == "" then None
    else
      match (Value(s[..dot], 10), Value(frac, 10))
      case (Some(w), Some(f)) => Some(w as real + f as real / Pow10(|frac|))
      case _ => None
  }

  function Scaled(s: string, mult: real): real {
    match ParseFloat(s)
    case None => 0.0
    case Some(v) => v * mult
  }

  /** ipvsadm abbreviates large counters unless asked for exact ones. */
  function BigNum(s: string): real {
    var n := |s|;
    if n > 0 && s[n - 1] == 'K' then Scaled(s[..n - 1], 1000.0)
    else if n > 0 && s[n - 1] == 'M' then Scaled(s[..n - 1], 1000000.0)
    else if n > 0 && s[n - 1] == 'G' then Scaled(s[..n - 1], 1000000000.0)
    else Scaled(s, 1.0)
  }

  lemma BigNumOfDecimal(n: nat)
    ensures BigNum(Decimal(n)) == n as real
  {
    var s := Decimal(n);
    assert s[|s| - 1] in s;
    assert forall i :: 0 <= i < |s| ==> s[i] in s;
    FindIs(s, '.', |s|);
    assert s[..|s|] == s && s + "" == s;
    ValueOfDecimal(n);
  }

  /** Abbreviated numbers stand for thousands, millions and billions. */
  lemma BigNumAbbreviated(n: nat)
    ensures BigNum(Decimal(n) + "K") == n as real * 1000.0
    ensures BigNum(Decimal(n) + "M") == n as real * 1000000.0
    ensures BigNum(Decimal(n) + "G") == n as real * 1000000000.0
    ensures BigNum("") == 0.0
  {
    BigNumOfDecimal(n);
    var s := Decimal(n);
    assert s[|s| - 1] in s;
    assert (s + "K")[..|s|] == s && (s + "M")[..|s|] == s && (s + "G")[..|s|] == s;
    assert ParseFloat(s) == Some(n as real) by { PlainFloat(n); }
  }

  lemma PlainFloat(n: nat)
    ensures ParseFloat(Decimal(n)) == Some(n as real)
  {
    var s := Decimal(n);
    assert forall i :: 0 <= i < |s| ==> s[i] in s;
    FindIs(s, '.', |s|);
    assert s[..|s|] == s && s + "" == s;
    ValueOfDecimal(n);
  }

  lemma CutAtPoint(a: string, b: string)
    requires '.' !in a
    ensures var s := a + "." + b; Find(s, '.') == |a| && s[..|a|] == a && s[|a| + 1..] == b
  {
    var s := a + "." + b;
    assert forall i :: 0 <= i < |a| ==> s[i] == a[i] && a[i] in a;
    FindIs(s, '.', |a|);
  }

  /** A fraction counts tenths, hundredths and so on. */
  lemma FractionReads(n: nat, m: nat)
    ensures ParseFloat(Decimal(n) + "." + Decimal(m)) == Some(n as real + m as real / Pow10(|Decimal(m)|))
  {
    CutAtPoint(Decimal(n), Decimal(m));
    ValueOfDecimal(n);
    ValueOfDecimal(m);
  }

  // ------------------------------------------------- addresses

  function HexBytes(s: string): Option<seq<nat>> {
    if s == "" then Some([])
    else if |s| == 1 then None
    else
      match (DigitValue(s[0]), DigitValue(s[1]), HexBytes(s[2..]))
      case (Some(h), Some(l), Some(rest)) => Some([h * 16 + l] + rest)
      case _ => None
  }

  /** net.IP.String of four bytes. */
  function Dotted(b: seq<nat>): string
    requires |b| == 4
  {
    Decimal(b[0]) + "." + (Decimal(b[1]) + "." + (Decimal(b[2]) + "." + Decimal(b[3])))
  }

  function JoinHostPort(host: string, port: string): string {
    if ':' in host || '%' in host then "[" + host + "]:" + port else host + ":" + port
  }

  /** Index of the last c, or -1. */
  function FindLast(s: string, c: char): (n: int)
    ensures -1 <= n < |s|
    ensures forall i :: n < i < |s| ==> s[i] != c
    ensures n >= 0 ==> s[n] == c
  {
    if s == "" then -1 else if s[|s| - 1] == c then |s| - 1 else FindLast(s[..|s| - 1], c)
  }

  function Unbracketed(s: string): string {
    var t := if s != "" && s[0] == '[' then s[1..] else s;
    if t != "" && t[|t| - 1] == ']' then t[..|t| - 1] else t
  }

  /** print6 is net.IP.String on sixteen bytes. */
  function DecodeProcAddr(s: string, print6: seq<nat> -> string): Option<string> {
    var i := FindLast(s, ':');
    if i < 0 then None
    else
      var port := if s[i + 1..] == "" then None else Value(s[i + 1..], 16);
      if port.None? || port.value > 0xFFFF then None
      else
        match HexBytes(Unbracketed(s[..i]))
        case None => None
        case Some(raw) =>
          if |raw| == 4 then Some(JoinHostPort(Dotted(raw), Decimal(port.value)))
          else if |raw| == 16 then Some(JoinHostPort(print6(raw), Decimal(port.value)))
          else None
  }

  // ------------------------------------------------- one line

  function DestOf(dests: map<string, Dest>, addr: string): Dest {
    if addr in dests then dests[addr] else UNSEEN
  }

  /** Store d under addr of the current service, adding addr to its order when new. */
  function WithDest(t: Reading, addr: string, d: Dest): (r: Reading)
    requires Ok(t) && t.cur.Some?
    ensures Ok(r)
  {
    var s := t.services[t.cur.value];
    var order := if addr in s.dests then s.order else s.order + [addr];
    t.(services := t.services[t.cur.value := s.(dests := s.dests[addr := d], order := order)])
  }

  /** Make the service under "PROTO addr" current, creating it when new. */
  function Open(t: Reading, proto: string, addr: string): (r: Reading)
    ensures Ok(r)
  {
    var key := proto + " " + addr;
    t.(services := if key in t.services then t.services
                   else t.services[key := Service(proto, addr, map[], [])],
       cur := Some(key))
  }

  function Plain(d: Dest, weight: string, active: string, inactive: string): Dest {
    d.(weight := BigNum(weight).Floor, seenWeight := true, active := BigNum(active), inactive := BigNum(inactive))
  }

  function ProcLine(t: Reading, fields: seq<string>, print6: seq<nat> -> string): (r: Reading)
    requires Ok(t)
    ensures Ok(r)
  {
    if fields == [] then t
    else if IsProtoLine(fields) then
      match DecodeProcAddr(fields[1], print6)
      case None => t.(cur := None)
      case Some(addr) =>
        var key := fields[0] + " " + addr;
        Open(t.(order := if key in t.services then t.order else t.order + [key]), fields[0], addr)
    else if fields[0] != "->" || t.cur.None? || |fields| < 6 then t
    else
      match DecodeProcAddr(fields[1], print6)
      case None => t
      case Some(addr) =>
        WithDest(t, addr, Plain(DestOf(t.services[t.cur.value].dests, addr), fields[3], fields[4], fields[5]))
  }

  datatype Kind = PlainKind | StatsKind | RateKind

  /** What one listing's columns say about a destination. */
  function Columns(d: Dest, nums: seq<string>, kind: Kind): Dest {
    match kind
    case PlainKind => if |nums| >= 4 then Plain(d, nums[1], nums[2], nums[3]) else d
    case StatsKind =>
      if |nums| >= 5 then d.(conns := BigNum(nums[0]), inPkts := BigNum(nums[1]), inBytes := BigNum(nums[3])) else d
    case RateKind => if |nums| >= 5 then d.(cps := BigNum(nums[0]), inPps := BigNum(nums[1])) else d
  }

  function ListingLine(t: Reading, fields: seq<string>, kind: Kind): (r: Reading)
    requires Ok(t)
    ensures Ok(r)
  {
    if fields == [] then t
    else if IsProtoLine(fields) then
      Open(t.(order := t.order + [fields[0] + " " + fields[1]]), fields[0], fields[1])
    else if fields[0] != "->" || t.cur.None? || |fields| < 2 || fields[1] == "RemoteAddress:Port" then t
    else WithDest(t, fields[1], Columns(DestOf(t.services[t.cur.value].dests, fields[1]), fields[2..], kind))
  }

  // ------------------------------------------------- whole texts

  function ProcRows(t: Reading, rows: seq<seq<string>>, print6: seq<nat> -> string): (r: Reading)
    requires Ok(t)
    decreases |rows|
  {
    if rows == [] then t else ProcRows(ProcLine(t, rows[0], print6), rows[1..], print6)
  }

  function ListingRows(t: Reading, rows: seq<seq<string>>, kind: Kind): (r: Reading)
    requires Ok(t)
    decreases |rows|
  {
    if rows == [] then t else ListingRows(ListingLine(t, rows[0], kind), rows[1..], kind)
  }

  function ReadProc(text: string, print6: seq<nat> -> string): Reading {
    ProcRows(EMPTY, FieldRows(Split(text, '\n')), print6)
  }

  function ReadListing(text: string, kind: Kind, into: Services): Reading {
    ListingRows(Reading(into, [], None), FieldRows(Split(text, '\n')), kind)
  }

  method ParseProcIPVS(text: string, print6: seq<nat> -> string) returns (into: Services, order: seq<string>)
    ensures into == ReadProc(text, print6).services && order == ReadProc(text, print6).order
  {
    into, order := map[], [];
    var cur: Option<string> := None;
    var lines := Split(text, '\n');
    ghost var rows := FieldRows(lines);
    for i := 0 to |lines|
      invariant Ok(Reading(into, order, cur))
      invariant ProcRows(Reading(into, order, cur), FieldRows(lines[i..]), print6) == ProcRows(EMPTY, rows, print6)
    {
      var fields := Fields(lines[i]);
      assert FieldRows(lines[i..])[1..] == FieldRows(lines[i + 1..]) by { assert lines[i..][1..] == lines[i + 1..]; }
      assert FieldRows(lines[i..])[0] == fields;
      if fields == [] { continue; }
      if IsProtoLine(fields) {
        var addr := DecodeProcAddr(fields[1], print6);
        if addr.None? {
          cur := None;
          continue;
        }
        var key := fields[0] + " " + addr.value;
        if key !in into {
          into := into[key := Service(fields[0], addr.value, map[], [])];
          order := order + [key];
        }
        cur := Some(key);
        continue;
      }
      if fields[0] != "->" || cur.None? || |fields| < 6 { continue; }
      var addr := DecodeProcAddr(fields[1], print6);
      if addr.None? { continue; }
      var svc := into[cur.value];
      var d := UNSEEN;
      if addr.value in svc.dests {
        d := svc.dests[addr.value];
      } else {
        svc := svc.(order := svc.order + [addr.value]);
      }
      d := d.(weight := BigNum(fields[3]).Floor, seenWeight := true);
      d := d.(active := BigNum(fields[4]), inactive := BigNum(fields[5]));
      into := into[cur.value := svc.(dests := svc.dests[addr.value := d])];
    }
    assert lines[|lines|..] == [];
  }

  method ParseListing(text: string, kind: Kind, services: Services) returns (into: Services, order: seq<string>)
    ensures into == ReadListing(text, kind, services).services
    ensures order == ReadListing(text, kind, services).order
  {
    into, order := services, [];
    var cur: Option<string> := None;
    var lines := Split(text, '\n');
    ghost var whole := ReadListing(text, kind, services);
    for i := 0 to |lines|
      invariant Ok(Reading(into, order, cur))
      invariant ListingRows(Reading(into, order, cur), FieldRows(lines[i..]), kind) == whole
    {
      var fields := Fields(lines[i]);
      assert FieldRows(lines[i..])[1..] == FieldRows(lines[i + 1..]) by { assert lines[i..][1..] == lines[i + 1..]; }
      assert FieldRows(lines[i..])[0] == fields;
      if fields == [] { continue; }
      if IsProtoLine(fields) {
        var key := fields[0] + " " + fields[1];
        if key !in into {
          into := into[key := Service(fields[0], fields[1], map[], [])];
        }
        order := order + [key];
        cur := Some(key);
        continue;
      }
      if fields[0] != "->" || cur.None? || |fields| < 2 { continue; }
      var addr := fields[1];
      if addr == "RemoteAddress:Port" { continue; }
      var svc := into[cur.value];
      var d := UNSEEN;
      if addr in svc.dests {
        d := svc.dests[addr];
      } else {
        svc := svc.(order := svc.order + [addr]);
      }
      var nums := fields[2..];
      match kind {
        case PlainKind =>
          if |nums| >= 4 {
            d := d.(weight := BigNum(nums[1]).Floor, seenWeight := true);
            d := d.(active := BigNum(nums[2]), inactive := BigNum(nums[3]));
          }
        case StatsKind =>
          if |nums| >= 5 {
            d := d.(conns := BigNum(nums[0]), inPkts := BigNum(nums[1]), inBytes := BigNum(nums[3]));
          }
        case RateKind =>
          if |nums| >= 5 {
            d := d.(cps := BigNum(nums[0]), inPps := BigNum(nums[1]));
          }
      }
      into := into[cur.value := svc.(dests := svc.dests[addr := d])];
    }
    assert lines[|lines|..] == [];
  }

  // ------------------------------------------------- the kernel's table and its two printed forms

  datatype Endpoint = Endpoint(ip: seq<nat>, port: nat)

  datatype RealServer = RealServer(at: Endpoint, forward: string, weight: nat, active: nat, inactive: nat,
                                   stats: Stats, rate: Rate)

  /** What `--stats` and `--rate` count. */
  datatype Stats = Stats(conns: nat, inPkts: nat, outPkts: nat, inBytes: nat, outBytes: nat)
  datatype Rate = Rate(cps: nat, inPps: nat, outPps: nat, inBps: nat, outBps: nat)

  /** rest: the scheduler and its flags. statsRest, rateRest: its own counters instead. */
  datatype Virtual = Virtual(proto: string, at: Endpoint, rest: seq<string>, statsRest: seq<string>,
                             rateRest: seq<string>, reals: seq<RealServer>)

  predicate IPv4(e: Endpoint) {
    |e.ip| == 4 && e.port <= 0xFFFF && forall i :: 0 <= i < 4 ==> e.ip[i] <= 0xFF
  }

  predicate RealsFit(rs: seq<RealServer>) { forall r :: r in rs ==> IPv4(r.at) }

  predicate Fit(v: Virtual) { v.proto in {"TCP", "UDP", "SCTP"} && IPv4(v.at) && RealsFit(v.reals) }

  predicate TableFits(vs: seq<Virtual>) { forall v :: v in vs ==> Fit(v) }

  function HexByte(b: nat): string
    requires b <= 0xFF
  {
    [Digit(b / 16), Digit(b % 16)]
  }

  function HexIp(ip: seq<nat>): string
    requires forall i :: 0 <= i < |ip| ==> ip[i] <= 0xFF
  {
    if ip == [] then "" else HexByte(ip[0]) + HexIp(ip[1..])
  }

  function HexPort(port: nat): string
    requires port <= 0xFFFF
  {
    [Digit(port / 0x1000), Digit(port / 0x100 % 16), Digit(port / 16 % 16), Digit(port % 16)]
  }

  /** C0A80237:0035 */
  function HexAddr(e: Endpoint): string
    requires IPv4(e)
  {
    HexIp(e.ip) + ":" + HexPort(e.port)
  }

  /** 192.168.2.55:53 */
  function TextAddr(e: Endpoint): string
    requires IPv4(e)
  {
    Dotted(e.ip) + ":" + Decimal(e.port)
  }

  /** The kernel's own file, or one of ipvsadm's listings. */
  datatype Form = ProcForm | ListingForm(kind: Kind)

  function Addr(e: Endpoint, form: Form): string
    requires IPv4(e)
  {
    if form.ProcForm? then HexAddr(e) else TextAddr(e)
  }

  /** The columns after the address: what each listing is documented to print. */
  function Cells(r: RealServer, form: Form): seq<string> {
    if form == ListingForm(StatsKind) then
      [Decimal(r.stats.conns), Decimal(r.stats.inPkts), Decimal(r.stats.outPkts), Decimal(r.stats.inBytes),
       Decimal(r.stats.outBytes)]
    else if form == ListingForm(RateKind) then
      [Decimal(r.rate.cps), Decimal(r.rate.inPps), Decimal(r.rate.outPps), Decimal(r.rate.inBps),
       Decimal(r.rate.outBps)]
    else [r.forward, Decimal(r.weight), Decimal(r.active), Decimal(r.inactive)]
  }

  function RealRow(r: RealServer, form: Form): seq<string>
    requires IPv4(r.at)
  {
    ["->", Addr(r.at, form)] + Cells(r, form)
  }

  function RealRows(rs: seq<RealServer>, form: Form): seq<seq<string>>
    requires RealsFit(rs)
  {
    if rs == [] then [] else [RealRow(rs[0], form)] + RealRows(rs[1..], form)
  }

  function VirtualRow(v: Virtual, form: Form): seq<string>
    requires Fit(v)
  {
    [v.proto, Addr(v.at, form)]
    + if form == ListingForm(StatsKind) then v.statsRest
      else if form == ListingForm(RateKind) then v.rateRest
      else v.rest
  }

  /** A listed service; or one selected by a firewall mark, whose line begins with FWM, the rest of it
      as the kernel prints it and as ipvsadm does. */
  datatype Entry = Listed(v: Virtual) | Marked(kernel: seq<string>, shown: seq<string>, reals: seq<RealServer>)

  predicate EntryFits(e: Entry) { if e.Listed? then Fit(e.v) else RealsFit(e.reals) }

  predicate EntriesFit(es: seq<Entry>) { forall e :: e in es ==> EntryFits(e) }

  function EntryRows(es: seq<Entry>, form: Form): seq<seq<string>>
    requires EntriesFit(es)
  {
    if es == [] then []
    else
      assert EntryFits(es[0]) by { assert es[0] in es; }
      (match es[0]
       case Listed(v) => [VirtualRow(v, form)] + RealRows(v.reals, form)
       case Marked(kernel, shown, reals) =>
         [["FWM"] + if form.ProcForm? then kernel else shown] + RealRows(reals, form))
      + EntryRows(es[1..], form)
  }

  /** The lines before the first service, whatever version and table size they name. */
  predicate Heading(rows: seq<seq<string>>) { forall row :: row in rows ==> !IsProtoLine(row) }

  /** The words of /proc/net/ip_vs or of `ipvsadm -Ln`, plain, with --stats or with --rate, and --exact. */
  function Listing(heading: seq<seq<string>>, es: seq<Entry>, form: Form): seq<seq<string>>
    requires EntriesFit(es)
  {
    heading + EntryRows(es, form)
  }

  // ------------------------------------------------- addresses decode to what ipvsadm prints

  lemma DigitValueOfDigit(d: nat)
    requires d < 16
    ensures DigitValue(Digit(d)) == Some(d)
  {
  }

  lemma {:induction false} HexBytesOfIp(ip: seq<nat>)
    requires forall i :: 0 <= i < |ip| ==> ip[i] <= 0xFF
    ensures HexBytes(HexIp(ip)) == Some(ip)
    ensures forall c :: c in HexIp(ip) ==> c !in {':', '[', ']'}
  {
    if ip != [] {
      var b := ip[0];
      DigitValueOfDigit(b / 16);
      DigitValueOfDigit(b % 16);
      HexBytesOfIp(ip[1..]);
      var s := HexIp(ip);
      assert s[0] == Digit(b / 16) && s[1] == Digit(b % 16) && s[2..] == HexIp(ip[1..]);
      assert [b] + ip[1..] == ip;
    }
  }

  lemma ValueStep(s: string, c: char, v: nat, d: nat, base: Base)
    requires Value(s, base) == Some(v) && DigitValue(c) == Some(d) && d < base
    ensures Value(s + [c], base) == Some(Shift(v, base, d))
  {
    assert (s + [c])[..|s + [c]| - 1] == s;
  }

  lemma ValueOfFour(a: nat, b: nat, c: nat, d: nat)
    requires a < 16 && b < 16 && c < 16 && d < 16
    ensures Value([Digit(a), Digit(b), Digit(c), Digit(d)], 16) == Some(((a * 16 + b) * 16 + c) * 16 + d)
  {
    var one, two, three := [Digit(a)], [Digit(a), Digit(b)], [Digit(a), Digit(b), Digit(c)];
    assert one == "" + [Digit(a)] && two == one + [Digit(b)] && three == two + [Digit(c)];
    assert [Digit(a), Digit(b), Digit(c), Digit(d)] == three + [Digit(d)];
    ValueStep("", Digit(a), 0, a, 16);
    ValueStep(one, Digit(b), a, b, 16);
    ValueStep(two, Digit(c), a * 16 + b, c, 16);
    ValueStep(three, Digit(d), (a * 16 + b) * 16 + c, d, 16);
  }

  lemma HexDigitsOfPort(port: nat)
    requires port <= 0xFFFF
    ensures ((port / 0x1000 * 16 + port / 0x100 % 16) * 16 + port / 16 % 16) * 16 + port % 16 == port
  {
    var a, b, c := port / 0x1000, port / 0x100, port / 16;
    assert b / 16 == a && c / 16 == b;
  }

  lemma {:induction false} FindLastIs(a: string, c: char, b: string)
    requires c !in b
    ensures FindLast(a + [c] + b, c) == |a|
    decreases |b|
  {
    var s := a + [c] + b;
    if b != [] {
      assert s[..|s| - 1] == a + [c] + b[..|b| - 1];
      assert s[|s| - 1] == b[|b| - 1];
      FindLastIs(a, c, b[..|b| - 1]);
    }
  }

  lemma DottedIsPlain(ip: seq<nat>)
    requires |ip| == 4
    ensures forall c :: c in Dotted(ip) ==> '0' <= c <= '9' || c == '.'
  {
  }

  lemma JoinedPlain(ip: seq<nat>, port: string)
    requires |ip| == 4
    ensures JoinHostPort(Dotted(ip), port) == Dotted(ip) + ":" + port
  {
    DottedIsPlain(ip);
  }

  lemma PortDecodes(port: nat)
    requires port <= 0xFFFF
    ensures Value(HexPort(port), 16) == Some(port)
  {
    HexDigitsOfPort(port);
    ValueOfFour(port / 0x1000, port / 0x100 % 16, port / 16 % 16, port % 16);
  }

  lemma CutAtColon(a: string, p: string)
    requires ':' !in p
    ensures var s := a + ":" + p; FindLast(s, ':') == |a| && s[..|a|] == a && s[|a| + 1..] == p
  {
    FindLastIs(a, ':', p);
    assert a + ":" + p == a + [':'] + p;
  }

  lemma NoBrackets(a: string)
    requires '[' !in a && ']' !in a
    ensures Unbracketed(a) == a
  {
    if a != "" { assert a[0] in a && a[|a| - 1] in a; }
  }

  /** The kernel's hex address decodes to the text ipvsadm prints for it. */
  lemma DecodesToText(e: Endpoint, print6: seq<nat> -> string)
    requires IPv4(e)
    ensures DecodeProcAddr(HexAddr(e), print6) == Some(TextAddr(e))
  {
    HexBytesOfIp(e.ip);
    CutAtColon(HexIp(e.ip), HexPort(e.port));
    NoBrackets(HexIp(e.ip));
    PortDecodes(e.port);
    JoinedPlain(e.ip, Decimal(e.port));
  }

  lemma BracketsOff(x: string)
    ensures Unbracketed("[" + x + "]") == x
  {
    var s := "[" + x + "]";
    assert s[1..] == x + "]" && (x + "]")[..|x|] == x;
  }

  /** IPv6: the bytes as they are printed, in brackets. */
  lemma DecodesV6(ip: seq<nat>, port: nat, print6: seq<nat> -> string)
    requires |ip| == 16 && port <= 0xFFFF && forall i :: 0 <= i < |ip| ==> ip[i] <= 0xFF
    requires ':' in print6(ip)
    ensures DecodeProcAddr("[" + HexIp(ip) + "]" + ":" + HexPort(port), print6)
            == Some("[" + print6(ip) + "]:" + Decimal(port))
  {
    var host := "[" + HexIp(ip) + "]";
    HexBytesOfIp(ip);
    CutAtColon(host, HexPort(port));
    PortDecodes(port);
    BracketsOff(HexIp(ip));
  }

  lemma DottedInjective(a: seq<nat>, b: seq<nat>)
    requires |a| == |b| == 4 && Dotted(a) == Dotted(b)
    ensures a == b
  {
    CutUnique(Decimal(a[0]), Decimal(b[0]), '.', Decimal(a[1]) + "." + (Decimal(a[2]) + "." + Decimal(a[3])),
              Decimal(b[1]) + "." + (Decimal(b[2]) + "." + Decimal(b[3])));
    CutUnique(Decimal(a[1]), Decimal(b[1]), '.', Decimal(a[2]) + "." + Decimal(a[3]),
              Decimal(b[2]) + "." + Decimal(b[3]));
    CutUnique(Decimal(a[2]), Decimal(b[2]), '.', Decimal(a[3]), Decimal(b[3]));
    forall i | 0 <= i < 4 ensures a[i] == b[i] { DecimalInjective(a[i], b[i]); }
  }

  lemma TextAddrInjective(d: Endpoint, e: Endpoint)
    requires IPv4(d) && IPv4(e) && TextAddr(d) == TextAddr(e)
    ensures d == e
  {
    DottedIsPlain(d.ip);
    DottedIsPlain(e.ip);
    CutUnique(Dotted(d.ip), Dotted(e.ip), ':', Decimal(d.port), Decimal(e.port));
    DottedInjective(d.ip, e.ip);
    DecimalInjective(d.port, e.port);
  }

  function Key(v: Virtual): string
    requires Fit(v)
  {
    v.proto + " " + TextAddr(v.at)
  }

  lemma KeyInjective(v: Virtual, w: Virtual)
    requires Fit(v) && Fit(w) && Key(v) == Key(w)
    ensures v.proto == w.proto && v.at == w.at
  {
    CutUnique(v.proto, w.proto, ' ', TextAddr(v.at), TextAddr(w.at));
    TextAddrInjective(v.at, w.at);
  }
}
