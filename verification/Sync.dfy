/** The reconciliation engine (backend/app/sync.py): one pass over one AdGuard server, any of
    whose calls may fail, before or after taking effect. */
module Sync {
  datatype Rewrite = Rewrite(domain: string, answer: string)

  /** Rewrite.key(): the normalised identity of a rewrite, fixed but arbitrary here. */
  type KeyOf = Rewrite -> (string, string)

  datatype Row = Row(name: string, url: string, enabled: bool)
  datatype Listed = Listed(name: string, enabled: bool)

  /** The snapshot build_plan takes; url of a row is already stripped, and not empty. */
  datatype Plan = Plan(
    prune: bool,
    manageUpstreams: bool,
    manageFiltering: bool,
    rewrites: set<Rewrite>,
    upstreams: map<string, seq<string>>,
    blocklists: seq<Row>,
    allowlists: seq<Row>,
    services: set<string>)

  const LOCAL_PTR := "local_ptr_upstreams"

  /** What the passes read and write on the server. Filter lists are keyed by (whitelist, url). */
  datatype Remote = Remote(
    rewrites: set<Rewrite>,
    dns: map<string, seq<string>>,
    privatePtr: bool,
    filters: map<(bool, string), Listed>,
    filteringOn: bool,
    services: set<string>)

  // ------------------------------------------------- what a pass finds to do

  function Keys(key: KeyOf, rs: set<Rewrite>): set<(string, string)> { set r | r in rs :: key(r) }

  function ToAdd(key: KeyOf, plan: Plan, current: set<Rewrite>): set<Rewrite> {
    set r | r in plan.rewrites && key(r) !in Keys(key, current)
  }

  function ToDelete(key: KeyOf, plan: Plan, current: set<Rewrite>): set<Rewrite> {
    if plan.prune then set r | r in current && key(r) !in Keys(key, plan.rewrites) else {}
  }

  function Elements(xs: seq<string>): set<string> { set x | x in xs }

  function ListOf(dns: map<string, seq<string>>, name: string): seq<string> {
    if name in dns then dns[name] else []
  }

  /** A list is pushed when its desired value is not empty and differs as a set. */
  predicate Pushed(plan: Plan, dns: map<string, seq<string>>, name: string) {
    name in plan.upstreams && plan.upstreams[name] != []
    && Elements(ListOf(dns, name)) != Elements(plan.upstreams[name])
  }

  function Payload(plan: Plan, dns: map<string, seq<string>>): map<string, seq<string>> {
    map name | name in plan.upstreams && Pushed(plan, dns, name) :: plan.upstreams[name]
  }

  predicate RowInSync(row: Row, white: bool, filters: map<(bool, string), Listed>) {
    (white, row.url) in filters && filters[(white, row.url)] == Listed(row.name, row.enabled)
  }

  function Urls(rows: seq<Row>): set<string> { set row | row in rows :: row.url }

  predicate Stray(rows: seq<Row>, white: bool, filters: map<(bool, string), Listed>, url: string) {
    (white, url) in filters && url !in Urls(rows)
  }

  ghost predicate ListInSync(rows: seq<Row>, white: bool, prune: bool, filters: map<(bool, string), Listed>) {
    && (forall i :: 0 <= i < |rows| ==> RowInSync(rows[i], white, filters))
    && (prune ==> forall url :: !Stray(rows, white, filters, url))
  }

  predicate WantsFiltering(rows: seq<Row>) { exists row :: row in rows && row.enabled }

  function Target(plan: Plan, current: set<string>): set<string> {
    if plan.prune then plan.services else current + plan.services
  }

  ghost predicate FiltersInSync(plan: Plan, r: Remote) {
    && ListInSync(plan.blocklists, false, plan.prune, r.filters)
    && ListInSync(plan.allowlists, true, plan.prune, r.filters)
    && ((exists row :: row in plan.blocklists && row.enabled) ==> r.filteringOn)
  }

  /** The planned services are blocked, and with prune no others are; an empty plan wants nothing. */
  predicate ServicesInSync(plan: Plan, r: Remote) {
    plan.services != {} ==> plan.services <= r.services && (plan.prune ==> r.services <= plan.services)
  }

  predicate HasKey(key: KeyOf, rs: set<Rewrite>, k: (string, string)) { exists x :: x in rs && key(x) == k }

  /** Every planned rewrite is there under its key, and with prune no other. */
  ghost predicate RewritesInSync(key: KeyOf, plan: Plan, r: Remote) {
    && (forall w :: w in plan.rewrites ==> HasKey(key, r.rewrites, key(w)))
    && (plan.prune ==> forall x :: x in r.rewrites ==> HasKey(key, plan.rewrites, key(x)))
  }

  lemma RewritesInSyncIff(key: KeyOf, plan: Plan, r: Remote)
    ensures RewritesInSync(key, plan, r) <==>
              ToAdd(key, plan, r.rewrites) == {} && ToDelete(key, plan, r.rewrites) == {}
  {
    KeysAre(key, r.rewrites);
    KeysAre(key, plan.rewrites);
    forall w | w in plan.rewrites ensures w in ToAdd(key, plan, r.rewrites) <==> !HasKey(key, r.rewrites, key(w)) {}
    forall x | x in r.rewrites && plan.prune
      ensures x in ToDelete(key, plan, r.rewrites) <==> !HasKey(key, plan.rewrites, key(x))
    {
    }
  }

  lemma KeysAre(key: KeyOf, rs: set<Rewrite>)
    ensures forall k :: k in Keys(key, rs) <==> HasKey(key, rs, k)
  {
  }

  /** The server has this list with just these addresses, in any order. */
  predicate ListMatches(dns: map<string, seq<string>>, name: string, wanted: seq<string>) {
    name in dns && (forall x :: x in dns[name] ==> x in wanted) && forall x :: x in wanted ==> x in dns[name]
  }

  /** Every planned list that is not empty is on the server. */
  ghost predicate ListsMatch(plan: Plan, dns: map<string, seq<string>>) {
    forall name :: name in plan.upstreams && plan.upstreams[name] != [] ==> ListMatches(dns, name, plan.upstreams[name])
  }

  ghost predicate UpstreamsInSync(plan: Plan, r: Remote) { plan.manageUpstreams ==> ListsMatch(plan, r.dns) }

  lemma PushedIff(plan: Plan, dns: map<string, seq<string>>, name: string)
    requires name in plan.upstreams && plan.upstreams[name] != []
    ensures Pushed(plan, dns, name) <==> !ListMatches(dns, name, plan.upstreams[name])
  {
    var wanted, has := plan.upstreams[name], ListOf(dns, name);
    assert wanted[0] in wanted;
    assert forall x :: x in wanted <==> x in Elements(wanted);
    assert forall x :: x in has <==> x in Elements(has);
  }

  /** Nothing is pushed exactly when all lists match. */
  lemma ListsMatchIff(plan: Plan, dns: map<string, seq<string>>)
    ensures ListsMatch(plan, dns) <==> Payload(plan, dns) == map[]
  {
    forall name | name in plan.upstreams && plan.upstreams[name] != []
      ensures Pushed(plan, dns, name) <==> !ListMatches(dns, name, plan.upstreams[name])
    {
      PushedIff(plan, dns, name);
    }
    if name :| name in Payload(plan, dns) { assert Pushed(plan, dns, name); }
    if ListsMatch(plan, dns) {
      assert Payload(plan, dns).Keys == {};
    } else {
      var name :| name in plan.upstreams && plan.upstreams[name] != [] && !ListMatches(dns, name, plan.upstreams[name]);
      assert name in Payload(plan, dns);
    }
  }

  ghost predicate FilteringInSync(plan: Plan, r: Remote) {
    plan.manageFiltering ==> FiltersInSync(plan, r) && ServicesInSync(plan, r)
  }

  ghost predicate InSync(key: KeyOf, plan: Plan, r: Remote) {
    RewritesInSync(key, plan, r) && UpstreamsInSync(plan, r) && FilteringInSync(plan, r)
  }

  // ------------------------------------------------- abort safety of the rewrites

  /** From `was` to `now` nothing got worse: no desired key went missing, no stray key appeared,
      and no desired key that was present was removed. */
  ghost predicate NoWorse(key: KeyOf, plan: Plan, was: set<Rewrite>, now: set<Rewrite>) {
    var desired := Keys(key, plan.rewrites);
    && desired - Keys(key, now) <= desired - Keys(key, was)
    && Keys(key, now) - desired <= Keys(key, was) - desired
    && Keys(key, was) * desired <= Keys(key, now)
  }

  /** What a complete pass leaves. */
  ghost predicate Reconciled(key: KeyOf, plan: Plan, was: set<Rewrite>, now: set<Rewrite>) {
    Keys(key, now) == if plan.prune then Keys(key, plan.rewrites) else Keys(key, was) + Keys(key, plan.rewrites)
  }

  lemma ReconciledIsFixpoint(key: KeyOf, plan: Plan, was: set<Rewrite>, now: set<Rewrite>)
    requires Reconciled(key, plan, was, now)
    ensures ToAdd(key, plan, now) == {} && ToDelete(key, plan, now) == {}
  {
    forall r | r in plan.rewrites ensures key(r) in Keys(key, now) {
      assert key(r) in Keys(key, plan.rewrites);
    }
    forall r | r in now ensures plan.prune ==> key(r) in Keys(key, plan.rewrites) {
      assert key(r) in Keys(key, now);
    }
  }

  // ------------------------------------------------- duplicate filter rows

  /** Rows with one URL agree on name and flag. */
  predicate Consistent(rows: seq<Row>) {
    forall i, j :: 0 <= i < |rows| && 0 <= j < |rows| && rows[i].url == rows[j].url ==>
      rows[i].name == rows[j].name && rows[i].enabled == rows[j].enabled
  }

  /** Rows that disagree about one URL are never in sync, whatever the server holds. */
  lemma InconsistentNeverInSync(rows: seq<Row>, white: bool, prune: bool, filters: map<(bool, string), Listed>)
    requires !Consistent(rows)
    ensures !ListInSync(rows, white, prune, filters)
  {
    var i, j :| 0 <= i < |rows| && 0 <= j < |rows| && rows[i].url == rows[j].url
                && !(rows[i].name == rows[j].name && rows[i].enabled == rows[j].enabled);
    if RowInSync(rows[i], white, filters) { assert !RowInSync(rows[j], white, filters); }
  }

  // ------------------------------------------------- the server

  datatype Reply = Done | Lost | Refused

  class Server {
    var remote: Remote

    constructor (r: Remote)
      ensures remote == r
    {
      remote := r;
    }

    /** One call: carried out and answered, carried out with the answer lost, or not carried out. */
    method Call(effect: Remote) returns (ok: bool)
      modifies this
      ensures ok ==> remote == effect
      ensures !ok ==> remote == effect || remote == old(remote)
    {
      var reply: Reply := *;
      if reply != Refused { remote := effect; }
      ok := reply == Done;
    }
  }

  // ------------------------------------------------- apply_plan: rewrites

  /** The body of apply_plan between list_rewrites and the upstreams. */
  method ReconcileRewrites(key: KeyOf, plan: Plan, dryRun: bool, server: Server)
    returns (ok: bool, added: set<Rewrite>, deleted: set<Rewrite>)
    modifies server
    ensures added == ToAdd(key, plan, old(server.remote.rewrites))
    ensures deleted == ToDelete(key, plan, old(server.remote.rewrites))
    ensures server.remote == old(server.remote).(rewrites := server.remote.rewrites)
    ensures NoWorse(key, plan, old(server.remote.rewrites), server.remote.rewrites)
    ensures dryRun ==> ok && server.remote == old(server.remote)
    ensures ok && !dryRun ==> Reconciled(key, plan, old(server.remote.rewrites), server.remote.rewrites)
    ensures RewritesInSync(key, plan, old(server.remote)) ==> ok && server.remote == old(server.remote)
  {
    var was := server.remote.rewrites;
    added, deleted := ToAdd(key, plan, was), ToDelete(key, plan, was);
    if dryRun { return true, added, deleted; }
    var left := added;
    while left != {}
      invariant left <= added
      invariant server.remote == old(server.remote).(rewrites := was + (added - left))
      decreases left
    {
      var r :| r in left;
      ok := server.Call(server.remote.(rewrites := server.remote.rewrites + {r}));
      if !ok {
        AddsNoWorse(key, plan, was, server.remote.rewrites);
        return;
      }
      left := left - {r};
      assert was + (added - left) == server.remote.rewrites;
    }
    left := deleted;
    while left != {}
      invariant left <= deleted
      invariant server.remote == old(server.remote).(rewrites := was + added - (deleted - left))
      decreases left
    {
      var r :| r in left;
      ok := server.Call(server.remote.(rewrites := server.remote.rewrites - {r}));
      if !ok {
        DeletesNoWorse(key, plan, was, deleted - left);
        DeletesNoWorse(key, plan, was, deleted - left + {r});
        assert was + added - (deleted - left) - {r} == was + added - (deleted - left + {r});
        return;
      }
      left := left - {r};
      assert server.remote.rewrites == was + added - (deleted - left);
    }
    DeletesNoWorse(key, plan, was, deleted);
    assert deleted - left == deleted;
    CompleteReconciles(key, plan, was);
    ok := true;
  }

  lemma AddsNoWorse(key: KeyOf, plan: Plan, was: set<Rewrite>, now: set<Rewrite>)
    requires was <= now <= was + ToAdd(key, plan, was)
    ensures NoWorse(key, plan, was, now)
  {
    forall r | r in was ensures key(r) in Keys(key, now) { assert r in now; }
  }

  lemma DeletesNoWorse(key: KeyOf, plan: Plan, was: set<Rewrite>, gone: set<Rewrite>)
    requires gone <= ToDelete(key, plan, was)
    ensures NoWorse(key, plan, was, was + ToAdd(key, plan, was) - gone)
  {
    var now := was + ToAdd(key, plan, was) - gone;
    forall k | k in Keys(key, was) * Keys(key, plan.rewrites) ensures k in Keys(key, now) {
      var r :| r in was && key(r) == k;
      assert r in now;
    }
  }

  lemma CompleteReconciles(key: KeyOf, plan: Plan, was: set<Rewrite>)
    ensures Reconciled(key, plan, was, was + ToAdd(key, plan, was) - ToDelete(key, plan, was))
  {
    var desired := Keys(key, plan.rewrites);
    var now := was + ToAdd(key, plan, was) - ToDelete(key, plan, was);
    forall k | k in desired ensures k in Keys(key, now) {
      var r :| r in plan.rewrites && key(r) == k;
      if k in Keys(key, was) {
        var r' :| r' in was && key(r') == k;
        assert r' in now;
      } else {
        assert r in ToAdd(key, plan, was) && r in now;
      }
    }
    if !plan.prune {
      forall k | k in Keys(key, was) ensures k in Keys(key, now) {
        var r :| r in was && key(r) == k;
        assert r in now;
      }
    }
  }

  // ------------------------------------------------- apply_plan: upstreams

  /** Merging a payload into the DNS configuration; the private resolvers are switched on with
      their list. */
  function WithPayload(r: Remote, payload: map<string, seq<string>>): Remote {
    r.(dns := r.dns + payload, privatePtr := r.privatePtr || LOCAL_PTR in payload)
  }

  lemma PushedIsFixpoint(plan: Plan, r: Remote)
    ensures Payload(plan, WithPayload(r, Payload(plan, r.dns)).dns) == map[]
    ensures forall name :: name in r.dns && !Pushed(plan, r.dns, name) ==>
              ListOf(WithPayload(r, Payload(plan, r.dns)).dns, name) == r.dns[name]
  {
  }

  /** A list that is not planned, or planned empty, is left alone. */
  ghost predicate Unasked(plan: Plan, was: map<string, seq<string>>, now: map<string, seq<string>>) {
    forall name :: name in was && (name !in plan.upstreams || plan.upstreams[name] == []) ==>
      name in now && now[name] == was[name]
  }

  method ReconcileUpstreams(plan: Plan, dryRun: bool, server: Server) returns (ok: bool, changed: bool)
    modifies server
    ensures changed <==> !ListsMatch(plan, old(server.remote.dns))
    ensures ok && !dryRun ==> ListsMatch(plan, server.remote.dns)
    ensures Unasked(plan, old(server.remote.dns), server.remote.dns)
    ensures dryRun ==> ok && server.remote == old(server.remote)
    ensures ok && !dryRun ==> server.remote == WithPayload(old(server.remote), Payload(plan, old(server.remote.dns)))
    ensures server.remote
              in {old(server.remote), WithPayload(old(server.remote), Payload(plan, old(server.remote.dns)))}
  {
    var info := server.remote.dns;
    var payload: map<string, seq<string>> := map[];
    var left := plan.upstreams.Keys;
    while left != {}
      invariant left <= plan.upstreams.Keys
      invariant payload == map name | name in plan.upstreams && name !in left && Pushed(plan, info, name) ::
                plan.upstreams[name]
      decreases left
    {
      var name :| name in left;
      var wanted := plan.upstreams[name];
      if wanted != [] && Elements(ListOf(info, name)) != Elements(wanted) {
        payload := payload[name := wanted];
      }
      left := left - {name};
    }
    assert payload == Payload(plan, info);
    ListsMatchIff(plan, info);
    PushedIsFixpoint(plan, server.remote);
    ListsMatchIff(plan, WithPayload(server.remote, payload).dns);
    changed := payload != map[];
    ok := true;
    if changed && !dryRun {
      ok := server.Call(WithPayload(server.remote, payload));
    }
    if payload == map[] { assert server.remote.dns + payload == server.remote.dns; }
  }

  // ------------------------------------------------- _reconcile_filtering: one kind of list

  /** Nothing but filter lists of this kind changed, and none was dropped unless pruning. */
  ghost predicate OnlyKind(white: bool, prune: bool, was: Remote, now: Remote) {
    && now == was.(filters := now.filters)
    && (forall k :: k in was.filters && k.0 != white ==> k in now.filters && now.filters[k] == was.filters[k])
    && (forall k :: k in now.filters && k.0 != white ==> k in was.filters)
    && (!prune ==> was.filters.Keys <= now.filters.Keys)
  }

  /** No list the rows ask for is dropped. */
  ghost predicate AskedKept(rows: seq<Row>, white: bool, was: Remote, now: Remote) {
    forall url :: url in Urls(rows) && (white, url) in was.filters ==> (white, url) in now.filters
  }

  /** After the first n rows: settled for each of them, untouched for every other URL. */
  ghost predicate RowsApplied(rows: seq<Row>, n: nat, white: bool, was: Remote, now: Remote)
    requires n <= |rows|
  {
    && (Consistent(rows) ==> forall i :: 0 <= i < n ==> RowInSync(rows[i], white, now.filters))
    && (forall k :: k in was.filters && (k.0 != white || k.1 !in Urls(rows[..n])) ==>
          k in now.filters && now.filters[k] == was.filters[k])
    && (forall k :: k in now.filters && k !in was.filters ==> k.0 == white && k.1 in Urls(rows[..n]))
    && was.filters.Keys <= now.filters.Keys
    && now == was.(filters := now.filters)
  }

  method ApplyRow(row: Row, white: bool, current: map<(bool, string), Listed>, dryRun: bool, server: Server)
    returns (ok: bool, changed: bool)
    modifies server
    ensures changed <==> !RowInSync(row, white, current)
    ensures dryRun ==> ok && server.remote == old(server.remote)
    ensures OneEntry((white, row.url), old(server.remote), server.remote)
    ensures ok && !dryRun && changed ==> RowInSync(row, white, server.remote.filters)
    ensures !changed ==> ok && server.remote == old(server.remote)
  {
    var k := (white, row.url);
    ok, changed := true, false;
    if k !in current {
      changed := true;
      if !dryRun {
        // add_url always adds an enabled list
        ok := server.Call(server.remote.(filters := server.remote.filters[k := Listed(row.name, true)]));
        if ok && !row.enabled {
          ok := server.Call(server.remote.(filters := server.remote.filters[k := Listed(row.name, false)]));
        }
      }
    } else if current[k].enabled != row.enabled || current[k].name != row.name {
      changed := true;
      if !dryRun {
        ok := server.Call(server.remote.(filters := server.remote.filters[k := Listed(row.name, row.enabled)]));
      }
    }
  }

  predicate FirstInSync(rows: seq<Row>, n: nat, white: bool, filters: map<(bool, string), Listed>)
    requires n <= |rows|
  {
    forall i :: 0 <= i < n ==> RowInSync(rows[i], white, filters)
  }

  /** What ApplyRow may change, whether or not it succeeds. */
  ghost predicate OneEntry(k: (bool, string), before: Remote, now: Remote) {
    && now == before.(filters := now.filters)
    && before.filters.Keys <= now.filters.Keys <= before.filters.Keys + {k}
    && forall j :: j in before.filters && j != k ==> now.filters[j] == before.filters[j]
  }

  lemma OnlyKindStep(white: bool, url: string, was: Remote, before: Remote, now: Remote)
    requires OnlyKind(white, false, was, before) && OneEntry((white, url), before, now)
    ensures OnlyKind(white, false, was, now)
  {
  }

  /** Where the loop over the rows stands before row i. */
  ghost predicate RowsSoFar(rows: seq<Row>, i: nat, white: bool, dryRun: bool, changed: bool, was: Remote, now: Remote)
    requires i <= |rows|
  {
    && (changed <==> !FirstInSync(rows, i, white, was.filters))
    && (dryRun || !changed ==> now == was)
    && OnlyKind(white, false, was, now)
    && (!dryRun ==> RowsApplied(rows, i, white, was, now))
  }

  lemma NoRowsYet(rows: seq<Row>, white: bool, dryRun: bool, was: Remote)
    ensures RowsSoFar(rows, 0, white, dryRun, false, was, was)
  {
  }

  lemma OneRowMore(rows: seq<Row>, i: nat, white: bool, dryRun: bool, changed: bool,
                   was: Remote, before: Remote, now: Remote, rowChanged: bool)
    requires i < |rows| && RowsSoFar(rows, i, white, dryRun, changed, was, before)
    requires OneEntry((white, rows[i].url), before, now)
    requires rowChanged <==> !RowInSync(rows[i], white, was.filters)
    requires dryRun || !rowChanged ==> now == before
    requires !dryRun && rowChanged ==> RowInSync(rows[i], white, now.filters)
    ensures RowsSoFar(rows, i + 1, white, dryRun, changed || rowChanged, was, now)
  {
    OnlyKindStep(white, rows[i].url, was, before, now);
    if !dryRun {
      UrlsAfter(rows, i);
      RowKeepsEarlier(rows, i, white, was, before, now, rowChanged);
    }
  }

  /** The body of the loop over the rows. */
  method NextRow(rows: seq<Row>, i: nat, white: bool, current: map<(bool, string), Listed>, dryRun: bool,
                 server: Server, ghost was: Remote, ghost earlier: bool) returns (ok: bool, changed: bool)
    requires i < |rows| && current == was.filters
    requires RowsSoFar(rows, i, white, dryRun, earlier, was, server.remote)
    modifies server
    ensures ok ==> RowsSoFar(rows, i + 1, white, dryRun, earlier || changed, was, server.remote)
    ensures !ok ==> !dryRun && !RowInSync(rows[i], white, was.filters) && OnlyKind(white, false, was, server.remote)
  {
    ghost var before := server.remote;
    ok, changed := ApplyRow(rows[i], white, current, dryRun, server);
    if ok {
      OneRowMore(rows, i, white, dryRun, earlier, was, before, server.remote, changed);
    } else {
      OnlyKindStep(white, rows[i].url, was, before, server.remote);
    }
  }

  method ApplyRows(rows: seq<Row>, white: bool, dryRun: bool, server: Server) returns (ok: bool, changed: bool)
    modifies server
    ensures ok ==> (changed <==> !FirstInSync(rows, |rows|, white, old(server.remote.filters)))
    ensures dryRun ==> ok && server.remote == old(server.remote)
    ensures OnlyKind(white, false, old(server.remote), server.remote)
    ensures ok && !dryRun ==> RowsApplied(rows, |rows|, white, old(server.remote), server.remote)
    ensures FirstInSync(rows, |rows|, white, old(server.remote.filters)) ==> ok && server.remote == old(server.remote)
  {
    ghost var was := server.remote;
    var current := server.remote.filters;
    ok, changed := true, false;
    NoRowsYet(rows, white, dryRun, was);
    for i := 0 to |rows|
      invariant ok && RowsSoFar(rows, i, white, dryRun, changed, was, server.remote)
    {
      var rowChanged;
      ok, rowChanged := NextRow(rows, i, white, current, dryRun, server, was, changed);
      if !ok { return; }
      changed := changed || rowChanged;
    }
  }

  lemma UrlsAfter(rows: seq<Row>, i: nat)
    requires i < |rows|
    ensures Urls(rows[..i + 1]) == Urls(rows[..i]) + {rows[i].url}
  {
    assert rows[..i + 1] == rows[..i] + [rows[i]];
  }

  function Strays(rows: seq<Row>, white: bool, filters: map<(bool, string), Listed>): set<(bool, string)> {
    set k | k in filters && k.0 == white && k.1 !in Urls(rows)
  }

  method RemoveStrays(strays: set<(bool, string)>, server: Server) returns (ok: bool)
    modifies server
    ensures server.remote == old(server.remote).(filters := server.remote.filters)
    ensures ok ==> server.remote.filters == old(server.remote.filters) - strays
    ensures forall k :: k in server.remote.filters ==> k in old(server.remote.filters)
    ensures forall k :: k in old(server.remote.filters) && k !in strays ==>
              k in server.remote.filters && server.remote.filters[k] == old(server.remote.filters)[k]
  {
    var left := strays;
    ok := true;
    assert server.remote.filters - {} == server.remote.filters;
    while left != {}
      invariant left <= strays && ok
      invariant server.remote == old(server.remote).(filters := old(server.remote.filters) - (strays - left))
      decreases left
    {
      var k :| k in left;
      ok := server.Call(server.remote.(filters := server.remote.filters - {k}));
      if !ok { return; }
      left := left - {k};
      assert old(server.remote.filters) - (strays - left) == server.remote.filters;
    }
  }

  lemma StraysGone(rows: seq<Row>, white: bool, was: Remote, mid: Remote, now: map<(bool, string), Listed>)
    requires RowsApplied(rows, |rows|, white, was, mid) && Consistent(rows)
    requires now == mid.filters - Strays(rows, white, was.filters)
    ensures ListInSync(rows, white, true, now)
  {
    assert rows[..|rows|] == rows;
    forall i | 0 <= i < |rows| ensures RowInSync(rows[i], white, now) {
      assert rows[i].url in Urls(rows);
      assert RowInSync(rows[i], white, mid.filters);
    }
  }

  lemma NoStrays(rows: seq<Row>, white: bool, filters: map<(bool, string), Listed>)
    ensures Strays(rows, white, filters) == {} <==> forall url :: !Stray(rows, white, filters, url)
  {
    if k :| k in Strays(rows, white, filters) { assert Stray(rows, white, filters, k.1); }
    if url :| Stray(rows, white, filters, url) { assert (white, url) in Strays(rows, white, filters); }
  }

  method ReconcileList(rows: seq<Row>, white: bool, prune: bool, dryRun: bool, server: Server)
    returns (ok: bool, changed: bool)
    modifies server
    ensures ok ==> (changed <==> !ListInSync(rows, white, prune, old(server.remote.filters)))
    ensures dryRun ==> ok && server.remote == old(server.remote)
    ensures OnlyKind(white, prune, old(server.remote), server.remote)
    ensures AskedKept(rows, white, old(server.remote), server.remote)
    ensures ok && !dryRun && Consistent(rows) ==> ListInSync(rows, white, prune, server.remote.filters)
    ensures ListInSync(rows, white, prune, old(server.remote.filters)) ==> ok && server.remote == old(server.remote)
  {
    var current := server.remote.filters;
    ok, changed := ApplyRows(rows, white, dryRun, server);
    if !ok || !prune { return; }
    var strays := Strays(rows, white, current);
    NoStrays(rows, white, current);
    if strays != {} {
      changed := true;
      if !dryRun {
        ghost var mid := server.remote;
        ok := RemoveStrays(strays, server);
        if ok && Consistent(rows) { StraysGone(rows, white, old(server.remote), mid, server.remote.filters); }
      }
    } else if !dryRun && Consistent(rows) {
      assert server.remote.filters - {} == server.remote.filters;
      StraysGone(rows, white, old(server.remote), server.remote, server.remote.filters);
    }
  }

  lemma RowKeepsEarlier(rows: seq<Row>, i: nat, white: bool, was: Remote, before: Remote, now: Remote, rowChanged: bool)
    requires i < |rows| && RowsApplied(rows, i, white, was, before)
    requires OneEntry((white, rows[i].url), before, now)
    requires rowChanged <==> !RowInSync(rows[i], white, was.filters)
    requires rowChanged ==> RowInSync(rows[i], white, now.filters)
    requires !rowChanged ==> now == before
    requires Urls(rows[..i + 1]) == Urls(rows[..i]) + {rows[i].url}
    ensures RowsApplied(rows, i + 1, white, was, now)
  {
    var k := (white, rows[i].url);
    if Consistent(rows) {
      if !rowChanged {
        if rows[i].url in Urls(rows[..i]) {
          var row :| row in rows[..i] && row.url == rows[i].url;
          var j :| 0 <= j < i && rows[j] == row;
          assert RowInSync(rows[j], white, before.filters);
        } else {
          assert k in was.filters && before.filters[k] == was.filters[k];
        }
      }
      forall j | 0 <= j < i ensures RowInSync(rows[j], white, now.filters) {
        assert RowInSync(rows[j], white, before.filters);
      }
    }
  }

  // ------------------------------------------------- _reconcile_filtering

  ghost predicate NothingRemoved(was: Remote, now: Remote) {
    was.filters.Keys <= now.filters.Keys && was.services <= now.services
  }

  /** An aborted pass too keeps every list the plan asks for, whether it prunes or not. */
  ghost predicate ListsKept(plan: Plan, was: Remote, now: Remote) {
    AskedKept(plan.blocklists, false, was, now) && AskedKept(plan.allowlists, true, was, now)
  }

  lemma FirstKept(plan: Plan, was: Remote, now: Remote)
    requires OnlyKind(false, plan.prune, was, now) && AskedKept(plan.blocklists, false, was, now)
    ensures ListsKept(plan, was, now)
  {
  }

  lemma BothKept(plan: Plan, was: Remote, mid: Remote, now: Remote)
    requires ListsKept(plan, was, mid)
    requires OnlyKind(true, plan.prune, mid, now) && AskedKept(plan.allowlists, true, mid, now)
    ensures ListsKept(plan, was, now)
  {
  }

  predicate RowsConsistent(plan: Plan) { Consistent(plan.blocklists) && Consistent(plan.allowlists) }

  lemma OtherKindUntouched(rows: seq<Row>, white: bool, prune: bool, was: Remote, now: Remote)
    requires OnlyKind(!white, prune, was, now)
    ensures ListInSync(rows, white, prune, was.filters) <==> ListInSync(rows, white, prune, now.filters)
  {
    forall row: Row ensures RowInSync(row, white, was.filters) <==> RowInSync(row, white, now.filters) {
      var k := (white, row.url);
      assert k in was.filters <==> k in now.filters;
    }
    forall url ensures Stray(rows, white, was.filters, url) <==> Stray(rows, white, now.filters, url) {
      var k := (white, url);
      assert k in was.filters <==> k in now.filters;
    }
  }

  /** Both kinds of list and the filtering engine; every failure aborts the pass. */
  method ReconcileLists(plan: Plan, dryRun: bool, server: Server) returns (ok: bool, changed: bool)
    modifies server
    ensures ok ==> (changed <==> !FiltersInSync(plan, old(server.remote)))
    ensures dryRun ==> server.remote == old(server.remote)
    ensures server.remote
              == old(server.remote).(filters := server.remote.filters, filteringOn := server.remote.filteringOn)
    ensures !plan.prune ==> NothingRemoved(old(server.remote), server.remote)
    ensures ListsKept(plan, old(server.remote), server.remote)
    ensures ok && !dryRun && RowsConsistent(plan) ==> FiltersInSync(plan, server.remote)
    ensures FiltersInSync(plan, old(server.remote)) ==> ok && server.remote == old(server.remote)
  {
    var filteringOn := server.remote.filteringOn;
    changed := false;
    var blockChanged, allowChanged;
    ghost var was := server.remote;
    ok, blockChanged := ReconcileList(plan.blocklists, false, plan.prune, dryRun, server);
    FirstKept(plan, was, server.remote);
    if !ok { return; }
    ghost var mid := server.remote;
    OtherKindUntouched(plan.allowlists, true, plan.prune, was, mid);
    ok, allowChanged := ReconcileList(plan.allowlists, true, plan.prune, dryRun, server);
    BothKept(plan, was, mid, server.remote);
    if !ok { return; }
    OtherKindUntouched(plan.blocklists, false, plan.prune, mid, server.remote);
    changed := blockChanged || allowChanged;
    if WantsFiltering(plan.blocklists) && !filteringOn {
      changed := true;
      if !dryRun {
        ok := server.Call(server.remote.(filteringOn := true));
      }
    }
  }

  /** With prune exactly the planned services, without it also what was blocked; and an empty plan
      changes nothing. */
  function ServicesLeft(plan: Plan, was: set<string>): set<string> {
    if plan.services == {} then was else plan.services + if plan.prune then {} else was
  }

  /** Blocked services: an AdGuardError here is caught, and the pass goes on. read: what is blocked
      now was learnt, or need not be. reached: no call failed. */
  method ReconcileServices(plan: Plan, dryRun: bool, server: Server) returns (read: bool, reached: bool, changed: bool)
    modifies server
    ensures changed <==> read && !ServicesInSync(plan, old(server.remote))
    ensures reached ==> read
    ensures dryRun ==> server.remote == old(server.remote)
    ensures server.remote == old(server.remote).(services := server.remote.services)
    ensures !plan.prune ==> NothingRemoved(old(server.remote), server.remote)
    ensures reached && !dryRun ==> ServicesInSync(plan, server.remote)
    ensures server.remote.services in {old(server.remote.services), ServicesLeft(plan, old(server.remote.services))}
    ensures reached && !dryRun ==> server.remote.services == ServicesLeft(plan, old(server.remote.services))
    ensures ServicesInSync(plan, old(server.remote)) ==> server.remote == old(server.remote)
  {
    read, reached, changed := true, true, false;
    if plan.services == {} { return; }
    var answered: bool := *;
    if !answered { return false, false, false; }
    var current := server.remote.services;
    var target := Target(plan, current);
    assert target == ServicesLeft(plan, current);
    if target != current {
      changed := true;
      if !dryRun {
        reached := server.Call(server.remote.(services := target));
      }
    }
  }

  // ------------------------------------------------- apply_plan

  /** A pass that ran to its end. servicesRead and servicesReached: of the blocked-services calls,
      the reading one answered, and all did. */
  datatype Outcome =
    | Failed
    | Completed(added: set<Rewrite>, deleted: set<Rewrite>, upstreamsChanged: bool, filteringChanged: bool,
                servicesRead: bool, servicesReached: bool, inSync: bool)

  /** What filtering finds out of sync, when what is blocked may not have been read. */
  ghost predicate FilteringFound(plan: Plan, r: Remote, servicesRead: bool) {
    plan.manageFiltering && (!FiltersInSync(plan, r) || (servicesRead && !ServicesInSync(plan, r)))
  }

  /** What a completed pass reports as in_sync. */
  ghost predicate ReportsInSync(key: KeyOf, plan: Plan, r: Remote, servicesRead: bool) {
    RewritesInSync(key, plan, r) && UpstreamsInSync(plan, r) && !FilteringFound(plan, r, servicesRead)
  }

  /** The report is wrong exactly when everything but the blocked services is in sync, and the one
      call that would have shown them failed: its error is swallowed. */
  lemma ReportWrongIff(key: KeyOf, plan: Plan, r: Remote, servicesRead: bool)
    ensures ReportsInSync(key, plan, r, servicesRead) && !InSync(key, plan, r) <==>
              && !servicesRead && plan.manageFiltering && !ServicesInSync(plan, r)
              && RewritesInSync(key, plan, r) && UpstreamsInSync(plan, r) && FiltersInSync(plan, r)
    ensures InSync(key, plan, r) ==> ReportsInSync(key, plan, r, servicesRead)
  {
  }

  /** A plan that only blocks a service, on a server that blocks none. */
  lemma SwallowedErrorReportsInSync(key: KeyOf)
    ensures var plan := Plan(false, false, true, {}, map[], [], [], {"youtube"});
            var r := Remote({}, map[], false, map[], false, {});
            ReportsInSync(key, plan, r, false) && !InSync(key, plan, r)
  {
    var plan := Plan(false, false, true, {}, map[], [], [], {"youtube"});
    var r := Remote({}, map[], false, map[], false, {});
    assert "youtube" in Target(plan, r.services);
    assert ToAdd(key, plan, r.rewrites) == {} && ToDelete(key, plan, r.rewrites) == {};
    ReportWrongIff(key, plan, r, false);
  }

  ghost predicate Settles(plan: Plan) { plan.manageFiltering ==> RowsConsistent(plan) }

  lemma UnsettledNeverInSync(key: KeyOf, plan: Plan, r: Remote)
    requires !Settles(plan)
    ensures !InSync(key, plan, r)
  {
    if !Consistent(plan.blocklists) {
      InconsistentNeverInSync(plan.blocklists, false, plan.prune, r.filters);
    } else {
      InconsistentNeverInSync(plan.allowlists, true, plan.prune, r.filters);
    }
  }

  /** A list the pass has no reason to push stays as it is. */
  ghost predicate OthersKept(plan: Plan, was: map<string, seq<string>>, now: map<string, seq<string>>) {
    forall name :: name in was && !Pushed(plan, was, name) ==> name in now && now[name] == was[name]
  }

  /** The one DNS write of a pass happened or not; in a complete pass it did, if there was one. */
  predicate DnsFrom(plan: Plan, was: Dns, now: Dns, complete: bool) {
    var payload := Payload(plan, was.lists);
    || (plan.manageUpstreams && now == Dns(was.lists + payload, was.privatePtr || LOCAL_PTR in payload))
    || ((complete ==> !plan.manageUpstreams) && now == was)
  }

  datatype Dns = Dns(lists: map<string, seq<string>>, privatePtr: bool)

  function DnsOf(r: Remote): Dns { Dns(r.dns, r.privatePtr) }

  /** The managed DNS lists, when managed. */
  method ApplyUpstreams(plan: Plan, dryRun: bool, server: Server) returns (ok: bool, changed: bool)
    modifies server
    ensures ok ==> (changed <==> !UpstreamsInSync(plan, old(server.remote)))
    ensures dryRun ==> server.remote == old(server.remote)
    ensures server.remote == old(server.remote).(dns := server.remote.dns, privatePtr := server.remote.privatePtr)
    ensures OthersKept(plan, old(server.remote.dns), server.remote.dns)
    ensures Unasked(plan, old(server.remote.dns), server.remote.dns)
    ensures !dryRun ==> DnsFrom(plan, old(DnsOf(server.remote)), DnsOf(server.remote), ok)
    ensures ok && !dryRun ==> UpstreamsInSync(plan, server.remote)
    ensures UpstreamsInSync(plan, old(server.remote)) ==> server.remote == old(server.remote)
  {
    ok, changed := true, false;
    if plan.manageUpstreams {
      ok := *;
      if !ok { return; }
      ListsMatchIff(plan, server.remote.dns);
      PushedIsFixpoint(plan, server.remote);
      ok, changed := ReconcileUpstreams(plan, dryRun, server);
    }
  }

  /** Lists, engine and services, when managed. */
  method ApplyFiltering(plan: Plan, dryRun: bool, server: Server)
    returns (ok: bool, read: bool, reached: bool, changed: bool)
    modifies server
    ensures reached ==> read
    ensures ok ==> (changed <==> FilteringFound(plan, old(server.remote), read))
    ensures dryRun ==> server.remote == old(server.remote)
    ensures server.remote == old(server.remote).(filters := server.remote.filters,
                                                 filteringOn := server.remote.filteringOn,
                                                 services := server.remote.services)
    ensures !plan.prune ==> NothingRemoved(old(server.remote), server.remote)
    ensures ListsKept(plan, old(server.remote), server.remote)
    ensures ok && reached && !dryRun && Settles(plan) ==> FilteringInSync(plan, server.remote)
    ensures FilteringInSync(plan, old(server.remote)) ==> server.remote == old(server.remote)
  {
    ok, read, reached, changed := true, true, true, false;
    if plan.manageFiltering {
      ok := *;
      if !ok { return; }
      var servicesChanged;
      ok, changed := ReconcileLists(plan, dryRun, server);
      if !ok { return; }
      read, reached, servicesChanged := ReconcileServices(plan, dryRun, server);
      changed := changed || servicesChanged;
    }
  }

  /** Everything but the rewrites. */
  method ApplySettings(plan: Plan, dryRun: bool, server: Server)
    returns (ok: bool, read: bool, reached: bool, upstreamsChanged: bool, filteringChanged: bool)
    modifies server
    ensures reached ==> read
    ensures ok ==> (upstreamsChanged <==> !UpstreamsInSync(plan, old(server.remote)))
                   && (filteringChanged <==> FilteringFound(plan, old(server.remote), read))
    ensures dryRun ==> server.remote == old(server.remote)
    ensures server.remote.rewrites == old(server.remote.rewrites)
    ensures OthersKept(plan, old(server.remote.dns), server.remote.dns)
    ensures !dryRun ==> DnsFrom(plan, old(DnsOf(server.remote)), DnsOf(server.remote), ok)
    ensures !plan.prune ==> NothingRemoved(old(server.remote), server.remote)
    ensures ListsKept(plan, old(server.remote), server.remote)
    ensures ok && !dryRun ==> UpstreamsInSync(plan, server.remote)
    ensures ok && reached && !dryRun && Settles(plan) ==> FilteringInSync(plan, server.remote)
    ensures UpstreamsInSync(plan, old(server.remote)) && FilteringInSync(plan, old(server.remote)) ==>
              server.remote == old(server.remote)
  {
    read, reached, filteringChanged := true, true, false;
    ok, upstreamsChanged := ApplyUpstreams(plan, dryRun, server);
    if !ok { return; }
    ok, read, reached, filteringChanged := ApplyFiltering(plan, dryRun, server);
  }

  /** What one pass makes of the server. Wherever it stops the rewrites are no worse than they were,
      nothing is removed without prune, no list the plan asks for is dropped, and a server in sync is
      left alone. A complete one leaves exactly the desired rewrites, or adds them when not pruning,
      and the next has nothing to do exactly when no two rows disagree about one URL. */
  ghost predicate PassFrom(key: KeyOf, plan: Plan, was: Remote, now: Remote, complete: bool) {
    && NoWorse(key, plan, was.rewrites, now.rewrites)
    && (!plan.prune ==> NothingRemoved(was, now))
    && ListsKept(plan, was, now)
    && (InSync(key, plan, was) ==> now == was)
    && (complete ==> Reconciled(key, plan, was.rewrites, now.rewrites) && (InSync(key, plan, now) <==> Settles(plan)))
  }

  lemma NoWorseStays(key: KeyOf, plan: Plan, was: set<Rewrite>, now: set<Rewrite>)
    requires NoWorse(key, plan, was, now) && ToAdd(key, plan, was) == {} && ToDelete(key, plan, was) == {}
    ensures ToAdd(key, plan, now) == {} && ToDelete(key, plan, now) == {}
  {
    var desired := Keys(key, plan.rewrites);
    forall r | r in plan.rewrites ensures key(r) in Keys(key, now) {
      assert r !in ToAdd(key, plan, was);
      assert key(r) in desired * Keys(key, was);
    }
    if plan.prune {
      forall k | k in Keys(key, was) ensures k in desired {
        var r :| r in was && key(r) == k;
        assert r !in ToDelete(key, plan, was);
      }
      assert Keys(key, was) - desired == {};
      forall r | r in now ensures key(r) in desired {
        assert key(r) in Keys(key, now);
        assert key(r) !in Keys(key, now) - desired;
      }
    }
  }

  /** Over any number of passes, each cut short wherever it may be: what is missing and what is
      extra only shrinks, no desired key is ever lost, nothing is removed without prune; and from
      the first complete pass on, the rewrites are in sync, whatever happens to later passes. */
  lemma {:induction false} PassesOnlyImprove(key: KeyOf, plan: Plan, states: seq<Remote>, complete: seq<bool>)
    requires |states| == |complete| + 1
    requires forall i :: 0 <= i < |complete| ==> PassFrom(key, plan, states[i], states[i + 1], complete[i])
    ensures NoWorse(key, plan, states[0].rewrites, states[|complete|].rewrites)
    ensures !plan.prune ==> NothingRemoved(states[0], states[|complete|])
    ensures ListsKept(plan, states[0], states[|complete|])
    ensures true in complete ==> RewritesInSync(key, plan, states[|complete|])
    decreases |complete|
  {
    var n := |complete| - 1;
    if n >= 0 {
      PassesOnlyImprove(key, plan, states[..n + 1], complete[..n]);
      RewritesInSyncIff(key, plan, states[n]);
      RewritesInSyncIff(key, plan, states[n + 1]);
      assert PassFrom(key, plan, states[n], states[n + 1], complete[n]);
      if complete[n] {
        ReconciledIsFixpoint(key, plan, states[n].rewrites, states[n + 1].rewrites);
      } else if true in complete {
        assert true in complete[..n] by { assert complete == complete[..n] + [complete[n]]; }
        NoWorseStays(key, plan, states[n].rewrites, states[n + 1].rewrites);
      }
    }
  }

  /** The rewrites and the rest, put together. */
  lemma PassParts(key: KeyOf, plan: Plan, was: Remote, mid: Remote, now: Remote, complete: bool)
    requires mid == was.(rewrites := mid.rewrites) && now.rewrites == mid.rewrites
    requires NoWorse(key, plan, was.rewrites, mid.rewrites)
    requires !plan.prune ==> NothingRemoved(mid, now)
    requires ListsKept(plan, mid, now)
    requires RewritesInSync(key, plan, was) ==> mid == was
    requires UpstreamsInSync(plan, mid) && FilteringInSync(plan, mid) ==> now == mid
    requires complete ==> Reconciled(key, plan, was.rewrites, mid.rewrites) && UpstreamsInSync(plan, now)
                          && (Settles(plan) ==> FilteringInSync(plan, now))
    ensures PassFrom(key, plan, was, now, complete)
  {
    if complete {
      ReconciledIsFixpoint(key, plan, was.rewrites, now.rewrites);
      RewritesInSyncIff(key, plan, now);
    }
    if !Settles(plan) { UnsettledNeverInSync(key, plan, now); }
  }

  /** The private resolvers are on, or will be with the next push of their list. */
  predicate PrivateOnOrPushed(plan: Plan, r: Remote) { r.privatePtr || Pushed(plan, r.dns, LOCAL_PTR) }

  lemma DnsFromPrivate(plan: Plan, was: Remote, now: Remote, complete: bool)
    requires plan.manageUpstreams && DnsFrom(plan, DnsOf(was), DnsOf(now), complete)
    ensures PrivateOnOrPushed(plan, now) <==> PrivateOnOrPushed(plan, was)
    ensures complete || was.privatePtr ==> (now.privatePtr <==> PrivateOnOrPushed(plan, now))
  {
    PushedIsFixpoint(plan, was);
    if Pushed(plan, was.dns, LOCAL_PTR) {
      assert LOCAL_PTR in Payload(plan, was.dns);
    } else {
      assert WithPayload(was, Payload(plan, was.dns)).privatePtr == was.privatePtr;
      assert ListOf(WithPayload(was, Payload(plan, was.dns)).dns, LOCAL_PTR) == ListOf(was.dns, LOCAL_PTR);
    }
  }

  /** The pass means to make the private resolvers take effect. With one pass complete among any
      number cut short, they are on exactly when they were before, or their list differed then: a
      server that had the list and not the switch never gets it. */
  lemma {:induction false} PrivateTakesEffectIff(plan: Plan, states: seq<Remote>, complete: seq<bool>)
    requires plan.manageUpstreams && |states| == |complete| + 1
    requires forall i :: 0 <= i < |complete| ==> DnsFrom(plan, DnsOf(states[i]), DnsOf(states[i + 1]), complete[i])
    ensures PrivateOnOrPushed(plan, states[|complete|]) <==> PrivateOnOrPushed(plan, states[0])
    ensures true in complete ==> (states[|complete|].privatePtr <==> PrivateOnOrPushed(plan, states[0]))
    decreases |complete|
  {
    var n := |complete| - 1;
    if n >= 0 {
      PrivateTakesEffectIff(plan, states[..n + 1], complete[..n]);
      assert DnsFrom(plan, DnsOf(states[n]), DnsOf(states[n + 1]), complete[n]);
      DnsFromPrivate(plan, states[n], states[n + 1], complete[n]);
      if !complete[n] && true in complete {
        assert true in complete[..n] by { assert complete == complete[..n] + [complete[n]]; }
      }
    }
  }

  /** And no report shows it: the switch is never read. */
  lemma PrivateSwitchUnread(key: KeyOf, plan: Plan, r: Remote, on: bool, servicesRead: bool)
    ensures ReportsInSync(key, plan, r, servicesRead) <==> ReportsInSync(key, plan, r.(privatePtr := on), servicesRead)
  {
  }

  /** A server with the right private resolvers, switched off, is reported in sync. */
  lemma SwitchedOffReportsInSync(key: KeyOf, resolver: string)
    ensures var plan := Plan(false, true, false, {}, map[LOCAL_PTR := [resolver]], [], [], {});
            var r := Remote({}, map[LOCAL_PTR := [resolver]], false, map[], false, {});
            InSync(key, plan, r) && !PrivateOnOrPushed(plan, r)
  {
    var plan := Plan(false, true, false, {}, map[LOCAL_PTR := [resolver]], [], [], {});
    var r := Remote({}, map[LOCAL_PTR := [resolver]], false, map[], false, {});
    assert ToAdd(key, plan, r.rewrites) == {} && ToDelete(key, plan, r.rewrites) == {};
    assert !Pushed(plan, r.dns, LOCAL_PTR);
    assert Payload(plan, r.dns) == map[];
  }

  method ApplyPlan(key: KeyOf, plan: Plan, dryRun: bool, server: Server) returns (o: Outcome)
    modifies server
    // A dry run writes nothing.
    ensures dryRun ==> server.remote == old(server.remote)
    // What a pass reports, dry or not, is what there was to do, as far as it could read it.
    ensures o.Completed? ==>
      && o.added == ToAdd(key, plan, old(server.remote.rewrites))
      && o.deleted == ToDelete(key, plan, old(server.remote.rewrites))
      && (o.upstreamsChanged <==> !UpstreamsInSync(plan, old(server.remote)))
      && (o.filteringChanged <==> FilteringFound(plan, old(server.remote), o.servicesRead))
      && (o.inSync <==> ReportsInSync(key, plan, old(server.remote), o.servicesRead))
      && (o.servicesRead ==> (o.inSync <==> InSync(key, plan, old(server.remote))))
      && (o.servicesReached ==> o.servicesRead)
    // Wherever the pass stops; and what it leaves when it stops nowhere.
    ensures PassFrom(key, plan, old(server.remote), server.remote, !dryRun && o.Completed? && o.servicesReached)
    // The rewrites are done even if the blocked services were not.
    ensures o.Completed? && !dryRun ==> Reconciled(key, plan, old(server.remote.rewrites), server.remote.rewrites)
    // DNS lists with nothing to push stay.
    ensures OthersKept(plan, old(server.remote.dns), server.remote.dns)
    ensures !dryRun ==> DnsFrom(plan, old(DnsOf(server.remote)), DnsOf(server.remote), o.Completed?)
  {
    // Building the client, status and list_rewrites can fail before anything is written.
    var ok: bool := *;
    ghost var was := server.remote;
    if !ok {
      AddsNoWorse(key, plan, was.rewrites, was.rewrites);
      return Failed;
    }
    var added, deleted, upstreamsChanged, read, reached, filteringChanged;
    ok, added, deleted := ReconcileRewrites(key, plan, dryRun, server);
    ghost var mid := server.remote;
    if !ok {
      PassParts(key, plan, was, mid, mid, false);
      return Failed;
    }
    ok, read, reached, upstreamsChanged, filteringChanged := ApplySettings(plan, dryRun, server);
    PassParts(key, plan, was, mid, server.remote, !dryRun && ok && reached);
    if !ok { return Failed; }
    RewritesInSyncIff(key, plan, was);
    var inSync := added == {} && deleted == {} && !upstreamsChanged && !filteringChanged;
    o := Completed(added, deleted, upstreamsChanged, filteringChanged, read, reached, inSync);
  }

  /** Two passes in a row. After a complete first one the second finds nothing to do, changes
      nothing on the server, even if it fails on the way, and reports in sync, exactly when the plan
      settles. */
  method TwoPasses(key: KeyOf, plan: Plan, server: Server)
    returns (first: Outcome, second: Outcome, ghost between: Remote)
    modifies server
    ensures first.Completed? && first.servicesReached && Settles(plan) ==> server.remote == between
    ensures first.Completed? && first.servicesReached && second.Completed? && second.servicesRead ==>
              (second.inSync <==> Settles(plan))
    ensures first.Completed? && first.servicesReached && second.Completed? && second.servicesRead && Settles(plan) ==>
              second.added == {} && second.deleted == {} && !second.upstreamsChanged && !second.filteringChanged
  {
    first := ApplyPlan(key, plan, false, server);
    between := server.remote;
    second := ApplyPlan(key, plan, false, server);
  }
}
