/** Splitting a batch over Engines and putting their replies together
    (internal/gateway/batch.go and server.go), for any replies at all. */
module Gateway {
  import opened Options
  import opened Rendezvous

  /** An endpoint of a Store. */
  datatype Route = Route(store: nat, endpoint: nat)

  /** What a caller gets at one position of the response. */
  datatype Result = Answer(index: nat, payload: nat) | Failed(index: nat, retrySafe: bool, outcomeUnknown: bool)

  /** One result in an Engine's reply: an index it claims, whether it is well
      formed, and its content. */
  datatype Reported = Reported(index: nat, valid: bool, payload: nat)

  datatype Budget = Budget(snapshots: nat, inputs: nat, outputs: nat, returned: nat)

  /** An Engine's reply, or none. */
  datatype Reply =
    | Lost
    | Reply(identified: bool, used: Budget, code: nat, notStarted: bool, results: seq<Reported>)

  datatype Group = Group(route: Route, indices: seq<nat>)

  // ---------------------------------------------------------------------
  // Routing
  // ---------------------------------------------------------------------

  /** What resolving a Store at some position of the batch gives: anything, and
      possibly something else at another position. */
  type Stores = (nat, nat) -> Option<seq<nat>>

  /** The endpoints of a Store, or none if it is unknown or has none. */
  function Destinations(stores: Stores, n: nat, store: nat): (targets: Option<seq<nat>>)
    ensures targets.Some? ==> targets.value != []
  {
    if stores(n, store) == Some([]) then None else stores(n, store)
  }

  /** Position `n` is the first with an address in the Store. */
  ghost predicate First(addresses: seq<Option<nat>>, storeOf: nat -> nat, store: nat, n: nat) {
    && n < |addresses| && addresses[n].Some? && storeOf(addresses[n].value) == store
    && (forall i :: 0 <= i < n && addresses[i].Some? ==> storeOf(addresses[i].value) != store)
  }

  /** Every Store was resolved once, at its first address. */
  ghost predicate ResolvedOnce(addresses: seq<Option<nat>>, storeOf: nat -> nat, stores: Stores,
                               resolved: map<nat, Option<seq<nat>>>) {
    forall store :: store in resolved ==>
      exists n: nat :: First(addresses, storeOf, store, n) && resolved[store] == Destinations(stores, n, store)
  }

  function ScoreOf(score: (nat, nat) -> nat, uri: nat): nat -> nat { (e: nat) => score(uri, e) }

  /** The routing part of `records`, from record addresses (`None` does not parse)
      to routes. Stores are resolved once and owners chosen once per request, so
      the same record has the same route at every position: the owner among the
      endpoints that resolution gave. */
  method RouteAll(addresses: seq<Option<nat>>, storeOf: nat -> nat, stores: Stores, score: (nat, nat) -> nat)
    returns (routes: seq<Option<Route>>, resolved: map<nat, Option<seq<nat>>>)
    ensures |routes| == |addresses| && ResolvedOnce(addresses, storeOf, stores, resolved)
    ensures forall i :: 0 <= i < |addresses| ==> Routed(addresses[i], storeOf, score, resolved, routes[i])
    ensures forall i, j :: 0 <= i < |addresses| && 0 <= j < |addresses| && addresses[i] == addresses[j] ==>
        routes[i] == routes[j]
  {
    hide ResolvedOnce, OwnersRight;
    routes, resolved := [], map[];
    var owners: map<nat, Route> := map[];
    NothingResolved(addresses, storeOf, stores, score);
    for n := 0 to |addresses|
      invariant |routes| == n && ResolvedOnce(addresses, storeOf, stores, resolved)
      invariant OwnersRight(storeOf, score, resolved, owners)
      invariant forall i :: 0 <= i < n ==> routes[i] == RouteOf(addresses[i], owners)
      invariant forall i :: 0 <= i < n && addresses[i].Some? ==> Decided(addresses[i].value, storeOf, resolved, owners)
    {
      if addresses[n].None? {
        routes := routes + [None];
        continue;
      }
      var uri := addresses[n].value;
      var store := storeOf(uri);
      if store !in resolved {
        ResolveNext(addresses, n, storeOf, stores, score, resolved, owners);
        resolved := resolved[store := Destinations(stores, n, store)];
      }
      NoEmptyStore(addresses, storeOf, stores, score, resolved, owners, store, uri);
      if resolved[store].None? {
        routes := routes + [None];
        continue;
      }
      if uri !in owners {
        var owner := AffinityRoute(ScoreOf(score, uri), resolved[store].value);
        OwnersNext(storeOf, score, resolved, owners, uri, owner.value);
        owners := owners[uri := Route(store, owner.value)];
      }
      routes := routes + [Some(owners[uri])];
    }
    AllRouted(addresses, storeOf, score, resolved, owners, routes);
  }

  ghost predicate OwnersRight(storeOf: nat -> nat, score: (nat, nat) -> nat, resolved: map<nat, Option<seq<nat>>>,
                              owners: map<nat, Route>) {
    forall uri :: uri in owners ==> Routed(Some(uri), storeOf, score, resolved, Some(owners[uri]))
  }

  lemma NothingResolved(addresses: seq<Option<nat>>, storeOf: nat -> nat, stores: Stores, score: (nat, nat) -> nat)
    ensures ResolvedOnce(addresses, storeOf, stores, map[]) && OwnersRight(storeOf, score, map[], map[])
  {
  }

  /** A Store that is met for the first time. */
  lemma ResolveNext(addresses: seq<Option<nat>>, n: nat, storeOf: nat -> nat, stores: Stores,
                    score: (nat, nat) -> nat, resolved: map<nat, Option<seq<nat>>>, owners: map<nat, Route>)
    requires ResolvedOnce(addresses, storeOf, stores, resolved) && OwnersRight(storeOf, score, resolved, owners)
    requires n < |addresses| && addresses[n].Some? && storeOf(addresses[n].value) !in resolved
    requires forall i :: 0 <= i < n && addresses[i].Some? ==> storeOf(addresses[i].value) in resolved
    ensures var store := storeOf(addresses[n].value);
            var next := resolved[store := Destinations(stores, n, store)];
            ResolvedOnce(addresses, storeOf, stores, next) && OwnersRight(storeOf, score, next, owners)
  {
    var store := storeOf(addresses[n].value);
    var next := resolved[store := Destinations(stores, n, store)];
    assert First(addresses, storeOf, store, n);
    forall uri | uri in owners ensures Routed(Some(uri), storeOf, score, next, Some(owners[uri])) {
      assert Routed(Some(uri), storeOf, score, resolved, Some(owners[uri]));
    }
  }

  /** A resolved Store has endpoints, and a record with an owner has such a Store. */
  lemma NoEmptyStore(addresses: seq<Option<nat>>, storeOf: nat -> nat, stores: Stores, score: (nat, nat) -> nat,
                     resolved: map<nat, Option<seq<nat>>>, owners: map<nat, Route>, store: nat, uri: nat)
    requires ResolvedOnce(addresses, storeOf, stores, resolved) && OwnersRight(storeOf, score, resolved, owners)
    requires store in resolved && storeOf(uri) == store
    ensures resolved[store].Some? ==> resolved[store].value != []
    ensures uri in owners ==> resolved[store].Some?
  {
    if uri in owners {
      assert Routed(Some(uri), storeOf, score, resolved, Some(owners[uri]));
    }
  }

  lemma OwnersNext(storeOf: nat -> nat, score: (nat, nat) -> nat, resolved: map<nat, Option<seq<nat>>>,
                   owners: map<nat, Route>, uri: nat, owner: nat)
    requires OwnersRight(storeOf, score, resolved, owners) && storeOf(uri) in resolved && resolved[storeOf(uri)].Some?
    requires Owner(ScoreOf(score, uri), Set(resolved[storeOf(uri)].value), owner)
    ensures OwnersRight(storeOf, score, resolved, owners[uri := Route(storeOf(uri), owner)])
  {
  }

  lemma AllRouted(addresses: seq<Option<nat>>, storeOf: nat -> nat, score: (nat, nat) -> nat,
                  resolved: map<nat, Option<seq<nat>>>, owners: map<nat, Route>, routes: seq<Option<Route>>)
    requires OwnersRight(storeOf, score, resolved, owners) && |routes| == |addresses|
    requires forall i :: 0 <= i < |routes| ==> routes[i] == RouteOf(addresses[i], owners)
    requires forall i :: 0 <= i < |routes| && addresses[i].Some? ==>
               Decided(addresses[i].value, storeOf, resolved, owners)
    ensures forall i :: 0 <= i < |addresses| ==> Routed(addresses[i], storeOf, score, resolved, routes[i])
  {
    forall i | 0 <= i < |addresses| ensures Routed(addresses[i], storeOf, score, resolved, routes[i]) {
      if addresses[i].Some? && addresses[i].value in owners {
        assert Routed(Some(addresses[i].value), storeOf, score, resolved, Some(owners[addresses[i].value]));
      }
    }
  }

  /** A record's route: the owner among the endpoints of its Store, and none
      exactly when the address does not parse or the Store was not resolved. */
  ghost predicate Routed(address: Option<nat>, storeOf: nat -> nat, score: (nat, nat) -> nat,
                         resolved: map<nat, Option<seq<nat>>>, route: Option<Route>) {
    if address.None? then route.None?
    else
      var store := storeOf(address.value);
      && store in resolved
      && (route.None? <==> resolved[store].None?)
      && (route.Some? ==> route.value.store == store
                          && Owner(ScoreOf(score, address.value), Set(resolved[store].value), route.value.endpoint))
  }

  ghost predicate Decided(uri: nat, storeOf: nat -> nat, resolved: map<nat, Option<seq<nat>>>,
                          owners: map<nat, Route>) {
    storeOf(uri) in resolved && (resolved[storeOf(uri)].Some? ==> uri in owners)
  }

  ghost function RouteOf(address: Option<nat>, owners: map<nat, Route>): Option<Route> {
    if address.Some? && address.value in owners then Some(owners[address.value]) else None
  }

  // ---------------------------------------------------------------------
  // Grouping
  // ---------------------------------------------------------------------

  /** The positions below `n` with a given route, in order. */
  function Positions(routes: seq<Option<Route>>, route: Route, n: nat): seq<nat>
    requires n <= |routes|
  {
    if n == 0 then []
    else Positions(routes, route, n - 1) + (if routes[n - 1] == Some(route) then [n - 1] else [])
  }

  lemma {:induction false} PositionsExact(routes: seq<Option<Route>>, route: Route, n: nat)
    requires n <= |routes|
    ensures var p := Positions(routes, route, n);
            && (forall i, j :: 0 <= i < j < |p| ==> p[i] < p[j])
            && (forall i :: i in p <==> 0 <= i < n && routes[i] == Some(route))
  {
    if n > 0 {
      PositionsExact(routes, route, n - 1);
      var before, p := Positions(routes, route, n - 1), Positions(routes, route, n);
      forall i, j | 0 <= i < j < |p| ensures p[i] < p[j] {
        assert p[i] == before[i] && before[i] in before;
      }
    }
  }

  /** The groups split the routed positions below `n`: one group per route, with
      its positions in request order. `at` says where a route's group is. */
  ghost predicate Grouped(routes: seq<Option<Route>>, groups: seq<Group>, at: map<Route, nat>, n: nat)
    requires n <= |routes|
  {
    && (forall g :: 0 <= g < |groups| ==> groups[g].indices == Positions(routes, groups[g].route, n))
    && (forall g :: 0 <= g < |groups| ==> groups[g].route in at && at[groups[g].route] == g)
    && (forall r :: r in at ==> at[r] < |groups| && groups[at[r]].route == r)
    && (forall i :: 0 <= i < n && routes[i].Some? ==> routes[i].value in at)
  }

  /** A route that has no group yet has no position yet. */
  lemma {:induction false} NewRoute(routes: seq<Option<Route>>, route: Route, n: nat)
    requires n <= |routes| && forall i :: 0 <= i < n ==> routes[i] != Some(route)
    ensures Positions(routes, route, n) == []
  {
    if n > 0 {
      NewRoute(routes, route, n - 1);
    }
  }

  /** An empty group for a route without one. */
  lemma GroupOpened(routes: seq<Option<Route>>, groups: seq<Group>, at: map<Route, nat>, n: nat, route: Route)
    requires n <= |routes| && Grouped(routes, groups, at, n) && route !in at
    ensures Grouped(routes, groups + [Group(route, [])], at[route := |groups|], n)
  {
    NewRoute(routes, route, n);
  }

  /** One more position joins the group of its route. */
  lemma GroupJoined(routes: seq<Option<Route>>, groups: seq<Group>, at: map<Route, nat>, n: nat)
    requires n < |routes| && Grouped(routes, groups, at, n) && routes[n].Some? && routes[n].value in at
    ensures var p := at[routes[n].value];
            p < |groups| && Grouped(routes, groups[p := Group(routes[n].value, groups[p].indices + [n])], at, n + 1)
  {
    var p := at[routes[n].value];
    var now := groups[p := Group(routes[n].value, groups[p].indices + [n])];
    forall g | 0 <= g < |now| ensures now[g].indices == Positions(routes, now[g].route, n + 1) {
      assert g != p ==> groups[g].route != routes[n].value;
    }
  }

  /** The grouping loop; `None` is a position that failed before routing. */
  method GroupByRoute(routes: seq<Option<Route>>) returns (groups: seq<Group>, at: map<Route, nat>)
    ensures Grouped(routes, groups, at, |routes|)
  {
    groups, at := [], map[];
    for n := 0 to |routes|
      invariant Grouped(routes, groups, at, n)
    {
      if routes[n].Some? {
        hide Grouped;
        var route := routes[n].value;
        if route !in at {
          GroupOpened(routes, groups, at, n, route);
          at := at[route := |groups|];
          groups := groups + [Group(route, [])];
        }
        GroupJoined(routes, groups, at, n);
        var p := at[route];
        groups := groups[p := Group(route, groups[p].indices + [n])];
      }
    }
  }

  // ---------------------------------------------------------------------
  // Replies
  // ---------------------------------------------------------------------

  /** `failRecords`. */
  method FailRecords(dest: array<Option<Result>>, indices: seq<nat>, read: bool, notStarted: bool)
    requires forall k :: 0 <= k < |indices| ==> indices[k] < dest.Length
    modifies dest
    ensures forall i :: 0 <= i < dest.Length ==>
      dest[i] == if i in indices then Some(Failure(i, read, notStarted)) else old(dest[i])
  {
    for k := 0 to |indices|
      invariant forall i :: 0 <= i < dest.Length ==>
        dest[i] == if i in indices[..k] then Some(Failure(i, read, notStarted)) else old(dest[i])
    {
      dest[indices[k]] := Some(Failed(indices[k], notStarted || read, !notStarted && !read));
    }
    assert indices[..|indices|] == indices;
  }

  function Trues(seen: seq<bool>): nat {
    if seen == [] then 0 else Trues(seen[..|seen| - 1]) + (if seen[|seen| - 1] then 1 else 0)
  }

  lemma {:induction false} TruesBound(seen: seq<bool>)
    ensures Trues(seen) <= |seen| && (Trues(seen) == |seen| ==> forall k :: 0 <= k < |seen| ==> seen[k])
  {
    if seen != [] {
      TruesBound(seen[..|seen| - 1]);
    }
  }

  lemma {:induction false} TruesSet(seen: seq<bool>, k: nat)
    requires k < |seen| && !seen[k]
    ensures Trues(seen[k := true]) == Trues(seen) + 1
  {
    var n := |seen| - 1;
    if k < n {
      TruesSet(seen[..n], k);
      assert seen[k := true][..n] == seen[..n][k := true];
    } else {
      assert seen[k := true][..n] == seen[..n];
    }
  }

  /** A reply that answers every position of its group exactly once. */
  ghost predicate Complete(source: seq<Reported>, n: nat) {
    && |source| == n
    && (forall a :: 0 <= a < |source| ==> source[a].valid && source[a].index < n)
    && (forall a, b :: 0 <= a < b < |source| ==> source[a].index != source[b].index)
  }

  ghost predicate Answered(source: seq<Reported>, a: nat, k: nat)
    requires a <= |source|
  {
    exists b :: 0 <= b < a && source[b].index == k
  }

  /** The first `a` results are valid and answer the positions marked in `seen`. */
  ghost predicate Scanned(source: seq<Reported>, n: nat, seen: seq<bool>, a: nat) {
    && |seen| == n == |source| && a <= |source| && Trues(seen) == a
    && (forall b :: 0 <= b < a ==> source[b].valid && source[b].index < n)
    && (forall k: nat :: k < n ==> (seen[k] <==> Answered(source, a, k)))
    && (forall b, c :: 0 <= b < c < a ==> source[b].index != source[c].index)
  }

  lemma ScannedNext(source: seq<Reported>, n: nat, seen: seq<bool>, a: nat)
    requires Scanned(source, n, seen, a) && a < n && source[a].valid && source[a].index < n && !seen[source[a].index]
    ensures Scanned(source, n, seen[source[a].index := true], a + 1)
  {
    var index := source[a].index;
    var now := seen[index := true];
    TruesSet(seen, index);
    forall k: nat | k < n ensures now[k] <==> Answered(source, a + 1, k) {
      if Answered(source, a, k) {
        var b :| 0 <= b < a && source[b].index == k;
        assert b < a + 1;
      }
      if k == index {
        assert source[a].index == k;
      }
    }
    forall b, c | 0 <= b < c < a + 1 ensures source[b].index != source[c].index {
      if c == a {
        assert Answered(source, a, source[b].index);
      }
    }
  }

  lemma ScannedBad(source: seq<Reported>, n: nat, seen: seq<bool>, a: nat)
    requires Scanned(source, n, seen, a) && a < n
    requires source[a].index >= n || seen[source[a].index] || !source[a].valid
    ensures !Complete(source, n)
  {
    if source[a].index < n && source[a].valid {
      var b :| 0 <= b < a && source[b].index == source[a].index;
    }
  }

  lemma ScannedAll(source: seq<Reported>, n: nat, seen: seq<bool>)
    requires Scanned(source, n, seen, n)
    ensures Complete(source, n) && forall k: nat :: k < n ==> Answered(source, |source|, k)
  {
    TruesBound(seen);
  }

  /** The checks at the start of `mergeResults`: they pass exactly for complete
      replies, and then every position is answered. */
  method CheckResults(source: seq<Reported>, n: nat) returns (ok: bool)
    ensures ok <==> Complete(source, n)
    ensures ok ==> forall k: nat :: k < n ==> Answered(source, |source|, k)
  {
    if |source| != n {
      return false;
    }
    var seen := seq(n, _ => false);
    AllFalse(n);
    for a := 0 to n
      invariant Scanned(source, n, seen, a)
    {
      hide Complete, Answered, Trues;
      var index := source[a].index;
      if index >= n || seen[index] || !source[a].valid {
        ScannedBad(source, n, seen, a);
        return false;
      }
      ScannedNext(source, n, seen, a);
      seen := seen[index := true];
    }
    ScannedAll(source, n, seen);
    return true;
  }

  lemma {:induction false} AllFalse(n: nat)
    ensures Trues(seq(n, _ => false)) == 0
  {
    if n > 0 {
      AllFalse(n - 1);
      assert seq(n, _ => false)[..n - 1] == seq(n - 1, _ => false);
    }
  }

  ghost predicate Distinct(indices: seq<nat>, length: nat) {
    && (forall k :: 0 <= k < |indices| ==> indices[k] < length)
    && (forall j, k :: 0 <= j < k < |indices| ==> indices[j] != indices[k])
  }

  /** Position `indices[k]` holds the reply's result for `k`, renumbered. */
  ghost predicate Placed(dest: seq<Option<Result>>, source: seq<Reported>, indices: seq<nat>, a: nat)
    requires Distinct(indices, |dest|) && a < |source| && source[a].index < |indices|
  {
    dest[indices[source[a].index]] == Some(Answer(indices[source[a].index], source[a].payload))
  }

  /** `mergeResults`: takes over a complete reply and refuses any other, leaving
      the response as it was. */
  method MergeResults(dest: array<Option<Result>>, source: seq<Reported>, indices: seq<nat>) returns (ok: bool)
    requires Distinct(indices, dest.Length)
    modifies dest
    ensures ok <==> Complete(source, |indices|)
    ensures ok ==> forall a :: 0 <= a < |source| ==> Placed(dest[..], source, indices, a)
    ensures ok ==> forall i :: i in indices ==> dest[i].Some? && dest[i].value.index == i
    ensures forall i :: 0 <= i < dest.Length && i !in indices ==> dest[i] == old(dest[i])
    ensures !ok ==> dest[..] == old(dest[..])
  {
    ok := CheckResults(source, |indices|);
    if !ok {
      return;
    }
    for a := 0 to |source|
      invariant forall b :: 0 <= b < a ==> Placed(dest[..], source, indices, b)
      invariant forall i :: 0 <= i < dest.Length && i !in indices ==> dest[i] == old(dest[i])
    {
      var index := indices[source[a].index];
      ghost var before := dest[..];
      dest[index] := Some(Answer(index, source[a].payload));
      assert dest[..] == before[index := dest[index]];
      forall b | 0 <= b < a ensures Placed(dest[..], source, indices, b) {
        assert Placed(before, source, indices, b) && source[b].index != source[a].index;
        assert indices[source[b].index] != index;
      }
    }
    forall i | i in indices ensures dest[i].Some? && dest[i].value.index == i {
      var k :| 0 <= k < |indices| && indices[k] == i;
      assert Answered(source, |source|, k);
      var a :| 0 <= a < |source| && source[a].index == k;
      assert Placed(dest[..], source, indices, a);
    }
  }

  // ---------------------------------------------------------------------
  // Budgets
  // ---------------------------------------------------------------------

  predicate Within(used: Budget, grant: Budget) {
    used.snapshots <= grant.snapshots && used.inputs <= grant.inputs && used.outputs <= grant.outputs
        && used.returned <= grant.returned
  }

  function Minus(a: Budget, b: Budget): Budget
    requires Within(b, a)
  {
    Budget(a.snapshots - b.snapshots, a.inputs - b.inputs, a.outputs - b.outputs, a.returned - b.returned)
  }

  function Plus(a: Budget, b: Budget): Budget {
    Budget(a.snapshots + b.snapshots, a.inputs + b.inputs, a.outputs + b.outputs, a.returned + b.returned)
  }

  /** The reply checks of `forward`: a reply that fails them counts as lost. */
  function Checked(reply: Reply, grant: Budget): Reply {
    if reply.Reply? && reply.identified && Within(reply.used, grant) then reply else Lost
  }

  /** What a reply costs: its settlement, or the whole grant when there is none. */
  function Cost(reply: Reply, grant: Budget): (used: Budget)
    ensures Within(used, grant)
  {
    var r := Checked(reply, grant);
    if r.Lost? then grant else r.used
  }

  /** What the positions of a group hold: the results of a checked, complete
      reply without an error, or failures that say whether a retry is safe. */
  ghost predicate Delivered(dest: seq<Option<Result>>, indices: seq<nat>, read: bool, grant: Budget, reply: Reply)
    requires Distinct(indices, |dest|)
  {
    var r := Checked(reply, grant);
    if r.Reply? && r.code == 0 && Complete(r.results, |indices|)
    then forall a :: 0 <= a < |r.results| ==> Placed(dest, r.results, indices, a)
    else forall i :: i in indices ==> dest[i] == Some(Failure(i, read, r.Reply? && r.notStarted))
  }

  function Failure(index: nat, read: bool, notStarted: bool): Result {
    Failed(index, notStarted || read, !notStarted && !read)
  }

  /** What the positions of a group hold does not depend on other positions. */
  lemma DeliveredKept(before: seq<Option<Result>>, after: seq<Option<Result>>, indices: seq<nat>, read: bool,
                      grant: Budget, reply: Reply)
    requires |before| == |after| && Distinct(indices, |before|) && Delivered(before, indices, read, grant, reply)
    requires forall i :: i in indices ==> after[i] == before[i]
    ensures Delivered(after, indices, read, grant, reply)
  {
    var r := Checked(reply, grant);
    if r.Reply? && r.code == 0 && Complete(r.results, |indices|) {
      forall a | 0 <= a < |r.results| ensures Placed(after, r.results, indices, a) {
        assert Placed(before, r.results, indices, a);
        assert indices[r.results[a].index] in indices;
      }
    }
  }

  /** One group: its positions get the Engine's results, or all a failure. */
  method RunGroup(dest: array<Option<Result>>, indices: seq<nat>, read: bool, grant: Budget, reply: Reply)
    returns (used: Budget)
    requires Distinct(indices, dest.Length)
    modifies dest
    ensures used == Cost(reply, grant)
    ensures forall i :: i in indices ==> dest[i].Some? && dest[i].value.index == i
    ensures forall i :: 0 <= i < dest.Length && i !in indices ==> dest[i] == old(dest[i])
    ensures Delivered(dest[..], indices, read, grant, reply)
  {
    var r := Checked(reply, grant);
    used := grant;
    var notStarted, ok := false, false;
    if r.Reply? {
      used, notStarted, ok := r.used, r.notStarted, r.code == 0;
    }
    if ok {
      ok := MergeResults(dest, r.results, indices);
    }
    if !ok {
      FailRecords(dest, indices, read, notStarted);
    }
  }

  /** Any replies at all, or none: one for each group, which may depend on what
      the group was granted. */
  type Engines = (nat, Budget) -> Reply

  /** The budget left for group `g`: the limit less what the groups before cost. */
  ghost function Granted(limit: Budget, engines: Engines, g: nat): Budget {
    if g == 0 then limit
    else
      var b := Granted(limit, engines, g - 1);
      Minus(b, Cost(engines(g - 1, b), b))
  }

  ghost function Spent(limit: Budget, engines: Engines, g: nat): Budget {
    if g == 0 then Budget(0, 0, 0, 0)
    else
      var b := Granted(limit, engines, g - 1);
      Plus(Spent(limit, engines, g - 1), Cost(engines(g - 1, b), b))
  }

  /** The budgets never underflow, and what was spent and what remains add up to
      the limit. */
  lemma {:induction false} BudgetsConserved(limit: Budget, engines: Engines, g: nat)
    ensures Plus(Spent(limit, engines, g), Granted(limit, engines, g)) == limit
  {
    if g > 0 {
      BudgetsConserved(limit, engines, g - 1);
    }
  }

  /** What each group is granted: one after another the budget that is left, and
      side by side the whole budget each. */
  type Grants = nat -> Budget

  ghost function Shared(limit: Budget, engines: Engines): Grants { (g: nat) => Granted(limit, engines, g) }

  ghost function Whole(limit: Budget): Grants { (g: nat) => limit }

  ghost predicate GroupDelivered(dest: seq<Option<Result>>, indices: seq<nat>, read: bool, grants: Grants,
                                 engines: Engines, g: nat) {
    Distinct(indices, |dest|) && Delivered(dest, indices, read, grants(g), engines(g, grants(g)))
  }

  /** The response after the groups `over`, run in any order with any grants. */
  ghost predicate Done(routes: seq<Option<Route>>, groups: seq<Group>, at: map<Route, nat>, dest: seq<Option<Result>>,
                       read: bool, grants: Grants, engines: Engines, over: set<nat>) {
    && |dest| == |routes| && Grouped(routes, groups, at, |routes|)
    && (forall g :: g in over ==> g < |groups|)
    && (forall k :: 0 <= k < |routes| && Served(routes, at, over, k) ==> dest[k].Some? && dest[k].value.index == k)
    && (forall k :: 0 <= k < |routes| && routes[k].None? ==> dest[k] == Some(Failure(k, read, true)))
    && (forall g :: g in over ==> GroupDelivered(dest, groups[g].indices, read, grants, engines, g))
  }

  /** A position that failed at once, or whose group is over. */
  ghost predicate Served(routes: seq<Option<Route>>, at: map<Route, nat>, over: set<nat>, k: nat)
    requires k < |routes|
  {
    routes[k].None? || (routes[k].value in at && at[routes[k].value] in over)
  }

  lemma Started(routes: seq<Option<Route>>, groups: seq<Group>, at: map<Route, nat>, dest: seq<Option<Result>>,
                read: bool, grants: Grants, engines: Engines)
    requires |dest| == |routes| && Grouped(routes, groups, at, |routes|)
    requires forall k :: 0 <= k < |routes| && routes[k].None? ==> dest[k] == Some(Failure(k, read, true))
    ensures Done(routes, groups, at, dest, read, grants, engines, {})
  {
  }

  lemma GrantedNext(limit: Budget, engines: Engines, g: nat)
    ensures var b := Granted(limit, engines, g);
            Within(Cost(engines(g, b), b), b) && Granted(limit, engines, g + 1) == Minus(b, Cost(engines(g, b), b))
  {
  }

  /** One more group is over, whichever it is: it touches no other group. */
  lemma DoneNext(routes: seq<Option<Route>>, groups: seq<Group>, at: map<Route, nat>, before: seq<Option<Result>>,
                 after: seq<Option<Result>>, read: bool, grants: Grants, engines: Engines, over: set<nat>, g: nat)
    requires g < |groups| && g !in over && Done(routes, groups, at, before, read, grants, engines, over)
        && |after| == |before|
    requires Exactly(routes, at, groups[g].indices, g)
    requires forall i :: i in groups[g].indices ==> i < |after| && after[i].Some? && after[i].value.index == i
    requires forall i :: 0 <= i < |after| && i !in groups[g].indices ==> after[i] == before[i]
    requires GroupDelivered(after, groups[g].indices, read, grants, engines, g)
    ensures Done(routes, groups, at, after, read, grants, engines, over + {g})
  {
    hide GroupDelivered, Grouped, Failure;
    forall h | h in over ensures GroupDelivered(after, groups[h].indices, read, grants, engines, h) {
      GroupExact(routes, groups, at, h);
      GroupKept(routes, at, groups[g].indices, groups[h].indices, g, h, before, after, read, grants, engines);
    }
  }

  lemma AllDone(routes: seq<Option<Route>>, groups: seq<Group>, at: map<Route, nat>, dest: seq<Option<Result>>,
                read: bool, grants: Grants, engines: Engines, over: set<nat>)
    requires Done(routes, groups, at, dest, read, grants, engines, over) && forall g :: 0 <= g < |groups| ==> g in over
    ensures |dest| == |routes| && Grouped(routes, groups, at, |routes|)
    ensures Responded(routes, dest, read)
    ensures forall g :: 0 <= g < |groups| ==> GroupDelivered(dest, groups[g].indices, read, grants, engines, g)
  {
    hide GroupDelivered, Failure;
    forall k | 0 <= k < |routes| ensures dest[k].Some? && dest[k].value.index == k {
      assert Served(routes, at, over, k);
    }
  }

  /** Every position holds one result with its own index, and a failure that is
      safe to retry if it has no route. */
  ghost predicate Responded(routes: seq<Option<Route>>, dest: seq<Option<Result>>, read: bool)
    requires |dest| == |routes|
  {
    && (forall k :: 0 <= k < |routes| ==> dest[k].Some? && dest[k].value.index == k)
    && (forall k :: 0 <= k < |routes| && routes[k].None? ==> dest[k] == Some(Failure(k, read, true)))
  }

  /** Exactly the positions of group `g`. */
  ghost predicate Exactly(routes: seq<Option<Route>>, at: map<Route, nat>, indices: seq<nat>, g: nat) {
    forall i: nat :: i < |routes| ==>
      (i in indices <==> routes[i].Some? && routes[i].value in at && at[routes[i].value] == g)
  }

  lemma GroupKept(routes: seq<Option<Route>>, at: map<Route, nat>, mine: seq<nat>, theirs: seq<nat>, g: nat, h: nat,
                  before: seq<Option<Result>>, after: seq<Option<Result>>, read: bool, grants: Grants, engines: Engines)
    requires |before| == |after| == |routes| && h != g
    requires Exactly(routes, at, mine, g) && Exactly(routes, at, theirs, h)
    requires forall i :: 0 <= i < |routes| && i !in mine ==> after[i] == before[i]
    requires GroupDelivered(before, theirs, read, grants, engines, h)
    ensures GroupDelivered(after, theirs, read, grants, engines, h)
  {
    forall i | i in theirs ensures i < |routes| && after[i] == before[i] {
      var k :| 0 <= k < |theirs| && theirs[k] == i;
      assert theirs[k] < |before|;
    }
    DeliveredKept(before, after, theirs, read, grants(h), engines(h, grants(h)));
  }

  /** The groups one after another, each with what the earlier ones left. */
  method RunInTurn(dest: array<Option<Result>>, routes: seq<Option<Route>>, groups: seq<Group>,
                   ghost at: map<Route, nat>,
                   read: bool, limit: Budget, engines: Engines)
    returns (remaining: Budget)
    requires dest.Length == |routes| && Grouped(routes, groups, at, |routes|)
    requires forall k :: 0 <= k < |routes| && routes[k].None? ==> dest[k] == Some(Failure(k, read, true))
    modifies dest
    ensures Responded(routes, dest[..], read)
    ensures forall g :: 0 <= g < |groups| ==>
        GroupDelivered(dest[..], groups[g].indices, read, Shared(limit, engines), engines, g)
    ensures remaining == Granted(limit, engines, |groups|)
    ensures Plus(Spent(limit, engines, |groups|), remaining) == limit
  {
    hide Grouped, Cost, Delivered, Distinct, Complete, Failure, Done, Exactly, Spent, Responded;
    remaining := limit;
    ghost var grants := Shared(limit, engines);
    ghost var over: set<nat> := {};
    Started(routes, groups, at, dest[..], read, grants, engines);
    for g := 0 to |groups|
      invariant Done(routes, groups, at, dest[..], read, grants, engines, over)
      invariant remaining == Granted(limit, engines, g) && forall h :: h in over <==> 0 <= h < g
    {
      GroupExact(routes, groups, at, g);
      ghost var before := dest[..];
      var used := RunGroup(dest, groups[g].indices, read, remaining, engines(g, remaining));
      DoneNext(routes, groups, at, before, dest[..], read, grants, engines, over, g);
      over := over + {g};
      GrantedNext(limit, engines, g);
      remaining := Minus(remaining, used);
    }
    AllDone(routes, groups, at, dest[..], read, grants, engines, over);
    BudgetsConserved(limit, engines, |groups|);
  }

  /** The groups side by side, in any order, each with the whole budget. */
  method RunSideBySide(dest: array<Option<Result>>, routes: seq<Option<Route>>, groups: seq<Group>,
                       ghost at: map<Route, nat>,
                       read: bool, limit: Budget, engines: Engines)
    requires dest.Length == |routes| && Grouped(routes, groups, at, |routes|)
    requires forall k :: 0 <= k < |routes| && routes[k].None? ==> dest[k] == Some(Failure(k, read, true))
    modifies dest
    ensures Responded(routes, dest[..], read)
    ensures forall g :: 0 <= g < |groups| ==>
        GroupDelivered(dest[..], groups[g].indices, read, Whole(limit), engines, g)
  {
    hide Grouped, Cost, Delivered, Distinct, Complete, Failure, Done, Exactly, Responded;
    ghost var grants := Whole(limit);
    ghost var over: set<nat> := {};
    var left: set<nat> := {};
    for g := 0 to |groups|
      invariant forall h: nat :: h in left <==> h < g
    {
      left := left + {g};
    }
    Started(routes, groups, at, dest[..], read, grants, engines);
    while left != {}
      invariant Done(routes, groups, at, dest[..], read, grants, engines, over)
      invariant forall g :: 0 <= g < |groups| ==> (g in over <==> g !in left)
      invariant forall g :: g in left ==> 0 <= g < |groups|
      decreases left
    {
      var g: nat :| g in left;
      GroupExact(routes, groups, at, g);
      ghost var before := dest[..];
      var _ := RunGroup(dest, groups[g].indices, read, limit, engines(g, limit));
      DoneNext(routes, groups, at, before, dest[..], read, grants, engines, over, g);
      over := over + {g};
      left := left - {g};
    }
    AllDone(routes, groups, at, dest[..], read, grants, engines, over);
  }

  /** Two positions in one group, in this order. */
  ghost predicate Together(groups: seq<Group>, i: nat, j: nat) {
    exists g, a, b ::
      0 <= g < |groups| && 0 <= a < b < |groups[g].indices| && groups[g].indices[a] == i && groups[g].indices[b] == j
  }

  /** `records`, from the addresses on: whatever resolution answers and the Engines
      reply, and in whichever way the groups run, operations on one record are in
      one group in request order, and every position of the response holds one
      result with its own index: a failure if it has no route, and otherwise what
      the reply to its group gives it. */
  method Records(addresses: seq<Option<nat>>, storeOf: nat -> nat, stores: Stores, score: (nat, nat) -> nat,
                 read: bool, parallel: bool, limit: Budget, engines: Engines)
    returns (dest: array<Option<Result>>, remaining: Budget, routes: seq<Option<Route>>, groups: seq<Group>,
             ghost resolved: map<nat, Option<seq<nat>>>, ghost at: map<Route, nat>, ghost grants: Grants)
    ensures dest.Length == |routes| == |addresses| && Responded(routes, dest[..], read)
    // Every position is routed, and every routed position is in the group of its route.
    ensures ResolvedOnce(addresses, storeOf, stores, resolved)
    ensures forall i :: 0 <= i < |addresses| ==> Routed(addresses[i], storeOf, score, resolved, routes[i])
    ensures Grouped(routes, groups, at, |routes|)
    ensures forall i, j :: 0 <= i < j < |addresses| && addresses[i] == addresses[j] ==>
              routes[i] == routes[j] && (routes[i].Some? ==> Together(groups, i, j))
    ensures forall g :: 0 <= g < |groups| ==> GroupDelivered(dest[..], groups[g].indices, read, grants, engines, g)
    ensures grants == if parallel && |groups| > 1 then Whole(limit) else Shared(limit, engines)
    ensures !(parallel && |groups| > 1) ==> remaining == Granted(limit, engines, |groups|)
    ensures !(parallel && |groups| > 1) ==> Plus(Spent(limit, engines, |groups|), remaining) == limit
  {
    hide Grouped, GroupDelivered, Granted, Spent, Failure, Responded, Together;
    var targets;
    routes, targets := RouteAll(addresses, storeOf, stores, score);
    resolved := targets;
    dest := new Option<Result>[|routes|](_ => None);
    FailUnrouted(dest, routes, read);
    var positions;
    groups, positions := GroupByRoute(routes);
    at := positions;
    forall i, j | 0 <= i < j < |addresses| && addresses[i] == addresses[j] && routes[i].Some?
      ensures Together(groups, i, j) {
      RouteTogether(routes, groups, at, i, j);
    }
    remaining := limit;
    if parallel && |groups| > 1 {
      RunSideBySide(dest, routes, groups, at, read, limit, engines);
      grants := Whole(limit);
    } else {
      remaining := RunInTurn(dest, routes, groups, at, read, limit, engines);
      grants := Shared(limit, engines);
    }
  }

  lemma RouteTogether(routes: seq<Option<Route>>, groups: seq<Group>, at: map<Route, nat>, i: nat, j: nat)
    requires Grouped(routes, groups, at, |routes|) && i < j < |routes| && routes[i].Some? && routes[i] == routes[j]
    ensures Together(groups, i, j)
  {
    SameRouteInOrder(routes, groups, at, i, j);
  }

  method FailUnrouted(dest: array<Option<Result>>, routes: seq<Option<Route>>, read: bool)
    requires dest.Length == |routes|
    modifies dest
    ensures forall k :: 0 <= k < |routes| && routes[k].None? ==> dest[k] == Some(Failure(k, read, true))
  {
    for i := 0 to |routes|
      invariant forall k :: 0 <= k < i && routes[k].None? ==> dest[k] == Some(Failure(k, read, true))
    {
      if routes[i].None? {
        FailRecords(dest, [i], read, true);
      }
    }
  }

  /** The positions of a group. */
  lemma GroupExact(routes: seq<Option<Route>>, groups: seq<Group>, at: map<Route, nat>, g: nat)
    requires Grouped(routes, groups, at, |routes|) && g < |groups|
    ensures Distinct(groups[g].indices, |routes|)
    ensures Exactly(routes, at, groups[g].indices, g)
  {
    PositionsExact(routes, groups[g].route, |routes|);
    var p := groups[g].indices;
    forall k | 0 <= k < |p| ensures p[k] < |routes| {
      assert p[k] in p;
    }
  }

  /** Operations with one route are in one group, in request order. */
  lemma SameRouteInOrder(routes: seq<Option<Route>>, groups: seq<Group>, at: map<Route, nat>, i: nat, j: nat)
    requires Grouped(routes, groups, at, |routes|) && i < j < |routes| && routes[i].Some? && routes[i] == routes[j]
    ensures var indices := groups[at[routes[i].value]].indices;
            exists a, b :: 0 <= a < b < |indices| && indices[a] == i && indices[b] == j
  {
    var r := routes[i].value;
    PositionsExact(routes, r, |routes|);
    var indices := groups[at[r]].indices;
    assert i in indices && j in indices;
    var a :| 0 <= a < |indices| && indices[a] == i;
    var b :| 0 <= b < |indices| && indices[b] == j;
  }
}
