/** Affinity routing (internal/gateway/discovery.go): the endpoint with the highest
    score owns a record. The score is any function of the record and the
    endpoint; endpoints are numbered in their text order. */
module Rendezvous {
  import opened Options

  /** `a` wins over `b`: a higher score, or the same score and the smaller name. */
  predicate Wins(score: nat -> nat, a: nat, b: nat) {
    score(a) > score(b) || (score(a) == score(b) && a <= b)
  }

  /** The owner among a set of endpoints. */
  ghost predicate Owner(score: nat -> nat, endpoints: set<nat>, owner: nat) {
    owner in endpoints && forall e :: e in endpoints ==> Wins(score, owner, e)
  }

  /** A set of endpoints has at most one owner, so the order and repetition of
      the addresses do not matter. */
  lemma OwnerUnique(score: nat -> nat, endpoints: set<nat>, a: nat, b: nat)
    requires Owner(score, endpoints, a) && Owner(score, endpoints, b)
    ensures a == b
  {
    assert Wins(score, a, b) && Wins(score, b, a);
  }

  /** Any endpoints at all have an owner. */
  lemma {:induction false} OwnerExists(score: nat -> nat, endpoints: set<nat>)
    requires endpoints != {}
    ensures exists e :: Owner(score, endpoints, e)
    decreases |endpoints|
  {
    var x :| x in endpoints;
    if endpoints == {x} {
      assert Owner(score, endpoints, x);
    } else {
      OwnerExists(score, endpoints - {x});
      var e :| Owner(score, endpoints - {x}, e);
      var winner := if Wins(score, e, x) then e else x;
      forall other | other in endpoints ensures Wins(score, winner, other) {
        assert other == x || other in endpoints - {x};
      }
      assert Owner(score, endpoints, winner);
    }
  }

  /** Removing an endpoint moves only the records it owned. */
  lemma RemovalMovesOwnOnly(score: nat -> nat, endpoints: set<nat>, removed: nat, before: nat, after: nat)
    requires Owner(score, endpoints, before) && Owner(score, endpoints - {removed}, after) && before != removed
    ensures after == before
  {
    assert Owner(score, endpoints - {removed}, before);
    OwnerUnique(score, endpoints - {removed}, before, after);
  }

  /** Adding an endpoint moves records only to it. */
  lemma AdditionMovesToNew(score: nat -> nat, endpoints: set<nat>, added: nat, before: nat, after: nat)
    requires Owner(score, endpoints, before) && Owner(score, endpoints + {added}, after)
    ensures after == before || after == added
  {
    if after != added {
      assert Owner(score, endpoints, after);
      OwnerUnique(score, endpoints, before, after);
    }
  }

  function Set(routes: seq<nat>): set<nat> { set e | e in routes }

  /** `affinityRoute`: the owner among the set of the given endpoints. */
  method AffinityRoute(score: nat -> nat, routes: seq<nat>) returns (owner: Option<nat>)
    ensures owner.None? <==> routes == []
    ensures owner.Some? ==> Owner(score, Set(routes), owner.value)
  {
    if |routes| == 1 {
      return Some(routes[0]);
    }
    owner := None;
    var highest := 0;
    for i := 0 to |routes|
      invariant i == 0 <==> owner.None?
      invariant owner.Some? ==> owner.value in routes[..i] && highest == score(owner.value)
      invariant owner.Some? ==> forall k :: 0 <= k < i ==> Wins(score, owner.value, routes[k])
    {
      var s := score(routes[i]);
      if i == 0 || s > highest || (s == highest && routes[i] < owner.value) {
        owner, highest := Some(routes[i]), s;
      }
    }
  }

  /** The same endpoints in any order, with any repetitions, give the same owner. */
  method OrderDoesNotMatter(score: nat -> nat, routes: seq<nat>, others: seq<nat>)
    returns (a: Option<nat>, b: Option<nat>)
    requires Set(routes) == Set(others)
    ensures a == b
  {
    a := AffinityRoute(score, routes);
    b := AffinityRoute(score, others);
    assert routes == [] <==> others == [] by {
      assert routes != [] ==> routes[0] in Set(others);
      assert others != [] ==> others[0] in Set(routes);
    }
    if a.Some? && b.Some? {
      OwnerUnique(score, Set(routes), a.value, b.value);
    }
  }
}
