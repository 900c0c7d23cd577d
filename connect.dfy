/** `connect_new_buildings`: every arrival that is not yet connected is joined by one
    tube to its best candidate, if the candidate's score is within the budget. The
    tube costs 1, whatever its length. */
module Connect {
  import opened Pairs
  import opened Network
  import opened Search
  import opened Ledger

  /** The state after the tube from `nb` to `t`: one unit spent, the route recorded,
      `nb` connected. */
  ghost function Joined(net: Net, nb: Building, t: Building): Net
  {
    net.(resources := net.resources - 1,
         routes := Add(net.routes, nb.id, t.id),
         connected := net.connected + {nb})
  }

  /** The redundancy branch as written: with at least 1000 left after the first tube,
      search again and build a second tube to a different target within budget. */
  ghost function SecondTube(net1: Net, nb: Building, first: Candidate): (Net, seq<Action>)
  {
    if net1.resources < 1000 then (net1, [])
    else
      match Find(net1, nb)
      case None => (net1, [])
      case Some(c2) =>
        if c2.target.id != first.target.id && Affordable(c2, net1.resources) then
          (net1.(resources := net1.resources - 1, routes := Add(net1.routes, nb.id, c2.target.id)),
           [Tube(nb.id, c2.target.id)])
        else (net1, [])
  }

  /** The redundancy branch in terms of the second search's result. */
  lemma SecondTubeOn(net1: Net, nb: Building, first: Candidate, found: Option<Candidate>)
    requires net1.resources >= 1000 && found == Find(net1, nb)
    ensures found.Some? && found.value.target.id != first.target.id && Affordable(found.value, net1.resources) ==>
              && SecondTube(net1, nb, first).0 ==
                   net1.(resources := net1.resources - 1, routes := Add(net1.routes, nb.id, found.value.target.id))
              && SecondTube(net1, nb, first).1 == [Tube(nb.id, found.value.target.id)]
    ensures !(found.Some? && found.value.target.id != first.target.id && Affordable(found.value, net1.resources)) ==>
              SecondTube(net1, nb, first).0 == net1 && SecondTube(net1, nb, first).1 == []
  {
  }

  /** One iteration of the loop. */
  ghost function ConnectStep(net: Net, nb: Building): (Net, seq<Action>)
  {
    if nb in net.connected then (net, [])
    else
      match Find(net, nb)
      case None => (net, [])
      case Some(c) =>
        if !Affordable(c, net.resources) then (net, [])
        else
          var (net2, extra) := SecondTube(Joined(net, nb, c.target), nb, c);
          (net2, [Tube(nb.id, c.target.id)] + extra)
  }

  /** The second search sees the same state as the first, apart from `nb`'s own flag,
      the new route and the budget, none of which it reads; so it returns the same
      target and the redundancy branch never fires. */
  lemma SecondTubeNever(net: Net, nb: Building, c: Candidate)
    requires Find(net, nb) == Some(c)
    ensures SecondTube(Joined(net, nb, c.target), nb, c) == (Joined(net, nb, c.target), [])
  {
    FindIgnoresOwnFlag(Joined(net, nb, c.target), net, nb);
  }

  /** The loop over the remaining arrivals: the final state and the actions emitted. */
  ghost function ConnectFrom(net: Net, rest: seq<Building>): (Net, seq<Action>)
    decreases |rest|
  {
    if rest == [] then (net, [])
    else
      var (net1, more) := ConnectStep(net, rest[0]);
      var (net2, tail) := ConnectFrom(net1, rest[1..]);
      (net2, more + tail)
  }

  /** One arrival off the front of the list. */
  lemma ConnectFromCons(net: Net, rest: seq<Building>)
    requires rest != []
    ensures ConnectFrom(net, rest).0 == ConnectFrom(ConnectStep(net, rest[0]).0, rest[1..]).0
    ensures ConnectFrom(net, rest).1 == ConnectStep(net, rest[0]).1 + ConnectFrom(ConnectStep(net, rest[0]).0, rest[1..]).1
  {
  }

  /** The whole pass: arrivals in pads-first order. */
  ghost function ConnectNew(net: Net, news: seq<Building>): (Net, seq<Action>)
  {
    ConnectFrom(net, PadsFirst(news))
  }

  /** An arrival that is already connected is skipped; otherwise exactly one tube is
      built, to the search's target, when the score is within the budget. */
  lemma ConnectStepSingle(net: Net, nb: Building)
    ensures
      var (n1, more) := ConnectStep(net, nb);
      if nb !in net.connected && Find(net, nb).Some? && Affordable(Find(net, nb).value, net.resources) then
        var t := Find(net, nb).value.target;
        more == [Tube(nb.id, t.id)] && n1 == Joined(net, nb, t)
      else more == [] && n1 == net
  {
    if nb !in net.connected && Find(net, nb).Some? && Affordable(Find(net, nb).value, net.resources) {
      SecondTubeNever(net, nb, Find(net, nb).value);
    }
  }

  /** What a stretch of the pass may change: the budget drops by one per action, every
      action is a tube, connectivity only grows, and nothing but the budget, the
      routes and the connected set changes. */
  ghost predicate Advances(n0: Net, n1: Net, more: seq<Action>)
  {
    && n1 == n0.(resources := n1.resources, routes := n1.routes, connected := n1.connected)
    && n0.connected <= n1.connected
    && n1.resources == n0.resources - |more|
    && (forall i :: 0 <= i < |more| ==> more[i].Tube?)
  }

  /** What every stretch of the pass keeps: the state stays well formed with every
      route endpoint connected, the actions replay cleanly from the starting book to
      the book of the new state (so each tube joins a pair with no route yet), and,
      when no two buildings share a spot, the budget does not go below zero. */
  ghost predicate Keeps(n0: Net, n1: Net, more: seq<Action>, k: int)
  {
    && Advances(n0, n1, more)
    && WellFormed(n1) && RouteEndsConnected(n1)
    && Replay(BookOf(n0, k), more) == BookOf(n1, k)
    && (DistinctPositions(n0.order) && n0.resources >= 0 ==> n1.resources >= 0)
  }

  lemma KeepsTrans(n0: Net, n1: Net, n2: Net, m1: seq<Action>, m2: seq<Action>, k: int)
    requires Keeps(n0, n1, m1, k) && Keeps(n1, n2, m2, k)
    ensures Keeps(n0, n2, m1 + m2, k)
  {
    ReplayAppend(BookOf(n0, k), m1, m2);
    assert forall i :: |m1| <= i < |m1 + m2| ==> (m1 + m2)[i] == m2[i - |m1|];
  }

  /** One iteration keeps all of it, and a tube is built only when its score, at
      least 8 when no two buildings share a spot, is within the budget. */
  lemma ConnectStepFacts(net: Net, nb: Building, k: int)
    requires WellFormed(net) && RouteEndsConnected(net) && nb in net.order
    ensures Keeps(net, ConnectStep(net, nb).0, ConnectStep(net, nb).1, k)
    ensures |ConnectStep(net, nb).1| <= 1
  {
    ConnectStepSingle(net, nb);
    var (n1, more) := ConnectStep(net, nb);
    if more != [] {
      var c := Find(net, nb).value;
      var t := c.target;
      FindSound(net, nb);
      HasTouches(net.routes, nb.id, t.id);
      forall b | b in n1.order && Touches(n1.routes, b.id)
        ensures b in n1.connected
      {
        var p :| p in n1.routes && (p.0 == b.id || p.1 == b.id);
        if p !in net.routes {
          assert b.id == nb.id || b.id == t.id;
          if b.id == nb.id {
            SameIdSameBuilding(net.order, b, nb);
          } else {
            SameIdSameBuilding(net.order, b, t);
          }
        }
      }
      assert Replay(BookOf(net, k), more) == Post(BookOf(net, k), more[0]);
      if DistinctPositions(net.order) && net.resources >= 0 {
        DistinctBuildingsFar(net.order, nb, t);
      }
    }
  }

  /** The loop over the remaining arrivals keeps all of it, with at most one action
      per arrival. */
  lemma {:induction false} ConnectFromFacts(net: Net, rest: seq<Building>, k: int)
    requires WellFormed(net) && RouteEndsConnected(net)
    requires forall b :: b in rest ==> b in net.order
    ensures Keeps(net, ConnectFrom(net, rest).0, ConnectFrom(net, rest).1, k)
    ensures |ConnectFrom(net, rest).1| <= |rest|
    decreases |rest|
  {
    if rest == [] {
      assert Replay(BookOf(net, k), []) == BookOf(net, k);
    } else {
      var (net1, more) := ConnectStep(net, rest[0]);
      ConnectStepFacts(net, rest[0], k);
      ConnectFromFacts(net1, rest[1..], k);
      var (n2, tail) := ConnectFrom(net1, rest[1..]);
      KeepsTrans(net, net1, n2, more, tail, k);
    }
  }

  /** The whole pass: only tubes, at most one per arrival, each a new route and each
      costing exactly 1; the budget stays non-negative when no two buildings share a
      spot; every route endpoint stays connected. */
  lemma ConnectNewFacts(net: Net, news: seq<Building>, k: int)
    requires WellFormed(net) && RouteEndsConnected(net)
    requires forall b :: b in news ==> b in net.order
    ensures Keeps(net, ConnectNew(net, news).0, ConnectNew(net, news).1, k)
    ensures |ConnectNew(net, news).1| <= |news|
  {
    PadsFirstSorted(news);
    var sorted := PadsFirst(news);
    assert |sorted| == |news| by {
      assert |multiset(sorted)| == |multiset(news)|;
    }
    forall b | b in sorted
      ensures b in net.order
    {
      assert b in multiset(news);
    }
    ConnectFromFacts(net, sorted, k);
  }
}
