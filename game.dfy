/** `GameState`: the engine's mutable state. Buildings are shared objects whose flags
    the passes set in place; the routes, pods, teleports and pod routes are sets the
    methods reassign; `index` is the id-keyed `buildings` dict, `buildings` its
    insertion order, and `landingPads`/`modules` the per-kind indexes. Every method is
    proved to do exactly what the corresponding function on `Network.Net` says. */
module Game {
  import opened Pairs
  import opened Network
  import opened Search
  import Geometry
  import Connect
  import Ledger
  import Pods
  import Teleport
  import Turn

  /** The buildings of `bs` whose `connected` flag is set. */
  ghost function ConnectedOf(bs: seq<Building>): set<Building>
    reads bs`connected
  {
    set b | b in bs && b.connected
  }

  /** The buildings of `bs` whose `entrance` flag is set. */
  ghost function EntrancesOf(bs: seq<Building>): set<Building>
    reads bs`entrance
  {
    set b | b in bs && b.entrance
  }

  /** The buildings of `bs` whose `exit` flag is set. */
  ghost function ExitsOf(bs: seq<Building>): set<Building>
    reads bs`exit
  {
    set b | b in bs && b.exit
  }

  /** Appending a building whose flags are all clear changes none of the flag sets. */
  lemma FlagsSnoc(bs: seq<Building>, b: Building)
    requires !b.connected && !b.entrance && !b.exit
    ensures ConnectedOf(bs + [b]) == ConnectedOf(bs)
    ensures EntrancesOf(bs + [b]) == EntrancesOf(bs)
    ensures ExitsOf(bs + [b]) == ExitsOf(bs)
  {
  }

  /** A lookup in the defaultdict `modules`: empty for a type never registered. */
  function ModulesIn(modules: map<int, seq<Building>>, t: int): seq<Building>
  {
    if t in modules then modules[t] else []
  }

  /** The `buildings` dict agrees with the insertion order: ids are unique, every
      entry is registered under its own id, and every registered building has one. */
  ghost predicate Registry(index: map<int, Building>, bs: seq<Building>)
  {
    && UniqueIds(bs)
    && (forall id :: id in index ==> index[id] in bs && index[id].id == id)
    && (forall b :: b in bs ==> b.id in index)
  }

  /** Registering a building under a fresh id keeps the dict in step. */
  lemma RegistryAppend(index: map<int, Building>, bs: seq<Building>, b: Building)
    requires Registry(index, bs) && b.id !in index
    ensures Registry(index[b.id := b], bs + [b])
  {
    var s := bs + [b];
    forall i, j | 0 <= i < j < |s|
      ensures s[i].id != s[j].id
    {
      if j < |bs| {
        assert s[i] == bs[i] && s[j] == bs[j];
      } else {
        assert s[i] in bs;
      }
    }
  }

  /** The defaultdict `modules` holds, for every type, the modules of that type in
      insertion order. */
  ghost predicate ModulesIndex(modules: map<int, seq<Building>>, bs: seq<Building>)
  {
    forall t :: ModulesIn(modules, t) == ModulesOf(bs, t)
  }

  /** Appending a module to the list of its type keeps the index in step; a pad
      leaves it alone. */
  lemma ModulesIndexAppend(modules: map<int, seq<Building>>, bs: seq<Building>, b: Building)
    requires ModulesIndex(modules, bs)
    ensures b.kind == 0 ==> ModulesIndex(modules, bs + [b])
    ensures b.kind != 0 ==> ModulesIndex(modules[b.kind := ModulesIn(modules, b.kind) + [b]], bs + [b])
  {
    forall t
      ensures ModulesOf(bs + [b], t) == ModulesOf(bs, t) + (if b.kind != 0 && b.kind == t then [b] else [])
    {
      IndexesAppend(bs, b, t);
    }
  }

  /** The registry and the two per-type indexes agree with the insertion order. */
  ghost predicate Indexed(index: map<int, Building>, bs: seq<Building>, pads: seq<Building>,
                          modules: map<int, seq<Building>>)
  {
    Registry(index, bs) && pads == Pads(bs) && ModulesIndex(modules, bs)
  }

  /** `add_building` keeps the indexes in step: a pad joins the pad list, a module
      the list of its type. */
  lemma IndexedAppend(index: map<int, Building>, bs: seq<Building>, pads: seq<Building>,
                      modules: map<int, seq<Building>>, b: Building)
    requires Indexed(index, bs, pads, modules) && b.id !in index
    ensures b.kind == 0 ==> Indexed(index[b.id := b], bs + [b], pads + [b], modules)
    ensures b.kind != 0 ==>
              Indexed(index[b.id := b], bs + [b], pads, modules[b.kind := ModulesIn(modules, b.kind) + [b]])
  {
    IndexesAppend(bs, b, 0);
    RegistryAppend(index, bs, b);
    ModulesIndexAppend(modules, bs, b);
  }

  /** A set of pairs with no members is empty. */
  lemma NoPairEmpty(s: set<Pair>)
    ensures (forall y :: y !in s) ==> s == {}
  {
    if forall y :: y !in s {
      assert s == {};
    }
  }

  /** The flags of the buildings of `bs` are what `net` records. */
  ghost predicate FlagsAgree(bs: seq<Building>, net: Net)
    reads bs`connected
  {
    forall b :: b in bs ==> (b.connected <==> b in net.connected)
  }

  /** The inner loop of a pad's scan: offer each connected module of `ms`, in order. */
  method OfferConnected(nb: Building, ghost net: Net, ms: seq<Building>, best: Option<Building>, bestDist: int)
    returns (best2: Option<Building>, dist2: int)
    requires FlagsAgree(ms, net)
    requires best.Some? ==> bestDist == Dist(nb, best.value)
    ensures best2 == Nearest(nb, best, ConnectedIn(net, ms))
    ensures best2.Some? ==> dist2 == Dist(nb, best2.value)
  {
    best2, dist2 := best, bestDist;
    var rest := ms;
    while rest != []
      invariant FlagsAgree(rest, net)
      invariant Nearest(nb, best2, ConnectedIn(net, rest)) == Nearest(nb, best, ConnectedIn(net, ms))
      invariant best2.Some? ==> dist2 == Dist(nb, best2.value)
      decreases |rest|
    {
      var m := rest[0];
      ghost var tail := ConnectedIn(net, rest[1..]);
      var offered := m.connected;
      assert offered == (m in net.connected);
      assert ConnectedIn(net, rest) == (if offered then [m] else []) + tail;
      if offered {
        NearestCons(nb, best2, m, tail);
        var d := Dist(nb, m);
        if best2.None? || d < dist2 {
          best2, dist2 := Some(m), d;
        }
      } else {
        assert ConnectedIn(net, rest) == tail;
      }
      rest := rest[1..];
    }
  }

  /** A module's scan: offer each connected pad that serves the module's type. */
  method OfferServingPads(nb: Building, ghost net: Net, pads: seq<Building>, best: Option<Building>, bestDist: int)
    returns (best2: Option<Building>, dist2: int)
    requires FlagsAgree(pads, net)
    requires best.Some? ==> bestDist == Dist(nb, best.value)
    ensures best2 == Nearest(nb, best, PadCandidates(net, nb.kind, pads))
    ensures best2.Some? ==> dist2 == Dist(nb, best2.value)
  {
    best2, dist2 := best, bestDist;
    var rest := pads;
    while rest != []
      invariant FlagsAgree(rest, net)
      invariant Nearest(nb, best2, PadCandidates(net, nb.kind, rest)) == Nearest(nb, best, PadCandidates(net, nb.kind, pads))
      invariant best2.Some? ==> dist2 == Dist(nb, best2.value)
      decreases |rest|
    {
      var pad := rest[0];
      ghost var tail := PadCandidates(net, nb.kind, rest[1..]);
      var offered := pad.connected && nb.kind in pad.astronauts;
      assert offered == (pad in net.connected && nb.kind in pad.astronauts);
      assert PadCandidates(net, nb.kind, rest) == (if offered then [pad] else []) + tail;
      if offered {
        NearestCons(nb, best2, pad, tail);
        var d := Dist(nb, pad);
        if best2.None? || d < dist2 {
          best2, dist2 := Some(pad), d;
        }
      } else {
        assert PadCandidates(net, nb.kind, rest) == tail;
      }
      rest := rest[1..];
    }
  }

  /** The fallback scan: offer every connected building whose id is not `nb`'s. */
  method OfferOthers(nb: Building, ghost net: Net, bs: seq<Building>, best: Option<Building>, bestDist: int)
    returns (best2: Option<Building>, dist2: int)
    requires FlagsAgree(bs, net)
    requires best.Some? ==> bestDist == Dist(nb, best.value)
    ensures best2 == Nearest(nb, best, OtherConnected(net, nb, bs))
    ensures best2.Some? ==> dist2 == Dist(nb, best2.value)
  {
    best2, dist2 := best, bestDist;
    var rest := bs;
    while rest != []
      invariant FlagsAgree(rest, net)
      invariant Nearest(nb, best2, OtherConnected(net, nb, rest)) == Nearest(nb, best, OtherConnected(net, nb, bs))
      invariant best2.Some? ==> dist2 == Dist(nb, best2.value)
      decreases |rest|
    {
      var b := rest[0];
      ghost var tail := OtherConnected(net, nb, rest[1..]);
      var offered := b.id != nb.id && b.connected;
      assert offered == (b.id != nb.id && b in net.connected);
      assert OtherConnected(net, nb, rest) == (if offered then [b] else []) + tail;
      if offered {
        NearestCons(nb, best2, b, tail);
        var d := Dist(nb, b);
        if best2.None? || d < dist2 {
          best2, dist2 := Some(b), d;
        }
      } else {
        assert OtherConnected(net, nb, rest) == tail;
      }
      rest := rest[1..];
    }
  }

  /** The pad branch of the typed scan: the connected modules of each type the pad's
      astronauts need, nearest first. */
  method ScanPadTypes(nb: Building, ghost net: Net, modules: map<int, seq<Building>>)
    returns (best: Option<Building>, bestDist: int)
    requires nb.kind == 0 && FlagsAgree(net.order, net) && ModulesIndex(modules, net.order)
    ensures best == Nearest(nb, None, TypedCandidates(net, nb))
    ensures best.Some? ==> bestDist == Dist(nb, best.value)
  {
    best, bestDist := None, 0;
    var i := 0;
    while i < |nb.astronauts|
      invariant 0 <= i <= |nb.astronauts|
      invariant Nearest(nb, best, ModuleCandidates(net, nb.astronauts[i..])) == Nearest(nb, None, TypedCandidates(net, nb))
      invariant best.Some? ==> bestDist == Dist(nb, best.value)
    {
      var t := nb.astronauts[i];
      assert nb.astronauts[i..][0] == t && nb.astronauts[i..][1..] == nb.astronauts[i + 1..];
      var ms := ModulesIn(modules, t);
      assert ms == ModulesOf(net.order, t);
      NearestAppend(nb, best, ConnectedIn(net, ms), ModuleCandidates(net, nb.astronauts[i + 1..]));
      best, bestDist := OfferConnected(nb, net, ms, best, bestDist);
      i := i + 1;
    }
    assert nb.astronauts[i..] == [];
  }

  /** The typed scan of `find_optimal_connection_point`: the connected modules a pad
      serves, or the connected pads a module serves. */
  method ScanTyped(nb: Building, ghost net: Net, landingPads: seq<Building>,
                   modules: map<int, seq<Building>>)
    returns (best: Option<Building>, bestDist: int)
    requires FlagsAgree(net.order, net)
    requires landingPads == Pads(net.order) && ModulesIndex(modules, net.order)
    ensures best == Nearest(nb, None, TypedCandidates(net, nb))
    ensures best.Some? ==> bestDist == Dist(nb, best.value)
  {
    if nb.kind == 0 {
      best, bestDist := ScanPadTypes(nb, net, modules);
    } else {
      assert FlagsAgree(landingPads, net);
      best, bestDist := OfferServingPads(nb, net, landingPads, None, 0);
    }
  }

  /** The body of `find_optimal_connection_point`, over the state's indexes. */
  method ScanFor(nb: Building, ghost net: Net, buildings: seq<Building>, landingPads: seq<Building>,
                modules: map<int, seq<Building>>)
    returns (r: Option<Candidate>)
    requires buildings == net.order && FlagsAgree(buildings, net)
    requires landingPads == Pads(buildings) && ModulesIndex(modules, buildings)
    ensures r == Find(net, nb)
  {
    var best, bestDist := ScanTyped(nb, net, landingPads, modules);
    if best.Some? {
      r := Some(Candidate(best.value, bestDist, true));
    } else {
      best, bestDist := OfferOthers(nb, net, buildings, best, bestDist);
      if best.Some? {
        r := Some(Candidate(best.value, bestDist, false));
      } else {
        r := None;
      }
    }
  }

  /** One line of the turn's building input: the type, the id, the position and, for
      a landing pad, the module types of its astronauts. */
  datatype Arrival = Arrival(kind: int, id: int, x: int, y: int, served: seq<int>)

  /** The arrivals' ids are new to the registry and to each other. */
  ghost predicate FreshIds(index: map<int, Building>, arrivals: seq<Arrival>)
  {
    && (forall i :: 0 <= i < |arrivals| ==> arrivals[i].id !in index)
    && (forall i, j :: 0 <= i < j < |arrivals| ==> arrivals[i].id != arrivals[j].id)
  }

  /** `b` is the building made from the input line `a`: a module's astronaut list is
      empty whatever the line holds. */
  ghost predicate MadeFrom(b: Building, a: Arrival)
  {
    && b.id == a.id && b.kind == a.kind && b.x == a.x && b.y == a.y
    && b.astronauts == (if a.kind == 0 then a.served else [])
  }

  /** While the arrivals are registered in order, the next one's id is still free:
      it was not registered before the turn and differs from the earlier arrivals. */
  lemma NextIdFree(index0: map<int, Building>, bs0: seq<Building>, index: map<int, Building>,
                   news: seq<Building>, arrivals: seq<Arrival>)
    requires Registry(index0, bs0) && Registry(index, bs0 + news) && FreshIds(index0, arrivals)
    requires |news| < |arrivals| && MadeFromAll(news, arrivals)
    ensures arrivals[|news|].id !in index
  {
    forall b | b in bs0 + news
      ensures b.id != arrivals[|news|].id
    {
      if b !in bs0 {
        var k :| 0 <= k < |news| && news[k] == b;
        assert arrivals[k].id == b.id;
      }
    }
  }

  /** Each of `news` is the building made from the input line at its position. */
  ghost predicate MadeFromAll(news: seq<Building>, arrivals: seq<Arrival>)
  {
    |news| <= |arrivals| && forall k :: 0 <= k < |news| ==> MadeFrom(news[k], arrivals[k])
  }

  lemma MadeFromSnoc(news: seq<Building>, arrivals: seq<Arrival>, b: Building)
    requires MadeFromAll(news, arrivals) && |news| < |arrivals| && MadeFrom(b, arrivals[|news|])
    ensures MadeFromAll(news + [b], arrivals)
  {
    var s := news + [b];
    forall k | 0 <= k < |s|
      ensures MadeFrom(s[k], arrivals[k])
    {
      if k < |news| {
        assert s[k] == news[k];
      }
    }
  }

  /** The route lines of a turn added one by one to an empty set. */
  method CollectRoutes(links: seq<Pair>) returns (table: set<Pair>)
    ensures table == Table(links)
  {
    table := {};
    for i := 0 to |links|
      invariant table == Table(links[..i])
    {
      TableSnoc(links[..i], links[i]);
      assert links[..i + 1] == links[..i] + [links[i]];
      table := Add(table, links[i].0, links[i].1);
    }
    assert links[..|links|] == links;
  }

  /** The state once a turn's input is read: the budget and the routes and pods are
      replaced, the arrivals are registered, and the pod routes and teleporters carry
      over from earlier turns. */
  ghost function TurnInput(net: Net, budget: int, links: seq<Pair>, podIds: seq<int>, news: seq<Building>): Net
  {
    net.(order := net.order + news, routes := Table(links),
         pods := (set p | p in podIds), resources := budget)
  }

  class GameState {
    var resources: int
    /** The registered buildings in insertion order. */
    var buildings: seq<Building>
    /** The `buildings` dict: id to building. */
    var index: map<int, Building>
    var routes: set<Pair>
    var pods: set<int>
    var teleports: set<Pair>
    var landingPads: seq<Building>
    var modules: map<int, seq<Building>>
    var podRoutes: set<Pair>

    /** The dict and both indexes agree with the insertion order, ids are unique, and
        every pair set holds each unordered pair in its sorted form. */
    ghost predicate Valid()
      reads this
    {
      && Indexed(index, buildings, landingPads, modules)
      && Canonical(routes) && Canonical(teleports) && Canonical(podRoutes)
    }

    /** The state as a `Net` value. */
    ghost function Model(): Net
      reads this, buildings
    {
      Net(buildings, ConnectedOf(buildings), EntrancesOf(buildings), ExitsOf(buildings),
          routes, teleports, podRoutes, pods, resources)
    }

    /** A registered building is what the dict holds under its id. */
    lemma Lookup(b: Building)
      requires Valid() && b in buildings
      ensures b.id in index && index[b.id] == b
    {
      SameIdSameBuilding(buildings, b, index[b.id]);
    }

    constructor ()
      ensures Valid()
      ensures Model() == Net([], {}, {}, {}, {}, {}, {}, {}, 0)
      ensures index == map[] && landingPads == [] && modules == map[]
    {
      resources := 0;
      buildings := [];
      index := map[];
      routes := {};
      pods := {};
      teleports := {};
      landingPads := [];
      modules := map[];
      podRoutes := {};
    }

    /** `add_building`: register under the id, and append to the pad index or to the
        module index of the building's type. */
    method AddBuilding(b: Building)
      requires Valid() && b.id !in index
      modifies this`buildings, this`index, this`landingPads, this`modules
      ensures Valid()
      ensures buildings == old(buildings) + [b] && index == old(index)[b.id := b]
    {
      IndexedAppend(index, buildings, landingPads, modules, b);
      if b.kind == 0 {
        landingPads := landingPads + [b];
      } else {
        modules := modules[b.kind := ModulesIn(modules, b.kind) + [b]];
      }
      buildings, index := buildings + [b], index[b.id := b];
    }

    /** `add_route`: record the unordered pair. */
    method AddRoute(id1: int, id2: int)
      requires Valid()
      modifies this`routes
      ensures Valid()
      ensures routes == Add(old(routes), id1, id2)
      ensures Model() == old(Model()).(routes := routes)
    {
      AddCanonical(routes, id1, id2);
      routes := Add(routes, id1, id2);
    }

    /** `add_teleport`: record the unordered pair. */
    method AddTeleport(id1: int, id2: int)
      requires Valid()
      modifies this`teleports
      ensures Valid()
      ensures teleports == Add(old(teleports), id1, id2)
      ensures Model() == old(Model()).(teleports := teleports)
    {
      AddCanonical(teleports, id1, id2);
      teleports := Add(teleports, id1, id2);
    }

    /** `game.resources -= amount`. */
    method Spend(amount: int)
      modifies this`resources
      ensures resources == old(resources) - amount
      ensures Model() == old(Model()).(resources := resources)
    {
      resources := resources - amount;
    }

    /** `has_route`: either orientation of the pair counts. */
    function HasRoute(id1: int, id2: int): (r: bool)
      reads this
      ensures Canonical(routes) ==> (r <==> (id1, id2) in routes || (id2, id1) in routes)
    {
      Has(routes, id1, id2)
    }

    /** `has_teleport`: either orientation of the pair counts. */
    function HasTeleport(id1: int, id2: int): (r: bool)
      reads this
      ensures Canonical(teleports) ==> (r <==> (id1, id2) in teleports || (id2, id1) in teleports)
    {
      Has(teleports, id1, id2)
    }

    /** `has_pod_route`: either orientation of the pair counts. */
    function HasPodRoute(id1: int, id2: int): (r: bool)
      reads this
      ensures Canonical(podRoutes) ==> (r <==> (id1, id2) in podRoutes || (id2, id1) in podRoutes)
    {
      Has(podRoutes, id1, id2)
    }

    /** `calculate_distance`: ten times the Euclidean distance, rounded down. */
    function CalculateDistance(id1: int, id2: int): (d: nat)
      requires id1 in index && id2 in index
      reads this
      ensures var dx := index[id1].x - index[id2].x;
              var dy := index[id1].y - index[id2].y;
              d * d <= 100 * (dx * dx + dy * dy) < (d + 1) * (d + 1)
    {
      Dist(index[id1], index[id2])
    }
  
    /** `find_optimal_connection_point`: a pad scans the connected modules of each type
        it serves, a module scans the connected pads that serve its type, each keeping
        the first strictly nearest; only when that finds nothing are all other
        connected buildings scanned at full distance. */
    method FindOptimalConnectionPoint(nb: Building) returns (r: Option<Candidate>)
      requires Valid()
      ensures r == Find(Model(), nb)
    {
      r := ScanFor(nb, Model(), buildings, landingPads, modules);
    }

    /** `if id in self.buildings: self.buildings[id].connected = True`. */
    method FlagId(id: int)
      requires Valid()
      modifies buildings`connected
      ensures forall b :: b in buildings ==> (b.connected <==> old(b.connected) || b.id == id)
    {
      if id in index {
        var b := index[id];
        b.connected := true;
        forall c | c in buildings && c.id == id
          ensures c == b
        {
          SameIdSameBuilding(buildings, c, b);
        }
      }
    }

    /** The first loop of `initialize_network_state`: clear every flag. */
    method ClearConnected()
      modifies buildings`connected
      ensures forall b :: b in buildings ==> !b.connected
    {
      var i := 0;
      while i < |buildings|
        invariant 0 <= i <= |buildings| && buildings == old(buildings)
        invariant forall k :: 0 <= k < i ==> !buildings[k].connected
      {
        buildings[i].connected := false;
        i := i + 1;
      }
    }

    /** The loop over the routes: flag every registered endpoint. */
    method FlagEndpoints()
      requires Valid()
      requires forall b :: b in buildings ==> !b.connected
      modifies buildings`connected
      ensures ConnectedOf(buildings) == set b | b in buildings && Touches(routes, b.id)
    {
      var rest := routes;
      ghost var done: set<Pair> := {};
      ghost var ids: set<int> := {};
      while rest != {}
        invariant rest + done == routes && rest !! done
        invariant forall id :: id in ids <==> Touches(done, id)
        invariant forall b :: b in buildings ==> (b.connected <==> b.id in ids)
        decreases |rest|
      {
        NoPairEmpty(rest);
        var p :| p in rest;
        forall id
          ensures Touches(done + {p}, id) <==> Touches(done, id) || p.0 == id || p.1 == id
        {
          TouchesAdd(done, p, id);
        }
        FlagId(p.0);
        FlagId(p.1);
        rest := rest - {p};
        done := done + {p};
        ids := ids + {p.0, p.1};
      }
      assert forall b :: b in buildings ==> (b.connected <==> Touches(routes, b.id));
    }

    /** With no routes: flag the first-registered building only. */
    method SeedFirst()
      requires |buildings| > 0 && forall b :: b in buildings ==> !b.connected
      modifies buildings`connected
      ensures ConnectedOf(buildings) == {buildings[0]}
    {
      var first := buildings[0];
      first.connected := true;
      assert forall b :: b in buildings ==> (b.connected <==> b == first);
    }

    /** The flags of `initialize_network_state`: clear every flag, then either seed
        the first building (no routes) or flag every registered endpoint of a route. */
    method RefreshFlags()
      requires Valid()
      modifies buildings`connected
      ensures ConnectedOf(buildings) == Refreshed(old(Model())).connected
    {
      ClearConnected();
      if routes == {} && |buildings| > 0 {
        SeedFirst();
      } else {
        FlagEndpoints();
      }
    }

    /** `initialize_network_state`: only the `connected` flags change. */
    method InitializeNetworkState()
      requires Valid()
      modifies buildings`connected
      ensures Model() == Refreshed(old(Model()))
    {
      RefreshFlags();
    }

    /** `building.connected = True`. */
    method MarkConnected(b: Building)
      requires b in buildings
      modifies b`connected
      ensures b.connected
      ensures Model() == old(Model()).(connected := old(Model()).connected + {b})
    {
      b.connected := true;
      assert forall c :: c in buildings && c != b ==> c.connected == old(c.connected);
      assert ConnectedOf(buildings) == old(ConnectedOf(buildings)) + {b};
    }

    /** A tube from `nb` to `t`: one unit spent, the route recorded. */
    method BuildTube(nb: Building, t: Building)
      requires Valid()
      modifies this`resources, this`routes
      ensures Valid()
      ensures Model() == old(Model()).(resources := old(resources) - 1, routes := Add(old(routes), nb.id, t.id))
    {
      Spend(1);
      AddRoute(nb.id, t.id);
    }

    /** The first tube of an arrival: one unit spent, the route recorded, the
        arrival connected. */
    method JoinFirst(nb: Building, t: Building)
      requires Valid() && nb in buildings
      modifies this`resources, this`routes, nb`connected
      ensures Valid()
      ensures Model() == Connect.Joined(old(Model()), nb, t)
    {
      BuildTube(nb, t);
      MarkConnected(nb);
    }

    /** The redundancy branch: with 1000 left, search again and add a tube to a
        different target within budget. */
    method SecondConnection(nb: Building, first: Candidate) returns (extra: seq<Action>)
      requires Valid() && nb in buildings
      modifies this`resources, this`routes
      ensures Valid()
      ensures Model() == Connect.SecondTube(old(Model()), nb, first).0
      ensures extra == Connect.SecondTube(old(Model()), nb, first).1
    {
      extra := [];
      if resources >= 1000 {
        var second := FindOptimalConnectionPoint(nb);
        Connect.SecondTubeOn(Model(), nb, first, second);
        if second.Some? && second.value.target.id != first.target.id && Affordable(second.value, resources) {
          extra := [Tube(nb.id, second.value.target.id)];
          BuildTube(nb, second.value.target);
        }
      }
    }

    /** One iteration of `connect_new_buildings`: an arrival that is not connected yet
        is joined to the search's best target when the score is within the budget. */
    method ConnectOne(nb: Building) returns (acts: seq<Action>)
      requires Valid() && nb in buildings
      modifies this`resources, this`routes, nb`connected
      ensures Valid()
      ensures Model() == Connect.ConnectStep(old(Model()), nb).0
      ensures acts == Connect.ConnectStep(old(Model()), nb).1
    {
      acts := [];
      if !nb.connected {
        var found := FindOptimalConnectionPoint(nb);
        if found.Some? && Affordable(found.value, resources) {
          var t := found.value.target;
          JoinFirst(nb, t);
          var extra := SecondConnection(nb, found.value);
          acts := [Tube(nb.id, t.id)] + extra;
        }
      }
    }

    /** The first arrival of `rest` through `ConnectOne`, its actions appended to
        `done`, stated against the rest of the pass. */
    method ConnectHead(rest: seq<Building>, done: seq<Action>) returns (done2: seq<Action>)
      requires Valid() && rest != [] && rest[0] in buildings
      modifies this`resources, this`routes, buildings`connected
      ensures Valid()
      ensures Connect.ConnectFrom(Model(), rest[1..]).0 == Connect.ConnectFrom(old(Model()), rest).0
      ensures done2 + Connect.ConnectFrom(Model(), rest[1..]).1 == done + Connect.ConnectFrom(old(Model()), rest).1
    {
      Connect.ConnectFromCons(Model(), rest);
      var more := ConnectOne(rest[0]);
      ghost var tail := Connect.ConnectFrom(Model(), rest[1..]).1;
      ActionsAssoc(done, more, tail);
      done2 := done + more;
    }

    /** `connect_new_buildings`: the arrivals, pads first, each offered to
        `ConnectOne`. */
    method ConnectNewBuildings(news: seq<Building>) returns (actions: seq<Action>)
      requires Valid() && forall b :: b in news ==> b in buildings
      modifies this`resources, this`routes, buildings`connected
      ensures Valid()
      ensures Model() == Connect.ConnectNew(old(Model()), news).0
      ensures actions == Connect.ConnectNew(old(Model()), news).1
    {
      var sorted := PadsFirst(news);
      ghost var goal := Connect.ConnectFrom(Model(), sorted);
      actions := [];
      var rest := sorted;
      while rest != []
        invariant Valid()
        invariant forall b :: b in rest ==> b in buildings
        invariant Connect.ConnectFrom(Model(), rest).0 == goal.0
        invariant actions + Connect.ConnectFrom(Model(), rest).1 == goal.1
        decreases |rest|
      {
        actions := ConnectHead(rest, actions);
        rest := rest[1..];
      }
    }

    /** `game.pods.add(id)`. */
    method AddPod(id: int)
      modifies this`pods
      ensures Model() == old(Model()).(pods := old(pods) + {id})
    {
      pods := pods + {id};
    }

    /** `game.pod_routes.add(tuple(sorted([id1, id2])))`. */
    method AddPodRoute(id1: int, id2: int)
      requires Valid()
      modifies this`podRoutes
      ensures Valid()
      ensures Model() == old(Model()).(podRoutes := Add(old(podRoutes), id1, id2))
    {
      AddCanonical(podRoutes, id1, id2);
      podRoutes := Add(podRoutes, id1, id2);
    }

    /** A pod on the tube from `pad` to `m`: 1000 spent, the id recorded, the pair
        recorded as a pod route. */
    method LaunchPod(pad: Building, m: Building, id: int)
      requires Valid()
      modifies this`resources, this`pods, this`podRoutes
      ensures Valid()
      ensures Model() == old(Model()).(resources := old(resources) - 1000, pods := old(pods) + {id},
                                       podRoutes := Add(old(podRoutes), pad.id, m.id))
    {
      Spend(1000);
      AddPod(id);
      AddPodRoute(pad.id, m.id);
    }

    /** The tube half of `LinkPad`: a missing tube whose length is within the budget
        is built and costs its length. */
    method TubeIfMissing(pad: Building, m: Building) returns (acts: seq<Action>)
      requires Valid() && pad in buildings && m in buildings
      modifies this`resources, this`routes
      ensures Valid()
      ensures var built := !Has(old(routes), pad.id, m.id) && old(resources) >= Dist(pad, m);
              && Model() == (if built then old(Model()).(resources := old(resources) - Dist(pad, m),
                                                          routes := Add(old(routes), pad.id, m.id))
                             else old(Model()))
              && acts == (if built then [Tube(pad.id, m.id)] else [])
    {
      acts := [];
      Lookup(pad);
      Lookup(m);
      if !HasRoute(pad.id, m.id) && resources >= CalculateDistance(pad.id, m.id) {
        var distance := CalculateDistance(pad.id, m.id);
        if resources >= distance {
          acts := [Tube(pad.id, m.id)];
          Spend(distance);
          AddRoute(pad.id, m.id);
        }
      }
    }

    /** The pod half of `LinkPad`: a tube with no pod gets one, with the next id, when
        1000 remain. */
    method PodIfFree(pad: Building, m: Building, next: int) returns (next2: int, acts: seq<Action>)
      requires Valid()
      modifies this`resources, this`pods, this`podRoutes
      ensures Valid()
      ensures Model() == Pods.PodOnly(old(Model()), next, pad, m).net
      ensures next2 == Pods.PodOnly(old(Model()), next, pad, m).next
      ensures acts == Pods.PodOnly(old(Model()), next, pad, m).acts
    {
      next2, acts := next, [];
      if HasRoute(pad.id, m.id) && !HasPodRoute(pad.id, m.id) && resources >= 1000 {
        acts := [Pod(next, pad.id, m.id, pad.id)];
        LaunchPod(pad, m, next);
        next2 := next + 1;
      }
    }

    /** One iteration of the inner loop of `process_building_connections`: skip unless
        both ends are connected; build a missing tube whose length is affordable; put a
        pod with the next id on a tube that has none when 1000 remain. */
    method LinkPad(pad: Building, m: Building, next: int) returns (next2: int, acts: seq<Action>)
      requires Valid() && pad in buildings && m in buildings
      modifies this`resources, this`routes, this`pods, this`podRoutes
      ensures Valid()
      ensures Model() == Pods.Link(old(Model()), next, pad, m).net
      ensures next2 == Pods.Link(old(Model()), next, pad, m).next
      ensures acts == Pods.Link(old(Model()), next, pad, m).acts
    {
      next2, acts := next, [];
      if !(pad.connected && m.connected) {
        return;
      }
      var tube := TubeIfMissing(pad, m);
      var pod;
      next2, pod := PodIfFree(pad, m, next);
      acts := tube + pod;
    }

    /** The first module of `rest` through `LinkPad`, stated against the rest of the
        loop over one type's modules. */
    method ModulesHead(pad: Building, rest: seq<Building>, next: int, done: seq<Action>)
      returns (next2: int, done2: seq<Action>)
      requires Valid() && pad in buildings && rest != [] && rest[0] in buildings
      modifies this`resources, this`routes, this`pods, this`podRoutes
      ensures Valid()
      ensures Pods.OverModules(Model(), next2, pad, rest[1..]).net == Pods.OverModules(old(Model()), next, pad, rest).net
      ensures Pods.OverModules(Model(), next2, pad, rest[1..]).next == Pods.OverModules(old(Model()), next, pad, rest).next
      ensures done2 + Pods.OverModules(Model(), next2, pad, rest[1..]).acts == done + Pods.OverModules(old(Model()), next, pad, rest).acts
    {
      var acts;
      next2, acts := LinkPad(pad, rest[0], next);
      ghost var tail := Pods.OverModules(Model(), next2, pad, rest[1..]).acts;
      ActionsAssoc(done, acts, tail);
      done2 := done + acts;
    }

    /** `for module in game.modules[astronaut_type]`. */
    method LinkModules(pad: Building, ms: seq<Building>, next: int) returns (next2: int, acts: seq<Action>)
      requires Valid() && pad in buildings && forall m :: m in ms ==> m in buildings
      modifies this`resources, this`routes, this`pods, this`podRoutes
      ensures Valid()
      ensures Model() == Pods.OverModules(old(Model()), next, pad, ms).net
      ensures next2 == Pods.OverModules(old(Model()), next, pad, ms).next
      ensures acts == Pods.OverModules(old(Model()), next, pad, ms).acts
    {
      ghost var goal := Pods.OverModules(Model(), next, pad, ms);
      next2, acts := next, [];
      var rest := ms;
      while rest != []
        invariant Valid()
        invariant forall m :: m in rest ==> m in buildings
        invariant Pods.OverModules(Model(), next2, pad, rest).net == goal.net
        invariant Pods.OverModules(Model(), next2, pad, rest).next == goal.next
        invariant acts + Pods.OverModules(Model(), next2, pad, rest).acts == goal.acts
        decreases |rest|
      {
        next2, acts := ModulesHead(pad, rest, next2, acts);
        rest := rest[1..];
      }
    }

    /** The modules of the first type of `rest` through `LinkModules`, stated against
        the rest of the loop over the pad's types. */
    method TypesHead(pad: Building, rest: seq<int>, next: int, done: seq<Action>)
      returns (next2: int, done2: seq<Action>)
      requires Valid() && pad in buildings && rest != []
      modifies this`resources, this`routes, this`pods, this`podRoutes
      ensures Valid()
      ensures Pods.OverTypes(Model(), next2, pad, rest[1..]).net == Pods.OverTypes(old(Model()), next, pad, rest).net
      ensures Pods.OverTypes(Model(), next2, pad, rest[1..]).next == Pods.OverTypes(old(Model()), next, pad, rest).next
      ensures done2 + Pods.OverTypes(Model(), next2, pad, rest[1..]).acts == done + Pods.OverTypes(old(Model()), next, pad, rest).acts
    {
      var ms := ModulesIn(modules, rest[0]);
      assert ms == ModulesOf(buildings, rest[0]);
      var acts;
      next2, acts := LinkModules(pad, ms, next);
      ghost var tail := Pods.OverTypes(Model(), next2, pad, rest[1..]).acts;
      ActionsAssoc(done, acts, tail);
      done2 := done + acts;
    }

    /** `process_building_connections`: every module of every type the pad serves,
        types in the pad's order. */
    method ProcessBuildingConnections(pad: Building, next: int) returns (next2: int, acts: seq<Action>)
      requires Valid() && pad in buildings
      modifies this`resources, this`routes, this`pods, this`podRoutes
      ensures Valid()
      ensures Model() == Pods.ProcessPad(old(Model()), next, pad).net
      ensures next2 == Pods.ProcessPad(old(Model()), next, pad).next
      ensures acts == Pods.ProcessPad(old(Model()), next, pad).acts
    {
      ghost var goal := Pods.OverTypes(Model(), next, pad, pad.astronauts);
      next2, acts := next, [];
      var rest := pad.astronauts;
      while rest != []
        invariant Valid()
        invariant Pods.OverTypes(Model(), next2, pad, rest).net == goal.net
        invariant Pods.OverTypes(Model(), next2, pad, rest).next == goal.next
        invariant acts + Pods.OverTypes(Model(), next2, pad, rest).acts == goal.acts
        decreases |rest|
      {
        next2, acts := TypesHead(pad, rest, next2, acts);
        rest := rest[1..];
      }
    }

    /** The first arrival of `rest`, processed when it is a pad, stated against the
        rest of the first loop of `setup_routes_and_pods`. */
    method NewPadsHead(rest: seq<Building>, next: int, done: seq<Action>)
      returns (next2: int, done2: seq<Action>)
      requires Valid() && rest != [] && rest[0] in buildings
      modifies this`resources, this`routes, this`pods, this`podRoutes
      ensures Valid()
      ensures Pods.OverNewPads(Model(), next2, rest[1..]).net == Pods.OverNewPads(old(Model()), next, rest).net
      ensures Pods.OverNewPads(Model(), next2, rest[1..]).next == Pods.OverNewPads(old(Model()), next, rest).next
      ensures done2 + Pods.OverNewPads(Model(), next2, rest[1..]).acts == done + Pods.OverNewPads(old(Model()), next, rest).acts
    {
      Pods.OverNewPadsCons(Model(), next, rest);
      next2, done2 := next, done;
      if rest[0].kind == 0 {
        var acts;
        next2, acts := ProcessBuildingConnections(rest[0], next);
        ghost var tail := Pods.OverNewPads(Model(), next2, rest[1..]).acts;
        ActionsAssoc(done, acts, tail);
        done2 := done + acts;
      }
    }

    /** The first pad of `rest`, processed unless it arrived this turn, stated against
        the rest of the second loop of `setup_routes_and_pods`. */
    method OldPadsHead(rest: seq<Building>, news: seq<Building>, next: int, done: seq<Action>)
      returns (next2: int, done2: seq<Action>)
      requires Valid() && rest != [] && rest[0] in buildings
      modifies this`resources, this`routes, this`pods, this`podRoutes
      ensures Valid()
      ensures Pods.OverOldPads(Model(), next2, rest[1..], news).net == Pods.OverOldPads(old(Model()), next, rest, news).net
      ensures Pods.OverOldPads(Model(), next2, rest[1..], news).next == Pods.OverOldPads(old(Model()), next, rest, news).next
      ensures done2 + Pods.OverOldPads(Model(), next2, rest[1..], news).acts == done + Pods.OverOldPads(old(Model()), next, rest, news).acts
    {
      Pods.OverOldPadsCons(Model(), next, rest, news);
      next2, done2 := next, done;
      if rest[0] !in news {
        var acts;
        next2, acts := ProcessBuildingConnections(rest[0], next);
        ghost var tail := Pods.OverOldPads(Model(), next2, rest[1..], news).acts;
        ActionsAssoc(done, acts, tail);
        done2 := done + acts;
      }
    }

    /** The first loop of `setup_routes_and_pods`: the arrivals that are pads. */
    method LinkNewPads(news: seq<Building>, next: int) returns (next2: int, acts: seq<Action>)
      requires Valid() && forall b :: b in news ==> b in buildings
      modifies this`resources, this`routes, this`pods, this`podRoutes
      ensures Valid()
      ensures Model() == Pods.OverNewPads(old(Model()), next, news).net
      ensures next2 == Pods.OverNewPads(old(Model()), next, news).next
      ensures acts == Pods.OverNewPads(old(Model()), next, news).acts
    {
      ghost var goal := Pods.OverNewPads(Model(), next, news);
      next2, acts := next, [];
      var rest := news;
      while rest != []
        invariant Valid()
        invariant forall b :: b in rest ==> b in buildings
        invariant Pods.OverNewPads(Model(), next2, rest).net == goal.net
        invariant Pods.OverNewPads(Model(), next2, rest).next == goal.next
        invariant acts + Pods.OverNewPads(Model(), next2, rest).acts == goal.acts
        decreases |rest|
      {
        next2, acts := NewPadsHead(rest, next2, acts);
        rest := rest[1..];
      }
    }

    /** The second loop of `setup_routes_and_pods`: the `landing_pads` index, skipping
        the arrivals. */
    method LinkOldPads(news: seq<Building>, next: int) returns (next2: int, acts: seq<Action>)
      requires Valid()
      modifies this`resources, this`routes, this`pods, this`podRoutes
      ensures Valid()
      ensures Model() == Pods.OverOldPads(old(Model()), next, Pads(old(buildings)), news).net
      ensures next2 == Pods.OverOldPads(old(Model()), next, Pads(old(buildings)), news).next
      ensures acts == Pods.OverOldPads(old(Model()), next, Pads(old(buildings)), news).acts
    {
      ghost var goal := Pods.OverOldPads(Model(), next, landingPads, news);
      next2, acts := next, [];
      var rest := landingPads;
      while rest != []
        invariant Valid()
        invariant forall b :: b in rest ==> b in buildings
        invariant Pods.OverOldPads(Model(), next2, rest, news).net == goal.net
        invariant Pods.OverOldPads(Model(), next2, rest, news).next == goal.next
        invariant acts + Pods.OverOldPads(Model(), next2, rest, news).acts == goal.acts
        decreases |rest|
      {
        next2, acts := OldPadsHead(rest, news, next2, acts);
        rest := rest[1..];
      }
    }

    /** `setup_routes_and_pods`: pod ids continue from one past the largest known pod;
        the arriving pads first, then, when at least 1000 remain, the older pads. */
    method SetupRoutesAndPods(news: seq<Building>) returns (actions: seq<Action>)
      requires Valid() && forall b :: b in news ==> b in buildings
      modifies this`resources, this`routes, this`pods, this`podRoutes
      ensures Valid()
      ensures Model() == Pods.RoutesAndPods(old(Model()), news).net
      ensures actions == Pods.RoutesAndPods(old(Model()), news).acts
    {
      var next := Pods.NextPodId(pods);
      next, actions := LinkNewPads(news, next);
      if resources >= 1000 {
        var more;
        next, more := LinkOldPads(news, next);
        actions := actions + more;
      }
    }

    /** The generator of `setup_teleporters`: the first module of `ms` that is not an
        exit and has no teleporter to `pad`. */
    method FirstFreeExit(pad: Building, ms: seq<Building>) returns (r: Option<Building>)
      requires forall m :: m in ms ==> m in buildings
      ensures r == Teleport.FreeExit(Model(), pad, ms)
    {
      var rest := ms;
      while rest != []
        invariant forall m :: m in rest ==> m in buildings
        invariant Teleport.FreeExit(Model(), pad, rest) == Teleport.FreeExit(Model(), pad, ms)
        decreases |rest|
      {
        var m := rest[0];
        if !m.exit && !HasTeleport(pad.id, m.id) {
          assert m !in Model().exits;
          return Some(m);
        }
        assert m in Model().exits || Has(teleports, pad.id, m.id);
        rest := rest[1..];
      }
      return None;
    }

    /** `building.entrance = True`. */
    method MarkEntrance(b: Building)
      requires b in buildings
      modifies b`entrance
      ensures Model() == old(Model()).(entrances := old(Model()).entrances + {b})
    {
      b.entrance := true;
      assert forall c :: c in buildings && c != b ==> c.entrance == old(c.entrance);
      assert EntrancesOf(buildings) == old(EntrancesOf(buildings)) + {b};
    }

    /** `module.exit = True`. */
    method MarkExit(m: Building)
      requires m in buildings
      modifies m`exit
      ensures Model() == old(Model()).(exits := old(Model()).exits + {m})
    {
      m.exit := true;
      assert forall c :: c in buildings && c != m ==> c.exit == old(c.exit);
      assert ExitsOf(buildings) == old(ExitsOf(buildings)) + {m};
    }

    /** A teleporter from `pad` to `m`: `m` becomes an exit, 5000 spent, the pair
        recorded. */
    method PlaceTeleporter(pad: Building, m: Building)
      requires Valid() && m in buildings
      modifies m`exit, this`resources, this`teleports
      ensures Valid()
      ensures Model() == Teleport.Placed(old(Model()), pad, m)
    {
      MarkExit(m);
      Spend(5000);
      AddTeleport(pad.id, m.id);
    }

    /** One iteration of the loop over a new entrance's types: the first free module
        of type `t` gets a teleporter from `pad` when 5000 remain. */
    method TeleportType(pad: Building, t: int) returns (more: seq<Action>)
      requires Valid()
      modifies this`resources, this`teleports, buildings`exit
      ensures Valid()
      ensures var found := Teleport.FreeExit(old(Model()), pad, ModulesOf(old(buildings), t));
              found.Some? && old(resources) >= 5000 ==>
                Model() == Teleport.Placed(old(Model()), pad, found.value) && more == [Teleport(pad.id, found.value.id)]
      ensures var found := Teleport.FreeExit(old(Model()), pad, ModulesOf(old(buildings), t));
              !(found.Some? && old(resources) >= 5000) ==> Model() == old(Model()) && more == []
    {
      var ms := ModulesIn(modules, t);
      assert ms == ModulesOf(buildings, t);
      var suitable := FirstFreeExit(pad, ms);
      more := [];
      if suitable.Some? && resources >= 5000 {
        PlaceTeleporter(pad, suitable.value);
        more := [Teleport(pad.id, suitable.value.id)];
      }
    }

    /** The first type of `rest` through `TeleportType`, stated against the rest of the
        loop over the pad's types. */
    method TeleportHead(pad: Building, rest: seq<int>, done: seq<Action>) returns (done2: seq<Action>)
      requires Valid() && rest != []
      modifies this`resources, this`teleports, buildings`exit
      ensures Valid()
      ensures Teleport.TeleportTypes(Model(), pad, rest[1..]).0 == Teleport.TeleportTypes(old(Model()), pad, rest).0
      ensures done2 + Teleport.TeleportTypes(Model(), pad, rest[1..]).1 == done + Teleport.TeleportTypes(old(Model()), pad, rest).1
    {
      ghost var net := Model();
      ghost var found := Teleport.FreeExit(net, pad, ModulesOf(net.order, rest[0]));
      Teleport.TeleportTypesCons(net, pad, rest, found);
      var more := TeleportType(pad, rest[0]);
      ghost var tail := Teleport.TeleportTypes(Model(), pad, rest[1..]).1;
      ActionsAssoc(done, more, tail);
      done2 := done + more;
    }

    /** The loop over the types a new entrance serves. */
    method PlaceTeleporters(pad: Building) returns (acts: seq<Action>)
      requires Valid()
      modifies this`resources, this`teleports, buildings`exit
      ensures Valid()
      ensures Model() == Teleport.TeleportTypes(old(Model()), pad, pad.astronauts).0
      ensures acts == Teleport.TeleportTypes(old(Model()), pad, pad.astronauts).1
    {
      ghost var goal := Teleport.TeleportTypes(Model(), pad, pad.astronauts);
      acts := [];
      var rest := pad.astronauts;
      while rest != []
        invariant Valid()
        invariant Teleport.TeleportTypes(Model(), pad, rest).0 == goal.0
        invariant acts + Teleport.TeleportTypes(Model(), pad, rest).1 == goal.1
        decreases |rest|
      {
        acts := TeleportHead(pad, rest, acts);
        rest := rest[1..];
      }
    }

    /** One iteration of `setup_teleporters`: a pad that is not yet an entrance
        becomes one and its served types are visited. */
    method VisitArrival(b: Building) returns (acts: seq<Action>)
      requires Valid() && b in buildings
      modifies this`resources, this`teleports, buildings`entrance, buildings`exit
      ensures Valid()
      ensures Model() == Teleport.Visit(old(Model()), b).0
      ensures acts == Teleport.Visit(old(Model()), b).1
    {
      acts := [];
      if b.kind == 0 && !b.entrance {
        MarkEntrance(b);
        acts := PlaceTeleporters(b);
      }
    }

    /** The first arrival of `rest` through `VisitArrival`, stated against the rest of
        the pass. */
    method VisitHead(rest: seq<Building>, done: seq<Action>) returns (done2: seq<Action>)
      requires Valid() && rest != [] && rest[0] in buildings
      modifies this`resources, this`teleports, buildings`entrance, buildings`exit
      ensures Valid()
      ensures Teleport.TeleportFrom(Model(), rest[1..]).0 == Teleport.TeleportFrom(old(Model()), rest).0
      ensures done2 + Teleport.TeleportFrom(Model(), rest[1..]).1 == done + Teleport.TeleportFrom(old(Model()), rest).1
    {
      Teleport.TeleportFromCons(Model(), rest);
      var more := VisitArrival(rest[0]);
      ghost var tail := Teleport.TeleportFrom(Model(), rest[1..]).1;
      ActionsAssoc(done, more, tail);
      done2 := done + more;
    }

    /** `setup_teleporters`: the arrivals in arrival order. */
    method SetupTeleporters(news: seq<Building>) returns (actions: seq<Action>)
      requires Valid() && forall b :: b in news ==> b in buildings
      modifies this`resources, this`teleports, buildings`entrance, buildings`exit
      ensures Valid()
      ensures Model() == Teleport.Teleporters(old(Model()), news).0
      ensures actions == Teleport.Teleporters(old(Model()), news).1
    {
      ghost var goal := Teleport.TeleportFrom(Model(), news);
      actions := [];
      var rest := news;
      while rest != []
        invariant Valid()
        invariant forall b :: b in rest ==> b in buildings
        invariant Teleport.TeleportFrom(Model(), rest).0 == goal.0
        invariant actions + Teleport.TeleportFrom(Model(), rest).1 == goal.1
        decreases |rest|
      {
        actions := VisitHead(rest, actions);
        rest := rest[1..];
      }
    }

    /** The first module of `rest` through `PodIfFree`, stated against the rest of the
        innermost loop of `setup_pods`. */
    method PodModulesHead(pad: Building, rest: seq<Building>, next: int, done: seq<Action>)
      returns (next2: int, done2: seq<Action>)
      requires Valid() && rest != []
      modifies this`resources, this`pods, this`podRoutes
      ensures Valid()
      ensures Pods.PodsOverModules(Model(), next2, pad, rest[1..]).net == Pods.PodsOverModules(old(Model()), next, pad, rest).net
      ensures Pods.PodsOverModules(Model(), next2, pad, rest[1..]).next == Pods.PodsOverModules(old(Model()), next, pad, rest).next
      ensures done2 + Pods.PodsOverModules(Model(), next2, pad, rest[1..]).acts == done + Pods.PodsOverModules(old(Model()), next, pad, rest).acts
    {
      var acts;
      next2, acts := PodIfFree(pad, rest[0], next);
      ghost var tail := Pods.PodsOverModules(Model(), next2, pad, rest[1..]).acts;
      ActionsAssoc(done, acts, tail);
      done2 := done + acts;
    }

    /** The innermost loop of `setup_pods`: the modules of one type. */
    method PodModules(pad: Building, ms: seq<Building>, next: int) returns (next2: int, acts: seq<Action>)
      requires Valid()
      modifies this`resources, this`pods, this`podRoutes
      ensures Valid()
      ensures Model() == Pods.PodsOverModules(old(Model()), next, pad, ms).net
      ensures next2 == Pods.PodsOverModules(old(Model()), next, pad, ms).next
      ensures acts == Pods.PodsOverModules(old(Model()), next, pad, ms).acts
    {
      ghost var goal := Pods.PodsOverModules(Model(), next, pad, ms);
      next2, acts := next, [];
      var rest := ms;
      while rest != []
        invariant Valid()
        invariant Pods.PodsOverModules(Model(), next2, pad, rest).net == goal.net
        invariant Pods.PodsOverModules(Model(), next2, pad, rest).next == goal.next
        invariant acts + Pods.PodsOverModules(Model(), next2, pad, rest).acts == goal.acts
        decreases |rest|
      {
        next2, acts := PodModulesHead(pad, rest, next2, acts);
        rest := rest[1..];
      }
    }

    /** The modules of the first type of `rest` through `PodModules`, stated against the
        rest of the loop over a pad's types in `setup_pods`. */
    method PodTypesHead(pad: Building, rest: seq<int>, next: int, done: seq<Action>)
      returns (next2: int, done2: seq<Action>)
      requires Valid() && rest != []
      modifies this`resources, this`pods, this`podRoutes
      ensures Valid()
      ensures Pods.PodsOverTypes(Model(), next2, pad, rest[1..]).net == Pods.PodsOverTypes(old(Model()), next, pad, rest).net
      ensures Pods.PodsOverTypes(Model(), next2, pad, rest[1..]).next == Pods.PodsOverTypes(old(Model()), next, pad, rest).next
      ensures done2 + Pods.PodsOverTypes(Model(), next2, pad, rest[1..]).acts == done + Pods.PodsOverTypes(old(Model()), next, pad, rest).acts
    {
      var ms := ModulesIn(modules, rest[0]);
      assert ms == ModulesOf(buildings, rest[0]);
      var acts;
      next2, acts := PodModules(pad, ms, next);
      ghost var tail := Pods.PodsOverTypes(Model(), next2, pad, rest[1..]).acts;
      ActionsAssoc(done, acts, tail);
      done2 := done + acts;
    }

    /** The loop over a pad's types in `setup_pods`. */
    method PodTypes(pad: Building, next: int) returns (next2: int, acts: seq<Action>)
      requires Valid()
      modifies this`resources, this`pods, this`podRoutes
      ensures Valid()
      ensures Model() == Pods.PodsOverTypes(old(Model()), next, pad, pad.astronauts).net
      ensures next2 == Pods.PodsOverTypes(old(Model()), next, pad, pad.astronauts).next
      ensures acts == Pods.PodsOverTypes(old(Model()), next, pad, pad.astronauts).acts
    {
      ghost var goal := Pods.PodsOverTypes(Model(), next, pad, pad.astronauts);
      next2, acts := next, [];
      var rest := pad.astronauts;
      while rest != []
        invariant Valid()
        invariant Pods.PodsOverTypes(Model(), next2, pad, rest).net == goal.net
        invariant Pods.PodsOverTypes(Model(), next2, pad, rest).next == goal.next
        invariant acts + Pods.PodsOverTypes(Model(), next2, pad, rest).acts == goal.acts
        decreases |rest|
      {
        next2, acts := PodTypesHead(pad, rest, next2, acts);
        rest := rest[1..];
      }
    }

    /** The first arrival of `rest`, processed when it is a pad, stated against the
        rest of `setup_pods`. */
    method PodNewsHead(rest: seq<Building>, next: int, done: seq<Action>)
      returns (next2: int, done2: seq<Action>)
      requires Valid() && rest != []
      modifies this`resources, this`pods, this`podRoutes
      ensures Valid()
      ensures Pods.PodsOverNews(Model(), next2, rest[1..]).net == Pods.PodsOverNews(old(Model()), next, rest).net
      ensures Pods.PodsOverNews(Model(), next2, rest[1..]).next == Pods.PodsOverNews(old(Model()), next, rest).next
      ensures done2 + Pods.PodsOverNews(Model(), next2, rest[1..]).acts == done + Pods.PodsOverNews(old(Model()), next, rest).acts
    {
      Pods.PodsOverNewsCons(Model(), next, rest);
      next2, done2 := next, done;
      if rest[0].kind == 0 {
        var acts;
        next2, acts := PodTypes(rest[0], next);
        ghost var tail := Pods.PodsOverNews(Model(), next2, rest[1..]).acts;
        ActionsAssoc(done, acts, tail);
        done2 := done + acts;
      }
    }

    /** `setup_pods`: pod ids continue from one past the largest known pod; each
        arriving pad, for each type it serves, puts a pod on every tube to a module of
        that type that has a route and no pod, while 1000 remain. */
    method SetupPods(news: seq<Building>) returns (actions: seq<Action>)
      requires Valid()
      modifies this`resources, this`pods, this`podRoutes
      ensures Valid()
      ensures Model() == Pods.SetupPods(old(Model()), news).net
      ensures actions == Pods.SetupPods(old(Model()), news).acts
    {
      var next := Pods.NextPodId(pods);
      ghost var goal := Pods.PodsOverNews(Model(), next, news);
      actions := [];
      var rest := news;
      while rest != []
        invariant Valid()
        invariant Pods.PodsOverNews(Model(), next, rest).net == goal.net
        invariant Pods.PodsOverNews(Model(), next, rest).next == goal.next
        invariant actions + Pods.PodsOverNews(Model(), next, rest).acts == goal.acts
        decreases |rest|
      {
        next, actions := PodNewsHead(rest, next, actions);
        rest := rest[1..];
      }
    }

    /** `game.resources = int(input())`. */
    method SetBudget(budget: int)
      modifies this`resources
      ensures Model() == old(Model()).(resources := budget)
    {
      resources := budget;
    }

    /** `game.routes.clear()` and one `add_route` per input line, collected before
        they replace the old routes; the capacity is not read. */
    method LoadRoutes(links: seq<Pair>)
      requires Valid()
      modifies this`routes
      ensures Valid()
      ensures Model() == old(Model()).(routes := Table(links))
    {
      routes := CollectRoutes(links);
    }

    /** `game.pods.clear()` and one `pods.add` per input line. */
    method LoadPods(podIds: seq<int>)
      modifies this`pods
      ensures Model() == old(Model()).(pods := (set p | p in podIds))
    {
      pods := {};
      for i := 0 to |podIds|
        invariant pods == set p | p in podIds[..i]
      {
        assert forall p :: p in podIds[..i + 1] <==> p in podIds[..i] || p == podIds[i];
        pods := pods + {podIds[i]};
      }
      assert podIds[..|podIds|] == podIds;
    }

    /** A new building registered under its id, with every flag clear, changes the
        state value only by joining the insertion order. */
    method Register(a: Arrival) returns (b: Building)
      requires Valid() && a.id !in index
      modifies this`buildings, this`index, this`landingPads, this`modules
      ensures fresh(b) && MadeFrom(b, a)
      ensures Valid()
      ensures buildings == old(buildings) + [b] && index == old(index)[a.id := b]
      ensures Model() == old(Model()).(order := buildings)
    {
      b := new Building(a.id, a.kind, a.x, a.y, if a.kind == 0 then a.served else []);
      ghost var prev := buildings;
      assert Model() == old(Model());
      AddBuilding(b);
      FlagsSnoc(prev, b);
    }

    /** Partway through the building lines: the arrivals `news` are registered after
        the buildings `b0` of the state `m0`, which is otherwise as it was. */
    ghost predicate Loaded(m0: Net, b0: seq<Building>, news: seq<Building>)
      reads this, buildings
    {
      Valid() && buildings == b0 + news && Model() == m0.(order := buildings)
    }

    /** The next building line: the building is made, registered, and appended to the
        arrivals so far. */
    method RegisterNext(a: Arrival, ghost m0: Net, ghost b0: seq<Building>, news: seq<Building>)
      returns (news2: seq<Building>)
      requires Loaded(m0, b0, news) && a.id !in index
      modifies this`buildings, this`index, this`landingPads, this`modules
      ensures Loaded(m0, b0, news2)
      ensures |news2| == |news| + 1 && news2 == news + [news2[|news|]]
      ensures fresh(news2[|news|]) && MadeFrom(news2[|news|], a)
    {
      var b := Register(a);
      news2 := news + [b];
      assert b0 + news2 == (b0 + news) + [b];
    }

    /** The building lines of a turn: each becomes a `Building`, is registered, and
        joins the turn's arrivals. */
    method LoadArrivals(arrivals: seq<Arrival>) returns (news: seq<Building>)
      requires Valid() && FreshIds(index, arrivals)
      modifies this`buildings, this`index, this`landingPads, this`modules
      ensures Valid()
      ensures |news| == |arrivals| && MadeFromAll(news, arrivals)
      ensures forall b :: b in news ==> fresh(b)
      ensures buildings == old(buildings) + news
      ensures Model() == old(Model()).(order := buildings)
    {
      ghost var m0, b0, i0 := Model(), buildings, index;
      news := [];
      for i := 0 to |arrivals|
        invariant |news| == i && Loaded(m0, b0, news) && MadeFromAll(news, arrivals)
        invariant forall b :: b in news ==> fresh(b)
      {
        NextIdFree(i0, b0, index, news, arrivals);
        ghost var prev := news;
        news := RegisterNext(arrivals[i], m0, b0, news);
        MadeFromSnoc(prev, arrivals, news[i]);
      }
    }

    /** The passes of one turn over the arrivals `news`: refresh connectivity, then
        connect, then routes and pods, then teleporters; their actions concatenated. */
    method RunPasses(news: seq<Building>) returns (actions: seq<Action>)
      requires Valid() && forall b :: b in news ==> b in buildings
      modifies this`resources, this`routes, this`pods, this`podRoutes, this`teleports
      modifies buildings`connected, buildings`entrance, buildings`exit
      ensures Valid() && buildings == old(buildings)
      ensures Model() == Turn.TurnSpec(old(Model()), news).0
      ensures actions == Turn.TurnSpec(old(Model()), news).1
    {
      ghost var net := Model();
      InitializeNetworkState();
      ghost var n0 := Model();
      var a1 := ConnectNewBuildings(news);
      ghost var n1 := Model();
      var a2 := SetupRoutesAndPods(news);
      ghost var r2 := Pods.RoutesAndPods(n1, news);
      var a3 := SetupTeleporters(news);
      Turn.TurnSteps(net, news, n0, n1, a1, r2, Model(), a3);
      actions := a1 + a2 + a3;
    }

    /** The input half of one turn of `main`: the budget, the routes (replacing the
        old ones), the pods (likewise) and the new buildings. The pod routes and the
        teleporters carry over from earlier turns. */
    method ReadTurn(budget: int, links: seq<Pair>, podIds: seq<int>, arrivals: seq<Arrival>)
      returns (news: seq<Building>)
      requires Valid() && FreshIds(index, arrivals)
      modifies this`resources, this`routes, this`pods
      modifies this`buildings, this`index, this`landingPads, this`modules
      ensures Valid()
      ensures |news| == |arrivals| && MadeFromAll(news, arrivals)
      ensures forall b :: b in news ==> fresh(b)
      ensures buildings == old(buildings) + news
      ensures Model() == TurnInput(old(Model()), budget, links, podIds, news)
    {
      SetBudget(budget);
      LoadRoutes(links);
      LoadPods(podIds);
      news := LoadArrivals(arrivals);
    }

    /** One turn of `main`: read the input into the state, then run the passes. */
    method PlayTurn(budget: int, links: seq<Pair>, podIds: seq<int>, arrivals: seq<Arrival>)
      returns (actions: seq<Action>, news: seq<Building>)
      requires Valid() && FreshIds(index, arrivals)
      modifies this, buildings`connected, buildings`entrance, buildings`exit
      ensures Valid()
      ensures |news| == |arrivals| && MadeFromAll(news, arrivals)
      ensures forall b :: b in news ==> fresh(b)
      ensures buildings == old(buildings) + news
      ensures Model() == Turn.TurnSpec(TurnInput(old(Model()), budget, links, podIds, news), news).0
      ensures actions == Turn.TurnSpec(TurnInput(old(Model()), budget, links, podIds, news), news).1
    {
      news := ReadTurn(budget, links, podIds, arrivals);
      assert forall b :: b in buildings ==> b in old(buildings) || fresh(b);
      actions := RunPasses(news);
    }
  }
}
