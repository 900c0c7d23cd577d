/** The network model: building records, the actions the engine emits, and `Net`, the
    value of the whole engine state at one instant. The per-kind indexes
    (`landing_pads`, `modules`) and the connectivity refresh are defined here on that
    value; `Game.GameState` holds the same state in mutable fields. */
module Network {
  import opened Pairs
  import Geometry

  datatype Option<T> = None | Some(value: T)

  /** A building. Its identity, kind, position and served astronaut types never change;
      the three flags are set in place by the passes, through every alias of the
      object (the id-keyed dict, the per-kind indexes and the turn's arrival list). */
  class Building {
    const id: int
    /** 0 for a landing pad, otherwise the module's type. */
    const kind: int
    const x: int
    const y: int
    /** The module types a landing pad serves, in input order; empty for a module. */
    const astronauts: seq<int>
    var exit: bool
    var entrance: bool
    var connected: bool

    constructor (id: int, kind: int, x: int, y: int, astronauts: seq<int>)
      ensures this.id == id && this.kind == kind && this.x == x && this.y == y
      ensures this.astronauts == astronauts
      ensures !exit && !entrance && !connected
    {
      this.id := id;
      this.kind := kind;
      this.x := x;
      this.y := y;
      this.astronauts := astronauts;
      exit := false;
      entrance := false;
      connected := false;
    }
  }

  /** The emitted actions: `TUBE a b`, `POD id a b a`, `TELEPORT pad module`. */
  datatype Action =
    | Tube(a: int, b: int)
    | Pod(podId: int, a: int, b: int, back: int)
    | Teleport(entrance: int, exit: int)

  /** Appending action lists is associative. */
  lemma ActionsAssoc(a: seq<Action>, b: seq<Action>, c: seq<Action>)
    ensures a + (b + c) == (a + b) + c
  {
  }

  /** The engine state as a value. `order` is the `buildings` dict in insertion order;
      the flag sets hold the buildings whose flag is set. */
  datatype Net = Net(
    order: seq<Building>,
    connected: set<Building>,
    entrances: set<Building>,
    exits: set<Building>,
    routes: set<Pair>,
    teleports: set<Pair>,
    podRoutes: set<Pair>,
    pods: set<int>,
    resources: int)

  /** Building ids are never shared. */
  ghost predicate UniqueIds(s: seq<Building>)
  {
    forall i, j :: 0 <= i < j < |s| ==> s[i].id != s[j].id
  }

  /** Flags are only ever set on registered buildings, and ids are unique. */
  ghost predicate WellFormed(net: Net)
  {
    && UniqueIds(net.order)
    && (forall b :: b in net.connected ==> b in net.order)
    && (forall b :: b in net.entrances ==> b in net.order)
    && (forall b :: b in net.exits ==> b in net.order)
  }

  /** No two buildings stand on the same spot. */
  ghost predicate DistinctPositions(s: seq<Building>)
  {
    forall i, j :: 0 <= i < j < |s| ==> s[i].x != s[j].x || s[i].y != s[j].y
  }

  /** In a sequence with unique ids, one id names one building. */
  lemma SameIdSameBuilding(s: seq<Building>, a: Building, b: Building)
    requires UniqueIds(s) && a in s && b in s && a.id == b.id
    ensures a == b
  {
    var i :| 0 <= i < |s| && s[i] == a;
    var j :| 0 <= j < |s| && s[j] == b;
  }

  /** `calculate_distance` between two buildings. */
  function Dist(a: Building, b: Building): nat
  {
    Geometry.Distance(a.x, a.y, b.x, b.y)
  }

  /** Two different buildings of a network without shared positions are at least 10 apart. */
  lemma DistinctBuildingsFar(s: seq<Building>, a: Building, b: Building)
    requires DistinctPositions(s) && a in s && b in s && a != b
    ensures Dist(a, b) >= 10
  {
    var i :| 0 <= i < |s| && s[i] == a;
    var j :| 0 <= j < |s| && s[j] == b;
    if i < j {
      assert s[i].x != s[j].x || s[i].y != s[j].y;
    } else {
      assert s[j].x != s[i].x || s[j].y != s[i].y;
    }
    Geometry.DistanceAtLeastTen(a.x, a.y, b.x, b.y);
  }

  /** The `landing_pads` index: the pads of `s`, in the order of `s`. */
  function Pads(s: seq<Building>): (r: seq<Building>)
    ensures forall b :: b in r ==> b in s && b.kind == 0
    ensures forall b :: b in s && b.kind == 0 ==> b in r
    ensures |r| <= |s|
  {
    if s == [] then []
    else
      var last := s[|s| - 1];
      assert s == s[..|s| - 1] + [last];
      Pads(s[..|s| - 1]) + (if last.kind == 0 then [last] else [])
  }

  /** The modules of `s`, in the order of `s`. */
  function Modules(s: seq<Building>): (r: seq<Building>)
    ensures forall b :: b in r ==> b in s && b.kind != 0
    ensures forall b :: b in s && b.kind != 0 ==> b in r
    ensures |r| <= |s|
  {
    if s == [] then []
    else
      var last := s[|s| - 1];
      assert s == s[..|s| - 1] + [last];
      Modules(s[..|s| - 1]) + (if last.kind != 0 then [last] else [])
  }

  /** The `modules[t]` index: the modules of type t in `s`, in the order of `s`. */
  function ModulesOf(s: seq<Building>, t: int): (r: seq<Building>)
    ensures forall b :: b in r ==> b in s && b.kind != 0 && b.kind == t
    ensures forall b :: b in s && b.kind != 0 && b.kind == t ==> b in r
    ensures |r| <= |s|
  {
    if s == [] then []
    else
      var last := s[|s| - 1];
      assert s == s[..|s| - 1] + [last];
      ModulesOf(s[..|s| - 1], t) + (if last.kind != 0 && last.kind == t then [last] else [])
  }

  /** Registering a building appends it to exactly one index. */
  lemma IndexesAppend(s: seq<Building>, b: Building, t: int)
    ensures Pads(s + [b]) == Pads(s) + (if b.kind == 0 then [b] else [])
    ensures ModulesOf(s + [b], t) == ModulesOf(s, t) + (if b.kind != 0 && b.kind == t then [b] else [])
  {
    assert (s + [b])[..|s|] == s;
  }

  /** The stable sort of the arrivals by `type != 0`: pads first, then modules, each
      group in arrival order. */
  function PadsFirst(news: seq<Building>): (r: seq<Building>)
  {
    Pads(news) + Modules(news)
  }

  lemma PadsModulesCount(s: seq<Building>)
    ensures multiset(Pads(s)) + multiset(Modules(s)) == multiset(s)
  {
    if s != [] {
      var init := s[..|s| - 1];
      assert s == init + [s[|s| - 1]];
      PadsModulesCount(init);
    }
  }

  /** `sorted(new_buildings, key=lambda b: b.type != 0)`: a permutation of the arrivals
      in which no module precedes a pad. */
  lemma {:induction false} PadsFirstSorted(news: seq<Building>)
    ensures multiset(PadsFirst(news)) == multiset(news)
    ensures forall i, j :: 0 <= i < j < |PadsFirst(news)| && PadsFirst(news)[i].kind != 0 ==> PadsFirst(news)[j].kind != 0
  {
    PadsModulesCount(news);
    var r := PadsFirst(news);
    var p := |Pads(news)|;
    forall k | 0 <= k < |r|
      ensures k < p ==> r[k].kind == 0
      ensures k >= p ==> r[k].kind != 0
    {
      if k < p {
        assert r[k] in Pads(news);
      } else {
        assert r[k] in Modules(news);
      }
    }
  }

  /** The landing pads among the arrivals. */
  ghost function ArrivedPads(news: seq<Building>): set<Building>
  {
    set b | b in news && b.kind == 0
  }

  /** Some route has `id` as an endpoint. */
  predicate Touches(routes: set<Pair>, id: int)
  {
    exists p :: p in routes && (p.0 == id || p.1 == id)
  }

  /** One more route touches its two endpoints and nothing else new. */
  lemma TouchesAdd(routes: set<Pair>, p: Pair, id: int)
    ensures Touches(routes + {p}, id) <==> Touches(routes, id) || p.0 == id || p.1 == id
  {
    if p.0 == id || p.1 == id {
      assert p in routes + {p};
    }
  }

  /** Both ends of a recorded pair touch the record. */
  lemma HasTouches(routes: set<Pair>, a: int, b: int)
    ensures Has(routes, a, b) ==> Touches(routes, a) && Touches(routes, b)
  {
    var p := Canon(a, b);
    if p in routes {
      assert p.0 == a || p.1 == a;
      assert p.0 == b || p.1 == b;
    }
  }

  /** `initialize_network_state`: clear every `connected` flag; with no routes, set it
      on the first-registered building only; otherwise set it on every registered
      building that is an endpoint of a route. */
  ghost function Refreshed(net: Net): Net
  {
    net.(connected :=
      if net.routes == {} then (if |net.order| > 0 then {net.order[0]} else {})
      else set b | b in net.order && Touches(net.routes, b.id))
  }

  /** With no routes and at least one building, exactly the first-registered building
      is connected. */
  lemma RefreshSeed(net: Net)
    requires net.routes == {} && |net.order| > 0
    ensures forall b :: b in Refreshed(net).connected <==> b == net.order[0]
  {
  }

  /** With routes present, a registered building is connected exactly when it is an
      endpoint of some route. */
  lemma RefreshEndpoints(net: Net, b: Building)
    requires net.routes != {} && b in net.order
    ensures b in Refreshed(net).connected <==> Touches(net.routes, b.id)
  {
  }

  /** Refreshing twice gives the same flags as refreshing once. */
  lemma RefreshIdempotent(net: Net)
    ensures Refreshed(Refreshed(net)) == Refreshed(net)
  {
  }

  /** Every registered endpoint of a route is connected. */
  ghost predicate RouteEndsConnected(net: Net)
  {
    forall b :: b in net.order && Touches(net.routes, b.id) ==> b in net.connected
  }

  /** The refresh leaves a well-formed state in which every registered route endpoint
      is connected, and at least one building is connected once one exists and either
      there are no routes or some route touches a registered building. */
  lemma RefreshEstablishes(net: Net)
    requires WellFormed(net)
    ensures WellFormed(Refreshed(net)) && RouteEndsConnected(Refreshed(net))
    ensures |net.order| > 0 && net.routes == {} ==> Refreshed(net).connected != {}
  {
    if |net.order| > 0 && net.routes == {} {
      assert net.order[0] in Refreshed(net).connected;
    }
  }
}
