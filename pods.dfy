/** `setup_routes_and_pods`: for every landing pad, first the pads that arrived this
    turn and then, if at least 1000 remain, the older ones, link the pad with each
    connected module of every type it serves: build the tube if there is none and its
    length is affordable, then put a pod on the tube if it has none and 1000 remain. */
module Pods {
  import opened Pairs
  import opened Network
  import opened Ledger

  /** Where a stretch of the pass ends: the network, the next pod id, and the actions
      the stretch emitted. */
  datatype Run = Run(net: Net, next: int, acts: seq<Action>)

  /** A finite set of ids that holds x has a largest member: climb from x to any
      larger member until none is left. */
  lemma {:induction false} MaxAbove(s: set<int>, x: int)
    requires x in s
    ensures exists m :: m in s && forall p :: p in s ==> p <= m
    decreases set z | z in s && z > x
  {
    if exists y :: y in s && y > x {
      var y :| y in s && y > x;
      var above := set z | z in s && z > x;
      var aboveY := set z | z in s && z > y;
      assert y in above && y !in aboveY;
      MaxAbove(s, y);
    } else {
      assert forall p :: p in s ==> p <= x;
    }
  }

  /** A set with no members is empty. */
  lemma NoMemberEmpty(s: set<int>)
    ensures (forall y :: y !in s) ==> s == {}
  {
    if forall y :: y !in s {
      assert s == {};
    }
  }

  /** `max(pods, default=0) + 1`. */
  function NextPodId(pods: set<int>): (n: int)
    ensures forall p :: p in pods ==> p < n
    ensures pods == {} ==> n == 1
    ensures pods != {} ==> n - 1 in pods
  {
    if pods == {} then 1
    else
      NoMemberEmpty(pods);
      var x :| x in pods;
      MaxAbove(pods, x);
      var m :| m in pods && forall p :: p in pods ==> p <= m;
      m + 1
  }

  /** The ids from lo up to, not including, hi. */
  ghost function Range(lo: int, hi: int): (r: set<int>)
    ensures forall i :: i in r <==> lo <= i < hi
    decreases hi - lo
  {
    if lo >= hi then {} else {lo} + Range(lo + 1, hi)
  }

  /** The pod half of a link: a pair that has a route and no pod gets a pod with the
      next id when 1000 remain; the pod costs 1000. */
  ghost function PodOnly(net: Net, next: int, pad: Building, m: Building): Run
  {
    if Has(net.routes, pad.id, m.id) && !Has(net.podRoutes, pad.id, m.id) && net.resources >= 1000 then
      Run(net.(resources := net.resources - 1000, pods := net.pods + {next},
               podRoutes := Add(net.podRoutes, pad.id, m.id)),
          next + 1, [Pod(next, pad.id, m.id, pad.id)])
    else Run(net, next, [])
  }

  /** One iteration of the inner loop: the pad and the module must both be connected;
      a missing tube is built when its length is within the budget and costs that
      length; then the pod half. */
  ghost function Link(net: Net, next: int, pad: Building, m: Building): Run
  {
    if !(pad in net.connected && m in net.connected) then Run(net, next, [])
    else
      var built := !Has(net.routes, pad.id, m.id) && net.resources >= Dist(pad, m);
      var n1 := if built then net.(resources := net.resources - Dist(pad, m),
                                   routes := Add(net.routes, pad.id, m.id))
                else net;
      var tube := if built then [Tube(pad.id, m.id)] else [];
      var r := PodOnly(n1, next, pad, m);
      Run(r.net, r.next, tube + r.acts)
  }

  /** The loop over the modules of one type. */
  ghost function OverModules(net: Net, next: int, pad: Building, ms: seq<Building>): Run
    decreases |ms|
  {
    if ms == [] then Run(net, next, [])
    else
      var r1 := Link(net, next, pad, ms[0]);
      var r2 := OverModules(r1.net, r1.next, pad, ms[1..]);
      Run(r2.net, r2.next, r1.acts + r2.acts)
  }

  /** The loop over the served types; each type's modules come from the `modules`
      index, which the pass does not change. */
  ghost function OverTypes(net: Net, next: int, pad: Building, ts: seq<int>): Run
    decreases |ts|
  {
    if ts == [] then Run(net, next, [])
    else
      var r1 := OverModules(net, next, pad, ModulesOf(net.order, ts[0]));
      var r2 := OverTypes(r1.net, r1.next, pad, ts[1..]);
      Run(r2.net, r2.next, r1.acts + r2.acts)
  }

  /** `process_building_connections`. */
  ghost function ProcessPad(net: Net, next: int, pad: Building): Run
  {
    OverTypes(net, next, pad, pad.astronauts)
  }

  /** The first loop: the arrivals that are pads, in arrival order. */
  ghost function OverNewPads(net: Net, next: int, news: seq<Building>): Run
    decreases |news|
  {
    if news == [] then Run(net, next, [])
    else
      var r1 := if news[0].kind == 0 then ProcessPad(net, next, news[0]) else Run(net, next, []);
      var r2 := OverNewPads(r1.net, r1.next, news[1..]);
      Run(r2.net, r2.next, r1.acts + r2.acts)
  }

  /** The second loop: the registered pads that did not arrive this turn. */
  ghost function OverOldPads(net: Net, next: int, pads: seq<Building>, news: seq<Building>): Run
    decreases |pads|
  {
    if pads == [] then Run(net, next, [])
    else
      var r1 := if pads[0] !in news then ProcessPad(net, next, pads[0]) else Run(net, next, []);
      var r2 := OverOldPads(r1.net, r1.next, pads[1..], news);
      Run(r2.net, r2.next, r1.acts + r2.acts)
  }

  /** One arrival off the front of the first loop: a pad is processed, anything else
      is passed over. */
  lemma OverNewPadsCons(net: Net, next: int, news: seq<Building>)
    requires news != []
    ensures news[0].kind != 0 ==> OverNewPads(net, next, news) == OverNewPads(net, next, news[1..])
    ensures news[0].kind == 0 ==>
      var r1 := ProcessPad(net, next, news[0]);
      var r2 := OverNewPads(r1.net, r1.next, news[1..]);
      OverNewPads(net, next, news) == Run(r2.net, r2.next, r1.acts + r2.acts)
  {
    if news[0].kind != 0 {
      var r2 := OverNewPads(net, next, news[1..]);
      assert [] + r2.acts == r2.acts;
    }
  }

  /** One pad off the front of the second loop: an arrival is passed over, any other
      pad is processed. */
  lemma OverOldPadsCons(net: Net, next: int, pads: seq<Building>, news: seq<Building>)
    requires pads != []
    ensures pads[0] in news ==> OverOldPads(net, next, pads, news) == OverOldPads(net, next, pads[1..], news)
    ensures pads[0] !in news ==>
      var r1 := ProcessPad(net, next, pads[0]);
      var r2 := OverOldPads(r1.net, r1.next, pads[1..], news);
      OverOldPads(net, next, pads, news) == Run(r2.net, r2.next, r1.acts + r2.acts)
  {
    if pads[0] in news {
      var r2 := OverOldPads(net, next, pads[1..], news);
      assert [] + r2.acts == r2.acts;
    }
  }

  /** The whole pass: pod ids start one past the largest known pod; the older pads are
      visited only when at least 1000 remain after the new ones. */
  ghost function RoutesAndPods(net: Net, news: seq<Building>): Run
  {
    var r1 := OverNewPads(net, NextPodId(net.pods), news);
    if r1.net.resources >= 1000 then
      var r2 := OverOldPads(r1.net, r1.next, Pads(net.order), news);
      Run(r2.net, r2.next, r1.acts + r2.acts)
    else r1
  }

  /** The registered pads that are not arrivals, in order. */
  ghost function Without(pads: seq<Building>, news: seq<Building>): (r: seq<Building>)
    ensures forall b :: b in r ==> b in pads && b !in news
    ensures forall b :: b in pads && b !in news ==> b in r
  {
    if pads == [] then []
    else (if pads[0] !in news then [pads[0]] else []) + Without(pads[1..], news)
  }

  /** The action joins a connected pad from `ps` with a connected registered module of
      a type the pad serves. */
  ghost predicate Served(net: Net, ps: seq<Building>, act: Action)
  {
    && (act.Tube? || act.Pod?)
    && exists p, m :: && p in ps && m in net.order
                      && p in net.connected && m in net.connected
                      && p.kind == 0 && m.kind != 0 && m.kind in p.astronauts
                      && act.a == p.id && act.b == m.id
  }

  /** What every stretch of the pass keeps, for the pads `ps` it processed:
      - only the budget, the routes, the pod routes and the pods change, and the
        connected flags, entrances and exits do not;
      - the pods gained are exactly the ids handed out, in order from `next0`;
      - the actions replay cleanly from the starting book to the book of the new
        state: every tube is a new route, every pod runs on an existing route with no
        pod yet, returns to its pad, and carries the next id;
      - the budget never goes below zero and pays at least 1000 per pod;
      - every action joins a pad of `ps` with a module it serves;
      - every route endpoint stays connected. */
  ghost predicate Steps(n0: Net, next0: int, r: Run, ps: seq<Building>)
  {
    && r.net == n0.(resources := r.net.resources, routes := r.net.routes,
                    podRoutes := r.net.podRoutes, pods := r.net.pods)
    && next0 <= r.next
    && r.net.pods == n0.pods + Range(next0, r.next)
    && Replay(BookOf(n0, next0), r.acts) == BookOf(r.net, r.next)
    && (n0.resources >= 0 ==> r.net.resources >= 0)
    && r.net.resources + 1000 * PodCount(r.acts) <= n0.resources
    && (forall i :: 0 <= i < |r.acts| ==> Served(n0, ps, r.acts[i]))
    && (RouteEndsConnected(n0) ==> RouteEndsConnected(r.net))
  }

  lemma StepsNone(net: Net, next: int, ps: seq<Building>)
    ensures Steps(net, next, Run(net, next, []), ps)
  {
    assert Range(next, next) == {};
  }

  lemma StepsWiden(n0: Net, next0: int, r: Run, ps: seq<Building>, qs: seq<Building>)
    requires Steps(n0, next0, r, ps)
    requires forall p :: p in ps ==> p in qs
    ensures Steps(n0, next0, r, qs)
  {
    forall i | 0 <= i < |r.acts|
      ensures Served(n0, qs, r.acts[i])
    {
      assert Served(n0, ps, r.acts[i]);
      var p, m :| && p in ps && m in n0.order
                  && p in n0.connected && m in n0.connected
                  && p.kind == 0 && m.kind != 0 && m.kind in p.astronauts
                  && r.acts[i].a == p.id && r.acts[i].b == m.id;
      assert p in qs;
    }
  }

  lemma StepsTrans(n0: Net, next0: int, r1: Run, r2: Run, ps: seq<Building>)
    requires Steps(n0, next0, r1, ps) && Steps(r1.net, r1.next, r2, ps)
    ensures Steps(n0, next0, Run(r2.net, r2.next, r1.acts + r2.acts), ps)
  {
    var all := r1.acts + r2.acts;
    ReplayAppend(BookOf(n0, next0), r1.acts, r2.acts);
    PodCountAppend(r1.acts, r2.acts);
    assert Range(next0, r2.next) == Range(next0, r1.next) + Range(r1.next, r2.next);
    forall i | 0 <= i < |all|
      ensures Served(n0, ps, all[i])
    {
      if i < |r1.acts| {
        assert all[i] == r1.acts[i];
      } else {
        assert all[i] == r2.acts[i - |r1.acts|];
        assert Served(r1.net, ps, r2.acts[i - |r1.acts|]);
      }
    }
  }

  /** One inner iteration keeps everything `Steps` promises. */
  lemma LinkFacts(net: Net, next: int, pad: Building, m: Building)
    requires UniqueIds(net.order) && pad in net.order && m in net.order
    requires pad.kind == 0 && m.kind != 0 && m.kind in pad.astronauts
    ensures Steps(net, next, Link(net, next, pad, m), [pad])
  {
    var r := Link(net, next, pad, m);
    if !(pad in net.connected && m in net.connected) {
      StepsNone(net, next, [pad]);
    } else {
      var built := !Has(net.routes, pad.id, m.id) && net.resources >= Dist(pad, m);
      var n1 := if built then net.(resources := net.resources - Dist(pad, m),
                                   routes := Add(net.routes, pad.id, m.id))
                else net;
      var tube := if built then [Tube(pad.id, m.id)] else [];
      var l0 := BookOf(net, next);
      assert Replay(l0, tube) == BookOf(n1, next);
      forall i | 0 <= i < |r.acts|
        ensures Served(net, [pad], r.acts[i])
      {
        assert r.acts[i].a == pad.id && r.acts[i].b == m.id;
      }
      if RouteEndsConnected(net) {
        forall b | b in r.net.order && Touches(r.net.routes, b.id)
          ensures b in r.net.connected
        {
          var p :| p in r.net.routes && (p.0 == b.id || p.1 == b.id);
          if p !in net.routes {
            if b.id == pad.id {
              SameIdSameBuilding(net.order, b, pad);
            } else {
              SameIdSameBuilding(net.order, b, m);
            }
          }
        }
      }
      if Has(n1.routes, pad.id, m.id) && !Has(n1.podRoutes, pad.id, m.id) && n1.resources >= 1000 {
        var pod := Pod(next, pad.id, m.id, pad.id);
        ReplayAppend(l0, tube, [pod]);
        assert Replay(BookOf(n1, next), [pod]) == Post(BookOf(n1, next), pod);
        PodCountAppend(tube, [pod]);
        assert Range(next, next + 1) == {next};
      } else {
        assert Range(next, next) == {};
      }
    }
  }

  lemma {:induction false} OverModulesFacts(net: Net, next: int, pad: Building, ms: seq<Building>)
    requires UniqueIds(net.order) && pad in net.order && pad.kind == 0
    requires forall m :: m in ms ==> m in net.order && m.kind != 0 && m.kind in pad.astronauts
    ensures Steps(net, next, OverModules(net, next, pad, ms), [pad])
    decreases |ms|
  {
    if ms == [] {
      StepsNone(net, next, [pad]);
    } else {
      var r1 := Link(net, next, pad, ms[0]);
      LinkFacts(net, next, pad, ms[0]);
      OverModulesFacts(r1.net, r1.next, pad, ms[1..]);
      StepsTrans(net, next, r1, OverModules(r1.net, r1.next, pad, ms[1..]), [pad]);
    }
  }

  lemma {:induction false} OverTypesFacts(net: Net, next: int, pad: Building, ts: seq<int>)
    requires UniqueIds(net.order) && pad in net.order && pad.kind == 0
    requires forall t :: t in ts ==> t in pad.astronauts
    ensures Steps(net, next, OverTypes(net, next, pad, ts), [pad])
    decreases |ts|
  {
    if ts == [] {
      StepsNone(net, next, [pad]);
    } else {
      var r1 := OverModules(net, next, pad, ModulesOf(net.order, ts[0]));
      OverModulesFacts(net, next, pad, ModulesOf(net.order, ts[0]));
      OverTypesFacts(r1.net, r1.next, pad, ts[1..]);
      StepsTrans(net, next, r1, OverTypes(r1.net, r1.next, pad, ts[1..]), [pad]);
    }
  }

  /** Processing one pad keeps everything `Steps` promises, and every action it emits
      starts at that pad. */
  lemma ProcessPadFacts(net: Net, next: int, pad: Building)
    requires UniqueIds(net.order) && pad in net.order && pad.kind == 0
    ensures Steps(net, next, ProcessPad(net, next, pad), [pad])
  {
    OverTypesFacts(net, next, pad, pad.astronauts);
  }

  lemma {:induction false} OverNewPadsFacts(net: Net, next: int, news: seq<Building>)
    requires UniqueIds(net.order)
    requires forall b :: b in news ==> b in net.order
    ensures Steps(net, next, OverNewPads(net, next, news), news)
    decreases |news|
  {
    if news == [] {
      StepsNone(net, next, news);
    } else {
      var r1 := if news[0].kind == 0 then ProcessPad(net, next, news[0]) else Run(net, next, []);
      if news[0].kind == 0 {
        ProcessPadFacts(net, next, news[0]);
      } else {
        StepsNone(net, next, [news[0]]);
      }
      StepsWiden(net, next, r1, [news[0]], news);
      OverNewPadsFacts(r1.net, r1.next, news[1..]);
      var r2 := OverNewPads(r1.net, r1.next, news[1..]);
      StepsWiden(r1.net, r1.next, r2, news[1..], news);
      StepsTrans(net, next, r1, r2, news);
    }
  }

  lemma {:induction false} OverOldPadsFacts(net: Net, next: int, pads: seq<Building>, news: seq<Building>)
    requires UniqueIds(net.order)
    requires forall b :: b in pads ==> b in net.order && b.kind == 0
    ensures Steps(net, next, OverOldPads(net, next, pads, news), Without(pads, news))
    decreases |pads|
  {
    var ps := Without(pads, news);
    if pads == [] {
      StepsNone(net, next, ps);
    } else {
      var r1 := if pads[0] !in news then ProcessPad(net, next, pads[0]) else Run(net, next, []);
      if pads[0] !in news {
        ProcessPadFacts(net, next, pads[0]);
        StepsWiden(net, next, r1, [pads[0]], ps);
      } else {
        StepsNone(net, next, ps);
      }
      OverOldPadsFacts(r1.net, r1.next, pads[1..], news);
      var r2 := OverOldPads(r1.net, r1.next, pads[1..], news);
      StepsWiden(r1.net, r1.next, r2, Without(pads[1..], news), ps);
      StepsTrans(net, next, r1, r2, ps);
    }
  }

  /** The whole pass keeps everything `Steps` promises, with pod ids starting one past
      the largest known pod; every new pod id is fresh, and the ids run consecutively
      up to one per pod emitted. Every action starts at an arriving pad or at an older
      pad that is not an arrival; when fewer than 1000 remain after the arriving pads,
      the older pads are not visited and every action starts at an arriving pad. */
  lemma RoutesAndPodsFacts(net: Net, news: seq<Building>)
    requires UniqueIds(net.order)
    requires forall b :: b in news ==> b in net.order
    ensures
      var start := NextPodId(net.pods);
      var r := RoutesAndPods(net, news);
      && Steps(net, start, r, news + Without(Pads(net.order), news))
      && r.next == start + PodCount(r.acts)
      && Range(start, r.next) !! net.pods
    ensures
      var start := NextPodId(net.pods);
      var r := RoutesAndPods(net, news);
      OverNewPads(net, start, news).net.resources < 1000 ==>
        forall i :: 0 <= i < |r.acts| ==> Served(net, news, r.acts[i])
  {
    var start := NextPodId(net.pods);
    var all := news + Without(Pads(net.order), news);
    var r1 := OverNewPads(net, start, news);
    OverNewPadsFacts(net, start, news);
    StepsWiden(net, start, r1, news, all);
    var r := RoutesAndPods(net, news);
    if r1.net.resources >= 1000 {
      var r2 := OverOldPads(r1.net, r1.next, Pads(net.order), news);
      OverOldPadsFacts(r1.net, r1.next, Pads(net.order), news);
      StepsWiden(r1.net, r1.next, r2, Without(Pads(net.order), news), all);
      StepsTrans(net, start, r1, r2, all);
    }
    ReplayNext(BookOf(net, start), r.acts);
  }

  /** `setup_pods`, which `main` never calls: the pod half of the pass alone, over the
      arriving pads only, with no connectivity check and no tube. */
  ghost function PodsOverModules(net: Net, next: int, pad: Building, ms: seq<Building>): Run
    decreases |ms|
  {
    if ms == [] then Run(net, next, [])
    else
      var r1 := PodOnly(net, next, pad, ms[0]);
      var r2 := PodsOverModules(r1.net, r1.next, pad, ms[1..]);
      Run(r2.net, r2.next, r1.acts + r2.acts)
  }

  ghost function PodsOverTypes(net: Net, next: int, pad: Building, ts: seq<int>): Run
    decreases |ts|
  {
    if ts == [] then Run(net, next, [])
    else
      var r1 := PodsOverModules(net, next, pad, ModulesOf(net.order, ts[0]));
      var r2 := PodsOverTypes(r1.net, r1.next, pad, ts[1..]);
      Run(r2.net, r2.next, r1.acts + r2.acts)
  }

  ghost function PodsOverNews(net: Net, next: int, news: seq<Building>): Run
    decreases |news|
  {
    if news == [] then Run(net, next, [])
    else
      var r1 := if news[0].kind == 0 then PodsOverTypes(net, next, news[0], news[0].astronauts)
                else Run(net, next, []);
      var r2 := PodsOverNews(r1.net, r1.next, news[1..]);
      Run(r2.net, r2.next, r1.acts + r2.acts)
  }

  ghost function SetupPods(net: Net, news: seq<Building>): Run
  {
    PodsOverNews(net, NextPodId(net.pods), news)
  }

  /** The action is a pod from a pad of `ps` to a registered module of a type the pad
      serves. */
  ghost predicate PodServed(net: Net, ps: seq<Building>, act: Action)
  {
    && act.Pod?
    && exists p, m :: && p in ps && m in net.order
                      && p.kind == 0 && m.kind != 0 && m.kind in p.astronauts
                      && act.a == p.id && act.b == m.id
  }

  /** What every stretch of `setup_pods` keeps, for the pads `ps` it processed:
      - only the budget, the pod routes and the pods change;
      - every action is a pod, one id each, from `next0` on, and the pods gained are
        exactly those ids;
      - the actions replay cleanly: every pod runs on an existing route with no pod
        yet and returns to its pad;
      - every pod costs exactly 1000, and the budget never goes below zero;
      - every pod joins a pad of `ps` with a module it serves. */
  ghost predicate PodSteps(n0: Net, next0: int, r: Run, ps: seq<Building>)
  {
    && r.net == n0.(resources := r.net.resources, podRoutes := r.net.podRoutes, pods := r.net.pods)
    && r.next == next0 + |r.acts|
    && r.net.pods == n0.pods + Range(next0, r.next)
    && Replay(BookOf(n0, next0), r.acts) == BookOf(r.net, r.next)
    && r.net.resources == n0.resources - 1000 * |r.acts|
    && (n0.resources >= 0 ==> r.net.resources >= 0)
    && (forall i :: 0 <= i < |r.acts| ==> PodServed(n0, ps, r.acts[i]))
  }

  lemma PodStepsNone(net: Net, next: int, ps: seq<Building>)
    ensures PodSteps(net, next, Run(net, next, []), ps)
  {
    assert Range(next, next) == {};
  }

  lemma PodStepsTrans(n0: Net, next0: int, r1: Run, r2: Run, ps: seq<Building>)
    requires PodSteps(n0, next0, r1, ps) && PodSteps(r1.net, r1.next, r2, ps)
    ensures PodSteps(n0, next0, Run(r2.net, r2.next, r1.acts + r2.acts), ps)
  {
    var all := r1.acts + r2.acts;
    ReplayAppend(BookOf(n0, next0), r1.acts, r2.acts);
    assert Range(next0, r2.next) == Range(next0, r1.next) + Range(r1.next, r2.next);
    forall i | 0 <= i < |all|
      ensures PodServed(n0, ps, all[i])
    {
      if i < |r1.acts| {
        assert all[i] == r1.acts[i];
      } else {
        assert all[i] == r2.acts[i - |r1.acts|];
        assert PodServed(r1.net, ps, r2.acts[i - |r1.acts|]);
      }
    }
  }

  lemma PodStepsWiden(n0: Net, next0: int, r: Run, ps: seq<Building>, qs: seq<Building>)
    requires PodSteps(n0, next0, r, ps)
    requires forall p :: p in ps ==> p in qs
    ensures PodSteps(n0, next0, r, qs)
  {
    forall i | 0 <= i < |r.acts|
      ensures PodServed(n0, qs, r.acts[i])
    {
      assert PodServed(n0, ps, r.acts[i]);
      var p, m :| && p in ps && m in n0.order
                  && p.kind == 0 && m.kind != 0 && m.kind in p.astronauts
                  && r.acts[i].a == p.id && r.acts[i].b == m.id;
      assert p in qs;
    }
  }

  /** One pod step keeps everything `PodSteps` promises. */
  lemma PodOnlyFacts(net: Net, next: int, pad: Building, m: Building)
    requires pad.kind == 0 && m in net.order && m.kind != 0 && m.kind in pad.astronauts
    ensures PodSteps(net, next, PodOnly(net, next, pad, m), [pad])
  {
    var r := PodOnly(net, next, pad, m);
    if r.acts == [] {
      PodStepsNone(net, next, [pad]);
    } else {
      assert Range(next, next + 1) == {next};
      assert PodServed(net, [pad], r.acts[0]);
    }
  }

  lemma {:induction false} PodsOverModulesFacts(net: Net, next: int, pad: Building, ms: seq<Building>)
    requires pad.kind == 0
    requires forall m :: m in ms ==> m in net.order && m.kind != 0 && m.kind in pad.astronauts
    ensures PodSteps(net, next, PodsOverModules(net, next, pad, ms), [pad])
    decreases |ms|
  {
    if ms == [] {
      PodStepsNone(net, next, [pad]);
    } else {
      var r1 := PodOnly(net, next, pad, ms[0]);
      PodOnlyFacts(net, next, pad, ms[0]);
      PodsOverModulesFacts(r1.net, r1.next, pad, ms[1..]);
      PodStepsTrans(net, next, r1, PodsOverModules(r1.net, r1.next, pad, ms[1..]), [pad]);
    }
  }

  lemma {:induction false} PodsOverTypesFacts(net: Net, next: int, pad: Building, ts: seq<int>)
    requires pad.kind == 0 && forall t :: t in ts ==> t in pad.astronauts
    ensures PodSteps(net, next, PodsOverTypes(net, next, pad, ts), [pad])
    decreases |ts|
  {
    if ts == [] {
      PodStepsNone(net, next, [pad]);
    } else {
      var r1 := PodsOverModules(net, next, pad, ModulesOf(net.order, ts[0]));
      PodsOverModulesFacts(net, next, pad, ModulesOf(net.order, ts[0]));
      PodsOverTypesFacts(r1.net, r1.next, pad, ts[1..]);
      PodStepsTrans(net, next, r1, PodsOverTypes(r1.net, r1.next, pad, ts[1..]), [pad]);
    }
  }

  lemma {:induction false} PodsOverNewsFacts(net: Net, next: int, news: seq<Building>)
    ensures PodSteps(net, next, PodsOverNews(net, next, news), news)
    decreases |news|
  {
    if news == [] {
      PodStepsNone(net, next, news);
    } else {
      var r1 := if news[0].kind == 0 then PodsOverTypes(net, next, news[0], news[0].astronauts)
                else Run(net, next, []);
      if news[0].kind == 0 {
        PodsOverTypesFacts(net, next, news[0], news[0].astronauts);
      } else {
        PodStepsNone(net, next, [news[0]]);
      }
      PodStepsWiden(net, next, r1, [news[0]], news);
      PodsOverNewsFacts(r1.net, r1.next, news[1..]);
      var r2 := PodsOverNews(r1.net, r1.next, news[1..]);
      PodStepsWiden(r1.net, r1.next, r2, news[1..], news);
      PodStepsTrans(net, next, r1, r2, news);
    }
  }

  /** `setup_pods` keeps everything `PodSteps` promises, with ids starting one past the
      largest known pod, so every new pod id is fresh; it builds no tube and leaves the
      routes alone. */
  lemma SetupPodsFacts(net: Net, news: seq<Building>)
    ensures
      var start := NextPodId(net.pods);
      var r := SetupPods(net, news);
      && PodSteps(net, start, r, news)
      && Range(start, r.next) !! net.pods
      && r.net.routes == net.routes
  {
    PodsOverNewsFacts(net, NextPodId(net.pods), news);
  }

  /** One unfolding step of each `setup_pods` loop. */
  lemma PodsOverNewsCons(net: Net, next: int, news: seq<Building>)
    requires news != []
    ensures news[0].kind != 0 ==> PodsOverNews(net, next, news) == PodsOverNews(net, next, news[1..])
    ensures news[0].kind == 0 ==>
      var r1 := PodsOverTypes(net, next, news[0], news[0].astronauts);
      var r2 := PodsOverNews(r1.net, r1.next, news[1..]);
      PodsOverNews(net, next, news) == Run(r2.net, r2.next, r1.acts + r2.acts)
  {
    if news[0].kind != 0 {
      var r2 := PodsOverNews(net, next, news[1..]);
      assert [] + r2.acts == r2.acts;
    }
  }
}
