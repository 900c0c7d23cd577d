/** `setup_teleporters`: every arriving landing pad that is not yet an entrance becomes
    one; then, for each type it serves, the first module of that type that is not yet an
    exit and has no teleporter to the pad gets one, if 5000 remain. */
module Teleport {
  import opened Pairs
  import opened Network
  import opened Ledger

  /** The generator expression: the first module of `ms` that is not an exit and has
      no teleporter to `pad`. */
  ghost function FreeExit(net: Net, pad: Building, ms: seq<Building>): (r: Option<Building>)
    ensures r.Some? ==> r.value in ms && r.value !in net.exits && !Has(net.teleports, pad.id, r.value.id)
    ensures r.None? <==> forall m :: m in ms ==> m in net.exits || Has(net.teleports, pad.id, m.id)
    ensures r.Some? ==>
              exists j :: && 0 <= j < |ms| && ms[j] == r.value
                          && forall i :: 0 <= i < j ==> ms[i] in net.exits || Has(net.teleports, pad.id, ms[i].id)
    decreases |ms|
  {
    if ms == [] then None
    else if ms[0] !in net.exits && !Has(net.teleports, pad.id, ms[0].id) then Some(ms[0])
    else FreeExit(net, pad, ms[1..])
  }

  /** The state after a teleporter from `pad` to `m`: `m` is an exit, 5000 spent, the
      pair recorded. */
  ghost function Placed(net: Net, pad: Building, m: Building): Net
  {
    net.(exits := net.exits + {m}, resources := net.resources - 5000,
         teleports := Add(net.teleports, pad.id, m.id))
  }

  /** The loop over the served types of `pad`. */
  ghost function TeleportTypes(net: Net, pad: Building, ts: seq<int>): (Net, seq<Action>)
    decreases |ts|
  {
    if ts == [] then (net, [])
    else
      var found := FreeExit(net, pad, ModulesOf(net.order, ts[0]));
      var (n1, more) :=
        if found.Some? && net.resources >= 5000 then
          (Placed(net, pad, found.value), [Teleport(pad.id, found.value.id)])
        else (net, []);
      var (n2, tail) := TeleportTypes(n1, pad, ts[1..]);
      (n2, more + tail)
  }

  /** One iteration over the arrivals: a pad that is not yet an entrance becomes one
      and its served types are visited. */
  ghost function Visit(net: Net, b: Building): (Net, seq<Action>)
  {
    if b.kind == 0 && b !in net.entrances then
      TeleportTypes(net.(entrances := net.entrances + {b}), b, b.astronauts)
    else (net, [])
  }

  /** The loop over the arrivals, in arrival order. */
  ghost function TeleportFrom(net: Net, news: seq<Building>): (Net, seq<Action>)
    decreases |news|
  {
    if news == [] then (net, [])
    else
      var (n1, more) := Visit(net, news[0]);
      var (n2, tail) := TeleportFrom(n1, news[1..]);
      (n2, more + tail)
  }

  /** One type off the front of the loop over a pad's types: with a free module and
      5000 left the module gets a teleporter, otherwise nothing happens. */
  lemma TeleportTypesCons(net: Net, pad: Building, ts: seq<int>, found: Option<Building>)
    requires ts != [] && found == FreeExit(net, pad, ModulesOf(net.order, ts[0]))
    ensures found.Some? && net.resources >= 5000 ==>
      && TeleportTypes(net, pad, ts).0 == TeleportTypes(Placed(net, pad, found.value), pad, ts[1..]).0
      && TeleportTypes(net, pad, ts).1 == [Teleport(pad.id, found.value.id)] + TeleportTypes(Placed(net, pad, found.value), pad, ts[1..]).1
    ensures !(found.Some? && net.resources >= 5000) ==>
      && TeleportTypes(net, pad, ts).0 == TeleportTypes(net, pad, ts[1..]).0
      && TeleportTypes(net, pad, ts).1 == TeleportTypes(net, pad, ts[1..]).1
  {
  }

  /** One arrival off the front of the loop over the arrivals. */
  lemma TeleportFromCons(net: Net, news: seq<Building>)
    requires news != []
    ensures TeleportFrom(net, news).0 == TeleportFrom(Visit(net, news[0]).0, news[1..]).0
    ensures TeleportFrom(net, news).1 == Visit(net, news[0]).1 + TeleportFrom(Visit(net, news[0]).0, news[1..]).1
  {
  }

  /** The action is a teleporter from a pad of `ps` to a registered module of a type
      the pad serves. */
  ghost predicate Served(net: Net, ps: seq<Building>, act: Action)
  {
    && act.Teleport?
    && exists p, m :: && p in ps && m in net.order
                      && p.kind == 0 && m.kind != 0 && m.kind in p.astronauts
                      && act.entrance == p.id && act.exit == m.id
  }

  /** What every stretch of the pass keeps, for the arrivals `ps` it visited:
      - only the budget, the teleporters, the entrances and the exits change;
      - every action costs exactly 5000 and the budget never goes below zero;
      - the actions replay cleanly from the starting book to the book of the new
        state: no exit is used twice, and no pad-module pair gets two teleporters;
      - every action is a teleporter from a pad of `ps` to a module it serves;
      - entrances and exits only grow, and stay registered. */
  ghost predicate Keeps(n0: Net, n1: Net, acts: seq<Action>, ps: seq<Building>, k: int)
  {
    && n1 == n0.(resources := n1.resources, teleports := n1.teleports,
                 entrances := n1.entrances, exits := n1.exits)
    && n1.resources == n0.resources - 5000 * |acts|
    && (n0.resources >= 0 ==> n1.resources >= 0)
    && Replay(BookOf(n0, k), acts) == BookOf(n1, k)
    && (forall i :: 0 <= i < |acts| ==> Served(n0, ps, acts[i]))
    && n0.entrances <= n1.entrances && n0.exits <= n1.exits
    && (WellFormed(n0) ==> WellFormed(n1))
  }

  lemma KeepsNone(net: Net, ps: seq<Building>, k: int)
    ensures Keeps(net, net, [], ps, k)
  {
  }

  lemma KeepsTrans(n0: Net, n1: Net, n2: Net, a1: seq<Action>, a2: seq<Action>, ps: seq<Building>, k: int)
    requires Keeps(n0, n1, a1, ps, k) && Keeps(n1, n2, a2, ps, k)
    ensures Keeps(n0, n2, a1 + a2, ps, k)
  {
    ReplayAppend(BookOf(n0, k), a1, a2);
    forall i | 0 <= i < |a1 + a2|
      ensures Served(n0, ps, (a1 + a2)[i])
    {
      if i < |a1| {
        assert (a1 + a2)[i] == a1[i];
      } else {
        assert (a1 + a2)[i] == a2[i - |a1|];
        assert Served(n1, ps, a2[i - |a1|]);
      }
    }
  }

  lemma KeepsWiden(n0: Net, n1: Net, acts: seq<Action>, ps: seq<Building>, qs: seq<Building>, k: int)
    requires Keeps(n0, n1, acts, ps, k)
    requires forall p :: p in ps ==> p in qs
    ensures Keeps(n0, n1, acts, qs, k)
  {
    forall i | 0 <= i < |acts|
      ensures Served(n0, qs, acts[i])
    {
      assert Served(n0, ps, acts[i]);
      var p, m :| && p in ps && m in n0.order
                  && p.kind == 0 && m.kind != 0 && m.kind in p.astronauts
                  && acts[i].entrance == p.id && acts[i].exit == m.id;
      assert p in qs;
    }
  }

  /** One teleporter from `pad` to a free module it serves keeps everything `Keeps`
      promises. */
  lemma PlaceKeeps(net: Net, pad: Building, m: Building, k: int)
    requires WellFormed(net) && pad.kind == 0
    requires m in net.order && m.kind != 0 && m.kind in pad.astronauts
    requires m !in net.exits && !Has(net.teleports, pad.id, m.id) && net.resources >= 5000
    ensures Keeps(net, Placed(net, pad, m), [Teleport(pad.id, m.id)], [pad], k)
  {
    var n1 := Placed(net, pad, m);
    var more := [Teleport(pad.id, m.id)];
    assert IdsOf(n1.exits) == IdsOf(net.exits) + {m.id};
    assert Served(net, [pad], more[0]) by {
      assert pad in [pad] && m in net.order && m.kind in pad.astronauts;
    }
    forall e | e in net.exits
      ensures e.id != m.id
    {
      if e.id == m.id {
        SameIdSameBuilding(net.order, e, m);
      }
    }
    assert Replay(BookOf(net, k), more) == Post(BookOf(net, k), more[0]);
  }

  /** The loop over one pad's types keeps everything `Keeps` promises, emits at most
      one teleporter per entry of the type list (a type listed twice can get two),
      every one from that pad, and leaves the entrances alone. */
  lemma {:induction false} TeleportTypesFacts(net: Net, pad: Building, ts: seq<int>, k: int)
    requires WellFormed(net)
    requires pad.kind == 0 && forall t :: t in ts ==> t in pad.astronauts
    ensures
      var (n1, acts) := TeleportTypes(net, pad, ts);
      && Keeps(net, n1, acts, [pad], k) && n1.entrances == net.entrances
      && |acts| <= |ts|
      && (forall i :: 0 <= i < |acts| ==> acts[i] == Teleport(pad.id, acts[i].exit))
    decreases |ts|
  {
    if ts == [] {
      KeepsNone(net, [pad], k);
    } else {
      var found := FreeExit(net, pad, ModulesOf(net.order, ts[0]));
      var (n1, more) :=
        if found.Some? && net.resources >= 5000 then
          (Placed(net, pad, found.value), [Teleport(pad.id, found.value.id)])
        else (net, []);
      if more != [] {
        PlaceKeeps(net, pad, found.value, k);
      } else {
        KeepsNone(net, [pad], k);
      }
      TeleportTypesFacts(n1, pad, ts[1..], k);
      var (n2, tail) := TeleportTypes(n1, pad, ts[1..]);
      KeepsTrans(net, n1, n2, more, tail, [pad], k);
      assert forall i :: |more| <= i < |more + tail| ==> (more + tail)[i] == tail[i - |more|];
    }
  }

  /** One arrival: the pad becomes an entrance, and the teleporters it gets start at it. */
  lemma VisitFacts(net: Net, b: Building, k: int)
    requires WellFormed(net) && b in net.order
    ensures
      var (n1, acts) := Visit(net, b);
      && Keeps(net, n1, acts, [b], k)
      && n1.entrances == net.entrances + (if b.kind == 0 then {b} else {})
  {
    if b.kind == 0 && b !in net.entrances {
      var n0 := net.(entrances := net.entrances + {b});
      TeleportTypesFacts(n0, b, b.astronauts, k);
      var (n1, acts) := Visit(net, b);
      assert Keeps(net, n0, [], [b], k);
      KeepsTrans(net, n0, n1, [], acts, [b], k);
      assert [] + acts == acts;
    } else {
      KeepsNone(net, [b], k);
    }
  }

  /** The whole pass keeps everything `Keeps` promises; the entrances gained are
      exactly the arriving pads. */
  lemma {:induction false} TeleportFromFacts(net: Net, news: seq<Building>, k: int)
    requires WellFormed(net)
    requires forall b :: b in news ==> b in net.order
    ensures
      var (n1, acts) := TeleportFrom(net, news);
      && Keeps(net, n1, acts, news, k)
      && n1.entrances == net.entrances + ArrivedPads(news)
    decreases |news|
  {
    if news == [] {
      KeepsNone(net, news, k);
    } else {
      var b := news[0];
      var (n1, more) := Visit(net, b);
      VisitFacts(net, b, k);
      KeepsWiden(net, n1, more, [b], news, k);
      TeleportFromFacts(n1, news[1..], k);
      var (n2, tail) := TeleportFrom(n1, news[1..]);
      KeepsWiden(n1, n2, tail, news[1..], news, k);
      KeepsTrans(net, n1, n2, more, tail, news, k);
      assert ArrivedPads(news) == (if b.kind == 0 then {b} else {}) + ArrivedPads(news[1..]);
    }
  }

  /** `setup_teleporters`. */
  ghost function Teleporters(net: Net, news: seq<Building>): (Net, seq<Action>)
  {
    TeleportFrom(net, news)
  }

  /** The `modules` index of a pad followed by two modules. */
  lemma ThreeBuildingIndex(pad: Building, m1: Building, m2: Building, t: int)
    requires pad.kind == 0 && m1.kind != 0 && m2.kind != 0
    ensures ModulesOf([pad, m1, m2], t)
            == (if m1.kind == t then [m1] else []) + (if m2.kind == t then [m2] else [])
  {
    assert ModulesOf([pad], t) == [] by {
      IndexesAppend([], pad, t);
      assert [] + [pad] == [pad];
    }
    assert ModulesOf([pad, m1], t) == (if m1.kind == t then [m1] else []) by {
      IndexesAppend([pad], m1, t);
      assert [pad] + [m1] == [pad, m1];
    }
    IndexesAppend([pad, m1], m2, t);
    assert [pad, m1] + [m2] == [pad, m1, m2];
  }

  lemma FreeExitSingle(net: Net, pad: Building, m: Building)
    requires m !in net.exits && !Has(net.teleports, pad.id, m.id)
    ensures FreeExit(net, pad, [m]) == Some(m)
  {
  }

  lemma TeleportTypesPlaces(net: Net, pad: Building, ts: seq<int>, m: Building)
    requires ts != [] && net.resources >= 5000
    requires FreeExit(net, pad, ModulesOf(net.order, ts[0])) == Some(m)
    ensures TeleportTypes(net, pad, ts).1
            == [Teleport(pad.id, m.id)] + TeleportTypes(Placed(net, pad, m), pad, ts[1..]).1
  {
  }

  lemma TypesPlaceSecond(n1: Net, pad: Building, m1: Building, m2: Building, ts: seq<int>)
    requires |ts| == 1 && ts[0] == 2
    requires ModulesOf(n1.order, 2) == [m2] && m2 != m1 && pad.id != m1.id && m1.id != m2.id
    requires n1.exits == {m1} && n1.teleports == {Canon(pad.id, m1.id)} && n1.resources >= 5000
    ensures TeleportTypes(n1, pad, ts).1 == [Teleport(pad.id, m2.id)]
  {
    assert !Has(n1.teleports, pad.id, m2.id) by {
      CanonInjective(pad.id, m1.id, pad.id, m2.id);
    }
    FreeExitSingle(n1, pad, m2);
    TeleportTypesPlaces(n1, pad, ts, m2);
    assert ts[1..] == [];
  }

  /** The layout of the two-teleporter example: a pad serving types 1 and 2, then one
      module of each type, nothing placed yet and enough resources for two. */
  ghost predicate TwoTypeLayout(n0: Net, pad: Building, m1: Building, m2: Building, ts: seq<int>)
  {
    && |ts| == 2 && ts[0] == 1 && ts[1] == 2
    && n0.order == [pad, m1, m2] && pad.kind == 0
    && m1.kind == 1 && m2.kind == 2 && pad.id != m1.id && pad.id != m2.id && m1.id != m2.id
    && n0.exits == {} && n0.teleports == {} && n0.resources >= 10000
  }

  lemma TypesPlaceFirst(n0: Net, pad: Building, m1: Building, m2: Building, ts: seq<int>)
    requires TwoTypeLayout(n0, pad, m1, m2, ts)
    ensures TeleportTypes(n0, pad, ts).1
            == [Teleport(pad.id, m1.id)] + TeleportTypes(Placed(n0, pad, m1), pad, ts[1..]).1
  {
    ThreeBuildingIndex(pad, m1, m2, 1);
    FreeExitSingle(n0, pad, m1);
    TeleportTypesPlaces(n0, pad, ts, m1);
  }

  lemma TypesPlaceNext(n0: Net, pad: Building, m1: Building, m2: Building, ts: seq<int>)
    requires TwoTypeLayout(n0, pad, m1, m2, ts)
    ensures TeleportTypes(Placed(n0, pad, m1), pad, ts[1..]).1 == [Teleport(pad.id, m2.id)]
  {
    ThreeBuildingIndex(pad, m1, m2, 2);
    TypesPlaceSecond(Placed(n0, pad, m1), pad, m1, m2, ts[1..]);
  }

  lemma TypesPlaceTwo(n0: Net, pad: Building, m1: Building, m2: Building, ts: seq<int>)
    requires TwoTypeLayout(n0, pad, m1, m2, ts)
    ensures TeleportTypes(n0, pad, ts).1 == [Teleport(pad.id, m1.id), Teleport(pad.id, m2.id)]
  {
    TypesPlaceFirst(n0, pad, m1, m2, ts);
    TypesPlaceNext(n0, pad, m1, m2, ts);
  }

  /** A pad that serves two types, each with a free module, gets two teleporters in
      one turn: the entrance flag stops a pad from being visited twice, not from
      having several teleporters. */
  lemma TwoTeleportersFromOnePad(net: Net, pad: Building, m1: Building, m2: Building)
    requires net.order == [pad, m1, m2] && pad.kind == 0 && pad.astronauts == [1, 2]
    requires m1.kind == 1 && m2.kind == 2 && pad.id != m1.id && pad.id != m2.id && m1.id != m2.id
    requires net.entrances == {} && net.exits == {} && net.teleports == {}
    requires net.resources >= 10000
    ensures Teleporters(net, [pad]).1 == [Teleport(pad.id, m1.id), Teleport(pad.id, m2.id)]
  {
    TypesPlaceTwo(net.(entrances := net.entrances + {pad}), pad, m1, m2, pad.astronauts);
    var (n3, acts) := Visit(net, pad);
    assert [pad][1..] == [];
    assert TeleportFrom(n3, []).1 == [];
  }

  /** The layout of the repeated-type example: a pad whose astronaut list names type 1
      twice, then two modules of type 1, nothing placed yet and enough resources for
      two. */
  ghost predicate RepeatLayout(n0: Net, pad: Building, m1: Building, m2: Building, ts: seq<int>)
  {
    && |ts| == 2 && ts[0] == 1 && ts[1] == 1
    && n0.order == [pad, m1, m2] && pad.kind == 0
    && m1.kind == 1 && m2.kind == 1 && pad.id != m1.id && pad.id != m2.id && m1.id != m2.id
    && n0.exits == {} && n0.teleports == {} && n0.resources >= 10000
  }

  lemma RepeatPlaceFirst(n0: Net, pad: Building, m1: Building, m2: Building, ts: seq<int>)
    requires RepeatLayout(n0, pad, m1, m2, ts)
    ensures TeleportTypes(n0, pad, ts).1
            == [Teleport(pad.id, m1.id)] + TeleportTypes(Placed(n0, pad, m1), pad, ts[1..]).1
  {
    ThreeBuildingIndex(pad, m1, m2, 1);
    assert ModulesOf(n0.order, ts[0]) == [m1, m2];
    TeleportTypesPlaces(n0, pad, ts, m1);
  }

  lemma RepeatPlaceNext(n0: Net, pad: Building, m1: Building, m2: Building, ts: seq<int>)
    requires RepeatLayout(n0, pad, m1, m2, ts)
    ensures TeleportTypes(Placed(n0, pad, m1), pad, ts[1..]).1 == [Teleport(pad.id, m2.id)]
  {
    var n1 := Placed(n0, pad, m1);
    ThreeBuildingIndex(pad, m1, m2, 1);
    assert ModulesOf(n1.order, ts[1..][0]) == [m1, m2];
    assert !Has(n1.teleports, pad.id, m2.id) by {
      AddExact(n0.teleports, pad.id, m1.id, pad.id, m2.id);
    }
    assert FreeExit(n1, pad, [m1, m2]) == FreeExit(n1, pad, [m2]) by {
      assert m1 in n1.exits;
      assert [m1, m2][1..] == [m2];
    }
    FreeExitSingle(n1, pad, m2);
    TeleportTypesPlaces(n1, pad, ts[1..], m2);
    assert ts[1..][1..] == [];
  }

  /** A pad whose astronaut list names one type twice gets two teleporters of that
      type in one turn, to the first two free modules of the type: the loop runs once
      per list entry, not once per distinct type. */
  lemma RepeatedTypeTwoTeleporters(net: Net, pad: Building, m1: Building, m2: Building)
    requires net.order == [pad, m1, m2] && pad.kind == 0 && pad.astronauts == [1, 1]
    requires m1.kind == 1 && m2.kind == 1 && pad.id != m1.id && pad.id != m2.id && m1.id != m2.id
    requires net.entrances == {} && net.exits == {} && net.teleports == {}
    requires net.resources >= 10000
    ensures Teleporters(net, [pad]).1 == [Teleport(pad.id, m1.id), Teleport(pad.id, m2.id)]
  {
    var n0 := net.(entrances := net.entrances + {pad});
    RepeatPlaceFirst(n0, pad, m1, m2, pad.astronauts);
    RepeatPlaceNext(n0, pad, m1, m2, pad.astronauts);
    var (n3, acts) := Visit(net, pad);
    assert [pad][1..] == [];
    assert TeleportFrom(n3, []).1 == [];
  }
}
