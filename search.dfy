/** `find_optimal_connection_point` as a function of the network value: the
    type-matched scan, the fallback scan, and the "first strict minimum wins" choice. */
module Search {
  import opened Network

  /** A search result: the chosen building, its scaled distance, and whether the
      type-matched scan found it (score = distance * 0.8) or the fallback did
      (score = distance). */
  datatype Candidate = Candidate(target: Building, dist: nat, discounted: bool)

  /** `score <= resources`. A type-matched score is distance * 0.8, and
      0.8 * d <= R is 4 * d <= 5 * R. */
  predicate Affordable(c: Candidate, resources: int)
  {
    if c.discounted then 4 * c.dist <= 5 * resources else c.dist <= resources
  }

  /** The connected members of `bs`, in order. */
  ghost function ConnectedIn(net: Net, bs: seq<Building>): (r: seq<Building>)
    ensures forall b :: b in r ==> b in bs && b in net.connected
    ensures forall b :: b in bs && b in net.connected ==> b in r
  {
    if bs == [] then []
    else (if bs[0] in net.connected then [bs[0]] else []) + ConnectedIn(net, bs[1..])
  }

  /** What a landing pad scans: for each served type in turn, the connected modules
      of that type in insertion order. */
  ghost function ModuleCandidates(net: Net, types: seq<int>): (r: seq<Building>)
    ensures forall b :: b in r ==> b in net.order && b in net.connected && b.kind != 0 && b.kind in types
    ensures forall b :: b in net.order && b in net.connected && b.kind != 0 && b.kind in types ==> b in r
  {
    if types == [] then []
    else ConnectedIn(net, ModulesOf(net.order, types[0])) + ModuleCandidates(net, types[1..])
  }

  /** What a module of type `kind` scans: the connected pads that serve `kind`. */
  ghost function PadCandidates(net: Net, kind: int, pads: seq<Building>): (r: seq<Building>)
    ensures forall b :: b in r ==> b in pads && b in net.connected && kind in b.astronauts
    ensures forall b :: b in pads && b in net.connected && kind in b.astronauts ==> b in r
  {
    if pads == [] then []
    else
      (if pads[0] in net.connected && kind in pads[0].astronauts then [pads[0]] else [])
      + PadCandidates(net, kind, pads[1..])
  }

  /** The type-matched scan of `nb`. */
  ghost function TypedCandidates(net: Net, nb: Building): seq<Building>
  {
    if nb.kind == 0 then ModuleCandidates(net, nb.astronauts)
    else PadCandidates(net, nb.kind, Pads(net.order))
  }

  /** The fallback scan: every connected building whose id is not `nb`'s. */
  ghost function OtherConnected(net: Net, nb: Building, bs: seq<Building>): (r: seq<Building>)
    ensures forall b :: b in r ==> b in bs && b in net.connected && b.id != nb.id
    ensures forall b :: b in bs && b in net.connected && b.id != nb.id ==> b in r
  {
    if bs == [] then []
    else
      (if bs[0].id != nb.id && bs[0] in net.connected then [bs[0]] else [])
      + OtherConnected(net, nb, bs[1..])
  }

  /** `update_best`: a candidate replaces the best so far only if strictly nearer. */
  function Improve(nb: Building, best: Option<Building>, b: Building): Option<Building>
  {
    if best.None? || Dist(nb, b) < Dist(nb, best.value) then Some(b) else best
  }

  /** The best candidate after offering every member of `cands`, in order. */
  ghost function Nearest(nb: Building, best: Option<Building>, cands: seq<Building>): (r: Option<Building>)
    ensures best.Some? || cands != [] <==> r.Some?
    ensures r.Some? ==> r == best || r.value in cands
    decreases |cands|
  {
    if cands == [] then best else Nearest(nb, Improve(nb, best, cands[0]), cands[1..])
  }

  /** Offering one candidate, then the rest. */
  lemma NearestCons(nb: Building, best: Option<Building>, b: Building, rest: seq<Building>)
    ensures Nearest(nb, best, [b] + rest) == Nearest(nb, Improve(nb, best, b), rest)
  {
    assert ([b] + rest)[1..] == rest;
  }

  /** Offering two lists one after the other is offering their concatenation. */
  lemma {:induction false} NearestAppend(nb: Building, best: Option<Building>, c1: seq<Building>, c2: seq<Building>)
    ensures Nearest(nb, best, c1 + c2) == Nearest(nb, Nearest(nb, best, c1), c2)
    decreases |c1|
  {
    if c1 == [] {
      assert c1 + c2 == c2;
    } else {
      assert c1 + c2 == [c1[0]] + (c1[1..] + c2);
      NearestCons(nb, best, c1[0], c1[1..] + c2);
      NearestAppend(nb, Improve(nb, best, c1[0]), c1[1..], c2);
    }
  }

  /** `find_optimal_connection_point`: the type-matched scan, or, when it found
      nothing, the fallback scan over all buildings. */
  ghost function Find(net: Net, nb: Building): Option<Candidate>
  {
    match Nearest(nb, None, TypedCandidates(net, nb))
    case Some(t) => Some(Candidate(t, Dist(nb, t), true))
    case None =>
      match Nearest(nb, None, OtherConnected(net, nb, net.order))
      case Some(t) => Some(Candidate(t, Dist(nb, t), false))
      case None => None
  }

  /** Starting from a best-so-far `b0`, the scan either keeps `b0` (k < 0: nothing in
      `cands` is strictly nearer) or ends on `cands[k]`, strictly nearer than `b0`,
      nearer than everything before it and no farther than anything after it. */
  lemma {:induction false} NearestFrom(nb: Building, b0: Building, cands: seq<Building>) returns (k: int)
    ensures k < |cands|
    ensures k < 0 ==>
              && Nearest(nb, Some(b0), cands) == Some(b0)
              && forall j :: 0 <= j < |cands| ==> Dist(nb, cands[j]) >= Dist(nb, b0)
    ensures 0 <= k ==>
              && Nearest(nb, Some(b0), cands) == Some(cands[k])
              && Dist(nb, cands[k]) < Dist(nb, b0)
              && (forall j :: 0 <= j < k ==> Dist(nb, cands[j]) > Dist(nb, cands[k]))
              && (forall j :: 0 <= j < |cands| ==> Dist(nb, cands[j]) >= Dist(nb, cands[k]))
    decreases |cands|
  {
    if cands == [] {
      return -1;
    }
    var c := cands[0];
    var rest := cands[1..];
    if Dist(nb, c) < Dist(nb, b0) {
      var k' := NearestFrom(nb, c, rest);
      k := if k' < 0 then 0 else k' + 1;
    } else {
      var k' := NearestFrom(nb, b0, rest);
      k := if k' < 0 then -1 else k' + 1;
    }
  }

  /** Strict `<` makes the first minimum in scan order win: the result is the first
      candidate whose distance no other candidate undercuts. */
  lemma NearestFirstMinimum(nb: Building, cands: seq<Building>) returns (k: nat)
    requires cands != []
    ensures k < |cands| && Nearest(nb, None, cands) == Some(cands[k])
    ensures forall j :: 0 <= j < k ==> Dist(nb, cands[j]) > Dist(nb, cands[k])
    ensures forall j :: 0 <= j < |cands| ==> Dist(nb, cands[j]) >= Dist(nb, cands[k])
  {
    var k' := NearestFrom(nb, cands[0], cands[1..]);
    k := if k' < 0 then 0 else k' + 1;
  }

  /** The chosen target is connected, registered and not `nb` itself, and its
      distance is the real scaled distance. */
  lemma FindSound(net: Net, nb: Building)
    requires UniqueIds(net.order) && nb in net.order
    ensures Find(net, nb).Some? ==>
      var c := Find(net, nb).value;
      c.target in net.order && c.target in net.connected && c.target.id != nb.id
      && c.dist == Dist(nb, c.target)
  {
    if Find(net, nb).Some? {
      var t := Find(net, nb).value.target;
      if t.id == nb.id {
        SameIdSameBuilding(net.order, t, nb);
      }
    }
  }

  /** A discounted result is type-matched: a module of a type the pad serves, or a pad
      that serves the module's type. A raw-distance result means the type-matched scan
      found nothing. */
  lemma FindPhases(net: Net, nb: Building)
    ensures Find(net, nb).Some? && Find(net, nb).value.discounted <==> TypedCandidates(net, nb) != []
    ensures Find(net, nb).Some? && Find(net, nb).value.discounted && nb.kind == 0 ==>
      var t := Find(net, nb).value.target;
      t.kind != 0 && t.kind in nb.astronauts
    ensures Find(net, nb).Some? && Find(net, nb).value.discounted && nb.kind != 0 ==>
      var t := Find(net, nb).value.target;
      t.kind == 0 && nb.kind in t.astronauts
  {
  }

  /** The search comes back empty only when no other building is connected. */
  lemma FindNoneIff(net: Net, nb: Building)
    requires UniqueIds(net.order) && nb in net.order
    ensures Find(net, nb).None? <==> forall b :: b in net.order && b in net.connected ==> b.id == nb.id
  {
    if Find(net, nb).Some? {
      var c := Find(net, nb).value;
      FindSound(net, nb);
      assert c.target in net.order && c.target in net.connected && c.target.id != nb.id;
    }
  }

  /** The result is the first minimum of the list that was scanned. */
  lemma FindFirstMinimum(net: Net, nb: Building) returns (cands: seq<Building>, k: nat)
    requires Find(net, nb).Some?
    ensures cands == if Find(net, nb).value.discounted then TypedCandidates(net, nb)
                     else OtherConnected(net, nb, net.order)
    ensures k < |cands| && cands[k] == Find(net, nb).value.target
    ensures forall j :: 0 <= j < k ==> Dist(nb, cands[j]) > Find(net, nb).value.dist
    ensures forall j :: 0 <= j < |cands| ==> Dist(nb, cands[j]) >= Find(net, nb).value.dist
  {
    if TypedCandidates(net, nb) != [] {
      cands := TypedCandidates(net, nb);
    } else {
      cands := OtherConnected(net, nb, net.order);
    }
    k := NearestFirstMinimum(nb, cands);
  }

  /** Two networks whose connected sets agree outside `nb`. */
  ghost predicate AgreeExcept(n1: Net, n2: Net, nb: Building)
  {
    n1.order == n2.order && n1.connected - {nb} == n2.connected - {nb}
  }

  lemma {:induction false} ConnectedInAgree(n1: Net, n2: Net, nb: Building, bs: seq<Building>)
    requires AgreeExcept(n1, n2, nb) && nb !in bs
    ensures ConnectedIn(n1, bs) == ConnectedIn(n2, bs)
    decreases |bs|
  {
    if bs != [] {
      assert bs[0] in n1.connected - {nb} <==> bs[0] in n2.connected - {nb};
      ConnectedInAgree(n1, n2, nb, bs[1..]);
    }
  }

  lemma {:induction false} ModuleCandidatesAgree(n1: Net, n2: Net, nb: Building, types: seq<int>)
    requires AgreeExcept(n1, n2, nb) && nb.kind == 0
    ensures ModuleCandidates(n1, types) == ModuleCandidates(n2, types)
    decreases |types|
  {
    if types != [] {
      ConnectedInAgree(n1, n2, nb, ModulesOf(n1.order, types[0]));
      ModuleCandidatesAgree(n1, n2, nb, types[1..]);
    }
  }

  lemma {:induction false} PadCandidatesAgree(n1: Net, n2: Net, nb: Building, pads: seq<Building>)
    requires AgreeExcept(n1, n2, nb) && nb !in pads
    ensures PadCandidates(n1, nb.kind, pads) == PadCandidates(n2, nb.kind, pads)
    decreases |pads|
  {
    if pads != [] {
      assert pads[0] in n1.connected - {nb} <==> pads[0] in n2.connected - {nb};
      PadCandidatesAgree(n1, n2, nb, pads[1..]);
    }
  }

  lemma {:induction false} OtherConnectedAgree(n1: Net, n2: Net, nb: Building, bs: seq<Building>)
    requires AgreeExcept(n1, n2, nb)
    ensures OtherConnected(n1, nb, bs) == OtherConnected(n2, nb, bs)
    decreases |bs|
  {
    if bs != [] {
      assert bs[0] != nb ==> (bs[0] in n1.connected - {nb} <==> bs[0] in n2.connected - {nb});
      OtherConnectedAgree(n1, n2, nb, bs[1..]);
    }
  }

  /** The search never looks at `nb`'s own flag: neither scan can offer `nb` (the
      typed scan offers only buildings of the other kind, the fallback skips `nb`'s
      id), so changing that flag, the routes or the budget leaves the result alone. */
  lemma FindIgnoresOwnFlag(n1: Net, n2: Net, nb: Building)
    requires AgreeExcept(n1, n2, nb)
    ensures Find(n1, nb) == Find(n2, nb)
  {
    if nb.kind == 0 {
      ModuleCandidatesAgree(n1, n2, nb, nb.astronauts);
    } else {
      PadCandidatesAgree(n1, n2, nb, Pads(n1.order));
    }
    OtherConnectedAgree(n1, n2, nb, n1.order);
  }

  /** The seed rule gives the first search somewhere to land: right after a refresh
      with no routes, every building but the seed finds a candidate. */
  lemma SeedGivesCandidate(net: Net, nb: Building)
    requires WellFormed(net) && net.routes == {} && nb in net.order && nb != net.order[0]
    ensures Find(Refreshed(net), nb).Some?
  {
    var seed := net.order[0];
    var n1 := Refreshed(net);
    assert seed in n1.connected;
    if seed.id == nb.id {
      SameIdSameBuilding(net.order, seed, nb);
    }
    FindNoneIff(n1, nb);
  }
}
