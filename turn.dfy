/** One turn of the engine, after the turn's input has been read into the state: the
    refresh, then the three passes in order, their actions concatenated. */
module Turn {
  import opened Network
  import opened Ledger
  import Connect
  import Pods
  import Teleport

  ghost function TurnSpec(net: Net, news: seq<Building>): (Net, seq<Action>)
  {
    var n0 := Refreshed(net);
    var (n1, a1) := Connect.ConnectNew(n0, news);
    var r2 := Pods.RoutesAndPods(n1, news);
    var (n3, a3) := Teleport.Teleporters(r2.net, news);
    (n3, a1 + r2.acts + a3)
  }

  /** The turn, pass by pass. */
  lemma TurnSteps(net: Net, news: seq<Building>, n0: Net, n1: Net, a1: seq<Action>, r2: Pods.Run, n3: Net, a3: seq<Action>)
    requires n0 == Refreshed(net)
    requires n1 == Connect.ConnectNew(n0, news).0 && a1 == Connect.ConnectNew(n0, news).1
    requires r2 == Pods.RoutesAndPods(n1, news)
    requires n3 == Teleport.Teleporters(r2.net, news).0 && a3 == Teleport.Teleporters(r2.net, news).1
    ensures TurnSpec(net, news).0 == n3
    ensures TurnSpec(net, news).1 == a1 + r2.acts + a3
  {
  }

  /** The refresh and the first pass, as the turn sees them. */
  lemma FirstPass(net: Net, news: seq<Building>, k: int)
    requires WellFormed(net)
    requires forall b :: b in news ==> b in net.order
    ensures
      var (n1, a1) := Connect.ConnectNew(Refreshed(net), news);
      && n1.order == net.order && n1.entrances == net.entrances && n1.pods == net.pods
      && WellFormed(n1) && RouteEndsConnected(n1)
      && Replay(BookOf(net, k), a1) == BookOf(n1, k)
      && PodCount(a1) == 0
      && (DistinctPositions(net.order) && net.resources >= 0 ==> n1.resources >= 0)
  {
    var n0 := Refreshed(net);
    RefreshEstablishes(net);
    Connect.ConnectNewFacts(n0, news, k);
    PodCountNone(Connect.ConnectNew(n0, news).1);
  }

  /** The second pass, as the turn sees it. */
  lemma SecondPass(n1: Net, news: seq<Building>)
    requires WellFormed(n1) && RouteEndsConnected(n1)
    requires forall b :: b in news ==> b in n1.order
    ensures
      var start := Pods.NextPodId(n1.pods);
      var r2 := Pods.RoutesAndPods(n1, news);
      && r2.net.order == n1.order && r2.net.entrances == n1.entrances
      && WellFormed(r2.net) && RouteEndsConnected(r2.net)
      && Replay(BookOf(n1, start), r2.acts) == BookOf(r2.net, r2.next)
      && r2.next == start + PodCount(r2.acts)
      && r2.net.pods == n1.pods + Pods.Range(start, r2.next)
      && Pods.Range(start, r2.next) !! n1.pods
      && (n1.resources >= 0 ==> r2.net.resources >= 0)
  {
    Pods.RoutesAndPodsFacts(n1, news);
  }

  /** The third pass, as the turn sees it. */
  lemma ThirdPass(n2: Net, news: seq<Building>, k: int)
    requires WellFormed(n2) && RouteEndsConnected(n2)
    requires forall b :: b in news ==> b in n2.order
    ensures
      var (n3, a3) := Teleport.Teleporters(n2, news);
      && n3.order == n2.order && n3.pods == n2.pods
      && WellFormed(n3) && RouteEndsConnected(n3)
      && Replay(BookOf(n2, k), a3) == BookOf(n3, k)
      && PodCount(a3) == 0
      && n3.entrances == n2.entrances + ArrivedPads(news)
      && (n2.resources >= 0 ==> n3.resources >= 0)
  {
    Teleport.TeleportFromFacts(n2, news, k);
    PodCountNone(Teleport.Teleporters(n2, news).1);
  }

  /** A turn's whole action list follows the bookkeeping rules from the state the turn
      started in, with pod ids from one past the largest known pod: no tube duplicates a
      route, no pod duplicates a pod route or runs off a route, pod ids run
      consecutively, and no exit is used twice. The pods gained are exactly the ids
      handed out, none of them known before. */
  lemma TurnLedger(net: Net, news: seq<Building>)
    requires WellFormed(net)
    requires forall b :: b in news ==> b in net.order
    ensures
      var start := Pods.NextPodId(net.pods);
      var acts := TurnSpec(net, news).1;
      && Replay(BookOf(net, start), acts).ok
      && TurnSpec(net, news).0.pods == net.pods + Pods.Range(start, start + PodCount(acts))
      && Pods.Range(start, start + PodCount(acts)) !! net.pods
  {
    var start := Pods.NextPodId(net.pods);
    var (n1, a1) := Connect.ConnectNew(Refreshed(net), news);
    var r2 := Pods.RoutesAndPods(n1, news);
    var (n3, a3) := Teleport.Teleporters(r2.net, news);
    var acts := a1 + r2.acts + a3;
    assert TurnSpec(net, news) == (n3, acts);
    FirstPass(net, news, start);
    SecondPass(n1, news);
    ThirdPass(r2.net, news, r2.next);
    assert Replay(BookOf(net, start), acts) == BookOf(n3, r2.next) by {
      ReplayAppend(BookOf(net, start), a1, r2.acts);
      ReplayAppend(BookOf(net, start), a1 + r2.acts, a3);
    }
    assert start + PodCount(acts) == r2.next by {
      PodCountAppend(a1, r2.acts);
      PodCountAppend(a1 + r2.acts, a3);
    }
  }

  /** After a turn the state is well formed with every route endpoint connected; the
      budget stays non-negative when no two buildings share a spot; every arriving pad
      ends up an entrance and nothing else becomes one. */
  lemma TurnState(net: Net, news: seq<Building>)
    requires WellFormed(net)
    requires forall b :: b in news ==> b in net.order
    ensures
      var n3 := TurnSpec(net, news).0;
      && n3.order == net.order && WellFormed(n3) && RouteEndsConnected(n3)
      && (DistinctPositions(net.order) && net.resources >= 0 ==> n3.resources >= 0)
      && n3.entrances == net.entrances + ArrivedPads(news)
  {
    var (n1, a1) := Connect.ConnectNew(Refreshed(net), news);
    FirstPass(net, news, 0);
    var r2 := Pods.RoutesAndPods(n1, news);
    SecondPass(n1, news);
    ThirdPass(r2.net, news, 0);
  }
}
