/** The bookkeeping rules every emitted action follows, stated on the action list
    alone. `Replay` walks the list from a starting book and clears `ok` at the first
    action that breaks a rule:
    - a TUBE joins a pair that has no route yet;
    - a POD runs on a pair that already has a route and no pod, carries the next pod
      id, and returns to its first stop;
    - a TELEPORT ends at a module that is not yet an exit and has no teleport to that
      pad yet. */
module Ledger {
  import opened Pairs
  import opened Network

  datatype Book = Book(
    routes: set<Pair>,
    podRoutes: set<Pair>,
    teleports: set<Pair>,
    exits: set<int>,
    next: int,
    ok: bool)

  /** The ids of a set of buildings. */
  ghost function IdsOf(s: set<Building>): set<int>
  {
    set b | b in s :: b.id
  }

  /** The book a network value starts a pass with. */
  ghost function BookOf(net: Net, next: int): Book
  {
    Book(net.routes, net.podRoutes, net.teleports, IdsOf(net.exits), next, true)
  }

  function Post(l: Book, act: Action): Book
  {
    match act
    case Tube(a, b) =>
      l.(ok := l.ok && !Has(l.routes, a, b), routes := Add(l.routes, a, b))
    case Pod(n, a, b, c) =>
      l.(ok := l.ok && n == l.next && c == a && Has(l.routes, a, b) && !Has(l.podRoutes, a, b),
         podRoutes := Add(l.podRoutes, a, b), next := l.next + 1)
    case Teleport(p, m) =>
      l.(ok := l.ok && m !in l.exits && !Has(l.teleports, p, m),
         teleports := Add(l.teleports, p, m), exits := l.exits + {m})
  }

  function Replay(l: Book, acts: seq<Action>): Book
    decreases |acts|
  {
    if acts == [] then l else Replay(Post(l, acts[0]), acts[1..])
  }

  /** Replaying two lists one after the other is replaying their concatenation. */
  lemma {:induction false} ReplayAppend(l: Book, a1: seq<Action>, a2: seq<Action>)
    ensures Replay(l, a1 + a2) == Replay(Replay(l, a1), a2)
    decreases |a1|
  {
    if a1 != [] {
      assert (a1 + a2)[0] == a1[0];
      assert (a1 + a2)[1..] == a1[1..] + a2;
      ReplayAppend(Post(l, a1[0]), a1[1..], a2);
    } else {
      assert a1 + a2 == a2;
    }
  }

  /** Once a rule is broken the book stays broken. */
  lemma {:induction false} ReplayOkStart(l: Book, acts: seq<Action>)
    ensures Replay(l, acts).ok ==> l.ok
    decreases |acts|
  {
    if acts != [] {
      ReplayOkStart(Post(l, acts[0]), acts[1..]);
    }
  }

  /** Tubes only ever add routes. */
  lemma {:induction false} ReplayRoutesGrow(l: Book, acts: seq<Action>)
    ensures l.routes <= Replay(l, acts).routes
    decreases |acts|
  {
    if acts != [] {
      ReplayRoutesGrow(Post(l, acts[0]), acts[1..]);
    }
  }

  /** No two TUBE actions of a well-formed list join the same unordered pair, and none
      joins a pair that already had a route. */
  lemma {:induction false} TubesDistinct(l: Book, acts: seq<Action>)
    requires Replay(l, acts).ok
    ensures forall i :: 0 <= i < |acts| && acts[i].Tube? ==> !Has(l.routes, acts[i].a, acts[i].b)
    ensures forall i, j :: 0 <= i < j < |acts| && acts[i].Tube? && acts[j].Tube? ==>
              Canon(acts[i].a, acts[i].b) != Canon(acts[j].a, acts[j].b)
    decreases |acts|
  {
    if acts != [] {
      var l1 := Post(l, acts[0]);
      var rest := acts[1..];
      TubesDistinct(l1, rest);
      ReplayOkStart(l1, rest);
      assert forall i :: 1 <= i < |acts| ==> acts[i] == rest[i - 1];
    }
  }

  /** No two POD actions of a well-formed list serve the same unordered pair, and none
      serves a pair that already had a pod. */
  lemma {:induction false} PodsDistinct(l: Book, acts: seq<Action>)
    requires Replay(l, acts).ok
    ensures forall i :: 0 <= i < |acts| && acts[i].Pod? ==> !Has(l.podRoutes, acts[i].a, acts[i].b)
    ensures forall i, j :: 0 <= i < j < |acts| && acts[i].Pod? && acts[j].Pod? ==>
              Canon(acts[i].a, acts[i].b) != Canon(acts[j].a, acts[j].b)
    decreases |acts|
  {
    if acts != [] {
      var l1 := Post(l, acts[0]);
      var rest := acts[1..];
      PodsDistinct(l1, rest);
      ReplayOkStart(l1, rest);
      assert forall i :: 1 <= i < |acts| ==> acts[i] == rest[i - 1];
    }
  }

  /** Every POD of a well-formed list runs on a route that existed at the start or was
      built by an earlier TUBE of the list, and returns to its first stop. */
  lemma {:induction false} PodsOnRoutes(l: Book, acts: seq<Action>, i: nat)
    requires Replay(l, acts).ok && i < |acts| && acts[i].Pod?
    ensures acts[i].back == acts[i].a
    ensures Has(l.routes, acts[i].a, acts[i].b)
            || exists j :: 0 <= j < i && acts[j].Tube? && Canon(acts[j].a, acts[j].b) == Canon(acts[i].a, acts[i].b)
    decreases |acts|
  {
    var l1 := Post(l, acts[0]);
    var rest := acts[1..];
    ReplayOkStart(l1, rest);
    if i > 0 {
      assert rest[i - 1] == acts[i];
      PodsOnRoutes(l1, rest, i - 1);
      if !Has(l1.routes, acts[i].a, acts[i].b) {
        var j :| 0 <= j < i - 1 && rest[j].Tube? && Canon(rest[j].a, rest[j].b) == Canon(acts[i].a, acts[i].b);
        assert acts[j + 1] == rest[j];
      } else if acts[0].Tube? && !Has(l.routes, acts[i].a, acts[i].b) {
        AddExact(l.routes, acts[0].a, acts[0].b, acts[i].a, acts[i].b);
        CanonInjective(acts[0].a, acts[0].b, acts[i].a, acts[i].b);
      }
    }
  }

  /** The number of POD actions in a list. */
  function PodCount(acts: seq<Action>): nat
  {
    if acts == [] then 0 else (if acts[0].Pod? then 1 else 0) + PodCount(acts[1..])
  }

  lemma {:induction false} PodCountAppend(a1: seq<Action>, a2: seq<Action>)
    ensures PodCount(a1 + a2) == PodCount(a1) + PodCount(a2)
    decreases |a1|
  {
    if a1 == [] {
      assert a1 + a2 == a2;
    } else {
      assert (a1 + a2)[1..] == a1[1..] + a2;
      PodCountAppend(a1[1..], a2);
    }
  }

  /** A list without PODs counts none. */
  lemma {:induction false} PodCountNone(acts: seq<Action>)
    requires forall i :: 0 <= i < |acts| ==> !acts[i].Pod?
    ensures PodCount(acts) == 0
    decreases |acts|
  {
    if acts != [] {
      assert !acts[0].Pod?;
      PodCountNone(acts[1..]);
    }
  }

  /** Pod ids are handed out consecutively: the POD at position i carries the starting
      id plus the number of PODs before it. */
  lemma {:induction false} PodIdsConsecutive(l: Book, acts: seq<Action>, i: nat)
    requires Replay(l, acts).ok && i < |acts| && acts[i].Pod?
    ensures acts[i].podId == l.next + PodCount(acts[..i])
    decreases |acts|
  {
    var l1 := Post(l, acts[0]);
    var rest := acts[1..];
    ReplayOkStart(l1, rest);
    if i > 0 {
      assert rest[i - 1] == acts[i];
      PodIdsConsecutive(l1, rest, i - 1);
      assert acts[..i][1..] == rest[..i - 1];
    }
  }

  /** The book's next id moves past one id per POD. */
  lemma {:induction false} ReplayNext(l: Book, acts: seq<Action>)
    ensures Replay(l, acts).next == l.next + PodCount(acts)
    decreases |acts|
  {
    if acts != [] {
      ReplayNext(Post(l, acts[0]), acts[1..]);
    }
  }

  /** No two TELEPORT actions of a well-formed list share an exit, and no exit was an
      exit before. */
  lemma {:induction false} ExitsDistinct(l: Book, acts: seq<Action>)
    requires Replay(l, acts).ok
    ensures forall i :: 0 <= i < |acts| && acts[i].Teleport? ==> acts[i].exit !in l.exits
    ensures forall i, j :: 0 <= i < j < |acts| && acts[i].Teleport? && acts[j].Teleport? ==>
              acts[i].exit != acts[j].exit
    decreases |acts|
  {
    if acts != [] {
      var l1 := Post(l, acts[0]);
      var rest := acts[1..];
      ExitsDistinct(l1, rest);
      ReplayOkStart(l1, rest);
      assert forall i :: 1 <= i < |acts| ==> acts[i] == rest[i - 1];
    }
  }
}
