/** The breadth-first connectivity check `is_connected` of
    generate_network.py:93-108, and the fact that every network
    `generate_connected_graph` builds passes it (the assertion of line 126). */
module Connectivity {
  import opened Reindex
  import opened GenerateNetwork

  type Edges = map<int, seq<int>>

  /** `edges.get(u, [])`, line 104. */
  function Nbrs(edges: Edges, u: int): seq<int>
  {
    if u in edges then edges[u] else []
  }

  /** A walk from station 0 along the neighbour lists. */
  ghost predicate IsPath(edges: Edges, p: seq<int>)
  {
    |p| >= 1 && p[0] == 0 && forall k :: 0 <= k < |p| - 1 ==> p[k + 1] in Nbrs(edges, p[k])
  }

  /** `v` can be reached from station 0. */
  ghost predicate Reachable(edges: Edges, v: int)
  {
    exists p :: IsPath(edges, p) && p[|p| - 1] == v
  }

  /** `r` is the set of stations reachable from 0. */
  ghost predicate IsReachSet(edges: Edges, r: set<int>)
  {
    forall v :: v in r <==> Reachable(edges, v)
  }

  /** What `is_connected` decides: the dict is empty, or the stations
      reachable from 0 are as many as the dict has keys. */
  ghost predicate Connected(edges: Edges)
  {
    |edges| == 0 || exists r :: IsReachSet(edges, r) && |r| == |edges|
  }

  /** Every neighbour of a member of `s` is in `s`. */
  ghost predicate Closed(edges: Edges, s: set<int>)
  {
    forall u, v :: u in s && v in Nbrs(edges, u) ==> v in s
  }

  /** A walk can be extended by one neighbour. */
  lemma ReachStep(edges: Edges, u: int, v: int)
    requires Reachable(edges, u)
    requires v in Nbrs(edges, u)
    ensures Reachable(edges, v)
  {
    var p :| IsPath(edges, p) && p[|p| - 1] == u;
    var q := p + [v];
    assert q[|q| - 1] == v;
    assert IsPath(edges, q);
  }

  /** A set that holds station 0 and is closed under neighbours holds every
      reachable station. */
  lemma ClosedHoldsReachable(edges: Edges, s: set<int>, v: int)
    requires 0 in s && Closed(edges, s)
    requires Reachable(edges, v)
    ensures v in s
  {
    var p :| IsPath(edges, p) && p[|p| - 1] == v;
    PathInClosed(edges, s, p);
  }

  lemma {:induction false} PathInClosed(edges: Edges, s: set<int>, p: seq<int>)
    requires 0 in s && Closed(edges, s)
    requires IsPath(edges, p)
    ensures p[|p| - 1] in s
  {
    if |p| > 1 {
      var init := p[..|p| - 1];
      assert IsPath(edges, init) by {
        forall k | 0 <= k < |init| - 1 ensures init[k + 1] in Nbrs(edges, init[k]) {
          assert init[k + 1] == p[k + 1] && init[k] == p[k];
        }
      }
      PathInClosed(edges, s, init);
      var a, b := p[|p| - 2], p[|p| - 1];
      assert init[|init| - 1] == a;
      assert a in s;
      assert b in Nbrs(edges, a);
    }
  }

  /** Every station the search can meet: 0 and every listed neighbour. */
  function Universe(edges: Edges): set<int>
  {
    {0} + set u, v | u in edges && v in edges[u] :: v
  }

  /** `visited` holds exactly the stations met so far, each met once, in the
      order `order`; the stations still in `queue` are the last ones met. */
  ghost predicate SearchState(edges: Edges, visited: set<int>, queue: seq<int>, order: seq<int>)
  {
    && 0 in visited
    && visited <= Universe(edges)
    && (forall v :: v in visited ==> Reachable(edges, v))
    && (forall v :: v in visited <==> v in order)
    && NoDuplicates(order)
    && |queue| <= |order| && queue == order[|order| - |queue|..]
  }

  /** Lines 93-108: breadth-first search from station 0. `order` is the order
      in which stations enter the queue. */
  method IsConnected(edges: Edges) returns (ok: bool, ghost order: seq<int>)
    ensures ok == Connected(edges)
    ensures NoDuplicates(order)
    ensures |edges| > 0 ==> IsReachSet(edges, set v | v in order)
  {
    if |edges| == 0 {
      return true, [];
    }
    var n := |edges|;
    var visited: set<int> := {0};
    var queue: seq<int> := [0];
    order := [0];
    assert IsPath(edges, [0]);
    while queue != []
      invariant SearchState(edges, visited, queue, order)
      invariant forall u, v :: u in visited && u !in queue && v in Nbrs(edges, u) ==> v in visited
      decreases |Universe(edges) - visited|, |queue|
    {
      ghost var visited0, queue0 := visited, queue;
      var u := queue[0];
      DequeueFresh(order, queue);
      queue := queue[1..];
      visited, queue, order := VisitNeighbours(edges, u, visited, queue, order);
      StaysClosed(edges, u, visited0, queue0, visited, queue);
      if visited != visited0 {
        FewerUnvisited(Universe(edges), visited0, visited);
      }
    }
    SearchComplete(edges, visited, order);
    ok := |visited| == n;
  }

  /** After `u` is dequeued and its neighbours visited, every visited station
      that has left the queue still has all its neighbours visited. */
  lemma StaysClosed(edges: Edges, u: int, visited0: set<int>, queue0: seq<int>, visited: set<int>, queue: seq<int>)
    requires queue0 != [] && u == queue0[0]
    requires forall w, v :: w in visited0 && w !in queue0 && v in Nbrs(edges, w) ==> v in visited0
    requires visited0 <= visited && forall v :: v in Nbrs(edges, u) ==> v in visited
    requires |queue0| - 1 <= |queue| && queue[..|queue0| - 1] == queue0[1..]
    requires forall w :: w in visited && w !in visited0 ==> w in queue
    ensures forall w, v :: w in visited && w !in queue && v in Nbrs(edges, w) ==> v in visited
  {
    forall w, v | w in visited && w !in queue && v in Nbrs(edges, w) ensures v in visited {
      if w != u {
        assert w in visited0;
      }
    }
  }

  /** When the queue has run dry, the stations met are exactly the
      reachable ones, and `len(visited) == n` decides connectivity. */
  lemma SearchComplete(edges: Edges, visited: set<int>, order: seq<int>)
    requires |edges| > 0
    requires SearchState(edges, visited, [], order)
    requires forall u, v :: u in visited && v in Nbrs(edges, u) ==> v in visited
    ensures IsReachSet(edges, visited)
    ensures (set v | v in order) == visited
    ensures (|visited| == |edges|) == Connected(edges)
  {
    assert Closed(edges, visited);
    forall v ensures v in visited <==> Reachable(edges, v) {
      if Reachable(edges, v) {
        ClosedHoldsReachable(edges, visited, v);
      }
    }
    if Connected(edges) {
      var r :| IsReachSet(edges, r) && |r| == |edges|;
      assert forall v :: v in r <==> Reachable(edges, v);
      assert forall v :: v in r <==> v in visited;
      assert r == visited;
    }
  }

  /** The inner loop of lines 104-107: every neighbour of `u` not yet met
      is marked and queued. */
  method VisitNeighbours(edges: Edges, u: int, visited: set<int>, queue: seq<int>, ghost order: seq<int>)
    returns (visited': set<int>, queue': seq<int>, ghost order': seq<int>)
    requires SearchState(edges, visited, queue, order)
    requires u in visited && u !in queue
    ensures SearchState(edges, visited', queue', order')
    ensures visited <= visited' && u !in queue'
    ensures forall v :: v in Nbrs(edges, u) ==> v in visited'
    ensures |queue| <= |queue'| && queue'[..|queue|] == queue
    ensures forall w :: w in visited' && w !in visited ==> w in queue'
    ensures visited' == visited ==> queue' == queue
  {
    visited', queue', order' := visited, queue, order;
    var nbrs := Nbrs(edges, u);
    var i := 0;
    while i < |nbrs|
      invariant 0 <= i <= |nbrs|
      invariant Visiting(edges, u, visited, queue, visited', queue', order', nbrs[..i])
    {
      var v := nbrs[i];
      ghost var done := nbrs[..i];
      assert nbrs[..i + 1] == done + [v];
      if v !in visited' {
        VisitNew(edges, u, v, visited, queue, visited', queue', order', done);
        visited' := visited' + {v};
        queue' := queue' + [v];
        order' := order' + [v];
      } else {
        VisitKnown(edges, u, v, visited, queue, visited', queue', order', done);
      }
      i := i + 1;
    }
    assert nbrs[..i] == nbrs;
  }

  /** The state of the inner loop once the neighbours in `done` are handled. */
  ghost predicate Visiting(edges: Edges, u: int, visited: set<int>, queue: seq<int>,
                           visited': set<int>, queue': seq<int>, order': seq<int>, done: seq<int>)
  {
    && SearchState(edges, visited', queue', order')
    && visited <= visited' && u !in queue'
    && (forall v :: v in done ==> v in visited')
    && |queue| <= |queue'| && queue'[..|queue|] == queue
    && (forall w :: w in visited' && w !in visited ==> w in queue')
    && (visited' == visited ==> queue' == queue)
  }

  /** Handling a neighbour not met yet. */
  lemma VisitNew(edges: Edges, u: int, v: int, visited: set<int>, queue: seq<int>,
                 visited': set<int>, queue': seq<int>, order': seq<int>, done: seq<int>)
    requires Visiting(edges, u, visited, queue, visited', queue', order', done)
    requires u in visited' && u != v && v in Nbrs(edges, u) && v !in visited'
    ensures Visiting(edges, u, visited, queue, visited' + {v}, queue' + [v], order' + [v], done + [v])
  {
    MeetStation(edges, u, v, visited', queue', order');
    assert (queue' + [v])[..|queue|] == queue'[..|queue|];
  }

  /** Handling a neighbour met before. */
  lemma VisitKnown(edges: Edges, u: int, v: int, visited: set<int>, queue: seq<int>,
                   visited': set<int>, queue': seq<int>, order': seq<int>, done: seq<int>)
    requires Visiting(edges, u, visited, queue, visited', queue', order', done)
    requires v in visited'
    ensures Visiting(edges, u, visited, queue, visited', queue', order', done + [v])
  {
  }

  /** Meeting a new neighbour `v` of a visited station keeps the search
      state: `v` is reachable, met once, and enters at the back of the queue. */
  lemma MeetStation(edges: Edges, u: int, v: int, visited: set<int>, queue: seq<int>, order: seq<int>)
    requires SearchState(edges, visited, queue, order)
    requires u in visited && v in Nbrs(edges, u) && v !in visited
    ensures SearchState(edges, visited + {v}, queue + [v], order + [v])
  {
    ReachStep(edges, u, v);
    assert u in edges && v in edges[u];
    assert v in Universe(edges);
    var order' := order + [v];
    assert v !in order;
    forall a, b | 0 <= a < b < |order'| ensures order'[a] != order'[b] {
      if b == |order| {
        assert order'[a] == order[a];
      } else {
        assert order'[a] == order[a] && order'[b] == order[b];
      }
    }
    assert (queue + [v]) == order'[|order'| - |queue + [v]|..];
  }

  /** The head of the queue is met nowhere else in it. */
  lemma DequeueFresh(order: seq<int>, queue: seq<int>)
    requires NoDuplicates(order)
    requires queue != [] && |queue| <= |order| && queue == order[|order| - |queue|..]
    ensures queue[0] !in queue[1..]
  {
    var base := |order| - |queue|;
    forall k | 0 <= k < |queue| - 1 ensures queue[1..][k] != queue[0] {
      assert queue[1..][k] == order[base + 1 + k] && queue[0] == order[base];
    }
  }

  /** Meeting a new station shrinks the set of stations not yet met. */
  lemma FewerUnvisited(u: set<int>, a: set<int>, b: set<int>)
    requires a <= b <= u && a != b
    ensures |u - b| < |u - a|
  {
    var d := b - a;
    assert (forall y :: y !in d) ==> d == {};
    var x :| x in d;
    SubsetSize(u - b, (u - a) - {x});
  }

  lemma {:induction false} SubsetSize(a: set<int>, b: set<int>)
    requires a <= b
    ensures |a| <= |b|
    decreases |a|
  {
    if a != {} {
      assert (forall y :: y !in a) ==> a == {};
      var x :| x in a;
      SubsetSize(a - {x}, b - {x});
    }
  }

  /** Every station `v` of `1..n-1` has an edge to its smaller parent
      `choice[v - 1]`. */
  ghost predicate ParentLinked(g: Edges, choice: seq<int>, n: int)
    requires forall i :: i in g <==> 0 <= i < n
  {
    |choice| >= n - 1 && forall w :: 1 <= w < n ==> choice[w - 1] < w && choice[w - 1] in g[w]
  }

  /** In a generated network every station is reachable from 0, by climbing
      the tree back up from its parent. */
  lemma {:induction false} StationReachable(g: Edges, choice: seq<int>, n: int, v: int)
    requires forall i :: i in g <==> 0 <= i < n
    requires UndirectedDict(g)
    requires ParentLinked(g, choice, n)
    requires 0 <= v < n
    ensures Reachable(g, v)
    decreases v
  {
    if v == 0 {
      assert IsPath(g, [0]);
    } else {
      var parent := choice[v - 1];
      assert parent < v && parent in g[v] && parent in g;
      StationReachable(g, choice, n, parent);
      assert v in g[parent];
      ReachStep(g, parent, v);
    }
  }

  /** In a dict over stations `0..n-1` whose every station has an edge to a
      smaller parent, the reachable stations are all of them. */
  lemma TreeReachSet(g: Edges, choice: seq<int>, n: int)
    requires forall i :: i in g <==> 0 <= i < n
    requires UndirectedDict(g)
    requires ParentLinked(g, choice, n)
    requires n >= 1
    ensures IsReachSet(g, g.Keys)
  {
    assert Closed(g, g.Keys) by {
      forall u, v | u in g.Keys && v in Nbrs(g, u) ensures v in g.Keys {
        assert v in g[u];
      }
    }
    forall v ensures v in g.Keys <==> Reachable(g, v) {
      if Reachable(g, v) {
        ClosedHoldsReachable(g, g.Keys, v);
      }
      if v in g.Keys {
        StationReachable(g, choice, n, v);
      }
    }
  }

  /** Hence such a dict is connected. */
  lemma TreeConnected(g: Edges, choice: seq<int>, n: int)
    requires n >= 1
    requires forall i :: i in g <==> 0 <= i < n
    requires UndirectedDict(g)
    requires ParentLinked(g, choice, n)
    ensures Connected(g)
  {
    TreeReachSet(g, choice, n);
    assert |g.Keys| == |g|;
  }

  /** Every network `generate_connected_graph` returns is connected: the
      assertion of line 126 never fails. */
  lemma GeneratedIsConnected(n: int, choice: seq<int>, requested: int, picks: seq<int>)
    requires n >= 1 && GraphDraws(n, choice, requested, picks)
    ensures Generated(n, choice, requested, picks).Ok?
    ensures Connected(Generated(n, choice, requested, picks).value)
  {
    GeneratedShape(n, choice, requested, picks);
    var g := Generated(n, choice, requested, picks).value;
    TreeConnected(g, choice, n);
  }
}
