/** The random connected network of generate_network.py. The graph lives on
    stations 0..n-1 as a list of neighbour lists (the `defaultdict(list)` of
    line 27 over those stations). The random module is outside the model: the
    draws of `random.choice`, `random.sample` and `random.randint` are
    parameters, each required to lie where the call could have put it. */
module GenerateNetwork {
  import opened PyDict
  import opened Sums
  import opened Reindex

  type Adj = seq<seq<int>>

  /** `ValueError` of line 23. */
  datatype Result<T> = Ok(value: T) | Err(message: string)

  // ---------------------------------------------------------------------
  // Spanning tree by random attachment, lines 32-40
  // ---------------------------------------------------------------------

  /** `random.choice(available)` for station `q + 1` picks position `choice[q]`
      of `available`, which then holds `q + 1` stations. */
  predicate TreeDraws(n: int, choice: seq<int>)
  {
    |choice| >= n - 1 && forall q :: 0 <= q < n - 1 ==> 0 <= choice[q] <= q
  }

  /** Lines 38-39: the edge `parent - v` in both directions. */
  function Attach(adj: Adj, parent: int, v: int): Adj
    requires 0 <= parent < |adj| && 0 <= v < |adj|
  {
    var a := adj[parent := adj[parent] + [v]];
    a[v := a[v] + [parent]]
  }

  /** The graph after stations `1..v-1` have been attached. */
  function Tree(n: int, choice: seq<int>, v: int): (adj: Adj)
    requires TreeDraws(n, choice)
    requires 1 <= v <= n
    ensures |adj| == n
  {
    if v == 1 then seq(n, _ => []) else Attach(Tree(n, choice, v - 1), choice[v - 2], v - 1)
  }

  /** The parent relation read as an undirected edge. */
  predicate TreeEdge(choice: seq<int>, n: int, i: int, j: int)
    requires TreeDraws(n, choice)
  {
    (1 <= i < n && j == choice[i - 1]) || (1 <= j < n && i == choice[j - 1])
  }

  /** The sum of the row lengths of `adj`: twice the number of edges. */
  function Degrees(adj: Adj): int
  {
    SumRange(0, |adj|, i => if 0 <= i < |adj| then |adj[i]| else 0)
  }

  /** Appending to one row adds one to the degree sum. */
  lemma DegreesAppend(adj: Adj, r: int, x: int)
    requires 0 <= r < |adj|
    ensures Degrees(adj[r := adj[r] + [x]]) == Degrees(adj) + 1
  {
    var a := adj[r := adj[r] + [x]];
    SumRangePoint(0, |adj|, i => if 0 <= i < |adj| then |adj[i]| else 0,
      i => if 0 <= i < |a| then |a[i]| else 0, r, 1);
  }

  /** After attaching stations `1..v-1`: the rows hold exactly the tree edges
      among those stations, without repeats, and there are `v - 1` edges. */
  lemma TreeShape(n: int, choice: seq<int>, v: int)
    requires TreeDraws(n, choice)
    requires 1 <= v <= n
    ensures |Tree(n, choice, v)| == n
    ensures forall i, j :: 0 <= i < n ==>
      (j in Tree(n, choice, v)[i] <==> 0 <= i < v && 0 <= j < v && TreeEdge(choice, n, i, j))
    ensures forall i :: 0 <= i < n ==> NoDuplicates(Tree(n, choice, v)[i])
    ensures Degrees(Tree(n, choice, v)) == 2 * (v - 1)
  {
    forall i, j | 0 <= i < n
      ensures j in Tree(n, choice, v)[i] <==> 0 <= i < v && 0 <= j < v && TreeEdge(choice, n, i, j)
    {
      TreeMember(n, choice, v, i, j);
    }
    forall i | 0 <= i < n ensures NoDuplicates(Tree(n, choice, v)[i]) {
      TreeRowNoDuplicates(n, choice, v, i);
    }
    TreeDegrees(n, choice, v);
  }

  lemma {:induction false} TreeMember(n: int, choice: seq<int>, v: int, i: int, j: int)
    requires TreeDraws(n, choice)
    requires 1 <= v <= n && 0 <= i < n
    ensures j in Tree(n, choice, v)[i] <==> 0 <= i < v && 0 <= j < v && TreeEdge(choice, n, i, j)
  {
    if v == 1 {
      var empty: Adj := seq(n, _ => []);
      assert Tree(n, choice, v) == empty;
      assert empty[i] == [];
    } else {
      TreeMember(n, choice, v - 1, i, j);
      var prev := Tree(n, choice, v - 1);
      var p, u := choice[v - 2], v - 1;
      assert Tree(n, choice, v) == Attach(prev, p, u);
      assert j in Tree(n, choice, v)[i] <==> j in prev[i] || (i == p && j == u) || (i == u && j == p);
      if 1 <= j < n && i == choice[j - 1] {
        assert choice[j - 1] <= j - 1;
      }
      if i == u {
        assert TreeEdge(choice, n, i, j) && j < v <==> j == p;
      }
    }
  }

  lemma {:induction false} TreeRowNoDuplicates(n: int, choice: seq<int>, v: int, i: int)
    requires TreeDraws(n, choice)
    requires 1 <= v <= n && 0 <= i < n
    ensures NoDuplicates(Tree(n, choice, v)[i])
  {
    if v == 1 {
      var empty: Adj := seq(n, _ => []);
      assert Tree(n, choice, v) == empty;
      assert empty[i] == [];
    } else {
      TreeRowNoDuplicates(n, choice, v - 1, i);
      TreeRowStep(n, choice, v, i);
    }
  }

  /** The step of `TreeRowNoDuplicates`: joining station `v - 1` to its
      parent appends to each of the two rows a station it does not hold yet. */
  lemma TreeRowStep(n: int, choice: seq<int>, v: int, i: int)
    requires TreeDraws(n, choice)
    requires 2 <= v <= n && 0 <= i < n
    requires NoDuplicates(Tree(n, choice, v - 1)[i])
    ensures NoDuplicates(Tree(n, choice, v)[i])
  {
    var prev := Tree(n, choice, v - 1);
    var p, u := choice[v - 2], v - 1;
    TreeMember(n, choice, v - 1, p, u);
    TreeMember(n, choice, v - 1, u, p);
    var a := prev[p := prev[p] + [u]];
    assert Tree(n, choice, v) == a[u := a[u] + [p]];
    assert u !in prev[p];
    assert p !in a[u];
  }

  lemma {:induction false} TreeDegrees(n: int, choice: seq<int>, v: int)
    requires TreeDraws(n, choice)
    requires 1 <= v <= n
    ensures Degrees(Tree(n, choice, v)) == 2 * (v - 1)
  {
    if v == 1 {
      var empty: Adj := seq(n, _ => []);
      assert Tree(n, choice, v) == empty;
      SumRangeExt(0, n, i => if 0 <= i < |empty| then |empty[i]| else 0, _ => 0);
      SumRangeZero(0, n);
    } else {
      TreeDegrees(n, choice, v - 1);
      var prev := Tree(n, choice, v - 1);
      var p, u := choice[v - 2], v - 1;
      var a := prev[p := prev[p] + [u]];
      DegreesAppend(prev, p, u);
      DegreesAppend(a, u, p);
    }
  }

  /** Lines 32-40: the attachment loop over a growing `available` list. */
  method BuildTree(n: int, choice: seq<int>) returns (adj: Adj)
    requires n >= 1
    requires TreeDraws(n, choice)
    ensures adj == Tree(n, choice, n)
  {
    adj := seq(n, _ => []);
    var available := [0];
    var v := 1;
    while v < n
      invariant 1 <= v <= n
      invariant |available| == v && forall q :: 0 <= q < v ==> available[q] == q
      invariant adj == Tree(n, choice, v)
    {
      var parent := available[choice[v - 1]];
      adj := adj[parent := adj[parent] + [v]];
      adj := adj[v := adj[v] + [parent]];
      available := available + [v];
      v := v + 1;
    }
  }

  // ---------------------------------------------------------------------
  // Absent pairs and extra edges, lines 43-60
  // ---------------------------------------------------------------------

  /** `p` comes strictly before `q` in the order of the loops of lines 51-52. */
  predicate LexLess(p: (int, int), q: (int, int))
  {
    p.0 < q.0 || (p.0 == q.0 && p.1 < q.1)
  }

  /** Strictly increasing in that order, hence free of repeats. */
  predicate LexSorted(s: seq<(int, int)>)
  {
    forall a, b :: 0 <= a < b < |s| ==> LexLess(s[a], s[b])
  }

  /** The pairs `all_possible` collects from position `(i, j)` of the loops of
      lines 51-54 on: `i' < j'` and `j'` not yet a neighbour of `i'`. */
  function AbsentFrom(adj: Adj, i: int, j: int): seq<(int, int)>
    requires 0 <= i
    decreases |adj| - i, |adj| - j
  {
    if i >= |adj| then []
    else if j >= |adj| then AbsentFrom(adj, i + 1, i + 2)
    else (if j !in adj[i] then [(i, j)] else []) + AbsentFrom(adj, i, j + 1)
  }

  /** `all_possible` lists exactly the non-adjacent pairs `i < j` at or after
      `(i, j)`, in loop order and without repeats. */
  lemma AbsentFromSpec(adj: Adj, i: int, j: int)
    requires 0 <= i < j
    ensures forall p :: p in AbsentFrom(adj, i, j) <==>
      (p.0 > i || (p.0 == i && p.1 >= j)) && 0 <= p.0 < p.1 < |adj| && p.1 !in adj[p.0]
    ensures LexSorted(AbsentFrom(adj, i, j))
  {
    AbsentFromMembers(adj, i, j);
    AbsentFromSorted(adj, i, j);
  }

  lemma AbsentFromMembers(adj: Adj, i: int, j: int)
    requires 0 <= i < j
    ensures forall p :: p in AbsentFrom(adj, i, j) <==>
      (p.0 > i || (p.0 == i && p.1 >= j)) && 0 <= p.0 < p.1 < |adj| && p.1 !in adj[p.0]
  {
    forall p ensures p in AbsentFrom(adj, i, j) <==>
      (p.0 > i || (p.0 == i && p.1 >= j)) && 0 <= p.0 < p.1 < |adj| && p.1 !in adj[p.0]
    {
      AbsentFromMember(adj, i, j, p);
      assert Collectable(adj, i, j, p) <==>
        (p.0 > i || (p.0 == i && p.1 >= j)) && 0 <= p.0 < p.1 < |adj| && p.1 !in adj[p.0];
    }
  }

  lemma {:induction false} AbsentFromMember(adj: Adj, i: int, j: int, p: (int, int))
    requires 0 <= i < j
    ensures p in AbsentFrom(adj, i, j) <==> Collectable(adj, i, j, p)
    decreases |adj| - i, |adj| - j, 1
  {
    if i >= |adj| {
      AbsentFromUnfold(adj, i, j);
    } else if j >= |adj| {
      MemberNextRow(adj, i, j, p);
    } else {
      MemberNextColumn(adj, i, j, p);
    }
  }

  lemma {:induction false} MemberNextRow(adj: Adj, i: int, j: int, p: (int, int))
    requires 0 <= i < |adj| <= j
    ensures p in AbsentFrom(adj, i, j) <==> Collectable(adj, i, j, p)
    decreases |adj| - i, |adj| - j, 0
  {
    AbsentFromMember(adj, i + 1, i + 2, p);
    AbsentFromUnfold(adj, i, j);
    CollectableNextRow(adj, i, j, p);
  }

  lemma {:induction false} MemberNextColumn(adj: Adj, i: int, j: int, p: (int, int))
    requires 0 <= i < j < |adj|
    ensures p in AbsentFrom(adj, i, j) <==> Collectable(adj, i, j, p)
    decreases |adj| - i, |adj| - j, 0
  {
    AbsentFromMember(adj, i, j + 1, p);
    AbsentFromUnfold(adj, i, j);
    CollectableNextColumn(adj, i, j, p);
    var rest := AbsentFrom(adj, i, j + 1);
    if j !in adj[i] {
      assert p in [(i, j)] + rest <==> p == (i, j) || p in rest;
    }
  }

  /** `p` is a non-adjacent pair `i' < j'` at or after `(i, j)`. */
  predicate Collectable(adj: Adj, i: int, j: int, p: (int, int))
  {
    (p.0 > i || (p.0 == i && p.1 >= j)) && 0 <= p.0 < p.1 < |adj| && p.1 !in adj[p.0]
  }

  /** Past the last column the loops go on with the next row. */
  lemma CollectableNextRow(adj: Adj, i: int, j: int, p: (int, int))
    requires 0 <= i < |adj| <= j
    ensures Collectable(adj, i, j, p) <==> Collectable(adj, i + 1, i + 2, p)
  {
  }

  /** Within a row the pair `(i, j)` is met first. */
  lemma CollectableNextColumn(adj: Adj, i: int, j: int, p: (int, int))
    requires 0 <= i < j < |adj|
    ensures Collectable(adj, i, j, p) <==> (p == (i, j) && j !in adj[i]) || Collectable(adj, i, j + 1, p)
  {
  }

  lemma {:induction false} AbsentFromSorted(adj: Adj, i: int, j: int)
    requires 0 <= i < j
    ensures LexSorted(AbsentFrom(adj, i, j))
    decreases |adj| - i, |adj| - j, 1
  {
    if i >= |adj| {
      AbsentFromUnfold(adj, i, j);
    } else if j >= |adj| {
      SortedNextRow(adj, i, j);
    } else {
      SortedNextColumn(adj, i, j);
    }
  }

  lemma {:induction false} SortedNextRow(adj: Adj, i: int, j: int)
    requires 0 <= i < |adj| <= j
    ensures LexSorted(AbsentFrom(adj, i, j))
    decreases |adj| - i, |adj| - j, 0
  {
    AbsentFromSorted(adj, i + 1, i + 2);
    AbsentFromUnfold(adj, i, j);
  }

  lemma {:induction false} SortedNextColumn(adj: Adj, i: int, j: int)
    requires 0 <= i < j < |adj|
    ensures LexSorted(AbsentFrom(adj, i, j))
    decreases |adj| - i, |adj| - j, 0
  {
    AbsentFromSorted(adj, i, j + 1);
    AbsentFromUnfold(adj, i, j);
    if j !in adj[i] {
      AbsentFromAfter(adj, i, j);
      ConsLexSorted((i, j), AbsentFrom(adj, i, j + 1));
    }
  }

  /** One step of the loops of lines 51-54. */
  lemma AbsentFromUnfold(adj: Adj, i: int, j: int)
    requires 0 <= i
    ensures AbsentFrom(adj, i, j) ==
      if i >= |adj| then []
      else if j >= |adj| then AbsentFrom(adj, i + 1, i + 2)
      else if j !in adj[i] then [(i, j)] + AbsentFrom(adj, i, j + 1)
      else AbsentFrom(adj, i, j + 1)
  {
    if i < |adj| && j < |adj| && j in adj[i] {
      assert [] + AbsentFrom(adj, i, j + 1) == AbsentFrom(adj, i, j + 1);
    }
  }

  /** The pairs collected after `(i, j)` all come after it. */
  lemma AbsentFromAfter(adj: Adj, i: int, j: int)
    requires 0 <= i < j
    ensures forall p :: p in AbsentFrom(adj, i, j + 1) ==> LexLess((i, j), p)
  {
    AbsentFromMembers(adj, i, j + 1);
  }

  /** A pair before every element of a sorted list keeps it sorted. */
  lemma ConsLexSorted(h: (int, int), rest: seq<(int, int)>)
    requires LexSorted(rest)
    requires forall p :: p in rest ==> LexLess(h, p)
    ensures LexSorted([h] + rest)
  {
    var r := [h] + rest;
    forall a, b | 0 <= a < b < |r| ensures LexLess(r[a], r[b]) {
      assert r[b] == rest[b - 1];
      if a == 0 {
        assert rest[b - 1] in rest;
      } else {
        assert r[a] == rest[a - 1];
      }
    }
  }

  /** One pass of the inner loop of lines 52-54, for station `i`. */
  method ListAbsentRow(adj: Adj, i: int) returns (row: seq<(int, int)>)
    requires 0 <= i < |adj|
    ensures row + AbsentFrom(adj, i + 1, i + 2) == AbsentFrom(adj, i, i + 1)
  {
    ghost var goal := AbsentFrom(adj, i, i + 1);
    row := [];
    var j := i + 1;
    while j < |adj|
      invariant i + 1 <= j <= |adj|
      invariant row + AbsentFrom(adj, i, j) == goal
    {
      AbsentRowStep(adj, i, j, row);
      if j !in adj[i] {
        row := row + [(i, j)];
      }
      j := j + 1;
    }
    AbsentFromUnfold(adj, i, j);
  }

  /** One column of the inner loop: the pair `(i, j)` moves from what is
      still to come to what has been collected, when it is absent. */
  lemma AbsentRowStep(adj: Adj, i: int, j: int, row: seq<(int, int)>)
    requires 0 <= i < j < |adj|
    ensures (if j !in adj[i] then row + [(i, j)] else row) + AbsentFrom(adj, i, j + 1) == row + AbsentFrom(adj, i, j)
  {
    AbsentFromUnfold(adj, i, j);
    var rest := AbsentFrom(adj, i, j + 1);
    if j !in adj[i] {
      assert row + ([(i, j)] + rest) == (row + [(i, j)]) + rest;
    }
  }

  /** Lines 50-54. */
  method ListAbsent(adj: Adj) returns (pairs: seq<(int, int)>)
    ensures pairs == AbsentFrom(adj, 0, 1)
  {
    pairs := [];
    var i := 0;
    while i < |adj|
      invariant 0 <= i && (i <= |adj| || |adj| == 0)
      invariant pairs + AbsentFrom(adj, i, i + 1) == AbsentFrom(adj, 0, 1)
    {
      var row := ListAbsentRow(adj, i);
      assert pairs + (row + AbsentFrom(adj, i + 1, i + 2)) == (pairs + row) + AbsentFrom(adj, i + 1, i + 2);
      pairs := pairs + row;
      i := i + 1;
    }
  }

  /** The pairs `random.sample` returns when it picks positions `picks`. */
  function Sampled<T>(population: seq<T>, picks: seq<int>): (r: seq<T>)
    requires forall q :: 0 <= q < |picks| ==> 0 <= picks[q] < |population|
    ensures |r| == |picks|
  {
    seq(|picks|, q requires 0 <= q < |picks| => population[picks[q]])
  }

  /** `random.sample(population, k)`: `k` distinct positions of a population of size `m`. */
  predicate SampleDraws(picks: seq<int>, m: int, k: int)
  {
    |picks| == k
    && (forall q :: 0 <= q < |picks| ==> 0 <= picks[q] < m)
    && (forall a, b :: 0 <= a < b < |picks| ==> picks[a] != picks[b])
  }

  /** Lines 58-60: every pair of `extra` added in both directions, in order. */
  function AddPairs(adj: Adj, extra: seq<(int, int)>): (r: Adj)
    requires forall p :: p in extra ==> 0 <= p.0 < |adj| && 0 <= p.1 < |adj|
    ensures |r| == |adj|
  {
    if extra == [] then adj
    else
      var init, last := extra[..|extra| - 1], extra[|extra| - 1];
      assert forall p :: p in init ==> p in extra;
      assert last in extra;
      Attach(AddPairs(adj, init), last.0, last.1)
  }

  /** Adding fresh edges keeps the rows free of repeats, adds exactly those
      edges in both directions, and raises the degree sum by two per edge. */
  lemma AddPairsShape(adj: Adj, extra: seq<(int, int)>)
    requires forall p :: p in extra ==> 0 <= p.0 < p.1 < |adj| && p.1 !in adj[p.0] && p.0 !in adj[p.1]
    requires forall a, b :: 0 <= a < b < |extra| ==> extra[a] != extra[b]
    requires forall i :: 0 <= i < |adj| ==> NoDuplicates(adj[i])
    ensures forall i, j :: 0 <= i < |adj| ==>
      (j in AddPairs(adj, extra)[i] <==> j in adj[i] || (i, j) in extra || (j, i) in extra)
    ensures forall i :: 0 <= i < |adj| ==> NoDuplicates(AddPairs(adj, extra)[i])
    ensures Degrees(AddPairs(adj, extra)) == Degrees(adj) + 2 * |extra|
  {
    forall i, j | 0 <= i < |adj|
      ensures j in AddPairs(adj, extra)[i] <==> j in adj[i] || (i, j) in extra || (j, i) in extra
    {
      AddPairsMember(adj, extra, i, j);
    }
    forall i | 0 <= i < |adj| ensures NoDuplicates(AddPairs(adj, extra)[i]) {
      AddPairsNoDuplicates(adj, extra, i);
    }
    AddPairsDegrees(adj, extra);
  }

  lemma {:induction false} AddPairsMember(adj: Adj, extra: seq<(int, int)>, i: int, j: int)
    requires forall p :: p in extra ==> 0 <= p.0 < |adj| && 0 <= p.1 < |adj|
    requires 0 <= i < |adj|
    ensures j in AddPairs(adj, extra)[i] <==> j in adj[i] || (i, j) in extra || (j, i) in extra
  {
    if extra != [] {
      var init, last := extra[..|extra| - 1], extra[|extra| - 1];
      assert forall p :: p in extra <==> p in init || p == last;
      AddPairsMember(adj, init, i, j);
      var prev := AddPairs(adj, init);
      assert AddPairs(adj, extra) == Attach(prev, last.0, last.1);
      assert j in AddPairs(adj, extra)[i] <==>
        j in prev[i] || (i == last.0 && j == last.1) || (i == last.1 && j == last.0);
    }
  }

  lemma {:induction false} AddPairsNoDuplicates(adj: Adj, extra: seq<(int, int)>, i: int)
    requires forall p :: p in extra ==> 0 <= p.0 < p.1 < |adj| && p.1 !in adj[p.0] && p.0 !in adj[p.1]
    requires forall a, b :: 0 <= a < b < |extra| ==> extra[a] != extra[b]
    requires forall i :: 0 <= i < |adj| ==> NoDuplicates(adj[i])
    requires 0 <= i < |adj|
    ensures NoDuplicates(AddPairs(adj, extra)[i])
  {
    if extra != [] {
      var init, last := extra[..|extra| - 1], extra[|extra| - 1];
      assert forall p :: p in init ==> p in extra;
      assert last in extra;
      assert last !in init by {
        forall a | 0 <= a < |init| ensures init[a] != last {
          assert init[a] == extra[a];
        }
      }
      AddPairsNoDuplicates(adj, init, i);
      var prev := AddPairs(adj, init);
      var u, v := last.0, last.1;
      AddPairsMember(adj, init, u, v);
      AddPairsMember(adj, init, v, u);
      assert v !in prev[u] && u !in prev[v];
      var a := prev[u := prev[u] + [v]];
      assert AddPairs(adj, extra) == a[v := a[v] + [u]];
    }
  }

  lemma {:induction false} AddPairsDegrees(adj: Adj, extra: seq<(int, int)>)
    requires forall p :: p in extra ==> 0 <= p.0 < |adj| && 0 <= p.1 < |adj|
    ensures Degrees(AddPairs(adj, extra)) == Degrees(adj) + 2 * |extra|
  {
    if extra != [] {
      var init, last := extra[..|extra| - 1], extra[|extra| - 1];
      assert forall p :: p in init ==> p in extra;
      AddPairsDegrees(adj, init);
      var prev := AddPairs(adj, init);
      var u, v := last.0, last.1;
      var a := prev[u := prev[u] + [v]];
      DegreesAppend(prev, u, v);
      DegreesAppend(a, v, u);
    }
  }

  /** The loop of lines 58-60. */
  method AddExtraEdges(adj: Adj, extra: seq<(int, int)>) returns (r: Adj)
    requires forall p :: p in extra ==> 0 <= p.0 < |adj| && 0 <= p.1 < |adj|
    ensures r == AddPairs(adj, extra)
  {
    r := adj;
    var q := 0;
    while q < |extra|
      invariant 0 <= q <= |extra|
      invariant forall p :: p in extra[..q + (|extra| - q)] ==> p in extra
      invariant r == AddPairs(adj, extra[..q])
    {
      var (u, v) := extra[q];
      assert extra[q] in extra;
      assert extra[..q + 1][..q] == extra[..q];
      r := r[u := r[u] + [v]];
      r := r[v := r[v] + [u]];
      q := q + 1;
    }
    assert extra[..q] == extra;
  }

  // ---------------------------------------------------------------------
  // Sorted neighbour lists, line 63
  // ---------------------------------------------------------------------

  predicate NonDecreasing(s: seq<int>)
  {
    forall a, b :: 0 <= a < b < |s| ==> s[a] <= s[b]
  }

  /** `x` inserted into `s` before the first element not below it. */
  function Insert(x: int, s: seq<int>): (r: seq<int>)
    ensures multiset(r) == multiset(s) + multiset{x}
    ensures NonDecreasing(s) ==> NonDecreasing(r)
  {
    if s == [] || x <= s[0] then [x] + s
    else
      var tail := Insert(x, s[1..]);
      InsertBehind(x, s, tail);
      [s[0]] + tail
  }

  /** Putting back a head below `x` in front of the insertion into the tail. */
  lemma InsertBehind(x: int, s: seq<int>, tail: seq<int>)
    requires s != [] && s[0] < x
    requires multiset(tail) == multiset(s[1..]) + multiset{x}
    requires NonDecreasing(s[1..]) ==> NonDecreasing(tail)
    ensures multiset([s[0]] + tail) == multiset(s) + multiset{x}
    ensures NonDecreasing(s) ==> NonDecreasing([s[0]] + tail)
  {
    assert s == [s[0]] + s[1..];
    if NonDecreasing(s) {
      TailNonDecreasing(s);
      HeadBelowTail(x, s, tail);
      ConsNonDecreasing(s[0], tail);
    }
  }

  lemma TailNonDecreasing(s: seq<int>)
    requires s != [] && NonDecreasing(s)
    ensures NonDecreasing(s[1..])
  {
    forall a, b | 0 <= a < b < |s[1..]| ensures s[1..][a] <= s[1..][b] {
      assert s[1..][a] == s[a + 1] && s[1..][b] == s[b + 1];
    }
  }

  lemma HeadBelowTail(x: int, s: seq<int>, tail: seq<int>)
    requires s != [] && s[0] < x && NonDecreasing(s)
    requires multiset(tail) == multiset(s[1..]) + multiset{x}
    ensures forall y :: y in tail ==> s[0] <= y
  {
    forall y | y in tail ensures s[0] <= y {
      assert y in multiset(tail);
      if y != x {
        assert y in multiset(s[1..]);
        var k :| 0 <= k < |s[1..]| && s[1..][k] == y;
        assert s[k + 1] == y;
      }
    }
  }

  lemma ConsNonDecreasing(h: int, t: seq<int>)
    requires NonDecreasing(t)
    requires forall y :: y in t ==> h <= y
    ensures NonDecreasing([h] + t)
  {
    var r := [h] + t;
    forall a, b | 0 <= a < b < |r| ensures r[a] <= r[b] {
      assert r[b] == t[b - 1];
      if a == 0 {
        assert t[b - 1] in t;
      } else {
        assert r[a] == t[a - 1];
      }
    }
  }

  /** Python's `sorted` on a list of integers: the ascending rearrangement. */
  function SortInts(s: seq<int>): (r: seq<int>)
    ensures multiset(r) == multiset(s)
    ensures NonDecreasing(r)
  {
    if s == [] then []
    else
      assert s == s[..|s| - 1] + [s[|s| - 1]];
      Insert(s[|s| - 1], SortInts(s[..|s| - 1]))
  }

  /** A list without repeats sorts into a strictly ascending one with the same elements. */
  lemma SortIntsIncreasing(s: seq<int>)
    requires NoDuplicates(s)
    ensures Increasing(SortInts(s))
    ensures |SortInts(s)| == |s|
    ensures forall x :: x in SortInts(s) <==> x in s
  {
    var r := SortInts(s);
    assert |multiset(r)| == |multiset(s)|;
    forall x ensures x in r <==> x in s {
      assert x in r <==> x in multiset(r);
    }
    forall a, b | 0 <= a < b < |r| ensures r[a] < r[b] {
      if r[a] == r[b] {
        RepeatCount(r, a, b);
        NoDuplicatesCount(s, r[a]);
      }
    }
  }

  /** A value at two positions occurs at least twice. */
  lemma RepeatCount(r: seq<int>, a: int, b: int)
    requires 0 <= a < b < |r| && r[a] == r[b]
    ensures multiset(r)[r[a]] >= 2
  {
    var x := r[a];
    assert r == r[..b] + r[b..];
    assert multiset(r) == multiset(r[..b]) + multiset(r[b..]);
    assert r[..b][a] == x;
    assert x in r[..b];
    assert r[b..][0] == x;
    assert x in r[b..];
  }

  /** In a list without repeats every value occurs at most once. */
  lemma {:induction false} NoDuplicatesCount(s: seq<int>, x: int)
    requires NoDuplicates(s)
    ensures multiset(s)[x] <= 1
  {
    if s != [] {
      var init := s[..|s| - 1];
      assert s == init + [s[|s| - 1]];
      assert NoDuplicates(init) by {
        forall a, b | 0 <= a < b < |init| ensures init[a] != init[b] {
          assert init[a] == s[a] && init[b] == s[b];
        }
      }
      NoDuplicatesCount(init, x);
      if x == s[|s| - 1] {
        assert x !in init by {
          forall a | 0 <= a < |init| ensures init[a] != x {
            assert init[a] == s[a];
          }
        }
      }
    }
  }

  // ---------------------------------------------------------------------
  // generate_connected_graph, lines 7-63
  // ---------------------------------------------------------------------

  function Min(a: int, b: int): int
  {
    if a <= b then a else b
  }

  /** `max_possible_extra`, line 43: the pairs a tree on `n` stations leaves out. */
  function MaxPossibleExtra(n: int): int
  {
    n * (n - 1) / 2 - (n - 1)
  }

  /** The sample size of line 57, or 0 when the guard of line 56 fails. */
  function ExtraCount(nExtra: int, m: int): int
  {
    if m > 0 && nExtra > 0 then Min(nExtra, m) else 0
  }

  /** The draws of one run: `choice` for the tree, `picks` for the extra edges.
      `requested` is `round(extra_edges_ratio * (n_stations - 1))`. */
  predicate GraphDraws(n: int, choice: seq<int>, requested: int, picks: seq<int>)
  {
    TreeDraws(n, choice)
    && (n >= 2 ==>
          var m := |AbsentFrom(Tree(n, choice, n), 0, 1)|;
          SampleDraws(picks, m, ExtraCount(Min(requested, MaxPossibleExtra(n)), m)))
  }

  /** `extra_edges`, line 57. */
  function Extra(n: int, choice: seq<int>, picks: seq<int>): seq<(int, int)>
    requires n >= 1 && TreeDraws(n, choice)
    requires forall q :: 0 <= q < |picks| ==> 0 <= picks[q] < |AbsentFrom(Tree(n, choice, n), 0, 1)|
  {
    Sampled(AbsentFrom(Tree(n, choice, n), 0, 1), picks)
  }

  /** The neighbour lists before sorting: the tree plus the extra edges. */
  function Network(n: int, choice: seq<int>, picks: seq<int>): Adj
    requires n >= 1 && TreeDraws(n, choice)
    requires forall q :: 0 <= q < |picks| ==> 0 <= picks[q] < |AbsentFrom(Tree(n, choice, n), 0, 1)|
  {
    var extra := Extra(n, choice, picks);
    AbsentFromSpec(Tree(n, choice, n), 0, 1);
    assert forall p :: p in extra ==> p in AbsentFrom(Tree(n, choice, n), 0, 1);
    AddPairs(Tree(n, choice, n), extra)
  }

  /** Every row sorted, line 63. */
  function SortRows(adj: Adj): (r: Adj)
    ensures |r| == |adj|
  {
    seq(|adj|, i requires 0 <= i < |adj| => SortInts(adj[i]))
  }

  /** The plain dict `{i: adj[i] for i in range(n)}` of line 63. */
  function AsDict(adj: Adj): map<int, seq<int>>
  {
    map i | 0 <= i < |adj| :: adj[i]
  }

  /** What `generate_connected_graph` returns for these draws. */
  function Generated(n: int, choice: seq<int>, requested: int, picks: seq<int>): Result<map<int, seq<int>>>
    requires GraphDraws(n, choice, requested, picks)
  {
    if n < 1 then Err("n_stations >= 1")
    else if n == 1 then Ok(map[0 := []])
    else Ok(AsDict(SortRows(Network(n, choice, picks))))
  }

  /** Lines 22-63. */
  method GenerateConnectedGraph(n: int, choice: seq<int>, requested: int, picks: seq<int>)
    returns (r: Result<map<int, seq<int>>>)
    requires GraphDraws(n, choice, requested, picks)
    ensures r == Generated(n, choice, requested, picks)
  {
    if n < 1 {
      return Err("n_stations >= 1");
    }
    if n == 1 {
      return Ok(map[0 := []]);
    }
    var adj := BuildTree(n, choice);
    var maxPossibleExtra := n * (n - 1) / 2 - (n - 1);
    var nExtra := Min(requested, maxPossibleExtra);
    var allPossible := ListAbsent(adj);
    AbsentFromSpec(adj, 0, 1);
    if |allPossible| > 0 && nExtra > 0 {
      var extra := Sampled(allPossible, picks);
      assert forall p :: p in extra ==> p in allPossible;
      adj := AddExtraEdges(adj, extra);
    } else {
      assert Extra(n, choice, picks) == [];
    }
    r := Ok(AsDict(SortRows(adj)));
  }

  /** The extra edges are fresh: each joins two stations `u < v` the tree does
      not join, and no pair is drawn twice. */
  lemma ExtraFresh(n: int, choice: seq<int>, requested: int, picks: seq<int>)
    requires n >= 2 && GraphDraws(n, choice, requested, picks)
    ensures forall p :: p in Extra(n, choice, picks) ==>
      0 <= p.0 < p.1 < n && !TreeEdge(choice, n, p.0, p.1)
    ensures forall a, b :: 0 <= a < b < |picks| ==> Extra(n, choice, picks)[a] != Extra(n, choice, picks)[b]
  {
    var tree := Tree(n, choice, n);
    var absent := AbsentFrom(tree, 0, 1);
    TreeShape(n, choice, n);
    AbsentFromSpec(tree, 0, 1);
    var extra := Extra(n, choice, picks);
    forall p | p in extra ensures 0 <= p.0 < p.1 < n && !TreeEdge(choice, n, p.0, p.1) {
      var q :| 0 <= q < |picks| && extra[q] == p;
      assert p in absent;
    }
    forall a, b | 0 <= a < b < |picks| ensures extra[a] != extra[b] {
      if picks[a] < picks[b] {
        assert LexLess(absent[picks[a]], absent[picks[b]]);
      } else {
        assert LexLess(absent[picks[b]], absent[picks[a]]);
      }
    }
  }

  /** The unsorted rows hold exactly the tree edges and the extra edges, in
      both directions and without repeats; there are `n - 1 + |picks|` edges. */
  lemma NetworkShape(n: int, choice: seq<int>, requested: int, picks: seq<int>)
    requires n >= 2 && GraphDraws(n, choice, requested, picks)
    ensures |Network(n, choice, picks)| == n
    ensures forall i, j :: 0 <= i < n ==>
      (j in Network(n, choice, picks)[i] <==>
        TreeEdge(choice, n, i, j) || (i, j) in Extra(n, choice, picks) || (j, i) in Extra(n, choice, picks))
    ensures forall i :: 0 <= i < n ==> NoDuplicates(Network(n, choice, picks)[i])
    ensures Degrees(Network(n, choice, picks)) == 2 * (n - 1 + |picks|)
  {
    var tree := Tree(n, choice, n);
    TreeShape(n, choice, n);
    ExtraFresh(n, choice, requested, picks);
    var extra := Extra(n, choice, picks);
    forall p | p in extra ensures 0 <= p.0 < p.1 < |tree| && p.1 !in tree[p.0] && p.0 !in tree[p.1] {
      assert !TreeEdge(choice, n, p.1, p.0);
    }
    AddPairsShape(tree, extra);
  }

  /** The number of neighbour-list entries of stations `0..n-1`: twice the
      `n_edges` of line 127. */
  function EdgeEnds(g: map<int, seq<int>>, n: int): int
  {
    SumRange(0, n, i => if i in g then |g[i]| else 0)
  }

  /** The unsorted rows are symmetric and loop-free, stay within the stations,
      and join every station after 0 to its earlier parent. */
  lemma NetworkSymmetric(n: int, choice: seq<int>, requested: int, picks: seq<int>)
    requires n >= 2 && GraphDraws(n, choice, requested, picks)
    ensures |Network(n, choice, picks)| == n
    ensures Undirected(Network(n, choice, picks))
    ensures forall v :: 1 <= v < n ==> choice[v - 1] < v && choice[v - 1] in Network(n, choice, picks)[v]
    ensures forall i :: 0 <= i < n ==> NoDuplicates(Network(n, choice, picks)[i])
    ensures Degrees(Network(n, choice, picks)) == 2 * (n - 1 + |picks|)
  {
    var adj := Network(n, choice, picks);
    var extra := Extra(n, choice, picks);
    NetworkShape(n, choice, requested, picks);
    ExtraFresh(n, choice, requested, picks);
    forall i, j | 0 <= i < n && j in adj[i] ensures 0 <= j < n && j != i && i in adj[j] {
      if !TreeEdge(choice, n, i, j) {
        assert (i, j) in extra || (j, i) in extra;
      }
    }
    forall v | 1 <= v < n ensures choice[v - 1] < v && choice[v - 1] in adj[v] {
      assert TreeEdge(choice, n, v, choice[v - 1]);
    }
  }

  /** Sorting rows without repeats makes them strictly ascending and keeps
      their members and their total length. */
  lemma SortRowsShape(adj: Adj)
    requires forall i :: 0 <= i < |adj| ==> NoDuplicates(adj[i])
    ensures forall i :: 0 <= i < |adj| ==> Increasing(SortRows(adj)[i])
    ensures forall i, j :: 0 <= i < |adj| ==> (j in SortRows(adj)[i] <==> j in adj[i])
    ensures Degrees(SortRows(adj)) == Degrees(adj)
  {
    var r := SortRows(adj);
    forall i | 0 <= i < |adj|
      ensures Increasing(r[i]) && |r[i]| == |adj[i]| && (forall j :: j in r[i] <==> j in adj[i])
    {
      SortIntsIncreasing(adj[i]);
    }
    SumRangeExt(0, |adj|, i => if 0 <= i < |r| then |r[i]| else 0, i => if 0 <= i < |adj| then |adj[i]| else 0);
  }

  /** Every row entry is another station whose row lists this one back. */
  predicate Undirected(adj: Adj)
  {
    forall i, j {:trigger j in adj[i]} :: 0 <= i < |adj| && j in adj[i] ==> 0 <= j < |adj| && j != i && i in adj[j]
  }

  /** The dict form of `Undirected`. */
  predicate UndirectedDict(g: map<int, seq<int>>)
  {
    forall i, j {:trigger j in g[i]} :: i in g && j in g[i] ==> j in g && j != i && i in g[j]
  }

  /** The dict over `0..|adj|-1` has the rows of `adj`, keeps them undirected,
      and has as many row entries. */
  lemma AsDictShape(adj: Adj)
    ensures forall i :: i in AsDict(adj) <==> 0 <= i < |adj|
    ensures forall i :: 0 <= i < |adj| ==> AsDict(adj)[i] == adj[i]
    ensures Undirected(adj) ==> UndirectedDict(AsDict(adj))
    ensures EdgeEnds(AsDict(adj), |adj|) == Degrees(adj)
  {
    var g := AsDict(adj);
    if Undirected(adj) {
      forall i, j | i in g && j in g[i] ensures j in g && j != i && i in g[j] {
        assert g[i] == adj[i];
        assert 0 <= j < |adj| && j != i && i in adj[j];
        assert g[j] == adj[j];
      }
    }
    SumRangeExt(0, |adj|, i => if i in g then |g[i]| else 0, i => if 0 <= i < |adj| then |adj[i]| else 0);
  }

  /** A single station has no edges. */
  lemma SingleStationEdges()
    ensures EdgeEnds(map[0 := []], 1) == 0
  {
    var g: map<int, seq<int>> := map[0 := []];
    SumRangeFirst(0, 1, i => if i in g then |g[i]| else 0);
    SumRangeZero(1, 1);
    SumRangeExt(1, 1, i => if i in g then |g[i]| else 0, _ => 0);
  }

  /** The sorted network of at least two stations. */
  lemma SortedNetworkShape(n: int, choice: seq<int>, requested: int, picks: seq<int>)
    requires n >= 2 && GraphDraws(n, choice, requested, picks)
    ensures var g := AsDict(SortRows(Network(n, choice, picks)));
      && (forall i :: i in g <==> 0 <= i < n)
      && (forall i :: i in g ==> Increasing(g[i]))
      && UndirectedDict(g)
      && (forall v :: 1 <= v < n ==> choice[v - 1] < v && choice[v - 1] in g[v])
      && EdgeEnds(g, n) == 2 * (n - 1 + |picks|)
  {
    var adj := Network(n, choice, picks);
    NetworkSymmetric(n, choice, requested, picks);
    SortedDict(adj);
  }

  /** Sorting the rows of a symmetric graph without repeated neighbours and
      keying them by station gives an undirected dict of increasing rows with
      the same neighbours and as many row entries. */
  lemma SortedDict(adj: Adj)
    requires forall i :: 0 <= i < |adj| ==> NoDuplicates(adj[i])
    requires Undirected(adj)
    ensures var g := AsDict(SortRows(adj));
      && (forall i :: i in g <==> 0 <= i < |adj|)
      && (forall i :: i in g ==> Increasing(g[i]))
      && UndirectedDict(g)
      && (forall i, j :: 0 <= i < |adj| ==> (j in g[i] <==> j in adj[i]))
      && EdgeEnds(g, |adj|) == Degrees(adj)
  {
    var r := SortRows(adj);
    SortRowsShape(adj);
    SortRowsUndirected(adj);
    AsDictShape(r);
  }

  /** Sorting one row keeps its members. */
  lemma SortedRowMembers(adj: Adj, i: int)
    requires 0 <= i < |adj|
    ensures forall j :: j in SortRows(adj)[i] <==> j in adj[i]
  {
    assert SortRows(adj)[i] == SortInts(adj[i]);
    forall j ensures j in SortInts(adj[i]) <==> j in adj[i] {
      assert j in SortInts(adj[i]) <==> j in multiset(SortInts(adj[i]));
    }
  }

  /** One instance of `Undirected`. */
  lemma UndirectedAt(adj: Adj, i: int, j: int)
    requires Undirected(adj)
    requires 0 <= i < |adj| && j in adj[i]
    ensures 0 <= j < |adj| && j != i && i in adj[j]
  {
    assert 0 <= i < |adj| && j in adj[i] ==> 0 <= j < |adj| && j != i && i in adj[j];
  }

  /** Sorting the rows keeps the graph undirected. */
  lemma SortRowsUndirected(adj: Adj)
    requires Undirected(adj)
    ensures Undirected(SortRows(adj))
  {
    forall i | 0 <= i < |adj| ensures forall j :: j in SortRows(adj)[i] <==> j in adj[i] {
      SortedRowMembers(adj, i);
    }
    SameMembersUndirected(adj, SortRows(adj));
  }

  /** Rows with the same members as the rows of an undirected graph form one. */
  lemma SameMembersUndirected(adj: Adj, r: Adj)
    requires Undirected(adj) && |r| == |adj|
    requires forall i, j :: 0 <= i < |adj| ==> (j in r[i] <==> j in adj[i])
    ensures Undirected(r)
  {
    forall i, j | 0 <= i < |r| && j in r[i] ensures 0 <= j < |r| && j != i && i in r[j] {
      UndirectedAt(adj, i, j);
    }
  }

  /** `generate_connected_graph` fails exactly when `n_stations < 1`. Otherwise
      it returns a dict over stations `0..n-1` whose rows are strictly
      ascending, hold only stations, never the station itself, and are
      symmetric; every station after 0 is joined to the earlier station
      `random.choice` picked for it, and there are `n - 1` tree edges plus one
      edge per sampled pair. */
  lemma GeneratedShape(n: int, choice: seq<int>, requested: int, picks: seq<int>)
    requires GraphDraws(n, choice, requested, picks)
    ensures Generated(n, choice, requested, picks).Err? <==> n < 1
    ensures n == 1 ==> Generated(n, choice, requested, picks) == Ok(map[0 := []])
    ensures Generated(n, choice, requested, picks).Ok? ==>
      var g := Generated(n, choice, requested, picks).value;
      && (forall i :: i in g <==> 0 <= i < n)
      && (forall i :: i in g ==> Increasing(g[i]))
      && UndirectedDict(g)
      && (forall v :: 1 <= v < n ==> choice[v - 1] < v && choice[v - 1] in g[v])
      && EdgeEnds(g, n) == 2 * (n - 1 + (if n >= 2 then |picks| else 0))
  {
    if n >= 2 {
      SortedNetworkShape(n, choice, requested, picks);
    } else if n == 1 {
      SingleStationEdges();
    }
  }

  /** The stations `0..n-1` as a set. */
  function Stations(n: int): set<int>
  {
    if n <= 0 then {} else Stations(n - 1) + {n - 1}
  }

  lemma {:induction false} StationsSize(n: nat)
    ensures forall i :: i in Stations(n) <==> 0 <= i < n
    ensures |Stations(n)| == n
  {
    if n > 0 {
      StationsSize(n - 1);
    }
  }
}
