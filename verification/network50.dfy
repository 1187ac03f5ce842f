/** The 50-station benchmark of generate_network_50.py: five copies of a
    10-station base graph, three random links between every two blocks, and
    the base demand copied into every block b with its destinations moved
    to block (b + shift) % 5. The script's module-level loops are methods here, each
    proved equal to a function that the lemmas below describe. */
module GenerateNetwork50 {
  import opened PyDict
  import GenerateNetwork
  import Connectivity

  type Edges = map<int, seq<int>>
  type Od = Dict<(int, int), int>

  const NBlocks := 5
  const BlockSize := 10
  const BaseGraphSize := 10
  const TotalStations := NBlocks * BlockSize
  const LinksPerPair := 3

  /** Lines 6-17: the base graph. */
  const BaseEdges: Edges := map[
    0 := [1],
    1 := [0, 2],
    2 := [1, 3, 4, 7],
    3 := [2],
    4 := [2, 5],
    5 := [4, 6],
    6 := [5, 7],
    7 := [2, 6, 8],
    8 := [7, 9],
    9 := [8]]

  /** Lines 19-30: the items of the base demand display, in order. */
  const BaseOdItems: seq<((int, int), int)> := [
    ((0, 6), 10), ((0, 9), 20), ((0, 1), 5), ((0, 5), 10),
    ((1, 4), 20), ((1, 6), 10), ((1, 3), 5), ((1, 8), 10),
    ((2, 3), 10), ((2, 5), 20), ((2, 9), 10), ((2, 8), 5),
    ((3, 1), 5), ((3, 2), 10), ((3, 7), 20), ((3, 9), 5),
    ((4, 1), 20), ((4, 5), 10), ((4, 8), 10), ((4, 0), 10),
    ((5, 0), 10), ((5, 2), 20), ((5, 7), 10),
    ((6, 0), 10), ((6, 1), 10), ((6, 4), 10),
    ((7, 3), 20), ((7, 5), 10), ((7, 9), 10),
    ((8, 1), 10), ((8, 2), 5), ((8, 4), 10),
    ((9, 0), 20), ((9, 2), 10), ((9, 3), 5), ((9, 7), 10)]

  /** Line 86: the block shift of each block's destinations. */
  const DemandShift: seq<int> := [0, 2, 1, 3, 4, 0, 1, 2, 3, 4][..NBlocks]

  // ---------------------------------------------------------------------
  // The base demand (lines 19-31)

  /** Line 31: the entries whose origin and destination differ, in order. */
  function WithoutSelfPairs(d: Od): (r: Od)
  {
    if d == [] then []
    else
      var init := WithoutSelfPairs(d[..|d| - 1]);
      var last := d[|d| - 1];
      if last.0.0 != last.0.1 then init + [last] else init
  }

  /** The filter keeps exactly the entries that are not self-pairs, keeps
      them in order, and keeps the keys distinct. */
  lemma WithoutSelfPairsSpec(d: Od)
    ensures forall e :: e in WithoutSelfPairs(d) <==> e in d && e.0.0 != e.0.1
    ensures |WithoutSelfPairs(d)| <= |d|
    ensures DistinctKeys(d) ==> DistinctKeys(WithoutSelfPairs(d))
  {
    forall e ensures e in WithoutSelfPairs(d) <==> e in d && e.0.0 != e.0.1 {
      WithoutSelfPairsMember(d, e);
    }
    WithoutSelfPairsLength(d);
    if DistinctKeys(d) {
      WithoutSelfPairsDistinct(d);
    }
  }

  lemma {:induction false} WithoutSelfPairsMember(d: Od, e: ((int, int), int))
    ensures e in WithoutSelfPairs(d) <==> e in d && e.0.0 != e.0.1
  {
    if d != [] {
      var init := d[..|d| - 1];
      WithoutSelfPairsMember(init, e);
      assert d == init + [d[|d| - 1]];
    }
  }

  lemma {:induction false} WithoutSelfPairsLength(d: Od)
    ensures |WithoutSelfPairs(d)| <= |d|
  {
    if d != [] {
      WithoutSelfPairsLength(d[..|d| - 1]);
    }
  }

  lemma {:induction false} WithoutSelfPairsDistinct(d: Od)
    requires DistinctKeys(d)
    ensures DistinctKeys(WithoutSelfPairs(d))
  {
    if d != [] {
      var init := d[..|d| - 1];
      var last := d[|d| - 1];
      assert DistinctKeys(init) by {
        forall a, b | 0 <= a < b < |init| ensures init[a].0 != init[b].0 {
          assert init[a] == d[a] && init[b] == d[b];
        }
      }
      WithoutSelfPairsDistinct(init);
      var w := WithoutSelfPairs(init);
      if last.0.0 != last.0.1 {
        forall q | 0 <= q < |w| ensures w[q].0 != last.0 {
          var e := w[q];
          WithoutSelfPairsMember(init, e);
          var p :| 0 <= p < |init| && init[p] == e;
          assert d[p] == e;
        }
        AppendFreshKey(w, last);
      }
    }
  }

  /** Appending an entry whose key is new keeps the keys distinct. */
  lemma AppendFreshKey(d: Od, item: ((int, int), int))
    requires DistinctKeys(d)
    requires forall q :: 0 <= q < |d| ==> d[q].0 != item.0
    ensures DistinctKeys(d + [item])
  {
    var r := d + [item];
    forall a, b | 0 <= a < b < |r| ensures r[a].0 != r[b].0 {
      assert r[a] == d[a];
      if b < |d| {
        assert r[b] == d[b];
      }
    }
  }

  /** `base_od` after line 31. */
  function BaseOd(): Od
  {
    WithoutSelfPairs(PutAll([], BaseOdItems))
  }

  /** What the rest of the script relies on in a base demand: distinct keys,
      stations of the base graph, no self-pair. */
  predicate BaseOdOk(baseOd: Od)
  {
    && DistinctKeys(baseOd)
    && forall p :: 0 <= p < |baseOd| ==>
         InBase(baseOd[p].0) && baseOd[p].0.0 != baseOd[p].0.1
  }

  /** Every key of the base demand display names two base stations. */
  lemma BaseOdItemsInRange()
    ensures forall p :: 0 <= p < |BaseOdItems| ==> InBase(BaseOdItems[p].0)
  {
  }

  predicate InBase(k: (int, int))
  {
    0 <= k.0 < BaseGraphSize && 0 <= k.1 < BaseGraphSize
  }

  /** Filtering a displayed dict whose keys name base stations leaves a base
      demand the rest of the script can rely on. */
  lemma FilteredDisplayOk(items: seq<((int, int), int)>)
    requires forall p :: 0 <= p < |items| ==> InBase(items[p].0)
    ensures BaseOdOk(WithoutSelfPairs(PutAll([], items)))
  {
    var raw := PutAll([], items);
    DisplayKeysInBase(items);
    WithoutSelfPairsDistinct(raw);
    var r := WithoutSelfPairs(raw);
    forall p | 0 <= p < |r|
      ensures InBase(r[p].0) && r[p].0.0 != r[p].0.1
    {
      var e := r[p];
      WithoutSelfPairsMember(raw, e);
      var q :| 0 <= q < |raw| && raw[q] == e;
      assert e.0 in Keys(raw);
    }
  }

  /** A dict displayed from keys that name base stations has only such keys. */
  lemma DisplayKeysInBase(items: seq<((int, int), int)>)
    requires forall p :: 0 <= p < |items| ==> InBase(items[p].0)
    ensures DistinctKeys(PutAll([], items))
    ensures forall k :: k in Keys(PutAll([], items)) ==> InBase(k)
  {
    PutAllKeys([], items);
    assert DistinctKeys<(int, int), int>([]);
  }

  /** The filtered base demand has no self-pair, and its stations are base
      stations. */
  lemma BaseOdIsOk()
    ensures BaseOdOk(BaseOd())
  {
    BaseOdItemsInRange();
    FilteredDisplayOk(BaseOdItems);
  }

  // ---------------------------------------------------------------------
  // The blocks (lines 42-49)

  /** The station at place `u` of block `b`. */
  function Station(b: int, u: int): int
  {
    b * BlockSize + u
  }

  /** Lines 47-49: the neighbours of a base station that lie in the base
      graph, moved by `offset`, in order. */
  function ShiftRow(row: seq<int>, offset: int): seq<int>
  {
    if row == [] then []
    else
      var init := ShiftRow(row[..|row| - 1], offset);
      var v := row[|row| - 1];
      if v < BaseGraphSize then init + [offset + v] else init
  }

  /** The row holds `w` exactly when `w - offset` is a neighbour inside the
      base graph; when every neighbour is inside, nothing is dropped and the
      row is the base row moved by `offset`. */
  lemma {:induction false} ShiftRowSpec(row: seq<int>, offset: int)
    ensures forall w :: w in ShiftRow(row, offset) <==> w - offset in row && w - offset < BaseGraphSize
    ensures (forall k :: 0 <= k < |row| ==> row[k] < BaseGraphSize) ==>
      |ShiftRow(row, offset)| == |row| && forall k :: 0 <= k < |row| ==> ShiftRow(row, offset)[k] == offset + row[k]
  {
    ShiftRowMembers(row, offset);
    if forall k :: 0 <= k < |row| ==> row[k] < BaseGraphSize {
      ShiftRowExact(row, offset);
    }
  }

  lemma {:induction false} ShiftRowMembers(row: seq<int>, offset: int)
    ensures forall w :: w in ShiftRow(row, offset) <==> w - offset in row && w - offset < BaseGraphSize
  {
    if row != [] {
      var init, v := row[..|row| - 1], row[|row| - 1];
      ShiftRowMembers(init, offset);
      assert row == init + [v];
      forall w ensures w in ShiftRow(row, offset) <==> w - offset in row && w - offset < BaseGraphSize {
        assert w - offset in row <==> w - offset in init || w - offset == v;
      }
    }
  }

  lemma {:induction false} ShiftRowExact(row: seq<int>, offset: int)
    requires forall k :: 0 <= k < |row| ==> row[k] < BaseGraphSize
    ensures |ShiftRow(row, offset)| == |row|
    ensures forall k :: 0 <= k < |row| ==> ShiftRow(row, offset)[k] == offset + row[k]
  {
    if row != [] {
      var init, v := row[..|row| - 1], row[|row| - 1];
      ShiftRowExact(init, offset);
      assert ShiftRow(row, offset) == ShiftRow(init, offset) + [offset + v];
    }
  }

  /** Lines 44-49 for the first `u` base stations of block `b`. */
  function CopiedUpTo(edges: Edges, base: Edges, b: int, u: nat): Edges
  {
    if u == 0 then edges
    else CopiedUpTo(edges, base, b, u - 1)[Station(b, u - 1) := ShiftRow(Connectivity.Nbrs(base, u - 1), Station(b, 0))]
  }

  /** Lines 42-49 for the first `nb` blocks. */
  function BlocksUpTo(base: Edges, nb: nat): Edges
  {
    if nb == 0 then map[] else CopiedUpTo(BlocksUpTo(base, nb - 1), base, nb - 1, BaseGraphSize)
  }

  /** Lines 46-49: `edges[offset + u]` is reset and receives the shifted
      neighbours of `u`. */
  method CopyRow(edges: Edges, base: Edges, offset: int, u: int) returns (r: Edges)
    ensures r == edges[offset + u := ShiftRow(Connectivity.Nbrs(base, u), offset)]
  {
    var key := offset + u;
    r := edges[key := []];
    var row := Connectivity.Nbrs(base, u);
    var i := 0;
    while i < |row|
      invariant 0 <= i <= |row|
      invariant r == edges[key := ShiftRow(row[..i], offset)]
    {
      var v := row[i];
      if v < BaseGraphSize {
        r := r[key := r[key] + [offset + v]];
      }
      assert row[..i + 1][..i] == row[..i];
      i := i + 1;
    }
    assert row[..i] == row;
  }

  /** Lines 44-49 for block `b`. */
  method CopyBlock(edges: Edges, base: Edges, b: int) returns (r: Edges)
    ensures r == CopiedUpTo(edges, base, b, BaseGraphSize)
  {
    var offset := b * BlockSize;
    r := edges;
    var u := 0;
    while u < BaseGraphSize
      invariant 0 <= u <= BaseGraphSize
      invariant r == CopiedUpTo(edges, base, b, u)
    {
      r := CopyRow(r, base, offset, u);
      u := u + 1;
    }
  }

  /** Lines 42-49. */
  method BuildBlocks(base: Edges) returns (edges: Edges)
    ensures edges == BlocksUpTo(base, NBlocks)
  {
    edges := map[];
    var b := 0;
    while b < NBlocks
      invariant 0 <= b <= NBlocks
      invariant edges == BlocksUpTo(base, b)
    {
      BlocksStep(base, b);
      edges := CopyBlock(edges, base, b);
      b := b + 1;
    }
  }

  /** One more block is the copy of its rows on top of the earlier ones. */
  lemma BlocksStep(base: Edges, b: nat)
    ensures BlocksUpTo(base, b + 1) == CopiedUpTo(BlocksUpTo(base, b), base, b, BaseGraphSize)
  {
  }

  /** Copying the rows of block `b` adds the stations of that block and
      gives each the shifted base row; other rows stay. */
  lemma {:induction false} CopiedUpToSpec(edges: Edges, base: Edges, b: int, u: nat)
    requires u <= BaseGraphSize
    ensures forall i :: i in CopiedUpTo(edges, base, b, u) <==> i in edges || Station(b, 0) <= i < Station(b, u)
    ensures forall v :: 0 <= v < u ==>
      Station(b, v) in CopiedUpTo(edges, base, b, u) &&
      CopiedUpTo(edges, base, b, u)[Station(b, v)] == ShiftRow(Connectivity.Nbrs(base, v), Station(b, 0))
    ensures forall i :: i in edges && !(Station(b, 0) <= i < Station(b, u)) ==> CopiedUpTo(edges, base, b, u)[i] == edges[i]
  {
    if u > 0 {
      CopiedUpToSpec(edges, base, b, u - 1);
    }
  }

  /** After `nb` blocks, the stations are `0..nb*10-1` and station `u` of
      block `b` has the base row of `u` moved into block `b`. */
  lemma {:induction false} BlocksSpec(base: Edges, nb: nat)
    ensures forall i :: i in BlocksUpTo(base, nb) <==> 0 <= i < nb * BlockSize
    ensures forall b, u :: 0 <= b < nb && 0 <= u < BaseGraphSize ==>
      BlocksUpTo(base, nb)[Station(b, u)] == ShiftRow(Connectivity.Nbrs(base, u), Station(b, 0))
  {
    if nb > 0 {
      BlocksSpec(base, nb - 1);
      CopiedUpToSpec(BlocksUpTo(base, nb - 1), base, nb - 1, BaseGraphSize);
      forall b, u | 0 <= b < nb && 0 <= u < BaseGraphSize
        ensures BlocksUpTo(base, nb)[Station(b, u)] == ShiftRow(Connectivity.Nbrs(base, u), Station(b, 0))
      {
        if b < nb - 1 {
          assert Station(b, u) < Station(nb - 1, 0);
        }
      }
    }
  }

  /** What the block copy relies on in a base graph: its stations are
      `0..9` and every edge is listed in both directions. */
  ghost predicate BaseOk(base: Edges)
  {
    (forall u :: u in base <==> 0 <= u < BaseGraphSize) && GenerateNetwork.UndirectedDict(base)
  }

  /** The base graph of lines 6-17 is such a graph. */
  lemma BaseEdgesOk()
    ensures BaseOk(BaseEdges)
  {
    var g := BaseEdges;
    assert forall u :: u in g <==> 0 <= u < BaseGraphSize;
    forall i, j | i in g && j in g[i] ensures j in g && j != i && i in g[j] {
      BaseRowOk(i, j);
    }
  }

  /** One base row at a time: its neighbours are stations listing it back. */
  lemma BaseRowOk(i: int, j: int)
    requires i in BaseEdges && j in BaseEdges[i]
    ensures j in BaseEdges && j != i && i in BaseEdges[j]
  {
    var g := BaseEdges;
    if i == 0 { assert g[0] == [1]; }
    else if i == 1 { assert g[1] == [0, 2]; }
    else if i == 2 { assert g[2] == [1, 3, 4, 7]; }
    else if i == 3 { assert g[3] == [2]; }
    else if i == 4 { assert g[4] == [2, 5]; }
    else if i == 5 { assert g[5] == [4, 6]; }
    else if i == 6 { assert g[6] == [5, 7]; }
    else if i == 7 { assert g[7] == [2, 6, 8]; }
    else if i == 8 { assert g[8] == [7, 9]; }
    else { assert i == 9 && g[9] == [8]; }
  }

  /** Lines 43-49 give `edges[b*10 + u]` the base row of `u` with every
      neighbour moved by `b*10`; the guard of line 48 drops nothing. */
  lemma BlockRowsShifted(base: Edges)
    requires BaseOk(base)
    ensures forall i :: i in BlocksUpTo(base, NBlocks) <==> 0 <= i < TotalStations
    ensures forall b, u :: 0 <= b < NBlocks && 0 <= u < BaseGraphSize ==>
      var row := BlocksUpTo(base, NBlocks)[Station(b, u)];
      |row| == |base[u]| && forall k :: 0 <= k < |row| ==> row[k] == Station(b, base[u][k])
  {
    BlocksSpec(base, NBlocks);
    forall b, u | 0 <= b < NBlocks && 0 <= u < BaseGraphSize
      ensures var row := BlocksUpTo(base, NBlocks)[Station(b, u)];
        |row| == |base[u]| && forall k :: 0 <= k < |row| ==> row[k] == Station(b, base[u][k])
    {
      var nb := base[u];
      forall k | 0 <= k < |nb| ensures nb[k] < BaseGraphSize {
        var v := nb[k];
        assert u in base && v in base[u];
        assert v in base;
      }
      ShiftRowSpec(nb, Station(b, 0));
    }
  }

  /** Every station lies in one block at one place. */
  lemma StationOf(i: int)
    requires 0 <= i < TotalStations
    ensures 0 <= i / BlockSize < NBlocks && 0 <= i % BlockSize < BaseGraphSize
    ensures i == Station(i / BlockSize, i % BlockSize)
  {
  }

  /** Because the base graph lists every edge both ways, so do the blocks. */
  lemma BlocksUndirected(base: Edges)
    requires BaseOk(base)
    ensures GenerateNetwork.UndirectedDict(BlocksUpTo(base, NBlocks))
  {
    var g := BlocksUpTo(base, NBlocks);
    forall i, j | i in g && j in g[i] ensures j in g && j != i && i in g[j] {
      BlocksSpec(base, NBlocks);
      StationOf(i);
      BlocksUndirectedAt(base, i / BlockSize, i % BlockSize, j);
    }
  }

  /** One instance of `BlocksUndirected`, for station `u` of block `b`. */
  lemma BlocksUndirectedAt(base: Edges, b: int, u: int, j: int)
    requires BaseOk(base) && 0 <= b < NBlocks && 0 <= u < BaseGraphSize
    requires Station(b, u) in BlocksUpTo(base, NBlocks) && j in BlocksUpTo(base, NBlocks)[Station(b, u)]
    ensures j in BlocksUpTo(base, NBlocks) && j != Station(b, u) && Station(b, u) in BlocksUpTo(base, NBlocks)[j]
  {
    var offset := Station(b, 0);
    BlockRow(base, b, u);
    ShiftRowSpec(base[u], offset);
    var v := j - offset;
    assert v in base[u];
    assert v in base && v != u && u in base[v];
    StationBounds(b, v);
    StationBounds(b, u);
    BlockRow(base, b, v);
    ShiftRowSpec(base[v], offset);
  }

  /** The row of station `u` of block `b` is the base row of `u` moved into
      the block. */
  lemma BlockRow(base: Edges, b: int, u: int)
    requires BaseOk(base) && 0 <= b < NBlocks && 0 <= u < BaseGraphSize
    ensures Station(b, u) in BlocksUpTo(base, NBlocks)
    ensures BlocksUpTo(base, NBlocks)[Station(b, u)] == ShiftRow(base[u], Station(b, 0))
  {
    BlocksSpec(base, NBlocks);
    StationBounds(b, u);
  }

  /** A place of a block is a station of the network. */
  lemma StationBounds(b: int, v: int)
    requires 0 <= b < NBlocks && 0 <= v < BaseGraphSize
    ensures 0 <= Station(b, v) < TotalStations && Station(b, v) == Station(b, 0) + v
  {
  }

  // ---------------------------------------------------------------------
  // The links between blocks (lines 51-80)

  /** Lines 73-79: an end that is not yet a station gets an empty row, then
      each end is appended to the row of the other. */
  function Link(edges: Edges, a: int, c: int): (r: Edges)
  {
    var e1 := if a in edges then edges else edges[a := []];
    var e2 := if c in e1 then e1 else e1[c := []];
    var e3 := e2[a := e2[a] + [c]];
    e3[c := e3[c] + [a]]
  }

  /** The links `links` added one after the other. */
  function AddLinks(edges: Edges, links: seq<(int, int)>): Edges
  {
    if links == [] then edges
    else
      var last := links[|links| - 1];
      Link(AddLinks(edges, links[..|links| - 1]), last.0, last.1)
  }

  /** Lines 59-60 from `b2` on: the block pairs `(b1, b2')`, each
      `LinksPerPair` times. */
  function PairsFrom(b1: int, b2: int): seq<(int, int)>
    decreases NBlocks - b2
  {
    if b2 >= NBlocks then [] else seq(LinksPerPair, _ => (b1, b2)) + PairsFrom(b1, b2 + 1)
  }

  /** Lines 58-60 from `b1` on: the block pair of every round, in loop
      order. */
  function Rounds(b1: int): seq<(int, int)>
    decreases NBlocks - b1
  {
    if b1 >= NBlocks then [] else PairsFrom(b1, b1 + 1) + Rounds(b1 + 1)
  }

  /** Lines 62-63: the places a link may use in a block. */
  function Candidates(): seq<int>
  {
    seq(BaseGraphSize, i => i)
  }

  /** The draws of lines 66-67, one pair of indices into the candidate lists
      per round, in order; `random.choice` picks an index below the length. */
  predicate LinkDraws(picks: seq<(int, int)>)
  {
    |picks| == |Rounds(0)| && InCandidates(picks)
  }

  /** Every draw is an index into the candidate lists. */
  predicate InCandidates(picks: seq<(int, int)>)
  {
    forall q :: 0 <= q < |picks| ==> 0 <= picks[q].0 < |Candidates()| && 0 <= picks[q].1 < |Candidates()|
  }

  /** Lines 69-70: the stations a round joins. */
  function LinkOf(pair: (int, int), pick: (int, int)): (int, int)
  {
    (Station(pair.0, pick.0), Station(pair.1, pick.1))
  }

  /** `inter_connections` after all rounds. */
  function Links(picks: seq<(int, int)>): (r: seq<(int, int)>)
    requires |picks| == |Rounds(0)|
  {
    seq(|picks|, q requires 0 <= q < |picks| => LinkOf(Rounds(0)[q], picks[q]))
  }

  /** The rounds from position `k` on begin with `part`. */
  predicate At(all: seq<(int, int)>, k: int, part: seq<(int, int)>)
  {
    0 <= k && k + |part| <= |all| && all[k..k + |part|] == part
  }

  /** A round prefix splits into its two parts. */
  lemma AtSplit(all: seq<(int, int)>, k: int, x: seq<(int, int)>, y: seq<(int, int)>)
    requires At(all, k, x + y)
    ensures At(all, k, x) && At(all, k + |x|, y)
  {
    assert all[k..k + |x|] == (x + y)[..|x|];
    assert all[k + |x|..k + |x| + |y|] == (x + y)[|x|..];
  }

  /** The rounds from block `b1` on are those of `b1` and then the later
      ones. */
  lemma RoundsStep(all: seq<(int, int)>, k: int, b1: int)
    requires b1 < NBlocks && At(all, k, Rounds(b1))
    ensures At(all, k, PairsFrom(b1, b1 + 1)) && At(all, k + |PairsFrom(b1, b1 + 1)|, Rounds(b1 + 1))
    ensures |Rounds(b1)| == |PairsFrom(b1, b1 + 1)| + |Rounds(b1 + 1)|
  {
    AtSplit(all, k, PairsFrom(b1, b1 + 1), Rounds(b1 + 1));
  }

  /** The rounds of `b1` from `b2` on are those with `b2` and then the
      later ones. */
  lemma PairsStep(all: seq<(int, int)>, k: int, b1: int, b2: int)
    requires b2 < NBlocks && At(all, k, PairsFrom(b1, b2))
    ensures At(all, k, seq(LinksPerPair, _ => (b1, b2))) && At(all, k + LinksPerPair, PairsFrom(b1, b2 + 1))
    ensures |PairsFrom(b1, b2)| == LinksPerPair + |PairsFrom(b1, b2 + 1)|
  {
    AtSplit(all, k, seq(LinksPerPair, _ => (b1, b2)), PairsFrom(b1, b2 + 1));
  }

  /** The state of lines 53-80 after the first `k` rounds: `inter` holds their
      links and `edges` is the block graph with those links added. */
  ghost predicate Linked(blocks: Edges, edges: Edges, inter: seq<(int, int)>, picks: seq<(int, int)>, all: seq<(int, int)>, k: int)
  {
    && 0 <= k == |inter| <= |picks| == |all|
    && (forall q :: 0 <= q < k ==> inter[q] == LinkOf(all[q], picks[q]))
    && edges == AddLinks(blocks, inter)
  }

  /** Lines 60-80 for the block pair `(b1, b2)`. */
  method LinkPair(ghost blocks: Edges, edges: Edges, inter: seq<(int, int)>, picks: seq<(int, int)>,
                  ghost all: seq<(int, int)>, k: int, b1: int, b2: int)
    returns (edges': Edges, inter': seq<(int, int)>)
    requires InCandidates(picks) && Linked(blocks, edges, inter, picks, all, k)
    requires At(all, k, seq(LinksPerPair, _ => (b1, b2)))
    ensures Linked(blocks, edges', inter', picks, all, k + LinksPerPair)
    ensures |inter'| == k + LinksPerPair
  {
    edges', inter' := edges, inter;
    var r := 0;
    while r < LinksPerPair
      invariant 0 <= r <= LinksPerPair
      invariant Linked(blocks, edges', inter', picks, all, k + r)
    {
      var uCandidates := Candidates();
      var vCandidates := Candidates();
      var u := uCandidates[picks[k + r].0];
      var v := vCandidates[picks[k + r].1];
      var uFull := b1 * BlockSize + u;
      var vFull := b2 * BlockSize + v;
      ghost var before := edges';
      if uFull !in edges' {
        edges' := edges'[uFull := []];
      }
      if vFull !in edges' {
        edges' := edges'[vFull := []];
      }
      edges' := edges'[uFull := edges'[uFull] + [vFull]];
      edges' := edges'[vFull := edges'[vFull] + [uFull]];
      assert edges' == Link(before, uFull, vFull);
      assert all[k + r] == (b1, b2) by {
        assert all[k + r] == seq(LinksPerPair, _ => (b1, b2))[r];
      }
      assert u == picks[k + r].0 && v == picks[k + r].1;
      assert (uFull, vFull) == LinkOf(all[k + r], picks[k + r]);
      LinkedStep(blocks, before, inter', picks, all, k + r, (uFull, vFull));
      inter' := inter' + [(uFull, vFull)];
      r := r + 1;
    }
  }

  /** One more round keeps the state of lines 53-80 in step. */
  lemma LinkedStep(blocks: Edges, edges: Edges, inter: seq<(int, int)>, picks: seq<(int, int)>,
                   all: seq<(int, int)>, k: int, l: (int, int))
    requires Linked(blocks, edges, inter, picks, all, k) && k < |picks|
    requires l == LinkOf(all[k], picks[k])
    ensures Linked(blocks, Link(edges, l.0, l.1), inter + [l], picks, all, k + 1)
  {
    assert (inter + [l])[..|inter|] == inter;
  }

  /** Lines 59-80 for the block `b1` and the blocks after it. */
  method LinkFrom(ghost blocks: Edges, edges: Edges, inter: seq<(int, int)>, picks: seq<(int, int)>,
                  ghost all: seq<(int, int)>, b1: int)
    returns (edges': Edges, inter': seq<(int, int)>)
    requires InCandidates(picks) && b1 < NBlocks && RoundsLeft(blocks, edges, inter, picks, all, b1)
    ensures RoundsLeft(blocks, edges', inter', picks, all, b1 + 1)
  {
    ghost var end := |inter| + |PairsFrom(b1, b1 + 1)|;
    RoundsLeftOpen(blocks, edges, inter, picks, all, b1);
    edges', inter' := edges, inter;
    var b2 := b1 + 1;
    while b2 < NBlocks
      invariant b1 + 1 <= b2 && (b2 <= NBlocks || b2 == b1 + 1)
      invariant PairsLeft(blocks, edges', inter', picks, all, b1, b2, end)
    {
      var k := |inter'|;
      ghost var edges0, inter0 := edges', inter';
      PairsLeftOpen(blocks, edges', inter', picks, all, b1, b2, end);
      edges', inter' := LinkPair(blocks, edges', inter', picks, all, k, b1, b2);
      PairsLeftClose(blocks, edges0, inter0, edges', inter', picks, all, b1, b2, end);
      b2 := b2 + 1;
    }
    PairsLeftDone(blocks, edges', inter', picks, all, b1, b2, end);
    RoundsLeftClose(blocks, edges, inter, edges', inter', picks, all, b1);
  }

  /** The state of the inner loop of lines 59-80 before block `b2`: the
      rounds so far are linked, the rounds of `b1` from `b2` on follow them,
      and they end at position `end`. */
  ghost predicate PairsLeft(blocks: Edges, edges: Edges, inter: seq<(int, int)>, picks: seq<(int, int)>,
                            all: seq<(int, int)>, b1: int, b2: int, end: int)
  {
    && Linked(blocks, edges, inter, picks, all, |inter|)
    && At(all, |inter|, PairsFrom(b1, b2)) && |inter| + |PairsFrom(b1, b2)| == end
  }

  /** Before block `b2`, the rounds of `(b1, b2)` come next. */
  lemma PairsLeftOpen(blocks: Edges, edges: Edges, inter: seq<(int, int)>, picks: seq<(int, int)>,
                      all: seq<(int, int)>, b1: int, b2: int, end: int)
    requires b2 < NBlocks && PairsLeft(blocks, edges, inter, picks, all, b1, b2, end)
    ensures Linked(blocks, edges, inter, picks, all, |inter|)
    ensures At(all, |inter|, seq(LinksPerPair, _ => (b1, b2)))
  {
    PairsStep(all, |inter|, b1, b2);
  }

  /** After block `b2`, the rounds of `b1` from `b2 + 1` on come next. */
  lemma PairsLeftClose(blocks: Edges, edges0: Edges, inter0: seq<(int, int)>, edges: Edges, inter: seq<(int, int)>,
                       picks: seq<(int, int)>, all: seq<(int, int)>, b1: int, b2: int, end: int)
    requires b2 < NBlocks && PairsLeft(blocks, edges0, inter0, picks, all, b1, b2, end)
    requires Linked(blocks, edges, inter, picks, all, |inter0| + LinksPerPair)
    ensures PairsLeft(blocks, edges, inter, picks, all, b1, b2 + 1, end)
  {
    PairsStep(all, |inter0|, b1, b2);
  }

  /** After the last block `b2` the rounds of `b1` are all linked. */
  lemma PairsLeftDone(blocks: Edges, edges: Edges, inter: seq<(int, int)>, picks: seq<(int, int)>,
                      all: seq<(int, int)>, b1: int, b2: int, end: int)
    requires b2 >= NBlocks && PairsLeft(blocks, edges, inter, picks, all, b1, b2, end)
    ensures Linked(blocks, edges, inter, picks, all, end)
  {
    assert PairsFrom(b1, b2) == [];
  }

  /** Lines 53-80: every round in loop order. */
  method LinkBlocks(edges: Edges, picks: seq<(int, int)>) returns (edges': Edges, inter: seq<(int, int)>)
    requires LinkDraws(picks)
    ensures inter == Links(picks)
    ensures edges' == AddLinks(edges, inter)
  {
    ghost var all := Rounds(0);
    assert At(all, 0, all);
    edges', inter := LinkRounds(edges, picks, all, 0);
    LinkedAll(edges, edges', inter, picks, all);
  }

  /** Lines 57-80 from block `b0` on, the rounds before it being none. */
  method LinkRounds(edges: Edges, picks: seq<(int, int)>, ghost all: seq<(int, int)>, b0: int)
    returns (edges': Edges, inter: seq<(int, int)>)
    requires InCandidates(picks) && |picks| == |all|
    requires 0 <= b0 && At(all, 0, Rounds(b0)) && |Rounds(b0)| == |all|
    ensures Linked(edges, edges', inter, picks, all, |all|)
  {
    edges', inter := edges, [];
    var b1 := b0;
    RoundsLeftInit(edges, picks, all, b0);
    while b1 < NBlocks
      invariant b0 <= b1 && (b1 <= NBlocks || b1 == b0)
      invariant RoundsLeft(edges, edges', inter, picks, all, b1)
    {
      edges', inter := LinkFrom(edges, edges', inter, picks, all, b1);
      b1 := b1 + 1;
    }
    RoundsLeftDone(edges, edges', inter, picks, all, b1);
  }

  /** Before the first round nothing is linked. */
  lemma RoundsLeftInit(blocks: Edges, picks: seq<(int, int)>, all: seq<(int, int)>, b0: int)
    requires |picks| == |all| && At(all, 0, Rounds(b0)) && |Rounds(b0)| == |all|
    ensures RoundsLeft(blocks, blocks, [], picks, all, b0)
  {
  }

  /** After the last block every round is linked. */
  lemma RoundsLeftDone(blocks: Edges, edges: Edges, inter: seq<(int, int)>, picks: seq<(int, int)>, all: seq<(int, int)>, b1: int)
    requires b1 >= NBlocks && RoundsLeft(blocks, edges, inter, picks, all, b1)
    ensures Linked(blocks, edges, inter, picks, all, |all|)
  {
    assert Rounds(b1) == [];
  }

  /** The state of the outer loop of lines 57-80 before block `b1`: the
      rounds so far are linked and the rounds from `b1` on follow them. */
  ghost predicate RoundsLeft(blocks: Edges, edges: Edges, inter: seq<(int, int)>, picks: seq<(int, int)>, all: seq<(int, int)>, b1: int)
  {
    && Linked(blocks, edges, inter, picks, all, |inter|)
    && At(all, |inter|, Rounds(b1)) && |inter| + |Rounds(b1)| == |all|
  }

  /** Before block `b1`, its own rounds come next. */
  lemma RoundsLeftOpen(blocks: Edges, edges: Edges, inter: seq<(int, int)>, picks: seq<(int, int)>, all: seq<(int, int)>, b1: int)
    requires b1 < NBlocks && RoundsLeft(blocks, edges, inter, picks, all, b1)
    ensures PairsLeft(blocks, edges, inter, picks, all, b1, b1 + 1, |inter| + |PairsFrom(b1, b1 + 1)|)
  {
    RoundsStep(all, |inter|, b1);
  }

  /** After block `b1`, the rounds from `b1 + 1` on come next. */
  lemma RoundsLeftClose(blocks: Edges, edges0: Edges, inter0: seq<(int, int)>, edges: Edges, inter: seq<(int, int)>,
                        picks: seq<(int, int)>, all: seq<(int, int)>, b1: int)
    requires b1 < NBlocks && RoundsLeft(blocks, edges0, inter0, picks, all, b1)
    requires Linked(blocks, edges, inter, picks, all, |inter0| + |PairsFrom(b1, b1 + 1)|)
    ensures RoundsLeft(blocks, edges, inter, picks, all, b1 + 1)
  {
    RoundsStep(all, |inter0|, b1);
  }

  /** After the last round `inter` holds every link. */
  lemma LinkedAll(blocks: Edges, edges: Edges, inter: seq<(int, int)>, picks: seq<(int, int)>, all: seq<(int, int)>)
    requires all == Rounds(0) && |picks| == |all|
    requires Linked(blocks, edges, inter, picks, all, |inter|) && |inter| == |all|
    ensures inter == Links(picks) && edges == AddLinks(blocks, inter)
  {
    assert forall q :: 0 <= q < |inter| ==> inter[q] == Links(picks)[q];
  }

  /** The rounds of block `b1` from `b2` on: `LinksPerPair` for every later
      block below `NBlocks`. */
  lemma PairsFromShape(b1: int, b2: int)
    requires b2 <= NBlocks
    ensures |PairsFrom(b1, b2)| == LinksPerPair * (NBlocks - b2)
    ensures forall x, y :: multiset(PairsFrom(b1, b2))[(x, y)] == if x == b1 && b2 <= y < NBlocks then LinksPerPair else 0
    ensures forall q :: 0 <= q < |PairsFrom(b1, b2)| ==> PairsFrom(b1, b2)[q].0 == b1 && b2 <= PairsFrom(b1, b2)[q].1 < NBlocks
  {
    PairsFromLength(b1, b2);
    forall x, y ensures multiset(PairsFrom(b1, b2))[(x, y)] == if x == b1 && b2 <= y < NBlocks then LinksPerPair else 0 {
      PairsFromCount(b1, b2, x, y);
    }
    PairsFromBounds(b1, b2);
  }

  /** The three rounds one block pair gets. */
  lemma Triple(b1: int, b2: int)
    ensures seq(LinksPerPair, _ => (b1, b2)) == [(b1, b2), (b1, b2), (b1, b2)]
  {
  }

  lemma {:induction false} PairsFromLength(b1: int, b2: int)
    requires b2 <= NBlocks
    ensures |PairsFrom(b1, b2)| == LinksPerPair * (NBlocks - b2)
    decreases NBlocks - b2
  {
    if b2 < NBlocks {
      PairsFromLength(b1, b2 + 1);
      Triple(b1, b2);
      assert PairsFrom(b1, b2) == [(b1, b2), (b1, b2), (b1, b2)] + PairsFrom(b1, b2 + 1);
    }
  }

  lemma {:induction false} PairsFromCount(b1: int, b2: int, x: int, y: int)
    requires b2 <= NBlocks
    ensures multiset(PairsFrom(b1, b2))[(x, y)] == if x == b1 && b2 <= y < NBlocks then LinksPerPair else 0
    decreases NBlocks - b2
  {
    if b2 < NBlocks {
      PairsFromCount(b1, b2 + 1, x, y);
      Triple(b1, b2);
      var triple: seq<(int, int)>, rest := [(b1, b2), (b1, b2), (b1, b2)], PairsFrom(b1, b2 + 1);
      assert PairsFrom(b1, b2) == triple + rest;
      assert multiset(triple + rest)[(x, y)] == multiset(triple)[(x, y)] + multiset(rest)[(x, y)];
    }
  }

  lemma {:induction false} PairsFromBounds(b1: int, b2: int)
    requires b2 <= NBlocks
    ensures forall q :: 0 <= q < |PairsFrom(b1, b2)| ==> PairsFrom(b1, b2)[q].0 == b1 && b2 <= PairsFrom(b1, b2)[q].1 < NBlocks
    decreases NBlocks - b2
  {
    if b2 < NBlocks {
      PairsFromBounds(b1, b2 + 1);
      Triple(b1, b2);
      var triple: seq<(int, int)>, rest := [(b1, b2), (b1, b2), (b1, b2)], PairsFrom(b1, b2 + 1);
      assert PairsFrom(b1, b2) == triple + rest;
      forall q | 0 <= q < |triple + rest| ensures (triple + rest)[q].0 == b1 && b2 <= (triple + rest)[q].1 < NBlocks {
        if q >= 3 {
          assert (triple + rest)[q] == rest[q - 3];
        }
      }
    }
  }

  /** Lines 58-60 visit every block pair `b1 < b2` from `b1` on exactly
      `LinksPerPair` times and no other pair. */
  lemma RoundsPairs(b1: int)
    requires b1 <= NBlocks
    ensures forall x, y :: multiset(Rounds(b1))[(x, y)] == if b1 <= x < y < NBlocks then LinksPerPair else 0
  {
    forall x, y ensures multiset(Rounds(b1))[(x, y)] == if b1 <= x < y < NBlocks then LinksPerPair else 0 {
      RoundsPairCount(b1, x, y);
      CountMultiset(Rounds(b1), (x, y));
    }
  }

  lemma {:induction false} RoundsPairCount(b1: int, x: int, y: int)
    requires b1 <= NBlocks
    ensures Count(Rounds(b1), (x, y)) == if b1 <= x < y < NBlocks then LinksPerPair else 0
    decreases NBlocks - b1, 1
  {
    if b1 < NBlocks {
      RoundsPairCountStep(b1, x, y);
    }
  }

  /** The step of `RoundsPairCount`: the rounds of `b1` add its own pairs. */
  lemma {:induction false} RoundsPairCountStep(b1: int, x: int, y: int)
    requires b1 < NBlocks
    ensures Count(Rounds(b1), (x, y)) == if b1 <= x < y < NBlocks then LinksPerPair else 0
    decreases NBlocks - b1, 0
  {
    RoundsPairCount(b1 + 1, x, y);
    PairsFromCount(b1, b1 + 1, x, y);
    CountMultiset(PairsFrom(b1, b1 + 1), (x, y));
    CountConcat(PairsFrom(b1, b1 + 1), Rounds(b1 + 1), (x, y));
  }

  /** The number of occurrences of `p` in `s`. */
  function Count<T(==)>(s: seq<T>, p: T): nat
  {
    if s == [] then 0 else Count(s[..|s| - 1], p) + (if s[|s| - 1] == p then 1 else 0)
  }

  lemma {:induction false} CountMultiset<T>(s: seq<T>, p: T)
    ensures Count(s, p) == multiset(s)[p]
  {
    if s != [] {
      CountMultiset(s[..|s| - 1], p);
      assert s == s[..|s| - 1] + [s[|s| - 1]];
    }
  }

  /** Counting in a concatenation adds the counts of its parts. */
  lemma {:induction false} CountConcat<T>(a: seq<T>, b: seq<T>, p: T)
    ensures Count(a + b, p) == Count(a, p) + Count(b, p)
  {
    if b != [] {
      CountConcat(a, b[..|b| - 1], p);
      assert (a + b)[..|a + b| - 1] == a + b[..|b| - 1];
    } else {
      assert a + b == a;
    }
  }

  /** Every round from `b1` on joins a block `b1` or later to a later one. */
  lemma {:induction false} RoundsOrdered(b1: int)
    requires b1 <= NBlocks
    ensures forall q :: 0 <= q < |Rounds(b1)| ==> b1 <= Rounds(b1)[q].0 < Rounds(b1)[q].1 < NBlocks
    decreases NBlocks - b1
  {
    if b1 < NBlocks {
      RoundsOrdered(b1 + 1);
      PairsFromShape(b1, b1 + 1);
      var head, rest := PairsFrom(b1, b1 + 1), Rounds(b1 + 1);
      assert forall q :: 0 <= q < |rest| ==> (head + rest)[q + |head|] == rest[q];
    }
  }

  /** The number of pairs `x < y` below `m`. */
  function Triangle(m: int): nat
  {
    if m <= 0 then 0 else m - 1 + Triangle(m - 1)
  }

  /** There are `LinksPerPair` rounds for each of the block pairs. */
  lemma {:induction false} RoundsCount(b1: int)
    requires b1 <= NBlocks
    ensures |Rounds(b1)| == LinksPerPair * Triangle(NBlocks - b1)
    decreases NBlocks - b1
  {
    if b1 < NBlocks {
      RoundsCount(b1 + 1);
      PairsFromLength(b1, b1 + 1);
    }
  }

  /** `inter_connections` has 30 entries; entry `q` joins a station of the
      first block of round `q` to a station of its second block. */
  lemma LinksShape(picks: seq<(int, int)>)
    requires LinkDraws(picks)
    ensures |Links(picks)| == 30
    ensures forall q :: 0 <= q < |Links(picks)| ==>
      && Links(picks)[q].0 / BlockSize == Rounds(0)[q].0
      && Links(picks)[q].1 / BlockSize == Rounds(0)[q].1
      && 0 <= Links(picks)[q].0 < TotalStations && 0 <= Links(picks)[q].1 < TotalStations
      && Links(picks)[q].0 != Links(picks)[q].1
  {
    RoundsCount(0);
    assert Triangle(NBlocks) == 10;
    RoundsOrdered(0);
  }

  /** The stations a list of links joins. */
  function Ends(links: seq<(int, int)>): set<int>
  {
    if links == [] then {} else Ends(links[..|links| - 1]) + {links[|links| - 1].0, links[|links| - 1].1}
  }

  /** One link joins its two ends and nothing else. */
  lemma LinkSpec(edges: Edges, a: int, c: int)
    ensures Link(edges, a, c).Keys == edges.Keys + {a, c}
    ensures forall i, j :: j in Connectivity.Nbrs(Link(edges, a, c), i) <==>
      j in Connectivity.Nbrs(edges, i) || (i == a && j == c) || (i == c && j == a)
  {
  }

  /** Lines 66-67 draw with replacement: when the first two draws for the
      block pair (0, 1) coincide, the first two links are the same link. */
  lemma RepeatedPickRepeatsLink(picks: seq<(int, int)>)
    requires LinkDraws(picks)
    requires 2 <= |picks| && picks[0] == picks[1]
    ensures Links(picks)[0] == Links(picks)[1]
    ensures Links(picks)[0] == (Station(0, picks[0].0), Station(1, picks[0].1))
  {
    assert Rounds(0)[..2] == [(0, 1), (0, 1)];
  }

  /** The same link added twice lists each end twice in the other's row:
      lines 78-79 append without checking. */
  lemma LinkTwice(edges: Edges, a: int, c: int)
    requires a in edges && c in edges && a != c
    ensures Link(Link(edges, a, c), a, c)[a] == edges[a] + [c, c]
    ensures Link(Link(edges, a, c), a, c)[c] == edges[c] + [a, a]
  {
  }

  /** Adding links joins each link's two ends and nothing else; the stations
      afterwards are the old ones and the ends. */
  lemma AddLinksSpec(edges: Edges, links: seq<(int, int)>)
    ensures AddLinks(edges, links).Keys == edges.Keys + Ends(links)
    ensures forall i, j :: j in Connectivity.Nbrs(AddLinks(edges, links), i) <==>
      j in Connectivity.Nbrs(edges, i) || (i, j) in links || (j, i) in links
  {
    AddLinksKeys(edges, links);
    forall i, j ensures j in Connectivity.Nbrs(AddLinks(edges, links), i) <==>
      j in Connectivity.Nbrs(edges, i) || (i, j) in links || (j, i) in links
    {
      AddLinksMember(edges, links, i, j);
    }
  }

  lemma {:induction false} AddLinksKeys(edges: Edges, links: seq<(int, int)>)
    ensures AddLinks(edges, links).Keys == edges.Keys + Ends(links)
  {
    if links != [] {
      var init := links[..|links| - 1];
      var last := links[|links| - 1];
      AddLinksKeys(edges, init);
      LinkSpec(AddLinks(edges, init), last.0, last.1);
    }
  }

  lemma {:induction false} AddLinksMember(edges: Edges, links: seq<(int, int)>, i: int, j: int)
    ensures j in Connectivity.Nbrs(AddLinks(edges, links), i) <==>
      j in Connectivity.Nbrs(edges, i) || (i, j) in links || (j, i) in links
  {
    if links != [] {
      var init := links[..|links| - 1];
      var last := links[|links| - 1];
      AddLinksMember(edges, init, i, j);
      var prev := AddLinks(edges, init);
      assert AddLinks(edges, links) == Link(prev, last.0, last.1);
      LinkSpec(prev, last.0, last.1);
      assert j in Connectivity.Nbrs(Link(prev, last.0, last.1), i) <==>
        j in Connectivity.Nbrs(prev, i) || (i == last.0 && j == last.1) || (i == last.1 && j == last.0);
      assert links == init + [last];
      assert (i, j) in links <==> (i, j) in init || (i, j) == last;
      assert (j, i) in links <==> (j, i) in init || (j, i) == last;
    }
  }

  /** A link list whose every end is present has its ends among the
      stations. */
  lemma {:induction false} EndsPresent(edges: Edges, links: seq<(int, int)>)
    requires forall q :: 0 <= q < |links| ==> links[q].0 in edges && links[q].1 in edges
    ensures Ends(links) <= edges.Keys
  {
    if links != [] {
      var init := links[..|links| - 1];
      assert forall q :: 0 <= q < |init| ==> init[q] == links[q];
      EndsPresent(edges, init);
    }
  }

  /** The guards of lines 73-76 never add a station when every link end is
      one already. */
  lemma LinksKeepStations(edges: Edges, links: seq<(int, int)>)
    requires forall q :: 0 <= q < |links| ==> links[q].0 in edges && links[q].1 in edges
    ensures AddLinks(edges, links).Keys == edges.Keys
  {
    AddLinksSpec(edges, links);
    EndsPresent(edges, links);
  }

  /** Links between two different stations that are already present keep
      a graph undirected. */
  lemma LinksUndirected(edges: Edges, links: seq<(int, int)>)
    requires GenerateNetwork.UndirectedDict(edges)
    requires forall q :: 0 <= q < |links| ==> links[q].0 in edges && links[q].1 in edges && links[q].0 != links[q].1
    ensures GenerateNetwork.UndirectedDict(AddLinks(edges, links))
  {
    var g := AddLinks(edges, links);
    AddLinksSpec(edges, links);
    LinksKeepStations(edges, links);
    forall i, j | i in g && j in g[i] ensures j in g && j != i && i in g[j] {
      assert j in Connectivity.Nbrs(g, i);
      LinkedBothWays(edges, links, i, j);
    }
  }

  /** A pair joined by the base graph or by a link is joined both ways. */
  lemma LinkedBothWays(edges: Edges, links: seq<(int, int)>, i: int, j: int)
    requires GenerateNetwork.UndirectedDict(edges)
    requires forall q :: 0 <= q < |links| ==> links[q].0 in edges && links[q].1 in edges && links[q].0 != links[q].1
    requires j in Connectivity.Nbrs(edges, i) || (i, j) in links || (j, i) in links
    ensures i in edges && j in edges && j != i
    ensures i in Connectivity.Nbrs(edges, j) || (j, i) in links || (i, j) in links
  {
    if (i, j) in links {
      var q :| 0 <= q < |links| && links[q] == (i, j);
    } else if (j, i) in links {
      var q :| 0 <= q < |links| && links[q] == (j, i);
    } else {
      assert i in edges && j in edges[i];
    }
  }

  // ---------------------------------------------------------------------
  // The shifted demand (lines 84-101)

  /** Line 89: the first station of block `b`, where its origins lie. */
  function SrcOffset(b: int): int
  {
    b * BlockSize
  }

  /** Lines 90-91: the first station of the block that receives the demand
      of block `b`; both operands of `%` are non-negative, so Python's and
      Dafny's remainders agree. */
  function DstOffset(b: int): int
    requires 0 <= b < NBlocks
  {
    ((b + DemandShift[b]) % NBlocks) * BlockSize
  }

  /** Lines 93-101 on one base entry: it is skipped when a station lies
      outside the base graph or a shifted station is missing. */
  predicate Skipped(edges: Edges, entry: ((int, int), int), offsetSrc: int, offsetDst: int)
  {
    || entry.0.0 >= BaseGraphSize || entry.0.1 >= BaseGraphSize
    || offsetSrc + entry.0.0 !in edges || offsetDst + entry.0.1 !in edges
  }

  /** Lines 92-101 for one block, whose origins start at `offsetSrc` and
      destinations at `offsetDst`: the entries assigned, in the order of the
      base demand, skipped ones left out. */
  function BlockOd(edges: Edges, baseOd: Od, offsetSrc: int, offsetDst: int): Od
  {
    if baseOd == [] then []
    else
      var init := BlockOd(edges, baseOd[..|baseOd| - 1], offsetSrc, offsetDst);
      var entry := baseOd[|baseOd| - 1];
      if Skipped(edges, entry, offsetSrc, offsetDst) then init
      else init + [((offsetSrc + entry.0.0, offsetDst + entry.0.1), entry.1)]
  }

  /** Lines 85-101 for the first `nb` blocks. */
  function OdUpTo(edges: Edges, baseOd: Od, nb: nat): Od
    requires nb <= NBlocks
  {
    if nb == 0 then []
    else PutAll(OdUpTo(edges, baseOd, nb - 1), BlockOd(edges, baseOd, SrcOffset(nb - 1), DstOffset(nb - 1)))
  }

  /** Lines 92-101 for one block. */
  method ShiftBlockOd(od: Od, edges: Edges, baseOd: Od, offsetSrc: int, offsetDst: int) returns (od': Od)
    ensures od' == PutAll(od, BlockOd(edges, baseOd, offsetSrc, offsetDst))
  {
    od' := od;
    var i := 0;
    while i < |baseOd|
      invariant 0 <= i <= |baseOd|
      invariant od' == AssignAll(od, edges, baseOd[..i], offsetSrc, offsetDst)
    {
      AssignAllStep(od, edges, baseOd, offsetSrc, offsetDst, i);
      od' := ShiftEntry(od', edges, baseOd[i], offsetSrc, offsetDst);
      i := i + 1;
    }
    assert baseOd[..i] == baseOd;
    AssignAllBlock(od, edges, baseOd, offsetSrc, offsetDst);
  }

  /** Lines 93-101 on one base entry: unless it is skipped, the shifted pair
      is assigned the entry's count. */
  function Assign(od: Od, edges: Edges, entry: ((int, int), int), offsetSrc: int, offsetDst: int): Od
  {
    if Skipped(edges, entry, offsetSrc, offsetDst) then od
    else Put(od, (offsetSrc + entry.0.0, offsetDst + entry.0.1), entry.1)
  }

  /** `Assign` on each entry in turn. */
  function AssignAll(od: Od, edges: Edges, entries: Od, offsetSrc: int, offsetDst: int): Od
  {
    if entries == [] then od
    else Assign(AssignAll(od, edges, entries[..|entries| - 1], offsetSrc, offsetDst), edges, entries[|entries| - 1], offsetSrc, offsetDst)
  }

  /** Lines 93-101 on one base entry. */
  method ShiftEntry(od: Od, edges: Edges, entry: ((int, int), int), offsetSrc: int, offsetDst: int)
    returns (od': Od)
    ensures od' == Assign(od, edges, entry, offsetSrc, offsetDst)
  {
    var orig, dest, cnt := entry.0.0, entry.0.1, entry.1;
    if orig >= BaseGraphSize || dest >= BaseGraphSize {
      return od;
    }
    var newOrig := offsetSrc + orig;
    var newDest := offsetDst + dest;
    if newOrig !in edges || newDest !in edges {
      return od;
    }
    od' := Put(od, (newOrig, newDest), cnt);
  }

  /** One more base entry is one more `Assign`. */
  lemma AssignAllStep(od: Od, edges: Edges, baseOd: Od, offsetSrc: int, offsetDst: int, i: int)
    requires 0 <= i < |baseOd|
    ensures AssignAll(od, edges, baseOd[..i + 1], offsetSrc, offsetDst)
      == Assign(AssignAll(od, edges, baseOd[..i], offsetSrc, offsetDst), edges, baseOd[i], offsetSrc, offsetDst)
  {
    assert baseOd[..i + 1][..i] == baseOd[..i];
  }

  /** Assigning the entries one by one, skipping as lines 94-99 do, is
      assigning the block's entries of `BlockOd` in order. */
  lemma {:induction false} AssignAllBlock(od: Od, edges: Edges, entries: Od, offsetSrc: int, offsetDst: int)
    ensures AssignAll(od, edges, entries, offsetSrc, offsetDst) == PutAll(od, BlockOd(edges, entries, offsetSrc, offsetDst))
  {
    if entries != [] {
      var init, entry := entries[..|entries| - 1], entries[|entries| - 1];
      AssignAllBlock(od, edges, init, offsetSrc, offsetDst);
      if !Skipped(edges, entry, offsetSrc, offsetDst) {
        PutAllAppend(od, BlockOd(edges, init, offsetSrc, offsetDst), ((offsetSrc + entry.0.0, offsetDst + entry.0.1), entry.1));
      }
    }
  }

  /** Lines 85-101: each block's offsets (lines 89-91), then its entries. */
  method BuildOd(edges: Edges, baseOd: Od) returns (od: Od)
    ensures od == OdUpTo(edges, baseOd, NBlocks)
  {
    od := [];
    var b := 0;
    while b < NBlocks
      invariant 0 <= b <= NBlocks
      invariant od == OdUpTo(edges, baseOd, b)
    {
      var offsetSrc := SrcOffset(b);
      var offsetDst := DstOffset(b);
      OdUpToStep(edges, baseOd, b);
      od := ShiftBlockOd(od, edges, baseOd, offsetSrc, offsetDst);
      b := b + 1;
    }
  }

  /** One more block is one more `PutAll` of its entries. */
  lemma OdUpToStep(edges: Edges, baseOd: Od, b: nat)
    requires b < NBlocks
    ensures OdUpTo(edges, baseOd, b + 1) == PutAll(OdUpTo(edges, baseOd, b), BlockOd(edges, baseOd, SrcOffset(b), DstOffset(b)))
  {
  }

  /** The copy of a base entry for block `b`: the origin moved into block
      `b`, the destination into block `(b + DemandShift[b]) % NBlocks`, the
      count unchanged. */
  function ShiftedEntry(entry: ((int, int), int), b: int): ((int, int), int)
    requires 0 <= b < NBlocks
  {
    ((SrcOffset(b) + entry.0.0, DstOffset(b) + entry.0.1), entry.1)
  }

  /** Every station of the 50 is present. */
  ghost predicate AllStations(edges: Edges)
  {
    forall i :: 0 <= i < TotalStations ==> i in edges
  }

  /** The entries of a block are the base entries whose stations are base
      stations present after the shift, moved by the offsets with their
      counts unchanged; the shift keeps keys distinct. */
  lemma BlockOdSpec(edges: Edges, baseOd: Od, offsetSrc: int, offsetDst: int)
    ensures forall x, y, c :: ((x, y), c) in BlockOd(edges, baseOd, offsetSrc, offsetDst) <==>
      && ((x - offsetSrc, y - offsetDst), c) in baseOd
      && x - offsetSrc < BaseGraphSize && y - offsetDst < BaseGraphSize
      && x in edges && y in edges
    ensures DistinctKeys(baseOd) ==> DistinctKeys(BlockOd(edges, baseOd, offsetSrc, offsetDst))
  {
    BlockOdMembers(edges, baseOd, offsetSrc, offsetDst);
    if DistinctKeys(baseOd) {
      BlockOdDistinct(edges, baseOd, offsetSrc, offsetDst);
    }
  }

  /** The membership half of `BlockOdSpec`. */
  lemma {:induction false} BlockOdMembers(edges: Edges, baseOd: Od, offsetSrc: int, offsetDst: int)
    ensures forall x, y, c :: ((x, y), c) in BlockOd(edges, baseOd, offsetSrc, offsetDst) <==>
      && ((x - offsetSrc, y - offsetDst), c) in baseOd
      && x - offsetSrc < BaseGraphSize && y - offsetDst < BaseGraphSize
      && x in edges && y in edges
  {
    if baseOd != [] {
      var init := baseOd[..|baseOd| - 1];
      BlockOdMembers(edges, init, offsetSrc, offsetDst);
      assert baseOd == init + [baseOd[|baseOd| - 1]];
    }
  }

  /** The distinctness half of `BlockOdSpec`. */
  lemma {:induction false} BlockOdDistinct(edges: Edges, baseOd: Od, offsetSrc: int, offsetDst: int)
    requires DistinctKeys(baseOd)
    ensures DistinctKeys(BlockOd(edges, baseOd, offsetSrc, offsetDst))
  {
    if baseOd != [] {
      var init := baseOd[..|baseOd| - 1];
      var last := baseOd[|baseOd| - 1];
      assert DistinctKeys(init);
      BlockOdDistinct(edges, init, offsetSrc, offsetDst);
      if !Skipped(edges, last, offsetSrc, offsetDst) {
        BlockOdMembers(edges, init, offsetSrc, offsetDst);
        var done := BlockOd(edges, init, offsetSrc, offsetDst);
        forall q | 0 <= q < |done|
          ensures done[q].0 != (offsetSrc + last.0.0, offsetDst + last.0.1)
        {
          BlockOdFresh(edges, baseOd, offsetSrc, offsetDst, done, q);
        }
      }
    }
  }

  /** An entry already assigned does not have the key of the last base
      entry's shifted copy. */
  lemma BlockOdFresh(edges: Edges, baseOd: Od, offsetSrc: int, offsetDst: int, done: Od, q: int)
    requires DistinctKeys(baseOd) && baseOd != []
    requires done == BlockOd(edges, baseOd[..|baseOd| - 1], offsetSrc, offsetDst)
    requires forall x, y, c :: ((x, y), c) in done ==> ((x - offsetSrc, y - offsetDst), c) in baseOd[..|baseOd| - 1]
    requires 0 <= q < |done|
    ensures done[q].0 != (offsetSrc + baseOd[|baseOd| - 1].0.0, offsetDst + baseOd[|baseOd| - 1].0.1)
  {
    var init, last := baseOd[..|baseOd| - 1], baseOd[|baseOd| - 1];
    var x, y, c := done[q].0.0, done[q].0.1, done[q].1;
    assert done[q] == ((x, y), c);
    assert ((x, y), c) in done;
    var moved := ((x - offsetSrc, y - offsetDst), c);
    assert moved in init;
    var p :| 0 <= p < |init| && init[p] == moved;
    assert baseOd[p] == moved;
  }

  /** When the base demand names base stations only and all 50 stations are
      present, nothing is skipped: block `b` receives every base entry,
      shifted, in order. */
  lemma {:induction false} BlockOdFull(edges: Edges, baseOd: Od, b: int)
    requires 0 <= b < NBlocks && AllStations(edges)
    requires forall p :: 0 <= p < |baseOd| ==> InBase(baseOd[p].0)
    ensures |BlockOd(edges, baseOd, SrcOffset(b), DstOffset(b))| == |baseOd|
    ensures forall p :: 0 <= p < |baseOd| ==> BlockOd(edges, baseOd, SrcOffset(b), DstOffset(b))[p] == ShiftedEntry(baseOd[p], b)
  {
    if baseOd != [] {
      var init := baseOd[..|baseOd| - 1];
      assert forall p :: 0 <= p < |init| ==> init[p] == baseOd[p];
      BlockOdFull(edges, init, b);
      var last := baseOd[|baseOd| - 1];
      assert InBase(last.0);
      assert 0 <= SrcOffset(b) + last.0.0 < TotalStations;
      assert 0 <= DstOffset(b) + last.0.1 < TotalStations;
    }
  }

  /** A shifted entry stays in the 50 stations, is not a self-pair, and can
      be traced back: its origin block is `b`, its destination block is the
      shifted one, and the places and count are those of the base entry. */
  ghost predicate TracesBack(baseOd: Od, e: ((int, int), int))
  {
    var b := e.0.0 / BlockSize;
    && 0 <= e.0.0 < TotalStations && 0 <= e.0.1 < TotalStations
    && e.0.0 != e.0.1
    && e.0.1 / BlockSize == (b + DemandShift[b]) % NBlocks
    && ((e.0.0 % BlockSize, e.0.1 % BlockSize), e.1) in baseOd
  }

  /** Each shifted copy of a valid base entry traces back to it. */
  lemma ShiftedTracesBack(baseOd: Od, p: int, b: int)
    requires BaseOdOk(baseOd) && 0 <= p < |baseOd| && 0 <= b < NBlocks
    ensures TracesBack(baseOd, ShiftedEntry(baseOd[p], b))
    ensures ShiftedEntry(baseOd[p], b).0.0 / BlockSize == b
  {
    var e := baseOd[p];
    var o, d := e.0.0, e.0.1;
    var db := (b + DemandShift[b]) % NBlocks;
    assert 0 <= db < NBlocks;
    var x, y := b * BlockSize + o, db * BlockSize + d;
    assert x / BlockSize == b && x % BlockSize == o;
    assert y / BlockSize == db && y % BlockSize == d;
    assert ShiftedEntry(e, b) == ((x, y), e.1);
    assert e in baseOd;
  }

  /** Block `b`'s copy of the base demand: every entry shifted, in order. */
  function Shifted(baseOd: Od, b: int): Od
    requires 0 <= b < NBlocks
  {
    seq(|baseOd|, p requires 0 <= p < |baseOd| => ShiftedEntry(baseOd[p], b))
  }

  /** The copies for the first `nb` blocks, one after the other. */
  function ShiftedUpTo(baseOd: Od, nb: nat): Od
    requires nb <= NBlocks
  {
    if nb == 0 then [] else ShiftedUpTo(baseOd, nb - 1) + Shifted(baseOd, nb - 1)
  }

  /** A block's copy has distinct keys, all with origins in block `b`. */
  lemma ShiftedKeys(baseOd: Od, b: int)
    requires 0 <= b < NBlocks && BaseOdOk(baseOd)
    ensures DistinctKeys(Shifted(baseOd, b))
    ensures forall p :: 0 <= p < |baseOd| ==> Shifted(baseOd, b)[p].0.0 / BlockSize == b
  {
    forall p | 0 <= p < |baseOd| ensures Shifted(baseOd, b)[p].0.0 / BlockSize == b {
      ShiftedTracesBack(baseOd, p, b);
    }
  }

  /** With a valid base demand and all 50 stations present, nothing is
      skipped and no key is assigned twice: lines 85-101 for the first `nb`
      blocks produce exactly the copies of the base demand, block after
      block. */
  lemma {:induction false} OdUpToShifted(edges: Edges, baseOd: Od, nb: nat)
    requires nb <= NBlocks && BaseOdOk(baseOd) && AllStations(edges)
    ensures OdUpTo(edges, baseOd, nb) == ShiftedUpTo(baseOd, nb)
    ensures DistinctKeys(ShiftedUpTo(baseOd, nb))
    ensures forall q :: 0 <= q < |ShiftedUpTo(baseOd, nb)| ==> ShiftedUpTo(baseOd, nb)[q].0.0 / BlockSize < nb
  {
    if nb > 0 {
      OdUpToShifted(edges, baseOd, nb - 1);
      var prev, block := ShiftedUpTo(baseOd, nb - 1), Shifted(baseOd, nb - 1);
      BlockOdFull(edges, baseOd, nb - 1);
      assert BlockOd(edges, baseOd, SrcOffset(nb - 1), DstOffset(nb - 1)) == block;
      ShiftedKeys(baseOd, nb - 1);
      AppendBlock(prev, block, nb - 1);
      PutAllFresh(prev, block);
      forall q | 0 <= q < |prev + block| ensures (prev + block)[q].0.0 / BlockSize < nb {
        if q >= |prev| {
          assert (prev + block)[q] == block[q - |prev|];
        } else {
          assert (prev + block)[q] == prev[q];
        }
      }
    }
  }

  /** The copies hold `|baseOd|` entries per block. */
  lemma {:induction false} ShiftedUpToLength(baseOd: Od, nb: nat)
    requires nb <= NBlocks
    ensures |ShiftedUpTo(baseOd, nb)| == nb * |baseOd|
  {
    if nb > 0 {
      ShiftedUpToLength(baseOd, nb - 1);
      MulSucc(nb, |baseOd|);
    }
  }

  /** One more block adds one more `l`. */
  lemma MulSucc(a: int, l: int)
    ensures a * l == (a - 1) * l + l
  {
  }

  /** Every copied entry traces back to the base entry it copies. */
  lemma {:induction false} ShiftedUpToTraces(baseOd: Od, nb: nat)
    requires nb <= NBlocks && BaseOdOk(baseOd)
    ensures forall q :: 0 <= q < |ShiftedUpTo(baseOd, nb)| ==> TracesBack(baseOd, ShiftedUpTo(baseOd, nb)[q])
  {
    if nb > 0 {
      ShiftedUpToTraces(baseOd, nb - 1);
      var prev, block := ShiftedUpTo(baseOd, nb - 1), Shifted(baseOd, nb - 1);
      forall q | 0 <= q < |prev + block| ensures TracesBack(baseOd, (prev + block)[q]) {
        if q >= |prev| {
          assert (prev + block)[q] == block[q - |prev|];
          ShiftedTracesBack(baseOd, q - |prev|, nb - 1);
        } else {
          assert (prev + block)[q] == prev[q];
        }
      }
    }
  }

  /** Every block receives the copy of every base entry. */
  lemma {:induction false} ShiftedUpToComplete(baseOd: Od, nb: nat)
    requires nb <= NBlocks
    ensures forall b, p :: 0 <= b < nb && 0 <= p < |baseOd| ==> ShiftedEntry(baseOd[p], b) in ShiftedUpTo(baseOd, nb)
  {
    if nb > 0 {
      ShiftedUpToComplete(baseOd, nb - 1);
      var prev, block := ShiftedUpTo(baseOd, nb - 1), Shifted(baseOd, nb - 1);
      forall b, p | 0 <= b < nb && 0 <= p < |baseOd| ensures ShiftedEntry(baseOd[p], b) in prev + block {
        if b == nb - 1 {
          assert (prev + block)[|prev| + p] == block[p];
        } else {
          assert ShiftedEntry(baseOd[p], b) in prev;
        }
      }
    }
  }

  /** The entries of a later block never reuse a key of the earlier blocks,
      whose origins lie in earlier blocks. */
  lemma AppendBlock(prev: Od, block: Od, b: int)
    requires DistinctKeys(prev) && DistinctKeys(block)
    requires forall q :: 0 <= q < |prev| ==> prev[q].0.0 / BlockSize < b
    requires forall p :: 0 <= p < |block| ==> block[p].0.0 / BlockSize == b
    ensures forall p :: 0 <= p < |block| ==> block[p].0 !in Keys(prev)
    ensures DistinctKeys(prev + block)
  {
    forall p | 0 <= p < |block| ensures block[p].0 !in Keys(prev) {
      assert forall q :: 0 <= q < |prev| ==> prev[q].0 != block[p].0;
    }
    var r := prev + block;
    forall i, j | 0 <= i < j < |r| ensures r[i].0 != r[j].0 {
      if j >= |prev| && i < |prev| {
        assert r[i] == prev[i] && r[j] == block[j - |prev|];
      } else if i >= |prev| {
        assert r[i] == block[i - |prev|] && r[j] == block[j - |prev|];
      }
    }
  }

  // ---------------------------------------------------------------------
  // The whole script

  /** `edges` at the end of the script. */
  function Network50Edges(picks: seq<(int, int)>): Edges
    requires LinkDraws(picks)
  {
    AddLinks(BlocksUpTo(BaseEdges, NBlocks), Links(picks))
  }

  /** `od_data` at the end of the script. */
  function Network50Od(picks: seq<(int, int)>): Od
    requires LinkDraws(picks)
  {
    OdUpTo(Network50Edges(picks), BaseOd(), NBlocks)
  }

  /** Lines 6-101, with the draws of lines 66-67 given as `picks`. */
  method BuildNetwork50(picks: seq<(int, int)>) returns (edges: Edges, inter: seq<(int, int)>, od: Od)
    requires LinkDraws(picks)
    ensures inter == Links(picks)
    ensures edges == Network50Edges(picks)
    ensures od == Network50Od(picks)
  {
    var baseOd := WithoutSelfPairs(PutAll([], BaseOdItems));
    edges := BuildBlocks(BaseEdges);
    edges, inter := LinkBlocks(edges, picks);
    od := BuildOd(edges, baseOd);
  }

  /** Links between stations of the 50 that join two different stations. */
  predicate LinksInRange(links: seq<(int, int)>)
  {
    forall q :: 0 <= q < |links| ==>
      0 <= links[q].0 < TotalStations && 0 <= links[q].1 < TotalStations && links[q].0 != links[q].1
  }

  /** The block copy of a valid base graph followed by such links has
      exactly the stations `0..49`, lists every edge both ways and joins
      the ends of every link. */
  lemma LinkedBlocksShape(base: Edges, links: seq<(int, int)>)
    requires BaseOk(base) && LinksInRange(links)
    ensures forall i :: i in AddLinks(BlocksUpTo(base, NBlocks), links) <==> 0 <= i < TotalStations
    ensures GenerateNetwork.UndirectedDict(AddLinks(BlocksUpTo(base, NBlocks), links))
    ensures forall q :: 0 <= q < |links| ==>
      var l := links[q];
      l.1 in Connectivity.Nbrs(AddLinks(BlocksUpTo(base, NBlocks), links), l.0)
  {
    var blocks := BlocksUpTo(base, NBlocks);
    BlockRowsShifted(base);
    BlocksUndirected(base);
    LinksKeepStations(blocks, links);
    LinksUndirected(blocks, links);
    AddLinksSpec(blocks, links);
    forall q | 0 <= q < |links|
      ensures links[q].1 in Connectivity.Nbrs(AddLinks(blocks, links), links[q].0)
    {
      assert links[q] in links;
    }
  }

  /** The network has exactly the stations `0..49`; the guards of lines
      73-76 add none. */
  lemma Network50Stations(picks: seq<(int, int)>)
    requires LinkDraws(picks)
    ensures forall i :: i in Network50Edges(picks) <==> 0 <= i < TotalStations
    ensures |Network50Edges(picks)| == TotalStations
  {
    BaseEdgesOk();
    LinksShape(picks);
    LinkedBlocksShape(BaseEdges, Links(picks));
    CountKeys(Network50Edges(picks), TotalStations);
  }

  /** A dict whose keys are `0..n-1` has `n` keys. */
  lemma CountKeys(g: Edges, n: nat)
    requires forall i :: i in g <==> 0 <= i < n
    ensures |g| == n
  {
    var r := GenerateNetwork.Stations(n);
    GenerateNetwork.StationsSize(n);
    assert forall i :: i in r ==> i in g;
    assert forall i :: i in g ==> i in r;
    assert g.Keys == r;
  }

  /** Every edge of the network is listed in both directions, no station is
      its own neighbour, and every inter-block link joins its two ends both
      ways. */
  lemma Network50Undirected(picks: seq<(int, int)>)
    requires LinkDraws(picks)
    ensures GenerateNetwork.UndirectedDict(Network50Edges(picks))
    ensures forall q :: 0 <= q < |Links(picks)| ==>
      var l := Links(picks)[q];
      l.0 in Network50Edges(picks) && l.1 in Connectivity.Nbrs(Network50Edges(picks), l.0) &&
      l.0 in Connectivity.Nbrs(Network50Edges(picks), l.1)
  {
    BaseEdgesOk();
    LinksShape(picks);
    LinkedBlocksShape(BaseEdges, Links(picks));
  }

  /** The demand of the network: the base demand copied into each of the 5
      blocks in turn, no key twice, every entry between two stations of the
      network and traceable to the base entry it copies; and every base
      entry is copied into every block. */
  lemma Network50Demand(picks: seq<(int, int)>)
    requires LinkDraws(picks)
    ensures Network50Od(picks) == ShiftedUpTo(BaseOd(), NBlocks)
    ensures |Network50Od(picks)| == NBlocks * |BaseOd()|
    ensures DistinctKeys(Network50Od(picks))
    ensures forall q :: 0 <= q < |Network50Od(picks)| ==>
      var e := Network50Od(picks)[q];
      TracesBack(BaseOd(), e) && e.0.0 in Network50Edges(picks) && e.0.1 in Network50Edges(picks)
    ensures forall b, p :: 0 <= b < NBlocks && 0 <= p < |BaseOd()| ==> ShiftedEntry(BaseOd()[p], b) in Network50Od(picks)
  {
    Network50Stations(picks);
    BaseOdIsOk();
    OdUpToShifted(Network50Edges(picks), BaseOd(), NBlocks);
    ShiftedUpToLength(BaseOd(), NBlocks);
    ShiftedUpToTraces(BaseOd(), NBlocks);
    ShiftedUpToComplete(BaseOd(), NBlocks);
  }
}
