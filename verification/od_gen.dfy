/** The random origin-destination table of generate_network.py:66-90. Each
    station sends wagons to between 1 and `max_dest_per_station` other
    stations of the network, in lots of 5, 10, 15 or 20. The draws of
    `random.randint` and `random.sample` are parameters, one `OriginDraws`
    per origin, each required to lie where the call could have put it. */
module GenerateOd {
  import opened PyDict
  import opened Reindex
  import opened GenerateNetwork

  type OdDict = Dict<(int, int), int>

  /** The draws made for one origin: `k` of line 82, the positions `picks` of
      `random.sample` on line 83, and one `randint` result per destination on
      line 86. */
  datatype OriginDraws = OriginDraws(k: int, picks: seq<int>, units: seq<int>)

  /** The largest lot the cap of line 88 lets through. */
  const MaxLot := 20

  function Max(a: int, b: int): int
  {
    if a >= b then a else b
  }

  /** The upper bound of the `randint` of line 86. Python's `//` by a positive
      divisor rounds down, as Dafny's `/` does. */
  function UnitBound(avg: int, k: int): int
    requires k >= 1
  {
    Max(1, avg / 5 / k + 1)
  }

  /** Lines 86-88: a lot of `5 * unit` wagons, capped at 20. */
  function Volume(unit: int): int
  {
    Min(5 * unit, MaxLot)
  }

  /** The candidates among stations `0..m-1`. */
  function CandidatesUpTo(edges: map<int, seq<int>>, o: int, m: int): seq<int>
  {
    if m <= 0 then []
    else CandidatesUpTo(edges, o, m - 1) + (if m - 1 != o && m - 1 in edges then [m - 1] else [])
  }

  /** `candidates`, line 78. */
  function Candidates(edges: map<int, seq<int>>, o: int): seq<int>
  {
    CandidatesUpTo(edges, o, |edges|)
  }

  /** The candidates are, in ascending order, the keys of `edges` below
      `len(edges)` other than the origin. */
  lemma {:induction false} CandidatesUpToSpec(edges: map<int, seq<int>>, o: int, m: int)
    ensures forall d :: d in CandidatesUpTo(edges, o, m) <==> 0 <= d < m && d != o && d in edges
    ensures Increasing(CandidatesUpTo(edges, o, m))
  {
    if m > 0 {
      CandidatesUpToSpec(edges, o, m - 1);
      var prev := CandidatesUpTo(edges, o, m - 1);
      var c := CandidatesUpTo(edges, o, m);
      forall a, b | 0 <= a < b < |c| ensures c[a] < c[b] {
        if b < |prev| {
          assert c[a] == prev[a] && c[b] == prev[b];
        } else {
          assert c[a] == prev[a] && prev[a] in prev;
        }
      }
    }
  }

  /** The draws for one origin with `m` candidates could have been made. */
  predicate OriginDrawsOk(dr: OriginDraws, m: int, maxDest: int, avg: int)
  {
    1 <= dr.k <= Min(maxDest, m)
    && SampleDraws(dr.picks, m, dr.k)
    && |dr.units| == dr.k
    && forall q :: 0 <= q < dr.k ==> 1 <= dr.units[q] <= UnitBound(avg, dr.k)
  }

  /** The draws of one run: one entry per origin, well placed for every
      origin that has candidates. */
  predicate OdDraws(edges: map<int, seq<int>>, maxDest: int, avg: int, draws: seq<OriginDraws>)
  {
    |draws| >= |edges|
    && forall o :: 0 <= o < |edges| && Candidates(edges, o) != [] && maxDest >= 1 ==>
         OriginDrawsOk(draws[o], |Candidates(edges, o)|, maxDest, avg)
  }

  /** The entries of line 89 for one origin, in the order of the sample. */
  function OriginEntries(edges: map<int, seq<int>>, o: int, dr: OriginDraws): (r: OdDict)
    requires forall q :: 0 <= q < |dr.picks| ==> 0 <= dr.picks[q] < |Candidates(edges, o)|
    requires |dr.units| >= |dr.picks|
    ensures |r| == |dr.picks|
  {
    var dests := Sampled(Candidates(edges, o), dr.picks);
    seq(|dests|, q requires 0 <= q < |dests| => ((o, dests[q]), Volume(dr.units[q])))
  }

  /** The table after origins `0..o-1`, when no `randint` failed. */
  function EntriesUpTo(edges: map<int, seq<int>>, maxDest: int, avg: int, draws: seq<OriginDraws>, o: int): OdDict
    requires OdDraws(edges, maxDest, avg, draws)
    requires maxDest >= 1
    requires 0 <= o <= |edges|
  {
    if o == 0 then []
    else if Candidates(edges, o - 1) == [] then EntriesUpTo(edges, maxDest, avg, draws, o - 1)
    else EntriesUpTo(edges, maxDest, avg, draws, o - 1) + OriginEntries(edges, o - 1, draws[o - 1])
  }

  /** Line 82 raises `ValueError` for the first origin with a candidate when
      `max_dest_per_station < 1`. */
  predicate RandintFails(edges: map<int, seq<int>>, maxDest: int)
  {
    maxDest < 1 && exists o :: 0 <= o < |edges| && Candidates(edges, o) != []
  }

  /** What `generate_od_data` returns for these draws. */
  function OdData(edges: map<int, seq<int>>, maxDest: int, avg: int, draws: seq<OriginDraws>): Result<OdDict>
    requires OdDraws(edges, maxDest, avg, draws)
  {
    if maxDest < 1 then
      (if RandintFails(edges, maxDest) then Err("empty range for randrange()") else Ok([]))
    else Ok(EntriesUpTo(edges, maxDest, avg, draws, |edges|))
  }

  /** Distinct positions of a list without repeats pick distinct elements. */
  lemma SampledDistinct(population: seq<int>, picks: seq<int>)
    requires NoDuplicates(population)
    requires SampleDraws(picks, |population|, |picks|)
    ensures NoDuplicates(Sampled(population, picks))
  {
  }

  /** Every key of `od` has an origin below `o`. */
  predicate OriginsBelow(od: OdDict, o: int)
  {
    forall p :: 0 <= p < |od| ==> od[p].0.0 < o
  }

  /** The entries for one origin, put one by one as on lines 84-89. */
  method PutOrigin(od: OdDict, edges: map<int, seq<int>>, o: int, dr: OriginDraws) returns (r: OdDict)
    requires Candidates(edges, o) != []
    requires SampleDraws(dr.picks, |Candidates(edges, o)|, dr.k) && |dr.units| == dr.k
    requires OriginsBelow(od, o)
    ensures r == od + OriginEntries(edges, o, dr)
  {
    var candidates := Candidates(edges, o);
    CandidatesUpToSpec(edges, o, |edges|);
    var dests := Sampled(candidates, dr.picks);
    SampledDistinct(candidates, dr.picks);
    ghost var entries := OriginEntries(edges, o, dr);
    r := od;
    var q := 0;
    while q < |dests|
      invariant 0 <= q <= |dests|
      invariant r == od + entries[..q]
    {
      var d := dests[q];
      var cnt := 5 * dr.units[q];
      cnt := Min(cnt, MaxLot);
      assert (o, d) !in Keys(r) by {
        forall p | 0 <= p < |r| ensures r[p].0 != (o, d) {
          if p >= |od| {
            assert r[p] == entries[p - |od|];
          }
        }
      }
      PutNew(r, (o, d), cnt);
      assert entries[..q + 1] == entries[..q] + [((o, d), cnt)];
      r := Put(r, (o, d), cnt);
      q := q + 1;
    }
    assert entries[..q] == entries;
  }

  /** Lines 72-90. */
  method GenerateOdData(edges: map<int, seq<int>>, avg: int, maxDest: int, draws: seq<OriginDraws>)
    returns (r: Result<OdDict>)
    requires OdDraws(edges, maxDest, avg, draws)
    ensures r == OdData(edges, maxDest, avg, draws)
  {
    var n := |edges|;
    var od: OdDict := [];
    var o := 0;
    while o < n
      invariant 0 <= o <= n
      invariant maxDest < 1 ==> od == [] && forall o' :: 0 <= o' < o ==> Candidates(edges, o') == []
      invariant maxDest >= 1 ==> od == EntriesUpTo(edges, maxDest, avg, draws, o)
      invariant OriginsBelow(od, o)
    {
      var candidates := Candidates(edges, o);
      if candidates != [] {
        if Min(maxDest, |candidates|) < 1 {
          assert RandintFails(edges, maxDest);
          return Err("empty range for randrange()");
        }
        OriginsBelowAppend(od, edges, o, draws[o]);
        od := PutOrigin(od, edges, o, draws[o]);
      }
      if maxDest >= 1 {
        EntriesStep(edges, maxDest, avg, draws, o);
      }
      o := o + 1;
    }
    return Ok(od);
  }

  /** One more origin extends the table by that origin's entries, if any. */
  lemma EntriesStep(edges: map<int, seq<int>>, maxDest: int, avg: int, draws: seq<OriginDraws>, o: int)
    requires OdDraws(edges, maxDest, avg, draws) && maxDest >= 1
    requires 0 <= o < |edges|
    ensures Candidates(edges, o) == [] ==> EntriesUpTo(edges, maxDest, avg, draws, o + 1) == EntriesUpTo(edges, maxDest, avg, draws, o)
    ensures Candidates(edges, o) != [] ==>
      EntriesUpTo(edges, maxDest, avg, draws, o + 1) == EntriesUpTo(edges, maxDest, avg, draws, o) + OriginEntries(edges, o, draws[o])
  {
  }

  /** Appending the entries of origin `o` keeps every origin below `o + 1`. */
  lemma OriginsBelowAppend(od: OdDict, edges: map<int, seq<int>>, o: int, dr: OriginDraws)
    requires forall q :: 0 <= q < |dr.picks| ==> 0 <= dr.picks[q] < |Candidates(edges, o)|
    requires |dr.units| >= |dr.picks|
    requires OriginsBelow(od, o)
    ensures OriginsBelow(od + OriginEntries(edges, o, dr), o + 1)
  {
    var e := OriginEntries(edges, o, dr);
    forall p | 0 <= p < |od + e| ensures (od + e)[p].0.0 < o + 1 {
      if p >= |od| {
        assert (od + e)[p] == e[p - |od|];
      }
    }
  }

  /** The destinations the table lists for origin `o`, in table order. */
  function DestsOf(od: OdDict, o: int): seq<int>
  {
    if od == [] then []
    else DestsOf(od[..|od| - 1], o) + (if od[|od| - 1].0.0 == o then [od[|od| - 1].0.1] else [])
  }

  lemma {:induction false} DestsOfAppend(a: OdDict, b: OdDict, o: int)
    ensures DestsOf(a + b, o) == DestsOf(a, o) + DestsOf(b, o)
  {
    if b != [] {
      var init := b[..|b| - 1];
      assert (a + b)[..|a + b| - 1] == a + init;
      DestsOfAppend(a, init, o);
    } else {
      assert a + b == a;
    }
  }

  /** The entries of one origin list its sampled destinations, and nothing
      for any other origin. */
  lemma {:induction false} DestsOfOrigin(edges: map<int, seq<int>>, o: int, dr: OriginDraws, o': int, q: int)
    requires forall q :: 0 <= q < |dr.picks| ==> 0 <= dr.picks[q] < |Candidates(edges, o)|
    requires |dr.units| >= |dr.picks|
    requires 0 <= q <= |dr.picks|
    ensures DestsOf(OriginEntries(edges, o, dr)[..q], o') ==
      (if o == o' then Sampled(Candidates(edges, o), dr.picks)[..q] else [])
  {
    if q > 0 {
      DestsOfOrigin(edges, o, dr, o', q - 1);
      DestsOfOriginStep(edges, o, dr, o', q);
    }
  }

  /** The step of `DestsOfOrigin` from the first `q - 1` entries to `q`. */
  lemma DestsOfOriginStep(edges: map<int, seq<int>>, o: int, dr: OriginDraws, o': int, q: int)
    requires forall q :: 0 <= q < |dr.picks| ==> 0 <= dr.picks[q] < |Candidates(edges, o)|
    requires |dr.units| >= |dr.picks|
    requires 0 < q <= |dr.picks|
    requires DestsOf(OriginEntries(edges, o, dr)[..q - 1], o') ==
      (if o == o' then Sampled(Candidates(edges, o), dr.picks)[..q - 1] else [])
    ensures DestsOf(OriginEntries(edges, o, dr)[..q], o') ==
      (if o == o' then Sampled(Candidates(edges, o), dr.picks)[..q] else [])
  {
    var e := OriginEntries(edges, o, dr);
    var dests := Sampled(Candidates(edges, o), dr.picks);
    assert e[..q] == e[..q - 1] + [e[q - 1]];
    assert e[q - 1].0 == (o, dests[q - 1]);
    DestsOfSnoc(e[..q - 1], e[q - 1], o');
    assert dests[..q] == dests[..q - 1] + [dests[q - 1]];
  }

  /** One more entry adds its destination when it belongs to origin `o`. */
  lemma DestsOfSnoc(od: OdDict, entry: ((int, int), int), o: int)
    ensures DestsOf(od + [entry], o) == DestsOf(od, o) + (if entry.0.0 == o then [entry.0.1] else [])
  {
    assert (od + [entry])[..|od|] == od;
  }

  /** All the entries of one origin list its sampled destinations. */
  lemma OriginDests(edges: map<int, seq<int>>, o: int, dr: OriginDraws, o': int)
    requires forall q :: 0 <= q < |dr.picks| ==> 0 <= dr.picks[q] < |Candidates(edges, o)|
    requires |dr.units| >= |dr.picks|
    ensures DestsOf(OriginEntries(edges, o, dr), o') ==
      (if o == o' then Sampled(Candidates(edges, o), dr.picks) else [])
  {
    var e := OriginEntries(edges, o, dr);
    DestsOfOrigin(edges, o, dr, o', |e|);
    assert e[..|e|] == e;
    var dests := Sampled(Candidates(edges, o), dr.picks);
    assert dests[..|e|] == dests;
  }

  /** A table entry as line 89 writes it: an origin and a different
      destination among the stations, and a lot of 5, 10, 15 or 20 wagons. */
  predicate EntryOk(edges: map<int, seq<int>>, e: ((int, int), int))
  {
    var (o, d) := e.0;
    0 <= o < |edges| && 0 <= d < |edges| && d != o && d in edges
    && e.1 % 5 == 0 && 5 <= e.1 <= MaxLot
  }

  /** What origin `o` sends to: the sampled candidates, or nothing when it has none. */
  function SentTo(edges: map<int, seq<int>>, maxDest: int, avg: int, draws: seq<OriginDraws>, o: int): seq<int>
    requires OdDraws(edges, maxDest, avg, draws)
    requires maxDest >= 1 && 0 <= o < |edges|
  {
    if Candidates(edges, o) == [] then [] else Sampled(Candidates(edges, o), draws[o].picks)
  }

  /** The entries of origin `o` are well formed and keyed apart. */
  lemma OriginEntriesOk(edges: map<int, seq<int>>, maxDest: int, avg: int, draws: seq<OriginDraws>, o: int)
    requires OdDraws(edges, maxDest, avg, draws)
    requires maxDest >= 1 && 0 <= o < |edges| && Candidates(edges, o) != []
    ensures forall p :: 0 <= p < |draws[o].picks| ==>
      EntryOk(edges, OriginEntries(edges, o, draws[o])[p]) && OriginEntries(edges, o, draws[o])[p].0.0 == o
    ensures DistinctKeys(OriginEntries(edges, o, draws[o]))
  {
    var cand := Candidates(edges, o);
    var dr := draws[o];
    CandidatesUpToSpec(edges, o, |edges|);
    SampledDistinct(cand, dr.picks);
    var e := OriginEntries(edges, o, dr);
    forall p | 0 <= p < |dr.picks| ensures EntryOk(edges, e[p]) && e[p].0.0 == o {
      assert cand[dr.picks[p]] in cand;
      var u := dr.units[p];
      assert 1 <= u;
    }
  }

  /** After origins `0..o-1`: every entry is well formed, no key repeats,
      and each of those origins lists exactly the destinations it sampled. */
  lemma EntriesShape(edges: map<int, seq<int>>, maxDest: int, avg: int, draws: seq<OriginDraws>, o: int)
    requires OdDraws(edges, maxDest, avg, draws)
    requires maxDest >= 1 && 0 <= o <= |edges|
    ensures OriginsBelow(EntriesUpTo(edges, maxDest, avg, draws, o), o)
    ensures DistinctKeys(EntriesUpTo(edges, maxDest, avg, draws, o))
    ensures forall p :: 0 <= p < |EntriesUpTo(edges, maxDest, avg, draws, o)| ==>
      EntryOk(edges, EntriesUpTo(edges, maxDest, avg, draws, o)[p])
    ensures forall o' :: 0 <= o' < |edges| ==>
      DestsOf(EntriesUpTo(edges, maxDest, avg, draws, o), o') ==
        (if o' < o then SentTo(edges, maxDest, avg, draws, o') else [])
  {
    EntriesRows(edges, maxDest, avg, draws, o);
    EntriesKeys(edges, maxDest, avg, draws, o);
    forall o' | 0 <= o' < |edges|
      ensures DestsOf(EntriesUpTo(edges, maxDest, avg, draws, o), o') ==
        (if o' < o then SentTo(edges, maxDest, avg, draws, o') else [])
    {
      EntriesDests(edges, maxDest, avg, draws, o, o');
    }
  }

  /** Every entry after origins `0..o-1` is well formed and has an origin below `o`. */
  lemma {:induction false} EntriesRows(edges: map<int, seq<int>>, maxDest: int, avg: int, draws: seq<OriginDraws>, o: int)
    requires OdDraws(edges, maxDest, avg, draws)
    requires maxDest >= 1 && 0 <= o <= |edges|
    ensures OriginsBelow(EntriesUpTo(edges, maxDest, avg, draws, o), o)
    ensures forall p :: 0 <= p < |EntriesUpTo(edges, maxDest, avg, draws, o)| ==>
      EntryOk(edges, EntriesUpTo(edges, maxDest, avg, draws, o)[p])
  {
    if o > 0 {
      EntriesRows(edges, maxDest, avg, draws, o - 1);
      var prev := EntriesUpTo(edges, maxDest, avg, draws, o - 1);
      if Candidates(edges, o - 1) != [] {
        var e := OriginEntries(edges, o - 1, draws[o - 1]);
        OriginEntriesOk(edges, maxDest, avg, draws, o - 1);
        var od := prev + e;
        assert EntriesUpTo(edges, maxDest, avg, draws, o) == od;
        forall p | 0 <= p < |od| ensures od[p].0.0 < o && EntryOk(edges, od[p]) {
          if p >= |prev| {
            assert od[p] == e[p - |prev|];
          } else {
            assert od[p] == prev[p];
          }
        }
      } else {
        assert EntriesUpTo(edges, maxDest, avg, draws, o) == prev;
      }
    }
  }

  /** No key repeats after origins `0..o-1`. */
  lemma {:induction false} EntriesKeys(edges: map<int, seq<int>>, maxDest: int, avg: int, draws: seq<OriginDraws>, o: int)
    requires OdDraws(edges, maxDest, avg, draws)
    requires maxDest >= 1 && 0 <= o <= |edges|
    ensures DistinctKeys(EntriesUpTo(edges, maxDest, avg, draws, o))
  {
    if o > 0 {
      EntriesKeys(edges, maxDest, avg, draws, o - 1);
      var prev := EntriesUpTo(edges, maxDest, avg, draws, o - 1);
      if Candidates(edges, o - 1) != [] {
        EntriesRows(edges, maxDest, avg, draws, o - 1);
        OriginEntriesOk(edges, maxDest, avg, draws, o - 1);
        var e := OriginEntries(edges, o - 1, draws[o - 1]);
        assert EntriesUpTo(edges, maxDest, avg, draws, o) == prev + e;
        AppendLaterOrigin(prev, e, o - 1);
      }
    }
  }

  /** Entries of a new origin `o` after entries of origins below it keep keys distinct. */
  lemma AppendLaterOrigin(prev: OdDict, e: OdDict, o: int)
    requires DistinctKeys(prev) && OriginsBelow(prev, o)
    requires DistinctKeys(e) && forall p :: 0 <= p < |e| ==> e[p].0.0 == o
    ensures DistinctKeys(prev + e)
  {
    var od := prev + e;
    forall a, b | 0 <= a < b < |od| ensures od[a].0 != od[b].0 {
      if b >= |prev| {
        assert od[b] == e[b - |prev|];
        if a >= |prev| {
          assert od[a] == e[a - |prev|];
        } else {
          assert od[a] == prev[a];
        }
      } else {
        assert od[a] == prev[a] && od[b] == prev[b];
      }
    }
  }

  /** Origin `o'` lists what it sampled once origins `0..o-1` are done, and nothing before. */
  lemma {:induction false} EntriesDests(edges: map<int, seq<int>>, maxDest: int, avg: int, draws: seq<OriginDraws>, o: int, o': int)
    requires OdDraws(edges, maxDest, avg, draws)
    requires maxDest >= 1 && 0 <= o <= |edges| && 0 <= o' < |edges|
    ensures DestsOf(EntriesUpTo(edges, maxDest, avg, draws, o), o') ==
      (if o' < o then SentTo(edges, maxDest, avg, draws, o') else [])
  {
    if o > 0 {
      EntriesDests(edges, maxDest, avg, draws, o - 1, o');
      EntriesDestsStep(edges, maxDest, avg, draws, o, o');
    }
  }

  /** The step of `EntriesDests` from origins `0..o-2` to `0..o-1`. */
  lemma EntriesDestsStep(edges: map<int, seq<int>>, maxDest: int, avg: int, draws: seq<OriginDraws>, o: int, o': int)
    requires OdDraws(edges, maxDest, avg, draws)
    requires maxDest >= 1 && 0 < o <= |edges| && 0 <= o' < |edges|
    requires DestsOf(EntriesUpTo(edges, maxDest, avg, draws, o - 1), o') ==
      (if o' < o - 1 then SentTo(edges, maxDest, avg, draws, o') else [])
    ensures DestsOf(EntriesUpTo(edges, maxDest, avg, draws, o), o') ==
      (if o' < o then SentTo(edges, maxDest, avg, draws, o') else [])
  {
    if o' == o - 1 {
      EntriesDestsOwn(edges, maxDest, avg, draws, o);
    } else {
      EntriesDestsOther(edges, maxDest, avg, draws, o, o');
    }
  }

  /** Once origin `o - 1` is done, the table lists what it sampled. */
  lemma EntriesDestsOwn(edges: map<int, seq<int>>, maxDest: int, avg: int, draws: seq<OriginDraws>, o: int)
    requires OdDraws(edges, maxDest, avg, draws)
    requires maxDest >= 1 && 0 < o <= |edges|
    requires DestsOf(EntriesUpTo(edges, maxDest, avg, draws, o - 1), o - 1) == []
    ensures DestsOf(EntriesUpTo(edges, maxDest, avg, draws, o), o - 1) == SentTo(edges, maxDest, avg, draws, o - 1)
  {
    SentToUnfold(edges, maxDest, avg, draws, o - 1);
    if Candidates(edges, o - 1) != [] {
      var prev := EntriesUpTo(edges, maxDest, avg, draws, o - 1);
      var e := OriginEntries(edges, o - 1, draws[o - 1]);
      assert EntriesUpTo(edges, maxDest, avg, draws, o) == prev + e;
      DestsOfAppend(prev, e, o - 1);
      OriginDests(edges, o - 1, draws[o - 1], o - 1);
      var dests := Sampled(Candidates(edges, o - 1), draws[o - 1].picks);
      assert [] + dests == dests;
    }
  }

  /** The entries of origin `o - 1` list nothing for any other origin. */
  lemma EntriesDestsOther(edges: map<int, seq<int>>, maxDest: int, avg: int, draws: seq<OriginDraws>, o: int, o': int)
    requires OdDraws(edges, maxDest, avg, draws)
    requires maxDest >= 1 && 0 < o <= |edges| && o' != o - 1
    ensures DestsOf(EntriesUpTo(edges, maxDest, avg, draws, o), o') == DestsOf(EntriesUpTo(edges, maxDest, avg, draws, o - 1), o')
  {
    if Candidates(edges, o - 1) != [] {
      var prev := EntriesUpTo(edges, maxDest, avg, draws, o - 1);
      var e := OriginEntries(edges, o - 1, draws[o - 1]);
      assert EntriesUpTo(edges, maxDest, avg, draws, o) == prev + e;
      DestsOfAppend(prev, e, o');
      OriginDests(edges, o - 1, draws[o - 1], o');
      assert DestsOf(prev, o') + [] == DestsOf(prev, o');
    }
  }

  lemma SentToUnfold(edges: map<int, seq<int>>, maxDest: int, avg: int, draws: seq<OriginDraws>, o: int)
    requires OdDraws(edges, maxDest, avg, draws)
    requires maxDest >= 1 && 0 <= o < |edges|
    ensures SentTo(edges, maxDest, avg, draws, o) ==
      if Candidates(edges, o) == [] then [] else Sampled(Candidates(edges, o), draws[o].picks)
  {
  }

  /** `generate_od_data` fails exactly when `max_dest_per_station < 1` and
      some station has another station to send to. */
  lemma OdDataFails(edges: map<int, seq<int>>, maxDest: int, avg: int, draws: seq<OriginDraws>)
    requires OdDraws(edges, maxDest, avg, draws)
    ensures OdData(edges, maxDest, avg, draws).Err? <==>
      maxDest < 1 && |edges| >= 2 && exists d :: 0 <= d < |edges| && d in edges
  {
    if |edges| >= 2 && exists d :: 0 <= d < |edges| && d in edges {
      var d :| 0 <= d < |edges| && d in edges;
      var o := if d == 0 then 1 else 0;
      CandidatesUpToSpec(edges, o, |edges|);
      assert d in Candidates(edges, o);
    }
    if RandintFails(edges, maxDest) {
      var o :| 0 <= o < |edges| && Candidates(edges, o) != [];
      var d := Candidates(edges, o)[0];
      CandidatesUpToSpec(edges, o, |edges|);
      assert d in Candidates(edges, o);
    }
  }

  /** An origin sends to distinct candidates, as many as `k` says. */
  lemma SentToShape(edges: map<int, seq<int>>, maxDest: int, avg: int, draws: seq<OriginDraws>, o: int)
    requires OdDraws(edges, maxDest, avg, draws)
    requires maxDest >= 1 && 0 <= o < |edges|
    ensures NoDuplicates(SentTo(edges, maxDest, avg, draws, o))
    ensures forall d :: d in SentTo(edges, maxDest, avg, draws, o) ==> d in Candidates(edges, o)
    ensures Candidates(edges, o) != [] ==>
      1 <= |SentTo(edges, maxDest, avg, draws, o)| <= Min(maxDest, |Candidates(edges, o)|)
  {
    var cand := Candidates(edges, o);
    if cand != [] {
      CandidatesUpToSpec(edges, o, |edges|);
      SampledDistinct(cand, draws[o].picks);
      forall d | d in SentTo(edges, maxDest, avg, draws, o) ensures d in cand {
        var q :| 0 <= q < |draws[o].picks| && Sampled(cand, draws[o].picks)[q] == d;
        assert cand[draws[o].picks[q]] in cand;
      }
    }
  }

  /** When it succeeds, no key repeats, no station sends to itself, every lot
      is 5, 10, 15 or 20 wagons, and an origin with candidates sends to
      between 1 and `min(max_dest_per_station, len(candidates))` distinct
      candidates, while an origin without any sends nothing. */
  lemma OdDataShape(edges: map<int, seq<int>>, maxDest: int, avg: int, draws: seq<OriginDraws>)
    requires OdDraws(edges, maxDest, avg, draws)
    ensures OdData(edges, maxDest, avg, draws).Ok? ==>
      var od := OdData(edges, maxDest, avg, draws).value;
      && DistinctKeys(od)
      && (forall p :: 0 <= p < |od| ==> EntryOk(edges, od[p]))
      && (forall o :: 0 <= o < |edges| ==>
            var ds := DestsOf(od, o);
            && NoDuplicates(ds)
            && (forall d :: d in ds ==> d in Candidates(edges, o))
            && (Candidates(edges, o) == [] ==> ds == [])
            && (Candidates(edges, o) != [] ==> 1 <= |ds| <= Min(maxDest, |Candidates(edges, o)|)))
  {
    if maxDest >= 1 {
      EntriesShape(edges, maxDest, avg, draws, |edges|);
      forall o | 0 <= o < |edges| {
        SentToShape(edges, maxDest, avg, draws, o);
      }
    } else if OdData(edges, maxDest, avg, draws).Ok? {
      assert !RandintFails(edges, maxDest);
    }
  }

  /** On a dict keyed by `0..n-1`, such as `generate_connected_graph` returns,
      every other station is a candidate. */
  lemma {:induction false} FullCandidates(edges: map<int, seq<int>>, o: int, m: int)
    requires forall i :: i in edges <==> 0 <= i < |edges|
    requires 0 <= o < |edges| && 0 <= m <= |edges|
    ensures |CandidatesUpTo(edges, o, m)| == if o < m then m - 1 else m
  {
    if m > 0 {
      FullCandidates(edges, o, m - 1);
    }
  }

  /** The two generators together, as the script of lines 123-131 runs them:
      on a generated network of at least two stations and with
      `max_dest_per_station >= 1`, the table is produced, and every station
      sends to between 1 and `min(max_dest_per_station, n - 1)` distinct other
      stations. */
  lemma NetworkOdShape(n: int, choice: seq<int>, requested: int, picks: seq<int>,
                       maxDest: int, avg: int, draws: seq<OriginDraws>)
    requires n >= 2 && GraphDraws(n, choice, requested, picks)
    requires maxDest >= 1
    requires OdDraws(Generated(n, choice, requested, picks).value, maxDest, avg, draws)
    ensures OdData(Generated(n, choice, requested, picks).value, maxDest, avg, draws).Ok?
    ensures var g := Generated(n, choice, requested, picks).value;
      var od := OdData(g, maxDest, avg, draws).value;
      forall o :: 0 <= o < n ==>
        var ds := DestsOf(od, o);
        && NoDuplicates(ds)
        && (forall d :: d in ds ==> 0 <= d < n && d != o)
        && 1 <= |ds| <= Min(maxDest, n - 1)
  {
    GeneratedShape(n, choice, requested, picks);
    var g := Generated(n, choice, requested, picks).value;
    StationsSize(n);
    assert g.Keys == Stations(n);
    assert |g| == n;
    FullOdShape(g, n, maxDest, avg, draws);
  }

  /** The same for any dict keyed by `0..n-1`. */
  lemma FullOdShape(g: map<int, seq<int>>, n: int, maxDest: int, avg: int, draws: seq<OriginDraws>)
    requires forall i :: i in g <==> 0 <= i < n
    requires n >= 2 && |g| == n && maxDest >= 1
    requires OdDraws(g, maxDest, avg, draws)
    ensures OdData(g, maxDest, avg, draws).Ok?
    ensures var od := OdData(g, maxDest, avg, draws).value;
      forall o :: 0 <= o < n ==>
        var ds := DestsOf(od, o);
        && NoDuplicates(ds)
        && (forall d :: d in ds ==> 0 <= d < n && d != o)
        && 1 <= |ds| <= Min(maxDest, n - 1)
  {
    OdDataShape(g, maxDest, avg, draws);
    var od := OdData(g, maxDest, avg, draws).value;
    forall o | 0 <= o < n
      ensures var ds := DestsOf(od, o);
        && NoDuplicates(ds)
        && (forall d :: d in ds ==> 0 <= d < n && d != o)
        && 1 <= |ds| <= Min(maxDest, n - 1)
    {
      FullCandidates(g, o, n);
      CandidatesUpToSpec(g, o, n);
      var cand, ds := Candidates(g, o), DestsOf(od, o);
      assert |cand| == n - 1 && cand != [];
      assert NoDuplicates(ds) && (forall d :: d in ds ==> d in cand) && 1 <= |ds| <= Min(maxDest, |cand|);
    }
  }
}
