/**
 * What the records of rcontrib hold: each record is the bins of every
 * modifier after one batch of accumulate counted rays, that is the bins it
 * started from plus the contributions of exactly the rays of its batch,
 * and the final record holds the rays of the partial batch.
 */
module RcontribBatches {
  import opened Wrappers
  import opened Rcontrib

  /** Adding colours is associative. */
  lemma AddColorAssoc(a: Color, b: Color, c: Color)
    ensures AddColor(AddColor(a, b), c) == AddColor(a, AddColor(b, c))
  {
  }

  /** The sum over one more ray is the sum so far plus that ray's hits. */
  lemma RaysSumNext(traset: seq<int>, contrib: bool, rays: seq<InputRay>, ray: InputRay, n: string, b: int)
    ensures RaysSum(traset, contrib, rays + [ray], n, b) ==
      AddColor(RaysSum(traset, contrib, rays, n, b), BinSum(traset, contrib, RayHits(ray), n, b))
  {
    assert (rays + [ray])[..|rays|] == rays;
  }

  /**
   * After trace_contrib has seen the hits of a ray, bin b of modifier n
   * holds what it held before plus the contributions of exactly the traced
   * hits of n that select b; hits of other modifiers, untraced hits and
   * out-of-range bin numbers leave it alone.
   */
  lemma {:induction false} AddHitsSums(table: map<string, ModCont>, traset: seq<int>, contrib: bool, hits: seq<Option<Hit>>, n: string, b: int)
    requires WellFormed(table) && AddHits(table, traset, contrib, hits).Ok?
    requires n in table && 0 <= b < |table[n].cbin|
    ensures n in AddHits(table, traset, contrib, hits).value.0
    ensures AddHits(table, traset, contrib, hits).value.0[n].cbin[b] ==
      AddColor(table[n].cbin[b], BinSum(traset, contrib, hits, n, b))
    decreases |hits|
  {
    if hits == [] {
    } else {
      var front := hits[..|hits| - 1];
      var p := AddHits(table, traset, contrib, front).value;
      AddHitsSums(table, traset, contrib, front, n, b);
      var hit := hits[|hits| - 1];
      var q := HitEffect(p.0, traset, contrib, hit).value;
      if hit.Some? && hit.value.omod in traset && hit.value.name == n && BinIndex(hit.value.binValue) == b {
        AddColorAssoc(table[n].cbin[b], BinSum(traset, contrib, front, n, b), ContribOf(contrib, hit.value));
      }
    }
  }

  /**
   * trace_contrib fails on a ray exactly when one of its traced hits names
   * a modifier that has no record.
   */
  lemma {:induction false} AddHitsErrIff(table: map<string, ModCont>, traset: seq<int>, contrib: bool, hits: seq<Option<Hit>>)
    requires WellFormed(table)
    ensures AddHits(table, traset, contrib, hits).Err? <==>
      exists i | 0 <= i < |hits| :: hits[i].Some? && hits[i].value.omod in traset && hits[i].value.name !in table
    decreases |hits|
  {
    if hits != [] {
      var front := hits[..|hits| - 1];
      AddHitsErrIff(table, traset, contrib, front);
      if AddHits(table, traset, contrib, front).Err? {
        var i :| 0 <= i < |front| && front[i].Some? && front[i].value.omod in traset && front[i].value.name !in table;
        assert hits[i] == front[i];
      } else {
        assert forall i | 0 <= i < |front| :: front[i] == hits[i];
      }
    }
  }

  // ---------------------------------------------------------------------
  // Bins and records as sums over the rays

  /** Bin list c0 of modifier n plus the contributions of rays, bin by bin. */
  ghost function BinsPlus(c0: seq<Color>, traset: seq<int>, contrib: bool, rays: seq<InputRay>, n: string): seq<Color>
  {
    seq(|c0|, b requires 0 <= b < |c0| => AddColor(c0[b], RaysSum(traset, contrib, rays, n, b)))
  }

  /**
   * Table t holds the bins of b0 plus the contributions of rays: the same
   * modifiers, the same number of bins, and each bin the sum.
   */
  ghost predicate Holds(b0: map<string, ModCont>, t: map<string, ModCont>, traset: seq<int>, contrib: bool, rays: seq<InputRay>)
  {
    t.Keys == b0.Keys &&
    forall n | n in t :: n in b0 && t[n].cbin == BinsPlus(b0[n].cbin, traset, contrib, rays, n)
  }

  /** The record a batch of rays gives from the bins b0: for each name in order, its bins plus the rays' contributions. */
  ghost function Expected(names: seq<string>, b0: map<string, ModCont>, traset: seq<int>, contrib: bool, rays: seq<InputRay>): seq<seq<Color>>
    requires forall i | 0 <= i < |names| :: names[i] in b0
  {
    seq(|names|, i requires 0 <= i < |names| => BinsPlus(b0[names[i]].cbin, traset, contrib, rays, names[i]))
  }

  /** Record rec holds, for each name in order, the bins of b0 plus the contributions of rays. */
  ghost predicate RecordHolds(names: seq<string>, b0: map<string, ModCont>, rec: seq<seq<Color>>, traset: seq<int>, contrib: bool, rays: seq<InputRay>)
    requires forall i | 0 <= i < |names| :: names[i] in b0
  {
    rec == Expected(names, b0, traset, contrib, rays)
  }

  /** Spelled out bin by bin: one bin list per name, as long as the base's, each bin the base's plus the rays' sum. */
  lemma RecordHoldsBins(names: seq<string>, b0: map<string, ModCont>, rec: seq<seq<Color>>, traset: seq<int>, contrib: bool, rays: seq<InputRay>)
    requires forall i | 0 <= i < |names| :: names[i] in b0
    ensures RecordHolds(names, b0, rec, traset, contrib, rays) <==>
      |rec| == |names| &&
      forall i | 0 <= i < |names| :: |rec[i]| == |b0[names[i]].cbin| &&
        forall b | 0 <= b < |rec[i]| :: rec[i][b] == AddColor(b0[names[i]].cbin[b], RaysSum(traset, contrib, rays, names[i], b))
  {
    var e := Expected(names, b0, traset, contrib, rays);
    if |rec| == |names| &&
       (forall i | 0 <= i < |names| ::
          |rec[i]| == |b0[names[i]].cbin| &&
          forall b | 0 <= b < |rec[i]| :: rec[i][b] == AddColor(b0[names[i]].cbin[b], RaysSum(traset, contrib, rays, names[i], b)))
    {
      forall i | 0 <= i < |names|
        ensures rec[i] == e[i]
      {
        assert |rec[i]| == |e[i]|;
      }
    }
  }

  /** The bins batch j starts from: the bins before the loop for the first batch, cleared bins after a flush. */
  function Base(names: seq<string>, t0: map<string, ModCont>, j: nat): (r: map<string, ModCont>)
    requires Covers(names, t0)
    ensures SameShape(t0, r) && Covers(names, r)
  {
    if j == 0 then t0 else Zeroed(names, t0)
  }

  /** Where batch j of k rays starts: after j whole batches. */
  function Start(k: nat, j: nat): nat
  {
    if j == 0 then 0 else Start(k, j - 1) + k
  }

  /** Batch j of k rays: rays j*k up to (j+1)*k, cut short at the end of the input. */
  function BatchOf(rays: seq<InputRay>, k: nat, j: nat): (r: seq<InputRay>)
    ensures |r| <= k
  {
    var lo := Start(k, j);
    if lo <= |rays| then rays[lo..if lo + k <= |rays| then lo + k else |rays|] else []
  }

  /** Nothing is added before the first ray. */
  lemma HoldsStart(b0: map<string, ModCont>, traset: seq<int>, contrib: bool)
    ensures Holds(b0, b0, traset, contrib, [])
  {
  }

  /** One more ray through trace_contrib keeps a table holding its sums. */
  lemma HoldsNext(b0: map<string, ModCont>, t: map<string, ModCont>, traset: seq<int>, contrib: bool, rays: seq<InputRay>, ray: InputRay)
    requires WellFormed(t) && Holds(b0, t, traset, contrib, rays)
    requires AddHits(t, traset, contrib, RayHits(ray)).Ok?
    ensures Holds(b0, AddHits(t, traset, contrib, RayHits(ray)).value.0, traset, contrib, rays + [ray])
  {
    var u := AddHits(t, traset, contrib, RayHits(ray)).value.0;
    forall n, b | n in u && 0 <= b < |u[n].cbin|
      ensures u[n].cbin[b] == AddColor(b0[n].cbin[b], RaysSum(traset, contrib, rays + [ray], n, b))
    {
      assert n in t && |t[n].cbin| == |u[n].cbin|;
      AddHitsSums(t, traset, contrib, RayHits(ray), n, b);
      RaysSumNext(traset, contrib, rays, ray, n, b);
      AddColorAssoc(b0[n].cbin[b], RaysSum(traset, contrib, rays, n, b), BinSum(traset, contrib, RayHits(ray), n, b));
    }
  }

  /** A snapshot of a table holding sums is a record holding them. */
  lemma SnapshotHolds(names: seq<string>, b0: map<string, ModCont>, t: map<string, ModCont>, traset: seq<int>, contrib: bool, rays: seq<InputRay>)
    requires Holds(b0, t, traset, contrib, rays) && Covers(names, t)
    ensures forall i | 0 <= i < |names| :: names[i] in b0
    ensures RecordHolds(names, b0, Snapshot(names, t), traset, contrib, rays)
  {
    RecordHoldsBins(names, b0, Snapshot(names, t), traset, contrib, rays);
  }

  /** The flush clears a table into the cleared base, with nothing added yet. */
  lemma ZeroedHolds(names: seq<string>, t0: map<string, ModCont>, t: map<string, ModCont>, traset: seq<int>, contrib: bool)
    requires WellFormed(t0) && WellFormed(t) && t.Keys == t0.Keys && forall n | n in t0 :: n in names
    requires forall n | n in t :: |t[n].cbin| == |t0[n].cbin|
    ensures Holds(Zeroed(names, t0), Zeroed(names, t), traset, contrib, [])
  {
  }

  // ---------------------------------------------------------------------
  // Batches of accumulate rays

  /** The whole batches of n rays end where the leftover begins. */
  lemma {:induction false} StartBatches(n: nat, k: nat)
    requires k >= 1
    ensures Start(k, Batches(n, k)) + Leftover(n, k) == n
    decreases n
  {
    if n >= k {
      StartBatches(n - k, k);
    }
  }

  /** A later batch starts at least one batch further on. */
  lemma {:induction false} StartMono(k: nat, i: nat, j: nat)
    requires i < j
    ensures Start(k, i) + k <= Start(k, j)
    decreases j
  {
    if i + 1 < j {
      StartMono(k, i, j - 1);
    }
  }

  /** Batches other than the last are not touched by one more ray. */
  lemma BatchOfFront(rays: seq<InputRay>, ray: InputRay, k: nat, j: nat)
    requires k >= 1 && j < Batches(|rays|, k)
    ensures BatchOf(rays + [ray], k, j) == BatchOf(rays, k, j)
  {
    StartBatches(|rays|, k);
    StartMono(k, j, Batches(|rays|, k));
    var lo := Start(k, j);
    assert (rays + [ray])[lo..lo + k] == rays[lo..lo + k];
  }

  /** One more ray joins the partial batch; when that completes it, the next batch is empty. */
  lemma BatchOfLast(rays: seq<InputRay>, ray: InputRay, k: nat, bs: nat)
    requires k >= 1 && bs == Batches(|rays|, k)
    ensures BatchOf(rays + [ray], k, bs) == BatchOf(rays, k, bs) + [ray]
    ensures Leftover(|rays|, k) + 1 == k ==> BatchOf(rays + [ray], k, bs + 1) == []
  {
    StartBatches(|rays|, k);
    var lo := Start(k, bs);
    assert (rays + [ray])[lo..|rays| + 1] == rays[lo..|rays|] + [ray];
  }

  /**
   * The first count records after the old records r0 are those of the
   * first count batches of rays, record j holding its base bins (from
   * the bins t0 before the loop) plus the contributions of batch j.
   */
  ghost predicate RecordsHold(names: seq<string>, traset: seq<int>, contrib: bool, k: nat, r0: seq<seq<seq<Color>>>, t0: map<string, ModCont>,
                              recs: seq<seq<seq<Color>>>, rays: seq<InputRay>, count: nat)
    requires Covers(names, t0)
  {
    r0 <= recs && |recs| == |r0| + count &&
    forall j | 0 <= j < count :: RecordHolds(names, Base(names, t0, j), recs[|r0| + j], traset, contrib, BatchOf(rays, k, j))
  }

  /**
   * The state after n counted rays from a full countdown of k, with count
   * the number of whole batches among them: one record per whole batch, batch j's record holding its base bins plus the
   * contributions of batch j's rays, and the bins holding the partial batch.
   */
  ghost predicate Batched(names: seq<string>, traset: seq<int>, contrib: bool, k: nat, s: Tally, rays: seq<InputRay>, count: nat, t: Tally)
    requires Covers(names, s.table)
  {
    RecordsHold(names, traset, contrib, k, s.records, s.table, t.records, rays, count) &&
    Holds(Base(names, s.table, count), t.table, traset, contrib, BatchOf(rays, k, count))
  }

  /** Records of completed batches do not change with one more ray. */
  lemma RecordsKept(names: seq<string>, traset: seq<int>, contrib: bool, k: nat, r0: seq<seq<seq<Color>>>, t0: map<string, ModCont>,
                    recs: seq<seq<seq<Color>>>, rays: seq<InputRay>, ray: InputRay, count: nat)
    requires k >= 1 && Covers(names, t0) && count <= Batches(|rays|, k)
    requires RecordsHold(names, traset, contrib, k, r0, t0, recs, rays, count)
    ensures RecordsHold(names, traset, contrib, k, r0, t0, recs, rays + [ray], count)
  {
    forall j | 0 <= j < count
      ensures BatchOf(rays + [ray], k, j) == BatchOf(rays, k, j)
    {
      BatchOfFront(rays, ray, k, j);
    }
  }

  /** Writing the record of the next batch extends the records by one. */
  lemma RecordsAppend(names: seq<string>, traset: seq<int>, contrib: bool, k: nat, r0: seq<seq<seq<Color>>>, t0: map<string, ModCont>,
                      recs: seq<seq<seq<Color>>>, rays: seq<InputRay>, count: nat, rec: seq<seq<Color>>)
    requires Covers(names, t0)
    requires RecordsHold(names, traset, contrib, k, r0, t0, recs, rays, count)
    requires RecordHolds(names, Base(names, t0, count), rec, traset, contrib, BatchOf(rays, k, count))
    ensures RecordsHold(names, traset, contrib, k, r0, t0, recs + [rec], rays, count + 1)
  {
    forall j | 0 <= j < count + 1
      ensures RecordHolds(names, Base(names, t0, j), (recs + [rec])[|r0| + j], traset, contrib, BatchOf(rays, k, j))
    {
      if j < count {
        assert (recs + [rec])[|r0| + j] == recs[|r0| + j];
      }
    }
  }

  /** One more counted ray that leaves its batch partial keeps the batches. */
  lemma BatchedPartial(names: seq<string>, traset: seq<int>, contrib: bool, k: nat, s: Tally, rays: seq<InputRay>, ray: InputRay, bs: nat, t: Tally, u: Tally)
    requires k >= 1 && Covers(names, s.table) && bs == Batches(|rays|, k)
    requires Covers(names, t.table) && t.account == k - Leftover(|rays|, k) && Leftover(|rays|, k) + 1 < k
    requires Batched(names, traset, contrib, k, s, rays, bs, t)
    requires CountStep(names, traset, contrib, k, t, ray) == Ok(u)
    ensures Batched(names, traset, contrib, k, s, rays + [ray], bs, u)
  {
    var p := AddHits(t.table, traset, contrib, RayHits(ray)).value.0;
    assert u == t.(table := p, account := t.account - 1);
    BatchOfLast(rays, ray, k, bs);
    HoldsNext(Base(names, s.table, bs), t.table, traset, contrib, BatchOf(rays, k, bs), ray);
    RecordsKept(names, traset, contrib, k, s.records, s.table, t.records, rays, ray, bs);
  }

  /** A counted ray at account 1 appends the snapshot of the traced bins and clears them. */
  lemma FullStep(names: seq<string>, traset: seq<int>, contrib: bool, k: nat, t: Tally, ray: InputRay)
    requires Covers(names, t.table) && t.account == 1
    requires CountStep(names, traset, contrib, k, t, ray).Ok?
    ensures var p := AddHits(t.table, traset, contrib, RayHits(ray));
      p.Ok? && Covers(names, p.value.0) &&
      CountStep(names, traset, contrib, k, t, ray).value == Tally(Zeroed(names, p.value.0), k, t.records + [Snapshot(names, p.value.0)])
  {
  }

  /** The record written when a ray completes batch bs holds batch bs, ray included. */
  lemma FullRecord(names: seq<string>, traset: seq<int>, contrib: bool, k: nat, base: map<string, ModCont>, rays: seq<InputRay>, ray: InputRay, bs: nat, t: map<string, ModCont>)
    requires k >= 1 && Covers(names, t) && bs == Batches(|rays|, k)
    requires Holds(base, t, traset, contrib, BatchOf(rays, k, bs))
    requires AddHits(t, traset, contrib, RayHits(ray)).Ok?
    ensures forall i | 0 <= i < |names| :: names[i] in base
    ensures var p := AddHits(t, traset, contrib, RayHits(ray)).value.0;
      RecordHolds(names, base, Snapshot(names, p), traset, contrib, BatchOf(rays + [ray], k, bs))
  {
    var p := AddHits(t, traset, contrib, RayHits(ray)).value.0;
    BatchOfLast(rays, ray, k, bs);
    HoldsNext(base, t, traset, contrib, BatchOf(rays, k, bs), ray);
    SnapshotHolds(names, base, p, traset, contrib, BatchOf(rays + [ray], k, bs));
  }

  /** Bins traced from a table holding sums over a base keep the modifiers and bin counts of the base's source. */
  lemma TracedShape(t0: map<string, ModCont>, base: map<string, ModCont>, t: map<string, ModCont>, p: map<string, ModCont>)
    requires SameShape(t0, base) && t.Keys == base.Keys && (forall n | n in t :: n in base && |t[n].cbin| == |base[n].cbin|)
    requires SameShape(t, p)
    ensures p.Keys == t0.Keys && forall n | n in p :: |p[n].cbin| == |t0[n].cbin|
  {
    forall n | n in p
      ensures |p[n].cbin| == |t0[n].cbin|
    {
      assert n in t && n in base;
    }
  }

  /** After the flush the bins hold the cleared base and the new, empty batch. */
  lemma FullTable(names: seq<string>, traset: seq<int>, contrib: bool, k: nat, s: Tally, rays: seq<InputRay>, ray: InputRay, bs: nat, t: map<string, ModCont>)
    requires k >= 1 && Covers(names, s.table) && (forall n | n in s.table :: n in names) && bs == Batches(|rays|, k)
    requires WellFormed(t) && Leftover(|rays|, k) + 1 == k
    requires Holds(Base(names, s.table, bs), t, traset, contrib, BatchOf(rays, k, bs))
    requires AddHits(t, traset, contrib, RayHits(ray)).Ok?
    ensures var p := AddHits(t, traset, contrib, RayHits(ray)).value.0;
      Holds(Base(names, s.table, bs + 1), Zeroed(names, p), traset, contrib, BatchOf(rays + [ray], k, bs + 1))
  {
    var p := AddHits(t, traset, contrib, RayHits(ray)).value.0;
    TracedShape(s.table, Base(names, s.table, bs), t, p);
    BatchOfLast(rays, ray, k, bs);
    assert Base(names, s.table, bs + 1) == Zeroed(names, s.table);
    ZeroedHolds(names, s.table, p, traset, contrib);
  }

  /** The ray that completes batch bs appends that batch's record after the kept ones. */
  lemma FullRecords(names: seq<string>, traset: seq<int>, contrib: bool, k: nat, s: Tally, rays: seq<InputRay>, ray: InputRay, bs: nat, t: Tally)
    requires k >= 1 && Covers(names, s.table) && Covers(names, t.table) && t.account == 1 && bs == Batches(|rays|, k)
    requires RecordsHold(names, traset, contrib, k, s.records, s.table, t.records, rays, bs)
    requires Holds(Base(names, s.table, bs), t.table, traset, contrib, BatchOf(rays, k, bs))
    requires CountStep(names, traset, contrib, k, t, ray).Ok?
    ensures RecordsHold(names, traset, contrib, k, s.records, s.table, CountStep(names, traset, contrib, k, t, ray).value.records,
                        rays + [ray], bs + 1)
  {
    FullStep(names, traset, contrib, k, t, ray);
    var p := AddHits(t.table, traset, contrib, RayHits(ray)).value.0;
    FullRecord(names, traset, contrib, k, Base(names, s.table, bs), rays, ray, bs, t.table);
    RecordsKept(names, traset, contrib, k, s.records, s.table, t.records, rays, ray, bs);
    RecordsAppend(names, traset, contrib, k, s.records, s.table, t.records, rays + [ray], bs, Snapshot(names, p));
  }

  /** The ray that completes batch bs leaves the cleared bins, holding the empty batch bs + 1. */
  lemma FullBins(names: seq<string>, traset: seq<int>, contrib: bool, k: nat, s: Tally, rays: seq<InputRay>, ray: InputRay, bs: nat, t: Tally)
    requires k >= 1 && Covers(names, s.table) && (forall n | n in s.table :: n in names) && bs == Batches(|rays|, k)
    requires Covers(names, t.table) && t.account == 1 && Leftover(|rays|, k) + 1 == k
    requires Holds(Base(names, s.table, bs), t.table, traset, contrib, BatchOf(rays, k, bs))
    requires CountStep(names, traset, contrib, k, t, ray).Ok?
    ensures Holds(Base(names, s.table, bs + 1), CountStep(names, traset, contrib, k, t, ray).value.table,
                  traset, contrib, BatchOf(rays + [ray], k, bs + 1))
  {
    FullStep(names, traset, contrib, k, t, ray);
    FullTable(names, traset, contrib, k, s, rays, ray, bs, t.table);
  }

  /** One more counted ray that completes its batch writes that batch's record and starts an empty one. */
  lemma BatchedFull(names: seq<string>, traset: seq<int>, contrib: bool, k: nat, s: Tally, rays: seq<InputRay>, ray: InputRay, bs: nat, t: Tally, u: Tally)
    requires k >= 1 && Covers(names, s.table) && (forall n | n in s.table :: n in names) && bs == Batches(|rays|, k)
    requires Covers(names, t.table) && t.account == k - Leftover(|rays|, k) && Leftover(|rays|, k) + 1 == k
    requires Batched(names, traset, contrib, k, s, rays, bs, t)
    requires CountStep(names, traset, contrib, k, t, ray) == Ok(u)
    ensures Batched(names, traset, contrib, k, s, rays + [ray], bs + 1, u)
  {
    FullRecords(names, traset, contrib, k, s, rays, ray, bs, t);
    FullBins(names, traset, contrib, k, s, rays, ray, bs, t);
  }

  /** Batched carries over to an equal count and an equal state. */
  lemma BatchedEqual(names: seq<string>, traset: seq<int>, contrib: bool, k: nat, s: Tally, rays: seq<InputRay>,
                     c1: nat, t1: Tally, c2: nat, t2: Tally)
    requires Covers(names, s.table) && c1 == c2 && t1 == t2
    requires Batched(names, traset, contrib, k, s, rays, c1, t1)
    ensures Batched(names, traset, contrib, k, s, rays, c2, t2)
  {
  }

  /** Batched after the counted rays so far carries over to one more counted ray. */
  lemma BatchedNext(names: seq<string>, traset: seq<int>, contrib: bool, k: nat, s: Tally, rays: seq<InputRay>, ray: InputRay,
                    bs: nat, c: nat, t: Tally, u: Tally)
    requires k >= 1 && Covers(names, s.table) && (forall n | n in s.table :: n in names)
    requires bs == Batches(|rays|, k) && c == Batches(|rays| + 1, k)
    requires Covers(names, t.table) && t.account == k - Leftover(|rays|, k)
    requires Batched(names, traset, contrib, k, s, rays, bs, t)
    requires CountStep(names, traset, contrib, k, t, ray) == Ok(u)
    ensures Batched(names, traset, contrib, k, s, rays + [ray], c, u)
  {
    BatchStep(|rays|, k);
    if Leftover(|rays|, k) + 1 < k {
      BatchedPartial(names, traset, contrib, k, s, rays, ray, bs, t, u);
      BatchedEqual(names, traset, contrib, k, s, rays + [ray], bs, u, c, u);
    } else {
      BatchedFull(names, traset, contrib, k, s, rays, ray, bs, t, u);
      BatchedEqual(names, traset, contrib, k, s, rays + [ray], bs + 1, u, c, u);
    }
  }

  /**
   * From a full countdown of k >= 1, the records the loop writes are the
   * batches of k counted rays, in order: record j holds the bins batch j
   * started from (those before the loop for the first, cleared bins after)
   * plus the contributions of exactly the rays of batch j; the bins hold
   * the rays of the partial batch.
   */
  lemma {:induction false} BatchContents(names: seq<string>, traset: seq<int>, contrib: bool, k: nat, s: Tally, rays: seq<InputRay>)
    requires k >= 1 && s.account == k && Covers(names, s.table) && (forall n | n in s.table :: n in names)
    requires CountAll(names, traset, contrib, k, s, rays).Ok?
    ensures Batched(names, traset, contrib, k, s, rays, Batches(|rays|, k), CountAll(names, traset, contrib, k, s, rays).value)
    decreases |rays|
  {
    if rays == [] {
      HoldsStart(s.table, traset, contrib);
    } else {
      var front := rays[..|rays| - 1];
      var ray := rays[|rays| - 1];
      assert front + [ray] == rays;
      BatchContents(names, traset, contrib, k, s, front);
      CountAllCounts(names, traset, contrib, k, s, front);
      BatchedNext(names, traset, contrib, k, s, front, ray, Batches(|front|, k), Batches(|rays|, k),
                  CountAll(names, traset, contrib, k, s, front).value, CountAll(names, traset, contrib, k, s, rays).value);
    }
  }

  /**
   * With accumulate not positive the countdown never runs: no record is
   * written during the loop and the bins collect every counted ray.
   */
  lemma {:induction false} NoCountdown(names: seq<string>, traset: seq<int>, contrib: bool, k: int, s: Tally, rays: seq<InputRay>)
    requires k <= 0 && s.account == k && Covers(names, s.table)
    requires CountAll(names, traset, contrib, k, s, rays).Ok?
    ensures var t := CountAll(names, traset, contrib, k, s, rays).value;
      t.account == k && t.records == s.records && Holds(s.table, t.table, traset, contrib, rays)
    decreases |rays|
  {
    if rays == [] {
      HoldsStart(s.table, traset, contrib);
    } else {
      var front := rays[..|rays| - 1];
      var ray := rays[|rays| - 1];
      assert front + [ray] == rays;
      NoCountdown(names, traset, contrib, k, s, front);
      var t := CountAll(names, traset, contrib, k, s, front).value;
      HoldsNext(s.table, t.table, traset, contrib, front, ray);
    }
  }

  /**
   * The records of a whole run, final record included. With accumulate
   * k >= 1 there are ceil(n / k) of them for n counted rays, record j
   * holding its base bins plus batch j, the last batch possibly partial;
   * with k not positive there is one, holding the bins before the loop
   * plus every counted ray.
   */
  lemma RunRecords(names: seq<string>, traset: seq<int>, contrib: bool, k: int, s: Tally, rays: seq<InputRay>)
    requires s.account == k && Covers(names, s.table) && (forall n | n in s.table :: n in names)
    requires CountAll(names, traset, contrib, k, s, rays).Ok?
    ensures var f := Final(names, k, CountAll(names, traset, contrib, k, s, rays).value);
      s.records <= f.records &&
      (k >= 1 ==>
        |f.records| == |s.records| + CeilDiv(|rays|, k) &&
        forall j | 0 <= j < CeilDiv(|rays|, k) ::
          RecordHolds(names, Base(names, s.table, j), f.records[|s.records| + j], traset, contrib, BatchOf(rays, k, j))) &&
      (k <= 0 ==>
        |f.records| == |s.records| + 1 && RecordHolds(names, s.table, f.records[|s.records|], traset, contrib, rays))
  {
    var t := CountAll(names, traset, contrib, k, s, rays).value;
    var f := Final(names, k, t);
    if k >= 1 {
      BatchContents(names, traset, contrib, k, s, rays);
      CountAllCounts(names, traset, contrib, k, s, rays);
      var bs := Batches(|rays|, k);
      if Leftover(|rays|, k) != 0 {
        SnapshotHolds(names, Base(names, s.table, bs), t.table, traset, contrib, BatchOf(rays, k, bs));
        assert f.records == t.records + [Snapshot(names, t.table)];
        RecordsAppend(names, traset, contrib, k, s.records, s.table, t.records, rays, bs, Snapshot(names, t.table));
      }
    } else {
      NoCountdown(names, traset, contrib, k, s, rays);
      SnapshotHolds(names, s.table, t.table, traset, contrib, rays);
    }
  }

  /** A colour added to itself count times. */
  function Times(count: nat, v: Color): Color
  {
    if count == 0 then Black else AddColor(Times(count - 1, v), v)
  }

  /** Each channel of v scaled by x. */
  function Scale(x: real, v: Color): Color
  {
    Color(x * v.r, x * v.g, x * v.b)
  }

  lemma ScaleNext(x: real, v: Color)
    ensures AddColor(Scale(x, v), v) == Scale(x + 1.0, v)
  {
    assert (x + 1.0) * v.r == x * v.r + v.r;
    assert (x + 1.0) * v.g == x * v.g + v.g;
    assert (x + 1.0) * v.b == x * v.b + v.b;
  }

  /** Adding v to itself count times scales each channel by count. */
  lemma {:induction false} TimesScales(count: nat, v: Color)
    ensures Times(count, v) == Scale(count as real, v)
  {
    if count > 0 {
      var c := count - 1;
      TimesScales(c, v);
      ScaleNext(c as real, v);
      assert c as real + 1.0 == count as real;
    }
  }

  /**
   * When every ray of a batch adds the same v to bin b of modifier n, the
   * batch adds N times v for its N rays.
   */
  lemma {:induction false} RaysSumUniform(traset: seq<int>, contrib: bool, rays: seq<InputRay>, n: string, b: int, v: Color)
    requires forall i | 0 <= i < |rays| :: BinSum(traset, contrib, RayHits(rays[i]), n, b) == v
    ensures RaysSum(traset, contrib, rays, n, b) == Times(|rays|, v)
    ensures RaysSum(traset, contrib, rays, n, b) == Scale(|rays| as real, v)
    decreases |rays|
  {
    TimesScales(|rays|, v);
    if rays != [] {
      var front := rays[..|rays| - 1];
      assert forall i | 0 <= i < |front| :: front[i] == rays[i];
      RaysSumUniform(traset, contrib, front, n, b, v);
      assert BinSum(traset, contrib, RayHits(rays[|rays| - 1]), n, b) == v;
    }
  }
}
