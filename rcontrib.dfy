/**
 * rcontrib's accumulation of ray contributions: the trace set of
 * modifiers, registration of modifiers with their bins, routing of each
 * traced contribution into one bin, the accumulation countdown that
 * flushes and zeroes every bin, and the loop over input rays with its ray
 * budget, flush markers and final partial record.
 */
module Rcontrib {
  import opened Wrappers
  import opened CNumeric

  /** The object number that means "no object" and restarts the trace set. */
  const OVOID: int := -1
  /** The largest C int; the ray counters start over past it. */
  const INT_MAX: int := 2147483647
  /** Name of the RGBE picture format. */
  const COLRFMT: string := "32-bit_rle_rgbe"

  /** A DCOLOR: three channel values. */
  datatype Color = Color(r: real, g: real, b: real)

  const Black: Color := Color(0.0, 0.0, 0.0)

  function AddColor(a: Color, b: Color): Color
  {
    Color(a.r + b.r, a.g + b.g, a.b + b.b)
  }

  function MultColor(a: Color, b: Color): Color
  {
    Color(a.r * b.r, a.g * b.g, a.b * b.b)
  }

  /** A parsed bin expression: a numeric constant, or an expression of the ray with no fixed value. */
  datatype BinExpr = Const(value: real) | Varying(text: string)

  /** A MODCONT: one tracked modifier with its output spec, bin expression and bins. */
  datatype ModCont = ModCont(outspec: string, modname: string, binv: BinExpr, nbins: int, cbin: seq<Color>)

  datatype RcError =
    | DuplicateModifier(name: string)   // USER "duplicate modifier"
    | TooManyModifiers                  // INTERNAL "too many modifiers"
    | IllegalConstantBin                // USER "illegal non-zero constant for bin"
    | IllegalBinCount(name: string)     // USER "unspecified or illegal bin count"
    | UnexpectedModifier                // CONSISTENCY in trace_contrib
    | UnexpectedEOF                     // USER "unexpected EOF on input"

  datatype RcWarning = TooManySameNamed | BadBinNumber | DummyRaysIgnored | PartialAccumulation

  /**
   * What one traced ray reports to trace_contrib: the modifier object it
   * hit and that modifier's name, the value of the bin expression for this
   * ray, its contribution coefficient and its own colour.
   */
  datatype Hit = Hit(omod: int, name: string, binValue: real, contr: Color, rcol: Color)

  /**
   * One input ray: the length of its direction vector before
   * normalisation (zero marks a flush) and the hits its evaluation hands
   * to trace_contrib, in order.
   */
  datatype InputRay = InputRay(dirLength: real, hits: seq<Option<Hit>>)

  /** The bin a value of the bin expression selects: rounded by adding .5, then truncated. */
  function BinIndex(v: real): int
  {
    Trunc(v + 0.5)
  }

  /**
   * A value selects a bin of 0..n-1 exactly when it lies in (-3/2, n - 1/2):
   * truncation toward zero sends the whole of (-3/2, -1/2) to bin 0 as well.
   */
  lemma BinIndexInRange(v: real, n: int)
    requires n >= 1
    ensures 0 <= BinIndex(v) < n <==> -1.5 < v && v < n as real - 0.5
  {
    var y := v + 0.5;
    if y < 0.0 && y > -1.0 {
      assert (-y).Floor == 0;
    }
  }

  /** The bin count addmodifier takes: (int)(v + 1.5) for a constant, else the count given. */
  function BinCount(e: BinExpr, bincnt: int): int
  {
    match e
    case Const(v) => Trunc(v + 1.5)
    case Varying(_) => bincnt
  }

  /** Whether addmodifier accepts the bin expression and count. */
  predicate BinsAccepted(e: BinExpr, bincnt: int)
  {
    match e
    case Const(_) => BinCount(e, bincnt) == 1
    case Varying(_) => bincnt > 0
  }

  /**
   * A constant bin expression is accepted exactly when -1/2 <= v < 1/2, and
   * every accepted expression gives a positive bin count.
   */
  lemma BinsAcceptedIff(e: BinExpr, bincnt: int)
    ensures e.Const? ==> (BinsAccepted(e, bincnt) <==> -0.5 <= e.value < 0.5)
    ensures BinsAccepted(e, bincnt) ==> BinCount(e, bincnt) >= 1
  {
  }

  /** formstr: the name of an output format code. */
  function FormStr(f: char): (s: string)
    ensures s == "unknown" <==> f !in "afdc"
  {
    match f
    case 'a' => "ascii"
    case 'f' => "float"
    case 'd' => "double"
    case 'c' => COLRFMT
    case _ => "unknown"
  }

  /** The format code a name stands for, the inverse of formstr on the known codes. */
  function FormCode(s: string): (f: Option<char>)
  {
    if s == "ascii" then Some('a')
    else if s == "float" then Some('f')
    else if s == "double" then Some('d')
    else if s == COLRFMT then Some('c')
    else None
  }

  /** Every known code is recovered from its name, and only unknown codes map to "unknown". */
  lemma FormStrRoundTrip(f: char)
    ensures f in "afdc" ==> FormCode(FormStr(f)) == Some(f)
    ensures f !in "afdc" ==> FormCode(FormStr(f)) == None
  {
  }

  /** The number of rays to read: the image size, or the line count, scaled by the accumulation count. */
  function RayBudget(xres: int, yres: int, accumulate: int): (n: int)
    ensures n >= 0
    ensures n == 0 <==> yres <= 0
  {
    var base := if yres > 0 then (if xres > 0 then xres * yres else yres) else 0;
    if accumulate > 1 then base * accumulate else base
  }

  function Zeros(n: nat): (z: seq<Color>)
    ensures |z| == n && forall i | 0 <= i < n :: z[i] == Black
  {
    seq(n, i => Black)
  }

  /** The number of whole batches of k in n rays. */
  function Batches(n: nat, k: nat): nat
    requires k >= 1
  {
    if n < k then 0 else 1 + Batches(n - k, k)
  }

  /** The number of rays left over after the whole batches. */
  function Leftover(n: nat, k: nat): (r: nat)
    requires k >= 1
    ensures r < k
  {
    if n < k then n else Leftover(n - k, k)
  }

  /** Batches and leftover split n: n = Batches * k + Leftover. */
  lemma {:induction false} BatchesSplit(n: nat, k: nat)
    requires k >= 1
    ensures Batches(n, k) * k + Leftover(n, k) == n
    decreases n
  {
    if n >= k {
      BatchesSplit(n - k, k);
      assert Batches(n, k) * k == Batches(n - k, k) * k + k;
    }
  }

  /** ceil(n / k): whole batches plus one for a leftover part. */
  function CeilDiv(n: nat, k: nat): (c: nat)
    requires k >= 1
    ensures (c - 1) * k < n <= c * k
  {
    BatchesSplit(n, k);
    if Leftover(n, k) == 0 then Batches(n, k) else Batches(n, k) + 1
  }

  /** One more ray: the leftover grows by one, or completes a batch. */
  lemma {:induction false} BatchStep(m: nat, k: nat)
    requires k >= 1
    ensures Leftover(m, k) + 1 < k ==> Leftover(m + 1, k) == Leftover(m, k) + 1 && Batches(m + 1, k) == Batches(m, k)
    ensures Leftover(m, k) + 1 == k ==> Leftover(m + 1, k) == 0 && Batches(m + 1, k) == Batches(m, k) + 1
    decreases m
  {
    if m >= k {
      BatchStep(m - k, k);
      assert m + 1 - k == (m - k) + 1;
    } else if m + 1 == k {
      assert Leftover(m + 1, k) == Leftover(0, k);
    }
  }

  /** The number of rays the loop counts: all of them with accumulate 1, else those with a non-zero direction. */
  function Counted(rays: seq<InputRay>, accumulate: int): (n: nat)
    ensures n <= |rays|
  {
    if rays == [] then 0
    else
      var last := if rays[|rays| - 1].dirLength != 0.0 || accumulate == 1 then 1 else 0;
      Counted(rays[..|rays| - 1], accumulate) + last
  }

  /** The rays the loop handles before it stops: all counted ones, or the first raysleft of them. */
  function Processed(counted: nat, raysleft: nat): (p: nat)
    ensures p <= counted
  {
    if raysleft == 0 || counted < raysleft then counted else raysleft
  }

  /** One output record: the bins of each named modifier, in the order of names. */
  function Snapshot(names: seq<string>, table: map<string, ModCont>): (s: seq<seq<Color>>)
    requires forall i | 0 <= i < |names| :: names[i] in table
    ensures |s| == |names| && forall i | 0 <= i < |names| :: s[i] == table[names[i]].cbin
  {
    seq(|names|, i requires 0 <= i < |names| => table[names[i]].cbin)
  }

  // ---------------------------------------------------------------------
  // The effect of the ray loop on the bins, as functions of the input

  /** The colour a traced hit adds: its contribution, times the ray colour when contrib is set. */
  function ContribOf(contrib: bool, h: Hit): Color
  {
    if contrib then MultColor(h.contr, h.rcol) else h.contr
  }

  /** Every record of the table has one bin per count. */
  predicate WellFormed(table: map<string, ModCont>)
  {
    forall n | n in table :: table[n].nbins == |table[n].cbin|
  }

  /** u is t with only the values in the bins changed. */
  predicate SameShape(t: map<string, ModCont>, u: map<string, ModCont>)
  {
    t.Keys == u.Keys &&
    forall n | n in t :: n in u && |u[n].cbin| == |t[n].cbin| && u[n] == t[n].(cbin := u[n].cbin)
  }

  /**
   * trace_contrib on a table: the new table and the warnings, or the
   * error. It fails exactly for a traced hit whose modifier has no record,
   * and otherwise changes only bin values.
   */
  function HitEffect(table: map<string, ModCont>, traset: seq<int>, contrib: bool, hit: Option<Hit>):
    (r: Result<(map<string, ModCont>, seq<RcWarning>), RcError>)
    requires WellFormed(table)
    ensures r.Err? <==> hit.Some? && hit.value.omod in traset && hit.value.name !in table
    ensures r.Ok? ==> SameShape(table, r.value.0) && WellFormed(r.value.0)
  {
    if hit.None? || hit.value.omod !in traset then Ok((table, []))
    else if hit.value.name !in table then Err(UnexpectedModifier)
    else
      var h := hit.value;
      var mp := table[h.name];
      var bn := BinIndex(h.binValue);
      if 0 <= bn < mp.nbins then
        Ok((table[h.name := mp.(cbin := mp.cbin[bn := AddColor(mp.cbin[bn], ContribOf(contrib, h))])], []))
      else
        Ok((table, [BadBinNumber]))
  }

  /** The hits of one evaluated ray through trace_contrib in order, stopping at the first error. */
  function AddHits(table: map<string, ModCont>, traset: seq<int>, contrib: bool, hits: seq<Option<Hit>>):
    (r: Result<(map<string, ModCont>, seq<RcWarning>), RcError>)
    requires WellFormed(table)
    ensures r.Ok? ==> SameShape(table, r.value.0) && WellFormed(r.value.0)
    decreases |hits|
  {
    if hits == [] then Ok((table, []))
    else
      match AddHits(table, traset, contrib, hits[..|hits| - 1])
      case Err(e) => Err(e)
      case Ok(p) =>
        match HitEffect(p.0, traset, contrib, hits[|hits| - 1])
        case Err(e) => Err(e)
        case Ok(q) => Ok((q.0, p.1 + q.1))
  }

  /** Tracing one more hit after a successful prefix: the prefix's table goes through trace_contrib. */
  lemma AddHitsNext(table: map<string, ModCont>, traset: seq<int>, contrib: bool, hits: seq<Option<Hit>>, j: nat)
    requires WellFormed(table) && j < |hits| && AddHits(table, traset, contrib, hits[..j]).Ok?
    ensures var p := AddHits(table, traset, contrib, hits[..j]).value;
      var q := HitEffect(p.0, traset, contrib, hits[j]);
      var r := AddHits(table, traset, contrib, hits[..j + 1]);
      (r.Err? <==> q.Err?) && (q.Ok? ==> r.value == (q.value.0, p.1 + q.value.1))
  {
    assert hits[..j + 1][..j] == hits[..j];
  }

  /** Once a prefix of the hits fails, the whole sequence fails. */
  lemma {:induction false} AddHitsStuck(table: map<string, ModCont>, traset: seq<int>, contrib: bool, hits: seq<Option<Hit>>, i: nat)
    requires WellFormed(table) && i <= |hits| && AddHits(table, traset, contrib, hits[..i]).Err?
    ensures AddHits(table, traset, contrib, hits).Err?
    decreases |hits| - i
  {
    if i < |hits| {
      assert hits[..i + 1][..i] == hits[..i];
      AddHitsStuck(table, traset, contrib, hits, i + 1);
    } else {
      assert hits[..i] == hits;
    }
  }

  /** The total the hits add to bin b of modifier n: the contributions of the traced hits that select it. */
  function BinSum(traset: seq<int>, contrib: bool, hits: seq<Option<Hit>>, n: string, b: int): Color
    decreases |hits|
  {
    if hits == [] then Black
    else
      var rest := BinSum(traset, contrib, hits[..|hits| - 1], n, b);
      var hit := hits[|hits| - 1];
      if hit.Some? && hit.value.omod in traset && hit.value.name == n && BinIndex(hit.value.binValue) == b
      then AddColor(rest, ContribOf(contrib, hit.value))
      else rest
  }

  /** The hits a counted ray hands to trace_contrib: none for a flush marker. */
  function RayHits(ray: InputRay): seq<Option<Hit>>
  {
    if ray.dirLength == 0.0 then [] else ray.hits
  }

  /** The total a sequence of counted rays adds to bin b of modifier n. */
  function RaysSum(traset: seq<int>, contrib: bool, rays: seq<InputRay>, n: string, b: int): Color
    decreases |rays|
  {
    if rays == [] then Black
    else AddColor(RaysSum(traset, contrib, rays[..|rays| - 1], n, b), BinSum(traset, contrib, RayHits(rays[|rays| - 1]), n, b))
  }

  /** The table with the bins of every named modifier cleared, as done_contrib leaves it. */
  function Zeroed(names: seq<string>, table: map<string, ModCont>): (z: map<string, ModCont>)
    requires WellFormed(table)
    ensures SameShape(table, z) && WellFormed(z)
    ensures forall n | n in z && n in names :: z[n].cbin == Zeros(table[n].nbins)
    ensures forall n | n in z && n !in names :: z[n] == table[n]
  {
    map n | n in table :: if n in names then table[n].(cbin := Zeros(table[n].nbins)) else table[n]
  }

  /** What the ray loop keeps track of: the bins, the accumulation countdown and the records written. */
  datatype Tally = Tally(table: map<string, ModCont>, account: int, records: seq<seq<seq<Color>>>)

  /** Every name has a record in the table, and the table is well formed. */
  predicate Covers(names: seq<string>, table: map<string, ModCont>)
  {
    WellFormed(table) && forall i | 0 <= i < |names| :: names[i] in table
  }

  /** done_contrib on a tally. */
  function Done(names: seq<string>, accumulate: int, s: Tally): (r: Tally)
    requires Covers(names, s.table)
    ensures SameShape(s.table, r.table) && Covers(names, r.table)
    ensures s.records <= r.records && |r.records| == |s.records| + (if s.account == 1 then 1 else 0)
    ensures r.account == if s.account == 1 then accumulate else if s.account > 1 then s.account - 1 else s.account
  {
    if s.account <= 0 then s
    else if s.account > 1 then s.(account := s.account - 1)
    else Tally(Zeroed(names, s.table), accumulate, s.records + [Snapshot(names, s.table)])
  }

  /** One counted ray: its hits traced, then counted down. */
  function CountStep(names: seq<string>, traset: seq<int>, contrib: bool, accumulate: int, s: Tally, ray: InputRay):
    (r: Result<Tally, RcError>)
    requires Covers(names, s.table)
    ensures r.Ok? ==> SameShape(s.table, r.value.table) && Covers(names, r.value.table)
    ensures r.Ok? ==> s.records <= r.value.records && |r.value.records| == |s.records| + (if s.account == 1 then 1 else 0)
    ensures r.Ok? ==> r.value.account == if s.account == 1 then accumulate else if s.account > 1 then s.account - 1 else s.account
  {
    match AddHits(s.table, traset, contrib, RayHits(ray))
    case Err(e) => Err(e)
    case Ok(p) => Ok(Done(names, accumulate, s.(table := p.0)))
  }

  /** The counted rays in order, stopping at the first error. */
  function CountAll(names: seq<string>, traset: seq<int>, contrib: bool, accumulate: int, s: Tally, rays: seq<InputRay>):
    (r: Result<Tally, RcError>)
    requires Covers(names, s.table)
    ensures r.Ok? ==> SameShape(s.table, r.value.table) && Covers(names, r.value.table)
    decreases |rays|
  {
    if rays == [] then Ok(s)
    else
      match CountAll(names, traset, contrib, accumulate, s, rays[..|rays| - 1])
      case Err(e) => Err(e)
      case Ok(t) => CountStep(names, traset, contrib, accumulate, t, rays[|rays| - 1])
  }

  /**
   * Counting down from a full countdown of k >= 1, n counted rays leave
   * Batches(n, k) more records and Leftover(n, k) rays of a partial batch;
   * with k not positive the countdown never runs and no record is written.
   */
  lemma {:induction false} CountAllCounts(names: seq<string>, traset: seq<int>, contrib: bool, accumulate: int, s: Tally, rays: seq<InputRay>)
    requires Covers(names, s.table) && s.account == accumulate
    requires CountAll(names, traset, contrib, accumulate, s, rays).Ok?
    ensures var t := CountAll(names, traset, contrib, accumulate, s, rays).value;
      s.records <= t.records &&
      (accumulate >= 1 ==>
        t.account == accumulate - Leftover(|rays|, accumulate) && |t.records| == |s.records| + Batches(|rays|, accumulate)) &&
      (accumulate <= 0 ==> t.account == accumulate && t.records == s.records)
    decreases |rays|
  {
    if rays != [] {
      var front := rays[..|rays| - 1];
      CountAllCounts(names, traset, contrib, accumulate, s, front);
      if accumulate >= 1 {
        BatchStep(|front|, accumulate);
      }
    }
  }

  /** The final record after the loop, and the accumulate it is written with. */
  function Final(names: seq<string>, accumulate: int, s: Tally): (r: Tally)
    requires Covers(names, s.table)
    ensures s.records <= r.records
  {
    if accumulate <= 0 || s.account < accumulate then
      Done(names, if s.account < accumulate then accumulate - s.account else accumulate, s.(account := 1))
    else s
  }

  /** The rays the loop counts, in order. */
  function Kept(rays: seq<InputRay>, accumulate: int): (r: seq<InputRay>)
    ensures |r| == Counted(rays, accumulate)
  {
    if rays == [] then []
    else
      var rest := Kept(rays[..|rays| - 1], accumulate);
      var ray := rays[|rays| - 1];
      if ray.dirLength != 0.0 || accumulate == 1 then rest + [ray] else rest
  }

  /** The counted rays the loop handles before it stops: all of them, or the first raysleft. */
  function Handled(rays: seq<InputRay>, accumulate: int, raysleft: nat): (r: seq<InputRay>)
    ensures |r| == Processed(Counted(rays, accumulate), raysleft)
  {
    Kept(rays, accumulate)[..Processed(Counted(rays, accumulate), raysleft)]
  }

  /** The rays a prefix keeps are a prefix of the rays the whole input keeps. */
  lemma {:induction false} KeptPrefix(rays: seq<InputRay>, i: nat, accumulate: int)
    requires i <= |rays|
    ensures Counted(rays[..i], accumulate) <= Counted(rays, accumulate)
    ensures Kept(rays[..i], accumulate) == Kept(rays, accumulate)[..Counted(rays[..i], accumulate)]
    decreases |rays| - i
  {
    if i < |rays| {
      KeptPrefix(rays, i + 1, accumulate);
      assert rays[..i + 1][..i] == rays[..i];
    } else {
      assert rays[..i] == rays;
    }
  }

  /** Extending the input by one ray keeps that ray exactly when it is counted. */
  lemma KeptNext(rays: seq<InputRay>, i: nat, accumulate: int)
    requires i < |rays|
    ensures Kept(rays[..i + 1], accumulate) ==
      if rays[i].dirLength != 0.0 || accumulate == 1 then Kept(rays[..i], accumulate) + [rays[i]] else Kept(rays[..i], accumulate)
  {
    assert rays[..i + 1][..i] == rays[..i];
  }

  /**
   * Where the loop stops, at the end of the input or when the budget of
   * m counted rays is spent, it has handled exactly the rays Handled names.
   */
  lemma LoopExit(rays: seq<InputRay>, i: nat, accumulate: int, raysleft: nat, m: nat, stop: bool)
    requires i <= |rays| && m == Counted(rays[..i], accumulate)
    requires raysleft > 0 ==> m <= raysleft && (stop <==> m == raysleft)
    requires raysleft == 0 ==> !stop
    requires i == |rays| || stop
    ensures m == Processed(Counted(rays, accumulate), raysleft)
    ensures Kept(rays[..i], accumulate) == Handled(rays, accumulate, raysleft)
  {
    KeptPrefix(rays, i, accumulate);
    if i == |rays| {
      assert rays[..i] == rays;
    }
  }

  /** One more counted ray after a successful prefix of the loop. */
  lemma CountAllNext(names: seq<string>, traset: seq<int>, contrib: bool, accumulate: int, s: Tally, rays: seq<InputRay>, ray: InputRay)
    requires Covers(names, s.table) && CountAll(names, traset, contrib, accumulate, s, rays).Ok?
    ensures CountAll(names, traset, contrib, accumulate, s, rays + [ray]) ==
      CountStep(names, traset, contrib, accumulate, CountAll(names, traset, contrib, accumulate, s, rays).value, ray)
  {
    assert (rays + [ray])[..|rays|] == rays;
  }

  /** Warnings appended in two steps are those appended at once. */
  lemma AppendAssoc<T>(a: seq<T>, b: seq<T>, c: seq<T>)
    ensures a + b + c == a + (b + c)
  {
  }

  /** The state of one rcontrib process. */
  class RcState {
    const maxtset: nat
    const maxmodlist: nat
    var traset: seq<int>
    var hitlimit: int
    var modname: seq<string>
    var modconttab: map<string, ModCont>
    const contrib: bool
    var accumulate: int
    const xres: int
    const yres: int
    var account: int
    var raysleft: nat
    var waitflush: int
    var lastray: int
    var lastdone: int
    var ignoreWarningGiven: bool
    /** Every record written so far: for each flush, the bins of every modifier in registration order. */
    var records: seq<seq<seq<Color>>>
    var warnings: seq<RcWarning>

    /**
     * The trace set never exceeds MAXTSET and is full whenever insertions
     * are stopped; the registered names are distinct and are exactly the
     * keys of the table; every record has its own name and a bin per count.
     */
    ghost predicate Valid()
      reads this
    {
      |traset| <= maxtset && (hitlimit > 0 ==> |traset| >= maxtset) &&
      |modname| <= maxmodlist &&
      (forall i, j | 0 <= i < j < |modname| :: modname[i] != modname[j]) &&
      (forall n :: n in modconttab <==> n in modname) &&
      (forall n | n in modconttab :: modconttab[n].modname == n && modconttab[n].nbins == |modconttab[n].cbin| >= 1) &&
      0 <= lastdone <= lastray <= INT_MAX
    }

    constructor (maxtset: nat, maxmodlist: nat, contrib: bool, accumulate: int, xres: int, yres: int)
      requires maxtset >= 1
      ensures Valid()
      ensures this.maxtset == maxtset && this.maxmodlist == maxmodlist
      ensures this.contrib == contrib && this.accumulate == accumulate && this.xres == xres && this.yres == yres
      ensures traset == [] && hitlimit == 0 && modname == [] && modconttab == map[]
      ensures lastray == 0 && lastdone == 0 && records == [] && warnings == [] && !ignoreWarningGiven
    {
      this.maxtset := maxtset;
      this.maxmodlist := maxmodlist;
      this.contrib := contrib;
      this.accumulate := accumulate;
      this.xres := xres;
      this.yres := yres;
      traset := [];
      hitlimit := 0;
      modname := [];
      modconttab := map[];
      account := 0;
      raysleft := 0;
      waitflush := 0;
      lastray := 0;
      lastdone := 0;
      ignoreWarningGiven := false;
      records := [];
      warnings := [];
    }

    /**
     * tranotify: OVOID empties the trace set and lifts the stop; a modifier
     * whose name is registered joins the set unless the set is full, which
     * warns once and stops insertions until the next OVOID.
     */
    method Tranotify(obj: int, name: string, isModifier: bool)
      requires Valid()
      modifies this
      ensures Valid()
      ensures obj == OVOID ==> traset == [] && hitlimit == 0 && warnings == old(warnings)
      ensures obj != OVOID && (old(hitlimit) != 0 || !isModifier || name !in modname) ==>
        traset == old(traset) && hitlimit == old(hitlimit) && warnings == old(warnings)
      ensures obj != OVOID && old(hitlimit) == 0 && isModifier && name in modname && |old(traset)| < maxtset ==>
        traset == old(traset) + [obj] && hitlimit == 0 && warnings == old(warnings)
      ensures obj != OVOID && old(hitlimit) == 0 && isModifier && name in modname && |old(traset)| >= maxtset ==>
        traset == old(traset) && hitlimit == 1 && warnings == old(warnings) + [TooManySameNamed]
      ensures modname == old(modname) && modconttab == old(modconttab) && records == old(records)
      ensures account == old(account) && raysleft == old(raysleft) && accumulate == old(accumulate)
      ensures lastray == old(lastray) && lastdone == old(lastdone)
    {
      if obj == OVOID {
        traset := [];
        hitlimit := 0;
        return;
      }
      if hitlimit != 0 || !isModifier {
        return;
      }
      var i := |modname|;
      while i > 0
        invariant 0 <= i <= |modname|
        invariant name !in modname[i..]
        invariant traset == old(traset) && hitlimit == old(hitlimit) && warnings == old(warnings)
        decreases i
      {
        i := i - 1;
        if name == modname[i] {
          if |traset| >= maxtset {
            warnings := warnings + [TooManySameNamed];
            hitlimit := hitlimit + 1;
            return;
          }
          traset := traset + [obj];
          return;
        }
      }
      assert modname[0..] == modname;
    }

    /**
     * addmodifier: register modn with its output spec and bin expression
     * (a missing expression means the constant 0). A constant must select
     * exactly one bin; otherwise the count must be positive. The new record
     * has that many zero bins.
     */
    method AddModifier(modn: string, outf: string, binv: Option<BinExpr>, bincnt: int) returns (r: Result<ModCont, RcError>)
      requires Valid()
      modifies this
      ensures var e := if binv.Some? then binv.value else Const(0.0);
        if modn in old(modconttab) then r == Err(DuplicateModifier(modn))
        else if |old(modname)| >= maxmodlist then r == Err(TooManyModifiers)
        else if !BinsAccepted(e, bincnt) then
          r == Err(if e.Const? then IllegalConstantBin else IllegalBinCount(modn))
        else
          r == Ok(ModCont(outf, modn, e, BinCount(e, bincnt), Zeros(BinCount(e, bincnt)))) &&
          modname == old(modname) + [modn] && modconttab == old(modconttab)[modn := r.value] && Valid()
      ensures traset == old(traset) && hitlimit == old(hitlimit) && records == old(records) && warnings == old(warnings)
      ensures account == old(account) && raysleft == old(raysleft) && accumulate == old(accumulate)
      ensures lastray == old(lastray) && lastdone == old(lastdone)
    {
      if modn in modconttab {
        return Err(DuplicateModifier(modn));
      }
      if |modname| >= maxmodlist {
        return Err(TooManyModifiers);
      }
      modname := modname + [modn];
      var e := if binv.Some? then binv.value else Const(0.0);
      var n := bincnt;
      if e.Const? {
        n := Trunc(e.value + 1.5);
        if n != 1 {
          return Err(IllegalConstantBin);
        }
      } else if n <= 0 {
        return Err(IllegalBinCount(modn));
      }
      var mp := ModCont(outf, modn, e, n, Zeros(n));
      modconttab := modconttab[modn := mp];
      return Ok(mp);
    }

    /**
     * The counters of rcinit: the ray budget, the accumulation countdown
     * started at accumulate, and the flush wait (0 for a picture of more
     * than one column, else xres).
     */
    method Init()
      requires Valid()
      modifies this
      ensures Valid()
      ensures raysleft == RayBudget(xres, yres, accumulate)
      ensures account == accumulate
      ensures waitflush == if yres > 0 && xres > 1 then 0 else xres
      ensures traset == old(traset) && hitlimit == old(hitlimit) && modname == old(modname)
      ensures modconttab == old(modconttab) && records == old(records) && warnings == old(warnings)
      ensures lastray == old(lastray) && lastdone == old(lastdone) && ignoreWarningGiven == old(ignoreWarningGiven)
    {
      var n: int;
      if yres > 0 {
        if xres > 0 {
          n := xres * yres;
        } else {
          n := yres;
        }
      } else {
        n := 0;
      }
      account := accumulate;
      if account > 1 {
        n := n * accumulate;
      }
      raysleft := n;
      waitflush := if yres > 0 && xres > 1 then 0 else xres;
    }

    /** Every field but the bins and the warnings, which are all that evaluating a ray changes. */
    ghost function Others(): (seq<int>, int, seq<string>, seq<seq<seq<Color>>>, int, nat, int, int, int, bool, int)
      reads this
    {
      (traset, hitlimit, modname, records, account, raysleft, accumulate, lastray, lastdone, ignoreWarningGiven, waitflush)
    }

    /**
     * trace_contrib: a hit on a modifier in the trace set adds its
     * contribution (times the ray colour when contrib is set) to the one
     * bin its bin value selects; a bin outside the record warns and
     * changes nothing; a traced modifier without a record is an error.
     */
    method TraceContrib(hit: Option<Hit>) returns (err: Option<RcError>)
      requires Valid()
      modifies this
      ensures Valid()
      ensures hit.None? || hit.value.omod !in old(traset) ==> err.None? && modconttab == old(modconttab) && warnings == old(warnings)
      ensures hit.Some? && hit.value.omod in old(traset) ==>
        var h := hit.value;
        (h.name !in old(modconttab) <==> err == Some(UnexpectedModifier)) &&
        (h.name in old(modconttab) ==> (err.None? &&
          var mp := old(modconttab)[h.name];
          var bn := BinIndex(h.binValue);
          if 0 <= bn < mp.nbins then
            var c := if contrib then MultColor(h.contr, h.rcol) else h.contr;
            modconttab == old(modconttab)[h.name := mp.(cbin := mp.cbin[bn := AddColor(mp.cbin[bn], c)])] &&
            warnings == old(warnings)
          else
            modconttab == old(modconttab) && warnings == old(warnings) + [BadBinNumber]))
      ensures Others() == old(Others())
      ensures var e := HitEffect(old(modconttab), old(traset), contrib, hit);
        (err.Some? <==> e.Err?) && (e.Ok? ==> modconttab == e.value.0 && warnings == old(warnings) + e.value.1)
    {
      if hit.None? || hit.value.omod !in traset {
        return None;
      }
      var h := hit.value;
      if h.name !in modconttab {
        return Some(UnexpectedModifier);
      }
      var mp := modconttab[h.name];
      var bn := BinIndex(h.binValue);
      if bn < 0 || bn >= mp.nbins {
        warnings := warnings + [BadBinNumber];
        return None;
      }
      var c := h.contr;
      if contrib {
        c := MultColor(c, h.rcol);
      }
      modconttab := modconttab[h.name := mp.(cbin := mp.cbin[bn := AddColor(mp.cbin[bn], c)])];
      return None;
    }

    /**
     * The loop of done_contrib over the registered names: collect each
     * modifier's bins for the record, then zero them.
     */
    static method FlushBins(names: seq<string>, table: map<string, ModCont>) returns (rec: seq<seq<Color>>, tab: map<string, ModCont>)
      requires forall i | 0 <= i < |names| :: names[i] in table
      requires forall n | n in table :: table[n].nbins >= 0
      requires forall i, j | 0 <= i < j < |names| :: names[i] != names[j]
      ensures rec == Snapshot(names, table)
      ensures tab.Keys == table.Keys
      ensures forall n | n in tab ::
        tab[n] == (if n in names then table[n].(cbin := Zeros(table[n].nbins)) else table[n])
    {
      tab := table;
      rec := [];
      for i := 0 to |names|
        invariant tab.Keys == table.Keys
        invariant |rec| == i && forall k | 0 <= k < i :: rec[k] == table[names[k]].cbin
        invariant forall n | n in tab ::
          tab[n] == (if n in names[..i] then table[n].(cbin := Zeros(table[n].nbins)) else table[n])
      {
        var mp := tab[names[i]];
        assert names[i] !in names[..i];
        rec := rec + [mp.cbin];
        tab := tab[names[i] := mp.(cbin := Zeros(mp.nbins))];
        assert names[..i + 1] == names[..i] + [names[i]];
      }
      assert names[..|names|] == names;
    }

    /**
     * done_contrib: count one ray down; when the count reaches zero, write
     * a record of every modifier's bins, zero them all and restart the
     * count at accumulate. A count at or below zero never flushes.
     */
    method DoneContrib()
      requires Valid()
      modifies this
      ensures Valid()
      ensures traset == old(traset) && hitlimit == old(hitlimit) && modname == old(modname) && warnings == old(warnings)
      ensures raysleft == old(raysleft) && accumulate == old(accumulate) && waitflush == old(waitflush)
      ensures lastray == old(lastray) && lastdone == old(lastdone) && ignoreWarningGiven == old(ignoreWarningGiven)
      ensures Tally(modconttab, account, records) == Done(old(modname), accumulate, Tally(old(modconttab), old(account), old(records)))
    {
      if account <= 0 {
        return;
      }
      account := account - 1;
      if account != 0 {
        return;
      }
      var rec, tab := FlushBins(modname, modconttab);
      assert tab == Zeroed(modname, modconttab);
      modconttab := tab;
      records := records + [rec];
      account := accumulate;
    }

    /**
     * Evaluating one ray: every hit it produces goes through trace_contrib,
     * until an error. The bins and warnings become those of AddHits.
     */
    method TraceRay(hits: seq<Option<Hit>>) returns (err: Option<RcError>)
      requires Valid()
      modifies this
      ensures Valid()
      ensures err.Some? ==> err == Some(UnexpectedModifier)
      ensures var r := AddHits(old(modconttab), old(traset), contrib, hits);
        (err.Some? <==> r.Err?) && (r.Ok? ==> modconttab == r.value.0 && warnings == old(warnings) + r.value.1)
      ensures Others() == old(Others())
    {
      err := None;
      for j := 0 to |hits|
        invariant Valid() && err.None?
        invariant var r := AddHits(old(modconttab), old(traset), contrib, hits[..j]);
          r.Ok? && modconttab == r.value.0 && warnings == old(warnings) + r.value.1
        invariant Others() == old(Others())
      {
        err := TraceNext(old(modconttab), old(warnings), hits, j);
        if err.Some? {
          AddHitsStuck(old(modconttab), traset, contrib, hits, j + 1);
          return;
        }
      }
      assert hits[..|hits|] == hits;
    }

    /**
     * Hit j of a ray through trace_contrib, when the bins and warnings are
     * those of AddHits on the hits before it (from t0 and w0): afterwards
     * they are those of AddHits on the hits up to j, or it fails exactly
     * when that does.
     */
    method TraceNext(ghost t0: map<string, ModCont>, ghost w0: seq<RcWarning>, hits: seq<Option<Hit>>, j: nat) returns (err: Option<RcError>)
      requires Valid() && WellFormed(t0) && j < |hits|
      requires var r := AddHits(t0, traset, contrib, hits[..j]);
        r.Ok? && modconttab == r.value.0 && warnings == w0 + r.value.1
      modifies this
      ensures Valid() && Others() == old(Others())
      ensures err.Some? ==> err == Some(UnexpectedModifier)
      ensures var r := AddHits(t0, traset, contrib, hits[..j + 1]);
        (err.Some? <==> r.Err?) && (r.Ok? ==> modconttab == r.value.0 && warnings == w0 + r.value.1)
    {
      AddHitsNext(t0, traset, contrib, hits, j);
      ghost var p := AddHits(t0, traset, contrib, hits[..j]).value;
      ghost var q := HitEffect(modconttab, traset, contrib, hits[j]);
      if q.Ok? {
        AppendAssoc(w0, p.1, q.value.1);
      }
      err := TraceContrib(hits[j]);
    }

    /**
     * One counted ray of the loop: number it (starting over past INT_MAX),
     * evaluate it unless it is a flush marker (which, without a picture
     * size, asks for a flush right after), then count it down.
     */
    method CountRay(ray: InputRay) returns (err: Option<RcError>)
      requires Valid()
      modifies this
      ensures Valid()
      ensures err.Some? ==> err == Some(UnexpectedModifier)
      ensures err.None? ==> lastdone == lastray && lastray == (if old(lastray) == INT_MAX then 1 else old(lastray) + 1)
      ensures ray.dirLength == 0.0 && (yres <= 0 || xres <= 0) ==> waitflush == 1
      ensures raysleft == old(raysleft) && accumulate == old(accumulate) && ignoreWarningGiven == old(ignoreWarningGiven)
      ensures var r := CountStep(old(modname), old(traset), contrib, accumulate, Tally(old(modconttab), old(account), old(records)), ray);
        (err.Some? <==> r.Err?) && (r.Ok? ==> Tally(modconttab, account, records) == r.value)
      ensures traset == old(traset) && modname == old(modname)
      requires lastdone == lastray
    {
      if lastray == INT_MAX {
        lastray, lastdone := 0, 0;
      }
      lastray := lastray + 1;
      if ray.dirLength == 0.0 {
        if yres <= 0 || xres <= 0 {
          waitflush := 1;
        }
      } else {
        err := TraceRay(ray.hits);
        if err.Some? {
          return;
        }
      }
      DoneContrib();
      lastdone := lastdone + 1;
      return None;
    }

    /**
     * After the loop: a partial batch (with a warning, and accumulate cut
     * to its size), or the whole run when accumulate is not positive, is
     * written as one more record.
     */
    method FinalRecord()
      requires Valid()
      modifies this
      ensures Valid()
      ensures old(accumulate) <= 0 && old(account) == old(accumulate) ==> |records| == |old(records)| + 1
      ensures 1 <= old(account) <= old(accumulate) ==>
        |records| == |old(records)| + (if old(account) < old(accumulate) then 1 else 0)
      ensures old(account) < old(accumulate) <==> warnings == old(warnings) + [PartialAccumulation]
      ensures old(account) >= old(accumulate) ==> warnings == old(warnings)
      ensures Tally(modconttab, account, records) == Final(old(modname), old(accumulate), Tally(old(modconttab), old(account), old(records)))
      ensures accumulate == if old(account) < old(accumulate) then old(accumulate) - old(account) else old(accumulate)
      ensures raysleft == old(raysleft) && modname == old(modname) && traset == old(traset)
    {
      if accumulate <= 0 || account < accumulate {
        if account < accumulate {
          warnings := warnings + [PartialAccumulation];
          accumulate := accumulate - account;
        }
        account := 1;
        DoneContrib();
      }
    }

    /**
     * One pass of the loop of rcontrib: a zero-length ray is skipped (with
     * one warning) unless accumulate is 1; any other ray is counted, and
     * then uses up one ray of a non-zero budget. The loop stops when that
     * empties the budget.
     */
    method Step(ray: InputRay) returns (err: Option<RcError>, counted: bool, stop: bool)
      requires Valid() && lastdone == lastray
      modifies this
      ensures Valid() && accumulate == old(accumulate)
      ensures err.None? ==> lastdone == lastray
      ensures err.Some? ==> err == Some(UnexpectedModifier)
      ensures counted <==> ray.dirLength != 0.0 || accumulate == 1
      ensures !counted ==> account == old(account) && records == old(records) && raysleft == old(raysleft) && !stop && err.None?
      ensures !counted ==> modconttab == old(modconttab)
      ensures counted ==>
        var r := CountStep(old(modname), old(traset), contrib, accumulate, Tally(old(modconttab), old(account), old(records)), ray);
        (err.Some? <==> r.Err?) && (r.Ok? ==> Tally(modconttab, account, records) == r.value)
      ensures modname == old(modname) && traset == old(traset)
      ensures counted && err.None? ==>
        raysleft == (if old(raysleft) == 0 then 0 else old(raysleft) - 1) &&
        (stop <==> old(raysleft) == 1)
    {
      stop := false;
      counted := !(ray.dirLength == 0.0 && accumulate != 1);
      if !counted {
        if !ignoreWarningGiven {
          warnings := warnings + [DummyRaysIgnored];
        }
        ignoreWarningGiven := true;
        return None, counted, stop;
      }
      err := CountRay(ray);
      if err.Some? {
        return;
      }
      if raysleft != 0 {
        raysleft := raysleft - 1;
        stop := raysleft == 0;
      }
    }

    /**
     * The loop of rcontrib over the input rays, up to the end of the input
     * or the exhausted ray budget, whichever comes first: the counted rays
     * handled so far are folded into the tally, record by record.
     */
    method Loop(rays: seq<InputRay>) returns (err: Option<RcError>)
      requires Valid() && account == accumulate && lastdone == lastray
      modifies this
      ensures Valid() && accumulate == old(accumulate)
      ensures modname == old(modname) && traset == old(traset)
      ensures err.Some? ==> err == Some(UnexpectedModifier)
      ensures err.None? ==> lastdone == lastray
      ensures err.None? ==>
        raysleft == if old(raysleft) == 0 then 0 else old(raysleft) - Processed(Counted(rays, old(accumulate)), old(raysleft))
      ensures err.None? ==>
        CountAll(old(modname), old(traset), contrib, old(accumulate), Tally(old(modconttab), old(account), old(records)),
          Handled(rays, old(accumulate), old(raysleft))) == Ok(Tally(modconttab, account, records))
    {
      var k := accumulate;
      ghost var t0 := Tally(modconttab, account, records);
      assert Covers(modname, t0.table);
      var budget := raysleft;
      ghost var m: nat := 0;
      var i := 0;
      var stop := false;
      while i < |rays| && !stop
        invariant 0 <= i <= |rays| && Valid() && accumulate == k && lastdone == lastray
        invariant m == Counted(rays[..i], k)
        invariant budget == 0 ==> raysleft == 0 && !stop
        invariant budget > 0 ==> raysleft == budget - m && (stop <==> m == budget)
        invariant modname == old(modname) && traset == old(traset) && Covers(modname, t0.table)
        invariant CountAll(modname, traset, contrib, k, t0, Kept(rays[..i], k)) == Ok(Tally(modconttab, account, records))
      {
        assert rays[..i + 1][..i] == rays[..i];
        ghost var before := Kept(rays[..i], k);
        KeptNext(rays, i, k);
        ghost var pre := Tally(modconttab, account, records);
        var counted;
        err, counted, stop := Step(rays[i]);
        if err.Some? {
          return;
        }
        if counted {
          m := m + 1;
          CountAllNext(modname, traset, contrib, k, t0, before, rays[i]);
          assert CountStep(modname, traset, contrib, k, pre, rays[i]) == Ok(Tally(modconttab, account, records));
        } else {
          assert pre == Tally(modconttab, account, records);
        }
        i := i + 1;
      }
      LoopExit(rays, i, k, budget, m, stop);
      return None;
    }

    /**
     * The whole of rcontrib over the input rays: the loop, then the final
     * record and the end-of-input check. With accumulate k >= 1 and n rays
     * handled, exactly ceil(n / k) records are written; with accumulate
     * not positive, exactly one. A budget left over is an error.
     */
    method Run(rays: seq<InputRay>) returns (err: Option<RcError>)
      requires Valid() && account == accumulate && lastdone == lastray
      modifies this
      ensures Valid()
      ensures err.None? && old(accumulate) >= 1 ==>
        |records| == |old(records)| + CeilDiv(Processed(Counted(rays, old(accumulate)), old(raysleft)), old(accumulate))
      ensures err.None? && old(accumulate) <= 0 ==> |records| == |old(records)| + 1
      ensures err != Some(UnexpectedModifier) ==> (err == Some(UnexpectedEOF) <==> Counted(rays, old(accumulate)) < old(raysleft))
      ensures err.Some? ==> err == Some(UnexpectedEOF) || err == Some(UnexpectedModifier)
      ensures err != Some(UnexpectedModifier) ==>
        var r := CountAll(old(modname), old(traset), contrib, old(accumulate), Tally(old(modconttab), old(account), old(records)),
          Handled(rays, old(accumulate), old(raysleft)));
        r.Ok? && Tally(modconttab, account, records) == Final(old(modname), old(accumulate), r.value)
    {
      ghost var t0 := Tally(modconttab, account, records);
      ghost var names := modname;
      assert Covers(names, t0.table);
      err := Loop(rays);
      if err.Some? {
        return;
      }
      CountAllCounts(names, traset, contrib, accumulate, t0, Handled(rays, accumulate, old(raysleft)));
      FinalRecord();
      if raysleft != 0 {
        return Some(UnexpectedEOF);
      }
      return None;
    }
  }
}
