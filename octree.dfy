/**
 * The octree of oconv as a value: cells, cube geometry, and the recursive
 * insertion of one object (addobject) stated as a function, with the
 * invariants that insertion keeps.
 *
 * A cell is EMPTY, a full node holding an object set, or a tree node with
 * eight children.  Child i of a cube of size s has size s/2, and its origin
 * is moved by s/2 along axis j exactly when bit j of i is set.
 */
module Octree {
  import opened Wrappers

  /** Object identifiers (OBJECT): indices into the object table. */
  type ObjId = nat

  /** A point or vector with three coordinates (FVECT). */
  type Vec3 = v: seq<real> | |v| == 3 witness [0.0, 0.0, 0.0]

  /** The geometry of a CUBE: its lowest corner and its edge length. */
  datatype CubeBox = CubeBox(org: Vec3, size: real)

  /** An octree cell. A full node keeps its object set in insertion order. */
  datatype Octree = Empty | Full(oset: seq<ObjId>) | Tree(kids: seq<Octree>)

  datatype OconvError =
    | SetOverflow(obj: ObjId)     // INTERNAL "set overflow in addobject"
    | BoundAndInput               // USER "only one of '-b' or '-i'"
    | BoundaryTooSmall            // USER "boundary does not encompass scene"
    | TooManySceneFiles           // INTERNAL "too many scene files"
    | NoMinimumCube               // resolu or the derived mincusize is not positive

  /**
   * What insertion depends on: the per-type intersection test of an object
   * against a cube (0 = miss, 2 = always keep in a set, anything else = hit),
   * the set size before a split is tried (objlim), the smallest cube a split
   * may produce (mincusize) and the capacity of an object set (MAXSET).
   */
  datatype Env = Env(hit: (ObjId, CubeBox) -> int, objlim: int, mincusize: real, maxset: int)

  /** Every tree node has exactly eight children. */
  predicate WellFormed(t: Octree)
  {
    match t
    case Tree(kids) => |kids| == 8 && forall i | 0 <= i < 8 :: WellFormed(kids[i])
    case _ => true
  }

  /** Bit j of a child index, as the test (1<<j) & i. */
  function Bit(i: nat, j: nat): bool
    requires j < 3
  {
    (if j == 0 then i else if j == 1 then i / 2 else i / 4) % 2 == 1
  }

  /** The origin of child i when the child edge is h. */
  function ChildOrg(org: Vec3, i: nat, h: real): Vec3
  {
    [ if Bit(i, 0) then org[0] + h else org[0],
      if Bit(i, 1) then org[1] + h else org[1],
      if Bit(i, 2) then org[2] + h else org[2] ]
  }

  /** The cube of child i of c. */
  function ChildBox(c: CubeBox, i: nat): CubeBox
  {
    CubeBox(ChildOrg(c.org, i, c.size * 0.5), c.size * 0.5)
  }

  /** Whether point p lies in the closed cube c. */
  ghost predicate InBox(c: CubeBox, p: Vec3)
  {
    forall j | 0 <= j < 3 :: c.org[j] <= p[j] <= c.org[j] + c.size
  }

  /** A child has half the edge, lies inside its parent, and is offset on axis j exactly when bit j is set. */
  lemma ChildInsideParent(c: CubeBox, i: nat, j: nat)
    requires i < 8 && j < 3 && c.size >= 0.0
    ensures ChildBox(c, i).size * 2.0 == c.size
    ensures ChildBox(c, i).org[j] == c.org[j] + (if Bit(i, j) then ChildBox(c, i).size else 0.0)
    ensures c.org[j] <= ChildBox(c, i).org[j]
    ensures ChildBox(c, i).org[j] + ChildBox(c, i).size <= c.org[j] + c.size
  {
  }

  /** The octant of c that holds p: bit j is set when p is in the upper half on axis j. */
  function Octant(c: CubeBox, p: Vec3): (i: nat)
    ensures i < 8
  {
    var h := c.size * 0.5;
    (if p[0] >= c.org[0] + h then 1 else 0)
      + (if p[1] >= c.org[1] + h then 2 else 0)
      + (if p[2] >= c.org[2] + h then 4 else 0)
  }

  /** The eight children cover their parent: every point of c lies in the child Octant(c, p). */
  lemma ChildrenCoverParent(c: CubeBox, p: Vec3)
    requires InBox(c, p)
    ensures InBox(ChildBox(c, Octant(c, p)), p)
  {
    var i := Octant(c, p);
    var k := ChildBox(c, i);
    forall j | 0 <= j < 3
      ensures k.org[j] <= p[j] <= k.org[j] + k.size
    {
      assert Bit(i, j) <==> p[j] >= c.org[j] + c.size * 0.5;
    }
  }

  /**
   * The termination measure of insertion: how many mincusize steps fit in
   * the edge. A split needs a child edge of at least mincusize, so it
   * lowers the measure; descending into an existing tree never raises it.
   */
  function Budget(size: real, min: real): nat
    requires min > 0.0
  {
    if size <= 0.0 then 0 else (size / min).Floor
  }

  lemma BudgetHalving(size: real, min: real)
    requires min > 0.0
    ensures Budget(size * 0.5, min) <= Budget(size, min)
    ensures size * 0.5 >= min ==> Budget(size * 0.5, min) < Budget(size, min)
  {
    if size > 0.0 {
      var x := size / min;
      assert size * 0.5 / min == x / 2.0;
      var f := (x / 2.0).Floor;
      var g := x.Floor;
      assert f as real <= x / 2.0;
      assert g as real > x - 1.0;
      assert x / 2.0 <= x;
      if size * 0.5 >= min {
        assert x * min == size;
        assert x / 2.0 <= x - 1.0;
      }
    }
  }

  /**
   * addobject on a value: insert obj into cell t whose cube is c.
   * A miss leaves the cell alone; a tree node passes obj to all eight
   * children; an empty cell becomes the set {obj}; a full node takes obj
   * into its set when the test says 2, the set is below objlim, or a child
   * would be smaller than mincusize (failing on a set already at MAXSET),
   * and otherwise splits into eight empty children that each receive every
   * former member and then obj.
   */
  function Insert(t: Octree, c: CubeBox, obj: ObjId, env: Env): (r: Result<Octree, OconvError>)
    requires WellFormed(t) && env.mincusize > 0.0
    ensures r.Ok? ==> WellFormed(r.value)
    decreases Budget(c.size, env.mincusize), 1, t, 9
  {
    var inn := env.hit(obj, c);
    if inn == 0 then Ok(t)
    else
      match t
      case Tree(kids) =>
        var kids' :- InsertKids(kids, c, obj, env, 0);
        Ok(Tree(kids'))
      case Empty => Ok(Full([obj]))
      case Full(oset) =>
        if Absorbs(inn, oset, c, env) then
          if |oset| >= env.maxset then Err(SetOverflow(obj)) else Ok(Full(oset + [obj]))
        else
          BudgetHalving(c.size, env.mincusize);
          var kids :- SplitKids(oset + [obj], c, env, 0);
          Ok(Tree(kids))
  }

  /** The test of addobject that keeps a full node a set instead of splitting it. */
  predicate Absorbs(inn: int, oset: seq<ObjId>, c: CubeBox, env: Env)
  {
    inn == 2 || |oset| < env.objlim || c.size * 0.5 < env.mincusize
  }

  /** Insert obj into children i..7 of a tree node, in index order. */
  function InsertKids(kids: seq<Octree>, c: CubeBox, obj: ObjId, env: Env, i: nat): (r: Result<seq<Octree>, OconvError>)
    requires |kids| == 8 && i <= 8 && env.mincusize > 0.0
    requires forall k | 0 <= k < 8 :: WellFormed(kids[k])
    ensures r.Ok? ==> |r.value| == 8 - i && forall k | 0 <= k < |r.value| :: WellFormed(r.value[k])
    decreases Budget(c.size, env.mincusize), 1, Tree(kids), 8 - i
  {
    if i == 8 then Ok([])
    else
      BudgetHalving(c.size, env.mincusize);
      var k :- Insert(kids[i], ChildBox(c, i), obj, env);
      var rest :- InsertKids(kids, c, obj, env, i + 1);
      Ok([k] + rest)
  }

  /** Children i..7 of a split: each starts EMPTY and receives objs in order. */
  function SplitKids(objs: seq<ObjId>, c: CubeBox, env: Env, i: nat): (r: Result<seq<Octree>, OconvError>)
    requires i <= 8 && env.mincusize > 0.0 && c.size * 0.5 >= env.mincusize
    ensures r.Ok? ==> |r.value| == 8 - i && forall k | 0 <= k < |r.value| :: WellFormed(r.value[k])
    decreases Budget(c.size * 0.5, env.mincusize), 3, Empty, 8 - i
  {
    if i == 8 then Ok([])
    else
      var k :- InsertAll(Empty, ChildBox(c, i), objs, env, 0);
      var rest :- SplitKids(objs, c, env, i + 1);
      Ok([k] + rest)
  }

  /** Insert objs[j..] one after another into cell t of cube c. */
  function InsertAll(t: Octree, c: CubeBox, objs: seq<ObjId>, env: Env, j: nat): (r: Result<Octree, OconvError>)
    requires WellFormed(t) && j <= |objs| && env.mincusize > 0.0
    ensures r.Ok? ==> WellFormed(r.value)
    decreases Budget(c.size, env.mincusize), 2, Empty, |objs| - j
  {
    if j == |objs| then Ok(t)
    else
      var t' :- Insert(t, c, objs[j], env);
      InsertAll(t', c, objs, env, j + 1)
  }

  /** Prefix the successful result of the remaining children with the ones already done. */
  function Prepend(pre: seq<Octree>, r: Result<seq<Octree>, OconvError>): Result<seq<Octree>, OconvError>
  {
    if r.Ok? then Ok(pre + r.value) else r
  }

  /** One more child done: its insertion result moves from the pending part to the finished prefix. */
  lemma InsertKidsStep(kids: seq<Octree>, c: CubeBox, obj: ObjId, env: Env, i: nat, done: seq<Octree>, k: Octree)
    requires |kids| == 8 && i < 8 && env.mincusize > 0.0
    requires forall m | 0 <= m < 8 :: WellFormed(kids[m])
    requires Insert(kids[i], ChildBox(c, i), obj, env) == Ok(k)
    ensures Prepend(done, InsertKids(kids, c, obj, env, i)) == Prepend(done + [k], InsertKids(kids, c, obj, env, i + 1))
  {
    var rest := InsertKids(kids, c, obj, env, i + 1);
    if rest.Ok? {
      assert done + ([k] + rest.value) == done + [k] + rest.value;
    }
  }

  lemma SplitKidsStep(objs: seq<ObjId>, c: CubeBox, env: Env, i: nat, done: seq<Octree>, k: Octree)
    requires i < 8 && env.mincusize > 0.0 && c.size * 0.5 >= env.mincusize
    requires InsertAll(Empty, ChildBox(c, i), objs, env, 0) == Ok(k)
    ensures Prepend(done, SplitKids(objs, c, env, i)) == Prepend(done + [k], SplitKids(objs, c, env, i + 1))
  {
    var rest := SplitKids(objs, c, env, i + 1);
    if rest.Ok? {
      assert done + ([k] + rest.value) == done + [k] + rest.value;
    }
  }

  // ---------------------------------------------------------------------
  // Reading the child lists back

  lemma {:induction false} InsertKidsAt(kids: seq<Octree>, c: CubeBox, obj: ObjId, env: Env, i: nat)
    requires |kids| == 8 && i <= 8 && env.mincusize > 0.0
    requires forall k | 0 <= k < 8 :: WellFormed(kids[k])
    requires InsertKids(kids, c, obj, env, i).Ok?
    ensures forall k | 0 <= k < 8 - i ::
      Insert(kids[i + k], ChildBox(c, i + k), obj, env) == Ok(InsertKids(kids, c, obj, env, i).value[k])
    decreases 8 - i
  {
    if i < 8 {
      InsertKidsAt(kids, c, obj, env, i + 1);
    }
  }

  lemma {:induction false} SplitKidsAt(objs: seq<ObjId>, c: CubeBox, env: Env, i: nat)
    requires i <= 8 && env.mincusize > 0.0 && c.size * 0.5 >= env.mincusize
    requires SplitKids(objs, c, env, i).Ok?
    ensures forall k | 0 <= k < 8 - i ::
      InsertAll(Empty, ChildBox(c, i + k), objs, env, 0) == Ok(SplitKids(objs, c, env, i).value[k])
    decreases 8 - i
  {
    if i < 8 {
      SplitKidsAt(objs, c, env, i + 1);
    }
  }

  // ---------------------------------------------------------------------
  // Contents

  /** Object o is stored in some full node of t. */
  ghost predicate Contains(t: Octree, o: ObjId)
  {
    match t
    case Empty => false
    case Full(s) => o in s
    case Tree(kids) => exists i | 0 <= i < |kids| :: Contains(kids[i], o)
  }

  /** The set of every full node is strictly increasing. */
  ghost predicate Sorted(t: Octree)
  {
    match t
    case Empty => true
    case Full(s) => forall a, b | 0 <= a < b < |s| :: s[a] < s[b]
    case Tree(kids) => forall i | 0 <= i < |kids| :: Sorted(kids[i])
  }

  /** Every object stored in t is below bound. */
  ghost predicate AllBelow(t: Octree, bound: ObjId)
  {
    forall o: ObjId :: Contains(t, o) ==> o < bound
  }

  ghost predicate Increasing(s: seq<ObjId>)
  {
    forall a, b | 0 <= a < b < |s| :: s[a] < s[b]
  }

  /**
   * Insertion adds nothing but obj; and when every stored id is below obj
   * (main adds objects in increasing id order), appending obj to a set
   * keeps every set sorted, so the append stands for insertelem.
   */
  lemma {:induction false} InsertOnlyAdds(t: Octree, c: CubeBox, obj: ObjId, env: Env)
    requires WellFormed(t) && env.mincusize > 0.0
    requires Insert(t, c, obj, env).Ok?
    ensures forall o :: Contains(Insert(t, c, obj, env).value, o) ==> Contains(t, o) || o == obj
    ensures Sorted(t) && AllBelow(t, obj) ==> Sorted(Insert(t, c, obj, env).value)
    decreases Budget(c.size, env.mincusize), 1, t, 9
  {
    var inn := env.hit(obj, c);
    if inn != 0 {
      match t
      case Empty =>
      case Full(s) =>
        var objs := s + [obj];
        if Sorted(t) && AllBelow(t, obj) {
          forall a, b | 0 <= a < b < |objs| ensures objs[a] < objs[b] {
            if b == |s| {
              assert Contains(t, s[a]);
            }
          }
        }
        if !Absorbs(inn, s, c, env) {
          BudgetHalving(c.size, env.mincusize);
          SplitKidsOnlyAdd(objs, c, env, 0);
          var r := Insert(t, c, obj, env).value;
          forall o | Contains(r, o) ensures o in objs {
            var k :| 0 <= k < 8 && Contains(r.kids[k], o);
          }
        }
      case Tree(kids) =>
        InsertKidsOnlyAdd(kids, c, obj, env, 0);
        var r := Insert(t, c, obj, env).value;
        forall o | Contains(r, o) ensures Contains(t, o) || o == obj {
          var k :| 0 <= k < 8 && Contains(r.kids[k], o);
        }
        if Sorted(t) && AllBelow(t, obj) {
          forall k | 0 <= k < 8 ensures AllBelow(kids[k], obj) {
            forall o: ObjId | Contains(kids[k], o) ensures o < obj {
              assert Contains(t, o);
            }
          }
        }
    }
  }

  lemma {:induction false} InsertKidsOnlyAdd(kids: seq<Octree>, c: CubeBox, obj: ObjId, env: Env, i: nat)
    requires |kids| == 8 && i <= 8 && env.mincusize > 0.0
    requires forall k | 0 <= k < 8 :: WellFormed(kids[k])
    requires InsertKids(kids, c, obj, env, i).Ok?
    ensures forall k, o | 0 <= k < 8 - i && Contains(InsertKids(kids, c, obj, env, i).value[k], o) ::
      Contains(kids[i + k], o) || o == obj
    ensures forall k | 0 <= k < 8 - i && Sorted(kids[i + k]) && AllBelow(kids[i + k], obj) ::
      Sorted(InsertKids(kids, c, obj, env, i).value[k])
    decreases Budget(c.size, env.mincusize), 1, Tree(kids), 8 - i
  {
    if i < 8 {
      BudgetHalving(c.size, env.mincusize);
      InsertOnlyAdds(kids[i], ChildBox(c, i), obj, env);
      InsertKidsOnlyAdd(kids, c, obj, env, i + 1);
    }
  }

  lemma {:induction false} SplitKidsOnlyAdd(objs: seq<ObjId>, c: CubeBox, env: Env, i: nat)
    requires i <= 8 && env.mincusize > 0.0 && c.size * 0.5 >= env.mincusize
    requires SplitKids(objs, c, env, i).Ok?
    ensures forall k, o | 0 <= k < 8 - i && Contains(SplitKids(objs, c, env, i).value[k], o) :: o in objs
    ensures Increasing(objs) ==> forall k | 0 <= k < 8 - i :: Sorted(SplitKids(objs, c, env, i).value[k])
    decreases Budget(c.size * 0.5, env.mincusize), 3, Empty, 8 - i
  {
    if i < 8 {
      InsertAllOnlyAdds(Empty, ChildBox(c, i), objs, env, 0);
      SplitKidsOnlyAdd(objs, c, env, i + 1);
    }
  }

  lemma {:induction false} InsertAllOnlyAdds(t: Octree, c: CubeBox, objs: seq<ObjId>, env: Env, j: nat)
    requires WellFormed(t) && j <= |objs| && env.mincusize > 0.0
    requires InsertAll(t, c, objs, env, j).Ok?
    ensures forall o :: Contains(InsertAll(t, c, objs, env, j).value, o) ==> Contains(t, o) || o in objs[j..]
    ensures Sorted(t) && Increasing(objs) && (j < |objs| ==> AllBelow(t, objs[j])) ==>
      Sorted(InsertAll(t, c, objs, env, j).value)
    decreases Budget(c.size, env.mincusize), 2, Empty, |objs| - j
  {
    if j < |objs| {
      InsertOnlyAdds(t, c, objs[j], env);
      var t' := Insert(t, c, objs[j], env).value;
      InsertAllOnlyAdds(t', c, objs, env, j + 1);
      if Sorted(t) && Increasing(objs) && AllBelow(t, objs[j]) && j + 1 < |objs| {
        forall o | Contains(t', o) ensures o < objs[j + 1] {
        }
      }
    }
  }

  // ---------------------------------------------------------------------
  // Soundness: what every cell of a tree built by addobject satisfies

  /**
   * Every object in a full node passed a non-zero test against that node's
   * cube, no set exceeds MAXSET, and every tree node has children of at
   * least mincusize.
   */
  ghost predicate Sound(t: Octree, c: CubeBox, env: Env)
  {
    match t
    case Empty => true
    case Full(s) => |s| <= env.maxset && forall o | o in s :: env.hit(o, c) != 0
    case Tree(kids) =>
      c.size * 0.5 >= env.mincusize &&
      forall i | 0 <= i < |kids| :: Sound(kids[i], ChildBox(c, i), env)
  }

  lemma {:induction false} InsertSound(t: Octree, c: CubeBox, obj: ObjId, env: Env)
    requires WellFormed(t) && env.mincusize > 0.0 && env.maxset >= 1 && Sound(t, c, env)
    requires Insert(t, c, obj, env).Ok?
    ensures Sound(Insert(t, c, obj, env).value, c, env)
    decreases Budget(c.size, env.mincusize), 1, t, 9
  {
    var inn := env.hit(obj, c);
    if inn != 0 {
      match t
      case Empty =>
      case Full(s) =>
        if !Absorbs(inn, s, c, env) {
          BudgetHalving(c.size, env.mincusize);
          SplitKidsSound(s + [obj], c, env, 0);
        }
      case Tree(kids) =>
        InsertKidsSound(kids, c, obj, env, 0);
    }
  }

  lemma {:induction false} InsertKidsSound(kids: seq<Octree>, c: CubeBox, obj: ObjId, env: Env, i: nat)
    requires |kids| == 8 && i <= 8 && env.mincusize > 0.0 && env.maxset >= 1
    requires forall k | 0 <= k < 8 :: WellFormed(kids[k])
    requires forall k | i <= k < 8 :: Sound(kids[k], ChildBox(c, k), env)
    requires InsertKids(kids, c, obj, env, i).Ok?
    ensures forall k | 0 <= k < 8 - i :: Sound(InsertKids(kids, c, obj, env, i).value[k], ChildBox(c, i + k), env)
    decreases Budget(c.size, env.mincusize), 1, Tree(kids), 8 - i
  {
    if i < 8 {
      BudgetHalving(c.size, env.mincusize);
      InsertSound(kids[i], ChildBox(c, i), obj, env);
      InsertKidsSound(kids, c, obj, env, i + 1);
    }
  }

  lemma {:induction false} SplitKidsSound(objs: seq<ObjId>, c: CubeBox, env: Env, i: nat)
    requires i <= 8 && env.mincusize > 0.0 && env.maxset >= 1 && c.size * 0.5 >= env.mincusize
    requires SplitKids(objs, c, env, i).Ok?
    ensures forall k | 0 <= k < 8 - i :: Sound(SplitKids(objs, c, env, i).value[k], ChildBox(c, i + k), env)
    decreases Budget(c.size * 0.5, env.mincusize), 3, Empty, 8 - i
  {
    if i < 8 {
      InsertAllSound(Empty, ChildBox(c, i), objs, env, 0);
      SplitKidsSound(objs, c, env, i + 1);
    }
  }

  lemma {:induction false} InsertAllSound(t: Octree, c: CubeBox, objs: seq<ObjId>, env: Env, j: nat)
    requires WellFormed(t) && j <= |objs| && env.mincusize > 0.0 && env.maxset >= 1 && Sound(t, c, env)
    requires InsertAll(t, c, objs, env, j).Ok?
    ensures Sound(InsertAll(t, c, objs, env, j).value, c, env)
    decreases Budget(c.size, env.mincusize), 2, Empty, |objs| - j
  {
    if j < |objs| {
      InsertSound(t, c, objs[j], env);
      InsertAllSound(Insert(t, c, objs[j], env).value, c, objs, env, j + 1);
    }
  }

  // ---------------------------------------------------------------------
  // Nothing is lost

  /**
   * The property of a geometric intersection test that makes subdivision
   * lossless: whatever meets a cube meets at least one of its octants.
   */
  ghost predicate Consistent(hit: (ObjId, CubeBox) -> int)
  {
    forall o, c :: Splits(hit, o, c)
  }

  /** If o meets c then o meets one of the octants of c. */
  ghost predicate Splits(hit: (ObjId, CubeBox) -> int, o: ObjId, c: CubeBox)
  {
    hit(o, c) != 0 ==> exists i | 0 <= i < 8 :: hit(o, ChildBox(c, i)) != 0
  }

  /**
   * With a consistent test, insertion keeps every stored object (a split
   * re-inserts each former member into the octants it meets) and stores
   * obj whenever obj meets the cube.
   */
  lemma {:induction false} InsertKeeps(t: Octree, c: CubeBox, obj: ObjId, env: Env)
    requires WellFormed(t) && env.mincusize > 0.0 && env.maxset >= 1 && Sound(t, c, env) && Consistent(env.hit)
    requires Insert(t, c, obj, env).Ok?
    ensures forall o :: Contains(t, o) ==> Contains(Insert(t, c, obj, env).value, o)
    ensures env.hit(obj, c) != 0 ==> Contains(Insert(t, c, obj, env).value, obj)
    decreases Budget(c.size, env.mincusize), 1, t, 9
  {
    var inn := env.hit(obj, c);
    if inn != 0 {
      var r := Insert(t, c, obj, env).value;
      match t
      case Empty =>
      case Full(s) =>
        if !Absorbs(inn, s, c, env) {
          BudgetHalving(c.size, env.mincusize);
          var objs := s + [obj];
          SplitKidsKeep(objs, c, env, 0);
          forall p | 0 <= p < |objs| ensures Contains(r, objs[p]) {
            assert env.hit(objs[p], c) != 0;
            assert Splits(env.hit, objs[p], c);
            var k :| 0 <= k < 8 && env.hit(objs[p], ChildBox(c, k)) != 0;
            assert Contains(r.kids[k], objs[p]);
          }
          forall o | Contains(t, o) ensures Contains(r, o) {
            var p :| 0 <= p < |s| && s[p] == o;
            assert objs[p] == o;
          }
          assert objs[|s|] == obj;
        }
      case Tree(kids) =>
        InsertKidsKeep(kids, c, obj, env, 0);
        forall o | Contains(t, o) ensures Contains(r, o) {
          var k :| 0 <= k < 8 && Contains(kids[k], o);
          assert Contains(r.kids[k], o);
        }
        assert Splits(env.hit, obj, c);
        var k :| 0 <= k < 8 && env.hit(obj, ChildBox(c, k)) != 0;
        assert Contains(r.kids[k], obj);
    }
  }

  lemma {:induction false} InsertKidsKeep(kids: seq<Octree>, c: CubeBox, obj: ObjId, env: Env, i: nat)
    requires |kids| == 8 && i <= 8 && env.mincusize > 0.0 && env.maxset >= 1 && Consistent(env.hit)
    requires forall k | 0 <= k < 8 :: WellFormed(kids[k])
    requires forall k | i <= k < 8 :: Sound(kids[k], ChildBox(c, k), env)
    requires InsertKids(kids, c, obj, env, i).Ok?
    ensures forall k, o | 0 <= k < 8 - i && Contains(kids[i + k], o) ::
      Contains(InsertKids(kids, c, obj, env, i).value[k], o)
    ensures forall k | 0 <= k < 8 - i && env.hit(obj, ChildBox(c, i + k)) != 0 ::
      Contains(InsertKids(kids, c, obj, env, i).value[k], obj)
    decreases Budget(c.size, env.mincusize), 1, Tree(kids), 8 - i
  {
    if i < 8 {
      BudgetHalving(c.size, env.mincusize);
      InsertKeeps(kids[i], ChildBox(c, i), obj, env);
      InsertKidsKeep(kids, c, obj, env, i + 1);
    }
  }

  lemma {:induction false} SplitKidsKeep(objs: seq<ObjId>, c: CubeBox, env: Env, i: nat)
    requires i <= 8 && env.mincusize > 0.0 && env.maxset >= 1 && c.size * 0.5 >= env.mincusize && Consistent(env.hit)
    requires SplitKids(objs, c, env, i).Ok?
    ensures forall k, p | 0 <= k < 8 - i && 0 <= p < |objs| && env.hit(objs[p], ChildBox(c, i + k)) != 0 ::
      Contains(SplitKids(objs, c, env, i).value[k], objs[p])
    decreases Budget(c.size * 0.5, env.mincusize), 3, Empty, 8 - i
  {
    if i < 8 {
      InsertAllKeeps(Empty, ChildBox(c, i), objs, env, 0);
      SplitKidsKeep(objs, c, env, i + 1);
    }
  }

  lemma {:induction false} InsertAllKeeps(t: Octree, c: CubeBox, objs: seq<ObjId>, env: Env, j: nat)
    requires WellFormed(t) && j <= |objs| && env.mincusize > 0.0 && env.maxset >= 1 && Sound(t, c, env) && Consistent(env.hit)
    requires InsertAll(t, c, objs, env, j).Ok?
    ensures forall o :: Contains(t, o) ==> Contains(InsertAll(t, c, objs, env, j).value, o)
    ensures forall p | j <= p < |objs| && env.hit(objs[p], c) != 0 ::
      Contains(InsertAll(t, c, objs, env, j).value, objs[p])
    decreases Budget(c.size, env.mincusize), 2, Empty, |objs| - j
  {
    if j < |objs| {
      InsertKeeps(t, c, objs[j], env);
      InsertSound(t, c, objs[j], env);
      InsertAllKeeps(Insert(t, c, objs[j], env).value, c, objs, env, j + 1);
    }
  }

  // ---------------------------------------------------------------------
  // Bounded depth

  function Pow2(d: nat): nat
  {
    if d == 0 then 1 else 2 * Pow2(d - 1)
  }

  /** t has no more than d levels of tree nodes. */
  ghost predicate DepthAtMost(t: Octree, d: nat)
  {
    match t
    case Tree(kids) => d >= 1 && forall i | 0 <= i < |kids| :: DepthAtMost(kids[i], d - 1)
    case _ => true
  }

  /**
   * Because a split needs children of at least mincusize and each level
   * halves the edge, a sound tree over a cube of edge below
   * 2^(d+1) * mincusize has at most d levels of tree nodes.
   */
  lemma {:induction false} SoundDepthBound(t: Octree, c: CubeBox, env: Env, d: nat)
    requires env.mincusize > 0.0 && Sound(t, c, env)
    requires c.size < Pow2(d + 1) as real * env.mincusize
    ensures DepthAtMost(t, d)
    decreases d
  {
    match t
    case Tree(kids) =>
      if d == 0 {
        assert false;
      }
      forall i | 0 <= i < |kids| ensures DepthAtMost(kids[i], d - 1) {
        assert Pow2(d + 1) as real * env.mincusize == 2.0 * (Pow2(d) as real * env.mincusize);
        SoundDepthBound(kids[i], ChildBox(c, i), env, d - 1);
      }
    case _ =>
  }
}
