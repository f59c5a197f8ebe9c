/**
 * oconv's scene conversion: the in-place octree insertion addobject and
 * the part of main that reads an old octree, counts scene files, finds
 * the bounding box of the new objects, sets or checks the scene cube,
 * derives the minimum cube size and adds the new objects one by one.
 */
module Oconv {
  import opened Wrappers
  import opened Octree

  /** Tolerance of the ray tracer's floating-point comparisons (double build). */
  const FTINY: real := 0.000001
  /** The "infinite" coordinate used to start a bounding box. */
  const FHUGE: real := 10000000000.0
  /** Margin around the global cube. */
  const OMARGIN: real := 10.0 * FTINY
  /** Maximum number of scene files. */
  const MAXOBJFIL: nat := 63
  /** Default number of objects in a set before it is split. */
  const DEFAULT_OBJLIM: int := 5
  /** Default octree resolution limit. */
  const DEFAULT_RESOLU: int := 1024

  /** A CUBE: a cell together with its geometry, updated in place. */
  class Cube {
    var cutree: Octree
    var cuorg: Vec3
    var cusize: real

    constructor (t: Octree, org: Vec3, size: real)
      ensures cutree == t && cuorg == org && cusize == size
    {
      cutree := t;
      cuorg := org;
      cusize := size;
    }

    function Box(): (b: CubeBox)
      reads this
      ensures b.org == cuorg && b.size == cusize
    {
      CubeBox(cuorg, cusize)
    }
  }

  /**
   * Place kid as child i of a cube with origin org: the edge is already
   * set in kid; each coordinate moves up by that edge when bit j of i is set.
   */
  method SetChildOrigin(kid: Cube, org: Vec3, i: nat)
    requires i < 8
    modifies kid
    ensures kid.cuorg == ChildOrg(org, i, kid.cusize)
    ensures kid.cutree == old(kid.cutree) && kid.cusize == old(kid.cusize)
  {
    var o := org;
    for j := 0 to 3
      invariant |o| == 3
      invariant forall m | 0 <= m < j :: o[m] == ChildOrg(org, i, kid.cusize)[m]
      invariant forall m | j <= m < 3 :: o[m] == org[m]
    {
      if Bit(i, j) {
        o := o[j := org[j] + kid.cusize];
      }
    }
    kid.cuorg := o;
  }

  /**
   * addobject: add obj to the cube cu in place. The result is the error
   * that aborts oconv, or None with cu's tree replaced by the insertion
   * result; cu's geometry never changes.
   */
  method AddObject(cu: Cube, obj: ObjId, env: Env) returns (err: Option<OconvError>)
    requires WellFormed(cu.cutree) && env.mincusize > 0.0
    modifies cu
    ensures cu.cuorg == old(cu.cuorg) && cu.cusize == old(cu.cusize)
    ensures Insert(old(cu.cutree), old(cu.Box()), obj, env) ==
      if err.None? then Ok(cu.cutree) else Err(err.value)
    decreases Budget(cu.cusize, env.mincusize), 1, cu.cutree, 9
  {
    var inn := env.hit(obj, cu.Box());
    if inn == 0 {
      return None;
    }
    match cu.cutree
    case Tree(kids) =>
      err := AddToChildren(cu, kids, obj, env);
    case Empty =>
      cu.cutree := Full([obj]);
      err := None;
    case Full(oset) =>
      if Absorbs(inn, oset, cu.Box(), env) {
        if |oset| >= env.maxset {
          return Some(SetOverflow(obj));
        }
        cu.cutree := Full(oset + [obj]);
        err := None;
      } else {
        err := Subdivide(cu, oset, obj, env);
      }
  }

  /** The tree branch of addobject: obj goes to each of the eight children, whose slots are overwritten in turn. */
  method AddToChildren(cu: Cube, kids0: seq<Octree>, obj: ObjId, env: Env) returns (err: Option<OconvError>)
    requires cu.cutree == Tree(kids0) && WellFormed(cu.cutree) && env.mincusize > 0.0
    modifies cu
    ensures cu.cuorg == old(cu.cuorg) && cu.cusize == old(cu.cusize)
    ensures err.None? ==> cu.cutree.Tree? && InsertKids(kids0, old(cu.Box()), obj, env, 0) == Ok(cu.cutree.kids)
    ensures err.Some? ==> InsertKids(kids0, old(cu.Box()), obj, env, 0) == Err(err.value)
    decreases Budget(cu.cusize, env.mincusize), 1, cu.cutree, 8
  {
    var box := cu.Box();
    BudgetHalving(cu.cusize, env.mincusize);
    var kid := new Cube(Empty, cu.cuorg, cu.cusize * 0.5);
    var kids := kids0;
    assert Prepend(kids[..0], InsertKids(kids0, box, obj, env, 0)) == InsertKids(kids0, box, obj, env, 0) by {
      assert kids[..0] == [];
      if InsertKids(kids0, box, obj, env, 0).Ok? {
        assert [] + InsertKids(kids0, box, obj, env, 0).value == InsertKids(kids0, box, obj, env, 0).value;
      }
    }
    for i := 0 to 8
      invariant cu.cuorg == box.org && cu.cusize == box.size
      invariant kid.cusize == box.size * 0.5
      invariant |kids| == 8 && kids[i..] == kids0[i..]
      invariant forall k | 0 <= k < 8 :: WellFormed(kids[k])
      invariant cu.cutree == Tree(kids)
      invariant InsertKids(kids0, box, obj, env, 0) == Prepend(kids[..i], InsertKids(kids0, box, obj, env, i))
    {
      kid.cutree := kids[i];
      SetChildOrigin(kid, cu.cuorg, i);
      assert kid.Box() == ChildBox(box, i);
      err := AddObject(kid, obj, env);
      if err.Some? {
        return;
      }
      InsertKidsStep(kids0, box, obj, env, i, kids[..i], kid.cutree);
      assert kids[i := kid.cutree][..i + 1] == kids[..i] + [kid.cutree];
      kids := kids[i := kid.cutree];
      cu.cutree := Tree(kids);
    }
    assert kids[..8] + [] == kids;
    return None;
  }

  /**
   * The split branch of addobject: a fresh tree node whose eight children
   * start EMPTY and each receive every former member, then obj.
   */
  method Subdivide(cu: Cube, oset: seq<ObjId>, obj: ObjId, env: Env) returns (err: Option<OconvError>)
    requires cu.cutree == Full(oset) && env.mincusize > 0.0 && cu.cusize * 0.5 >= env.mincusize
    modifies cu
    ensures cu.cuorg == old(cu.cuorg) && cu.cusize == old(cu.cusize)
    ensures err.None? ==> cu.cutree.Tree? && SplitKids(oset + [obj], old(cu.Box()), env, 0) == Ok(cu.cutree.kids)
    ensures err.Some? ==> SplitKids(oset + [obj], old(cu.Box()), env, 0) == Err(err.value)
    decreases Budget(cu.cusize, env.mincusize), 1, cu.cutree, 8
  {
    var box := cu.Box();
    BudgetHalving(cu.cusize, env.mincusize);
    var objs := oset + [obj];
    var kid := new Cube(Empty, cu.cuorg, cu.cusize * 0.5);
    var kids: seq<Octree> := [];
    assert Prepend(kids, SplitKids(objs, box, env, 0)) == SplitKids(objs, box, env, 0) by {
      if SplitKids(objs, box, env, 0).Ok? {
        assert [] + SplitKids(objs, box, env, 0).value == SplitKids(objs, box, env, 0).value;
      }
    }
    for i := 0 to 8
      invariant cu.cuorg == box.org && cu.cusize == box.size && cu.cutree == old(cu.cutree)
      invariant kid.cusize == box.size * 0.5
      invariant |kids| == i
      invariant SplitKids(objs, box, env, 0) == Prepend(kids, SplitKids(objs, box, env, i))
    {
      kid.cutree := Empty;
      SetChildOrigin(kid, cu.cuorg, i);
      assert kid.Box() == ChildBox(box, i);
      err := FillChild(kid, oset, obj, env);
      if err.Some? {
        return;
      }
      SplitKidsStep(objs, box, env, i, kids, kid.cutree);
      kids := kids + [kid.cutree];
    }
    assert kids + [] == kids;
    cu.cutree := Tree(kids);
    return None;
  }

  /** One child of a split: add each former member, then obj. */
  method FillChild(kid: Cube, oset: seq<ObjId>, obj: ObjId, env: Env) returns (err: Option<OconvError>)
    requires kid.cutree == Empty && env.mincusize > 0.0
    modifies kid
    ensures kid.cuorg == old(kid.cuorg) && kid.cusize == old(kid.cusize)
    ensures InsertAll(Empty, old(kid.Box()), oset + [obj], env, 0) ==
      if err.None? then Ok(kid.cutree) else Err(err.value)
    decreases Budget(kid.cusize, env.mincusize), 2, Empty, |oset| + 1
  {
    var kbox := kid.Box();
    var objs := oset + [obj];
    for j := 0 to |oset|
      invariant kid.cuorg == kbox.org && kid.cusize == kbox.size
      invariant WellFormed(kid.cutree)
      invariant InsertAll(Empty, kbox, objs, env, 0) == InsertAll(kid.cutree, kbox, objs, env, j)
    {
      assert objs[j] == oset[j];
      err := AddObject(kid, oset[j], env);
      if err.Some? {
        return;
      }
    }
    err := AddObject(kid, obj, env);
    if err.Some? {
      return;
    }
    assert InsertAll(kid.cutree, kbox, objs, env, |objs|) == Ok(kid.cutree);
  }

  /** The extent of one object, as add2bbox grows a box to hold it. */
  datatype Extent = Extent(lo: Vec3, hi: Vec3)

  function Min(a: real, b: real): real { if a <= b then a else b }
  function Max(a: real, b: real): real { if a >= b then a else b }

  /** Coordinate j of the low corner of the box grown over exts, starting at FHUGE. */
  function LowCorner(exts: seq<Extent>, j: nat): (r: real)
    requires j < 3
    ensures r <= FHUGE
    ensures forall k | 0 <= k < |exts| :: r <= exts[k].lo[j]
    ensures r == FHUGE || exists k | 0 <= k < |exts| :: r == exts[k].lo[j]
  {
    if exts == [] then FHUGE
    else Min(LowCorner(exts[..|exts| - 1], j), exts[|exts| - 1].lo[j])
  }

  /** Coordinate j of the high corner of the box grown over exts, starting at -FHUGE. */
  function HighCorner(exts: seq<Extent>, j: nat): (r: real)
    requires j < 3
    ensures r >= -FHUGE
    ensures forall k | 0 <= k < |exts| :: r >= exts[k].hi[j]
    ensures r == -FHUGE || exists k | 0 <= k < |exts| :: r == exts[k].hi[j]
  {
    if exts == [] then -FHUGE
    else Max(HighCorner(exts[..|exts| - 1], j), exts[|exts| - 1].hi[j])
  }

  /** The bounding box is empty (low above high) exactly when there are no objects. */
  lemma {:induction false} BoundingBoxEmptyIff(exts: seq<Extent>)
    requires forall k | 0 <= k < |exts| :: -FHUGE <= exts[k].lo[0] <= exts[k].hi[0] <= FHUGE
    ensures LowCorner(exts, 0) <= HighCorner(exts, 0) <==> |exts| > 0
  {
    if |exts| > 0 {
      assert LowCorner(exts, 0) <= exts[0].lo[0] <= exts[0].hi[0] <= HighCorner(exts, 0);
    }
  }

  /** The three corner coordinates of the bounding box of exts. */
  function Corners(exts: seq<Extent>): (r: (Vec3, Vec3))
  {
    ([LowCorner(exts, 0), LowCorner(exts, 1), LowCorner(exts, 2)],
     [HighCorner(exts, 0), HighCorner(exts, 1), HighCorner(exts, 2)])
  }

  /** The edge the cube gets when no fixed cube was given: the largest margin-expanded extent. */
  function FitSize(lo: Vec3, hi: Vec3): (s: real)
    ensures s >= 0.0
    ensures forall j | 0 <= j < 3 :: s >= (hi[j] + OMARGIN) - (lo[j] - OMARGIN)
    ensures s == 0.0 || exists j | 0 <= j < 3 :: s == (hi[j] + OMARGIN) - (lo[j] - OMARGIN)
  {
    var e0 := (hi[0] + OMARGIN) - (lo[0] - OMARGIN);
    var e1 := (hi[1] + OMARGIN) - (lo[1] - OMARGIN);
    var e2 := (hi[2] + OMARGIN) - (lo[2] - OMARGIN);
    Max(Max(Max(0.0, e0), e1), e2)
  }

  /** The cube centred on the margin-expanded box lo..hi with edge FitSize. */
  function FitCube(lo: Vec3, hi: Vec3): CubeBox
  {
    var s := FitSize(lo, hi);
    CubeBox([ (hi[0] + OMARGIN + (lo[0] - OMARGIN) - s) * 0.5,
              (hi[1] + OMARGIN + (lo[1] - OMARGIN) - s) * 0.5,
              (hi[2] + OMARGIN + (lo[2] - OMARGIN) - s) * 0.5 ], s)
  }

  /** The cube encloses the box lo..hi with at least OMARGIN to spare on every side. */
  predicate EnclosesWithMargin(c: CubeBox, lo: Vec3, hi: Vec3)
  {
    forall j | 0 <= j < 3 :: c.org[j] <= lo[j] - OMARGIN && hi[j] + OMARGIN <= c.org[j] + c.size
  }

  /** The fitted cube contains the margin-expanded bounding box and is centred on it. */
  lemma FitCubeEncloses(lo: Vec3, hi: Vec3)
    ensures EnclosesWithMargin(FitCube(lo, hi), lo, hi)
    ensures forall j | 0 <= j < 3 ::
      FitCube(lo, hi).org[j] + FitCube(lo, hi).size * 0.5 == (lo[j] + hi[j]) * 0.5
  {
  }

  /** A given cube fails the check of main when some bounding-box coordinate lies outside it. */
  predicate Encompasses(c: CubeBox, lo: Vec3, hi: Vec3)
  {
    forall j | 0 <= j < 3 :: c.org[j] <= lo[j] && hi[j] <= c.org[j] + c.size
  }

  /** The ids of the objects added by this run, startobj up to nobjects - 1. */
  function NewIds(start: nat, n: nat): (ids: seq<ObjId>)
    ensures |ids| == n && forall k | 0 <= k < n :: ids[k] == start + k
  {
    seq(n, k => start + k)
  }

  /**
   * What the scene tree built by main satisfies when every new object
   * passed through addobject: every leaf is sound, every new object that
   * meets the scene cube is stored, nothing else is added, sets stay
   * sorted, and the tree depth is bounded by the ratio of cube edge to
   * mincusize.
   */
  lemma SceneInvariants(tree0: Octree, box: CubeBox, start: nat, n: nat, env: Env, d: nat)
    requires WellFormed(tree0) && env.mincusize > 0.0 && env.maxset >= 1 && Sound(tree0, box, env)
    requires InsertAll(tree0, box, NewIds(start, n), env, 0).Ok?
    requires box.size < Pow2(d + 1) as real * env.mincusize
    ensures var t := InsertAll(tree0, box, NewIds(start, n), env, 0).value;
      Sound(t, box, env) && DepthAtMost(t, d) &&
      (forall o: ObjId :: Contains(t, o) ==> Contains(tree0, o) || start <= o < start + n) &&
      (Consistent(env.hit) ==> forall o | Contains(tree0, o) :: Contains(t, o)) &&
      (Consistent(env.hit) ==> forall o | start <= o < start + n && env.hit(o, box) != 0 :: Contains(t, o)) &&
      (Sorted(tree0) && AllBelow(tree0, start) ==> Sorted(t))
  {
    var ids := NewIds(start, n);
    var t := InsertAll(tree0, box, ids, env, 0).value;
    InsertAllSound(tree0, box, ids, env, 0);
    SoundDepthBound(t, box, env, d);
    InsertAllOnlyAdds(tree0, box, ids, env, 0);
    forall o: ObjId | Contains(t, o) ensures Contains(tree0, o) || start <= o < start + n {
      if !Contains(tree0, o) {
        assert o in ids[0..];
      }
    }
    if Consistent(env.hit) {
      InsertAllKeeps(tree0, box, ids, env, 0);
      forall o | start <= o < start + n && env.hit(o, box) != 0 ensures Contains(t, o) {
        assert ids[o - start] == o;
      }
    }
  }

  /** An octree read back with -i: its scene cube, its file names and the number of objects it holds. */
  datatype SavedOctree = SavedOctree(tree: Octree, org: Vec3, size: real, files: seq<string>, nobjects: nat)

  /** The tree the new objects go into: the one read back, or the scene's own. */
  function StartTree(input: Option<SavedOctree>, t: Octree): Octree
  {
    if input.Some? then input.value.tree else t
  }

  /** The cube edge before it is set or checked: the one read back, or the scene's own. */
  function StartSize(input: Option<SavedOctree>, size: real): real
  {
    if input.Some? then input.value.size else size
  }

  /** The global state of oconv that main works on. */
  class Converter {
    const thescene: Cube
    var objlim: int
    var resolu: int
    var mincusize: real
    var ofname: seq<string>
    var nobjects: nat
    var frozen: bool

    constructor ()
      ensures thescene.cutree == Empty && thescene.cuorg == [0.0, 0.0, 0.0] && thescene.cusize == 0.0
      ensures objlim == DEFAULT_OBJLIM && resolu == DEFAULT_RESOLU
      ensures ofname == [] && nobjects == 0 && !frozen
      ensures fresh(thescene)
    {
      thescene := new Cube(Empty, [0.0, 0.0, 0.0], 0.0);
      objlim := DEFAULT_OBJLIM;
      resolu := DEFAULT_RESOLU;
      mincusize := 0.0;
      ofname := [];
      nobjects := 0;
      frozen := false;
    }

    /** The -b option: a fixed cube, widened by OMARGIN on every side. */
    method SetBound(x: real, y: real, z: real, size: real)
      modifies thescene
      ensures thescene.cuorg == [x - OMARGIN, y - OMARGIN, z - OMARGIN]
      ensures thescene.cusize == size + 2.0 * OMARGIN
      ensures thescene.cutree == old(thescene.cutree)
    {
      thescene.cuorg := [x - OMARGIN, y - OMARGIN, z - OMARGIN];
      thescene.cusize := size + 2.0 * OMARGIN;
    }

    /**
     * -i: load an old octree, refused when -b gave a cube. An octree
     * without file names is frozen.
     */
    method ReadInput(saved: SavedOctree) returns (err: Option<OconvError>)
      modifies this, thescene
      ensures old(thescene.cusize) > FTINY <==> err == Some(BoundAndInput)
      ensures err.None? ==>
        thescene.cutree == saved.tree && thescene.cuorg == saved.org && thescene.cusize == saved.size &&
        ofname == saved.files && nobjects == saved.nobjects &&
        frozen == (old(frozen) || saved.files == [])
      ensures objlim == old(objlim) && resolu == old(resolu)
    {
      if thescene.cusize > FTINY {
        return Some(BoundAndInput);
      }
      thescene.cutree := saved.tree;
      thescene.cuorg := saved.org;
      thescene.cusize := saved.size;
      ofname := saved.files;
      nobjects := saved.nobjects;
      if |ofname| == 0 && !frozen {
        frozen := true;
      }
      return None;
    }

    /** Record the new scene files, refusing the one that would exceed MAXOBJFIL. */
    method AddSceneFiles(files: seq<string>) returns (err: Option<OconvError>)
      modifies this
      ensures err.None? <==> |old(ofname)| + |files| <= MAXOBJFIL || files == []
      ensures err.Some? ==> err.value == TooManySceneFiles
      ensures err.None? ==> ofname == old(ofname) + files
      ensures nobjects == old(nobjects)
      ensures objlim == old(objlim) && resolu == old(resolu)
    {
      for i := 0 to |files|
        invariant ofname == old(ofname) + files[..i]
        invariant i > 0 ==> |old(ofname)| + i <= MAXOBJFIL
        invariant nobjects == old(nobjects) && objlim == old(objlim) && resolu == old(resolu)
      {
        if |ofname| >= MAXOBJFIL {
          return Some(TooManySceneFiles);
        }
        ofname := ofname + [files[i]];
      }
      assert files[..|files|] == files;
      return None;
    }

    /** The bounding box of the new objects, grown one object at a time from an inverted box. */
    static method BoundingBox(exts: seq<Extent>) returns (bbmin: Vec3, bbmax: Vec3)
      ensures (bbmin, bbmax) == Corners(exts)
    {
      bbmin := [FHUGE, FHUGE, FHUGE];
      bbmax := [-FHUGE, -FHUGE, -FHUGE];
      for i := 0 to |exts|
        invariant (bbmin, bbmax) == Corners(exts[..i])
      {
        assert exts[..i + 1][..i] == exts[..i];
        var e := exts[i];
        bbmin := [Min(bbmin[0], e.lo[0]), Min(bbmin[1], e.lo[1]), Min(bbmin[2], e.lo[2])];
        bbmax := [Max(bbmax[0], e.hi[0]), Max(bbmax[1], e.hi[1]), Max(bbmax[2], e.hi[2])];
      }
      assert exts[..|exts|] == exts;
    }

    /**
     * Set or check the scene cube. Without a cube (edge 0) and with a
     * non-empty box, the cube is fitted around it; with a cube, a box
     * reaching outside it is an error.
     */
    method SetCube(bbmin: Vec3, bbmax: Vec3) returns (err: Option<OconvError>)
      modifies thescene
      ensures thescene.cutree == old(thescene.cutree)
      ensures old(thescene.cusize) == 0.0 ==> err.None?
      ensures old(thescene.cusize) == 0.0 && bbmin[0] <= bbmax[0] ==> thescene.Box() == FitCube(bbmin, bbmax)
      ensures old(thescene.cusize) == 0.0 && bbmin[0] > bbmax[0] ==> thescene.Box() == old(thescene.Box())
      ensures old(thescene.cusize) != 0.0 ==>
        thescene.Box() == old(thescene.Box()) &&
        (err.None? <==> Encompasses(thescene.Box(), bbmin, bbmax)) &&
        (err.Some? ==> err.value == BoundaryTooSmall)
    {
      if thescene.cusize == 0.0 {
        if bbmin[0] <= bbmax[0] {
          var lo := bbmin;
          var hi := bbmax;
          for i := 0 to 3
            invariant |lo| == 3 && |hi| == 3
            invariant forall m | 0 <= m < 3 :: lo[m] == bbmin[m] - (if m < i then OMARGIN else 0.0)
            invariant forall m | 0 <= m < 3 :: hi[m] == bbmax[m] + (if m < i then OMARGIN else 0.0)
          {
            lo := lo[i := lo[i] - OMARGIN];
            hi := hi[i := hi[i] + OMARGIN];
          }
          for i := 0 to 3
            invariant thescene.cutree == old(thescene.cutree) && thescene.cuorg == old(thescene.cuorg)
            invariant thescene.cusize == Max(0.0, if i == 0 then 0.0 else
              Max(hi[0] - lo[0], if i == 1 then 0.0 else
              Max(hi[1] - lo[1], if i == 2 then 0.0 else hi[2] - lo[2])))
          {
            if hi[i] - lo[i] > thescene.cusize {
              thescene.cusize := hi[i] - lo[i];
            }
          }
          var org := thescene.cuorg;
          for i := 0 to 3
            invariant |org| == 3
            invariant forall m | 0 <= m < i :: org[m] == (hi[m] + lo[m] - thescene.cusize) * 0.5
          {
            org := org[i := (hi[i] + lo[i] - thescene.cusize) * 0.5];
          }
          thescene.cuorg := org;
        }
      } else {
        for i := 0 to 3
          invariant forall m | 0 <= m < i :: thescene.cuorg[m] <= bbmin[m] && bbmax[m] <= thescene.cuorg[m] + thescene.cusize
        {
          if bbmin[i] < thescene.cuorg[i] || bbmax[i] > thescene.cuorg[i] + thescene.cusize {
            return Some(BoundaryTooSmall);
          }
        }
      }
      return None;
    }

    /**
     * Add objects startobj .. nobjects-1 to the scene cube in id order,
     * stopping at the first error.
     */
    method AddObjects(start: nat, env: Env) returns (err: Option<OconvError>)
      requires start <= nobjects && WellFormed(thescene.cutree) && env.mincusize > 0.0
      modifies thescene
      ensures thescene.cuorg == old(thescene.cuorg) && thescene.cusize == old(thescene.cusize)
      ensures InsertAll(old(thescene.cutree), old(thescene.Box()), NewIds(start, nobjects - start), env, 0) ==
        if err.None? then Ok(thescene.cutree) else Err(err.value)
    {
      var ids := NewIds(start, nobjects - start);
      var box := thescene.Box();
      for i := 0 to |ids|
        invariant thescene.cuorg == box.org && thescene.cusize == box.size
        invariant WellFormed(thescene.cutree)
        invariant InsertAll(old(thescene.cutree), box, ids, env, 0) == InsertAll(thescene.cutree, box, ids, env, i)
      {
        err := AddObject(thescene, start + i, env);
        if err.Some? {
          return;
        }
      }
      return None;
    }

    /**
     * Lines 89-136 of main, after the options: read the old octree when
     * -i was given, record the scene files, count the new objects (whose
     * extents are exts) and grow the bounding box over them, set or check
     * the cube and derive mincusize. The result start is startobj, the
     * id of the first new object.
     */
    method PrepareScene(input: Option<SavedOctree>, files: seq<string>, exts: seq<Extent>)
      returns (err: Option<OconvError>, start: nat)
      modifies this, thescene
      ensures err.None? ==> resolu > 0 && mincusize == thescene.cusize / resolu as real - FTINY
      ensures err.None? ==> nobjects == start + |exts| && thescene.cutree == StartTree(input, old(thescene.cutree))
      ensures err.None? && StartSize(input, old(thescene.cusize)) == 0.0 && Corners(exts).0[0] <= Corners(exts).1[0] ==>
        thescene.Box() == FitCube(Corners(exts).0, Corners(exts).1)
      ensures err.None? && (StartSize(input, old(thescene.cusize)) != 0.0 || Corners(exts).0[0] <= Corners(exts).1[0]) ==>
        Encompasses(thescene.Box(), Corners(exts).0, Corners(exts).1)
      ensures input.Some? && old(thescene.cusize) > FTINY ==> err == Some(BoundAndInput)
      ensures objlim == old(objlim)
    {
      start := nobjects;
      if input.Some? {
        err := ReadInput(input.value);
        if err.Some? {
          return;
        }
      }
      start := nobjects;
      err := AddSceneFiles(files);
      if err.Some? {
        return;
      }
      nobjects := nobjects + |exts|;
      var bbmin, bbmax := BoundingBox(exts);
      err := SetCube(bbmin, bbmax);
      if err.Some? {
        return;
      }
      FitCubeEncloses(bbmin, bbmax);
      if resolu <= 0 {
        return Some(NoMinimumCube), start;
      }
      mincusize := thescene.cusize / resolu as real - FTINY;
    }

    /**
     * Lines 89-139 of main: prepare the scene cube, then insert every new
     * object into it in id order.
     */
    method Convert(input: Option<SavedOctree>, files: seq<string>, exts: seq<Extent>,
                   hit: (ObjId, CubeBox) -> int, maxset: int) returns (err: Option<OconvError>)
      requires WellFormed(thescene.cutree)
      requires input.Some? ==> WellFormed(input.value.tree)
      modifies this, thescene
      ensures err.None? ==> resolu > 0 && nobjects >= |exts| && mincusize == thescene.cusize / resolu as real - FTINY
      ensures err.None? && exts == [] ==> thescene.cutree == StartTree(input, old(thescene.cutree))
      ensures err.None? && exts != [] ==>
        mincusize > 0.0 &&
        InsertAll(StartTree(input, old(thescene.cutree)), thescene.Box(), NewIds(nobjects - |exts|, |exts|),
                  Env(hit, objlim, mincusize, maxset), 0) == Ok(thescene.cutree)
      ensures err.None? && StartSize(input, old(thescene.cusize)) == 0.0 && Corners(exts).0[0] <= Corners(exts).1[0] ==>
        thescene.Box() == FitCube(Corners(exts).0, Corners(exts).1)
      ensures err.None? && (StartSize(input, old(thescene.cusize)) != 0.0 || Corners(exts).0[0] <= Corners(exts).1[0]) ==>
        Encompasses(thescene.Box(), Corners(exts).0, Corners(exts).1)
      ensures input.Some? && old(thescene.cusize) > FTINY ==> err == Some(BoundAndInput)
    {
      var start;
      err, start := PrepareScene(input, files, exts);
      if err.Some? || exts == [] {
        return;
      }
      if mincusize <= 0.0 {
        return Some(NoMinimumCube);
      }
      err := AddObjects(start, Env(hit, objlim, mincusize, maxset));
    }
  }
}
