/**
 * Ear-clipping triangulation of a simple polygon given as a contour of 2D
 * vertices: the shoelace area, the point-in-triangle test, the ear test
 * polySnip, and polyTriangulate, which clips one ear at a time from an
 * index array that it shrinks in place.
 */
module Triangulate {

  /** Tolerance below which three vertices count as colinear. */
  const EPSILON: real := 0.0000000001

  /** A Vert2: one contour vertex. */
  datatype Vert2 = Vert2(x: real, y: real)

  /** One output triangle, as three indices into the contour. */
  datatype Tri = Tri(a: int, b: int, c: int)

  /** A Vert2_list: nv vertices and an untyped user data field p. */
  class Vert2List {
    var nv: int
    var p: object?
    const v: array<Vert2>

    constructor (n: nat)
      ensures nv == n && p == null && v.Length == n && fresh(v)
    {
      nv := n;
      p := null;
      v := new Vert2[n](_ => Vert2(0.0, 0.0));
    }
  }

  /**
   * polyAlloc: no list for fewer than three vertices; otherwise a new list
   * of nv vertices with no user data. The vertices start at the origin.
   */
  method PolyAlloc(nv: int) returns (r: Vert2List?)
    ensures r == null <==> nv < 3
    ensures r != null ==> fresh(r) && fresh(r.v) && r.nv == nv && r.p == null && r.v.Length == nv
  {
    if nv < 3 {
      return null;
    }
    r := new Vert2List(nv);
  }

  // ---------------------------------------------------------------------
  // Area

  /** The cross product term p.x*q.y - q.x*p.y of the shoelace formula. */
  function Cross(p: Vert2, q: Vert2): real
  {
    p.x * q.y - q.x * p.y
  }

  /** The shoelace terms of consecutive pairs, without the closing pair. */
  function ChainSum(vs: seq<Vert2>): real
  {
    if |vs| < 2 then 0.0 else Cross(vs[0], vs[1]) + ChainSum(vs[1..])
  }

  /** The signed area: half the shoelace sum over consecutive pairs including the closing pair. */
  function Area(vs: seq<Vert2>): real
  {
    if vs == [] then 0.0 else (Cross(vs[|vs| - 1], vs[0]) + ChainSum(vs)) * 0.5
  }

  function Reverse<T>(s: seq<T>): (r: seq<T>)
    ensures |r| == |s| && forall i | 0 <= i < |s| :: r[i] == s[|s| - 1 - i]
  {
    if s == [] then [] else Reverse(s[1..]) + [s[0]]
  }

  /** Extending a chain by one vertex adds the term of its last pair. */
  lemma {:induction false} ChainSumSnoc(vs: seq<Vert2>, x: Vert2)
    requires vs != []
    ensures ChainSum(vs + [x]) == ChainSum(vs) + Cross(vs[|vs| - 1], x)
    decreases |vs|
  {
    if |vs| >= 2 {
      assert (vs + [x])[1..] == vs[1..] + [x];
      ChainSumSnoc(vs[1..], x);
    }
  }

  /** Walking a chain backwards negates every term. */
  lemma {:induction false} ChainSumReverse(vs: seq<Vert2>)
    ensures ChainSum(Reverse(vs)) == -ChainSum(vs)
    decreases |vs|
  {
    if |vs| >= 2 {
      ChainSumReverse(vs[1..]);
      var r := Reverse(vs[1..]);
      assert Reverse(vs) == r + [vs[0]];
      ChainSumSnoc(r, vs[0]);
      assert r[|r| - 1] == vs[1];
    }
  }

  /** Reversing the vertex order negates the signed area. */
  lemma AreaReverse(vs: seq<Vert2>)
    ensures Area(Reverse(vs)) == -Area(vs)
  {
    if vs != [] {
      ChainSumReverse(vs);
    }
  }

  /**
   * polyArea: the loop starts with the closing pair (nv-1, 0) and then adds
   * each consecutive pair (q-1, q).
   */
  method PolyArea(contour: Vert2List) returns (a: real)
    requires contour.nv <= contour.v.Length
    ensures a == Area(contour.v[..if contour.nv < 0 then 0 else contour.nv])
  {
    var n := contour.nv;
    var sum := 0.0;
    if n <= 0 {
      return sum * 0.5;
    }
    ghost var vs := contour.v[..n];
    var p := n - 1;
    var q := 0;
    while q < n
      invariant 0 <= q <= n
      invariant p == if q == 0 then n - 1 else q - 1
      invariant q >= 1 ==> sum == Cross(vs[n - 1], vs[0]) + ChainSum(vs[..q])
      invariant q == 0 ==> sum == 0.0
    {
      if q >= 1 {
        assert vs[..q + 1] == vs[..q] + [vs[q]];
        ChainSumSnoc(vs[..q], vs[q]);
      }
      sum := sum + (contour.v[p].x * contour.v[q].y - contour.v[q].x * contour.v[p].y);
      p, q := q, q + 1;
    }
    assert vs[..n] == vs;
    return sum * 0.5;
  }

  // ---------------------------------------------------------------------
  // Point in triangle

  /** Twice the signed area of triangle a, b, c: positive when counter-clockwise. */
  function Orient(a: Vert2, b: Vert2, c: Vert2): real
  {
    (b.x - a.x) * (c.y - a.y) - (b.y - a.y) * (c.x - a.x)
  }

  /**
   * insideTriangle: p is on the inner side of, or on, each of the three
   * edges B->C, C->A and A->B.
   */
  predicate InsideTriangle(a: Vert2, b: Vert2, c: Vert2, p: Vert2)
  {
    var aCrossBp := (c.x - b.x) * (p.y - b.y) - (c.y - b.y) * (p.x - b.x);
    var cCrossAp := (b.x - a.x) * (p.y - a.y) - (b.y - a.y) * (p.x - a.x);
    var bCrossCp := (a.x - c.x) * (p.y - c.y) - (a.y - c.y) * (p.x - c.x);
    aCrossBp >= 0.0 && bCrossCp >= 0.0 && cCrossAp >= 0.0
  }

  /**
   * The three edge tests always add up to the orientation of the triangle,
   * so a clockwise triangle contains no point at all, and a corner counts
   * as inside exactly when the triangle is not clockwise.
   */
  lemma InsideTriangleOrientation(a: Vert2, b: Vert2, c: Vert2, p: Vert2)
    ensures InsideTriangle(a, b, c, p) ==> Orient(a, b, c) >= 0.0
    ensures InsideTriangle(a, b, c, a) <==> Orient(a, b, c) >= 0.0
    ensures InsideTriangle(a, b, c, b) <==> Orient(a, b, c) >= 0.0
    ensures InsideTriangle(a, b, c, c) <==> Orient(a, b, c) >= 0.0
  {
    var aCrossBp := (c.x - b.x) * (p.y - b.y) - (c.y - b.y) * (p.x - b.x);
    var cCrossAp := (b.x - a.x) * (p.y - a.y) - (b.y - a.y) * (p.x - a.x);
    var bCrossCp := (a.x - c.x) * (p.y - c.y) - (a.y - c.y) * (p.x - c.x);
    assert aCrossBp + bCrossCp + cCrossAp == Orient(a, b, c);
    assert Orient(b, c, a) == Orient(a, b, c) && Orient(c, a, b) == Orient(a, b, c);
  }

  /**
   * The three edge tests of InsideTriangle, each the cross product for the
   * edge opposite one corner: (weight of a, weight of b, weight of c).
   */
  function EdgeTests(a: Vert2, b: Vert2, c: Vert2, p: Vert2): (real, real, real)
  {
    ((c.x - b.x) * (p.y - b.y) - (c.y - b.y) * (p.x - b.x),
     (a.x - c.x) * (p.y - c.y) - (a.y - c.y) * (p.x - c.x),
     (b.x - a.x) * (p.y - a.y) - (b.y - a.y) * (p.x - a.x))
  }

  /**
   * The edge tests are the barycentric coordinates of p scaled by the
   * orientation: they add up to it and weight the corners into p. So for
   * a counter-clockwise triangle InsideTriangle holds exactly for the
   * convex combinations of its corners.
   */
  lemma EdgeTestsBarycentric(a: Vert2, b: Vert2, c: Vert2, p: Vert2)
    ensures var (wa, wb, wc) := EdgeTests(a, b, c, p);
      (InsideTriangle(a, b, c, p) <==> wa >= 0.0 && wb >= 0.0 && wc >= 0.0) &&
      wa + wb + wc == Orient(a, b, c) &&
      wa * a.x + wb * b.x + wc * c.x == Orient(a, b, c) * p.x &&
      wa * a.y + wb * b.y + wc * c.y == Orient(a, b, c) * p.y
  {
  }

  /** The cross product with u is linear in its second argument. */
  lemma CrossLinear(ux: real, uy: real, vx: real, vy: real, wx: real, wy: real, s: real, t: real)
    ensures ux * (s * vy + t * wy) - uy * (s * vx + t * wx) == s * (ux * vy - uy * vx) + t * (ux * wy - uy * wx)
  {
  }

  /** The edge test of edge q -> r at a point q + s (o - q) + t (r - q) is s times the orientation of q, r, o. */
  lemma EdgeTestAffine(q: Vert2, r: Vert2, o: Vert2, s: real, t: real, p: Vert2)
    requires p.x - q.x == s * (o.x - q.x) + t * (r.x - q.x) && p.y - q.y == s * (o.y - q.y) + t * (r.y - q.y)
    ensures (r.x - q.x) * (p.y - q.y) - (r.y - q.y) * (p.x - q.x) == s * Orient(q, r, o)
  {
    CrossLinear(r.x - q.x, r.y - q.y, o.x - q.x, o.y - q.y, r.x - q.x, r.y - q.y, s, t);
  }

  /** An affine combination of the corners has its weights times the orientation as edge tests. */
  lemma AffineEdgeTests(a: Vert2, b: Vert2, c: Vert2, la: real, lb: real, lc: real, p: Vert2)
    requires la + lb + lc == 1.0 && p == Vert2(la * a.x + lb * b.x + lc * c.x, la * a.y + lb * b.y + lc * c.y)
    ensures var o := Orient(a, b, c); var w := EdgeTests(a, b, c, p);
      w.0 == la * o && w.1 == lb * o && w.2 == lc * o
  {
    var o := Orient(a, b, c);
    assert Orient(b, c, a) == o && Orient(c, a, b) == o;
    EdgeTestAffine(b, c, a, la, lc, p);
    EdgeTestAffine(c, a, b, lb, la, p);
    EdgeTestAffine(a, b, c, lc, lb, p);
    var (wa, wb, wc) := EdgeTests(a, b, c, p);
    assert wa == la * o;
    assert wb == lb * o;
    assert wc == lc * o;
  }

  /**
   * A convex combination of the corners has the weights times the
   * orientation as its edge tests, so it is inside every triangle that is
   * not clockwise.
   */
  lemma ConvexInside(a: Vert2, b: Vert2, c: Vert2, la: real, lb: real, lc: real)
    requires la >= 0.0 && lb >= 0.0 && lc >= 0.0 && la + lb + lc == 1.0
    ensures var p := Vert2(la * a.x + lb * b.x + lc * c.x, la * a.y + lb * b.y + lc * c.y);
      var o := Orient(a, b, c); var w := EdgeTests(a, b, c, p);
      w.0 == la * o && w.1 == lb * o && w.2 == lc * o &&
      (o >= 0.0 ==> InsideTriangle(a, b, c, p))
  {
    AffineEdgeTests(a, b, c, la, lb, lc, Vert2(la * a.x + lb * b.x + lc * c.x, la * a.y + lb * b.y + lc * c.y));
    var o := Orient(a, b, c);
    if o >= 0.0 {
      ProductNonNegative(la, o);
      ProductNonNegative(lb, o);
      ProductNonNegative(lc, o);
    }
  }

  lemma ProductNonNegative(x: real, y: real)
    requires x >= 0.0 && y >= 0.0
    ensures x * y >= 0.0
  {
  }

  // ---------------------------------------------------------------------
  // Ear test

  /** Vertex V[p] keeps triangle V[u], V[v], V[w] from being an ear: it is another vertex inside it. */
  predicate Blocks(pts: seq<Vert2>, idx: seq<int>, u: int, v: int, w: int, p: int)
    requires 0 <= u < |idx| && 0 <= v < |idx| && 0 <= w < |idx| && 0 <= p < |idx|
    requires forall i | 0 <= i < |idx| :: 0 <= idx[i] < |pts|
  {
    var a, b, c, q := pts[idx[u]], pts[idx[v]], pts[idx[w]], pts[idx[p]];
    p != u && p != v && p != w && q != a && q != b && q != c && InsideTriangle(a, b, c, q)
  }

  /**
   * polySnip: -1 when the three vertices are colinear within EPSILON, 0
   * when they turn clockwise or another vertex (not coinciding with a
   * corner) lies in the triangle, 1 for an ear.
   */
  method PolySnip(contour: Vert2List, u: int, v: int, w: int, n: int, V: array<int>) returns (r: int)
    requires 0 <= u < n && 0 <= v < n && 0 <= w < n && n <= V.Length
    requires forall i | 0 <= i < n :: 0 <= V[i] < contour.v.Length
    ensures var cross := Orient(contour.v[V[u]], contour.v[V[v]], contour.v[V[w]]);
      (r == -1 <==> -EPSILON < cross < EPSILON) &&
      (r == 1 <==> cross >= EPSILON && forall p | 0 <= p < n :: !Blocks(contour.v[..], V[..n], u, v, w, p)) &&
      (r == 0 || r == 1 || r == -1)
  {
    var aX, aY := contour.v[V[u]].x, contour.v[V[u]].y;
    var bX, bY := contour.v[V[v]].x, contour.v[V[v]].y;
    var cX, cY := contour.v[V[w]].x, contour.v[V[w]].y;
    var cross := (bX - aX) * (cY - aY) - (bY - aY) * (cX - aX);
    assert cross == Orient(contour.v[V[u]], contour.v[V[v]], contour.v[V[w]]);
    if EPSILON > cross {
      return if EPSILON > -cross then -1 else 0;
    }
    ghost var pts, idx := contour.v[..], V[..n];
    for p := 0 to n
      invariant forall q | 0 <= q < p :: !Blocks(pts, idx, u, v, w, q)
    {
      if p == u || p == v || p == w {
        continue;
      }
      var pX, pY := contour.v[V[p]].x, contour.v[V[p]].y;
      if (pX == aX && pY == aY) || (pX == bX && pY == bY) || (pX == cX && pY == cY) {
        continue;
      }
      if InsideTriangle(Vert2(aX, aY), Vert2(bX, bY), Vert2(cX, cY), Vert2(pX, pY)) {
        assert Blocks(pts, idx, u, v, w, p);
        return 0;
      }
    }
    return 1;
  }

  // ---------------------------------------------------------------------
  // Triangulation

  /** The contour read in the order of the index list. */
  function InOrder(pts: seq<Vert2>, idx: seq<int>): (r: seq<Vert2>)
    requires forall i | 0 <= i < |idx| :: 0 <= idx[i] < |pts|
    ensures |r| == |idx|
  {
    seq(|idx|, i requires 0 <= i < |idx| => pts[idx[i]])
  }

  /** The starting order: the identity when the area is positive, else reversed. */
  function StartOrder(n: nat, area: real): (idx: seq<int>)
    ensures |idx| == n && forall i | 0 <= i < n :: 0 <= idx[i] < n
    ensures forall i, j | 0 <= i < j < n :: idx[i] != idx[j]
  {
    if 0.0 < area then seq(n, i => i) else seq(n, i => n - 1 - i)
  }

  /** Whichever way the contour runs, the starting order runs counter-clockwise (area at least zero). */
  lemma StartOrderCounterClockwise(pts: seq<Vert2>)
    ensures Area(InOrder(pts, StartOrder(|pts|, Area(pts)))) >= 0.0
  {
    var idx := StartOrder(|pts|, Area(pts));
    if 0.0 < Area(pts) {
      assert InOrder(pts, idx) == pts;
    } else {
      assert InOrder(pts, idx) == Reverse(pts);
      AreaReverse(pts);
    }
  }

  /** A triangle polyTriangulate may emit: three distinct contour indices turning counter-clockwise by at least EPSILON. */
  predicate GoodTri(t: Tri, pts: seq<Vert2>)
  {
    0 <= t.a < |pts| && 0 <= t.b < |pts| && 0 <= t.c < |pts| &&
    t.a != t.b && t.b != t.c && t.a != t.c &&
    Orient(pts[t.a], pts[t.b], pts[t.c]) >= EPSILON
  }

  /**
   * A corner polyTriangulate drops without emitting it: three distinct
   * contour indices that turn by less than EPSILON either way.
   */
  predicate FlatTri(t: Tri, pts: seq<Vert2>)
  {
    0 <= t.a < |pts| && 0 <= t.b < |pts| && 0 <= t.c < |pts| &&
    t.a != t.b && t.b != t.c && t.a != t.c &&
    -EPSILON < Orient(pts[t.a], pts[t.b], pts[t.c]) < EPSILON
  }

  /** No three distinct vertices of the contour are colinear within EPSILON. */
  ghost predicate NoColinear(pts: seq<Vert2>)
  {
    forall i, j, k | 0 <= i < |pts| && 0 <= j < |pts| && 0 <= k < |pts| && i != j && j != k && i != k ::
      !(-EPSILON < Orient(pts[i], pts[j], pts[k]) < EPSILON)
  }

  /** The middle vertices of a sequence of corners. */
  ghost function Middles(ts: seq<Tri>): seq<int>
  {
    seq(|ts|, i requires 0 <= i < |ts| => ts[i].b)
  }

  /** Remove entry at of the first n entries of V by shifting the rest down; the last slot keeps its value. */
  method RemoveAt(V: array<int>, n: int, at: int)
    requires 0 <= at < n <= V.Length
    modifies V
    ensures V[..] == old(V[..at]) + old(V[at + 1..n]) + old(V[n - 1..])
  {
    var s, t := at, at + 1;
    while t < n
      invariant at <= s && t == s + 1 && t <= n
      invariant V[..s] == old(V[..at]) + old(V[at + 1..t])
      invariant V[s..] == old(V[s..])
    {
      V[s] := V[t];
      assert V[..s + 1] == V[..s] + [old(V[t])];
      assert old(V[at + 1..t + 1]) == old(V[at + 1..t]) + [old(V[t])];
      s, t := s + 1, t + 1;
    }
    assert V[..] == V[..s] + V[s..];
    assert s == n - 1;
  }

  /** Fill V with the starting order for a contour of the given signed area. */
  method StartIndices(V: array<int>, area: real)
    modifies V
    ensures V[..] == StartOrder(V.Length, area)
  {
    var n := V.Length;
    if 0.0 < area {
      for i := 0 to n
        invariant forall k | 0 <= k < i :: V[k] == k
      {
        V[i] := i;
      }
    } else {
      for i := 0 to n
        invariant forall k | 0 <= k < i :: V[k] == n - 1 - k
      {
        V[i] := n - 1 - i;
      }
    }
  }

  /** The first n entries of s are distinct indices below bound. */
  ghost predicate Indices(s: seq<int>, n: int, bound: int)
  {
    0 <= n <= |s| &&
    (forall i | 0 <= i < n :: 0 <= s[i] < bound) &&
    (forall i, j | 0 <= i < j < n :: s[i] != s[j])
  }

  /** Dropping entry at from n distinct indices below bound leaves n - 1 distinct indices below bound. */
  lemma RemovalKeepsDistinct(before: seq<int>, after: seq<int>, n: int, at: int, bound: int)
    requires 0 <= at < n && Indices(before, n, bound)
    requires after == before[..at] + before[at + 1..n] + before[n - 1..]
    ensures Indices(after, n - 1, bound)
  {
    assert forall i | 0 <= i < n - 1 :: after[i] == before[if i < at then i else i + 1];
  }

  /** None of the removed indices is among the first n entries of s. */
  ghost predicate Apart(removed: seq<int>, s: seq<int>, n: int)
    requires 0 <= n <= |s|
  {
    forall k, i | 0 <= k < |removed| && 0 <= i < n :: removed[k] != s[i]
  }

  /**
   * Removing position at moves its index from the remaining n to the
   * removed ones: both stay distinct and in range, and still share no
   * index.
   */
  lemma RemovalMoves(before: seq<int>, after: seq<int>, n: int, at: int, bound: int, removed: seq<int>)
    requires 0 <= at < n && Indices(before, n, bound) && Indices(removed, |removed|, bound)
    requires Apart(removed, before, n)
    requires after == before[..at] + before[at + 1..n] + before[n - 1..]
    ensures Indices(after, n - 1, bound) && Indices(removed + [before[at]], |removed| + 1, bound)
    ensures Apart(removed + [before[at]], after, n - 1)
  {
    RemovalKeepsDistinct(before, after, n, at, bound);
    var r := removed + [before[at]];
    forall k, i | 0 <= k < |r| && 0 <= i < n - 1
      ensures r[k] != after[i]
    {
      assert after[i] == before[if i < at then i else i + 1];
    }
    forall k, l | 0 <= k < l < |r|
      ensures r[k] != r[l]
    {
      if l == |removed| {
        assert r[k] == removed[k] && r[l] == before[at];
      }
    }
  }

  /** The middles of one more corner gain its middle vertex. */
  lemma MiddlesSnoc(ts: seq<Tri>, t: Tri)
    ensures multiset(Middles(ts + [t])) == multiset(Middles(ts)) + multiset{t.b}
  {
    assert Middles(ts + [t]) == Middles(ts) + [t.b];
  }

  /**
   * Removing the middle of corner t, emitted as a triangle or dropped as
   * flat, keeps the removed vertices those of the triangles and the flat
   * corners.
   */
  lemma MiddlesStep(mids: seq<int>, tris: seq<Tri>, flats: seq<Tri>, t: Tri, tris': seq<Tri>, flats': seq<Tri>)
    requires multiset(mids) == multiset(Middles(tris)) + multiset(Middles(flats))
    requires (tris' == tris + [t] && flats' == flats) || (tris' == tris && flats' == flats + [t])
    ensures multiset(mids + [t.b]) == multiset(Middles(tris')) + multiset(Middles(flats'))
  {
    if tris' == tris + [t] && flats' == flats {
      MiddlesSnoc(tris, t);
    } else {
      MiddlesSnoc(flats, t);
    }
  }

  /** A flat corner is a colinear triple of the contour. */
  lemma FlatIsColinear(t: Tri, pts: seq<Vert2>)
    requires FlatTri(t, pts)
    ensures !NoColinear(pts)
  {
  }

  /** Every triangle emitted is good, and the callback accepted each one given those before it. */
  ghost predicate Emitted(tris: seq<Tri>, pts: seq<Vert2>, cb: (seq<Tri>, Tri) -> bool)
  {
    (forall i | 0 <= i < |tris| :: GoodTri(tris[i], pts)) &&
    (forall i | 0 <= i < |tris| :: cb(tris[..i], tris[i]))
  }

  /**
   * Emitting a good triangle keeps every earlier triangle and acceptance;
   * the new one counts as accepted when the callback accepted it.
   */
  lemma EmitStep(tris: seq<Tri>, t: Tri, pts: seq<Vert2>, cb: (seq<Tri>, Tri) -> bool)
    requires Emitted(tris, pts, cb) && GoodTri(t, pts)
    ensures var ts := tris + [t];
      (forall i | 0 <= i < |ts| :: GoodTri(ts[i], pts)) &&
      (forall i | 0 <= i < |ts| - 1 :: cb(ts[..i], ts[i])) &&
      ts[..|ts| - 1] == tris && ts[|ts| - 1] == t
    ensures cb(tris, t) ==> Emitted(tris + [t], pts, cb)
  {
    assert forall i | 0 <= i < |tris| :: (tris + [t])[..i] == tris[..i];
    assert (tris + [t])[..|tris|] == tris;
  }

  /** Three distinct positions of a valid index list, turning counter-clockwise, make a good triangle. */
  lemma EarIsGood(pts: seq<Vert2>, idx: seq<int>, n: int, u: int, v: int, w: int)
    requires Indices(idx, n, |pts|) && 0 <= u < n && 0 <= v < n && 0 <= w < n && u != v && v != w && u != w
    requires Orient(pts[idx[u]], pts[idx[v]], pts[idx[w]]) >= EPSILON
    ensures GoodTri(Tri(idx[u], idx[v], idx[w]), pts)
  {
  }

  /** Position v of n, wrapping around to 0 past the end, as the corner selection of polyTriangulate does. */
  function Wrap(v: int, n: int): int
  {
    if n <= v then 0 else v
  }

  /**
   * polySnip's 0 verdict on positions u, v, w of idx: the corner turns
   * clockwise by at least EPSILON, or it turns counter-clockwise by at
   * least EPSILON and another vertex lies in it.
   */
  ghost predicate SnipZero(pts: seq<Vert2>, idx: seq<int>, u: int, v: int, w: int)
    requires 0 <= u < |idx| && 0 <= v < |idx| && 0 <= w < |idx|
    requires forall i | 0 <= i < |idx| :: 0 <= idx[i] < |pts|
  {
    var o := Orient(pts[idx[u]], pts[idx[v]], pts[idx[w]]);
    o <= -EPSILON || (o >= EPSILON && exists p | 0 <= p < |idx| :: Blocks(pts, idx, u, v, w, p))
  }

  /** The corner of the remaining polygon rest that starts at position u gets polySnip's 0 verdict. */
  ghost predicate ZeroAt(pts: seq<Vert2>, rest: seq<int>, u: int)
    requires 0 <= u < |rest| && forall i | 0 <= i < |rest| :: 0 <= rest[i] < |pts|
  {
    var n := |rest|;
    SnipZero(pts, rest, u, Wrap(u + 1, n), Wrap(Wrap(u + 1, n) + 1, n))
  }

  /** Every corner of the remaining polygon rest gets polySnip's 0 verdict, so no pass can remove a vertex. */
  ghost predicate Stuck(pts: seq<Vert2>, rest: seq<int>)
  {
    (forall i | 0 <= i < |rest| :: 0 <= rest[i] < |pts|) &&
    forall u | 0 <= u < |rest| :: ZeroAt(pts, rest, u)
  }

  /** Blocks reads only the listed vertices, so a prefix of the contour holding them gives the same answer. */
  lemma BlocksPrefix(all: seq<Vert2>, pts: seq<Vert2>, idx: seq<int>, u: int, v: int, w: int, p: int)
    requires |pts| <= |all| && pts == all[..|pts|]
    requires 0 <= u < |idx| && 0 <= v < |idx| && 0 <= w < |idx| && 0 <= p < |idx|
    requires forall i | 0 <= i < |idx| :: 0 <= idx[i] < |pts|
    ensures Blocks(all, idx, u, v, w, p) == Blocks(pts, idx, u, v, w, p)
  {
  }

  /**
   * The ear test of polyTriangulate on positions u, v, w of the index
   * list: polySnip's verdict, and for an ear the triangle of the three
   * contour indices, which is good.
   */
  method TryEar(contour: Vert2List, V: array<int>, n: int, u: int, v: int, w: int, ghost pts: seq<Vert2>) returns (result: int, t: Tri)
    requires |pts| <= contour.v.Length && pts == contour.v[..|pts|] && Indices(V[..], n, |pts|)
    requires 0 <= u < n && 0 <= v < n && 0 <= w < n && u != v && v != w && u != w
    ensures result == 0 || result == 1 || result == -1
    ensures t == Tri(V[u], V[v], V[w])
    ensures result > 0 ==> GoodTri(t, pts)
    ensures result < 0 ==> FlatTri(t, pts)
    ensures result == 0 <==> SnipZero(pts, V[..n], u, v, w)
  {
    result := PolySnip(contour, u, v, w, n, V);
    t := Tri(V[u], V[v], V[w]);
    forall p | 0 <= p < n
      ensures Blocks(contour.v[..], V[..n], u, v, w, p) == Blocks(pts, V[..n], u, v, w, p)
    {
      BlocksPrefix(contour.v[..], pts, V[..n], u, v, w, p);
    }
    if result > 0 {
      EarIsGood(pts, V[..], n, u, v, w);
    }
  }

  /**
   * Three consecutive positions of the remaining polygon after position
   * v, each wrapping around to 0 past the end.
   */
  method Corner(nv: int, v: int) returns (u: int, v': int, w: int)
    requires 3 <= nv && 0 <= v <= nv
    ensures u == (if nv <= v then 0 else v)
    ensures v' == (if nv <= u + 1 then 0 else u + 1)
    ensures w == (if nv <= v' + 1 then 0 else v' + 1)
    ensures 0 <= u < nv && 0 <= v' < nv && 0 <= w < nv && u != v' && v' != w && u != w
  {
    u := v;
    if nv <= u {
      u := 0;
    }
    v' := u + 1;
    if nv <= v' {
      v' := 0;
    }
    w := v' + 1;
    if nv <= w {
      w := 0;
    }
  }

  /**
   * The state of the clipping loop: nv distinct indices remain in V, the
   * removed ones are distinct, disjoint from them and one per emitted
   * triangle or flat corner, and those are the middles of the triangles
   * and the flat corners.
   */
  ghost predicate Clipped(V: seq<int>, nv: int, pts: seq<Vert2>, mids: seq<int>, tris: seq<Tri>, flats: seq<Tri>, cb: (seq<Tri>, Tri) -> bool)
  {
    Indices(V, nv, |pts|) && Indices(mids, |mids|, |pts|) && |mids| == |pts| - nv && Apart(mids, V, nv) &&
    Emitted(tris, pts, cb) && (forall i | 0 <= i < |flats| :: FlatTri(flats[i], pts)) &&
    |tris| + |flats| == |mids| &&
    multiset(mids) == multiset(Middles(tris)) + multiset(Middles(flats))
  }

  /** Removing the middle of an emitted triangle or a flat corner keeps the loop state. */
  lemma ClippedStep(before: seq<int>, after: seq<int>, nv: int, at: int, pts: seq<Vert2>, mids: seq<int>,
                    tris: seq<Tri>, flats: seq<Tri>, t: Tri, tris': seq<Tri>, flats': seq<Tri>, cb: (seq<Tri>, Tri) -> bool)
    requires Clipped(before, nv, pts, mids, tris, flats, cb) && 0 <= at < nv && t.b == before[at]
    requires after == before[..at] + before[at + 1..nv] + before[nv - 1..]
    requires (tris' == tris + [t] && flats' == flats && Emitted(tris', pts, cb)) || (tris' == tris && flats' == flats + [t] && FlatTri(t, pts))
    ensures Clipped(after, nv - 1, pts, mids + [t.b], tris', flats', cb)
  {
    RemovalMoves(before, after, nv, at, |pts|, mids);
    MiddlesStep(mids, tris, flats, t, tris', flats');
  }

  /** A refused ear appended to accepted ones: all but the last were accepted. */
  lemma RefusedTail(tris: seq<Tri>, front: seq<Tri>, cb: (seq<Tri>, Tri) -> bool)
    requires tris != [] && front == tris[..|tris| - 1]
    requires forall i | 0 <= i < |front| :: cb(front[..i], front[i])
    ensures forall i | 0 <= i < |tris| - 1 :: cb(tris[..i], tris[i])
  {
    forall i | 0 <= i < |tris| - 1
      ensures cb(tris[..i], tris[i])
    {
      assert front[..i] == tris[..i];
    }
  }

  /**
   * One pass of the clipping loop at vertex v of the nv remaining: take
   * the corner t = (V[u], V[v'], V[w]) after v, hand it to cb when it is
   * an ear, and shift its middle entry v' out of V when it is an ear or
   * colinear, unless cb refused the ear. The result is that of snip;
   * accepted is false only when cb refused. A 0 verdict extends the run
   * of m 0 verdicts before v by this corner.
   */
  method ClipStep(contour: Vert2List, V: array<int>, nv: int, v: int, tris: seq<Tri>, cb: (seq<Tri>, Tri) -> bool, ghost pts: seq<Vert2>, ghost m: int)
    returns (v': int, result: int, accepted: bool, tris': seq<Tri>, t: Tri)
    requires 3 <= nv <= V.Length && 0 <= v <= nv && 0 <= m <= nv
    requires ZeroRun(pts, V[..nv], Wrap(v, nv), m)
    requires |pts| <= contour.v.Length && pts == contour.v[..|pts|] && Indices(V[..], nv, |pts|)
    requires Emitted(tris, pts, cb)
    modifies V
    ensures 0 <= v' < nv && (result == 0 || result == 1 || result == -1)
    ensures v' == Wrap(Wrap(v, nv) + 1, nv)
    ensures result == 0 <==> ZeroAt(pts, old(V[..nv]), Wrap(v, nv))
    ensures result == 0 ==> ZeroRun(pts, V[..nv], v', if m < nv then m + 1 else nv)
    ensures t.b == old(V[v'])
    ensures result < 0 ==> FlatTri(t, pts)
    ensures result <= 0 ==> tris' == tris && accepted
    ensures result > 0 ==> |tris'| == |tris| + 1 && tris'[..|tris|] == tris && tris'[|tris|] == t && accepted == cb(tris, t)
    ensures accepted ==> Emitted(tris', pts, cb)
    ensures !accepted ==>
      (forall i | 0 <= i < |tris'| :: GoodTri(tris'[i], pts)) &&
      (forall i | 0 <= i < |tris'| - 1 :: cb(tris'[..i], tris'[i])) &&
      tris' != [] && !cb(tris'[..|tris'| - 1], tris'[|tris'| - 1])
    ensures accepted && result != 0 ==> V[..] == old(V[..v']) + old(V[v' + 1..nv]) + old(V[nv - 1..])
    ensures result == 0 || !accepted ==> V[..] == old(V[..])
    ensures accepted ==> Indices(V[..], if result == 0 then nv else nv - 1, |pts|)
  {
    var u, w;
    u, v', w := Corner(nv, v);
    result, t := TryEar(contour, V, nv, u, v', w, pts);
    tris' := tris;
    accepted := true;
    if result > 0 {
      accepted := cb(tris, t);
      EmitStep(tris, t, pts, cb);
      tris' := tris + [t];
      if !accepted {
        return;
      }
    }
    if result != 0 {
      ghost var before := V[..];
      RemoveAt(V, nv, v');
      RemovalKeepsDistinct(before, V[..], nv, v', |pts|);
    } else {
      StuckStep(pts, V[..nv], Wrap(v, nv), m);
    }
  }

  /** The loop state just after cb refused the last of the triangles, which was not clipped. */
  ghost predicate Refused(V: seq<int>, pts: seq<Vert2>, mids: seq<int>, tris: seq<Tri>, flats: seq<Tri>, cb: (seq<Tri>, Tri) -> bool)
  {
    |mids| < |pts| - 2 && tris != [] &&
    Clipped(V, |pts| - |mids|, pts, mids, tris[..|tris| - 1], flats, cb) &&
    GoodTri(tris[|tris| - 1], pts) && !cb(tris[..|tris| - 1], tris[|tris| - 1])
  }

  /**
   * How the clipping loop ends, in terms of the triangles, the flat
   * corners and the removed vertices: success removes |pts| - 2 vertices,
   * one per triangle or flat corner, and with no colinear triple every
   * removal emitted a triangle; a refusal ends on a good triangle cb
   * refused after accepted ones.
   */
  lemma ClipOutcome(V: seq<int>, pts: seq<Vert2>, ok: bool, tris: seq<Tri>, flats: seq<Tri>, mids: seq<int>, exhausted: bool,
                    rest: seq<int>, cb: (seq<Tri>, Tri) -> bool)
    requires 3 <= |pts| && |rest| == |pts| - |mids| && |rest| <= |V| && rest == V[..|rest|]
    requires ok ==> !exhausted && Clipped(V, 2, pts, mids, tris, flats, cb)
    requires exhausted ==> !ok && |mids| < |pts| - 2 && Clipped(V, |pts| - |mids|, pts, mids, tris, flats, cb)
    requires !ok && !exhausted ==> Refused(V, pts, mids, tris, flats, cb)
    requires exhausted ==> Stuck(pts, rest)
    ensures |rest| + |mids| == |pts| && Indices(rest, |rest|, |pts|) && Apart(mids, rest, |rest|)
    ensures exhausted ==> 3 <= |rest| && Stuck(pts, rest)
    ensures forall i | 0 <= i < |tris| :: GoodTri(tris[i], pts)
    ensures forall i | 0 <= i < |flats| :: FlatTri(flats[i], pts)
    ensures |tris| <= |pts| - 2 && Indices(mids, |mids|, |pts|)
    ensures forall i | 0 <= i < |tris| - 1 :: cb(tris[..i], tris[i])
    ensures tris != [] ==> (cb(tris[..|tris| - 1], tris[|tris| - 1]) || !ok)
    ensures ok ==> |tris| + |flats| == |pts| - 2 == |mids|
    ensures ok || exhausted ==> multiset(mids) == multiset(Middles(tris)) + multiset(Middles(flats))
    ensures ok && NoColinear(pts) ==> |tris| == |pts| - 2
    ensures !ok ==> exhausted || (tris != [] && !cb(tris[..|tris| - 1], tris[|tris| - 1]))
    ensures exhausted ==> |tris| + |flats| == |mids| < |pts| - 2
  {
    if !ok && !exhausted {
      var front := tris[..|tris| - 1];
      RefusedTail(tris, front, cb);
      forall i | 0 <= i < |tris|
        ensures GoodTri(tris[i], pts)
      {
        if i < |front| {
          assert tris[i] == front[i];
        }
      }
    }
    if flats != [] {
      FlatIsColinear(flats[0], pts);
    }
  }

  /**
   * One pass of the clipping loop with its bookkeeping: the loop state
   * Clipped is kept over the nv' vertices left, one fewer when a corner
   * was removed, or the pass ends in a refusal; a pass that removes
   * nothing extends the run of 0 verdicts.
   */
  method ClipNext(contour: Vert2List, V: array<int>, nv: int, v: int, tris: seq<Tri>, cb: (seq<Tri>, Tri) -> bool,
                  ghost pts: seq<Vert2>, ghost mids: seq<int>, ghost flats: seq<Tri>, ghost m: int)
    returns (nv': int, v': int, accepted: bool, tris': seq<Tri>, ghost mids': seq<int>, ghost flats': seq<Tri>)
    requires 3 <= nv <= V.Length && 0 <= v <= nv && 0 <= m <= nv
    requires |pts| <= contour.v.Length && pts == contour.v[..|pts|] && Clipped(V[..], nv, pts, mids, tris, flats, cb)
    requires ZeroRun(pts, V[..nv], Wrap(v, nv), m)
    modifies V
    ensures 0 <= v' < nv && v' == Wrap(Wrap(v, nv) + 1, nv)
    ensures nv' == nv || nv' == nv - 1
    ensures accepted && nv' == nv ==> V[..] == old(V[..]) && ZeroRun(pts, V[..nv], v', if m < nv then m + 1 else nv)
    ensures accepted ==> Clipped(V[..], nv', pts, mids', tris', flats', cb)
    ensures !accepted ==> Refused(V[..], pts, mids, tris', flats, cb) && mids' == mids && flats' == flats
  {
    ghost var before := V[..];
    var result, t;
    v', result, accepted, tris', t := ClipStep(contour, V, nv, v, tris, cb, pts, m);
    nv' := nv;
    mids', flats' := mids, flats;
    if !accepted {
      assert tris'[..|tris'| - 1] == tris;
      return;
    }
    if result != 0 {
      nv' := nv - 1;
      flats' := if result > 0 then flats else flats + [t];
      ClippedStep(before, V[..], nv, v', pts, mids, tris, flats, t, tris', flats', cb);
      mids' := mids + [t.b];
    }
  }

  /** The passes since the last removal, capped at nv: 2 nv - count of them. */
  function Tried(nv: int, count: int): int
  {
    if 2 * nv - count < nv then 2 * nv - count else nv
  }

  /** The position just before position s of n, wrapping around. */
  function Prev(s: int, n: int): int
  {
    if s == 0 then n - 1 else s - 1
  }

  /** Position u is one of the m positions just before position s of n, wrapping around. */
  predicate Covered(u: int, s: int, m: int, n: int)
  {
    s - m <= u < s || n + s - m <= u
  }

  /**
   * The m corners just before position s of rest, wrapping around, all got
   * polySnip's 0 verdict; defined one corner at a time, back from s.
   */
  ghost predicate ZeroRun(pts: seq<Vert2>, rest: seq<int>, s: int, m: int)
    decreases m, 0
  {
    0 <= s < |rest| && (forall i | 0 <= i < |rest| :: 0 <= rest[i] < |pts|) &&
    (m <= 0 || ZeroThrough(pts, rest, Prev(s, |rest|), m - 1))
  }

  /** The corner at position u of rest got polySnip's 0 verdict, and so did the m corners just before it. */
  ghost predicate ZeroThrough(pts: seq<Vert2>, rest: seq<int>, u: int, m: int)
    decreases m, 1
  {
    0 <= u < |rest| && (forall i | 0 <= i < |rest| :: 0 <= rest[i] < |pts|) &&
    ZeroAt(pts, rest, u) && ZeroRun(pts, rest, u, m)
  }

  /** A run of m 0 verdicts holds every shorter run before the same position. */
  lemma {:induction false} ZeroRunShorter(pts: seq<Vert2>, rest: seq<int>, s: int, m: int, k: int)
    requires 0 <= k <= m && ZeroRun(pts, rest, s, m)
    ensures ZeroRun(pts, rest, s, k)
    decreases m
  {
    if 0 < k {
      var u := Prev(s, |rest|);
      assert ZeroThrough(pts, rest, u, m - 1);
      ZeroRunShorter(pts, rest, u, m - 1, k - 1);
      assert ZeroThrough(pts, rest, u, k - 1);
    }
  }

  /** A run of m 0 verdicts before s covers each of the m positions just before s. */
  lemma {:induction false} ZeroRunCovers(pts: seq<Vert2>, rest: seq<int>, s: int, m: int, u: int)
    requires 0 <= m <= |rest| && ZeroRun(pts, rest, s, m) && 0 <= u < |rest| && Covered(u, s, m, |rest|)
    ensures ZeroAt(pts, rest, u)
    decreases m
  {
    var p := Prev(s, |rest|);
    assert ZeroThrough(pts, rest, p, m - 1);
    if u != p {
      ZeroRunCovers(pts, rest, p, m - 1, u);
    }
  }

  /**
   * A pass at position s with verdict 0 extends the run of 0 verdicts
   * before the next position by s, up to all n positions.
   */
  lemma StuckStep(pts: seq<Vert2>, rest: seq<int>, s: int, m: int)
    requires 0 <= s < |rest| && 0 <= m <= |rest| && ZeroRun(pts, rest, s, m) && ZeroAt(pts, rest, s)
    ensures ZeroRun(pts, rest, Wrap(s + 1, |rest|), if m < |rest| then m + 1 else |rest|)
  {
    var k := if m < |rest| then m else m - 1;
    ZeroRunShorter(pts, rest, s, m, k);
    assert ZeroThrough(pts, rest, s, k);
  }

  /** Right after a removal no corner has been tried yet. */
  lemma ZeroRunStart(pts: seq<Vert2>, V: seq<int>, n: int, s: int)
    requires Indices(V, n, |pts|) && 0 <= s < n
    ensures ZeroRun(pts, V[..n], s, 0)
  {
  }

  /** A run of 0 verdicts over all n positions leaves the remaining polygon stuck. */
  lemma StuckAll(pts: seq<Vert2>, rest: seq<int>, s: int)
    requires 0 <= s < |rest| && ZeroRun(pts, rest, s, |rest|)
    ensures Stuck(pts, rest)
  {
    forall u | 0 <= u < |rest|
      ensures ZeroAt(pts, rest, u)
    {
      ZeroRunCovers(pts, rest, s, |rest|, u);
    }
  }

  /** How a round of the clipping loop ends: it goes on, the counter ran out, or cb refused an ear. */
  datatype Round = Going | Exhausted | Refusal

  /**
   * One round of the clipping loop while the retry counter is positive:
   * count it down and make one pass, resetting the counter to twice the
   * vertices left after a removal. Going keeps the loop state Clipped and
   * the run of 0 verdicts since the last removal, with fewer vertices or a
   * smaller counter; Refusal ends with the refused ear appended to the
   * triangles.
   */
  method ClipRound(contour: Vert2List, V: array<int>, nv: int, v: int, count: int, tris: seq<Tri>, cb: (seq<Tri>, Tri) -> bool,
                   ghost pts: seq<Vert2>, ghost mids: seq<int>, ghost flats: seq<Tri>)
    returns (nv': int, v': int, count': int, status: Round, tris': seq<Tri>, ghost mids': seq<int>, ghost flats': seq<Tri>)
    requires 3 <= nv <= V.Length && 0 <= v <= nv && 0 < count <= 2 * nv
    requires |pts| <= contour.v.Length && pts == contour.v[..|pts|] && Clipped(V[..], nv, pts, mids, tris, flats, cb)
    requires ZeroRun(pts, V[..nv], Wrap(v, nv), Tried(nv, count))
    modifies V
    ensures status == Going || (status == Refusal && nv' == nv && count' == count)
    ensures 0 <= v' <= nv' && |mids'| == |pts| - nv'
    ensures status == Going ==> 2 <= nv' <= nv && (nv' < nv || count' < count) && 0 <= v' <= nv' && 0 <= count' <= 2 * nv'
    ensures status == Going ==> Clipped(V[..], nv', pts, mids', tris', flats', cb) && ZeroRun(pts, V[..nv'], Wrap(v', nv'), Tried(nv', count'))
    ensures status == Refusal ==> Refused(V[..], pts, mids, tris', flats, cb) && mids' == mids && flats' == flats
  {
    count' := count - 1;
    var accepted;
    nv', v', accepted, tris', mids', flats' := ClipNext(contour, V, nv, v, tris, cb, pts, mids, flats, Tried(nv, count));
    if !accepted {
      return nv, v', count, Refusal, tris', mids', flats';
    }
    status := Going;
    if nv' < nv {
      count' := 2 * nv';
      ZeroRunStart(pts, V[..], nv', Wrap(v', nv'));
    }
  }

  /**
   * The clipping loop of polyTriangulate over the index array V, which
   * starts with all |pts| indices. With 2 |V| retries per removal it clips
   * corners until two vertices remain (ok), the retries run out
   * (exhausted), or cb refuses an ear; ok, an exhausted counter and a
   * refusal each leave the loop state Clipped over the vertices that
   * remain, a refusal with the refused ear appended to the triangles, and
   * an exhausted counter every remaining corner at polySnip's 0 verdict.
   */
  method ClipLoop(contour: Vert2List, V: array<int>, cb: (seq<Tri>, Tri) -> bool, ghost pts: seq<Vert2>)
    returns (ok: bool, tris: seq<Tri>, ghost flats: seq<Tri>, ghost mids: seq<int>, ghost exhausted: bool, ghost rest: seq<int>)
    requires 3 <= V.Length == |pts| <= contour.v.Length && pts == contour.v[..|pts|] && Indices(V[..], V.Length, |pts|)
    modifies V
    ensures |rest| == |pts| - |mids| && rest == V[..|rest|]
    ensures ok ==> !exhausted && Clipped(V[..], 2, pts, mids, tris, flats, cb)
    ensures exhausted ==> !ok && |mids| < |pts| - 2 && Clipped(V[..], |pts| - |mids|, pts, mids, tris, flats, cb) && Stuck(pts, rest)
    ensures !ok && !exhausted ==> Refused(V[..], pts, mids, tris, flats, cb)
  {
    var N := V.Length;
    flats, mids := [], [];
    var nv := N;
    var count := 2 * nv;
    var v := nv - 1;
    var status := Going;
    tris := [];
    ZeroRunStart(pts, V[..], nv, v);
    while nv > 2 && status == Going
      invariant 2 <= nv <= N && 0 <= v <= nv && 0 <= count <= 2 * nv && |mids| == N - nv
      invariant status == Going ==> Clipped(V[..], nv, pts, mids, tris, flats, cb) && ZeroRun(pts, V[..nv], Wrap(v, nv), Tried(nv, count))
      invariant status == Exhausted ==> 3 <= nv && Clipped(V[..], nv, pts, mids, tris, flats, cb) && Stuck(pts, V[..nv])
      invariant status == Refusal ==> Refused(V[..], pts, mids, tris, flats, cb)
      decreases nv, count, if status == Going then 1 else 0
    {
      if count <= 0 {
        StuckAll(pts, V[..nv], Wrap(v, nv));
        status := Exhausted;
      } else {
        nv, v, count, status, tris, mids, flats := ClipRound(contour, V, nv, v, count, tris, cb, pts, mids, flats);
      }
    }
    ok, exhausted, rest := status == Going, status == Exhausted, V[..nv];
  }

  /**
   * polyTriangulate: clip ears from the counter-clockwise index order,
   * handing each ear (a, b, c) to the callback cb (which sees the ears
   * before it) and dropping a middle vertex that is an ear or colinear.
   * A retry counter of twice the remaining vertex count bounds the search
   * for the next ear. The result is false for fewer than three vertices,
   * when the counter runs out, or when cb refuses an ear. The ghost
   * results are the colinear corners dropped without a triangle, the
   * middle vertices removed, whether the counter ran out, and the
   * vertices that remain.
   */
  method PolyTriangulate(contour: Vert2List, cb: (seq<Tri>, Tri) -> bool)
    returns (ok: bool, tris: seq<Tri>, ghost flats: seq<Tri>, ghost mids: seq<int>, ghost exhausted: bool, ghost rest: seq<int>)
    requires contour.nv <= contour.v.Length
    ensures contour.nv < 3 ==> !ok && tris == [] && flats == [] && mids == [] && rest == []
    ensures contour.nv >= 3 ==> |rest| + |mids| == contour.nv && Indices(rest, |rest|, contour.nv) && Apart(mids, rest, |rest|)
    ensures exhausted ==> 3 <= |rest| && Stuck(contour.v[..contour.nv], rest)
    ensures forall i | 0 <= i < |tris| :: GoodTri(tris[i], contour.v[..contour.nv])
    ensures forall i | 0 <= i < |flats| :: FlatTri(flats[i], contour.v[..contour.nv])
    ensures contour.nv >= 3 ==> |tris| <= contour.nv - 2 && Indices(mids, |mids|, contour.nv)
    ensures forall i | 0 <= i < |tris| - 1 :: cb(tris[..i], tris[i])
    ensures tris != [] ==> (cb(tris[..|tris| - 1], tris[|tris| - 1]) || !ok)
    ensures ok ==> contour.nv >= 3 && !exhausted && |tris| + |flats| == contour.nv - 2 == |mids|
    ensures ok || exhausted ==> multiset(mids) == multiset(Middles(tris)) + multiset(Middles(flats))
    ensures ok && NoColinear(contour.v[..contour.nv]) ==> |tris| == contour.nv - 2
    ensures !ok ==> contour.nv < 3 || exhausted || (tris != [] && !cb(tris[..|tris| - 1], tris[|tris| - 1]))
    ensures exhausted ==> !ok && |tris| + |flats| == |mids| < contour.nv - 2
  {
    var N := contour.nv;
    flats, mids, exhausted := [], [], false;
    if N < 3 {
      return false, [], flats, mids, exhausted, [];
    }
    ghost var pts := contour.v[..N];
    var V := new int[N];
    var area := PolyArea(contour);
    StartIndices(V, area);
    ok, tris, flats, mids, exhausted, rest := ClipLoop(contour, V, cb, pts);
    ClipOutcome(V[..], pts, ok, tris, flats, mids, exhausted, rest, cb);
  }
}
