# Radiance core logic in Dafny

This project models four self-contained pieces of the Radiance lighting
simulation suite and proves properties of them:

- **oconv** (`src/ot/oconv.c`) builds the scene octree.
  - `addobject` inserts one object into a cube. A cell is EMPTY, a full node holding an object set, or a tree node with eight half-size children. A per-object intersection test decides where the object goes.
  - `main` reads an old octree or takes a fixed cube, grows the bounding box of the new objects, sets or checks the scene cube, derives the minimum cube size and adds the new objects in id order.
  - `Octree` (octree.dfy) states insertion as a function on tree values. `Oconv` (oconv.dfy) holds the in-place `Cube` and `Converter` classes, whose methods are proved equal to that function.
- **rcontrib** (`src/rt/rcontrib.c`) accumulates ray contributions per modifier and per bin.
  - The trace set of modifiers, registration of modifiers with their bins, routing of one contribution into one bin, the accumulation countdown that writes and zeroes every bin, and the loop over input rays with its ray budget, flush markers and final partial record.
  - `Rcontrib` (rcontrib.dfy) holds the global state in the class `RcState`. Its methods are proved equal to folds over the input (`AddHits` for the hits of one ray, `CountAll` for the counted rays, `Final` for the last record).
  - `RcontribBatches` (rcontrib_batches.dfy) proves what those folds write: record j of a run holds, bin by bin, the contributions of the j-th batch of `accumulate` rays, on top of cleared bins (or the starting bins for the first batch).
- **triangulate** (`src/common/triangulate.c`) triangulates a simple polygon by ear clipping.
  - `Triangulate` (triangulate.dfy) covers the signed area, the point-in-triangle test, the ear test, and the main loop that removes vertices from the index array `V` in place.
- **calculate_Perez** (`src/daysim/calculate_Perez.c`): the discrete and tabular parts of the daylight coefficient code.
  - `PerezCalendar` (perez_calendar.dfy): the time step with day and month rollover.
  - `SkyPatches` (sky_patches.dfy): the Tregenza 145-patch sky and the 2305-patch tables, the patch lookup of a sun position, the theta and phi listings, and the chain of lit patches.
  - `PerezParams` (perez_params.dfy): parameter clamping, the illuminance plausibility fix, the clearness band that picks the row of the Perez coefficient table, and the normalisation polynomial.

Shared modules: `Wrappers` (wrappers.dfy) holds `Option` and `Result`. `CNumeric` (cnum.dfy) holds C's truncating conversion of a double to an int, and C's truncating integer division.

Geometry uses exact `real` arithmetic. Code the model cannot see becomes a parameter:

- the intersection test of oconv is a function `(ObjId, CubeBox) -> int`;
- the bin value and contribution colour of rcontrib are fields of each hit;
- the triangle callback of the triangulator is a function of the triangles emitted so far and the new triangle.

## Model

| member | source | states |
|---|---|---|
| Octree.ChildInsideParent | src/ot/oconv.c:200-212 | A child cube has half the edge, is offset on axis j by the child edge exactly when bit j of its index is set, and lies inside its parent |
| Octree.ChildrenCoverParent | src/ot/oconv.c:236-251 | Every point of a cube lies in one of its eight children (the octant chosen by the upper-half tests) |
| Octree.BudgetHalving | src/ot/oconv.c:222-224 | Halving the edge never raises the count of minimum-size steps, and lowers it when the child is not below mincusize, so a split always makes progress |
| Octree.Insert | src/ot/oconv.c:185-254 | addobject on values: miss leaves the cell, tree passes obj to all 8 children, EMPTY becomes {obj}, a full node absorbs obj (test 2, below objlim, or child under mincusize; overflow error at MAXSET) or splits; the result is well formed |
| Octree.InsertKids | src/ot/oconv.c:200-212 | The 8 children of a tree node each receive obj through their own test, in index order, giving 8 well-formed children |
| Octree.SplitKids | src/ot/oconv.c:235-251 | A split gives 8 well-formed children, each starting EMPTY and receiving every former member and then obj |
| Octree.InsertAll | src/ot/oconv.c:246-248 | Inserting a list of objects one after another keeps the tree well formed |
| Octree.InsertKidsStep | src/ot/oconv.c:200-212 | One child done: its result moves from the pending part to the finished prefix of the child list |
| Octree.SplitKidsStep | src/ot/oconv.c:235-251 | One child of a split done: its result moves to the finished prefix |
| Octree.InsertKidsAt | src/ot/oconv.c:200-212 | Child k of the result is exactly the insertion of obj into old child k with child cube k |
| Octree.SplitKidsAt | src/ot/oconv.c:235-251 | Child k of a split is exactly the insertion of all former members and obj into an EMPTY cell with child cube k |
| Octree.InsertOnlyAdds | src/ot/oconv.c:214-233 | Insertion stores nothing but the old contents and obj; with ids arriving in increasing order every set stays sorted, so the append stands for insertelem |
| Octree.InsertKidsOnlyAdd | src/ot/oconv.c:200-212 | Each child after insertion holds only its old contents and obj, and stays sorted |
| Octree.SplitKidsOnlyAdd | src/ot/oconv.c:235-251 | Each child of a split holds only former members and obj, sorted when they arrive increasing |
| Octree.InsertAllOnlyAdds | src/ot/oconv.c:246-248 | Inserting a list adds nothing but its members, and keeps sets sorted for an increasing list |
| Octree.InsertSound | src/ot/oconv.c:195-251 | Every object in a full node passed a non-zero test against that node's cube, no set exceeds MAXSET, and every tree node's children are at least mincusize; insertion preserves this |
| Octree.InsertKidsSound | src/ot/oconv.c:200-212 | Soundness of every child is preserved by passing obj down |
| Octree.SplitKidsSound | src/ot/oconv.c:235-251 | Every child of a split is sound |
| Octree.InsertAllSound | src/ot/oconv.c:246-248 | Inserting a list preserves soundness |
| Octree.InsertKeeps | src/ot/oconv.c:236-251 | With a test under which whatever meets a cube meets one of its octants, insertion loses no stored object and stores obj whenever obj meets the cube |
| Octree.InsertKidsKeep | src/ot/oconv.c:200-212 | Passing obj to the children keeps their contents and stores obj in each child it meets |
| Octree.SplitKidsKeep | src/ot/oconv.c:235-251 | A split stores each former member and obj in every child they meet |
| Octree.InsertAllKeeps | src/ot/oconv.c:246-248 | Inserting a list keeps the old contents and stores every member that meets the cube |
| Octree.SoundDepthBound | src/ot/oconv.c:136 | A sound tree over a cube of edge below 2^(d+1) * mincusize has at most d levels of tree nodes |
| Oconv.SetChildOrigin | src/ot/oconv.c:205-209 | Child i's origin moves up by the child edge on each axis whose bit is set; tree and edge unchanged |
| Oconv.AddObject | src/ot/oconv.c:185-254 | The in-place addobject: cu's tree becomes exactly the Insert result, or the overflow error is returned; cu's geometry never changes |
| Oconv.AddToChildren | src/ot/oconv.c:200-212 | The tree branch overwrites each child slot in turn with that child's insertion result, giving exactly InsertKids |
| Oconv.Subdivide | src/ot/oconv.c:235-251 | The split branch builds a fresh tree node whose children are exactly SplitKids of the old set plus obj |
| Oconv.FillChild | src/ot/oconv.c:246-249 | One child of a split receives each former member, then obj: exactly InsertAll from EMPTY |
| Oconv.LowCorner | src/ot/oconv.c:110-113 | The low corner of the grown box is at most FHUGE, below every object's low coordinate, and equal to one of them unless there are none |
| Oconv.HighCorner | src/ot/oconv.c:110-113 | The high corner is at least -FHUGE, above every object's high coordinate, and equal to one of them unless there are none |
| Oconv.BoundingBoxEmptyIff | src/ot/oconv.c:110-116 | When every object extent is a proper box within ±FHUGE (lo <= hi on the first axis), the box is inverted (the test bbmin <= bbmax fails) exactly when no objects were added; an extent with lo > hi is outside this statement |
| Oconv.FitSize | src/ot/oconv.c:117-124 | The cube edge is the largest margin-expanded extent (at least every one of them, equal to one, never negative) |
| Oconv.FitCubeEncloses | src/ot/oconv.c:116-127 | The fitted cube contains the bounding box with OMARGIN to spare on every side and is centred on it |
| Oconv.SceneInvariants | src/ot/oconv.c:136-139 | After adding the new objects: every leaf sound, depth bounded by edge / mincusize, nothing but new objects added, with a consistent test every old and every meeting new object stored, sets sorted |
| Oconv.Converter.constructor | src/ot/oconv.c:31-40 | The scene starts EMPTY with no cube, objlim 5 and resolution 1024 |
| Oconv.Converter.SetBound | src/ot/oconv.c:65-70 | -b sets the cube widened by OMARGIN on every side |
| Oconv.Converter.ReadInput | src/ot/oconv.c:89-96 | -i after -b is a USER error; otherwise the old tree, cube, file names and object count are loaded, and an octree without file names freezes output |
| Oconv.Converter.AddSceneFiles | src/ot/oconv.c:103-108 | Files are recorded in order; exceeding MAXOBJFIL is an INTERNAL error |
| Oconv.Converter.BoundingBox | src/ot/oconv.c:110-113 | The box grown one object at a time from (FHUGE, -FHUGE) equals the corners function |
| Oconv.Converter.SetCube | src/ot/oconv.c:115-134 | Without a cube and with a non-empty box the cube is FitCube; with a cube, success exactly when it encompasses the box, else the USER error |
| Oconv.Converter.AddObjects | src/ot/oconv.c:138-139 | Adding startobj .. nobjects-1 in order gives exactly InsertAll of those ids, or its error |
| Oconv.Converter.PrepareScene | src/ot/oconv.c:89-136 | Reads, records files, counts the objects, sets or checks the cube, and sets mincusize = cusize/resolu - FTINY; the cube encompasses the new objects' box. Its `resolu <= 0` branch, which reports `NoMinimumCube`, is never taken here: the `-r` option is not modelled, so resolu keeps its default 1024 |
| Oconv.Converter.Convert | src/ot/oconv.c:89-139 | The whole conversion: the final tree is InsertAll of the new ids into the start tree inside a cube that encompasses them |
| CNumeric.Trunc | src/rt/rcontrib.c:283 | C's (int) conversion: the integer toward zero, within 1 of x, never past it |
| CNumeric.CDiv | src/daysim/calculate_Perez.c:116 | C's div quotient: truncating division with the remainder's sign following the dividend |
| Rcontrib.BinIndexInRange | src/rt/rcontrib.c:283-287 | The bin BinIndex(v) = (int)(v + .5) is in [0, n) exactly when v is in (-3/2, n - 1/2) |
| Rcontrib.BinsAcceptedIff | src/rt/rcontrib.c:158-173 | A constant bin expression is accepted exactly when -1/2 <= v < 1/2; every accepted expression gives a positive bin count (BinCount) |
| Rcontrib.FormStr | src/rt/rcontrib.c:126-138 | The name is "unknown" exactly for codes other than a, f, d, c |
| Rcontrib.FormStrRoundTrip | src/rt/rcontrib.c:126-138 | Every known code is recovered from its name; unknown codes map to no code |
| Rcontrib.RayBudget | src/rt/rcontrib.c:243-251 | The budget is never negative and is zero exactly when yres <= 0 |
| Rcontrib.BatchesSplit | src/rt/rcontrib.c:344-354 | n rays split into whole batches of k and a leftover |
| Rcontrib.CeilDiv | src/rt/rcontrib.c:393-400 | The number of records, ceil(n / k), is the least c with n <= c * k |
| Rcontrib.BatchStep | src/rt/rcontrib.c:344-354 | One more ray grows the leftover by one or completes a batch |
| Rcontrib.Counted | src/rt/rcontrib.c:371-378 | The loop counts at most as many rays as it reads |
| Rcontrib.Processed | src/rt/rcontrib.c:390-391 | A positive budget cuts the counted rays short, never lengthens them |
| Rcontrib.HitEffect | src/rt/rcontrib.c:267-292 | trace_contrib on a table fails exactly for a traced hit whose modifier has no record; otherwise the table keeps its modifiers and bin counts |
| Rcontrib.AddHits | src/rt/rcontrib.c:386 | The hits of a ray in order keep the table's modifiers and bin counts when none fails |
| Rcontrib.AddHitsNext | src/rt/rcontrib.c:386 | Tracing one more hit after a successful prefix is trace_contrib on the prefix's table, warnings appended |
| Rcontrib.AddHitsStuck | src/rt/rcontrib.c:280 | Once a prefix of the hits fails, the ray fails |
| Rcontrib.Zeroed | src/rt/rcontrib.c:347-351 | Every registered modifier's bins become zero, same count; other records are untouched |
| Rcontrib.Done | src/rt/rcontrib.c:338-355 | account <= 0 never flushes; above 1 it counts down; at 1 exactly one record is appended and account restarts at accumulate |
| Rcontrib.CountStep | src/rt/rcontrib.c:379-389 | A counted ray that traces without error appends a record exactly when account was 1, and counts down as done_contrib does |
| Rcontrib.CountAll | src/rt/rcontrib.c:371-392 | The counted rays in order keep the table's modifiers and bin counts |
| Rcontrib.CountAllCounts | src/rt/rcontrib.c:344-354 | From a full countdown k >= 1, n counted rays append floor(n / k) records and leave n mod k rays pending; with k <= 0 no record is written |
| Rcontrib.Final | src/rt/rcontrib.c:393-400 | The final step keeps every record already written |
| Rcontrib.Kept | src/rt/rcontrib.c:373-378 | The rays the loop keeps, as many as it counts |
| Rcontrib.Handled | src/rt/rcontrib.c:390-391 | The counted rays the loop handles before the budget stops it |
| Rcontrib.KeptPrefix | src/rt/rcontrib.c:371-392 | The rays kept from a prefix of the input are a prefix of those kept from all of it |
| Rcontrib.KeptNext | src/rt/rcontrib.c:373-378 | Reading one more ray keeps it exactly when it is counted |
| Rcontrib.LoopExit | src/rt/rcontrib.c:371-391 | Wherever the loop stops (end of input or spent budget) it has handled exactly the rays Handled names |
| Rcontrib.CountAllNext | src/rt/rcontrib.c:371-392 | One more counted ray extends the fold by one CountStep |
| Rcontrib.RcState.constructor | src/rt/rcontrib.c:62-67 | The process starts with an empty trace set, no modifiers, no records and ray counters at 0 |
| Rcontrib.RcState.Tranotify | src/rt/rcontrib.c:97-123 | OVOID empties the trace set and lifts the stop; a registered modifier joins it unless it is full, which warns once and stops insertions; nothing else changes |
| Rcontrib.RcState.AddModifier | src/rt/rcontrib.c:142-188 | Duplicate name: USER error; MAXMODLIST reached: INTERNAL error; a constant must select one bin, otherwise the count must be positive; the new record has that many zero bins and is stored under its name |
| Rcontrib.RcState.Init | src/rt/rcontrib.c:243-252 | raysleft is the ray budget, account starts at accumulate, waitflush is 0 for a picture of more than one column else xres |
| Rcontrib.RcState.TraceContrib | src/rt/rcontrib.c:267-292 | Untraced hits change nothing; a traced modifier without a record is an error; an in-range bin gains exactly the contribution (times the ray colour with contrib); an out-of-range bin warns and changes nothing; the new bins and warnings are those of HitEffect |
| Rcontrib.RcState.FlushBins | src/rt/rcontrib.c:347-351 | The record lists every registered modifier's bins in registration order, and every bin is then zero |
| Rcontrib.RcState.DoneContrib | src/rt/rcontrib.c:338-355 | The bins, account and records become those of Done: at account 1 one record of all bins is appended, the bins are zeroed and account restarts; nothing else changes |
| Rcontrib.RcState.TraceRay | src/rt/rcontrib.c:386 | Every hit of one evaluated ray passes through trace_contrib: on success the bins are AddHits of the old bins and the warnings gain the bad-bin warnings of the hits; otherwise the error; records, counters and the trace set are unchanged |
| Rcontrib.RcState.TraceNext | src/rt/rcontrib.c:386 | One more hit through trace_contrib turns the bins and warnings of AddHits on the hits before it into those of AddHits on the hits up to it, failing exactly when that fails; nothing else changes |
| Rcontrib.RcState.CountRay | src/rt/rcontrib.c:379-389 | A counted ray is numbered (starting over past INT_MAX), evaluated unless it is a flush marker, then counted down: the bins, account and records are CountStep of the old ones |
| Rcontrib.RcState.FinalRecord | src/rt/rcontrib.c:393-400 | The bins, account and records become Final of the old ones: a partial batch warns, reduces accumulate and writes one more record of the bins, which are then zeroed; with accumulate <= 0 one record is written |
| Rcontrib.RcState.Step | src/rt/rcontrib.c:371-392 | A zero-length ray is skipped unless accumulate is 1, changing no bin, record or counter; a counted ray applies CountStep, uses up one ray of a non-zero budget, and the loop stops when the budget reaches 0 |
| Rcontrib.RcState.Loop | src/rt/rcontrib.c:371-392 | The bins, account and records after the loop are CountAll over the handled rays; the budget drops by their number |
| Rcontrib.RcState.Run | src/rt/rcontrib.c:359-404 | With accumulate k >= 1 exactly ceil(n / k) records for n handled rays, with accumulate <= 0 exactly one; the final state is Final of CountAll over the handled rays (RunRecords gives each record's bins); "unexpected EOF" exactly when fewer rays than the budget were counted |
| RcontribBatches.AddHitsSums | src/rt/rcontrib.c:283-291 | After a ray, each bin is its old value plus the contributions of exactly the traced hits whose bin number selects it |
| RcontribBatches.AddHitsErrIff | src/rt/rcontrib.c:277-280 | A ray fails exactly when one of its hits is traced and its modifier has no record |
| RcontribBatches.Base | src/rt/rcontrib.c:347-354 | The first batch starts from the bins before the loop, later ones from cleared bins; both keep the modifiers and bin counts |
| RcontribBatches.BatchOf | src/rt/rcontrib.c:344-354 | A batch holds at most accumulate rays |
| RcontribBatches.HoldsNext | src/rt/rcontrib.c:386-388 | Tracing one more ray adds its hits to every bin's running sum |
| RcontribBatches.SnapshotHolds | src/rt/rcontrib.c:347-351 | A record taken of bins holding base plus sums holds base plus sums, modifier by modifier |
| RcontribBatches.ZeroedHolds | src/rt/rcontrib.c:350 | Clearing the bins restarts every running sum from zero |
| RcontribBatches.BatchOfFront | src/rt/rcontrib.c:344-354 | A completed batch does not change when more rays follow |
| RcontribBatches.BatchOfLast | src/rt/rcontrib.c:344-354 | One more ray extends the open batch by that ray |
| RcontribBatches.RecordHoldsBins | src/rt/rcontrib.c:347-351 | A record holds a batch exactly when it has one bin list per name, as long as the base's, and each bin is the base's plus the batch's contributions |
| RcontribBatches.StartBatches | src/rt/rcontrib.c:344-354 | The whole batches of n rays end exactly where the leftover partial batch begins |
| RcontribBatches.RecordsKept | src/rt/rcontrib.c:347-352 | Records of completed batches keep their contents when more rays follow |
| RcontribBatches.RecordsAppend | src/rt/rcontrib.c:347-352 | Writing the next batch's record extends the records of batches 0..j-1 to batches 0..j |
| RcontribBatches.BatchedPartial | src/rt/rcontrib.c:344-345 | A ray that does not complete a batch keeps the records and adds itself to the bins |
| RcontribBatches.FullRecords | src/rt/rcontrib.c:344-352 | The ray that completes batch j appends record j, holding the bins of batch j with that ray, after the kept records |
| RcontribBatches.FullBins | src/rt/rcontrib.c:350-354 | The ray that completes batch j leaves cleared bins, holding the empty batch j + 1 |
| RcontribBatches.BatchedNext | src/rt/rcontrib.c:382-388 | One more counted ray keeps every record holding its batch and the bins holding the open batch, whether it completes the batch or not |
| RcontribBatches.BatchedFull | src/rt/rcontrib.c:344-354 | A ray that completes batch j writes record j as the bins of batch j and clears the bins |
| RcontribBatches.BatchContents | src/rt/rcontrib.c:371-392 | With accumulate k >= 1 the loop writes one record per full batch, record j holding its base bins plus the contributions of rays jk..jk+k-1, and the bins hold the partial batch |
| RcontribBatches.NoCountdown | src/rt/rcontrib.c:344 | With accumulate <= 0 the loop writes no record and the bins collect every counted ray |
| RcontribBatches.RunRecords | src/rt/rcontrib.c:359-400 | A whole run writes ceil(n / k) records for k >= 1, record j holding batch j's contributions (the last batch possibly partial); for k <= 0 one record of all rays |
| RcontribBatches.ScaleNext | src/rt/rcontrib.c:291 | Adding v once more to x times v gives x + 1 times v |
| RcontribBatches.TimesScales | src/rt/rcontrib.c:291 | Adding v n times gives n times v |
| RcontribBatches.RaysSumUniform | src/rt/rcontrib.c:344-352 | When every ray adds the same colour v to a bin, N rays add exactly N times v, so a record after N = accumulate rays holds N times v |
| Triangulate.Vert2List.constructor | src/common/triangulate.c:75-78 | A new list has nv vertices and no user data (p is NULL) |
| Triangulate.PolyAlloc | src/common/triangulate.c:68-81 | NULL exactly when nv < 3; otherwise a fresh list with nv set and p NULL |
| Triangulate.ChainSumSnoc | src/common/triangulate.c:89-92 | Appending a vertex adds one cross term to the shoelace chain |
| Triangulate.ChainSumReverse | src/common/triangulate.c:89-92 | Reversing the vertices negates the shoelace chain |
| Triangulate.AreaReverse | src/common/triangulate.c:137-142 | Reversing the vertex order negates the signed area |
| Triangulate.PolyArea | src/common/triangulate.c:83-94 | The loop computes half the shoelace sum over consecutive pairs including the closing pair (nv-1, 0) |
| Triangulate.InsideTriangle | src/common/triangulate.c:100-122 | P is on the inner side of, or on, each of the edges B->C, C->A and A->B: the three cross products are all >= 0 (a definition; InsideTriangleOrientation and EdgeTestsBarycentric state its properties) |
| Triangulate.InsideTriangleOrientation | src/common/triangulate.c:100-122 | A point inside (all three cross products >= 0, boundary included) forces a non-negative orientation; each corner is inside exactly when the orientation is non-negative |
| Triangulate.EdgeTestsBarycentric | src/common/triangulate.c:100-122 | insideTriangle holds exactly when its three cross products are non-negative; the three sum to the orientation of A, B, C and, as weights on the corners, give the orientation times P: they are P's barycentric coordinates scaled by the orientation |
| Triangulate.EdgeTestAffine | src/common/triangulate.c:117-119 | One edge's cross product at a point given in coordinates along two sides is the side weight times the orientation |
| Triangulate.AffineEdgeTests | src/common/triangulate.c:110-121 | For P an affine combination la A + lb B + lc C the three cross products are la, lb and lc times the orientation |
| Triangulate.ConvexInside | src/common/triangulate.c:100-122 | Conversely every convex combination of the corners of a non-negatively oriented triangle is inside |
| Triangulate.PolySnip | src/common/triangulate.c:37-66 | -1 exactly when the absolute cross product is below EPSILON; 1 exactly when cross >= EPSILON and no other vertex that is not a corner lies inside; else 0 |
| Triangulate.StartOrder | src/common/triangulate.c:139-142 | Identity for positive area, else reversed: in either case distinct indices in range |
| Triangulate.StartOrderCounterClockwise | src/common/triangulate.c:137-142 | The starting index order always lists the polygon with non-negative area |
| Triangulate.RemoveAt | src/common/triangulate.c:181 | The in-place removal shifts the tail down one: V becomes V[..at] + V[at+1..n] + the untouched rest |
| Triangulate.StartIndices | src/common/triangulate.c:139-142 | The array is filled with the starting order |
| Triangulate.RemovalKeepsDistinct | src/common/triangulate.c:176-185 | Removing one position keeps the remaining indices in range and distinct |
| Triangulate.EarIsGood | src/common/triangulate.c:163-169 | Three distinct positions of a valid index list turning counter-clockwise by EPSILON give a good triangle |
| Triangulate.TryEar | src/common/triangulate.c:163-169 | The ear test returns polySnip's verdict and the triangle V[u], V[v], V[w], which is good whenever the verdict is an ear and flat (three distinct indices turning by less than EPSILON either way) whenever the verdict is colinear; the verdict is 0 exactly when the corner turns clockwise by EPSILON or more, or counter-clockwise by EPSILON or more with a remaining vertex inside it that is not at a corner's position |
| Triangulate.EmitStep | src/common/triangulate.c:172-174 | Appending a good triangle keeps every earlier triangle and acceptance; it is accepted when the callback accepted it |
| Triangulate.Corner | src/common/triangulate.c:159-161 | The wrap-around picks three distinct consecutive positions u, v, w of the remaining nv, in range |
| Triangulate.RemovalMoves | src/common/triangulate.c:176-185 | Removing position at moves its index from the remaining vertices to the removed ones: both lists stay distinct and in range and share no index |
| Triangulate.MiddlesStep | src/common/triangulate.c:164-181 | Removing the middle of a corner that was emitted or dropped as flat keeps the multiset of removed vertices equal to the middles of the triangles plus those of the flat corners |
| Triangulate.ClippedStep | src/common/triangulate.c:164-185 | One removal keeps the loop state: the remaining and removed indices partition as above, one removal per triangle or flat corner, the triangles good and accepted, the flat corners flat |
| Triangulate.FlatIsColinear | src/common/triangulate.c:52-53 | A flat corner is a colinear triple of the contour, so a contour with no colinear triple has none |
| Triangulate.ClipStep | src/common/triangulate.c:158-181 | One pass at a corner t = (V[u], V[v'], V[w]): the next vertex v' is v + 1 wrapped into 0..nv-1 and t's middle is V[v']; snip returns 0 exactly when that corner of the remaining polygon gets polySnip's 0 verdict, and then extends the run of m corners at verdict 0 before v by this one, capped at nv; an ear is handed to the callback and appended to the triangles, a colinear corner is flat; when the corner is removed V becomes V[..v'] + V[v'+1..nv] + the untouched rest; when snip returns 0 or the callback refuses, V is unchanged; a refused ear leaves good, accepted triangles before it |
| Triangulate.ClipNext | src/common/triangulate.c:158-185 | One pass keeps the loop state over the nv' vertices left (nv, or nv - 1 when a corner was removed), or ends in a refusal with the refused ear last; a pass that removes nothing leaves V unchanged and extends the run of 0 verdicts by one corner, capped at nv |
| Triangulate.ClipRound | src/common/triangulate.c:151-185 | With a positive counter, a round either goes on, keeping the loop state with one vertex fewer and the counter reset to 2 nv', or with the same vertices and the counter one smaller, and keeping the run of 0 verdicts as long as the passes since the last removal (capped at nv); or it ends in a refusal that changes nothing else |
| Triangulate.BlocksPrefix | src/common/triangulate.c:55-63 | Whether a vertex blocks a corner depends only on the listed vertices, so any prefix of the contour holding them gives the same answer |
| Triangulate.ZeroRunStart | src/common/triangulate.c:181-184 | Right after a removal, with the counter reset, the run of 0 verdicts is empty |
| Triangulate.ZeroRunShorter | src/common/triangulate.c:152-163 | A run of m corners at verdict 0 before a position contains every shorter run before it |
| Triangulate.StuckStep | src/common/triangulate.c:152-163 | A 0 verdict at position s extends the run before s into a run one longer (capped at n) before the next position |
| Triangulate.ZeroRunCovers | src/common/triangulate.c:152-163 | A run of m corners at verdict 0 before s gives the verdict 0 at each of the m positions before s, wrapping around |
| Triangulate.StuckAll | src/common/triangulate.c:149-156 | A run of 0 verdicts as long as the remaining polygon means every corner of it gets verdict 0 |
| Triangulate.ClipLoop | src/common/triangulate.c:147-186 | The loop ends with two vertices left (true), with the 2 nv counter run out before that, or on a refusal; in each case the removed vertices, triangles and flat corners satisfy the loop state, and rest is the vertices left, as many as the contour less the removed ones, at the front of V; when the counter ran out, every corner of rest (each position with the next two, wrapping around) gets polySnip's 0 verdict |
| Triangulate.ClipOutcome | src/common/triangulate.c:149-190 | Success removes nv - 2 distinct vertices, one per triangle or flat corner, the removed vertices being exactly the middles of those; with no three vertices colinear within EPSILON it emits exactly nv - 2 triangles; a refusal ends on a good triangle refused after accepted ones; the vertices left and the removed ones split the contour indices, and a run out counter leaves 3 or more vertices, every corner of which gets polySnip's 0 verdict |
| Triangulate.PolyTriangulate | src/common/triangulate.c:124-191 | False with no triangles for fewer than 3 vertices; every triangle has distinct in-range vertices and orientation >= EPSILON, and every dropped corner is flat; all but the last triangle were accepted by the callback; true only when the removed middles are nv - 2 distinct contour indices, as many as the triangles plus the flat corners, and as a multiset exactly their middles; true with no colinear triple means exactly nv - 2 triangles; false for 3 or more vertices only when the callback refused the last triangle or the 2 nv counter ran out with fewer than nv - 2 removals; for 3 or more vertices the vertices left and the removed middles split the nv contour indices, and when the counter ran out 3 or more vertices are left and every corner of them (each with the next two, wrapping around) gets polySnip's 0 verdict: a clockwise turn by EPSILON or more, or a counter-clockwise one with another remaining vertex inside |
| PerezCalendar.RollFromPast | src/daysim/calculate_Perez.c:120-131 | Tests for months before the current one never fire |
| PerezCalendar.RollFromKeepsDate | src/daysim/calculate_Perez.c:120-131 | From test k on, the day of the year is kept (less 365 past December 31), the month stays valid and the day fits its month |
| PerezCalendar.RollFromAtMonth | src/daysim/calculate_Perez.c:120-131 | The test of the date's own month keeps the day of the year |
| PerezCalendar.InMonthStays | src/daysim/calculate_Perez.c:120-131 | A day within its month passes every test unchanged |
| PerezCalendar.DecemberCarries | src/daysim/calculate_Perez.c:131 | A day past December 31 becomes that day less 31 in January, one year less |
| PerezCalendar.YearLength | src/daysim/calculate_Perez.c:120-131 | The month lengths of the tests add up to 365 days, 334 of them before December |
| PerezCalendar.DaysBeforeMonotone | src/daysim/calculate_Perez.c:120-131 | Days before later months are at least those before earlier ones plus the month between |
| PerezCalendar.RolloverKeepsDate | src/daysim/calculate_Perez.c:120-131 | The sequential month tests (Rollover, i.e. RollFrom from January) keep the day of the year modulo one year, leave a month in 1..12, and the day within its month unless the year overflowed; several months can be carried in one call |
| PerezCalendar.DayCarry | src/daysim/calculate_Perez.c:115-118 | The carried days leave an hour in [0, 24) for a non-negative hour and in (-24, 0] for a negative one |
| PerezCalendar.MonthTest | src/daysim/calculate_Perez.c:120-131 | One month test moves on exactly when the day is past the end of that month (December to January) |
| PerezCalendar.RollMonths | src/daysim/calculate_Perez.c:120-131 | The twelve tests in order compute the rollover |
| PerezCalendar.SimClock.AddTimeStep | src/daysim/calculate_Perez.c:112-132 | The hour gains time_step/60 less the carried whole days, the day gains them and rolls over into later months; the hour ends in [0, 24) for a non-negative hour |
| SkyPatches.RingTablesArePrefixSums | src/daysim/calculate_Perez.c:636-639 | number145 and number2305 are the prefix sums of their ring divisions, ending at 144 and 2304 |
| SkyPatches.RingOf | src/daysim/calculate_Perez.c:636 | Every patch index 0..144 lies in exactly one ring of number145 |
| SkyPatches.RingFrom | src/daysim/calculate_Perez.c:636 | The ring search from r finds the ring whose bounds enclose i |
| SkyPatches.RingListingSizes | src/daysim/calculate_Perez.c:2404-2494 | Each ring's theta and phi listing has as many entries as the ring has patches |
| SkyPatches.ThetaOrdered | src/daysim/calculate_Perez.c:2404-2444 | theta_ordered gives a fresh array of 145 entries, entry i being the listed theta |
| SkyPatches.PhiOrdered | src/daysim/calculate_Perez.c:2447-2494 | phi_ordered gives a fresh array of 145 entries, entry i being the listed phi |
| SkyPatches.ThetaByRing | src/daysim/calculate_Perez.c:2404-2444 | A patch in ring r has theta 84 - 12r (the zenith patch 0) |
| SkyPatches.ThetaRingConstant | src/daysim/calculate_Perez.c:2404-2444 | Every entry of ring r of theta_ordered is 84 - 12r |
| SkyPatches.PhiByRing | src/daysim/calculate_Perez.c:2447-2494 | A patch has phi (index - ring base) * 360 / ring count; the zenith patch has phi 0 |
| SkyPatches.PhiRingSpacing | src/daysim/calculate_Perez.c:2447-2494 | Entry j of ring r of phi_ordered is j times the ring's azimuth step |
| SkyPatches.PhiStepIsDivision | src/daysim/calculate_Perez.c:636-639 | Each ring's azimuth step is 360 over its ring_division145 entry |
| SkyPatches.SlotOfCorrect | src/daysim/calculate_Perez.c:314-316 | For an azimuth in (0, 360] the loop's slot test holds for slot ceil(az*n/360) - 1, in 0..n-1 |
| SkyPatches.SlotUnique | src/daysim/calculate_Perez.c:314-316 | The slot test holds for at most one slot, and only for an azimuth in (0, 360] |
| SkyPatches.SlotBounds | src/daysim/calculate_Perez.c:314-316 | An azimuth in slot l of width w, with nn slots making a full turn, lies in (0, 360] and divides by w into (l, l+1] |
| SkyPatches.BandAsWritten | src/daysim/calculate_Perez.c:303-311 | The band tests give a band in 0..7 with base number145[band] and a default index 0, or 144 in the top band |
| SkyPatches.GetSkyPatchNumber | src/daysim/calculate_Perez.c:289-319 | The sequential band tests and the slot loop compute the as-written patch, always in [0, 144] |
| SkyPatches.BandCorrected | src/daysim/calculate_Perez.c:304-311 | The corrected bands (altitude 90 included in the top band) have base number145[band] |
| SkyPatches.PatchCorrectedInBand | src/daysim/calculate_Perez.c:289-319 | The corrected lookup gives a patch of the altitude's band whose phi slot holds the azimuth |
| SkyPatches.PatchCorrectedRing | src/daysim/calculate_Perez.c:289-319 | The corrected patch lies in its band's range of indices |
| SkyPatches.PatchCorrectedSlot | src/daysim/calculate_Perez.c:289-319 | The corrected patch's slot contains the azimuth turned into (0, 360] |
| SkyPatches.BandSlotPhi | src/daysim/calculate_Perez.c:313-316 | The patch of the slot holding an azimuth in (0, 360] starts, in phi_ordered, at most one slot width below it |
| SkyPatches.PhiInBand | src/daysim/calculate_Perez.c:293-316 | Slot l of band j is patch number145[j] + l, listed at l times the slot width |
| SkyPatches.BandsAreRings | src/daysim/calculate_Perez.c:293-301 | Below the zenith, the patches[] counts of get_sky_patch_number are the ring sizes of the direct-patch tables |
| SkyPatches.RingOfIs | src/daysim/calculate_Perez.c:636 | A patch whose index lies in ring j's range belongs to ring j |
| SkyPatches.ZenithMissesZenithPatch | src/daysim/calculate_Perez.c:304-311 | As written, altitude 90 with azimuth 6 gives patch 0 of the horizon band; corrected, the zenith patch 144 |
| SkyPatches.NegativeAzimuthMissesBand | src/daysim/calculate_Perez.c:313-316 | As written, azimuth -90 at altitude 42 gives patch 0; corrected, 101 |
| SkyPatches.PatchAsWrittenCases | src/daysim/calculate_Perez.c:289-319 | get_sky_patch_number (PatchAsWritten) agrees with the corrected lookup below altitude 90 for azimuths in (0, 360]; any other azimuth gets the band's initial patch, 144 in the zenith band and 0 elsewhere; at altitude 90 the azimuth's slot among the 30 of the horizon band is returned, which is patch 0 exactly for azimuths up to 12 |
| SkyPatches.Ring145 | src/daysim/calculate_Perez.c:1596 | For altitude in [0, 90] the 145-patch ring is in 0..7 |
| SkyPatches.Ring2305 | src/daysim/calculate_Perez.c:1629 | For altitude in [0, 90] the 2305-patch ring is in 0..28 |
| SkyPatches.RingOffset | src/daysim/calculate_Perez.c:1614-1619 | The offset in a ring of rd patches: trunc((270 - az)/(360/rd)) for az in (-90, 180), trunc((-90 - az)/(360/rd)) otherwise, and 0 for rd = 0 (a definition; RingOffsetInRing and RingOffsetCases state its properties) |
| SkyPatches.DirectPatch145 | src/daysim/calculate_Perez.c:1596-1619 | number145[r] + RingOffset(az, ring_division145[r]) for the ring r = Ring145(alt) (a definition; DirectPatchInRing and DirectPatchCases state its properties) |
| SkyPatches.DirectPatch2305 | src/daysim/calculate_Perez.c:1629-1635 | number2305[r] + RingOffset(az, ring_division2305[r]) for the ring r = Ring2305(alt) (a definition; DirectPatchInRing and DirectPatchCases state its properties) |
| SkyPatches.RingOffsetInRing | src/daysim/calculate_Perez.c:1614-1619 | For an azimuth in [-180, 180) the offset in a ring of n patches is in 0..n-1 |
| SkyPatches.OffsetInRange | src/daysim/calculate_Perez.c:1614-1619 | Any angle in [0, 360) divided by the patch width truncates to an offset in 0..n-1 |
| SkyPatches.DirectPatchInRing | src/daysim/calculate_Perez.c:1609-1635 | The 145-patch index is in 0..144, at least number145[r] and, when r < 7, below number145[r + 1]; the 2305-patch index is in 0..2304, at least number2305[r] and, when r < 28, below number2305[r + 1] |
| SkyPatches.DirectPatchInRing145 | src/daysim/calculate_Perez.c:1614-1619 | The 145-patch direct patch lies in its ring |
| SkyPatches.DirectPatchInRing2305 | src/daysim/calculate_Perez.c:1630-1635 | The 2305-patch direct patch lies in its ring |
| SkyPatches.DirectPatchAzimuth180 | src/daysim/calculate_Perez.c:1614-1619 | As written, azimuth 180 at altitude 0 gives patch -22; corrected, 7 |
| SkyPatches.RingOffsetCorrectedInRing | src/daysim/calculate_Perez.c:1614-1619 | With 180 in the first branch, every azimuth in (-180, 180] gives an offset in the ring |
| SkyPatches.DirectPatchCorrectedInRing | src/daysim/calculate_Perez.c:1609-1635 | The corrected direct patches lie in their rings for every azimuth in (-180, 180] |
| SkyPatches.DirectPatchCorrectedInRing145 | src/daysim/calculate_Perez.c:1614-1619 | The corrected 145-patch direct patch lies in its ring |
| SkyPatches.DirectPatchCorrectedInRing2305 | src/daysim/calculate_Perez.c:1630-1635 | The corrected 2305-patch direct patch lies in its ring |
| SkyPatches.RingOffsetCases | src/daysim/calculate_Perez.c:1614-1619 | The offset of chosen_value (RingOffset) equals the corrected one for every azimuth but 180; at 180, in any ring of two or more patches, it is negative while the corrected one is not |
| SkyPatches.DirectPatchCases | src/daysim/calculate_Perez.c:1596-1635 | DirectPatch145 and DirectPatch2305 equal the corrected direct patches for every azimuth but 180; at 180, below the zenith ring, both fall before the first patch of their ring |
| SkyPatches.DirectPatchCases145 | src/daysim/calculate_Perez.c:1596-1619 | The 145-patch half of DirectPatchCases |
| SkyPatches.DirectPatchCases2305 | src/daysim/calculate_Perez.c:1629-1635 | The 2305-patch half of DirectPatchCases |
| SkyPatches.NextLit | src/daysim/calculate_Perez.c:1650-1659 | The next lit patch from k: every patch skipped is dark, the one found is lit, or the end |
| SkyPatches.NextLitSkips | src/daysim/calculate_Perez.c:1650-1659 | Searching from any point of a dark stretch finds the same next lit patch |
| SkyPatches.BuildChain | src/daysim/calculate_Perez.c:1650-1659 | The base and every lit patch point to the next lit patch (or the end); all other entries are unchanged |
| SkyPatches.LinkStep | src/daysim/calculate_Perez.c:1654-1657 | A lit patch joins the chain: the previous link points at it, it points at the end, and the chain invariant holds one patch further |
| SkyPatches.SkipStep | src/daysim/calculate_Perez.c:1653-1654 | The first or an unlit patch leaves the chain invariant holding one patch further |
| SkyPatches.ChainDone | src/daysim/calculate_Perez.c:1650-1659 | Once all patches are scanned, every link points to the next lit patch |
| PerezParams.ClampProperties | src/daysim/calculate_Perez.c:2035-2063 | Clamping lands in range, keeps in-range values, is idempotent and keeps order |
| PerezParams.FixIlluminancesRange | src/daysim/calculate_Perez.c:2068-2078 | After the fix the direct illuminance is in [0, 127500]; plausible pairs are kept; an over-max direct is capped with diffuse unchanged, any other violation zeroes both; a second fix changes nothing exactly when the first left a plausible or zeroed pair |
| PerezParams.SkyState.CheckParametrization | src/daysim/calculate_Perez.c:2032-2064 | Clearness is clamped to [1, 12.1] and brightness to [0.01, 0.6]; illuminances unchanged |
| PerezParams.SkyState.CheckIlluminances | src/daysim/calculate_Perez.c:2068-2078 | The illuminances become the fixed pair; the direct one lies in [0, 127500] |
| PerezParams.ClearnessBand | src/daysim/calculate_Perez.c:2283-2290 | The band tests give a band in 0..7 |
| PerezParams.ClearnessBandBounds | src/daysim/calculate_Perez.c:2340-2347 | In [1, 14) the band is the one whose bounds enclose epsilon, and the band grows with epsilon |
| PerezParams.PerezBand | src/daysim/calculate_Perez.c:2328-2347 | Fatal exactly for epsilon outside [1, 12.1]; otherwise the band encloses epsilon and Delta only rises, to 0.2, for 1.065 < epsilon < 2.8 |
| PerezParams.CoefficientBlock | src/daysim/calculate_Perez.c:2292-2297 | x[i][j] is table entry 20 * band + 4i + j |
| PerezParams.SelectCoefficients | src/daysim/calculate_Perez.c:2264-2297 | Error exactly for epsilon out of range; otherwise the band and Delta of PerezBand and the 5 x 4 block of that band's row |
| PerezParams.Normsc | src/daysim/calculate_Perez.c:604-624 | normsc is the fitted polynomial of the chosen sky type in (altitude - pi/4)/(pi/4) |
| PerezParams.Horner | src/daysim/calculate_Perez.c:619-621 | Horner's scheme from the highest coefficient down evaluates the polynomial |
| PerezParams.HornerIsPolyFrom | src/daysim/calculate_Perez.c:618-621 | The nested form cs[0] + x(cs[1] + x(...)) times x^e equals the sum of cs[k] x^(k+e) |
| PerezParams.HornerIsPoly | src/daysim/calculate_Perez.c:618-621 | Horner's nested form equals the sum of cs[k] x^k for every coefficient list and every x |

## Left out

- Floating point: doubles and floats are exact reals. The float storage of `hour`, of the coefficient block `x` and of the theta/phi tables is not modelled. Neither is rounding in the shoelace sum, the orientation tests or the slot bounds.
- FTINY, FHUGE, OMARGIN, COLRFMT, OVOID and INT_MAX are taken as the double-precision build's constants. The headers that define them are not part of this model.
- oconv I/O: option parsing, `readoct`/`readobj`/`writeoct`, `printargs` and the messages. `readoct` becomes a `SavedOctree` value; `readobj` becomes the list of new objects' extents; `add2bbox` becomes each object's extent.
- oconv `combine` (the optimisation pass after insertion) is not part of this model.
- oconv `octalloc` failure ("out of octree space") is a system error and is not modelled.
- `insertelem` is modelled as an append. The lemma `Octree.InsertOnlyAdds` shows that it keeps each set sorted because main inserts ids in increasing order.
- Oconv.Converter.Convert: refuses with `NoMinimumCube` any non-empty scene whose mincusize = cusize/resolu - FTINY is not positive. That is a cube edge of at most resolu x FTINY, 1.024e-3 at the default resolution. C converts such scenes. It subdivides without end only where at least objlim objects meet every ever-smaller cube around a point without containing it. The model needs a positive minimum size to bound insertion.
- Oconv option parsing, `-r` included, is not modelled. A zero or negative `-r` (a division by zero or a negative minimum size in C) would also be refused with `NoMinimumCube`.
- MAXSET, MAXTSET and MAXMODLIST are parameters (`Env.maxset`, `RcState.maxtset`, `RcState.maxmodlist`), since their values come from headers.
- rcontrib ray tracing: `eval_ray`, `rayvalue`, `raycontrib`, `worldfunc` and the material functions are foreign. Each ray arrives with its list of hits: modifier, bin value, contribution and colour.
- rcontrib expressions: `eparse`/`evalue` become `BinExpr`, a constant value or a non-constant expression.
- rcontrib output: `getostream`, `mod_output`, `end_record`, the flush wait and the recover/reload paths. A written record is the snapshot of the bins.
- rcontrib processes: `nproc > 1`, `parental_loop`, `preload_objs` and shared memory are concurrency.
- rcontrib `addmodfile` (a loop of `addmodifier` over a file's names) is file input.
- rcontrib: `malloc` failure in `addmodifier` is not modelled.
- Rcontrib.Hit carries the modifier number `omod` and the modifier name as independent fields, while trace_contrib finds the record by `objptr(omod)->oname` (src/rt/rcontrib.c:276). A traced modifier without a record, the CONSISTENCY error of src/rt/rcontrib.c:278-279, can therefore arise in the model for names C never produces; the model only widens the inputs there.
- Triangulate: `malloc` failure in `polyAlloc` and `polyTriangulate` is not modelled, nor is the leak of `V` on the early returns.
- Triangulate: new vertex lists start at the origin, while the C contents are unspecified.
- Triangulate: the callback is a pure function of the triangles emitted so far and the new one.
- Triangulate.PolyTriangulate: does not prove that the 2 nv counter never runs out on a simple polygon (the two-ears theorem), nor that the triangles are ears or tile the polygon; it states the count and the removed vertices of a successful run, the good and flat corners it used, and, for a counter that ran out, that every corner of the remaining polygon got polySnip's 0 verdict.
- calculate_Perez: `asin`/`atan2` in `get_sky_patch_number`, and the sun position of the direct patch, are replaced by their results (altitude and azimuth in degrees).
- SkyPatches.DirectPatchInRing: requires an altitude in [0, 90], which the caller guarantees by skipping the hours with the sun below the horizon (src/daysim/calculate_Perez.c:262-263), and an azimuth in [-180, 180); azimuth 180 is the third finding below.
- SkyPatches.DirectPatchCorrectedInRing: requires an altitude in [0, 90], for the same reason.
- SkyPatches.BuildChain: the number of direct coefficients is a parameter, and `SkyPatchLuminance` is the array `lum`.
- calculate_Perez warnings: the messages of `check_parametrization` (printed only with `all_warnings` near sunset) and of `check_illuminances` are I/O.
- calculate_Perez `exit(1)` on an epsilon out of range becomes the error `EpsilonOutOfRange`.
- SkyPatches.ThetaOrdered and SkyPatches.PhiOrdered: the `malloc` failure of theta_ordered and phi_ordered, a fatal message and `exit(1)` (src/daysim/calculate_Perez.c:2408-2412, 2453-2456), is not modelled, since allocation in the model cannot fail.
- The Perez luminance formulas after the band selection (`c_perez`, `exp`, `pow`, `cos`), and everything else in calculate_Perez.c built on transcendental functions, are not modelled.
- The file handling of calculate_perez and the `dc_shading` walks are not modelled.

## Findings

| source | as written | input that shows it | evidently intended | confidence | as-written member | corrected member |
|---|---|---|---|---|---|---|
| src/daysim/calculate_Perez.c:311 | The top band test is `a < 90.0`, so altitude 90 (Dz = 1) matches no band. The horizon band 0 is scanned instead: the result is the azimuth's slot among its 30 patches, patch 0 for an azimuth up to 12 (also for Dx = Dy = 0, where atan2 gives 0) | Dx = Dy = 0, Dz = 1, or altitude 90 with azimuth 6 | The zenith patch 144 | medium, not executed | SkyPatches.ZenithMissesZenithPatch | SkyPatches.PatchCorrectedInBand |
| src/daysim/calculate_Perez.c:313-316 | `atan2` gives azimuths in (-180, 180], and the slot loop accepts only (0, 360], so any azimuth <= 0 below the zenith band falls through to patch 0 | altitude 42, azimuth -90 | Patch 101, the slot of azimuth 270 in band 3 | high, not executed | SkyPatches.NegativeAzimuthMissesBand | SkyPatches.PatchCorrectedInBand |
| src/daysim/calculate_Perez.c:1614-1619 | Azimuth exactly 180 takes the second branch, (-90 - 180)/(360/30) truncates to -22, and the index lands before its ring | altitude 0, azimuth 180 | Patch 7, the same as azimuth 179.9 in ring 0 | low, not executed | SkyPatches.DirectPatchAzimuth180 | SkyPatches.DirectPatchCorrectedInRing |
