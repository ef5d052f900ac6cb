# Torus, cone and material selection of the grafica-es2 WebGL exercises

This project models the geometry core of a set of WebGL lighting exercises:

- **Torus.** A parametric torus fills three flat buffers: `vertices`, `normals` and `indices`.
  - Its grid has (nDiv + 1) x (nDiv + 1) samples, stored ring by ring.
  - The index buffer holds two triangles per grid cell.
- **Cone.** A cone is built in two steps.
  - First, a support array of nDiv + 2 points: the base centre, the apex and nDiv rim points.
  - Then it is "de-indexed". Each call to `updateNormal` copies a triangle's three corners into `verticesToDraw` and appends its face normal, computed with `cross`/`getNormal`, three times to `normals`.
- **Buffer set-up.** The two `initVertexBuffers` functions return the number of elements to draw, or -1 when a WebGL step fails.
- **Material checkboxes.** The `materiali` map backs the material checkboxes. Every handler fed `true` leaves exactly its own material ticked; a handler fed `false` changes nothing.

The model is split into modules:

- **`Layout`.** The flat-buffer layout both builders share: a point is three consecutive numbers, and a grid is emitted row-major.
- **`JsMath`.** `Math.PI`, with `Math.sin`/`Math.cos` as uninterpreted parameters, and the ToUint16 conversion of `new Uint16Array`.
- **`Vectors`.** `cross` and `getNormal` over the reals.
- **`TorusMesh`.** The class `Torus`, whose constructor runs the source's nested loops in methods that append to the three fields.
  - It also holds `initVertexBuffersCube`.
  - Each loop method is proved against a specification function of the finished buffer.
- **`ConeMesh`.** The class `Cone`, with `GetVertex`, `UpdateNormal` and a constructor that runs the rim loop and the triangle loop.
  - It also holds `initVertexBuffers`.
  - The finished buffers are specified by `ConeSupport`, `ConeTriangles`, `DrawBuffer` and `NormalBuffer`.
- **`Materials`.** The class `MaterialPanel` holding `materiali`: the two ways the pages initialise it, and the `onFinishChange` handler with its clearing loop.
  - It is specified by the function `Select`.

Sources and their twins:

- Each exercise ships as ES2015 source under `src/` and as a Babel build under `build/`. They compute the same thing.
  - The torus page is `src/esercizio1.js` and `build/esercizio1.js`.
  - The cone pages are `src/esercizio1b.js`, `build/esercizio1a.js` and `build/esercizio2.js`.
- One model stands for all the copies. The table below cites whichever copy is clearest for each member.
- The torus page's handlers compare with `value == true` and the cone pages' with `value === true`. For the boolean a checkbox delivers, the two agree.

## Model

| member | source | states |
|---|---|---|
| Vectors.Cross | src/esercizio1b.js:73-87 | no contract of its own: (UyVz - UzVy, UzVx - UxVz, UxVy - UyVx); its properties are CrossOrthogonal, CrossAntisymmetric and CrossSelf |
| Vectors.CrossOrthogonal | build/esercizio1a.js:60-74 | the cross product of two vectors is orthogonal to both |
| Vectors.CrossAntisymmetric | build/esercizio2.js:47-61 | swapping the arguments of `cross` negates the result |
| Vectors.CrossSelf | src/esercizio1b.js:73-87 | the cross product of a vector with itself is zero |
| Vectors.GetNormal | src/esercizio1b.js:89-101 | no contract of its own: cross(v2 - v1, v3 - v1); its properties are GetNormalOrthogonal, GetNormalDegenerate, GetNormalRotation, GetNormalReversed and GetNormalHorizontal |
| Vectors.GetNormalOrthogonal | src/esercizio1b.js:89-101 | `getNormal` is orthogonal to all three edges of its triangle |
| Vectors.GetNormalDegenerate | build/esercizio2.js:63-75 | a triangle with two equal vertices has the zero normal |
| Vectors.GetNormalRotation | src/esercizio1b.js:89-101 | starting the triangle from another vertex, same winding, gives the same normal |
| Vectors.GetNormalReversed | src/esercizio1b.js:89-101 | reversing the winding negates the normal |
| Vectors.GetNormalHorizontal | src/esercizio1b.js:89-101 | a triangle in a plane y = const has a normal with x = z = 0 |
| JsMath.ToUint16 | src/esercizio1.js:449 | a stored index lands in 0..65535, is unchanged if already there, and is changed if it is 65536 or more |
| JsMath.Uint16Array | src/esercizio1.js:449 | the stored array has the length of the indices and every element in 0..65535; Uint16ArrayKeeps says when it equals them |
| JsMath.Uint16ArrayKeeps | src/esercizio1.js:449 | `new Uint16Array(s)` equals `s` exactly when every element is in 0..65535 |
| TorusMesh.TorusNormal | src/esercizio1.js:145-147 | no contract of its own: (cos theta cos phi, cos theta sin phi, sin theta); TorusSampleAt places it in `normals` and TorusPoint ties it to the position's z |
| TorusMesh.TorusPoint | src/esercizio1.js:138-147 | a vertex's z is `radiusInner` times its normal's z, both being sin(theta) scaled |
| TorusMesh.TorusBufferSizes | src/esercizio1.js:134-161 | `vertices` and `normals` end with 3(nDiv+1)^2 numbers each, `indices` with 6 nDiv^2 |
| TorusMesh.TorusSampleAt | src/esercizio1.js:134-155 | grid sample (j, i) is vertex number j(nDiv+1)+i, the loop's p1, with the position and normal of angles (2πj/nDiv, 2πi/nDiv) |
| TorusMesh.CellIndices | src/esercizio1.js:155-159 | a cell emits six indices; CellShape, CellIndicesInRange and TorusCellAt state their shape, range and place |
| TorusMesh.TorusCellAt | src/esercizio1.js:153-161 | cell (j, i) is entries 6(j nDiv + i) .. +6 of `indices`, in the loops' row-by-row order |
| TorusMesh.CellIndicesInRange | build/esercizio1.js:117-123 | every index of a cell j, i < nDiv lies in [0, (nDiv+1)^2) |
| TorusMesh.CellShape | build/esercizio1.js:119-123 | a cell's triangles share the edge p2-(p1+1), p2 = p1 + (nDiv+1), and p1+1 stays in ring j |
| TorusMesh.TorusIndicesInRange | src/esercizio1.js:153-161 | every emitted index names one of the (nDiv+1)^2 vertices |
| TorusMesh.TorusLargestIndex | src/esercizio1.js:155-159 | the bound is reached: (nDiv+1)^2 - 1, the last cell's p2+1, is emitted |
| TorusMesh.Torus.constructor | src/esercizio1.js:123-161 | the three buffers equal the specified grid of positions, normals and cell indices |
| TorusMesh.Torus.SampleGrid | build/esercizio1.js:98-115 | the outer sampling loop appends rings j = 0..nDiv in order, leaving `indices` alone |
| TorusMesh.Torus.SampleRing | build/esercizio1.js:101-114 | the inner sampling loop appends samples i = 0..nDiv of one ring |
| TorusMesh.Torus.PushSample | src/esercizio1.js:138-149 | one sample appends its position triple and its normal triple |
| TorusMesh.Torus.TriangulateCells | build/esercizio1.js:117-125 | the index loops append the cells' six indices row by row, leaving positions and normals alone |
| TorusMesh.Torus.TriangulateRow | src/esercizio1.js:154-160 | one row of cells appends (p1, p2, p1+1, p1+1, p2, p2+1) per cell |
| TorusMesh.InitTorusBuffers | src/esercizio1.js:429-451 | returns `indices.length` = 6 nDiv^2 and uploads the Uint16 image of the indices when every step succeeds, else -1; with at most 65536 vertices the upload is exact |
| TorusMesh.CubeIndicesFit | src/esercizio1.js:431 | the page's `Torus(200, 1, 0.2)` has 40401 vertices, so every index fits 16 bits |
| TorusMesh.InitVertexBuffersCube | build/esercizio1.js:527-549 | the page draws 240000 indices, or reports -1 |
| ConeMesh.RimPoint | src/esercizio1b.js:134-140 | a rim point lies at height `centre[1]`, the base plane |
| ConeMesh.Next | src/esercizio1b.js:143-154 | the neighbour of a rim point is a rim point, and it is point 2 exactly for the last rim point |
| ConeMesh.RimTriangles | src/esercizio1b.js:144-153 | one pass of the triangle loop makes two `updateNormal` calls; RimTrianglesWrap states both branches |
| ConeMesh.TriangleBlock | src/esercizio1b.js:109-113 | the block `updateNormal` draws for a triangle has nine numbers; TriangleBlockCorners says which |
| ConeMesh.NormalBlock | src/esercizio1b.js:115-116 | the block `updateNormal` appends to `normals` has nine numbers; NormalBlockRepeats says it is the face normal three times |
| ConeMesh.TriangleBlockCorners | src/esercizio1b.js:108-113 | the nine numbers drawn for a triangle are its three corners, copied in call order |
| ConeMesh.NormalBlockRepeats | src/esercizio1b.js:115-116 | the nine numbers appended to `normals` are the face normal three times |
| ConeMesh.DrawOneMore | src/esercizio1b.js:108-117 | each triangle extends both buffers by its block and leaves earlier entries unchanged |
| ConeMesh.ConeTriangleCount | src/esercizio1b.js:143-154 | the constructor calls `updateNormal` exactly 2 nDiv times |
| ConeMesh.RimTrianglesWrap | build/esercizio2.js:138-149 | both branches of the triangle loop emit (next(i), i, 1) and (i, next(i), 0) |
| ConeMesh.ConeTriangleAt | build/esercizio1a.js:146-157 | calls 2(i-2) and 2(i-2)+1 belong to rim point i; the last rim point is linked back to point 2 |
| ConeMesh.ConeTrianglesInRange | src/esercizio1b.js:143-154 | every index handed to `updateNormal` lies in [0, nDiv+2) |
| ConeMesh.ConeTrianglesReadable | src/esercizio1b.js:104-106 | no `getVertex` call of the constructor reads past the support array |
| ConeMesh.ConeSupportLayout | src/esercizio1b.js:124-140 | the support array has nDiv+2 points: the centre at 0, the apex (0, height, 0) at 1, and rim point k at angle k·angleStep at 2+k; all but the apex have y = 0 |
| ConeMesh.RimPointAt | build/esercizio2.js:129-135 | the k-th rim point pushed is the one at angle k·angleStep |
| ConeMesh.ConeBufferSizes | src/esercizio1b.js:481-491 | `verticesToDraw` and `normals` both end with 18 nDiv numbers |
| ConeMesh.DrawBlockAt | src/esercizio1b.js:108-113 | block k of `verticesToDraw` is the corners of the k-th triangle drawn |
| ConeMesh.NormalBlockAt | src/esercizio1b.js:115-116 | block k of `normals` is the k-th triangle's face normal |
| ConeMesh.ConeDrawnRim | build/esercizio2.js:138-149 | the blocks drawn for rim point i are the side triangle (next(i), i, apex) and the base triangle (i, next(i), centre) |
| ConeMesh.BaseNormalVertical | src/esercizio1b.js:143-154 | every base triangle has a vertical face normal |
| ConeMesh.ConeBaseNormals | src/esercizio1b.js:143-154 | the three normals stored for each base triangle have x = z = 0 |
| ConeMesh.Cone.GetVertex | src/esercizio1b.js:104-106 | returns the three numbers of support point idx |
| ConeMesh.Cone.UpdateNormal | build/esercizio2.js:86-108 | appends the triangle's corners to `verticesToDraw` and its normal three times to `normals`, leaving `vertices` unchanged |
| ConeMesh.Cone.constructor | src/esercizio1b.js:119-154 | the three buffers equal the specified support array, draw buffer and normal buffer |
| ConeMesh.Cone.GenerateVertices | src/esercizio1b.js:124-140 | the vertex loop pushes centre, apex, then the nDiv rim points at the accumulated angle |
| ConeMesh.Cone.LoadTriangles | src/esercizio1b.js:143-154 | the triangle loop appends the blocks of all 2 nDiv triangles in call order |
| ConeMesh.Cone.LoadRim | build/esercizio1a.js:147-156 | one pass of the triangle loop draws rim point i's side and base triangles, wrapping the last one to point 2 |
| ConeMesh.InitConeBuffers | src/esercizio1b.js:481-491 | returns `verticesToDraw.length / 3` = 6 nDiv when both uploads succeed, else -1 |
| ConeMesh.InitVertexBuffers | build/esercizio2.js:533-543 | the page's `Cone(400, 1, 2)` gives 2400 vertices to draw, or -1 |
| Materials.Cleared | src/esercizio1b.js:414 | the clearing loop keeps every name and unticks all of them |
| Materials.Select | src/esercizio1b.js:413-415 | a handler fed `true` keeps every name, adds its own, and leaves exactly its own ticked |
| Materials.SelectKeepsKeys | build/esercizio2.js:413-419 | for a listed material the set of names is unchanged |
| Materials.OnlySelectedUnique | src/esercizio1.js:300-308 | at most one material can be the only one ticked |
| Materials.SelectIdempotent | src/esercizio1.js:300-308 | ticking the same material again changes nothing |
| Materials.SelectLastWins | build/esercizio1.js:263-273 | after two selections only the last one counts |
| Materials.SelectSelected | src/esercizio1b.js:411-418 | ticking the material that is already the only one ticked leaves the map as it was |
| Materials.DistinctKeyCount | src/esercizio1b.js:393-396 | a table of distinct names gives one checkbox per name |
| Materials.MaterialNamesDistinct | src/esercizio1b.js:246-392 | the 24 names of `materialData` are pairwise different |
| Materials.MaterialTable | src/esercizio1b.js:246-392 | the table has 24 names, brass among them |
| Materials.TableKeys | build/esercizio1a.js:398-402 | after the initialisation loop there is one checkbox per table name and no other |
| Materials.HandlerKeepsOneTicked | build/esercizio1a.js:416-425 | any handler fed `true` keeps the names and leaves exactly one ticked: its own |
| Materials.UntickLeavesNone | src/esercizio1b.js:428-429 | unticking the only ticked box, with a handler fed `false` changing nothing, leaves no box ticked: the state the page's forced re-tick avoids |
| Materials.MaterialPanel.Literal | src/esercizio1.js:253 | the torus page starts with the five materials, brass alone ticked |
| Materials.MaterialPanel.FromTable | src/esercizio1b.js:393-397 | the cone pages start with one entry per table name, brass alone ticked |
| Materials.MaterialPanel.OnFinishChange | build/esercizio2.js:413-423 | fed `true`, the handler unticks every name and ticks its own (`Select`); fed `false`, it leaves `materiali` unchanged |

## Left out

- The GLSL shader strings are left out: they are lighting arithmetic that runs on the GPU.
- WebGL calls are left out: `initArrayBuffer`, `createBuffer`, `bufferData`, uniforms, drawing, and the `tick` animation loop.
  - The initialisation functions take each WebGL step's success as a boolean parameter instead.
- The DOM glue is left out, as is the dat.gui controller library that shows the checkboxes. So is the DOM handler that forces an unticked checkbox back on: it changes the page, not `materiali`.
  - The value dat.gui itself writes into `materiali` before calling `onFinishChange` is library behaviour and is not modelled either.
  - So the model does not promise that exactly one box stays ticked after an untick. UntickLeavesNone shows that writing `false` for the only ticked name leaves none ticked, since a handler fed `false` changes nothing; only the page's DOM handler, which is not modelled, ticks the box back.
- `console.log` output and the final `updateDisplay` loop over the controllers are left out: they change nothing in the model.
- `Math.sin` and `Math.cos` are uninterpreted functions passed in as parameters.
  - Numbers are exact reals. Double rounding, `Float32Array` narrowing and the drift of the cone's accumulated `angle` are not modelled. The model treats `angle` after k steps as exactly k·angleStep.
- `normalize` and the unused Torus variant in comments are not part of the model. Neither are the matrix and animation code of the pages, nor the Babel helpers (`_classCallCheck`, `_createClass`, `_toConsumableArray`).
- TorusMesh.Torus.constructor: requires nDiv > 0. For nDiv = 0 the source divides 0 by 0 and pushes one sample of NaN coordinates, which real numbers cannot express. InitTorusBuffers inherits the same requirement.
- ConeMesh.Cone.GenerateVertices: for nDiv = 0 JavaScript's angle step is Infinity. The model uses 0 instead, which is never read because the rim loop does not run.
- ConeMesh.Cone.GetVertex: requires the index to name a point of the support array. JavaScript would yield `undefined` elements past the end, but `ConeTrianglesReadable` shows the constructor never makes such a call.
- TorusMesh.Torus.SampleGrid, TorusMesh.Torus.SampleRing, TorusMesh.Torus.TriangulateCells, TorusMesh.Torus.TriangulateRow: each takes the grid it appends as a ghost parameter that is fixed by its `requires`. This is only a proof device; the loops compute the same values as the source.
- Materials.MaterialPanel.OnFinishChange: the handler is modelled once, with the material as a parameter. This one method stands for the torus page's five hand-written copies and the cone pages' closure per table name.
