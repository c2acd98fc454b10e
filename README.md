# Grid sectioning of meshes and E57 scans, in Dafny

The repository is a set of near-duplicate command-line scripts. Each one cuts an
OBJ mesh and/or the scans of an E57 point cloud along an axis-aligned grid and
writes one file per cell. This project models the eight scripts that share the
grid logic:

- `bug.py` and `main.py` place a grid of given box sizes at a centre corner.
  `bug.py` can take explicit Z layer heights; `main.py` halves every box.
  The first scan is cut with a numpy mask, and its colours are cut with the
  same mask.
- `script.py` centres the mesh and the scan and spans a grid over their
  combined bounds. It runs the cell loops twice: once to export every cell
  as a box, and once to export the non-empty scan sections.
- `Point.py` cuts every scan into a uniform grid over the scan's own
  bounding box.
- `cloudpoint.py` does the same through three helper functions.
- `backup2.py` does the same, and also moves the OBJ model onto the scan's
  mean and writes its vertices per cell.
- `test.py` derives the cell counts from the OBJ model's extent.
- `object.py` cuts an OBJ mesh into vertices, normals and faces per cell.

What the scripts compute is modelled as values:
- Coordinates are reals.
- A numpy boolean mask is the list of selected indices.
- A Python exception is an `Error` value. A script whose driver has a
  catch-all handler returns a `Run`: the files written so far, then the
  exception that ended it.
- A file is an `Output` value that carries its name and contents.

Where a script updates state step by step, it becomes a method with its loops:
- the triple cell loop;
- the index-by-index filters;
- the scan loop;
- the in-place translation of the model.

Each such method is proved equal to the pure definition that the lemmas
describe.

Shared modules:
- `Outcomes`: results and exceptions.
- `Geometry`: points, boxes and the closed-box test.
- `Masks`: numpy masks.
- `Filters`: point, vertex-with-normal and face filters.
- `Stats`: bounds, mean, centring and combined bounds.
- `Division`: linspace, Z heights and uniform edges.
- `Cells`: cell enumeration and the loops.
- `Parsing`: `split`/`join`, `int` and `float`.
- `Sections`: outputs, file names and runs with a handler.
- `Grids`: the uniform grid over a scan.
- `Segments`: `segment_based_on_grid`.

Script modules: `BugScript`, `MainScript`, `CombinedScript` (script.py),
`PointScript`, `Cloudpoint`, `Backup2`, `TestScript` and `ObjectScript`.

Edge cases the scripts handle in ways a reader might not expect, as the
model states them:
- Grid counts are not checked for being positive; any integer is accepted:
  - 0 or -1 boundaries give no cells;
  - linspace rejects a count below -1;
  - `range` of a negative count is empty.
- In `bug.py` a heights-count mismatch is not checked before any work. It
  is an `assert` inside the axis loop, reached only on the Z axis after X
  and Y (`HeightsCountMismatch`).
- `object.py` writes an OBJ file for every cell, empty or not, and
  `backup2.py` writes the OBJ file of every cell; only the E57 sections are
  skipped when empty.
- `main.py` indexes the scan's colours without checking they exist. The
  model keeps that as the `MissingColours` error when the loops reach a
  cell; it is not a precondition.
- In `test.py` the grid counts are computed per scan, inside the scan loop,
  from the OBJ model's extent.

## Model

| member | source | states |
|---|---|---|
| Outcomes.CollectMeaning | main.py:22-25 | A per-axis comprehension succeeds iff every axis does, then holds each axis's value in order; otherwise it reports the first axis that raised |
| Outcomes.CollectStep | bug.py:12-25 | After a prefix that has not raised, one more axis either raises its own error or appends its value |
| Outcomes.CollectStopped | bug.py:12-25 | Once an axis has raised, the later axes change nothing |
| Geometry.Extents | bug.py:41 | The extents added to the minimum corner give the maximum corner |
| Geometry.Centre | bug.py:40-41 | A box of the cell's extents placed at its centre has exactly the cell's corners |
| Geometry.InEnclosing | script.py:23-24 | A point inside a box is inside every box enclosing it |
| Masks.SelectedSound | bug.py:59-60 | Every index picked by a mask is in range and has a true entry |
| Masks.SelectedIncreasing | bug.py:59-60 | Picked indices strictly increase: the input order is kept |
| Masks.SelectedComplete | bug.py:59-60 | Every index with a true entry is picked |
| Masks.ApplyMaskAt | bug.py:60 | `xs[mask]` has one element per true entry; the k-th is `xs` at the k-th picked index |
| Masks.ApplyMaskMember | bug.py:60 | An element is kept iff it sits at an index whose mask entry is true |
| Masks.Lockstep | bug.py:59-62 | One mask on two parallel arrays gives equal lengths, and equal positions come from one original index |
| Masks.ApplyMaskSnoc | Point.py:46-51 | Extending the input by one index appends that element iff its entry is true (the append loop) |
| Filters.FilterBoxMember | bug.py:59-60 | A point is selected iff it is an input point inside the closed box on all three axes |
| Filters.FilterBoxOrder | bug.py:59-60 | The selection is a subsequence of the input in the original order |
| Filters.FilterSection | Point.py:45-51 | The index loop that appends points inside the box computes exactly the closed-box selection |
| Filters.FilterVerticesWithNormals | object.py:73-81 | The vertex loop yields the selected vertices and the normals of the same mask |
| Filters.NormalsFollowVertices | object.py:76-81 | Section vertices and normals have equal length, and the k-th normal belongs to the k-th vertex |
| Filters.FacesInBoxMember | object.py:83-90 | A face is kept iff all three of its vertices lie in the closed box; straddling faces are dropped |
| Filters.KeptFaceVerticesInSection | object.py:84-90 | Every vertex of a kept face is among the section's vertices |
| Filters.FilterFaces | object.py:84-90 | The face loop computes exactly the kept faces, in input order |
| Stats.MinAlong | Point.py:24-26 | The column minimum is a lower bound of every coordinate on that axis |
| Stats.MaxAlong | Point.py:24-26 | The column maximum is an upper bound of every coordinate on that axis |
| Stats.AlongAttained | Point.py:24-26 | Both column extremes are coordinates of actual points |
| Stats.BoundingBox | object.py:52-54 | The min/max box is ordered and contains every point |
| Stats.BoundingBoxTight | object.py:52-54 | Every face of the bounding box touches a point |
| Stats.SumTranslate | backup2.py:63 | Shifting every point by `d` adds `n` copies of `d` to the coordinate sum |
| Stats.MeanTranslate | backup2.py:57-63 | Shifting every point by `d` shifts the mean by `d` |
| Stats.Centred | main.py:14-15 | Subtracting the mean leaves a cloud of the same size whose mean is the origin |
| Stats.CentredKeepsDifferences | script.py:13-14 | Centring preserves every difference between points |
| Stats.CombinedBounds | script.py:17-25 | Raises iff the cloud is empty; otherwise encloses the mesh box and every cloud point |
| Stats.CombinedBoundsLeast | script.py:23-24 | Every box holding both mesh corners and every cloud point encloses the combined box, so its corners are the elementwise `np.minimum` and `np.maximum` |
| Division.Linspace | bug.py:24 | `num` values from start to stop with equal steps; raises iff `num` is negative |
| Division.HeightBoundariesSteps | bug.py:16-18 | The height boundaries start at the origin, end at origin plus the total, and their cell sizes are the heights |
| Division.HeightBoundariesMonotone | bug.py:16-18 | Non-negative heights give non-decreasing boundaries |
| Division.HeightsExample | bug.py:17-18 | Heights 1.0, 2.0, 1.5 from 0 give boundaries 0, 1, 3, 4.5 |
| Division.SectionSize | Point.py:29-31 | With a positive count, min plus count sections lands on max; the size is non-negative |
| Division.LinspaceBoxes | bug.py:21-24 | `linspace(s, s + size*n, n+1)` has n+1 values from `s`, each step exactly `size` |
| Division.Ceil | test.py:12 | The least integer not below the value |
| Division.CeilCells | test.py:12 | `ceil(extent/dim)` cells reach the extent and one fewer do not |
| Division.LinspaceIsUniform | Point.py:38-43 | linspace from min to max equals the edges `min + x*size` |
| Division.Covers | bug.py:32-37 | A value between the first and last boundary lies between two consecutive boundaries |
| Division.UniformCovers | Point.py:38-43 | Every value in `[min, max]` lies in some closed uniform cell |
| Cells.CellsMember | Point.py:34-36 | The triple loop visits exactly the index triples below the three counts |
| Cells.CellsCount | Point.py:34-36 | The triple loop visits `nx*ny*nz` cells |
| Cells.CellsOrdered | Point.py:34-36 | Cells are visited once each, x outermost and z innermost |
| Cells.GatherMember | bug.py:32-37 | An output is collected iff a visited cell produced it |
| Cells.GatherOnePerCell | object.py:62-94 | When each cell writes one file, the k-th file is the k-th cell's |
| Cells.ForEachCell | bug.py:32-34 | The nested loops collect every cell's outputs in visiting order |
| Cells.GridCellsInRange | bug.py:32-37 | The loops visit exactly the cells whose two corners exist |
| Cells.AdjacentCellsShareFaces | bug.py:36-37 | A cell's max corner is the next cell's min corner on each axis |
| Cells.GridCovers | bug.py:32-37 | Every point between the first and last boundaries lies in some visited cell's closed box |
| Cells.UniformAdjacentShareFaces | Point.py:38-43 | Neighbouring uniform cells share their faces |
| Cells.UniformGridSpansBox | Point.py:38-43 | The first uniform cell starts at the box minimum and the last ends at the maximum |
| Cells.UniformCovers3 | Point.py:34-43 | Every point of the bounding box lies in some uniform cell |
| Parsing.Split | bug.py:99 | `split` always yields at least one field |
| Parsing.SplitFieldsFree | bug.py:99 | No field contains the separator |
| Parsing.JoinSplit | bug.py:99 | Joining the fields restores the string |
| Parsing.SplitJoin | bug.py:99 | Splitting a join of separator-free fields restores the fields |
| Parsing.NatToStringRoundTrip | Point.py:62 | The printed digits of an index read back as the index |
| Parsing.NatToStringInjective | Point.py:62 | Distinct indices print differently |
| Parsing.ParseInt | bug.py:99 | `int` succeeds iff the field is an optionally signed digit string |
| Parsing.ParseIntRoundTrip | bug.py:99 | `int(str(i)) == i` |
| Parsing.ParseReal | bug.py:100 | `float` succeeds iff the field is an optionally signed decimal |
| Parsing.DecimalOfParts | bug.py:100 | Digits, a point and digits form a decimal whose value is the integer part plus the fraction digits over 10 to their count |
| Parsing.ParseRealDecimal | bug.py:100 | `float("u.t")` is u plus t over 10^len(t), and `float("-u.t")` its negation, for all digit strings u and t |
| Parsing.ParseRealNegated | bug.py:100 | A minus sign before a decimal negates its value |
| Parsing.ParseRealOfNat | bug.py:100 | `float(str(n)) == n` |
| Parsing.ParseRealExamples | bug.py:101 | "1.5" reads as 1.5 and "-0.25" as -0.25 |
| Parsing.ParseInts | bug.py:99 | Every field is an integer literal iff the list parses, with one value per field |
| Parsing.ParseReals | bug.py:100 | Every field is a decimal iff the list parses, with one value per field |
| Parsing.ParseHeights | bug.py:101 | An empty option means no heights; otherwise it parses iff every comma-separated field is a decimal, giving `float` of each field in order, and raises `ValueError` otherwise |
| Parsing.ParseGridRoundTrip | bug.py:99 | Counts printed as "AxBxC" parse back to the same counts |
| Parsing.ParseGridFails | Point.py:11 | The grid option fails iff some `x`-separated field is not an integer |
| Sections.IndexNameInjective | Point.py:62 | File names built from index lists are equal only for equal lists |
| Sections.SectionNameInjective | Point.py:62 | Distinct (scan, cell) pairs write distinct files |
| Sections.CellNameInjective | bug.py:68 | Distinct cells write distinct files |
| Sections.SectionNameExample | Point.py:62 | Scan 0, cell (1, 2, 13) is `section_0_1_2_13.e57` |
| Sections.RunStepsNext | Point.py:15-16 | After steps that did not raise, one more step appends its files and its exception |
| Sections.RunStepsStopped | Point.py:72-73 | After the handler catches an exception, later steps change nothing |
| Sections.RunStepsComplete | Point.py:15-16 | A run that ends normally has every step's files and no step raised |
| Sections.RunStepsFailure | Point.py:72-73 | A run fails iff some step raises, and it reports the first one |
| Sections.RunStepsOutputs | Point.py:15-16 | Every file of a run was written by one of its steps |
| Sections.CellsRunNeverFails | cloudpoint.py:53-63 | A cell loop whose cells never raise collects every cell's files in order |
| Grids.ScanCovered | Point.py:33-51 | With positive counts every scan point is selected by some cell's filter |
| Segments.AxisCounts | bug.py:32-34 | One loop count per present axis, at most three, each one less than the boundary count |
| Segments.SegmentCellsMember | bug.py:32-37 | The loops visit exactly the cells whose corners exist, and raise iff they reach a missing axis |
| Segments.ColoursFollowPoints | bug.py:59-65 | Section colours exist iff the scan's do, match the points in number, and share each point's index |
| Segments.SegmentMember | bug.py:30-82 | A segmentation that ends normally wrote a file iff some cell produced it; it raises iff an axis is missing |
| Segments.SegmentCovers | bug.py:32-37 | Every point inside the grid lies in a visited cell's closed box |
| Segments.SegmentLoops | bug.py:32-34 | The three loops compute the segmentation, raising before any cell when an axis is missing |
| BugScript.DivisionPointsMeaning | bug.py:10-27 | The division points exist iff every zipped axis succeeds, one list per zipped axis |
| BugScript.HeightsMismatchFails | bug.py:14-15 | With heights, a count other than the Z grid size raises |
| BugScript.HeightsAxis | bug.py:14-18 | The Z boundaries start at the centre's Z, are its prefix sums, and the Z cells are the heights |
| BugScript.UniformAxis | bug.py:20-25 | A uniform axis has count+1 boundaries from the centre, each box exactly the box size |
| BugScript.UniformAxisPoints | bug.py:21-24 | The same facts for one axis's linspace |
| BugScript.CalculateGridDivisionPoints | bug.py:10-27 | The axis loop computes the division points or the first exception |
| BugScript.PlacedGrid | bug.py:20-25 | Three positive counts give a grid spanning the boxes placed from the centre corner |
| BugScript.SharedFaceExample | bug.py:59 | On a 2x1x1 grid of 5-unit boxes, x=0 is only in cell 0, x=10 only in cell 1, x=5 in both |
| BugScript.SegmentWrites | bug.py:58-82 | A file is written iff a grid cell's closed box holds a scan point; it has those points and their colours |
| BugScript.EveryPointWritten | bug.py:32-67 | Every scan point inside the grid is written to some section |
| BugScript.MainSegments | bug.py:127-129 | Once the options parse and a mesh and a scan are loaded, `main` is the segmentation |
| BugScript.MainWritesEveryPoint | bug.py:98-129 | With three positive counts, every scan point inside the placed grid is written |
| BugScript.MainCommand | bug.py:93-129 | The driver parses the four options, then segments when a mesh and a scan are loaded |
| MainScript.DivisionPointsMeaning | main.py:20-26 | The division points exist iff no zipped count is below -1, one list per zipped axis |
| MainScript.HalfBoxes | main.py:22-25 | Each axis runs from the centre to `centre + size*count/2`, every box `size/2` long |
| MainScript.HalfAxis | main.py:23 | The same for one axis's linspace |
| MainScript.SameAsBugScript | main.py:56-71 | With colours the cut equals bug.py's; without them it raises iff a cell is reached |
| MainScript.HalfGrid | main.py:102 | Three positive counts give a grid from the origin to half of each `size*count` |
| MainScript.MainSegments | main.py:101-103 | Once the options parse, `main` is the segmentation of the grid at 0 |
| MainScript.MainWritesEveryPoint | main.py:85-103 | With colours, every scan point inside the half-size grid is written |
| MainScript.SegmentBasedOnGrid | main.py:29-71 | The loops raise on a missing axis, on missing colours at the first cell, or segment |
| MainScript.MainCommand | main.py:80-103 | The driver: parse both options, then segment when a mesh and a scan are loaded |
| CombinedScript.CentreMesh | script.py:9-10 | The centred mesh bounds have the origin as centre and the same extents |
| CombinedScript.DivisionPointsMeaning | script.py:77 | The division points exist iff no zipped count is below -1; each list spans min to max |
| CombinedScript.SpansBounds | script.py:77 | Three positive counts give count+1 boundaries per axis spanning exactly the bounds |
| CombinedScript.MeshPassBoxes | script.py:34-41 | The mesh pass writes one box per visited cell in order, named by the cell, reproducing the cell |
| CombinedScript.OtherPassWritesNothing | script.py:34-47 | Any other data type writes nothing and raises only on a missing axis |
| CombinedScript.PointPassWrites | script.py:47-59 | The point pass writes a section iff a cell's closed box holds a point, with exactly its points |
| CombinedScript.GridEnclosesData | script.py:73-77 | The grid over the combined bounds encloses the centred mesh and every centred point |
| CombinedScript.PassesWritePoint | script.py:79-80 | Both passes run, and a point inside the grid reaches some written section |
| CombinedScript.EveryPointWritten | script.py:61-80 | With a mesh and three positive counts, every centred scan point is written |
| CombinedScript.SegmentBasedOnGrid | script.py:27-59 | The cell loops compute one pass's segmentation |
| CombinedScript.MainCommand | script.py:61-80 | The driver parses the grid, centres, bounds, divides, then runs the two passes |
| ObjectScript.WrittenFaces | object.py:102-104 | Each written face line is the face's three indices plus one |
| ObjectScript.CellObjMeaning | object.py:73-104 | A cell file holds exactly the vertices in its box, normals of the same indices, and faces wholly inside |
| ObjectScript.EveryCellWritten | object.py:62-94 | One file per cell, even empty, named after the cell, in loop order |
| ObjectScript.ExampleBox | object.py:52-71 | On the four-vertex example, cell (1,0,0) of a 2x1x1 grid is `[1,2]x[0,1]x[0,1]` |
| ObjectScript.ExampleSelection | object.py:76-81 | That cell holds vertices 1, 2 and 3 |
| ObjectScript.ExampleKept | object.py:84-90 | The face (1,2,3) is kept in that cell |
| ObjectScript.AsWrittenFaceOutsideFile | object.py:102-104 | As written, the cell's file has three `v` lines but writes `f 2 3 4` |
| ObjectScript.LocalIndex | object.py:96-104 | A vertex inside the box is named by its 1-based position in the section file |
| ObjectScript.CorrectedFacesReferToSection | object.py:102-104 | Corrected face lines name, in the cell's own file, the same points as the original faces |
| ObjectScript.CorrectedExample | object.py:102-104 | The corrected example writes the face as `f 1 2 3` |
| ObjectScript.WriteFaces | object.py:102-104 | The face-line loop writes every index plus one |
| ObjectScript.SectionCell | object.py:66-104 | The cell body computes that cell's file: vertices in the closed box, their normals, faces wholly inside with indices plus one |
| ObjectScript.SectionGrid | object.py:62-64 | The grid loops write one file per cell of `range(gx) x range(gy) x range(gz)`, in loop order |
| ObjectScript.SectionObj | object.py:34-111 | The driver's run: a bad grid option, a face naming a missing vertex, no vertices or a short grid end it; otherwise every cell's file |
| PointScript.CellOutputMeaning | Point.py:38-68 | A cell exports iff its closed box holds a point, with exactly those points; otherwise it is skipped |
| PointScript.EveryPointExported | Point.py:23-51 | With positive counts, every point of a scan is in some exported section |
| PointScript.RunExportsEveryPoint | Point.py:14-68 | A run that ends normally has exported every point of every scan |
| PointScript.EmptyScanFails | Point.py:24 | An empty scan ends the run with an error |
| PointScript.SectionCell | Point.py:37-68 | The cell body exports exactly the points in the closed cell box, or reports the cell as skipped |
| PointScript.SectionScan | Point.py:34-36 | The grid loops of one non-empty scan yield each cell's export or skip, in loop order |
| PointScript.SectionOneScan | Point.py:15-31 | One pass of the scan loop extends the run by that scan's files, or ends it with the error of an empty scan or a short grid |
| PointScript.SectionScans | Point.py:15 | The scan loop yields every scan's files in order, up to the first exception |
| PointScript.SectionE57 | Point.py:9-73 | The driver's run: a grid option that does not parse ends it before any scan; otherwise the scan loop's run |
| Cloudpoint.SectionBoundaries | cloudpoint.py:11-20 | Nine values, or an error iff the scan is empty or the grid has fewer than three fields |
| Cloudpoint.SectionBoundariesMeaning | cloudpoint.py:12-14 | Every scan point lies between the minimum and maximum of each axis |
| Cloudpoint.SectionSizesMeaning | cloudpoint.py:16-18 | With a positive count, min plus count sizes lands on max |
| Cloudpoint.FilterWithinMeaning | cloudpoint.py:22-32 | The filter succeeds iff given six values, then keeps exactly the points in the bounds, in order |
| Cloudpoint.FilterPointsWithinSection | cloudpoint.py:22-32 | The append loop computes the filter, or the unpacking error |
| Cloudpoint.SameSelectionEveryCell | cloudpoint.py:51-57 | Every cell of a scan gets the same bounds, so raises or selects alike |
| Cloudpoint.ScanStepAsWritten | cloudpoint.py:51-57 | As written, a scan with a cell raises the unpacking error before writing anything |
| Cloudpoint.NeverExports | cloudpoint.py:47-68 | As written, the driver never writes a section |
| Cloudpoint.FirstScanRaisesUnpack | cloudpoint.py:50-68 | A first scan with points on a positive grid ends the run with the unpacking error |
| Cloudpoint.CellBounds | cloudpoint.py:53-57 | The intended per-cell bounds are six values one section size apart on each axis |
| Cloudpoint.CellBoundsAreScanBox | cloudpoint.py:16-23 | The intended per-cell bounds are that cell's box in the scan's uniform grid |
| Cloudpoint.CorrectedScanIsPointScript | cloudpoint.py:50-63 | With per-cell bounds, a scan behaves exactly like Point.py's |
| Cloudpoint.CorrectedIsPointScript | cloudpoint.py:47-68 | The corrected driver equals Point.py's, run for run |
| Cloudpoint.SectionScan | cloudpoint.py:53-63 | The cell loops of one scan as written: the first cell's filter call raises, ending the scan with nothing written |
| Cloudpoint.SectionOneScan | cloudpoint.py:50-51 | One pass of the scan loop extends the run by that scan's step as written: an empty scan or a short grid raises, then the cell loops |
| Cloudpoint.SectionScans | cloudpoint.py:50 | The scan loop yields every scan's files in order, up to the first exception |
| Cloudpoint.SectionE57 | cloudpoint.py:47-68 | The driver's run as written: parse, then the scans, until the first exception |
| Backup2.AlignedMean | backup2.py:57-63 | After the move, the model's vertex mean is the scan's point mean |
| Backup2.AlignedKeepsShape | backup2.py:60-63 | The move is rigid: vertex differences are unchanged |
| Backup2.TranslateInPlace | backup2.py:63 | `vertices += translation` shifts every vertex in place |
| Backup2.CellOutputMeaning | backup2.py:77-124 | Every cell writes its OBJ file with the moved vertices inside; an E57 file follows iff it holds points |
| Backup2.NeverFails | backup2.py:26-54 | With three counts the run never fails: empty scans and models are skipped |
| Backup2.EveryPointExported | backup2.py:66-120 | With positive counts and a model, every point of a scan is in some E57 section |
| Backup2.SectionCell | backup2.py:69-124 | The cell body writes the OBJ file of the moved vertices in the closed cell box, then the E57 section or a skip |
| Backup2.SectionGrid | backup2.py:66-68 | The grid loops of one non-empty scan write, cell by cell in loop order, the moved model's OBJ file and the E57 section or skip |
| Backup2.SectionOneScan | backup2.py:19-63 | One scan: skipped when empty, raises on a short grid, skipped when the model is empty, else every cell with the model moved onto the scan's mean |
| Backup2.SectionScans | backup2.py:18 | The scan loop yields every scan's files in order, up to the first exception |
| Backup2.SectionE57AndObj | backup2.py:11-127 | The driver's run: parse, then every scan with the same model file |
| TestScript.AxisCountMeaning | test.py:12 | An axis count is the fewest cells of the given size that reach the extent; a zero size raises |
| TestScript.CountsUpToMeaning | test.py:6-13 | The counts exist iff every read axis succeeds, with one count per axis |
| TestScript.CountsUpToPrefix | test.py:12 | The counts depend only on the fields they read |
| TestScript.ExtraFieldsIgnored | test.py:12 | A fourth field of the grid option is never read |
| TestScript.SectionObjVerticesMember | test.py:18-23 | A vertex is kept iff it is a model vertex inside the closed box |
| TestScript.EveryNonEmptyCellReported | test.py:36-76 | Every non-empty cell is exported with exactly its points, or reported as failed |
| TestScript.FailuresStayInCell | test.py:75-76 | Write failures never end a scan |
| TestScript.ObjPassNeverWrites | test.py:112-130 | As written, no OBJ file is written, and the run fails once the grid has a cell |
| TestScript.ScanStepWritesNoObj | test.py:86-110 | The E57 pass writes only point sections and failure reports |
| TestScript.CorrectedObjPassCovers | test.py:117-127 | The intended OBJ pass writes one file per cell and every model vertex inside the scan's box |
| TestScript.SectionCell | test.py:36-76 | The cell body exports the non-empty section, reports a failed write, and writes nothing for an empty cell |
| TestScript.SectionScan | test.py:107-110 | The cell loops of one scan collect every cell's outputs in loop order |
| TestScript.SectionOneScan | test.py:88-110 | One pass of the scan loop extends the run by that scan's step: an empty scan, a bad grid option or a missing count raises; otherwise every cell's outputs |
| TestScript.SectionScans | test.py:88 | The scan loop yields every scan's files in order, up to the first exception |
| TestScript.SectionE57AndObj | test.py:83-130 | The driver's run: the E57 pass, then the OBJ pass's exception (an undefined name once a cell is reached) |

## Left out

- File and console I/O is left out: reading OBJ and E57 files, writing files, creating the output directory, progress bars, timing and every `print`/`echo`. A written file is an `Output` value.
- Scans are given as lists of points. Scans that fail to read and fields missing from a scan are not modelled.
- Mesh booleans are left out: the `trimesh.boolean.intersection` calls through Blender and the `mesh_fragment_*.obj` exports in `bug.py`, `main.py` and `script.py`, together with the per-cell handler around them in `bug.py` and `main.py`. They are calls into code outside the repository.
- CombinedScript.MeshPassBoxes, CombinedScript.PassesWritePoint, CombinedScript.EveryPointWritten and CombinedScript.MainCommand assume the boolean intersection returns. In `script.py` it runs with no handler and before `box.export`, so a failing call there would end the run before that cell's `box_*.obj` and skip every later cell and the point pass; the model does not capture that failure.
- Box meshes are modelled by their centre and extents. Their triangulation comes from the mesh library.
- `calculate_normals` (object.py:5-16) is left out, because its normalisation uses floating point. The normals are a parameter parallel to the vertices. The model keeps the `IndexError` raised by a face that names a missing vertex.
- The mesh's truthiness and its bounds in `bug.py`, `main.py` and `script.py` are left out. The mesh is a flag (`haveMesh`) or an optional bounds box.
- Floating point is left out. linspace, means, section sizes and ceilings are exact over the reals.
- numpy's `inf`/`NaN` section size for a zero count is left out; 0.0 stands in for it. No cell reads that size, because the loop over `range(0)` is empty.
- Only plain decimal literals are parsed. `int()` and `float()` also accept whitespace, underscores, exponents, `inf` and `nan`; those forms are not modelled.
- Exceptions are modelled by their cause, not by their Python class.
- `print(faces)` and the other debug prints are left out.
- The `scanIndex` field that `cloudpoint.py` reads when it exports is not modelled. As written, that line is never reached. The corrected driver names files by the scan's position.
- `main.py`'s `center_data` (main.py:8-17) is never called by its driver. Its point-cloud half is `Stats.Centred`.
- The other scripts of the repository are not part of this model: `new.py`, `show.py`, `mesh.py`, `cloud.py` and `3D.py`.
- A cell whose section cannot be written is modelled only in `test.py`, where a per-cell handler reports it (the `failing` set). The other scripts have no per-cell handler, so a write failure there is an I/O failure of the whole run and is not modelled.
- `script.py`'s `data_type` is a three-way choice: 'mesh', 'point_cloud' and any other string. The only calls pass the first two.

## Findings

| source | as written | input that shows it | evidently intended | confidence | as-written member | corrected member |
|---|---|---|---|---|---|---|
| cloudpoint.py:57 | the nine-value tuple from `calculate_section_boundaries` is passed unchanged to a filter that unpacks six values, so the first cell raises and no section is ever written | any scan with a point and grid option "1x1x1" | each cell's six bounds `min + x*size`, `min + (x+1)*size` per axis, as in Point.py | high (not executed) | Cloudpoint.NeverExports | Cloudpoint.CorrectedIsPointScript |
| object.py:103 | faces are written with their index in the full vertex list plus one, while the file holds only the section's vertices | vertices (0,0,0), (2,0,0), (2,1,0), (2,1,1), face (1,2,3), grid 2x1x1: cell (1,0,0) has three `v` lines and `f 2 3 4` | indices renumbered to 1-based positions among the section's vertices | high (not executed) | ObjectScript.AsWrittenFaceOutsideFile | ObjectScript.CorrectedFacesReferToSection |
| test.py:120 | the OBJ pass reads `section_size_x`, which `section_e57_and_obj` never defines, so the handler reports a `NameError` before any OBJ file is written | any non-empty scan, any model with positive extent on all three axes, grid option "1x1x1" | the section sizes of the last scan's grid, so every cell writes the model vertices inside it | high (not executed) | TestScript.ObjPassNeverWrites | TestScript.CorrectedObjPassCovers |
