# Plot analyser: zone geometry and area analysis

This project models the analysis arithmetic of `PlotAnalyzerApp` in `software.py`.
The application takes a plot boundary traced on an image and finds its centre as the
area-weighted centroid. It divides the plot into sixteen compass zones (N, NNE, …, NNW)
around that centre, rotated by a north tilt. It measures each zone's area on pixel masks,
then classifies the zones against three balance lines (LOB, ULOB, LLOB). Finally it
aggregates the zones into the Fire, Water and Air groups ("prakriti") and ranks them into
a house label. The hex colour parser used for the drawing colours is modelled too.

Modules:

- `Wrappers`: `Option` and `Result`.
- `RealSums`: left-to-right sums of reals, as Python's `sum()`.
- `Geometry`: points, the shoelace sums over the edges `i -> (i + 1) mod n` of a closed loop, the
  centroid loop and the numpy area expression.
- `RayCast`: the ray/boundary intersection loop and its nearest-hit specification.
- `Zones`: the sixteen zone names and the angular layout of wedges and labels.
- `ZoneAreas`: mask AND and pixel counting over `array2<bool>` masks.
- `Balance`: the balance lines and the per-zone remarks loop.
- `Prakriti`: group strengths, percentages, the stable descending ranking and the label.
- `HexColor`: `"#RRGGBB"` to a (blue, green, red) triple, following Python's `int(text, 16)`.

Values are Dafny `real`s, with no rounding. The ray direction is passed in as the vector
`(sin a, -cos a)`, so no trigonometry is computed. The pixel masks are passed in already
rasterised. The boundary, which the source reads from `self.boundary_points`, is a parameter.

Notes on what the code does:

- The house label joins the full group names with "-" (`"-".join(p[0] for p in prakriti_sorted)`,
  where `p` is a `(name, strength)` pair), so a label reads, for example, `"Fire-Water-Air"`.
- `_polygon_area` has no minimum vertex count of its own; its callers check for three points.
  The model needs only a non-empty list, because numpy fails on an empty one. Three
  collinear points give area 0, not an error.
- The pair conversion in `_hex_to_bgr` is Python's `int(pair, 16)`. It accepts a sign or
  surrounding white space, and any other non-hex pair raises an error instead of falling
  back to green. When all six characters are hex digits, each component lies in 0..255;
  a '-' sign makes a component negative (`"#-10000"` gives `(0, 0, -1)`).

## Model

| member | source | states |
|---|---|---|
| Geometry.SuccIsMod | software.py:819-821 | the successor vertex used by the edge sums is `(i + 1) % n` |
| Geometry.Centroid | software.py:809-832 | None exactly when `|area2| < 1e-9`; otherwise a point whose coordinates times `3·area2` are the loop's `cx_acc` and `cy_acc` sums |
| Geometry.PolygonCentroid | software.py:809-832 | the accumulator loop over edges i -> (i+1) mod n returns the area-weighted centroid `(cx_acc/(3·area2), cy_acc/(3·area2))`, and returns None exactly when `|area2| < 1e-9` |
| Geometry.PolygonArea | software.py:1063-1072 | the numpy shoelace expression is never negative |
| Geometry.ShoelacePrefix | software.py:1068-1071 | the two dot products against the rolled coordinate vectors differ by the centroid loop's cross-term sum, prefix by prefix |
| Geometry.AreaIsHalfSignedArea | software.py:1063-1072 | the area is half the magnitude of the centroid loop's `area2` |
| Geometry.CentroidDefinedIffArea | software.py:827-828 | a centroid exists exactly when the polygon's area is at least 0.5e-9 |
| Geometry.EdgeSumRotate | software.py:819-825 | each of the three accumulators ends the same whichever vertex the loop starts at |
| Geometry.AreaRotationInvariant | software.py:1068-1072 | rotating the vertex list cyclically leaves the area unchanged |
| Geometry.CentroidRotationInvariant | software.py:809-832 | rotating the vertex list cyclically leaves the centroid (or its absence) unchanged |
| Geometry.EdgeSumShifted | software.py:819-825 | moving every vertex by v adds a multiple of `area2` fixed by v to each accumulator |
| Geometry.AreaTranslationInvariant | software.py:1068-1072 | moving the boundary leaves its area unchanged |
| Geometry.CentroidTranslates | software.py:809-832 | moving the boundary by v moves its centroid by v, and a degenerate boundary stays degenerate |
| Geometry.SquareAreaAndCentroid | software.py:809-832 | a w×w square has area w², a centroid exactly when 2w² ≥ 1e-9, and that centroid is its centre (w/2, w/2) |
| RayCast.Solve | software.py:1033-1040 | an edge is skipped exactly when `|denom| < eps`; otherwise the solved t and u name the same point on the ray and on the edge's line |
| RayCast.CramerSolves | software.py:1033-1040 | the cross-product formulas for t and u solve `origin + t·d = a + u·(b - a)` |
| RayCast.RayBoundaryIntersection | software.py:1002-1049 | the edge loop with its strict `t < nearest_t` update returns the nearest-hit point that RayHit specifies, None for fewer than two vertices |
| RayCast.NearestTo | software.py:1023-1049 | the crossing kept after scanning k edges is the accepted crossing of one of them, and an accepted crossing of any scanned edge means one is kept with t no larger |
| RayCast.RayHit | software.py:1002-1049 | None for fewer than two vertices; a hit is origin + t·d for the accepted crossing of some edge whose t is no larger than that of any edge's accepted crossing |
| RayCast.NearestNoneIff | software.py:1042-1047 | nothing is kept exactly when no scanned edge has an accepted crossing |
| RayCast.RayHitIsNearest | software.py:1002-1049 | a returned hit is origin + t·d for an accepted crossing c (t ≥ 0, −eps ≤ u ≤ 1 + eps) of some edge, lies on that edge, and no accepted crossing of any edge has a smaller t than c |
| RayCast.RayHitNoneIff | software.py:1011-1049 | the result is None exactly when there are fewer than two vertices or no edge has an accepted crossing |
| RayCast.NorthRayFromSquareCentre | software.py:1002-1049 | the ray due North from the centre of the 100×100 square meets the top edge at (50, 0) |
| Zones.Index | software.py:42-47 | each zone has a position in ZONE_NAMES order, and the wheel lists the zone at that position |
| Zones.ZoneOrderIsEnumeration | software.py:42-47 | sixteen zones in wheel order, each at its own index, with the names N … NNW in that order |
| Zones.EveryZoneListed | software.py:42-47 | every zone appears on the wheel |
| Zones.NamesDistinct | software.py:42-47 | distinct zones have distinct names |
| Zones.BoundaryAngle | software.py:952-957 | boundary ray i lies at tilt − 11.25 + 22.5·i degrees |
| Zones.ZoneWedge | software.py:1123-1131 | wedge i starts at boundary ray i and spans one 22.5-degree step |
| Zones.LabelAngle | software.py:983 | the label of zone i sits half a step past boundary ray i |
| Zones.WedgeBounds | software.py:1123-1131 | wedge i runs from tilt − 11.25 + 22.5·i to 22.5 degrees further |
| Zones.WedgesAdjacent | software.py:1129-1131 | wedge i ends where wedge i+1 starts |
| Zones.WedgesCloseTheTurn | software.py:1129-1131 | the sixteenth wedge ends one full turn after the first starts |
| Zones.LabelIsMidpoint | software.py:983 | the label angle tilt + 22.5·i bisects wedge i |
| Zones.TiltByStepShiftsZones | software.py:952-961 | adding one step to the tilt moves each boundary ray onto the next one's position |
| Zones.ZoneAt | software.py:1129-1131 | a direction within the turn lies in the wedge of the zone it picks |
| Zones.WedgesPartitionTurn | software.py:1129-1131 | a direction within the turn lies in exactly one wedge |
| ZoneAreas.BitwiseAnd | software.py:1141 | the AND mask has the masks' shape, and its set pixels are those set in both masks |
| ZoneAreas.ComputeZoneAreas | software.py:1107-1145 | sixteen areas in wedge order, each the number of pixels set in both the polygon mask and that wedge's mask |
| ZoneAreas.ZoneAreaBounded | software.py:1141-1142 | a zone's area lies between 0 and the polygon mask's pixel count |
| ZoneAreas.ZoneAreasSum | software.py:1129-1145 | over non-overlapping wedge masks the zone areas add up to at most the polygon's pixel count, and to exactly that count when the wedges cover the polygon |
| Balance.Max | software.py:1381 | max(areas) is an entry and bounds every entry from above |
| Balance.Min | software.py:1382 | min(areas) is an entry and bounds every entry from below |
| Balance.Mean | software.py:1380 | the mean LOB times the number of areas is their sum |
| Balance.RemarkFor | software.py:1386-1392 | High exactly when v > ULOB, Low exactly when v ≤ ULOB and v < LLOB, Balanced exactly when LLOB ≤ v ≤ ULOB |
| Balance.MeanBetween | software.py:1380 | the mean LOB lies between the smallest and the largest area |
| Balance.Lines | software.py:1380-1382 | min ≤ LLOB ≤ LOB ≤ ULOB ≤ max |
| Balance.MeanStrictlyBetween | software.py:1380 | unless all areas are equal, LOB lies strictly between min and max |
| Balance.ZoneData | software.py:1376 | every zone is a key of the zone data, mapped to its area in ZONE_NAMES order |
| Balance.ZoneRemarks | software.py:1376-1392 | the loop returns the balance lines and a remark for every zone, High above ULOB, else Low below LLOB, else Balanced |
| Balance.RemarkThresholds | software.py:1385-1392 | High iff v > ULOB, Low iff v < LLOB, Balanced iff LLOB ≤ v ≤ ULOB, so values on a line are Balanced |
| Balance.AllBalancedIffUniform | software.py:1380-1392 | every zone is Balanced exactly when all areas are equal |
| Balance.ExtremesFlagged | software.py:1380-1392 | unless all areas are equal, a largest zone is High and a smallest zone is Low |
| Prakriti.GroupMembership | software.py:1395-1399 | a zone is listed in a group exactly when the group owns its arc of the wheel (E..SSW Fire, SW..NW Air, NNW..ENE Water) |
| Prakriti.FireMembers | software.py:1396 | the Fire list holds exactly the zones E through SSW |
| Prakriti.WaterMembers | software.py:1397 | the Water list holds exactly NNW, N, NNE, NE and ENE |
| Prakriti.AirMembers | software.py:1398 | the Air list holds exactly the zones SW through NW |
| Prakriti.GroupListsExact | software.py:1395-1399 | no group list repeats a zone, and the lists hold sixteen zones between them, so with membership they partition ZONE_NAMES |
| Prakriti.GroupSumUnfold | software.py:1406-1408 | the generator sum over a group's zone list is the left-to-right sum of those zones' areas |
| Prakriti.FireStrength | software.py:1406-1408 | the sum over the Fire list is the sum of the areas of zones 4 to 9 |
| Prakriti.WaterStrength | software.py:1406-1408 | the sum over the Water list is the sum of the areas of zones 15, 0, 1, 2 and 3 |
| Prakriti.AirStrength | software.py:1406-1408 | the sum over the Air list is the sum of the areas of zones 10 to 14 |
| Prakriti.Strengths | software.py:1406-1409 | Fire is the area of zones 4 to 9, Water of zones 15 and 0 to 3, Air of zones 10 to 14, and the prakriti total equals the sum of all sixteen zone areas |
| Prakriti.Percentages | software.py:1414-1416 | each percentage times the total is 100 times its strength, and when the total is the strengths' sum the three add up to 100 |
| Prakriti.PercentagesAddUp | software.py:1414-1416 | the three percentages of a positive total add up to 100 |
| Prakriti.InsertContents | software.py:1417 | inserting into the ranking adds exactly that element |
| Prakriti.InsertKeepsRanked | software.py:1417 | inserting a group listed after all the ranked ones, behind every group at least as strong, keeps the ranking ranked (the stability of `sorted`) |
| Prakriti.Rank | software.py:1417 | the ranking lists each group once, and every earlier group is stronger, or equally strong and listed earlier |
| Prakriti.RankIsStableDescendingSort | software.py:1417 | the ranking is by non-increasing strength, and it is the only ranked arrangement of the three groups |
| Prakriti.RankedUnique | software.py:1417 | only one arrangement of the groups is ranked, so the ranking is determined by the strengths |
| Prakriti.Label | software.py:1418 | the label is empty exactly when the ranking is, and it starts with the first group's name, followed by "-" when more groups follow |
| Prakriti.LabelRoundTrip | software.py:1418 | splitting the label at "-" and reading the names gives back the ranking |
| Prakriti.Aggregate | software.py:1394-1418 | an error exactly when the areas sum to ≤ 0; otherwise the group strengths, each strength's percentage of the area sum (the three add up to 100), the ranking of those strengths holding each group once, and its label |
| Prakriti.UniformAreasExample | software.py:1394-1418 | all zones at 100 give strengths 600/500/500, ranking Fire, Water, Air and label "Fire-Water-Air" |
| Prakriti.ZeroAreasExample | software.py:1409-1412 | all-zero areas are the zero-total error |
| HexColor.ParsePair | software.py:1153-1155 | a converted pair lies in −15..255, is negative only after a '-' sign, and holds at least one hex digit; two hex digits always convert to a byte; a failure names the pair |
| HexColor.FromDigits | software.py:1153-1156 | the colour converts exactly when all three pairs do, each component lies in −15..255, and an error names one of the three pairs |
| HexColor.HexToBgr | software.py:1147-1156 | a remainder that is not six long gives (0, 255, 0); an error comes from a six-character remainder and names one of its pairs; each converted component lies in −15..255 |
| HexColor.LStrip | software.py:1150 | lstrip removes a leading run of '#' and leaves a remainder that does not start with '#' |
| HexColor.ExtraHashesIgnored | software.py:1150 | any number of leading '#' give the same colour |
| HexColor.WrongLengthFallsBack | software.py:1150-1152 | a remainder whose length is not six gives (0, 255, 0) whatever its characters |
| HexColor.ParseHexByte | software.py:1153-1155 | two lower-case hex digits of a byte read back as that byte |
| HexColor.DigitPair | software.py:1153-1155 | two hex digits of either case read as a byte that formats back to the same digits in lower case |
| HexColor.FormatRoundTrip | software.py:1147-1156 | every colour with byte components, written as "#rrggbb", converts back to the same (b, g, r) |
| HexColor.SixDigitsConvert | software.py:1150-1156 | six hex digits always convert, each component is in 0..255, and formatting the result gives back the digits in lower case |
| HexColor.CenterColorExample | software.py:1147-1156 | "#e63946" converts to (70, 57, 230) |
| HexColor.NonHexPairExample | software.py:1153-1155 | a non-hex pair is an error, not the fallback colour |
| HexColor.SignedPairExample | software.py:1153-1156 | a signed pair is accepted and gives a negative component |

## Left out

- Tk user interface, canvas drawing, dialogs, status text and the progress popup: presentation only.
- Image loading, cropping and Canny/contour boundary detection: calls into OpenCV whose behaviour is not visible here.
- Rasterisation by `cv2.fillPoly` and `cv2.fillConvexPoly`, and the `np.int32` truncation of vertices: the masks are parameters of `ZoneAreas.ComputeZoneAreas`. The far points of each wedge's triangle are not computed.
- Trigonometry (`math.sin`, `math.cos`, `math.radians`) and the fallback end point of a ray with no hit: the direction vector is a parameter of `RayCast.RayBoundaryIntersection`.
- Floating-point rounding: all arithmetic is on exact reals, so the tolerances `1e-9` are compared exactly.
- The placement of labels at 0.62 of the centre-to-boundary distance: drawing only. The label angle is modelled.
- Matplotlib charts, PDF layout, image export and temporary files: output.
- The zone-area cache, the choice between the plot and bar-chart boundaries, and the reset helpers: session state of the user interface.
- The prakriti colour table and the error dialog: presentation. The zero-total case is the `ZeroPrakritiTotal` error.
- Geometry.PolygonArea: requires a non-empty vertex list, because numpy raises on an empty one; the error is not modelled.
- ZoneAreas.ZoneAreasSum: requires the wedge masks to be pairwise disjoint. Rasterised wedges can share boundary pixels, and then the areas add up to more than the polygon's count.
- RayCast.RayHit: does not state that a ray from a point strictly inside a convex boundary always hits it, which the source expects (it calls a miss unexpected at software.py:964). That needs an argument about the boundary winding round the point, beyond the edge-by-edge algebra. With `|denom| < eps` the source also skips an edge nearly parallel to the ray, which can drop the only crossing.
- HexColor.HexToBgr: non-ASCII decimal digits, which `int()` also accepts, count as errors here. Underscore separators cannot occur in a two-character pair.
- Balance.Mean, Balance.Max, Balance.Min, Balance.Lines: require a non-empty list; Python divides by zero in `sum(areas) / len(areas)` and `max()` and `min()` raise on an empty one.
