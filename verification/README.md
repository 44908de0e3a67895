# xBRZ pixel-art upscaler of jpass, modelled in Dafny

This project models the image-scaling core of jpass:

- **The xBRZ upscaler** (`XBRZ`, `XBRZUtil`, `XBRZScaler`, `XBRZMatrix`, `XBRZScaleSize`, `XBRZConfig`):
  - the packed per-pixel blend records;
  - the classification of each 2x2 corner into none, normal or dominant blending;
  - the four rotations that let one pattern serve all four corners of a pixel;
  - the rotation tables;
  - the scale-specific blend patterns for factors 2 to 5;
  - the 32-bit alpha blend;
  - the row scan that fills and blends one block per source pixel.
- **The pixel filters** (`PixelSSNearest`, `PixelSSAdvMAME`, `PixelSSEagle`, `PixelSSIdentity`, `PixelSSxBRZ`) and the `PixelSupersampler.getByName` name table, with the default `apply(Texture)`.
- **The path-suffix helpers** `JPASSUtil.noSuffix` and `JPASSUtil.getSuffix`.

Images are `seq<Pixel>` in row-major order, with `Pixel` the 32-bit ARGB word as a natural number below 2^32.

Java exceptions become the `IllegalArgument(message)` case of a `Result`, and a `null` argument becomes `None`. The output array a filter writes into is a value: the filter returns the new array.

The scan in `XBRZ.scaleImage` carries each pixel's blend record through a one-row buffer and a one-pixel variable. The model proves that the loop computes the reference fold `ScaleImage.Rows`, in which every pixel's record is built directly from the four corners around it. About that fold it proves that a slice of rows [yFirst, yLast) writes only target rows [s*yFirst, s*yLast), and that a source of one colour scales to a target of that colour.

The colour metric (`distYCbCr`, floating point) is a parameter `Metric` of the model. Properties that depend on it say so, like the mirror symmetry of the corner classification.

## Model

| member | source | states |
|---|---|---|
| BlendInfo.SetTopL | src/main/java/de/janschultke/jpass/xbrz/XBRZ.java:559 | OR-ing a strength of at most 3 into the top-left lane leaves the other three lanes as they were. On a lane that is still none it stores exactly the new strength. |
| BlendInfo.SetTopR | src/main/java/de/janschultke/jpass/xbrz/XBRZ.java:561 | The same for the top-right lane (bits 2-3). |
| BlendInfo.SetBottomR | src/main/java/de/janschultke/jpass/xbrz/XBRZ.java:563 | The same for the bottom-right lane (bits 4-5). |
| BlendInfo.SetBottomL | src/main/java/de/janschultke/jpass/xbrz/XBRZ.java:565 | The same for the bottom-left lane (bits 6-7). |
| BlendInfo.SetGetRoundTrip | src/main/java/de/janschultke/jpass/xbrz/XBRZ.java:551-565 | For v <= 3, reading a lane back after setting it on an empty record gives v, for each of the four lanes. |
| BlendInfo.RotateLanes | src/main/java/de/janschultke/jpass/xbrz/XBRZ.java:567-577 | For a record below 256 and 0 <= r < 4, lane k of `rotate(b, r)` is lane (k - r) mod 4 of b. Rotating by 0 keeps the record. |
| BlendInfo.QuarterTurnLanes | src/main/java/de/janschultke/jpass/xbrz/XBRZ.java:573-576 | One quarter turn moves every lane one corner clockwise. |
| BlendInfo.HalfTurnLanes | src/main/java/de/janschultke/jpass/xbrz/XBRZ.java:573-576 | A half turn swaps opposite corners. |
| BlendInfo.ThreeQuarterTurnLanes | src/main/java/de/janschultke/jpass/xbrz/XBRZ.java:573-576 | Three quarter turns move every lane one corner counter-clockwise. |
| BlendInfo.Pack | src/main/java/de/janschultke/jpass/xbrz/XBRZ.java:551-557 | The record built from four strengths of at most 3 lies in the low byte and the getters read those strengths back. |
| BlendInfo.LanesDetermine | src/main/java/de/janschultke/jpass/xbrz/XBRZ.java:551-557 | Two records in the low byte with equal lanes are equal. A record is therefore nothing but its four lanes. |
| BlendInfo.SetIntoPacked | src/main/java/de/janschultke/jpass/xbrz/XBRZ.java:559-565 | OR-setting into a lane that is still none equals packing the record with the new value in that lane: the OR acts as an assignment. |
| Rotation.Rot | src/main/java/de/janschultke/jpass/xbrz/XBRZ.java:206-244 | Every entry of the kernel rotation table is one of the nine labels a..i. |
| Rotation.RotCache | src/main/java/de/janschultke/jpass/xbrz/XBRZ.java:241-243 | Entry `(x << 2) + rotDeg` of the flat 36-entry cache holds `rotation[rotDeg][x]`, and that index lies inside the cache. |
| Rotation.RotTableShape | src/main/java/de/janschultke/jpass/xbrz/XBRZ.java:217-235 | Each row of `Rot` is a permutation of 0..8 that keeps the centre e in place. |
| Rotation.RotComposition | src/main/java/de/janschultke/jpass/xbrz/XBRZ.java:222-235 | deg180 is deg90 applied twice, deg270 is deg90 applied three times, and four quarter turns are the identity. |
| Rotation.BuildMatrixRotation | src/main/java/de/janschultke/jpass/xbrz/XBRZ.java:607-627 | Rotation 0 is the identity, and a cell of the N x N block stays in the block after any number of turns. |
| Rotation.MatrixRotationInjective | src/main/java/de/janschultke/jpass/xbrz/XBRZ.java:607-627 | Distinct cells rotate to distinct cells. |
| Rotation.MatrixRotationOnto | src/main/java/de/janschultke/jpass/xbrz/XBRZ.java:607-627 | Every cell of the block is the rotation of a cell of the block. The explicit inverse rotation finds it. |
| Rotation.MatrixRotationBijective | src/main/java/de/janschultke/jpass/xbrz/XBRZ.java:607-627 | For every number of turns, `buildMatrixRotation` is a bijection of [0,N)^2 onto itself. |
| Rotation.FourTurnsIdentity | src/main/java/de/janschultke/jpass/xbrz/XBRZ.java:619-624 | Four turns bring every cell back. |
| Rotation.MatrixRotationTableAt | src/main/java/de/janschultke/jpass/xbrz/XBRZ.java:589-605 | The start-up loop writes the rotation of (i, j) by r at scale n into entry `(n-2)*100 + r*25 + 5i + j`. That index is inside the 400-entry table. |
| Matrix.NewMatrix | src/main/java/de/janschultke/jpass/xbrz/XBRZMatrix.java:11-15 | The base offset is (scale - 2) * 100. For scale 2..5 this is the first table entry of that scale. |
| Matrix.Move | src/main/java/de/janschultke/jpass/xbrz/XBRZMatrix.java:17-20 | `move` sets `nr` to base + rotDeg * 25 and the block origin to `outi`, and keeps the rest. |
| Matrix.RefAddress | src/main/java/de/janschultke/jpass/xbrz/XBRZMatrix.java:22-26 | For scale 2..5, rotDeg 0..3 and i, j < 5, the lookup `nr + 5i + j` is below 400. `ref(i, j)` addresses `outi + J + I * outWidth` of the rotated cell (I, J), which lies in [0, scale)^2 when i, j < scale. With rotDeg 0 this is `outi + j + i * outWidth`. |
| Matrix.RefInTarget | src/main/java/de/janschultke/jpass/xbrz/XBRZMatrix.java:22-26 | Every cell of a block that fits the target is addressed inside the target. |
| Matrix.RefInjective | src/main/java/de/janschultke/jpass/xbrz/XBRZMatrix.java:22-26 | Two cells of a block whose row is at least `scale` wide never share a target index. |
| Scaler.Scale | src/main/java/de/janschultke/jpass/xbrz/XBRZScaler.java:17-149 | `scale()` of X2..X5 lies in 2..5. |
| Scaler.ScaleInjective | src/main/java/de/janschultke/jpass/xbrz/XBRZScaler.java:17-149 | Two scalers have the same `scale()` only if they are the same scaler. |
| Scaler.PatternX2 | src/main/java/de/janschultke/jpass/xbrz/XBRZScaler.java:24-47 | Each 2x pattern is non-empty. Its cells lie in [0,2)^2, its blend weights satisfy 0 < n < m <= 100, and no cell is written twice. |
| Scaler.PatternX3 | src/main/java/de/janschultke/jpass/xbrz/XBRZScaler.java:57-91 | The same for the 3x patterns. |
| Scaler.PatternX4 | src/main/java/de/janschultke/jpass/xbrz/XBRZScaler.java:101-141 | The same for the 4x patterns. |
| Scaler.X4LineShallow | src/main/java/de/janschultke/jpass/xbrz/XBRZScaler.java:101-108 | The same for the 4x shallow line. |
| Scaler.X4LineSteep | src/main/java/de/janschultke/jpass/xbrz/XBRZScaler.java:110-117 | The same for the 4x steep line. |
| Scaler.X4LineSteepAndShallow | src/main/java/de/janschultke/jpass/xbrz/XBRZScaler.java:119-128 | The same for the 4x steep-and-shallow line. |
| Scaler.PatternX5 | src/main/java/de/janschultke/jpass/xbrz/XBRZScaler.java:151-206 | The same for the 5x patterns. |
| Scaler.X5LineShallow | src/main/java/de/janschultke/jpass/xbrz/XBRZScaler.java:151-161 | The same for the 5x shallow line. |
| Scaler.X5LineSteep | src/main/java/de/janschultke/jpass/xbrz/XBRZScaler.java:163-173 | The same for the 5x steep line. |
| Scaler.X5LineSteepAndShallow | src/main/java/de/janschultke/jpass/xbrz/XBRZScaler.java:175-188 | The same for the 5x steep-and-shallow line. |
| Scaler.Pattern | src/main/java/de/janschultke/jpass/xbrz/XBRZScaler.java:24-206 | Every pattern of every scaler is non-empty, addresses only cells of its scale x scale block with proper weights, and writes no cell twice. |
| Scaler.CornerStatement | src/main/java/de/janschultke/jpass/xbrz/XBRZScaler.java:24-206 | Every pattern has a statement that writes the bottom-right cell (scale-1, scale-1) of the block. |
| Scaler.CornerStatementX2 | src/main/java/de/janschultke/jpass/xbrz/XBRZScaler.java:24-47 | Each 2x pattern has a statement writing cell (1, 1). |
| Scaler.CornerStatementX3 | src/main/java/de/janschultke/jpass/xbrz/XBRZScaler.java:57-91 | Each 3x pattern has a statement writing cell (2, 2). |
| Scaler.CornerStatementX4 | src/main/java/de/janschultke/jpass/xbrz/XBRZScaler.java:101-141 | Each 4x pattern has a statement writing cell (3, 3). |
| Scaler.CornerStatementX5 | src/main/java/de/janschultke/jpass/xbrz/XBRZScaler.java:151-206 | Each 5x pattern has a statement writing cell (4, 4). |
| Scaler.X2CornerAndDiagonal | src/main/java/de/janschultke/jpass/xbrz/XBRZScaler.java:40-47 | The 2x corner pattern blends only cell (1, 1), at 21/100. The 2x diagonal pattern blends only cell (1, 1), at 1/2. |
| Scaler.SteepMirrorsShallow | src/main/java/de/janschultke/jpass/xbrz/XBRZScaler.java:24-206 | For every scale, `blendLineSteep` is `blendLineShallow` with i and j swapped, statement for statement. |
| Scaler.PatternSelfMirror | src/main/java/de/janschultke/jpass/xbrz/XBRZScaler.java:24-206 | `blendLineSteepAndShallow`, `blendLineDiagonal` and `blendCorner` are unchanged by that swap: the mirror of every statement is a statement of the same pattern. |
| Scaler.Pos | src/main/java/de/janschultke/jpass/xbrz/XBRZMatrix.java:22-26 | The target index `out.ref(i, j)` of every valid statement lies inside the target. |
| Scaler.ApplyPattern | src/main/java/de/janschultke/jpass/xbrz/XBRZScaler.java:24-206 | Running a pattern keeps the target length. |
| Scaler.ApplyPatternOutside | src/main/java/de/janschultke/jpass/xbrz/XBRZScaler.java:24-206 | Cells that no statement addresses keep their value. |
| Scaler.PosInjective | src/main/java/de/janschultke/jpass/xbrz/XBRZMatrix.java:22-26 | Statements on different cells address different target indices. |
| Scaler.ApplyPatternAt | src/main/java/de/janschultke/jpass/xbrz/XBRZScaler.java:24-206 | With distinct cells, the cell of statement t ends up with that statement's value, computed from the cell's original content. |
| Scaler.ApplyPatternOrderFree | src/main/java/de/janschultke/jpass/xbrz/XBRZScaler.java:24-206 | Two orderings of the same statements with distinct cells have the same effect, so the result does not depend on statement order. |
| XbrzUtil.WeightedChannelBetween | src/main/java/de/janschultke/jpass/xbrz/XBRZUtil.java:26-33 | For 0 < n < m, floor((c*n + d*(m-n))/m) lies between c and d, and equals c when c == d. |
| XbrzUtil.RedIntermediateBound | src/main/java/de/janschultke/jpass/xbrz/XBRZUtil.java:12-33 | The red intermediate `(col & RED_MASK)*n + (dst & RED_MASK)*(m-n)` is at most 0xff0000*m. That bound fits a signed 32-bit int exactly when m <= 128. |
| XbrzUtil.BlendComponent | src/main/java/de/janschultke/jpass/xbrz/XBRZUtil.java:26-33 | For m <= 128, `blendComponent` of a channel is the weighted average of the two 8-bit channel values, put back at the channel's place. |
| XbrzUtil.BlendComponentValue | src/main/java/de/janschultke/jpass/xbrz/XBRZUtil.java:29-32 | Masking the quotient of the shifted weighted sum gives the shifted weighted average of the plain channels. |
| XbrzUtil.Argb | src/main/java/de/janschultke/jpass/xbrz/XBRZUtil.java:21-22 | The packed word of four channel values reads back those values. |
| XbrzUtil.AlphaBlend | src/main/java/de/janschultke/jpass/xbrz/XBRZUtil.java:12-23 | For every weight the assertions admit, 0 < n < m < 256, the result has alpha 0xff. Each RGB channel is floor((col_c*n + dst_c*(m-n))/m), the weighted average the code intends. |
| XbrzUtil.AlphaBlendBetween | src/main/java/de/janschultke/jpass/xbrz/XBRZUtil.java:26-33 | Each blended channel lies between the two input channels. Blending into a destination with the same RGB keeps that RGB. |
| XbrzUtil.BlendComponentAsWrittenAgrees | src/main/java/de/janschultke/jpass/xbrz/XBRZUtil.java:26-33 | For m <= 128 the 32-bit computation of `blendComponent` never wraps and equals the exact one. |
| XbrzUtil.NoWrap | src/main/java/de/janschultke/jpass/xbrz/XBRZUtil.java:31-32 | With masked channels at most 0xff0000 and m <= 128, no intermediate of `blendComponent` leaves the int range. |
| XbrzUtil.AlphaBlendOverflowWitness | src/main/java/de/janschultke/jpass/xbrz/XBRZUtil.java:12-33 | With n = 1 and m = 200, which the assertions admit, the 32-bit red channel of a pure-red destination blended with black is 182. The exact weighted average is 253, and that is the red channel of the corrected `XbrzUtil.AlphaBlend`. |
| XbrzUtil.ChannelDiffs | src/main/java/de/janschultke/jpass/xbrz/XBRZUtil.java:47-49 | `r_diff`, `g_diff` and `b_diff` are the exact signed channel differences, each in [-255, 255]. |
| XbrzUtil.ColorDist | src/main/java/de/janschultke/jpass/xbrz/XBRZUtil.java:40-42 | `colorDist(p, p)` is 0. For distinct pixels it is the metric. |
| Corners.PreProcessCorners | src/main/java/de/janschultke/jpass/xbrz/XBRZ.java:175-204 | Every mark is a blend type (none, normal or dominant). |
| Corners.PreProcessCornersClassifies | src/main/java/de/janschultke/jpass/xbrz/XBRZ.java:175-204 | The result keeps all of these promises:<br>• a flat corner ((f==g and j==k) or (f==j and g==k)) or equal gradients marks nothing;<br>• the {f,k} and {j,g} pairs are never both marked;<br>• f is marked iff the corner is not flat, jg < fk, f != g and f != j (likewise k, j and g);<br>• the marks are dominant iff threshold * smaller < larger. |
| Corners.ClassifiedUnique | src/main/java/de/janschultke/jpass/xbrz/XBRZ.java:175-204 | Those promises determine the result: two records that keep them are equal. |
| Corners.PreProcessCornersMirror | src/main/java/de/janschultke/jpass/xbrz/XBRZ.java:185-203 | For a symmetric metric, mirroring the kernel in its main diagonal swaps the g and j marks and keeps f and k. |
| ScalePixel.Decide | src/main/java/de/janschultke/jpass/xbrz/XBRZ.java:270-338 | `scalePixel` does nothing exactly when the rotated bottom-right lane is none. |
| ScalePixel.DecideKeeps | src/main/java/de/janschultke/jpass/xbrz/XBRZ.java:270-338 | The decision keeps these promises:<br>• nothing is written iff the bottom-right lane is none;<br>• a dominant lane always takes a line pattern;<br>• a normal lane blends the corner alone iff the top-right lane is blended and g differs from e, or the bottom-left lane is blended and c differs from e, or g, h, i, f, c form an L of one colour that e is not;<br>• the colour is f or h, whichever is closer to e, with ties going to f;<br>• the line pattern is shallow, steep or both exactly as `haveShallowLine` and `haveSteepLine` say. |
| ScalePixel.DecideCornerOnlyWhenVetoed | src/main/java/de/janschultke/jpass/xbrz/XBRZ.java:288-316 | Each veto alone makes a normal corner blend the corner only, whatever the other tests say: a blended top-right lane with g unlike e, a blended bottom-left lane with c unlike e, or the L-shape. A dominant corner is never vetoed. |
| ScalePixel.ScalePixel | src/main/java/de/janschultke/jpass/xbrz/XBRZ.java:260-339 | `scalePixel` keeps the target length and changes nothing when the bottom-right lane is none. |
| ScalePixel.ScalePixelInBlock | src/main/java/de/janschultke/jpass/xbrz/XBRZ.java:311-338 | `scalePixel` writes only inside the scale x scale block at `trgi`. |
| ScalePixel.PosInBlock | src/main/java/de/janschultke/jpass/xbrz/XBRZMatrix.java:22-26 | Every statement of a pattern writes inside the block. |
| ScaleImage.SourceRowsCells | src/main/java/de/janschultke/jpass/xbrz/XBRZ.java:437-440 | Row y of the source holds pixels `y*w + x`, the rows the scan reads. |
| ScaleImage.BlendAt | src/main/java/de/janschultke/jpass/xbrz/XBRZ.java:484-503 | The record of pixel (x, y) has as its four lanes the corners classified at (x-1, y-1), (x, y-1), (x, y) and (x-1, y). Corners outside the top or left edge count as none. |
| ScaleImage.FillBlockLoop | src/main/java/de/janschultke/jpass/xbrz/XBRZ.java:114-124 | The `fillBlock` loops set exactly the cells of the blockSize x blockSize block at `trgi` to `col` and leave every other cell unchanged. |
| ScaleImage.PixelBlockFitsTarget | src/main/java/de/janschultke/jpass/xbrz/XBRZ.java:433-444 | The block of every source pixel fits inside a target of (w*s) * (h*s) cells. |
| ScaleImage.ProcessPixelCells | src/main/java/de/janschultke/jpass/xbrz/XBRZ.java:509-533 | Scanning a pixel changes only its own block. A pixel whose record is 0 leaves a solid block of its colour. |
| ScaleImage.BlendBlockCells | src/main/java/de/janschultke/jpass/xbrz/XBRZ.java:509-533 | Filling and the four `scalePixel` rotations write only inside the block. With an empty record the block is solid. |
| ScaleImage.ScaleImage | src/main/java/de/janschultke/jpass/xbrz/XBRZ.java:342-536 | The row range is clamped to [max(yFirst, 0), min(yLast, h)). When that range is empty or w <= 0, the target comes back unchanged. Otherwise the result is the row-by-row reference scan, in which each pixel's record is built from the corners classified around it. Every target cell outside rows [s*max(yFirst,0), s*min(yLast,h)) keeps its value. |
| ScaleImage.ScanRows | src/main/java/de/janschultke/jpass/xbrz/XBRZ.java:433-535 | The row loop over a clamped, non-empty slice computes that fold. |
| ScaleImage.EdgeRecords | src/main/java/de/janschultke/jpass/xbrz/XBRZ.java:359-442 | The records on the image's top and left edges start empty, as the zeroed buffer and `blend_xy1 = 0` assume. |
| ScaleImage.CornerLanes | src/main/java/de/janschultke/jpass/xbrz/XBRZ.java:484-503 | Each of the four OR-sets of a classified corner fills a lane that is still none, so it acts as assignment. F completes the record of (x, y), J and K start those of (x, y+1) and (x+1, y+1), and G adds the third corner of (x+1, y). |
| ScaleImage.FirstRowBuffer | src/main/java/de/janschultke/jpass/xbrz/XBRZ.java:358-419 | Before the row loop, `preProcBuffer` holds the top corners of every pixel of row yFirst. It is all none when yFirst is 0. |
| ScaleImage.PrimeStep | src/main/java/de/janschultke/jpass/xbrz/XBRZ.java:403-417 | One step of the priming loop gives pixel x its top-right and pixel x+1 its top-left corner. |
| ScaleImage.ScanRow | src/main/java/de/janschultke/jpass/xbrz/XBRZ.java:435-534 | One row of the scan writes that row's blocks as the fold does, and leaves the buffer holding the top corners of the next row. |
| ScaleImage.ScanPixel | src/main/java/de/janschultke/jpass/xbrz/XBRZ.java:444-534 | One step of the inner loop keeps the row invariant: the scanned prefix, the block origin and the carried records. |
| ScaleImage.CarryCorner | src/main/java/de/janschultke/jpass/xbrz/XBRZ.java:484-503 | `blend_xy` formed at (x, y) is the full record of that pixel, and the carried records advance by one pixel. |
| ScaleImage.OriginStep | src/main/java/de/janschultke/jpass/xbrz/XBRZ.java:435-444 | The blocks of row y start at `s*y*trgWidth` and lie s cells apart. |
| ScaleImage.BlockCell | src/main/java/de/janschultke/jpass/xbrz/XBRZ.java:435-444 | A cell of the block of pixel (x, y), at `s*y*trgWidth + s*x`, lies in target rows [s*y, s*y+s) and in the s columns of pixel x. |
| ScaleImage.CellBlock | src/main/java/de/janschultke/jpass/xbrz/XBRZ.java:435-444 | Conversely, every cell of target rows [s*y, s*y+s) lies in the block of the pixel of row y whose columns hold it. |
| ScaleImage.PixelFrame | src/main/java/de/janschultke/jpass/xbrz/XBRZ.java:509-533 | Scanning pixel (x, y) changes no cell outside target rows [s*y, s*y+s), and none outside the columns of pixel x. |
| ScaleImage.RowFrame | src/main/java/de/janschultke/jpass/xbrz/XBRZ.java:444-534 | Scanning any prefix of row y changes no cell outside target rows [s*y, s*y+s). |
| ScaleImage.RowsFrame | src/main/java/de/janschultke/jpass/xbrz/XBRZ.java:18-32 | Scanning the slice [yFirst, y) changes no cell outside target rows [s*yFirst, s*y), so slices whose row ranges do not overlap write disjoint cells. |
| ScaleImage.RowsSplit | src/main/java/de/janschultke/jpass/xbrz/XBRZ.java:18-32 | Scanning [a, b) and then [b, c) gives the scan of [a, c), so an image may be processed slice by slice. |
| ScaleImage.UniformNoBlend | src/main/java/de/janschultke/jpass/xbrz/XBRZ.java:175-181 | In a source of one colour every 4x4 kernel is flat, so every pixel's record is empty. |
| ScaleImage.UniformStaysUniform | src/main/java/de/janschultke/jpass/xbrz/XBRZ.java:433-535 | A source of one colour scans to a target whose (w*s) * (h*s) cells all take that colour. |
| ScaleImage.UniformSourceScales | src/main/java/de/janschultke/jpass/xbrz/XBRZ.java:342-536 | The same for the row-major `int[]` source: w*h pixels of one colour scale to (w*s) * (h*s) cells of that colour. |
| ScaleSize.Size | src/main/java/de/janschultke/jpass/xbrz/XBRZScaleSize.java:4-15 | `size` of Times2..Times5 is two more than the ordinal: 2, 3, 4 and 5 in declaration order. |
| ScaleSize.Cast | src/main/java/de/janschultke/jpass/xbrz/XBRZScaleSize.java:17-21 | `cast(k)` returns `values()[k]` for 0 <= k <= 3, Times2 below that and Times5 above. |
| ScaleSize.CastOrdinal | src/main/java/de/janschultke/jpass/xbrz/XBRZScaleSize.java:17-21 | `cast(s.ordinal()) == s`. |
| ScaleSize.Find | src/main/java/de/janschultke/jpass/xbrz/XBRZScaleSize.java:23-25 | The loop over `values()` returns a constant of the requested size, or finds none of that size. |
| ScaleSize.ValueOf | src/main/java/de/janschultke/jpass/xbrz/XBRZScaleSize.java:23-27 | `valueOf(v)` succeeds iff v is in 2..5, and then returns the constant of size v. Otherwise it throws "unsupported scale size: v". |
| ScaleSize.ValueOfSize | src/main/java/de/janschultke/jpass/xbrz/XBRZScaleSize.java:23-25 | `valueOf(s.size) == s` for every constant. |
| XbrzApi.ScaleImageRange | src/main/java/de/janschultke/jpass/xbrz/XBRZ.java:51-68 | A null scale size or config throws with its message, whatever the arrays. Otherwise rows [max(yFirst,0), min(yLast,h)) are scanned, and every target cell outside the target rows [s*max(yFirst,0), s*min(yLast,h)) keeps its value. |
| XbrzApi.ScaleImageWhole | src/main/java/de/janschultke/jpass/xbrz/XBRZ.java:80-88 | The six-argument overload scans rows [0, h). |
| XbrzApi.ScaleImageDefault | src/main/java/de/janschultke/jpass/xbrz/XBRZ.java:99-106 | The five-argument overload scans rows [0, h) with the default configuration. |
| XbrzFilter.NewPixelXbrz | src/main/java/de/janschultke/jpass/pixel/PixelSSxBRZ.java:14-21 | The constructor accepts exactly the factors 2..5 and `getFactor()` returns the factor. Others throw "unsupported scale size: …". |
| XbrzFilter.Apply | src/main/java/de/janschultke/jpass/pixel/PixelSSxBRZ.java:24-31 | A null `out` becomes (w*s) * (h*s) cells. The whole row range [0, h) is scaled with the default configuration into it. |
| NearestFilter.NewNearest | src/main/java/de/janschultke/jpass/pixel/PixelSSNearest.java:9-18 | The constructor accepts exactly factor >= 1 and `getFactor()` returns it. Others throw "factor must be at least 1". |
| NearestFilter.SourceCoord | src/main/java/de/janschultke/jpass/pixel/PixelSSNearest.java:33-36 | For 0 <= x < w*f, `x*w/outW == x/f`, and it lies in [0, w). |
| NearestFilter.CellPosition | src/main/java/de/janschultke/jpass/pixel/PixelSSNearest.java:33-37 | `outWrap.set(x, y)` writes flat cell `y*outW + x`, and that cell maps back to column x and row y. |
| NearestFilter.WrittenNext | src/main/java/de/janschultke/jpass/pixel/PixelSSNearest.java:33-37 | Each step of the inner loop adds exactly cell (x, y) to the written cells. |
| NearestFilter.Apply | src/main/java/de/janschultke/jpass/pixel/PixelSSNearest.java:21-41 | Every output cell gets the source pixel whose factor x factor block holds it. Cells of a caller's `out` past the output keep their values, and a null `out` becomes outW*outH cells. |
| NearestFilter.FactorOneIsCopy | src/main/java/de/janschultke/jpass/pixel/PixelSSNearest.java:33-37 | Scaling by 1 returns the input. |
| NearestFilter.SourceCoordAsWritten | src/main/java/de/janschultke/jpass/pixel/PixelSSNearest.java:33-36 | When `x*w` fits an int, the 32-bit `x * w / outW` is the exact quotient. |
| NearestFilter.SourceCoordOverflowWitness | src/main/java/de/janschultke/jpass/pixel/PixelSSNearest.java:33-36 | For w = 32769, factor 2 and x = 65537 the intended source column is 32768, but the 32-bit expression yields -32765. |
| AdvMameFilter.NewAdvMame | src/main/java/de/janschultke/jpass/pixel/PixelSSAdvMAME.java:9-18 | The constructor accepts exactly factor 2 or 3 and `getFactor()` returns it. Others throw "unknown factor: …". |
| AdvMameFilter.Cells2x | src/main/java/de/janschultke/jpass/pixel/PixelSSAdvMAME.java:40-62 | Each of the four 2x cells is P or its neighbour (A, B, C, D). It differs from P exactly when its equality rule fires and that neighbour differs from P. |
| AdvMameFilter.Cells3x | src/main/java/de/janschultke/jpass/pixel/PixelSSAdvMAME.java:83-115 | The 3x centre cell is E, and every other cell is E or the neighbour (B, D, F or H) its rule names. |
| AdvMameFilter.Cells2xMirror | src/main/java/de/janschultke/jpass/pixel/PixelSSAdvMAME.java:59-62 | Mirroring the neighbourhood left to right mirrors the 2x block. |
| AdvMameFilter.Cells2xTranspose | src/main/java/de/janschultke/jpass/pixel/PixelSSAdvMAME.java:59-62 | Transposing the neighbourhood transposes the 2x block. |
| AdvMameFilter.Cells3xMirror | src/main/java/de/janschultke/jpass/pixel/PixelSSAdvMAME.java:105-115 | Mirroring the neighbourhood left to right mirrors the 3x block. |
| AdvMameFilter.Cells3xTranspose | src/main/java/de/janschultke/jpass/pixel/PixelSSAdvMAME.java:105-115 | Transposing the neighbourhood transposes the 3x block. |
| AdvMameFilter.CellsOfFlat | src/main/java/de/janschultke/jpass/pixel/PixelSSAdvMAME.java:50-115 | A pixel whose four edge neighbours share its colour gives a solid block at 2x and at 3x. Every 3x rule needs two of B, D, F, H to differ, so none fires. |
| AdvMameFilter.RulesFit | src/main/java/de/janschultke/jpass/pixel/PixelSSAdvMAME.java:50-115 | Every interior pixel yields factor*factor cells. |
| AdvMameFilter.Apply | src/main/java/de/janschultke/jpass/pixel/PixelSSAdvMAME.java:20-119 | The output is the border replication followed by the interior blocks, written into `out` or a fresh (w*f)*(h*f) buffer. |
| AdvMameFilter.BorderReplicated | src/main/java/de/janschultke/jpass/pixel/PixelSSAdvMAME.java:121-131 | Cell (i, j) of the block of a border pixel is that pixel. |
| AdvMameFilter.CentreKept | src/main/java/de/janschultke/jpass/pixel/PixelSSAdvMAME.java:110 | At 3x the middle cell of every block is the pixel, on the border and inside. |
| AdvMameFilter.FlatStaysFlat | src/main/java/de/janschultke/jpass/pixel/PixelSSAdvMAME.java:20-131 | An image of one colour scales to an output of that colour. |
| EagleFilter.Cells | src/main/java/de/janschultke/jpass/pixel/PixelSSEagle.java:47-58 | Each of the four cells is C or its diagonal neighbour (S, U, X or Z). It differs from C exactly when that neighbour equals both neighbours beside it and differs from C. |
| EagleFilter.CellsMirror | src/main/java/de/janschultke/jpass/pixel/PixelSSEagle.java:54-57 | Mirroring the neighbourhood left to right mirrors the block. |
| EagleFilter.CellsTranspose | src/main/java/de/janschultke/jpass/pixel/PixelSSEagle.java:54-57 | Transposing the neighbourhood transposes the block. |
| EagleFilter.Apply | src/main/java/de/janschultke/jpass/pixel/PixelSSEagle.java:14-61 | The output is the 2x2 border replication followed by the interior blocks, written into `out` or a fresh (2w)*(2h) buffer. |
| EagleFilter.BorderReplicated | src/main/java/de/janschultke/jpass/pixel/PixelSSEagle.java:26-35 | Each border pixel becomes a 2x2 block of its colour. |
| EagleFilter.InteriorCell | src/main/java/de/janschultke/jpass/pixel/PixelSSEagle.java:47-58 | Cell (i, j) of an interior pixel is the pixel or its diagonal neighbour (x+2i-1, y+2j-1). |
| EagleFilter.FlatStaysFlat | src/main/java/de/janschultke/jpass/pixel/PixelSSEagle.java:14-61 | An image of one colour scales to an output of that colour. |
| IdentityFilter.Apply | src/main/java/de/janschultke/jpass/pixel/PixelSSIdentity.java:11-16 | A null `out` gives a copy of `in`. Otherwise `out` is returned with `in` over its front and its other cells unchanged. |
| IdentityFilter.ApplyIdempotent | src/main/java/de/janschultke/jpass/pixel/PixelSSIdentity.java:11-16 | Copying the input again onto the result changes nothing. |
| IdentityFilter.AgreesWithNearest | src/main/java/de/janschultke/jpass/pixel/PixelSSIdentity.java:11-21 | The identity filter (factor 1) gives the same output as nearest-neighbour scaling by 1. |
| Raster.BlockRange | src/main/java/de/janschultke/jpass/pixel/PixelSSNearest.java:33-36 | Every output cell lies in the factor x factor block of a source pixel, at one of its factor^2 positions. |
| Raster.CellOfBlock | src/main/java/de/janschultke/jpass/pixel/PixelSSAdvMAME.java:52-62 | Cell (i, j) of pixel (x, y)'s block is the output cell (x*f+i, y*f+j), which maps back to the same pixel and position. |
| Raster.PartialStep | src/main/java/de/janschultke/jpass/pixel/PixelSSAdvMAME.java:50-63 | Writing an interior pixel's block advances the column-by-column interior loop by one pixel. |
| Raster.PartialColumn | src/main/java/de/janschultke/jpass/pixel/PixelSSAdvMAME.java:50 | Finishing column x is the same as starting column x+1. |
| Raster.PartialDone | src/main/java/de/janschultke/jpass/pixel/PixelSSAdvMAME.java:38-63 | Once every interior column is done, the border replication plus the interior blocks is the filter's output. |
| Raster.FilterBlocks | src/main/java/de/janschultke/jpass/pixel/PixelSSAdvMAME.java:26-66 | The shared loop skeleton of AdvMAME and Eagle (border replication, then `x in [1, w-1)`, `y in [1, h-1)`) computes the block filter's output. |
| Raster.FilteredCell | src/main/java/de/janschultke/jpass/pixel/PixelSSAdvMAME.java:121-131 | In a block filter's output, cell (i, j) of pixel (x, y) is the pixel on the border and the filter's cell j*f+i inside. |
| Raster.ExpandCell | src/main/java/de/janschultke/jpass/pixel/PixelSSNearest.java:33-37 | In the nearest-neighbour output, cell (i, j) of pixel (x, y)'s block is the pixel. |
| PathUtil.LastIndexOf | src/main/java/de/janschultke/jpass/JPASSUtil.java:22 | `lastIndexOf(c)` is -1 iff c does not occur. Otherwise it is a position holding c with no c after it. |
| PathUtil.NoSuffix | src/main/java/de/janschultke/jpass/JPASSUtil.java:21-24 | `noSuffix` returns a prefix of the path: the whole path when it has no '.', and otherwise the part before the last '.'. |
| PathUtil.GetSuffix | src/main/java/de/janschultke/jpass/JPASSUtil.java:27-30 | `getSuffix` is null iff the path has no '.'. Otherwise it is the text after the last '.' and contains no '.'. |
| PathUtil.TrailingDot | src/main/java/de/janschultke/jpass/JPASSUtil.java:28-29 | A path ending in '.' has the empty suffix, not null. |
| PathUtil.SplitRebuilds | src/main/java/de/janschultke/jpass/JPASSUtil.java:21-30 | For a path with a '.', `noSuffix(p) + "." + getSuffix(p) == p`. |
| Supersampler.NamedFactors | src/main/java/de/janschultke/jpass/pixel/PixelSupersampler.java:10-25 | Every named constant scales by the factor its name carries: IDENTITY by 1, EAGLE by 2, the others by their digit. |
| Supersampler.ToLowerIdempotent | src/main/java/de/janschultke/jpass/pixel/PixelSupersampler.java:30 | Lower-casing twice is lower-casing once. |
| Supersampler.GetByName | src/main/java/de/janschultke/jpass/pixel/PixelSupersampler.java:29-100 | A name whose lower-case form is not in the table throws "unknown sampler: " followed by the name as given. |
| Supersampler.GetByNameIgnoresCase | src/main/java/de/janschultke/jpass/pixel/PixelSupersampler.java:30 | Names with the same lower-case form resolve alike. |
| Supersampler.IdentityAliases | src/main/java/de/janschultke/jpass/pixel/PixelSupersampler.java:31-32 | `none` and `identity`, in any case, resolve to IDENTITY (factor 1). |
| Supersampler.NearestAliases2 | src/main/java/de/janschultke/jpass/pixel/PixelSupersampler.java:34-38 | The five nearest-neighbour spellings of 2 resolve to NEAREST_NEIGHBOR_2 (factor 2). |
| Supersampler.NearestAliases3 | src/main/java/de/janschultke/jpass/pixel/PixelSupersampler.java:40-44 | The same for 3. |
| Supersampler.NearestAliases4 | src/main/java/de/janschultke/jpass/pixel/PixelSupersampler.java:46-50 | The same for 4. |
| Supersampler.NearestAliases5 | src/main/java/de/janschultke/jpass/pixel/PixelSupersampler.java:52-56 | The same for 5. |
| Supersampler.XbrzAliases2 | src/main/java/de/janschultke/jpass/pixel/PixelSupersampler.java:58-60 | `xbrz2`, `xbrz_2` and `2xbrz` resolve to XBRZ_2 (factor 2). |
| Supersampler.XbrzAliases3 | src/main/java/de/janschultke/jpass/pixel/PixelSupersampler.java:62-64 | The same for 3. |
| Supersampler.XbrzAliases4 | src/main/java/de/janschultke/jpass/pixel/PixelSupersampler.java:66-68 | The same for 4. |
| Supersampler.XbrzAliases5 | src/main/java/de/janschultke/jpass/pixel/PixelSupersampler.java:70-72 | The same for 5. |
| Supersampler.Xbrz2PAlias | src/main/java/de/janschultke/jpass/pixel/PixelSupersampler.java:74 | `2xbrzp` resolves to the 2xBRZP filter (factor 2). |
| Supersampler.AdvMameAliases2 | src/main/java/de/janschultke/jpass/pixel/PixelSupersampler.java:76-78 | `advmame2`, `advmame_2` and `advmame2x` resolve to ADVMAME_2. |
| Supersampler.AdvMameAliases3 | src/main/java/de/janschultke/jpass/pixel/PixelSupersampler.java:80-82 | The same for 3. |
| Supersampler.EagleAlias | src/main/java/de/janschultke/jpass/pixel/PixelSupersampler.java:84 | `eagle` resolves to EAGLE (factor 2). |
| Supersampler.HqxAliases2 | src/main/java/de/janschultke/jpass/pixel/PixelSupersampler.java:86-88 | `hqx2`, `hqx_2` and `hqx2x` resolve to HQX_2. |
| Supersampler.HqxAliases3 | src/main/java/de/janschultke/jpass/pixel/PixelSupersampler.java:90-92 | The same for 3. |
| Supersampler.HqxAliases4 | src/main/java/de/janschultke/jpass/pixel/PixelSupersampler.java:94-96 | The same for 4. |
| Supersampler.ApplyTexture | src/main/java/de/janschultke/jpass/pixel/PixelSupersampler.java:120-128 | The default `apply(Texture)` result is (w*factor) x (h*factor) with exactly that many cells. Its data is each modelled filter's `apply` output with a null `out`. |
## Left out

- `XBRZUtil.distYCbCr` and `distRGB` compute in `double`. The metric is a parameter of the model, and the ratios and thresholds of `XBRZConfig` are `real`s. Floating-point rounding is not modelled.
- The `int` overflow of `w * factor`, `w * h` and the target size in every filter. Sizes are unbounded integers and the callers' requirements bound the arrays. The two overflows that change results on admissible inputs are under Findings.
- `PixelSSHQx` and `PixelSS2xBRZP` are not part of this model: they are named in the `getByName` table with their factors only. `Supersampler.ApplyTexture` requires one of the modelled filters.
- `Texture` itself (`wrap`, `alloc`, `getImageWrapper`, `wrapOrCopy`) is not part of this model. A texture is its data with a width and a height, and `forEdge` is modelled as `Raster.EdgeBlocks`.
- `apply(BufferedImage)`, `apply(Texture, times)`, and the `Path`/`File` overloads and `printlnExit` of `JPASSUtil` work on AWT images, files or the console. They are not modelled.
- Concurrency: the xBRZ row range exists so that callers can split an image across threads. The model scans one range at a time.
- `String.toLowerCase()` in `getByName` uses the default locale. The model lower-cases ASCII letters only, which is what every name in the table needs.
- Corners.PreProcessCorners: its own `ensures` only says every mark is a blend type. The full classification is stated and proved as `Corners.PreProcessCornersClassifies`, and `Corners.ClassifiedUnique` shows it determines the result.
- ScalePixel.Decide: its own `ensures` covers only the skip case. The colour, pattern and veto rules are stated by `ScalePixel.Decided` and proved in `ScalePixel.DecideKeeps`.
- ScalePixel.ScalePixel: its contract covers length and the skip case. Where it writes is proved in `ScalePixel.ScalePixelInBlock`, and what it writes is the `Scaler` pattern chosen by the decision.
- Scaler.ApplyPattern: its own `ensures` only keeps the length. Its effect is stated by `Scaler.ApplyPatternAt`, `Scaler.ApplyPatternOutside` and `Scaler.ApplyPatternOrderFree`.
- Supersampler.GetByName: its own `ensures` covers only unknown names. Each accepted spelling is stated by one of the alias lemmas.
- IdentityFilter.Apply requires `|in| <= |out|` when `out` is given. `System.arraycopy` throws otherwise, and that exception is not modelled.
- XbrzUtil.AlphaBlend computes without 32-bit wrap-around. For m <= 128 that is the code's own result (`XbrzUtil.BlendComponentAsWrittenAgrees`), and every pattern's denominator is at most 100. For 128 < m < 256 it is the intended blend rather than the code's, as the first finding shows.
- NearestFilter.Apply: the model's `x*w/outW` is exact integer arithmetic. The 32-bit product is modelled separately as `NearestFilter.SourceCoordAsWritten` (second finding).
- ScaleImage.ScaleImage requires a source of at least `w * h` pixels and a target of at least `(w*s) * (h*s)` cells whenever rows are scanned, the sizes the documented contract of `scaleImage` names (XBRZ.java lines 18-19). The code checks neither: a slice that stops short of the last row reads source rows only up to `yLast + 1` and writes only up to `s*yLast*(w*s)`, so it would accept shorter arrays. Such calls are outside the model, and an access past the end would throw `ArrayIndexOutOfBoundsException`, which is not modelled either.

## Findings

| source | as written | input that shows it | evidently intended | confidence | as-written member | corrected member |
|---|---|---|---|---|---|---|
| src/main/java/de/janschultke/jpass/xbrz/XBRZUtil.java:12-33 | `alphaBlend` asserts n < 256, m < 256 and 0 < n < m, all of which admit m = 200. `blendComponent` computes `(setPixel & mask) * n + (inPixel & mask) * (m - n)` in 32-bit `int`, and for m > 128 the red intermediate can exceed 2^31 - 1 | n = 1, m = 200, a pure-red destination 0x00ff0000 blended with black: the red channel comes out 182 | the weighted average, 253 | not executed | XbrzUtil.AlphaBlendOverflowWitness | XbrzUtil.AlphaBlend |
| src/main/java/de/janschultke/jpass/pixel/PixelSSNearest.java:33-36 | the source column is `x * w / outW` in `int`, and the product wraps for wide images | w = 32769, factor 2, output column x = 65537: the code reads source column -32765 | source column x / factor = 32768 | not executed | NearestFilter.SourceCoordOverflowWitness | NearestFilter.SourceCoord |
