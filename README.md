# custom-fit-logo in Dafny

A model of the core of custom-fit-logo. The app is a small web tool. It places a partner's logo (SVG, or a PNG traced to SVG) inside a mask, or next to the NVIDIA logo in a 1920 x 1080 "lockup" canvas, and lets the user nudge, scale and export the result. The model covers:

- **the logo store** (`src/store/logoStore.ts`): a class `LogoStore.Store` whose fields are updated in place by its actions. Each action's contract ties the new state to a pure step function on a `State` datatype. The lemmas on those steps give the promises of the store: what a partial `setTransform` changes, the coupling `scale = baseScale * scaleFactor`, restore after save, `center`, `reset` and `refit`.
- **the logo processor** (`src/utils/logoProcessor.ts`):
  - the bounds of an SVG's visible elements, with the viewBox and 100 x 100 fallbacks;
  - the alpha-tight box of a raster image's pixels, as a double loop over the RGBA bytes with its invariants, proved to be the smallest box holding every visible pixel;
  - the fit scale and centring offset of a logo in the mask's bounding box.
- **the mask utilities** (`src/utils/mask.ts`, `src/utils/maskData.ts`):
  - the even-odd ray-casting point-in-polygon test, as a loop proved equal to a crossing-count definition;
  - `polygonToPath`, as a string-building loop proved equal to a render of path commands;
  - the default hexagonal mask and its constants;
  - `generateTestPoints`, a nested loop proved equal to a grid definition laid out column by column (x in the outer loop, y in the inner).
- **the previews' shared arithmetic** (`src/components/LockupPreview*.tsx`, `src/components/LogoPreview_fixed.tsx`):
  - the lockup layout: NVIDIA area, separator and partner guide box;
  - the SVG transform lists the previews and the exports build, with their meaning as maps on points;
  - each preview's upload handler, as a method on the store;
  - the file-type rules: the case-sensitive dispatch of one preview and the lower-casing validation of the others.
- **the control panels** (`src/components/ControlPanel.tsx`, `src/components/ControlPanel_new_controls.tsx`):
  - nudges, the Center preset and the scale slider;
  - the default export file names, and the file-name confirmation;
  - the transform lists of the single-logo and lockup exports, and the placement of the NVIDIA logo in the lockup export.
- **the theme bridge** (`src/lib/kaizenBridge.ts`):
  - the `rgb(...)` matcher and `rgbToHsl`, `hexToHsl`, and the muted-lightness rule;
  - `applyKaizenBridge`, as a method writing the sixteen CSS custom properties into a `RootStyle` object.

Numbers are exact `real`s. JavaScript number formatting is a parameter `fmt: real -> string` wherever a number is printed. Integer text is modelled digit by digit:

- `parseInt` with its radix rules, which yields `None` for `NaN`;
- `Math.round` as floor of `x + 0.5`;
- `String.replace` with a string pattern, which removes only the first occurrence;
- `substring`, which clamps its bounds;
- `split(' ')`.

Each component file is one module. The modules `Geometry` (points, boxes, `Option`) and `Text` (string and number-text helpers) are shared.

## Model

| member | source | states |
|---|---|---|
| Geometry.Round | src/lib/kaizenBridge.ts:41 | `Math.round` on a non-negative or exact value: the result is the integer nearest to `x`, with halves rounded up |
| Geometry.BoxOf | src/utils/logoProcessor.ts:189-197 | the `Math.min`/`Math.max` box of a non-empty point list holds every point, and each of its edges is attained by some point |
| Geometry.IsBoxOfUnique | src/utils/logoProcessor.ts:189-197 | there is only one such box, so any box with those properties is the one `calculateFitScale` computes |
| Text.ToLower | src/components/LockupPreview_backup.tsx:255-256 | lower-casing (ASCII letters only) keeps the length and lower-cases each ASCII letter in place, leaving every other character as it is |
| Text.Trim | src/components/ControlPanel_new_controls.tsx:91 | `trim()` removes exactly the leading and trailing white space: the result is `s[i..j]` with only white space before `i` and after `j`, its first and last characters are not white space, and it is empty exactly when the text is all white space |
| Text.TrimIdempotent | src/components/ControlPanel_new_controls.tsx:91 | trimming twice is trimming once |
| Text.ParseDecimalString | src/components/LogoPreview_fixed.tsx:14-15 | `parseInt` reads back the decimal text of a non-negative number, when the digits end the text or are followed by a character that is neither a letter nor a digit |
| Text.Split | src/lib/kaizenBridge.ts:130 | `split(' ')` yields at least one field |
| Text.SplitAt | src/lib/kaizenBridge.ts:130 | splitting at the first separator gives the text before it, then the split of the rest |
| LogoStore.Store.constructor | src/store/logoStore.ts:57-74 | the initial state: no logo, scale 1, offsets 0, baseline 1, factor 1, outline shown, light canvas, no anchor and no saved transform |
| LogoStore.Store.SetLogoFile | src/store/logoStore.ts:77 | records the file and changes nothing else |
| LogoStore.Store.SetLogoData | src/store/logoStore.ts:79-83 | records data and type and clears `isProcessing` |
| LogoStore.Store.SetTransform | src/store/logoStore.ts:85-94 | merges the partial transform into the state, following the scale rule |
| LogoStore.Store.SetUI | src/store/logoStore.ts:96-99 | merges the supplied UI flags |
| LogoStore.Store.SetAnchor | src/store/logoStore.ts:101 | sets the anchor only |
| LogoStore.Store.SetInitialTransform | src/store/logoStore.ts:103 | saves a copy of the placement only |
| LogoStore.Store.RestoreInitialTransform | src/store/logoStore.ts:105-109 | puts back the saved scale and offsets, if any |
| LogoStore.Store.Center | src/store/logoStore.ts:111-134 | with logo data: the saved offsets, or else the offsets that centre the logo bounds, scaled by the baseline, on the mask centre; without bounds (the `catch`) nothing changes |
| LogoStore.Store.Reset | src/store/logoStore.ts:136-145 | scale 1, offsets 0 and padding 0 |
| LogoStore.Store.Refit | src/store/logoStore.ts:154-169 | with logo data and a new fit: the fitted scale becomes the baseline with factor 1, and the offsets are the fitted ones |
| LogoStore.SetTransformOnlySupplied | src/store/logoStore.ts:85-94 | `setTransform` touches only the transform fields; each offset, the baseline and the factor change only when supplied |
| LogoStore.SetTransformScale | src/store/logoStore.ts:88-92 | a supplied baseline or factor makes `scale` their merged product, overriding a supplied `scale`; otherwise the supplied scale or the old one |
| LogoStore.SetTransformKeepsCoupled | src/store/logoStore.ts:85-94 | a patch without an explicit scale preserves `scale == baseScale * scaleFactor` |
| LogoStore.SetTransformIdempotent | src/store/logoStore.ts:85-94 | applying the same patch twice equals applying it once |
| LogoStore.SetLogoDataEndsProcessing | src/store/logoStore.ts:79-83 | `setLogoData` ends processing; the logo counts as present exactly when the data is non-empty; nothing else changes |
| LogoStore.SetUIOnlySupplied | src/store/logoStore.ts:96-99 | `setUI` changes only the flags it is given, to their given values |
| LogoStore.RestoreAfterSave | src/store/logoStore.ts:103-109 | restoring right after saving brings back exactly the saved placement and nothing else |
| LogoStore.RestoreFrame | src/store/logoStore.ts:105-109 | restore is a no-op without a saved transform, only touches scale and offsets, and is idempotent |
| LogoStore.CenterKeepsScale | src/store/logoStore.ts:111-134 | `center` never changes anything but the offsets, and does nothing without logo data |
| LogoStore.CenterIsRestoreOfOffsets | src/store/logoStore.ts:115-118 | with a saved transform, `center` equals restore except that the current scale is kept |
| LogoStore.CenterFallbackCentres | src/store/logoStore.ts:124-130 | in the fallback, the scaled centre of the logo bounds plus the new offset is the mask centre |
| LogoStore.ResetThenRestore | src/store/logoStore.ts:136-145 | `reset` gives the identity transform with padding 0 and keeps everything else, so a later restore undoes it except for the padding |
| LogoStore.RefitCouples | src/store/logoStore.ts:154-169 | after `refit`, `scale == baseScale`, the factor is 1, the offsets are the fitted ones, and only the transform fields changed |
| LogoProcessor.ParseSVGBounds | src/utils/logoProcessor.ts:13-71 | when some visible element has a non-empty box, the result is the smallest box holding all of them, each edge attained; otherwise the positive viewBox, otherwise 0..100 x 0..100 |
| LogoProcessor.AlphaIndexInRange | src/utils/logoProcessor.ts:98 | the alpha byte `(y * width + x) * 4 + 3` of an in-range pixel lies inside the RGBA buffer |
| LogoProcessor.GetAlphaTightBounds | src/utils/logoProcessor.ts:73-143 | when some pixel has non-zero alpha, the result is the tightest box of those pixels, with each edge attained and width/height `max - min + 1`; otherwise the whole image |
| LogoProcessor.ScanComplete | src/utils/logoProcessor.ts:96-107 | after the full scan the flag is set exactly when some pixel is visible, every visible pixel is inside the running box, and each edge is attained |
| LogoProcessor.CalculateFitScaleCentres | src/utils/logoProcessor.ts:183-216 | `calculateFitScale` puts the scaled logo centre on the centre of the tight box of the mask points |
| LogoProcessor.CalculateFitScaleBounded | src/utils/logoProcessor.ts:188-206 | over the tight box of the mask points, the logo takes at most 90% of the box less the padding in each direction, and exactly 90% in one |
| LogoProcessor.CalculateFitScaleInside | src/utils/logoProcessor.ts:183-216 | when the mask points' box less the padding is not empty, the logo placed by `calculateFitScale` lies inside it |
| LogoProcessor.CalculateFitScaleIsFitInBox | src/utils/logoProcessor.ts:188-192 | the `Math.min`/`Math.max` box of the mask points is their one tight box, so the fit depends on the points only through it |
| LogoProcessor.FitInBox | src/utils/logoProcessor.ts:183-216 | the rest of `calculateFitScale` once the mask box is known: the offset puts the scaled logo centre on the box centre |
| LogoProcessor.CentringOffset | src/utils/logoProcessor.ts:209-213 | the offset moves the scaled logo centre onto the mask centre |
| LogoProcessor.CentringOffsetUnique | src/utils/logoProcessor.ts:209-213 | it is the only offset that does so: an offset lands the scaled logo centre on the mask centre exactly when it is the centring offset |
| LogoProcessor.MarginScaleBounds | src/utils/logoProcessor.ts:204-206 | `min(a/w, b/h) * 0.9` takes the logo to at most 90% of the room in both directions, and to exactly 90% in one |
| LogoProcessor.FitScaleBounded | src/utils/logoProcessor.ts:199-206 | the fitted logo is at most 90% of the padded mask box in each direction, and exactly 90% in one |
| LogoProcessor.PaddingMonotone | src/utils/logoProcessor.ts:200-206 | more padding never gives a larger scale |
| LogoProcessor.FitInsidePaddedBox | src/utils/logoProcessor.ts:183-216 | when the padded box is not empty, the placed logo box lies inside the mask box less the padding |
| Mask.PointInPolygon | src/utils/mask.ts:50-64 | the loop's answer is `Inside`: an odd number of crossed edges, counting each edge from its previous vertex; an empty polygon holds nothing |
| Mask.CrossingCountStep | src/utils/mask.ts:54-60 | each edge flips the parity exactly when the ray to the right of the point crosses it |
| Mask.HorizontalEdgeNeverCrosses | src/utils/mask.ts:58 | the straddle test excludes horizontal edges, so the division by `yj - yi` is never by zero |
| Mask.EdgeLeftOfPointNotCrossed | src/utils/mask.ts:58 | an edge entirely left of the point is never counted |
| Mask.RightOfAllOutside | src/utils/mask.ts:50-64 | a point right of every vertex is outside |
| Mask.AboveOrBelowAllOutside | src/utils/mask.ts:50-64 | a point above or below every vertex is outside |
| Mask.Commands | src/utils/mask.ts:35-47 | the path commands of a point list: a move to the first point, a line to each later one, then close |
| Mask.PolygonToPath | src/utils/mask.ts:35-47 | the built string is the render of those commands, and `""` for no points |
| Mask.LineSegments | src/utils/mask.ts:41-43 | the path holds one line per point after the first |
| MaskData.MaskBoundsIsBoxOfPoints | src/utils/maskData.ts:2-19 | `MASK_BOUNDS` is exactly the bounding box of `DEFAULT_MASK_POINTS` |
| MaskData.MaskCenterIsBoundsCenter | src/utils/maskData.ts:11-19 | `MASK_CENTER` is the centre of `MASK_BOUNDS` |
| MaskData.MaskCenterInside | src/utils/maskData.ts:2-11 | `MASK_CENTER` lies inside the default mask by the ray-casting test |
| MaskData.PointInPolygon | src/utils/maskData.ts:22-36 | the copy in this file computes the same `Inside` |
| MaskData.PolygonToPath | src/utils/maskData.ts:54-66 | the copy in this file renders the same commands |
| MaskData.GenerateTestPoints | src/utils/maskData.ts:39-51 | the nested loops produce the grid `TestPoints`, column by column |
| MaskData.TestPointsGrid | src/utils/maskData.ts:41-48 | for a proper box the grid has `(density + 1)^2` points, and entry `i * (density + 1) + j` is `(minX + i * stepX, minY + j * stepY)` |
| MaskData.TestPointsLastIsCorner | src/utils/maskData.ts:44-48 | the last point is the corner `(maxX, maxY)` |
| MaskData.TestPointsWithin | src/utils/maskData.ts:39-51 | every generated point lies within the bounds |
| SvgTransform.Attribute | src/components/LockupPreview.tsx:233 | the `transform` attribute is set exactly when the list is non-empty; it is the entries joined by spaces |
| SvgTransform.AnchorPivot | src/components/LockupPreview_old.tsx:220-221 | `anchor?.[k] \|\| 0`: the anchor when set, the origin otherwise |
| SvgTransform.CenteredTransforms | src/components/LockupPreview.tsx:221-232 | the preview list: the offset translate if non-zero, then the three-step scale about the pivot if the scale is not 1 |
| SvgTransform.CenteredListScalesAbout | src/components/LockupPreview.tsx:213-232 | the list maps every point `p` to `scale * (p - c) + c + offset`, with no rotation |
| SvgTransform.CenteredListPivot | src/components/LockupPreview.tsx:213-232 | the pivot is drawn at itself plus the offset, whatever the scale |
| SvgTransform.CenteredListEntries | src/components/LockupPreview.tsx:221-232 | the list is empty exactly when the offset is zero and the scale 1 |
| SvgTransform.CenteredListIdentity | src/components/LockupPreview.tsx:221-233 | the identity transform gives no list, no attribute and no movement |
| SvgTransform.ScaleAboutMeaning | src/components/LockupPreview.tsx:229-231 | `translate(c) scale(s) translate(-c)` scales about `c` |
| LockupLayout.RectPolygonBox | src/components/LockupPreview.tsx:17-24 | the corners of a box with non-negative size have that box as their bounding box |
| LockupLayout.RectPolygonInside | src/components/LockupPreview.tsx:17-24 | a point strictly inside the box is inside the corner polygon by the ray-casting test |
| LockupLayout.PartnerAreaIndependentOfPadding | src/components/LockupPreview.tsx:48-106 | when the guide fits, it is centred between the separator's right edge and the canvas edge, and vertically on the canvas, whatever the padding |
| LockupLayout.SeparatorPlacement | src/components/LockupPreview.tsx:48-106 | the separator is 8 wide at x = 956, 304 or 550 high, and vertically centred |
| LockupLayout.PartnerCenterInsideGuide | src/components/LockupPreview.tsx:108-112 | `partnerAreaCenter` is the guide's midpoint and lies inside the guide polygon handed to the fitter |
| LockupLayout.PreviewNvidiaLogoCentred | src/components/LockupPreview.tsx:145-171 | the preview's NVIDIA logo is centred on its area and keeps its file's aspect ratio: 692 wide horizontally, 477 otherwise |
| LockupPreview.LayoutValues | src/components/LockupPreview.tsx:7-15 | with `PADDING = 120` the guide is 692 x 132 at (1098, 474) horizontally and 480 x 370 at (1204, 355) otherwise, centred on (1444, 540); an unset orientation gets the vertical layout |
| LockupPreview.NvidiaLogoValues | src/components/LockupPreview.tsx:145-171 | the NVIDIA logo is drawn from x = 134 horizontally and from x = 241.5 vertically |
| LockupPreview.LogoTransforms | src/components/LockupPreview.tsx:205-233 | the partner logo scales about the centre of its bounds and is shifted by the offset; the list is empty exactly for the identity |
| LockupPreview.ProcessFile | src/components/LockupPreview.tsx:246-273 | the upload handler, as calls on the store in source order, equals `ProcessFileStep` |
| LockupPreview.ProcessFileLoads | src/components/LockupPreview.tsx:251-269 | a loaded file becomes the logo: its data and type, the anchor at its bounds centre, the fit as baseline (factor 1) and as saved transform, processing ended; the rest of the state is kept |
| LockupPreview.ProcessFileRecordsUnhandled | src/components/LockupPreview.tsx:250-269 | a file of no image type is still recorded as the logo file, and nothing else changes |
| LockupPreview.ProcessFileFails | src/components/LockupPreview.tsx:270-272 | when loading throws, only the processing flag changes, ending false |
| LockupPreviewBackup.GuidePolygons | src/components/LockupPreview_backup.tsx:11-114 | the guide polygons handed to the fitter in each orientation |
| LockupPreviewBackup.PngScaleFits | src/components/LockupPreview_backup.tsx:298-300 | the PNG scale fits the declared box in the guide and touches it on one side |
| LockupPreviewBackup.PngContentOnGuide | src/components/LockupPreview_backup.tsx:302-358 | the content centre plus the offset is the guide centre, so a preview that scales about the content centre draws it there; after a failed measurement that centre is the middle of the declared size |
| LockupPreviewBackup.ProcessFile | src/components/LockupPreview_backup.tsx:248-367 | the upload handler equals `ProcessFileStep` |
| LockupPreviewBackup.ProcessFileRejects | src/components/LockupPreview_backup.tsx:258-264 | a rejected file is not recorded; only the processing flag changes |
| LockupPreviewBackup.ProcessFilePng | src/components/LockupPreview_backup.tsx:275-363 | a validated PNG is stored as raster data, anchored at its content centre, with the declared-size placement as current and saved transform |
| LockupPreviewBackup.ProcessFileSvg | src/components/LockupPreview_backup.tsx:267-274 | a validated SVG is anchored at its bounds centre with the fit saved |
| LockupPreviewOld.LayoutValues | src/components/LockupPreview_old.tsx:11-114 | with `PADDING = 50` the NVIDIA area is 860 x 980, but the guide and the separator are where the 120-padding previews put them |
| LockupPreviewOld.LogoTransforms | src/components/LockupPreview_old.tsx:210-229 | the partner logo scales about the store's anchor (the origin when unset) and is shifted by the offset |
| LockupPreviewOld.ProcessFile | src/components/LockupPreview_old.tsx:242-286 | the upload handler equals `ProcessFileStep` |
| LockupPreviewOld.ProcessFileLoads | src/components/LockupPreview_old.tsx:261-282 | both branches anchor at the bounds centre and couple the fitted scale with factor 1 |
| LockupPreviewOld.ProcessFileRejects | src/components/LockupPreview_old.tsx:252-259 | a rejected file is not recorded |
| LogoPreviewFixed.FixedOrderSameState | src/components/LogoPreview_fixed.tsx:135-138 | setting the anchor last gives the same state as setting it first |
| LogoPreviewFixed.ProcessFile | src/components/LogoPreview_fixed.tsx:112-166 | the upload handler equals `ProcessFileStep` |
| LogoPreviewFixed.ProcessFileRejectsOrFails | src/components/LogoPreview_fixed.tsx:122-161 | a rejected file, and a PNG whose processing threw (the inner `catch` returns), are not recorded; only the processing flag changes |
| LogoPreviewFixed.PngAnchorIsDeclaredMiddle | src/components/LogoPreview_fixed.tsx:9-25 | a traced PNG declaring `w` and `h` is anchored at `(w/2, h/2)`, and the preview scales it about that point |
| Upload.ValidateAccepts | src/components/LockupPreview_backup.tsx:255-264 | a file is accepted exactly when it has the SVG or PNG MIME type or a `.svg`/`.png` suffix in any case; SVG wins |
| Upload.DispatchAgreesOnLowerCaseNames | src/components/LockupPreview.tsx:250-259 | for lower-case names with an SVG or PNG MIME type, the dispatch and the validation agree |
| Upload.SuffixCase | src/components/LockupPreview.tsx:250-259 | where they differ: `LOGO.SVG` is rejected by the dispatch but accepted by the validation, and a JPEG is the other way round |
| Upload.GetSVGDimensions | src/components/ControlPanel_new_controls.tsx:19-35 | the declared size is defined exactly when both attributes parse, an absent or empty attribute reading as 0 |
| Upload.DimensionsOfWrittenNumbers | src/components/LogoPreview_fixed.tsx:9-25 | attributes holding the decimal text of `w` and `h` give the box 0..w x 0..h with centre `(w/2, h/2)` |
| Upload.LoadStepResult | src/components/LockupPreview.tsx:252-258 | the four store calls of a successful load set data, type, anchor, coupled scale and saved fit, and keep the rest |
| ControlPanel.Nudge | src/components/ControlPanel.tsx:104-110 | the nudge writes the moved offsets through `setTransform` |
| ControlPanel.NudgeMovesOneAxis | src/components/ControlPanel.tsx:104-110 | a nudge moves exactly one offset by the amount in the named direction (up is negative y), and nothing else |
| ControlPanel.NudgeOppositeRestores | src/components/ControlPanel.tsx:104-110 | the opposite nudge by the same amount restores the state |
| ControlPanel.ArrowButton | src/components/ControlPanel.tsx:150-192 | each arrow button nudges by 5 |
| ControlPanel.CenterPresetResult | src/components/ControlPanel.tsx:171 | the Center button puts the offsets at (200, 175) and keeps everything else |
| ControlPanel.ExportTransforms | src/components/ControlPanel.tsx:53-62 | the export list has translate, scale and rotate, in that order, each when its value is not neutral |
| ControlPanel.Export | src/components/ControlPanel.tsx:29-37 | there is an export exactly when logo data is present |
| ControlPanel.ExportListUnrotated | src/components/ControlPanel.tsx:53-66 | with rotation 0 the export maps `p` to `scale * p + offset`, and the attribute is set exactly when the transform is not the identity |
| ControlPanel.ExportAlwaysRotates | src/components/ControlPanel.tsx:60-62 | while the store holds no rotation, the list ends with `rotate(undefined, 400, 350)` and the attribute is always set |
| ControlPanel.UndefinedRotationText | src/components/ControlPanel.tsx:61 | that entry's text begins `rotate(undefined` |
| ControlPanel.CorrectedExportUnrotated | src/components/ControlPanel.tsx:53-66 | reading an absent rotation as 0, the export is the plain shift-and-scale, and it is empty for the identity |
| ControlPanelNewControls.TailLength | src/components/ControlPanel_new_controls.tsx:67 | the longest tail without `.` or `/`, closed on its left by one of them or by the start of the string |
| ControlPanelNewControls.StripExtension | src/components/ControlPanel_new_controls.tsx:67 | `replace(/\.[^/.]+$/, '')`: removes a final `.ext` whose extension is non-empty and has no `.` or `/`, and otherwise returns the name unchanged |
| ControlPanelNewControls.StripExtensionRemoves | src/components/ControlPanel_new_controls.tsx:67 | `base.ext` gives back `base` for every such extension |
| ControlPanelNewControls.StripExtensionKeeps | src/components/ControlPanel_new_controls.tsx:67 | names with no extension, an empty one, or a dot only in a directory are kept |
| ControlPanelNewControls.LockupNameReadsBack | src/components/ControlPanel_new_controls.tsx:68-83 | the lockup name starts `nvidia-and-`, holds the name just after it, then `-partnership-`, the orientation letter and the theme |
| ControlPanelNewControls.LockupNameTells | src/components/ControlPanel_new_controls.tsx:70-72 | the name ends in `-on-dark` exactly for a dark canvas, and has `v` before the theme exactly for the vertical orientation |
| ControlPanelNewControls.DefaultExportNameExamples | src/components/ControlPanel_new_controls.tsx:62-88 | concrete examples only, one per branch: the bare name, the lockup name, the `CHANGE` lockup name, and `logo-in-mask`; the general statements are `LockupNameReadsBack` and `StripExtensionRemoves` |
| ControlPanelNewControls.UnsetNameDisagreesWithLayout | src/components/ControlPanel_new_controls.tsx:70-78 | with no orientation set, the export draws the vertical layout but the name says `h` |
| ControlPanelNewControls.LayoutLetter | src/components/ControlPanel_new_controls.tsx:174 | the letter is `h` exactly when the export draws the horizontal layout, and `v` exactly otherwise |
| ControlPanelNewControls.LayoutLetterAgrees | src/components/ControlPanel_new_controls.tsx:70-78 | the corrected letter agrees with the source's for a set orientation, and names the layout actually drawn |
| ControlPanelNewControls.ConfirmedNameTrimmed | src/components/ControlPanel_new_controls.tsx:91 | the final name is never empty and never padded; it is the trimmed input, or the page's fallback when that is empty |
| ControlPanelNewControls.ConfirmExport | src/components/ControlPanel_new_controls.tsx:90-99 | a confirmed export goes to the lockup export exactly on the lockup page, with the confirmed name and the chosen format |
| ControlPanelNewControls.Nudge | src/components/ControlPanel_new_controls.tsx:382-399 | the nudge sends the one moved offset through `setTransform` |
| ControlPanelNewControls.NudgeMovesFive | src/components/ControlPanel_new_controls.tsx:382-399 | it acts exactly like the older panel's nudge by 5: one offset moves by 5, the opposite nudge undoes it |
| ControlPanelNewControls.Slide | src/components/ControlPanel_new_controls.tsx:413-417 | the slider handler writes factor and scale through `setTransform` |
| ControlPanelNewControls.SliderResult | src/components/ControlPanel_new_controls.tsx:407-417 | a slider position 0..200 sets the factor to position / 100, within 0..2; the scale stays coupled; the label reads back the position; nothing else changes |
| ControlPanelNewControls.NvidiaExportCentred | src/components/ControlPanel_new_controls.tsx:193-228 | the exported NVIDIA logo is centred on (503, 540), is 692 wide horizontally and 478 wide otherwise, keeps its aspect ratio, and lies inside the left region |
| ControlPanelNewControls.NvidiaTransformsMapBox | src/components/ControlPanel_new_controls.tsx:224-231 | `translate(offset) scale(s)` maps the logo file's box onto the drawn box |
| ControlPanelNewControls.NvidiaExportVersusPreview | src/components/ControlPanel_new_controls.tsx:210-228 | the export centres the NVIDIA logo on x = 503 where every preview centres it on x = 480, and draws the vertical logo 478 wide where the previews draw 477 |
| ControlPanelNewControls.ExportSeparatorMatchesPreview | src/components/ControlPanel_new_controls.tsx:239-246 | the export's separator is exactly the one the previews draw, at x = 956 |
| ControlPanelNewControls.PartnerList | src/components/ControlPanel_new_controls.tsx:250-269 | the partner list of both exports is undefined (NaN in the source) exactly when a non-unit scale needs the centre of a size that did not parse |
| ControlPanelNewControls.PartnerListMeaning | src/components/ControlPanel_new_controls.tsx:117-138 | the partner logo scales about the centre of the declared size and shifts by the offset, so that centre is drawn at itself plus the offset; the list is empty exactly for the identity |
| ControlPanelNewControls.LockupExportPlan | src/components/ControlPanel_new_controls.tsx:160-192 | there is a lockup export exactly when logo data is present; the background is black or white and the separator `#333333` or `#cccccc` by canvas theme |
| KaizenBridge.AchromaticHsl | src/lib/kaizenBridge.ts:16-41 | a grey has hue 0, saturation 0 and lightness `round(x * 100)` |
| KaizenBridge.LightnessIsMidrange | src/lib/kaizenBridge.ts:16-41 | the lightness is always a number, lies between the smallest and the largest channel in percent (rounded), and is unchanged by swapping any two channels |
| KaizenBridge.HslBounds | src/lib/kaizenBridge.ts:16-41 | for channels in 0..1, every component is a finite whole number: hue 0..360, saturation and lightness 0..100 |
| KaizenBridge.SaturationAtHalf | src/lib/kaizenBridge.ts:25-41 | rgb(248, 247, 246) has saturation exactly 12.5%, an exact half that the exact model rounds up to 13 |
| KaizenBridge.PrimaryHsl | src/lib/kaizenBridge.ts:24-39 | pure red, green and blue have hues 0, 120 and 240, full saturation and lightness 50 |
| KaizenBridge.DigitGroup | src/lib/kaizenBridge.ts:9 | `(\d+)` takes the maximal non-empty run of decimal digits and splits the text there |
| KaizenBridge.ComponentValueIsParseInt | src/lib/kaizenBridge.ts:12-14 | `parseInt(match[k], 10)` on the matched digits is their decimal value |
| KaizenBridge.RgbFallback | src/lib/kaizenBridge.ts:10 | a string with no `rgb` anywhere becomes `0 0% 0%` |
| KaizenBridge.MatchOfDigits | src/lib/kaizenBridge.ts:9 | `rgb(r, g, b)` with digit groups matches, capturing exactly those groups |
| KaizenBridge.RgbToHslOfMatch | src/lib/kaizenBridge.ts:9-41 | a matched string converts through its three captured values |
| KaizenBridge.RgbStringConverts | src/lib/kaizenBridge.ts:7-42 | the computed-style text `rgb(r, g, b)` converts to the HSL of `(r, g, b) / 255` |
| KaizenBridge.RemoveFirst | src/lib/kaizenBridge.ts:47 | `replace('#', '')` removes only a first `#`, and leaves a string without one unchanged |
| KaizenBridge.HexDigitsConvert | src/lib/kaizenBridge.ts:45-79 | `#` and three hex pairs convert to the HSL of the pairs' values / 255 |
| KaizenBridge.HexAgreesWithRgb | src/lib/kaizenBridge.ts:7-79 | `hexToHsl("#rrggbb")` equals `rgbToHsl("rgb(r, g, b)")` for the same channel values |
| KaizenBridge.HexPairRange | src/lib/kaizenBridge.ts:49-51 | a hex pair is worth at most 255 |
| KaizenBridge.HexPrimaries | src/lib/kaizenBridge.ts:45-79 | `#FF0000`, `#00FF00` and `#0000FF` give `0 100% 50%`, `120 100% 50%` and `240 100% 50%` |
| KaizenBridge.DefaultPopColorHsl | src/lib/kaizenBridge.ts:82 | the default pop colour `#76B900` converts to `82 100% 36%` |
| KaizenBridge.RenderedHasNoSpace | src/lib/kaizenBridge.ts:41 | a printed component holds no space, so `split(' ')` recovers the three fields |
| KaizenBridge.MutedOfHslText | src/lib/kaizenBridge.ts:130-131 | for a converted colour `h s% l%`, the muted lightness is `min(l + 20, 90)`, and the muted colour has it in place of `l` |
| KaizenBridge.MutedOfComponents | src/lib/kaizenBridge.ts:104-131 | for every body text colour `rgb(r, g, b)` with components in 0..255, the lightness `l` is within 0..100 and the muted colour is its HSL with lightness `min(l + 20, 90)` |
| KaizenBridge.RootStyle.SetProperty | src/lib/kaizenBridge.ts:114 | `setProperty` writes one custom property and keeps the others |
| KaizenBridge.ApplyKaizenBridge | src/lib/kaizenBridge.ts:82-146 | the sixteen `setProperty` calls, in order, equal `ThemeUpdate` on the old properties |
| KaizenBridge.ThemeUpdateKeepsOthers | src/lib/kaizenBridge.ts:113-146 | after the bridge, the properties are the old ones plus exactly the sixteen theme names, and the others are unchanged |
| KaizenBridge.ThemeSurfaces | src/lib/kaizenBridge.ts:114-146 | background, card and popover get the background colour's HSL |
| KaizenBridge.ThemeForegrounds | src/lib/kaizenBridge.ts:115-145 | foreground, card, popover and muted foregrounds get the text colour's HSL |
| KaizenBridge.ThemeAccents | src/lib/kaizenBridge.ts:121-137 | primary, accent and ring get the pop colour's HSL, and their foregrounds are white |
| KaizenBridge.ThemeMutedAndDestructive | src/lib/kaizenBridge.ts:129-141 | muted and border get the muted colour; destructive is `0 84% 60%` on white |

## Left out

- The DOM and the browser:
  - `DOMParser`, `getBBox`, `getComputedStyle`, canvas drawing and image loading;
  - the SVG element building of the previews and exports;
  - toasts, `console` logging and file downloads (`downloadSvgAsFormat`, in `src/components/ControlPanel_new_controls.tsx`).
  Their results are parameters: element boxes, pixel bytes, attribute texts, style colours, and `None` where such a step throws.
- `fitIntoMask` is not part of this model. Its placement is an input (`Loaded.fit`) of every upload handler.
- `pathToPoints` and `MASK_POINTS` (`src/utils/mask.ts`) are left out: they sample an SVG path through the DOM, and `mask.json` is not part of this model.
- `vectorizeRasterImage` and `loadImageFromFile` (`src/utils/logoProcessor.ts`) are left out: they wrap ImageTracer and an image element; their text and pixels are inputs. The cropped canvas built by `getAlphaTightBounds` is left out too: only its box is modelled.
- LogoStore.Store.Reset: the deferred `center()` that `reset` schedules with `setTimeout` is not modelled. That later call is `Store.Center`, so a caller models it by calling it.
- The asynchronous order of `processFile` is left out: each handler runs to completion in one call, with `try`/`finally` as the final `SetUI`.
- Floating point is left out: all arithmetic is exact. At an exact half the model rounds up, while the source's double arithmetic may land just below the half and round down. For example, rgb(248, 247, 246) has saturation exactly 12.5%, which the model rounds to 13; the source computes 248/255, 246/255 and the quotient in doubles and may get 12. `KaizenBridge.SaturationAtHalf` proves the model's side of this. Number-to-text is the parameter `fmt`, except for non-negative integers, which are printed as decimal digits.
- LogoProcessor.CalculateFitScale, LogoProcessor.FitInBox: require a positive logo width and height. For those the source returns `Infinity` or `NaN`, which the model does not follow.
- MaskData.GenerateTestPoints: `density` is a whole positive number. The requires exclude the inputs for which the source's loops never end. They require `minX != maxX`: otherwise the x step is 0 and the outer loop never ends, whatever the y range. They also require `minY != maxY` whenever `minX < maxX`: otherwise the y step is 0 and the inner loop never ends. When `minX > maxX` the outer loop does not run, so any y range is allowed.
- LockupPreviewBackup.ProcessFile, LogoPreviewFixed.ProcessFile: require the traced PNG's declared size to parse; the `NaN` placement the source then computes is not modelled.
- LockupPreviewBackup.ProcessFile: also requires the declared width and height to be non-zero. With exactly one of them zero, the source (`src/components/LockupPreview_backup.tsx:298-300`) divides by zero, and `Math.min(Infinity, …)` still gives a finite scale; with both zero the scale is `Infinity`. The model follows neither case.
- The lockup export fetches the NVIDIA logo file (`src/components/ControlPanel_new_controls.tsx:203-205`). The file's text is an input, and the path chosen is modelled. The failure branch, where the response is not `ok` and the export throws to its `catch`, is not modelled.
- The source's default arguments are not modelled: `density = 20` of `generateTestPoints` (`src/utils/maskData.ts:39`) and `padding = 10` of `calculateFitScale` (`src/utils/logoProcessor.ts:183`). In the model both are required parameters.
- ControlPanelNewControls.PartnerList returns `None` where the source would build a list holding `NaN`.
- ControlPanelNewControls.PartnerListMeaning: states only the export's own pivot, the centre of the declared size. No lemma says where a preview draws the same logo. `LockupPreview` and `LockupPreviewBackup` scale about the `parseSVGBounds` centre instead (`src/components/LockupPreview.tsx:208-232`, `src/components/LockupPreview_backup.tsx:211-233`). `LockupPreviewOld` and `LogoPreviewFixed` scale about the store anchor. Whenever the declared box and the drawn content box have different centres and the scale is not 1, the export places the logo differently from those previews.
- LockupPreviewBackup.PngContentOnGuide: says where the content centre lands for a preview that scales about it, as the stored anchor does. The backup's own preview scales about the `parseSVGBounds` centre of the traced SVG (`src/components/LockupPreview_backup.tsx:211-233`), not about the content centre. So the lemma does not say where that preview draws the content.
- The padding and rotation sliders of `src/components/ControlPanel.tsx` write `padding` and `rotation` through the object spread of `setTransform`. Only their effect on the export is modelled: `rotation` is a parameter, `None` before the rotation slider or a rotate key (`[` or `]`, `src/pages/LogoExporter.tsx:35-39`) first sets it.
- `lockupOrientation` is never set by the store. `LockupLayout.Unset` models the `undefined` the components read.
- Text.ToLower lower-cases ASCII letters only. `toLowerCase` also lower-cases other letters, and some of them change length: `U+0130` becomes two code units. File names with such letters are not modelled.
- The probe button of `applyKaizenBridge` is left out: its styles are read and never used. The bridge's `try`/`catch` is left out as well, since no modelled step throws.
- Text.ParseDecimalString is stated for non-negative numbers only. RGB inputs are non-negative digit runs.

## Findings

| source | as written | input that shows it | evidently intended | confidence | as-written member | corrected member |
|---|---|---|---|---|---|---|
| src/components/ControlPanel.tsx:60-62 | `rotation !== 0` pushes `rotate(${rotation}, 400, 350)`; the store declares no `rotation`, so until the rotation slider or a rotate key first sets it, it is `undefined` | a fresh store with logo data, offset 0 and scale 1: the export carries `transform="rotate(undefined, 400, 350)"` | an absent rotation is no rotation, and no attribute for the identity | not executed | ControlPanel.ExportAlwaysRotates | ControlPanel.CorrectedExportUnrotated |
| src/components/ControlPanel_new_controls.tsx:70-78 | the name letter is `v` only for `'vertical'` and `h` otherwise, while the export (line 174) draws the horizontal layout only for `'horizontal'` | `lockupOrientation` never set (the store has no such field): the vertical lockup is exported under a name ending `-h-on-light` | the letter names the layout actually drawn | not executed | ControlPanelNewControls.UnsetNameDisagreesWithLayout | ControlPanelNewControls.LayoutLetterAgrees |
