# SafeRoute accident detection: a verified model of the decoding core

SafeRoute AI is a prototype that flags road accidents in uploaded images and videos. It then
routes each alert to police and hospital dashboards. This project models the parts of it that
compute something, and proves properties of them in Dafny:

- **Browser video panel** (`VideoFeedPanel.tsx`), in four modules:
  - `VideoTensor`: `preprocessImage`, which writes the canvas's RGBA bytes into a channel-first
    float tensor in place. It also covers the model input side read from the model metadata.
  - `VideoDecode`: the decoding half of `detectAccident`.
    - `clampConfidence` and `normalizeCoord`.
    - The dispatch on the output dims: single score, two classes, rank-3 anchors, flattened
      anchors, and the fallback.
    - The two anchor loops. They are methods proved against a scan function.
    - The final `filter` / `sort` / `slice(0, 5)`.
  - `VideoOverlay`: the object-contain fit that places the detection boxes over the displayed
    image.
- **Offline script** (`process_video.py`), module `ProcessVideo`:
  - `iou`.
  - The per-frame decode of the detector output: argmax class, threshold, and integer
    scale-back to the frame.
  - The decode is modelled twice: once as the script is written, and once as it is evidently
    meant (see Findings).
- **Alert store** (`accidentAlerts.ts`), module `AccidentAlerts`:
  - `safeParseAlerts`.
  - The class `AlertStore`, whose `alerts` field is the persisted list. Its methods are
    `publishAccidentAlert` (prepend) and `markAlertNotNew` (clear `isNew` by id).
- **Dashboards**:
  - `PoliceDashboard`: the display rows and the stable severity sort, Critical first. It also
    covers the statistics cards, the colour classes and the two toast-only handlers.
  - `HospitalDashboard`: the display rows with the numeric id taken from the alert id. It also
    covers the statistics cards including the injured total, the status colour, and the
    new-alert badge.
- `ArrayOps` holds the `Array.prototype` operations these chain together.
  - `sort` with a `(a, b) => key(b) - key(a)` comparator is the stable descending sort.
  - `StableSortIsUnique` proves that any permutation which is descending and keeps ties in
    order is that sort.
- `Optional` holds `Option` and `Result`.

Two facts about the decoding code:

- A rank-3 anchor's confidence is its clamped fifth value alone. The class value at offset 5 is
  read, but only to guard the read, and no class test is made.
- The browser panel applies no non-maximum suppression. The offline script hands suppression to
  an OpenCV call.

Two further behaviours of the code that the contracts make visible:

- An anchor box clipped at the left or top edge keeps its full width or height. It can
  therefore reach past the anchor's right or bottom edge: `AnchorAtCovers` only bounds it by
  the anchor's size.
- The anchor branches set the verdict before the final filter. A verdict of "accident" can
  therefore come with no box drawn, but a drawn box always comes with that verdict
  (`DetectAccident`).

Numbers are mathematical reals and integers. Float32 and IEEE-754 rounding are not modelled.

## Model

| member | source | states |
|---|---|---|
| VideoTensor.ModelSide | safroute-ai-prototype-main/safroute-ai-prototype-main/src/components/VideoFeedPanel.tsx:353-354 | the model side is the declared last (or second-last) dimension. A missing or zero dimension gives 640, and the side is never 0 |
| VideoTensor.Chw | safroute-ai-prototype-main/safroute-ai-prototype-main/src/components/VideoFeedPanel.tsx:307 | the tensor holds 3 values per pixel: the red plane, then the green plane, then the blue plane |
| VideoTensor.PreprocessImage | safroute-ai-prototype-main/safroute-ai-prototype-main/src/components/VideoFeedPanel.tsx:297-323 | the in-place stride-4 loop leaves a fresh array equal to the channel-first tensor of the bytes |
| VideoTensor.WritePixel | safroute-ai-prototype-main/safroute-ai-prototype-main/src/components/VideoFeedPanel.tsx:311-319 | one iteration writes r, g and b of pixel p to slots p, n+p and 2n+p, and no other slot changes |
| VideoTensor.ChwFromPlanes | safroute-ai-prototype-main/safroute-ai-prototype-main/src/components/VideoFeedPanel.tsx:316-319 | a list of 3n values holding every pixel's three channels in their slots is the tensor |
| VideoTensor.ChwSlots | safroute-ai-prototype-main/safroute-ai-prototype-main/src/components/VideoFeedPanel.tsx:317-319 | channel c of pixel p is at slot c*n+p, scaled by 1/255 |
| VideoTensor.SlotsDistinct | safroute-ai-prototype-main/safroute-ai-prototype-main/src/components/VideoFeedPanel.tsx:317-319 | no two (channel, pixel) pairs write the same slot |
| VideoTensor.SlotsCovered | safroute-ai-prototype-main/safroute-ai-prototype-main/src/components/VideoFeedPanel.tsx:307-319 | every slot of the 3n-value tensor is written by some channel of some pixel |
| VideoTensor.AlphaIgnored | safroute-ai-prototype-main/safroute-ai-prototype-main/src/components/VideoFeedPanel.tsx:310-314 | buffers that differ only in alpha bytes give the same tensor |
| VideoTensor.ChwInUnitRange | safroute-ai-prototype-main/safroute-ai-prototype-main/src/components/VideoFeedPanel.tsx:312-314 | every tensor value lies in [0, 1] |
| VideoDecode.At | safroute-ai-prototype-main/safroute-ai-prototype-main/src/components/VideoFeedPanel.tsx:417 | a read of the output data is defined exactly inside the array, and is then that element |
| VideoDecode.ClampConfidence | safroute-ai-prototype-main/safroute-ai-prototype-main/src/components/VideoFeedPanel.tsx:393-399 | the result is in [0, 1]. Values in [0, 1] pass unchanged, values in (1, 100] are read as percentages, negatives give 0 and values of 100 or more give 1 |
| VideoDecode.NormalizeCoord | safroute-ai-prototype-main/safroute-ai-prototype-main/src/components/VideoFeedPanel.tsx:402-408 | values up to 1 are returned unchanged, and larger values are divided by the side (r * side == v) |
| VideoDecode.ToPixelsScalesNormalized | safroute-ai-prototype-main/safroute-ai-prototype-main/src/components/VideoFeedPanel.tsx:457-468 | normalising and multiplying back by the side keeps pixel values and scales fractions |
| VideoDecode.LayoutOf | safroute-ai-prototype-main/safroute-ai-prototype-main/src/components/VideoFeedPanel.tsx:415-534 | the branch taken for each dims shape, tested in source order. The flattened step is 6, or the width when that is 5 |
| VideoDecode.CentreBox | safroute-ai-prototype-main/safroute-ai-prototype-main/src/components/VideoFeedPanel.tsx:421-429 | the synthesised box is a square of 0.6 x the shorter side, centred in the image and inside it |
| VideoDecode.Classify | safroute-ai-prototype-main/safroute-ai-prototype-main/src/components/VideoFeedPanel.tsx:417-430 | accident iff the clamped score exceeds 0.5, and then exactly the centred box. A missing score is no accident |
| VideoDecode.AnchorAt | safroute-ai-prototype-main/safroute-ai-prototype-main/src/components/VideoFeedPanel.tsx:457-491 | an anchor yields a box iff it passes the acceptance test. The box lies in the image, above 0.3 and labelled, with the anchor's clamped confidence |
| VideoDecode.AnchorAtCovers | safroute-ai-prototype-main/safroute-ai-prototype-main/src/components/VideoFeedPanel.tsx:478-481 | the clipped box covers the anchor's in-image part and is no wider or taller than the anchor |
| VideoDecode.AnchorBoxes | safroute-ai-prototype-main/safroute-ai-prototype-main/src/components/VideoFeedPanel.tsx:455-492 | at most one box per anchor, present iff the guard value exists and the anchor is accepted |
| VideoDecode.ScanAnchorsValid | safroute-ai-prototype-main/safroute-ai-prototype-main/src/components/VideoFeedPanel.tsx:453-493 | every box a scan pushes lies inside the image and passed the 0.3 threshold |
| VideoDecode.ScanAnchorsNonEmpty | safroute-ai-prototype-main/safroute-ai-prototype-main/src/components/VideoFeedPanel.tsx:453-493 | a scan pushes some box iff some visited anchor is read and accepted |
| VideoDecode.MaxConfidence | safroute-ai-prototype-main/safroute-ai-prototype-main/src/components/VideoFeedPanel.tsx:475 | the running Math.max from 0 is an upper bound of all box confidences and is attained (or 0) |
| VideoDecode.ScanAppend | safroute-ai-prototype-main/safroute-ai-prototype-main/src/components/VideoFeedPanel.tsx:483 | visiting one more anchor appends its box, if any |
| VideoDecode.MaxConfidenceStep | safroute-ai-prototype-main/safroute-ai-prototype-main/src/components/VideoFeedPanel.tsx:475 | pushing one box updates the maximum as Math.max(confidence, conf) |
| VideoDecode.Rank3Starts | safroute-ai-prototype-main/safroute-ai-prototype-main/src/components/VideoFeedPanel.tsx:453-454 | the rank-3 loop visits one offset per anchor |
| VideoDecode.Rank3StartsOffsets | safroute-ai-prototype-main/safroute-ai-prototype-main/src/components/VideoFeedPanel.tsx:453-454 | anchor k is read at k * stride |
| VideoDecode.FlatStarts | safroute-ai-prototype-main/safroute-ai-prototype-main/src/components/VideoFeedPanel.tsx:499 | the flattened loop visits offsets from 0 below the data length |
| VideoDecode.FlatStartsOffsets | safroute-ai-prototype-main/safroute-ai-prototype-main/src/components/VideoFeedPanel.tsx:497-499 | the k-th visited offset is k * step, and the offsets reach the end of the data |
| VideoDecode.VisitAnchor | safroute-ai-prototype-main/safroute-ai-prototype-main/src/components/VideoFeedPanel.tsx:455-492 | one loop iteration. Afterwards the pushed boxes are the scan of the offsets visited so far, the verdict is "some box" and the confidence is their maximum |
| VideoDecode.FlatStartsStep | safroute-ai-prototype-main/safroute-ai-prototype-main/src/components/VideoFeedPanel.tsx:499 | the flattened loop's offsets split into those visited and those still to come |
| VideoDecode.DecodeAnchors | safroute-ai-prototype-main/safroute-ai-prototype-main/src/components/VideoFeedPanel.tsx:447-493 | the rank-3 loop pushes exactly the scan of its anchors, sets the verdict iff it pushed a box, and leaves the largest confidence |
| VideoDecode.DecodeFlattened | safroute-ai-prototype-main/safroute-ai-prototype-main/src/components/VideoFeedPanel.tsx:494-533 | the flattened loop pushes exactly the scan of every step-th offset, with the same verdict and confidence |
| VideoDecode.Candidates | safroute-ai-prototype-main/safroute-ai-prototype-main/src/components/VideoFeedPanel.tsx:414-549 | every branch reports an accident iff it produced a candidate. The confidence is then the largest candidate's, and every candidate is inside the image with a confidence in [0, 1] |
| VideoDecode.ClassificationCandidates | safroute-ai-prototype-main/safroute-ai-prototype-main/src/components/VideoFeedPanel.tsx:414-446 | single score and fallback read value 0, and two classes read value 1. Accident iff the clamped value exceeds 0.5, with the centred box |
| VideoDecode.AnchorCandidates | safroute-ai-prototype-main/safroute-ai-prototype-main/src/components/VideoFeedPanel.tsx:447-533 | the anchor branches report an accident iff some read anchor is accepted, and the confidence is the largest box confidence |
| VideoDecode.FinalDetections | safroute-ai-prototype-main/safroute-ai-prototype-main/src/components/VideoFeedPanel.tsx:551-555 | at most 5 boxes, all above 0.3 and larger than 10 x 10, drawn from the candidates and in descending confidence |
| VideoDecode.FinalDetectionsAreTopFive | safroute-ai-prototype-main/safroute-ai-prototype-main/src/components/VideoFeedPanel.tsx:552-555 | every displayable candidate is kept, unless five are kept and it is no more confident than the fifth. With five or fewer displayable candidates, all are kept |
| VideoDecode.KeptAreCandidates | safroute-ai-prototype-main/safroute-ai-prototype-main/src/components/VideoFeedPanel.tsx:552-555 | what holds of every candidate holds of every kept box |
| VideoDecode.DetectAccident | safroute-ai-prototype-main/safroute-ai-prototype-main/src/components/VideoFeedPanel.tsx:383-555 | the verdict and confidence are the branch's, and the boxes are its top five displayable candidates, each inside the image. A drawn box implies an accident verdict |
| VideoOverlay.ObjectContain | safroute-ai-prototype-main/safroute-ai-prototype-main/src/components/VideoFeedPanel.tsx:142-159 | the displayed image fits inside the container with a positive size and fills its width or its height |
| VideoOverlay.ContainKeepsAspect | safroute-ai-prototype-main/safroute-ai-prototype-main/src/components/VideoFeedPanel.tsx:161-163 | scaleX == scaleY > 0: the aspect ratio is kept |
| VideoOverlay.ContainCentred | safroute-ai-prototype-main/safroute-ai-prototype-main/src/components/VideoFeedPanel.tsx:146-159 | the image is centred with non-negative offsets, and the offset is 0 on the filled axis |
| VideoOverlay.DrawnIffPositive | safroute-ai-prototype-main/safroute-ai-prototype-main/src/components/VideoFeedPanel.tsx:166-174 | a placed box passes the width/height guard iff the detection's own width and height are positive |
| VideoOverlay.PlacedInsideContainer | safroute-ai-prototype-main/safroute-ai-prototype-main/src/components/VideoFeedPanel.tsx:166-171 | a box inside the image is drawn inside the container |
| VideoOverlay.SpanInside | safroute-ai-prototype-main/safroute-ai-prototype-main/src/components/VideoFeedPanel.tsx:166-171 | one axis of the placement stays within the container |
| VideoOverlay.Strokes | safroute-ai-prototype-main/safroute-ai-prototype-main/src/components/VideoFeedPanel.tsx:165-176 | at most one rectangle per detection, and every stroked rectangle passes the guard |
| VideoOverlay.StrokesAppend | safroute-ai-prototype-main/safroute-ai-prototype-main/src/components/VideoFeedPanel.tsx:165-176 | strokes follow detection order: the strokes of a concatenation are the strokes of each part, in turn |
| VideoOverlay.StrokesOne | safroute-ai-prototype-main/safroute-ai-prototype-main/src/components/VideoFeedPanel.tsx:166-174 | one detection is stroked as its placed box exactly when that box passes the guard, so with StrokesAppend the strokes are fixed |
| VideoOverlay.StrokesArePlacements | safroute-ai-prototype-main/safroute-ai-prototype-main/src/components/VideoFeedPanel.tsx:165-176 | every stroke is the placement of some detection |
| VideoOverlay.StrokesInsideContainer | safroute-ai-prototype-main/safroute-ai-prototype-main/src/components/VideoFeedPanel.tsx:165-176 | when every detection lies in the image, every stroke lies in the container |
| VideoOverlay.StrokesInside | safroute-ai-prototype-main/safroute-ai-prototype-main/src/components/VideoFeedPanel.tsx:165-176 | a bound that holds for every placed box holds for every stroke |
| VideoOverlay.StrokesCount | safroute-ai-prototype-main/safroute-ai-prototype-main/src/components/VideoFeedPanel.tsx:165-176 | exactly one rectangle is stroked per detection with positive width and height |
| ProcessVideo.Iou | process_video.py:31-46 | a zero union gives 0 and so does an empty intersection. Otherwise iou * union == intersection |
| ProcessVideo.IouSymmetric | process_video.py:31-46 | iou(a, b) == iou(b, a) |
| ProcessVideo.IouDisjoint | process_video.py:33-38 | boxes separated on either axis, touching included, have iou 0 |
| ProcessVideo.IouSelf | process_video.py:33-46 | a box with positive area has iou 1 with itself |
| ProcessVideo.IouInUnitRange | process_video.py:33-46 | for non-negative sizes iou lies in [0, 1] |
| ProcessVideo.ProductBelow | process_video.py:38-40 | the clamped intersection area is at most a box's area |
| ProcessVideo.ArgMaxFirst | process_video.py:126 | the result is the first index holding the largest score |
| ProcessVideo.PickOf | process_video.py:124-127 | class_id is the first maximal class score, and confidence is that score |
| ProcessVideo.Trunc | process_video.py:137-140 | int() truncates toward zero: the result is no farther from zero and less than 1 away |
| ProcessVideo.ScaleBackWithinOnePixel | process_video.py:115-140 | each scaled-back value is the exact scaled value truncated toward zero |
| ProcessVideo.ToFrame | process_video.py:142-144 | boxes, confidences and class_ids have equal length, entry i of each from detection i |
| ProcessVideo.ToFrameAppend | process_video.py:142-144 | appending a detection appends to each of the three lists |
| ProcessVideo.DecodeFrameAsWritten | process_video.py:108-144 | the decode as indented. The result is one threshold test on the last pick, the previous frame's pick for no predictions, or NameError on a first frame with none |
| ProcessVideo.DecodeFrame | process_video.py:118-144 | the corrected decode: exactly the detections of the accepted predictions, in order |
| ProcessVideo.IntendedAppend | process_video.py:133-144 | one more prediction appends its detection iff its confidence exceeds 0.25 |
| ProcessVideo.IntendedKeepsAccepted | process_video.py:133-144 | a detection is kept iff it comes from a prediction above the threshold, and every kept confidence exceeds 0.25 |
| ProcessVideo.AsWrittenKeepsAtMostOne | process_video.py:133-144 | as written, a frame keeps at most one box, and fails iff it is a first frame with no predictions |
| ProcessVideo.AsWrittenDecodesLastOnly | process_video.py:118-144 | as written, a frame with predictions yields the intended decode of its last prediction only |
| ProcessVideo.AsWrittenDropsEarlierDetections | process_video.py:118-144 | two identical predictions at 0.9: as written 1 box, intended 2 |
| AccidentAlerts.SafeParseAlerts | safroute-ai-prototype-main/safroute-ai-prototype-main/src/lib/accidentAlerts.ts:41-50 | null or empty text, a throwing parse and a non-array give []. An array is returned as the list, and a non-empty result always comes from an array |
| AccidentAlerts.MarkedNotNew | safroute-ai-prototype-main/safroute-ai-prototype-main/src/lib/accidentAlerts.ts:98 | the map keeps the length |
| AccidentAlerts.MarkedNotNewFields | safroute-ai-prototype-main/safroute-ai-prototype-main/src/lib/accidentAlerts.ts:98 | order and all fields but isNew are kept, and isNew is cleared exactly on the alerts with the id |
| AccidentAlerts.MarkUnknownIdUnchanged | safroute-ai-prototype-main/safroute-ai-prototype-main/src/lib/accidentAlerts.ts:98 | an id no alert has leaves the list equal |
| AccidentAlerts.MarkIdempotent | safroute-ai-prototype-main/safroute-ai-prototype-main/src/lib/accidentAlerts.ts:98 | marking twice equals marking once |
| AccidentAlerts.MarkedNotNewCons | safroute-ai-prototype-main/safroute-ai-prototype-main/src/lib/accidentAlerts.ts:98 | marking a list with a published alert in front marks that alert and the rest independently |
| AccidentAlerts.AlertStore.constructor | safroute-ai-prototype-main/safroute-ai-prototype-main/src/lib/accidentAlerts.ts:52-55 | the store starts with the persisted list |
| AccidentAlerts.AlertStore.Publish | safroute-ai-prototype-main/safroute-ai-prototype-main/src/lib/accidentAlerts.ts:89-94 | the new list is [alert] followed by the old list: length +1, alert at index 0, old alerts unchanged and in order |
| AccidentAlerts.AlertStore.MarkNotNew | safroute-ai-prototype-main/safroute-ai-prototype-main/src/lib/accidentAlerts.ts:96-101 | the new list is the old list with isNew cleared on the matching ids |
| PoliceDashboard.Rows | safroute-ai-prototype-main/safroute-ai-prototype-main/src/pages/PoliceDashboard.tsx:52-69 | one row per alert in order, copying id, severity, traffic and investigation status and isNew |
| PoliceDashboard.SeverityRank | safroute-ai-prototype-main/safroute-ai-prototype-main/src/pages/PoliceDashboard.tsx:75 | ranks lie in 1..4, and only Critical has 4 |
| PoliceDashboard.SeverityRankOrdered | safroute-ai-prototype-main/safroute-ai-prototype-main/src/pages/PoliceDashboard.tsx:75 | Low < Medium < High < Critical |
| PoliceDashboard.SortedAccidents | safroute-ai-prototype-main/safroute-ai-prototype-main/src/pages/PoliceDashboard.tsx:73-78 | the sorted copy is a permutation of the rows |
| PoliceDashboard.SortedAccidentsSpec | safroute-ai-prototype-main/safroute-ai-prototype-main/src/pages/PoliceDashboard.tsx:73-77 | the sorted copy is a permutation, in non-increasing severity, and equal severities keep their original order |
| PoliceDashboard.SortedAccidentsUnique | safroute-ai-prototype-main/safroute-ai-prototype-main/src/pages/PoliceDashboard.tsx:73-77 | any permutation with those three properties is the sorted copy |
| PoliceDashboard.Statistics | safroute-ai-prototype-main/safroute-ai-prototype-main/src/pages/PoliceDashboard.tsx:97-107 | the total is the length, and blocked + cleared never exceed it. The blocked, cleared and under-investigation counts are each zero iff no row has that status |
| PoliceDashboard.StatisticsCons | safroute-ai-prototype-main/safroute-ai-prototype-main/src/pages/PoliceDashboard.tsx:97-107 | each card counts exact matches: a row in front adds 1 to the total and 1 to each count whose status it has, and nothing else |
| PoliceDashboard.StatisticsAppend | safroute-ai-prototype-main/safroute-ai-prototype-main/src/pages/PoliceDashboard.tsx:97-107 | every card over a concatenation is the sum of the cards over the parts |
| PoliceDashboard.SeverityColorDistinct | safroute-ai-prototype-main/safroute-ai-prototype-main/src/pages/PoliceDashboard.tsx:19-32 | the four severities get four distinct classes |
| PoliceDashboard.TrafficStatusColorDistinct | safroute-ai-prototype-main/safroute-ai-prototype-main/src/pages/PoliceDashboard.tsx:34-45 | the three traffic statuses get distinct classes. Blocked shares Critical's and Cleared shares Low's |
| PoliceDashboard.HandleStatusChange | safroute-ai-prototype-main/safroute-ai-prototype-main/src/pages/PoliceDashboard.tsx:80-87 | it only returns the toast naming the new status, and the store is unchanged |
| PoliceDashboard.HandleRoadCleared | safroute-ai-prototype-main/safroute-ai-prototype-main/src/pages/PoliceDashboard.tsx:89-95 | it only returns the road-cleared toast, and the store is unchanged |
| HospitalDashboard.Digits | safroute-ai-prototype-main/safroute-ai-prototype-main/src/pages/HospitalDashboard.tsx:34 | the result holds only digits, is no longer than the input, and an all-digit string is kept |
| HospitalDashboard.DigitsAppend | safroute-ai-prototype-main/safroute-ai-prototype-main/src/pages/HospitalDashboard.tsx:34 | removing non-digits works piecewise: the digits of s + t are the digits of s followed by those of t |
| HospitalDashboard.DigitsOne | safroute-ai-prototype-main/safroute-ai-prototype-main/src/pages/HospitalDashboard.tsx:34 | one character is kept exactly when it is a digit, so with DigitsAppend the result is the digits of the input in order |
| HospitalDashboard.LastSix | safroute-ai-prototype-main/safroute-ai-prototype-main/src/pages/HospitalDashboard.tsx:34 | the result is the last min(6, length) characters |
| HospitalDashboard.DecimalValue | safroute-ai-prototype-main/safroute-ai-prototype-main/src/pages/HospitalDashboard.tsx:34 | a string of k digits is a number below 10^k. It is 0 iff every digit is '0', and its last decimal digit is the last character |
| HospitalDashboard.NumericId | safroute-ai-prototype-main/safroute-ai-prototype-main/src/pages/HospitalDashboard.tsx:34 | the id is the number formed by the last six digits, which lies in 1..999999. It falls back to the random id (None) exactly when those digits are all '0' or there are none |
| HospitalDashboard.NoDigitsNoId | safroute-ai-prototype-main/safroute-ai-prototype-main/src/pages/HospitalDashboard.tsx:34 | an alert id without digits always takes the random fallback |
| HospitalDashboard.Rows | safroute-ai-prototype-main/safroute-ai-prototype-main/src/pages/HospitalDashboard.tsx:32-48 | one row per alert in order: status is hospitalStatus, new is isNew, and severity and injured are copied |
| HospitalDashboard.RowsCons | safroute-ai-prototype-main/safroute-ai-prototype-main/src/pages/HospitalDashboard.tsx:32-48 | the rows of a list with an alert in front are that alert's row followed by the rest's |
| HospitalDashboard.TotalInjured | safroute-ai-prototype-main/safroute-ai-prototype-main/src/pages/HospitalDashboard.tsx:68 | the sum is 0 for no rows and non-negative when every injured count is |
| HospitalDashboard.TotalInjuredCons | safroute-ai-prototype-main/safroute-ai-prototype-main/src/pages/HospitalDashboard.tsx:68 | the left-to-right reduce equals the first row's injured plus the rest's sum |
| HospitalDashboard.Statistics | safroute-ai-prototype-main/safroute-ai-prototype-main/src/pages/HospitalDashboard.tsx:62-68 | the total is the length. The new, critical and pending counts never exceed it, and each is zero iff no row matches |
| HospitalDashboard.PublishUpdatesStatistics | safroute-ai-prototype-main/safroute-ai-prototype-main/src/pages/HospitalDashboard.tsx:62-68 | publishing adds 1 to the total and its injured to the sum. It adds 1 to the new, critical and pending counts iff the alert is new, critical or pending |
| HospitalDashboard.MarkLowersNewCount | safroute-ai-prototype-main/safroute-ai-prototype-main/src/pages/HospitalDashboard.tsx:62 | marking an id lowers the badge count by exactly the number of new alerts carrying it |
| HospitalDashboard.StatusColor | safroute-ai-prototype-main/safroute-ai-prototype-main/src/pages/HospitalDashboard.tsx:22-26 | green iff the ambulance is dispatched, and yellow otherwise |
| HospitalDashboard.NewAlertBadge | safroute-ai-prototype-main/safroute-ai-prototype-main/src/pages/HospitalDashboard.tsx:83-90 | the badge is shown iff the count is positive, and the noun is plural iff the count exceeds 1 |
| ArrayOps.Filter | safroute-ai-prototype-main/safroute-ai-prototype-main/src/components/VideoFeedPanel.tsx:553 | the kept elements all pass, every passing element is kept, and nothing is added |
| ArrayOps.FilterAppend | safroute-ai-prototype-main/safroute-ai-prototype-main/src/components/VideoFeedPanel.tsx:553 | filter works piecewise and keeps order: filtering a + b gives filter(a) followed by filter(b) |
| ArrayOps.FilterCons | safroute-ai-prototype-main/safroute-ai-prototype-main/src/components/VideoFeedPanel.tsx:553 | a first element is kept in front exactly when it passes |
| ArrayOps.FilterMultiplicity | safroute-ai-prototype-main/safroute-ai-prototype-main/src/components/VideoFeedPanel.tsx:553 | a passing element is kept exactly as often as it occurs, and a failing one never |
| ArrayOps.Count | safroute-ai-prototype-main/safroute-ai-prototype-main/src/pages/PoliceDashboard.tsx:99-107 | filter(...).length is at most the length, and 0 iff nothing passes |
| ArrayOps.CountAppend | safroute-ai-prototype-main/safroute-ai-prototype-main/src/pages/PoliceDashboard.tsx:99-107 | the count over a concatenation is the sum of the counts over the parts |
| ArrayOps.CountCons | safroute-ai-prototype-main/safroute-ai-prototype-main/src/pages/PoliceDashboard.tsx:99-107 | a first element adds 1 to the count exactly when it passes |
| ArrayOps.CountDisjoint | safroute-ai-prototype-main/safroute-ai-prototype-main/src/pages/PoliceDashboard.tsx:99-107 | two exclusive tests count at most the whole list together |
| ArrayOps.Take | safroute-ai-prototype-main/safroute-ai-prototype-main/src/components/VideoFeedPanel.tsx:555 | slice(0, n) is a prefix of length min(n, length) |
| ArrayOps.TakeKeepsLargest | safroute-ai-prototype-main/safroute-ai-prototype-main/src/components/VideoFeedPanel.tsx:554-555 | a prefix of a descending list keeps every element larger than its last |
| ArrayOps.SortDesc | safroute-ai-prototype-main/safroute-ai-prototype-main/src/components/VideoFeedPanel.tsx:554 | sort returns a permutation |
| ArrayOps.SortDescSorted | safroute-ai-prototype-main/safroute-ai-prototype-main/src/components/VideoFeedPanel.tsx:554 | the result is in non-increasing key order |
| ArrayOps.SortDescStable | safroute-ai-prototype-main/safroute-ai-prototype-main/src/pages/PoliceDashboard.tsx:74-76 | elements with equal keys keep their relative order |
| ArrayOps.StableSortIsUnique | safroute-ai-prototype-main/safroute-ai-prototype-main/src/pages/PoliceDashboard.tsx:74-76 | a descending, tie-preserving permutation is unique, so any stable engine sort gives this result |

## Findings

| source | as written | input that shows it | evidently intended | confidence | as-written member | corrected member |
|---|---|---|---|---|---|---|
| process_video.py:133 | the threshold test and the three appends are indented at the level of the `for` loop, so they run once after the loop on the last prediction's values. With no predictions they use the previous frame's values, or raise NameError on the first frame | one frame with two predictions `[100, 100, 20, 20, 0.9]`: as written 1 box is kept, not 2 | test and append inside the loop, once per prediction | not executed | ProcessVideo.DecodeFrameAsWritten, ProcessVideo.AsWrittenDropsEarlierDetections | ProcessVideo.DecodeFrame, ProcessVideo.IntendedKeepsAccepted |

## Left out

- The inference engine is not modelled. This covers model loading, the backend fallback and `session.run` in both the browser panel and the script. The output `dims` and `data`, and the per-frame predictions, are inputs.
- The canvas, image decoding and drawing are not modelled. `preprocessImage` receives the RGBA bytes that `getImageData` would return, already stretched to the model size. The overlay keeps only the fit and placement arithmetic: not the device pixel ratio, the inner border, the fill or the label text.
- The result message `Accident Detected (xx.x%)` is not modelled, because it is number formatting. The rank-3 class value (`Math.round` of value 5) is not modelled either, because it is read but never used.
- Float32 rounding and IEEE-754 are not modelled. A missing score (a read past the end of the output) makes the clamp yield NaN, which fails the `> 0.5` test. `VideoDecode.Classify` gives "no accident", with confidence 0, in its place. A NaN confidence is never shown.
- VideoDecode.DetectAccident: requires a positive image width and height, as for a loaded image. `Classify`, `CentreBox` and `AnchorAt` require the same. A zero side would make `normalizeCoord` divide by zero (Infinity/NaN), which is not modelled.
- VideoOverlay.ObjectContain: requires a positive natural size and a positive container size. A zero-sized container would divide by zero (Infinity/NaN).
- ProcessVideo.DecodeFrameAsWritten: requires a positive model input size (`ValidGeometry`). A zero side would raise ZeroDivisionError, which is not modelled.
- OpenCV is not modelled: capture, writing, resizing, colour conversion and display. Neither is `cv2.dnn.NMSBoxes`, since no suppression algorithm appears in the script. The Python `preprocess` is also library calls only. The frame loop of `main` is reduced to one frame, with the loop variables carried in from the previous frame.
- Prediction rows without class scores (the `else` branch at process_video.py:128-131) are excluded: every row has at least five values. For a shorter row, `pred[4]` would raise before that branch could be useful.
- `getAccidentAlerts` (accidentAlerts.ts:65-67) is a read of the store's `alerts` field and has no member of its own.
- The stored text is not modelled: local storage, `JSON.stringify`, the update event emitter and the cross-tab listeners. `JSON.parse` is an abstract outcome, and its unchecked cast to alerts is taken at face value: an array is an array of alerts.
- HospitalDashboard's sort is not modelled. Its tie-break `b.new ? 1 : -1` is not a consistent comparator, so the resulting order is implementation-defined. The `Math.random()` id fallback is `None`. The locale time and date strings are not modelled in either dashboard.
- HospitalDashboard's `getSeverityColor` has the same text as the police dashboard's and is modelled once, as `PoliceDashboard.SeverityColor`.
- HospitalDashboard.TotalInjured: `injured` is an integer here. A fractional JavaScript number is not modelled.
