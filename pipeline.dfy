/**
 * The per-region loop of `process_image`: pad and clip each detected box,
 * recognize its text, parse it, and collect one entry per recognized region
 * in the order the detector returned the boxes.
 */
module Pipeline {
  import opened Wrappers
  import opened Tables
  import opened Sequences
  import opened Correction
  import opened Selection
  import opened Parsing

  /** A detected plate region `(x, y, w, h)` as the cascade detector returns it. */
  datatype Box = Box(x: int, y: int, w: int, h: int)

  /** The corners `(x1, y1)`, `(x2, y2)` of the region handed to the OCR engine. */
  datatype Roi = Roi(x1: int, y1: int, x2: int, y2: int)

  /** One entry of the result list: `{"plate": text, **details}`. */
  datatype DetectedPlate = DetectedPlate(plate: string, details: PlateDetails)

  /** Pixels added on each side of a detected box. */
  const Pad: int := 2

  function Max(a: int, b: int): int { if a >= b then a else b }

  function Min(a: int, b: int): int { if a <= b then a else b }

  /** The box lies within an image of the given width and height. */
  predicate InsideImage(b: Box, width: int, height: int) {
    0 <= b.x && 0 <= b.y && 0 <= b.w && 0 <= b.h && b.x + b.w <= width && b.y + b.h <= height
  }

  /**
   * The box widened by `Pad` on every side, cut back to the image: each corner
   * moves out by the full pad unless that would cross the image's edge, in
   * which case it stops at the edge.
   */
  function PaddedRoi(b: Box, width: int, height: int): (r: Roi)
    ensures 0 <= r.x1 && 0 <= r.y1 && r.x2 <= width && r.y2 <= height
    ensures b.x - Pad <= r.x1 && b.y - Pad <= r.y1
    ensures r.x2 <= b.x + b.w + Pad && r.y2 <= b.y + b.h + Pad
    ensures (r.x1 == b.x - Pad || r.x1 == 0) && (r.y1 == b.y - Pad || r.y1 == 0)
    ensures (r.x2 == b.x + b.w + Pad || r.x2 == width) && (r.y2 == b.y + b.h + Pad || r.y2 == height)
    ensures InsideImage(b, width, height) ==>
      && 0 <= r.x1 <= b.x && b.x + b.w <= r.x2 <= width
      && 0 <= r.y1 <= b.y && b.y + b.h <= r.y2 <= height
  {
    Roi(Max(b.x - Pad, 0), Max(b.y - Pad, 0), Min(b.x + b.w + Pad, width), Min(b.y + b.h + Pad, height))
  }

  /**
   * What one region contributes: nothing when no text is recognized (Python's
   * `if plate_text:` also rejects an empty string), otherwise its entry.
   */
  function RegionResult(b: Box, width: int, height: int, ocr: Roi -> seq<OcrReading>): Option<DetectedPlate> {
    var plateText := Recognize(ocr(PaddedRoi(b, width, height)));
    if plateText.Some? && plateText.value != "" then
      Some(DetectedPlate(plateText.value, ParsePlateDetails(plateText.value)))
    else
      None
  }

  /** The list `process_image` returns for the detector's boxes. */
  function Processed(plates: seq<Box>, width: int, height: int, ocr: Roi -> seq<OcrReading>): (r: seq<DetectedPlate>)
    ensures |r| <= |plates|
    ensures plates == [] ==> r == []
  {
    FilterMap(plates, b => RegionResult(b, width, height, ocr))
  }

  /** One more region appends its contribution, if any, to the list built so far. */
  lemma ProcessedStep(plates: seq<Box>, i: nat, width: int, height: int, ocr: Roi -> seq<OcrReading>)
    requires i < |plates|
    ensures Processed(plates[..i + 1], width, height, ocr) ==
      Processed(plates[..i], width, height, ocr) +
      match RegionResult(plates[i], width, height, ocr) case Some(e) => [e] case None => []
  {
    assert plates[..i + 1][..i] == plates[..i];
  }

  /** The entry recorded for a region whose recognized text is `text`. */
  ghost predicate EntryFor(e: DetectedPlate, text: Option<string>) {
    text == Some(e.plate) && e.details == ParsePlateDetails(e.plate)
  }

  /**
   * Exactly one entry per region with recognized text, in detector order:
   * `idx` lists, increasing, the regions the entries come from, and every
   * region whose text is recognized is among them.
   */
  lemma ProcessedInDetectorOrder(plates: seq<Box>, width: int, height: int, ocr: Roi -> seq<OcrReading>)
    ensures var r := Processed(plates, width, height, ocr);
      var idx := Origins(plates, b => RegionResult(b, width, height, ocr));
      && |idx| == |r|
      && StrictlyIncreasing(idx)
      && (forall k :: 0 <= k < |r| ==>
            idx[k] < |plates| && EntryFor(r[k], Recognize(ocr(PaddedRoi(plates[idx[k]], width, height)))))
      && (forall j :: 0 <= j < |plates| && Recognize(ocr(PaddedRoi(plates[j], width, height))).Some? ==> j in idx)
  {
    var f := b => RegionResult(b, width, height, ocr);
    var r := Processed(plates, width, height, ocr);
    var idx := Origins(plates, f);
    forall k | 0 <= k < |r|
      ensures EntryFor(r[k], Recognize(ocr(PaddedRoi(plates[idx[k]], width, height))))
    {
      assert f(plates[idx[k]]) == Some(r[k]);
    }
    forall j | 0 <= j < |plates| && Recognize(ocr(PaddedRoi(plates[j], width, height))).Some?
      ensures j in idx
    {
      assert f(plates[j]).Some?;
    }
  }

  /**
   * For OCR readings fixed per region, splitting the detections splits the
   * result. (In the program, a region's drawn rectangle and label can reach the
   * pixels a later overlapping region is read from; `ocr` does not see them.)
   */
  lemma ProcessedAppend(p: seq<Box>, q: seq<Box>, width: int, height: int, ocr: Roi -> seq<OcrReading>)
    ensures Processed(p + q, width, height, ocr) == Processed(p, width, height, ocr) + Processed(q, width, height, ocr)
  {
    FilterMapAppend(p, q, b => RegionResult(b, width, height, ocr));
  }

  /**
   * The correction rewrites every letter of the confusion table, so a state
   * whose code holds one of them (BR, NL, OD, SK, TN, ...) is never reported:
   * every recognized text is the correction of its candidate.
   */
  lemma ConfusableStateNeverReported(candidate: string, code: string)
    requires code in StateCodes && HasConfusable(code)
    ensures ParsePlateDetails(Contextual(candidate)).state != Some(StateCodes[code])
  {
    var text := Contextual(candidate);
    if |text| >= MinParseLength {
      var prefix := text[..2];
      assert !HasConfusable(prefix);
      StateNamesDistinct(code, code);
      if prefix in StateCodes {
        StateNamesDistinct(prefix, code);
      }
    }
  }

  /** No entry of the result list names a state whose code holds a table letter. */
  lemma NoEntryReportsConfusableState(plates: seq<Box>, width: int, height: int, ocr: Roi -> seq<OcrReading>, code: string)
    requires code in StateCodes && HasConfusable(code)
    ensures forall e :: e in Processed(plates, width, height, ocr) ==> e.details.state != Some(StateCodes[code])
  {
    var r := Processed(plates, width, height, ocr);
    var idx := Origins(plates, b => RegionResult(b, width, height, ocr));
    ProcessedInDetectorOrder(plates, width, height, ocr);
    forall k | 0 <= k < |r|
      ensures r[k].details.state != Some(StateCodes[code])
    {
      var results := ocr(PaddedRoi(plates[idx[k]], width, height));
      assert Recognize(results) == Some(r[k].plate);
      var cs := Candidates(results);
      ConfusableStateNeverReported(cs[FirstLongest(cs)], code);
    }
  }

  /** `process_image` with the detector's boxes, the image size and the OCR engine as inputs. */
  method ProcessImage(plates: seq<Box>, width: int, height: int, ocr: Roi -> seq<OcrReading>)
    returns (detectedPlates: seq<DetectedPlate>)
    ensures detectedPlates == Processed(plates, width, height, ocr)
  {
    if |plates| == 0 {
      return [];
    }
    detectedPlates := [];
    for i := 0 to |plates|
      invariant detectedPlates == Processed(plates[..i], width, height, ocr)
    {
      var b := plates[i];
      var x1, y1 := Max(b.x - Pad, 0), Max(b.y - Pad, 0);
      var x2, y2 := Min(b.x + b.w + Pad, width), Min(b.y + b.h + Pad, height);
      assert Roi(x1, y1, x2, y2) == PaddedRoi(b, width, height);
      var plateText := RecognizePlate(ocr(Roi(x1, y1, x2, y2)));
      ProcessedStep(plates, i, width, height, ocr);
      if plateText.Some? && plateText.value != "" {
        var details := ParsePlateDetails(plateText.value);
        detectedPlates := detectedPlates + [DetectedPlate(plateText.value, details)];
      }
    }
    assert plates[..|plates|] == plates;
  }
}
