# Indian licence-plate recognizer: the text pipeline

This project models the text half of `LicensePlateRecognizer` in
`license_plate_recognizer.py`, the part that runs after a plate region has been
found. The cascade detector and the OCR engine are inputs. For each detected box
`(x, y, w, h)`:

1. The box is padded by 2 pixels and clipped to the image (`Pipeline.PaddedRoi`).
2. The OCR readings of that region are cleaned. Each text is upper-cased and only
   `[A-Z0-9]` is kept. Texts shorter than 4 characters are dropped, and the first
   of the longest survivors is chosen (`Selection`).
3. The chosen text is corrected character by character (`Correction`). The
   confusion table maps N→M, Z→2, O→0, I→1, S→5 and B→8 everywhere. In the first
   four positions a literal `'0'` also becomes `'D'`.
4. A corrected text of at least 10 characters is split into state, RTO code,
   series and number. The state code is resolved through the 35-entry state table
   and falls back to the raw code (`Parsing`).
5. One entry `{"plate": text, **details}` is collected per recognized region, in
   the order the detector returned the boxes (`Pipeline`).

The loops of the source (`correct_plate_contextual`, the candidate loop of
`recognize_plate`, the region loop of `process_image`) are methods with loop
invariants. Each is proved equal to a function, and the properties are proved
about those functions.

Consequences the proofs make explicit:

- The correction is not idempotent. A second pass turns every leading `'0'` into
  `'D'` (`Correction.ContextualTwice`). For example, `"O0BZ1AB5Z34"` gives
  `"0D821A85234"`, and correcting that again gives `"DD821A85234"`.
- The correction rewrites every letter of its table, so no recognized plate can
  report a state whose code contains N, Z, O, I, S or B. That rules out AS, BR,
  MN, MZ, NL, OD, PB, SK, TN, TS, WB, AN and DN
  (`Pipeline.ConfusableStateNeverReported` for any corrected text, and
  `Pipeline.NoEntryReportsConfusableState` for every entry of the result list).

Files: `wrappers.dfy` (Option), `tables.dfy` (the two tables),
`sequences.dfy` (the conditional-append pattern shared by two loops),
`correction.dfy`, `selection.dfy`, `parsing.dfy` and `pipeline.dfy`.

## Model

| member | source | states |
|---|---|---|
| Tables.StateNamesDistinct | license_plate_recognizer.py:8-44 | No two state codes share a name, and every name is longer than a two-letter code. |
| Correction.UpperChar | license_plate_recognizer.py:77 | ASCII upper-casing: the result is never a lower-case letter, lower-case letters move to their capitals, and all other characters are unchanged. |
| Correction.CorrectChar | license_plate_recognizer.py:65-85 | The result is never one of N, Z, O, I, S or B. A character changes exactly when it is a table key, or a `'0'` at an index below 4. `[A-Z0-9]` stays within `[A-Z0-9]`. |
| Correction.LeadingExtendsTrailing | license_plate_recognizer.py:78-85 | A character is corrected the same way at a leading and at a trailing index exactly when it is not `'0'`. A `'0'` becomes `'D'` in front and stays `'0'` behind. |
| Correction.Contextual | license_plate_recognizer.py:74-87 | The output has the input's length. Output character i depends only on i and input character i. No N, Z, O, I, S or B remains, and `[A-Z0-9]` input stays `[A-Z0-9]`. |
| Correction.ContextualKeepsCleanText | license_plate_recognizer.py:77-86 | A `[A-Z0-9]` text with no table letter and no leading `'0'` comes back unchanged. |
| Correction.ContextualTwice | license_plate_recognizer.py:78-86 | A second pass changes only the leading `'0'`s of the first pass's output, which become `'D'`. |
| Correction.CorrectionExample | license_plate_recognizer.py:74-87 | `"O0BZ1AB5Z34"` gives `"0D821A85234"`, and a second pass gives `"DD821A85234"`. |
| Correction.CorrectPlateContextual | license_plate_recognizer.py:74-87 | The accumulator loop returns exactly `Contextual(text)`. |
| Selection.KeepPlateChars | license_plate_recognizer.py:113 | The result is at most as long as the input, holds only `[A-Z0-9]`, and holds every `[A-Z0-9]` character of the input. An all-`[A-Z0-9]` input comes back unchanged. Order and multiplicity are stated by `KeepPlateCharsInOrder`. |
| Selection.KeepPlateCharsInOrder | license_plate_recognizer.py:113 | The result is the filter of the input's characters by `[A-Z0-9]`. Its characters are those at a strictly increasing list of input positions, and that list holds every `[A-Z0-9]` position, so order and repeats are kept. |
| Selection.CandidatesWellFormed | license_plate_recognizer.py:111-115 | Every candidate is `[A-Z0-9]` only and at least 4 long. There are no candidates exactly when no reading survives the filter. |
| Selection.FirstLongest | license_plate_recognizer.py:118 | Returns a valid index whose candidate is at least as long as every other, with every earlier candidate strictly shorter. |
| Selection.Recognize | license_plate_recognizer.py:111-121 | Built from `Clean` (line 113) and `Candidates` (lines 111-115). The result is `None` exactly when no reading survives. Otherwise the text is at least 4 long, `[A-Z0-9]` only, and holds none of N, Z, O, I, S, B. |
| Selection.RecognizeSelectsFirstLongest | license_plate_recognizer.py:111-121 | The text is the correction of the first surviving reading whose cleaned text is as long as any survivor. |
| Selection.LongestCandidateOrigin | license_plate_recognizer.py:111-118 | The candidate `max` picks is the cleaned text of the first longest surviving reading. |
| Selection.RecognizePlate | license_plate_recognizer.py:111-121 | The candidate loop, selection and correction return exactly `Recognize(results)`. |
| Parsing.ParsePlateDetails | license_plate_recognizer.py:123-146 | All four fields are `None` exactly when the text is shorter than 10. Otherwise all are set, code+rto+series+number rebuilds the text, rto and series are 2 long, and the number has length len-6 ≥ 4. The state is the table name of the code when the code is a key, and the raw code when it is not. |
| Parsing.ParseExamples | license_plate_recognizer.py:123-146 | `"MH12AB1234"` gives Maharashtra/12/AB/1234. `"XY98ZZ0001"` gives XY/98/ZZ/0001. |
| Pipeline.PaddedRoi | license_plate_recognizer.py:158-160 | The region's left and top edges are at least 0, and its right and bottom edges at most the image's width and height. Each edge moves out by the full pad of 2, or stops at the image border. A box inside the image is contained in its region. |
| Pipeline.Processed | license_plate_recognizer.py:150-169 | Each region contributes through `RegionResult`: its entry when the recognized text passes `if plate_text:`, otherwise nothing. There are at most as many entries as boxes, and no entries when there are no boxes. |
| Pipeline.ProcessedInDetectorOrder | license_plate_recognizer.py:155-169 | There is one entry per region whose text is recognized, taken from strictly increasing region indices. Each entry holds that region's text and the parse of that text. |
| Pipeline.ProcessedAppend | license_plate_recognizer.py:157-169 | For OCR readings fixed per region, the result for two lists of boxes is the concatenation of their results. |
| Pipeline.ConfusableStateNeverReported | license_plate_recognizer.py:77-86 | For any corrected text, the state found by the lookup at line 141 is never the name of a code that contains N, Z, O, I, S or B. |
| Pipeline.NoEntryReportsConfusableState | license_plate_recognizer.py:166-169 | No entry of the result list has as its state the name of a code that contains N, Z, O, I, S or B. |
| Pipeline.ProcessImage | license_plate_recognizer.py:148-169 | The early return and the region loop return exactly `Processed(plates, width, height, ocr)`. |

## Left out

- Image loading and its `FileNotFoundError`, cascade loading and its `IOError`, and the construction of the OCR reader. These are file I/O and library setup.
- `preprocess_plate` (grey-scale, bilateral filter, histogram equalisation). It is image numerics done by OpenCV.
- `detect_plates`. The detector's boxes are the `plates` parameter of `ProcessImage`, together with the image's `width` (`img.shape[1]`) and `height` (`img.shape[0]`).
- `reader.readtext`. It is the `ocr` parameter, a function from the clipped region to its readings. Its pixels, and the bounding box in each returned triple (never read), are not modelled.
- Drawing rectangles and labels on the image, the `display` window and all printing. These are rendering and console output.
- In-place annotation of `self.img`. The rectangle (line 164) and the `putText` label (lines 172-180) drawn for one region can leak into the pixels the OCR sees for a later overlapping region, since each `plate_roi` is a view of the same image. The model's `ocr` depends on the region only, so it does not capture this aliasing.
- Unicode behaviour of `str.upper()`. Non-ASCII characters can map to ASCII letters or change length (for example `'ß'` gives `'SS'`). `UpperChar` handles ASCII only and leaves every other character as it is.
- NumPy slicing of an empty or inverted region (a box outside the image). The region's corners are passed to `ocr` as computed.
- The `__main__` block.
