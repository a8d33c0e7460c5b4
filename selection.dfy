/**
 * From the OCR engine's readings of one region to at most one plate text
 * (`recognize_plate` after its preprocessing and OCR call).
 */
module Selection {
  import opened Wrappers
  import opened Tables
  import opened Sequences
  import opened Correction

  /**
   * One `(bbox, text, prob)` triple returned by the OCR engine. The bounding
   * box is never read by the recognizer and is not kept; the confidence is
   * carried but never consulted.
   */
  datatype OcrReading = OcrReading(text: string, confidence: real)

  /** Cleaned texts shorter than this are discarded. */
  const MinCandidateLength: nat := 4

  /** The match `re.findall(r'[A-Z0-9]', ...)` yields for one character, if any. */
  function PlateCharOf(c: char): Option<char> {
    if IsPlateChar(c) then Some(c) else None
  }

  /**
   * `''.join(re.findall(r'[A-Z0-9]', s))`: the `[A-Z0-9]` characters of `s`, in
   * order, each as often as it occurs (a filter over the characters of `s`).
   */
  function KeepPlateChars(s: string): (r: string)
    ensures |r| <= |s|
    ensures forall i :: 0 <= i < |r| ==> IsPlateChar(r[i])
    ensures forall c :: c in r <==> c in s && IsPlateChar(c)
    ensures (forall i :: 0 <= i < |s| ==> IsPlateChar(s[i])) ==> r == s
  {
    if s == [] then []
    else
      var n := |s| - 1;
      var rest := KeepPlateChars(s[..n]);
      assert s == s[..n] + [s[n]];
      if IsPlateChar(s[n]) then rest + [s[n]] else rest
  }

  /**
   * The kept characters are exactly the `[A-Z0-9]` positions of `s`, in order:
   * `idx` lists them increasing, and `r[k]` is the character at `idx[k]`.
   */
  lemma {:induction false} KeepPlateCharsInOrder(s: string)
    ensures KeepPlateChars(s) == FilterMap(s, PlateCharOf)
    ensures var r := KeepPlateChars(s);
      var idx := Origins(s, PlateCharOf);
      && |idx| == |r|
      && StrictlyIncreasing(idx)
      && (forall k :: 0 <= k < |r| ==> idx[k] < |s| && r[k] == s[idx[k]])
      && (forall j :: 0 <= j < |s| && IsPlateChar(s[j]) ==> j in idx)
  {
    if s != [] {
      KeepPlateCharsInOrder(s[..|s| - 1]);
    }
    var r := KeepPlateChars(s);
    var idx := Origins(s, PlateCharOf);
    forall k | 0 <= k < |r|
      ensures r[k] == s[idx[k]]
    {
      assert PlateCharOf(s[idx[k]]) == Some(r[k]);
    }
    forall j | 0 <= j < |s| && IsPlateChar(s[j])
      ensures j in idx
    {
      assert PlateCharOf(s[j]).Some?;
    }
  }

  /** The cleaned text of one OCR reading: upper-cased, then only `[A-Z0-9]` kept. */
  function Clean(text: string): string {
    KeepPlateChars(Upper(text))
  }

  /** A reading whose cleaned text is long enough to be a candidate. */
  predicate Survives(reading: OcrReading) {
    |Clean(reading.text)| >= MinCandidateLength
  }

  /** The candidate one reading contributes, if any. */
  function Candidate(reading: OcrReading): Option<string> {
    if Survives(reading) then Some(Clean(reading.text)) else None
  }

  /** The `candidates` list the loop of `recognize_plate` builds. */
  function Candidates(results: seq<OcrReading>): seq<string> {
    FilterMap(results, Candidate)
  }

  /** Every candidate is `[A-Z0-9]` only and at least four characters long. */
  lemma CandidatesWellFormed(results: seq<OcrReading>)
    ensures forall k :: 0 <= k < |Candidates(results)| ==>
      |Candidates(results)[k]| >= MinCandidateLength &&
      forall i :: 0 <= i < |Candidates(results)[k]| ==> IsPlateChar(Candidates(results)[k][i])
    ensures Candidates(results) == [] <==> forall j :: 0 <= j < |results| ==> !Survives(results[j])
  {
    var idx := Origins(results, Candidate);
    if Candidates(results) != [] {
      assert Candidate(results[idx[0]]).Some?;
    }
  }

  /**
   * `max(candidates, key=len)`: the index of the first candidate of greatest
   * length (Python keeps the current maximum unless a later one is strictly longer).
   */
  function FirstLongest(cs: seq<string>): (k: nat)
    requires cs != []
    ensures k < |cs|
    ensures forall j :: 0 <= j < |cs| ==> |cs[j]| <= |cs[k]|
    ensures forall j :: 0 <= j < k ==> |cs[j]| < |cs[k]|
  {
    if |cs| == 1 then 0
    else
      var k := FirstLongest(cs[..|cs| - 1]);
      if |cs[|cs| - 1]| > |cs[k]| then |cs| - 1 else k
  }

  /** What `recognize_plate` returns for the OCR engine's readings of a region. */
  function Recognize(results: seq<OcrReading>): (plate: Option<string>)
    ensures plate.None? <==> forall j :: 0 <= j < |results| ==> !Survives(results[j])
    ensures plate.Some? ==>
      |plate.value| >= MinCandidateLength &&
      forall i :: 0 <= i < |plate.value| ==> IsPlateChar(plate.value[i]) && !IsConfusable(plate.value[i])
  {
    CandidatesWellFormed(results);
    var cs := Candidates(results);
    if cs != [] then Some(Contextual(cs[FirstLongest(cs)])) else None
  }

  /**
   * Reading `i` survives the filter, no surviving reading is longer once
   * cleaned, and every surviving reading before it is strictly shorter.
   */
  ghost predicate IsFirstLongestSurvivor(results: seq<OcrReading>, i: int) {
    && 0 <= i < |results|
    && Survives(results[i])
    && (forall j :: 0 <= j < |results| && Survives(results[j]) ==>
          |Clean(results[j].text)| <= |Clean(results[i].text)|)
    && (forall j :: 0 <= j < i && Survives(results[j]) ==>
          |Clean(results[j].text)| < |Clean(results[i].text)|)
  }

  /**
   * The plate text is the correction of the first surviving reading whose
   * cleaned text is the longest of all the surviving ones.
   */
  lemma RecognizeSelectsFirstLongest(results: seq<OcrReading>)
    requires Recognize(results).Some?
    ensures exists i :: IsFirstLongestSurvivor(results, i) && Recognize(results).value == Contextual(Clean(results[i].text))
  {
    var cs := Candidates(results);
    var i := LongestCandidateOrigin(results);
    assert Recognize(results).value == Contextual(cs[FirstLongest(cs)]);
  }

  /** The candidate `max` picks comes from the first longest surviving reading `i`. */
  lemma LongestCandidateOrigin(results: seq<OcrReading>) returns (i: int)
    requires Candidates(results) != []
    ensures IsFirstLongestSurvivor(results, i)
    ensures Candidates(results)[FirstLongest(Candidates(results))] == Clean(results[i].text)
  {
    var cs := Candidates(results);
    var idx := Origins(results, Candidate);
    var k := FirstLongest(cs);
    i := idx[k];
    assert Candidate(results[i]) == Some(cs[k]);
    forall j | 0 <= j < |results| && Survives(results[j])
      ensures |Clean(results[j].text)| <= |Clean(results[i].text)|
      ensures j < i ==> |Clean(results[j].text)| < |Clean(results[i].text)|
    {
      var k' := SurvivorPosition(results, j);
      if j < i {
        assert k' < k;
      }
    }
  }

  /** A surviving reading appears among the candidates, at position `k`. */
  lemma SurvivorPosition(results: seq<OcrReading>, j: int) returns (k: nat)
    requires 0 <= j < |results| && Survives(results[j])
    ensures k < |Candidates(results)| && Origins(results, Candidate)[k] == j
    ensures Candidates(results)[k] == Clean(results[j].text)
  {
    var idx := Origins(results, Candidate);
    assert Candidate(results[j]).Some?;
    k :| 0 <= k < |idx| && idx[k] == j;
    assert Candidate(results[j]) == Some(Candidates(results)[k]);
  }

  /** `recognize_plate` from the OCR readings on: filter, pick the longest, correct. */
  method RecognizePlate(results: seq<OcrReading>) returns (plate: Option<string>)
    ensures plate == Recognize(results)
  {
    var candidates: seq<string> := [];
    for i := 0 to |results|
      invariant candidates == Candidates(results[..i])
    {
      var cleanText := Clean(results[i].text);
      if |cleanText| >= MinCandidateLength {
        candidates := candidates + [cleanText];
      }
      assert results[..i + 1][..i] == results[..i];
    }
    assert results[..|results|] == results;
    if candidates != [] {
      var plateText := candidates[FirstLongest(candidates)];
      plateText := CorrectPlateContextual(plateText);
      return Some(plateText);
    }
    return None;
  }
}
