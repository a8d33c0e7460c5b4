/**
 * Splitting a corrected plate text into its four fields (`parse_plate_details`):
 * state code, RTO (regional transport office) code, series and number.
 */
module Parsing {
  import opened Wrappers
  import opened Tables

  /** The details dictionary; `None` where Python stores `None`. */
  datatype PlateDetails = PlateDetails(
    state: Option<string>,
    rto: Option<string>,
    series: Option<string>,
    number: Option<string>)

  /** Shorter texts are not parsed at all. */
  const MinParseLength: nat := 10

  /** `STATE_CODES.get(code, code)`: the state's name, or the code itself when unknown. */
  function ResolveState(code: string): string {
    if code in StateCodes then StateCodes[code] else code
  }

  /**
   * `parse_plate_details`: either no field at all (text too short) or all four,
   * whose codes put back together give the text again.
   */
  function ParsePlateDetails(text: string): (d: PlateDetails)
    ensures |text| < MinParseLength <==> d == PlateDetails(None, None, None, None)
    ensures |text| >= MinParseLength ==>
      && d.state.Some? && d.rto.Some? && d.series.Some? && d.number.Some?
      && text[..2] + d.rto.value + d.series.value + d.number.value == text
      && |d.rto.value| == 2 && |d.series.value| == 2
      && |d.number.value| == |text| - 6 >= 4
    ensures |text| >= MinParseLength && text[..2] in StateCodes ==> d.state == Some(StateCodes[text[..2]])
    ensures |text| >= MinParseLength && text[..2] !in StateCodes ==> d.state == Some(text[..2])
  {
    if |text| >= MinParseLength then
      var stateCode := text[..2];
      var rtoCode := text[2..4];
      var series := text[4..6];
      var number := text[6..];
      assert stateCode + rtoCode + series + number == text;
      PlateDetails(Some(ResolveState(stateCode)), Some(rtoCode), Some(series), Some(number))
    else
      PlateDetails(None, None, None, None)
  }

  /** The example of `parse_plate_details`'s docstring, and a code missing from the table. */
  lemma ParseExamples()
    ensures ParsePlateDetails("MH12AB1234") == PlateDetails(Some("Maharashtra"), Some("12"), Some("AB"), Some("1234"))
    ensures ParsePlateDetails("XY98ZZ0001") == PlateDetails(Some("XY"), Some("98"), Some("ZZ"), Some("0001"))
  {
    var known, unknown := "MH12AB1234", "XY98ZZ0001";
    assert known[..2] == "MH" && known[2..4] == "12" && known[4..6] == "AB" && known[6..] == "1234";
    assert unknown[..2] == "XY" && unknown[2..4] == "98" && unknown[4..6] == "ZZ" && unknown[6..] == "0001";
    assert "XY" !in StateCodes;
  }
}
