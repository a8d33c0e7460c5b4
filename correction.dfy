/**
 * Position-aware correction of OCR misreads (`correct_plate_contextual`).
 * The first four characters of an Indian plate are usually letters, so there a
 * literal '0' is read as 'D'; everywhere the basic confusion table applies.
 */
module Correction {
  import opened Tables

  /** Number of leading positions where the extra '0' -> 'D' rule applies. */
  const LeadingLength: nat := 4

  /** `str.upper()` on one character, for ASCII input. */
  function UpperChar(c: char): (u: char)
    ensures !('a' <= u <= 'z')
    ensures 'a' <= c <= 'z' ==> 'A' <= u <= 'Z' && u as int == c as int - 32
    ensures !('a' <= c <= 'z') ==> u == c
  {
    if 'a' <= c <= 'z' then (c as int - 32) as char else c
  }

  /** `str.upper()` on a whole string, for ASCII input. */
  function Upper(s: string): (u: string)
  {
    seq(|s|, i requires 0 <= i < |s| => UpperChar(s[i]))
  }

  /** The correction applied to an (upper-cased) character `c` found at index `i`. */
  function CorrectChar(i: nat, c: char): (r: char)
    ensures !IsConfusable(r)
    ensures r != c <==> IsConfusable(c) || (i < LeadingLength && c == '0')
    ensures IsPlateChar(c) ==> IsPlateChar(r)
    ensures !('a' <= c <= 'z') ==> !('a' <= r <= 'z')
  {
    if i < LeadingLength then
      if c == '0' then 'D'
      else if c in BasicCorrections then BasicCorrections[c]
      else c
    else
      if c in BasicCorrections then BasicCorrections[c]
      else c
  }

  /**
   * The leading rule set extends the trailing one by exactly one case: the
   * same character is corrected alike at a leading and a trailing index
   * unless it is '0'.
   */
  lemma LeadingExtendsTrailing(i: nat, j: nat, c: char)
    requires i < LeadingLength <= j
    ensures CorrectChar(i, c) == CorrectChar(j, c) <==> c != '0'
    ensures c == '0' ==> CorrectChar(i, c) == 'D' && CorrectChar(j, c) == '0'
  {
  }

  /** The corrected text, built left to right as the `corrected += c` accumulator of `correct_plate_contextual` builds it. */
  function Contextual(text: string): (r: string)
    ensures |r| == |text|
    ensures forall i :: 0 <= i < |text| ==> r[i] == CorrectChar(i, UpperChar(text[i]))
    ensures forall i :: 0 <= i < |r| ==> !IsConfusable(r[i])
    ensures forall i :: 0 <= i < |text| && IsPlateChar(text[i]) ==> IsPlateChar(r[i])
  {
    if text == [] then []
    else
      var n := |text| - 1;
      Contextual(text[..n]) + [CorrectChar(n, UpperChar(text[n]))]
  }

  /**
   * A plate text with no misread-prone letter and no '0' among its leading
   * characters is left exactly as it is.
   */
  lemma ContextualKeepsCleanText(text: string)
    requires forall i :: 0 <= i < |text| ==> IsPlateChar(text[i]) && !IsConfusable(text[i])
    requires forall i :: 0 <= i < |text| && i < LeadingLength ==> text[i] != '0'
    ensures Contextual(text) == text
  {
    var r := Contextual(text);
    forall i | 0 <= i < |text|
      ensures r[i] == text[i]
    {
      assert UpperChar(text[i]) == text[i];
    }
  }

  /**
   * Correcting twice changes only the leading '0's the first pass produced
   * (from a misread 'O'), which become 'D': the correction is not idempotent.
   */
  lemma ContextualTwice(text: string)
    ensures |Contextual(Contextual(text))| == |text|
    ensures forall i :: 0 <= i < |text| ==>
      Contextual(Contextual(text))[i] ==
        if i < LeadingLength && Contextual(text)[i] == '0' then 'D' else Contextual(text)[i]
  {
    var once := Contextual(text);
    forall i | 0 <= i < |text|
      ensures UpperChar(once[i]) == once[i]
    {
      assert !('a' <= UpperChar(text[i]) <= 'z');
    }
  }

  /** An example of misreads at both leading and trailing positions, and the second pass that shows the map is not idempotent. */
  lemma CorrectionExample()
    ensures Contextual("O0BZ1AB5Z34") == "0D821A85234"
    ensures Contextual("0D821A85234") == "DD821A85234"
  {
    ContextualAgrees("O0BZ1AB5Z34", "0D821A85234");
    ContextualAgrees("0D821A85234", "DD821A85234");
  }

  /** A text is corrected into `expected` when every index agrees. */
  lemma ContextualAgrees(text: string, expected: string)
    requires |text| == |expected|
    requires forall i :: 0 <= i < |text| ==> CorrectChar(i, UpperChar(text[i])) == expected[i]
    ensures Contextual(text) == expected
  {
  }

  /** `correct_plate_contextual`: upper-case, then correct character by character. */
  method CorrectPlateContextual(text: string) returns (corrected: string)
    ensures corrected == Contextual(text)
  {
    var upper := Upper(text);
    corrected := "";
    for i := 0 to |upper|
      invariant corrected == Contextual(text[..i])
    {
      var c := upper[i];
      if i < LeadingLength {
        if c == '0' {
          c := 'D';
        } else if c in BasicCorrections {
          c := BasicCorrections[c];
        }
      } else {
        if c in BasicCorrections {
          c := BasicCorrections[c];
        }
      }
      assert text[..i + 1][..i] == text[..i];
      corrected := corrected + [c];
    }
    assert text[..|text|] == text;
  }
}
