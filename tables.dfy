/**
 * The two fixed lookup tables of the recognizer: the state-code table and the
 * table of character confusions the OCR engine is known to make.
 */
module Tables {

  /** Two-letter Indian state code to the state's name (35 entries). */
  const StateCodes: map<string, string> := map[
    "AP" := "Andhra Pradesh",
    "AR" := "Arunachal Pradesh",
    "AS" := "Assam",
    "BR" := "Bihar",
    "CG" := "Chhattisgarh",
    "GA" := "Goa",
    "GJ" := "Gujarat",
    "HR" := "Haryana",
    "HP" := "Himachal Pradesh",
    "JK" := "Jammu and Kashmir",
    "JH" := "Jharkhand",
    "KA" := "Karnataka",
    "KL" := "Kerala",
    "MP" := "Madhya Pradesh",
    "MH" := "Maharashtra",
    "MN" := "Manipur",
    "ML" := "Meghalaya",
    "MZ" := "Mizoram",
    "NL" := "Nagaland",
    "OD" := "Odisha",
    "PB" := "Punjab",
    "RJ" := "Rajasthan",
    "SK" := "Sikkim",
    "TN" := "Tamil Nadu",
    "TS" := "Telangana",
    "TR" := "Tripura",
    "UP" := "Uttar Pradesh",
    "UK" := "Uttarakhand",
    "WB" := "West Bengal",
    "AN" := "Andaman and Nicobar Islands",
    "CH" := "Chandigarh",
    "DN" := "Dadra and Nagar Haveli and Daman & Diu",
    "DL" := "Delhi",
    "LD" := "Lakshadweep",
    "PY" := "Puducherry"
  ]

  /** Letters the OCR engine is known to misread, and what they are taken to be. */
  const BasicCorrections: map<char, char> := map[
    'N' := 'M',
    'Z' := '2',
    'O' := '0',
    'I' := '1',
    'S' := '5',
    'B' := '8'
  ]

  /** The characters a cleaned plate text is made of: `[A-Z0-9]`. */
  predicate IsPlateChar(c: char) {
    'A' <= c <= 'Z' || '0' <= c <= '9'
  }

  /** A character the correction table rewrites. */
  predicate IsConfusable(c: char) {
    c in BasicCorrections
  }

  /** A state code holding a letter the correction table rewrites. */
  predicate HasConfusable(code: string) {
    exists i :: 0 <= i < |code| && IsConfusable(code[i])
  }

  /** No two codes share a name, and every name is longer than a code. */
  lemma StateNamesDistinct(a: string, b: string)
    requires a in StateCodes && b in StateCodes
    ensures StateCodes[a] == StateCodes[b] <==> a == b
    ensures |StateCodes[a]| > 2
  {
  }
}
