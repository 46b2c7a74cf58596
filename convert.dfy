/**
  The display-aspect-ratio normaliser of src/format/convert.rs: MediaInfo
  reports the ratio as a decimal with three places ("1.778"); a fixed table
  turns the common ones into the labels people know ("16:9"). Anything the
  table does not list is passed through untouched.
 */
module Convert {

  /** Every raw ratio that the table rewrites. */
  const KnownRatios: set<string> :=
    {"1.778", "1.333", "2.35", "2.40", "2.000", "1.250", "2.333", "1.500",
     "1.600", "8:5", "1.850", "1.900", "2.550", "2.760", "2.800", "2.840",
     "1.667", "5:3", "0.562"}

  /** Every label the table produces. */
  const ConventionalLabels: set<string> :=
    {"16:9", "4:3", "2.35:1", "2.40:1", "18:9", "5:4", "21:9", "3:2", "16:10",
     "37:20", "19:10", "17:10", "32:11", "7:2", "71:25", "5:3", "9:16"}

  /** Maps a raw ratio to its conventional label; exact string match, otherwise identity. */
  function ConvertDisplayAspectRatio(raw: string): (shown: string)
    ensures raw in KnownRatios ==> shown in ConventionalLabels
    ensures raw !in KnownRatios ==> shown == raw
  {
    match raw
    case "1.778" => "16:9"
    case "1.333" => "4:3"
    case "2.35" => "2.35:1"
    case "2.40" => "2.40:1"
    case "2.000" => "18:9"
    case "1.250" => "5:4"
    case "2.333" => "21:9"
    case "1.500" => "3:2"
    case "1.600" | "8:5" => "16:10"
    case "1.850" => "37:20"
    case "1.900" => "19:10"
    case "2.550" => "17:10"
    case "2.760" => "32:11"
    case "2.800" => "7:2"
    case "2.840" => "71:25"
    case "1.667" | "5:3" => "5:3"
    case "0.562" => "9:16"
    case _ => raw
  }

  /** The table entry by entry. */
  lemma TableEntries()
    ensures ConvertDisplayAspectRatio("1.778") == "16:9"
    ensures ConvertDisplayAspectRatio("1.333") == "4:3"
    ensures ConvertDisplayAspectRatio("2.35") == "2.35:1"
    ensures ConvertDisplayAspectRatio("2.40") == "2.40:1"
    ensures ConvertDisplayAspectRatio("2.000") == "18:9"
    ensures ConvertDisplayAspectRatio("1.250") == "5:4"
    ensures ConvertDisplayAspectRatio("2.333") == "21:9"
    ensures ConvertDisplayAspectRatio("1.500") == "3:2"
    ensures ConvertDisplayAspectRatio("1.600") == "16:10"
    ensures ConvertDisplayAspectRatio("8:5") == "16:10"
    ensures ConvertDisplayAspectRatio("1.850") == "37:20"
    ensures ConvertDisplayAspectRatio("1.900") == "19:10"
    ensures ConvertDisplayAspectRatio("2.550") == "17:10"
    ensures ConvertDisplayAspectRatio("2.760") == "32:11"
    ensures ConvertDisplayAspectRatio("2.800") == "7:2"
    ensures ConvertDisplayAspectRatio("2.840") == "71:25"
    ensures ConvertDisplayAspectRatio("1.667") == "5:3"
    ensures ConvertDisplayAspectRatio("5:3") == "5:3"
    ensures ConvertDisplayAspectRatio("0.562") == "9:16"
  {
  }

  /** Every key other than "5:3" is really rewritten: "5:3" is the table's only fixed point. */
  lemma KnownRatiosChange(raw: string)
    requires raw in KnownRatios
    ensures ConvertDisplayAspectRatio(raw) == raw <==> raw == "5:3"
  {
  }

  /** Two different keys share the label "16:10", so the table is not injective. */
  lemma NotInjective()
    ensures exists a, b :: a != b && ConvertDisplayAspectRatio(a) == ConvertDisplayAspectRatio(b)
  {
    assert "1.600" != "8:5" && ConvertDisplayAspectRatio("1.600") == ConvertDisplayAspectRatio("8:5");
  }

  /** Matching is exact: the missing-field default, the empty string and
      differently rounded spellings of 16:9 are passed through. */
  lemma ExactMatchOnly()
    ensures ConvertDisplayAspectRatio("N/A") == "N/A"
    ensures ConvertDisplayAspectRatio("") == ""
    ensures ConvertDisplayAspectRatio("1.78") == "1.78"
    ensures ConvertDisplayAspectRatio("1.7780") == "1.7780"
  {
  }

  /** No label is a key that maps elsewhere: every label is a fixed point. */
  lemma LabelsAreFixed(l: string)
    requires l in ConventionalLabels
    ensures ConvertDisplayAspectRatio(l) == l
  {
    if l == "5:3" {
    } else {
      assert l !in KnownRatios;
    }
  }

  /** Normalising twice gives what normalising once gives. */
  lemma ConvertIdempotent(raw: string)
    ensures ConvertDisplayAspectRatio(ConvertDisplayAspectRatio(raw)) == ConvertDisplayAspectRatio(raw)
  {
    if raw in KnownRatios {
      LabelsAreFixed(ConvertDisplayAspectRatio(raw));
    }
  }
}
