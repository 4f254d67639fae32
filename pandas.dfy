/**
 * The cells of a table as `pd.read_csv` reads them by default: each field is
 * its text, or NaN when the text is one of pandas' default missing-value
 * markers (the empty field among them).
 */
module Pandas {
  /** A cell of a table read by `pd.read_csv`. */
  datatype Value = Str(text: string) | NaN

  /** The default `na_values` of `read_csv` (pandas 2). */
  const NaStrings: set<string> := {
    "", "#N/A", "#N/A N/A", "#NA", "-1.#IND", "-1.#QNAN", "-NaN", "-nan", "1.#IND", "1.#QNAN",
    "<NA>", "N/A", "NA", "NULL", "NaN", "None", "n/a", "nan", "null"}

  /** One field of the file as `read_csv` reads it. */
  function Read(field: string): Value {
    if field in NaStrings then NaN else Str(field)
  }

  /** `f"{v}"`: a text is itself, NaN prints as "nan". */
  function Format(v: Value): string {
    match v
    case Str(t) => t
    case NaN => "nan"
  }

  /** Every cell's text. */
  function Texts(vs: seq<Value>): (r: seq<string>)
    ensures |r| == |vs| && forall i :: 0 <= i < |vs| ==> r[i] == Format(vs[i])
  {
    seq(|vs|, i requires 0 <= i < |vs| => Format(vs[i]))
  }

  /**
   * A field prints back as itself unless it is a missing-value marker, and
   * then it prints as "nan"; an empty field in particular prints as "nan".
   */
  lemma ReadFormat(field: string)
    ensures Format(Read(field)) == (if field in NaStrings then "nan" else field)
    ensures Read(field).NaN? <==> field in NaStrings
    ensures Format(Read("")) == "nan"
  {
  }
}
