/** The Corrected-label document of models/Corrected.js. */
module CorrectedModel {
  import opened Wrappers
  import opened Text

  /** A logged correction: `predicted` and `actual` are stored trimmed. */
  datatype Corrected = Corrected(id: nat, image: string, predicted: string, actual: string, createdAt: int)

  predicate ValidCorrected(c: Corrected)
  {
    c.image != "" && c.predicted != "" && c.actual != ""
    && Trim(c.predicted) == c.predicted && Trim(c.actual) == c.actual
  }

  /**
   * `Corrected.create`: the `trim` option casts both labels with `trim()` before the
   * `required` validator sees them, so a label made only of white space is rejected.
   */
  function NewCorrected(id: nat, image: string, predicted: string, actual: string, now: int): (r: Result<Corrected>)
    ensures r.Ok? <==> image != "" && Trim(predicted) != "" && Trim(actual) != ""
    ensures r.Ok? ==> ValidCorrected(r.value)
    ensures r.Ok? ==> r.value.image == image && r.value.predicted == Trim(predicted)
                      && r.value.actual == Trim(actual) && r.value.id == id && r.value.createdAt == now
  {
    var p, a := Trim(predicted), Trim(actual);
    TrimIdempotent(predicted);
    TrimIdempotent(actual);
    if image != "" && p != "" && a != "" then Ok(Corrected(id, image, p, a, now))
    else Err("Corrected validation failed")
  }
}
