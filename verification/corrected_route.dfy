/**
 * app/api/corrected/route.js: the label normalisation, the data-URL stripping, the
 * POST handler that logs a classifier correction and the GET handler that lists them.
 */
module CorrectedRoute {
  import opened Wrappers
  import opened Text
  import opened Http
  import opened Seqs
  import opened CorrectedModel

  /**
   * `normalizeLabel`: "" for a falsy input; otherwise trimmed, lower-cased, and with every
   * run of white space replaced by one underscore.
   */
  function NormalizeLabel(s: Option<string>): (r: string)
    ensures !Truthy(s) ==> r == ""
    ensures NoSpace(r) && NoUpper(r)
  {
    if !Truthy(s) then "" else CollapseSpaces(Lower(Trim(s.value)))
  }

  /**
   * What normalisation keeps: every character of the trimmed, lower-cased label other than
   * white space and `_`, in order; a label with no white space inside becomes exactly its
   * trimmed, lower-cased form.
   */
  lemma NormalizeLabelKeepsContent(s: Option<string>)
    requires Truthy(s)
    ensures Visible(NormalizeLabel(s)) == Visible(Lower(Trim(s.value)))
    ensures NoSpace(Trim(s.value)) ==> NormalizeLabel(s) == Lower(Trim(s.value))
  {
    var l := Lower(Trim(s.value));
    CollapseKeepsVisible(l);
    if NoSpace(Trim(s.value)) {
      CollapseOfNoSpaceIsIdentity(l);
    }
  }

  /** White space around a label does not reach its normal form. */
  lemma NormalizePaddedLabel(pre: string, e: string, post: string)
    requires AllSpace(pre) && AllSpace(post)
    requires e == [] || (!IsSpace(e[0]) && !IsSpace(e[|e| - 1]))
    ensures NormalizeLabel(Some(pre + e + post)) == CollapseSpaces(Lower(e))
  {
    TrimStripsPadding(pre, e, post);
  }

  /** A lower-cased label without padding is only collapsed. */
  lemma NormalizeLoweredLabel(e: string)
    requires e == [] || (!IsSpace(e[0]) && !IsSpace(e[|e| - 1]))
    ensures NormalizeLabel(Some(Lower(e))) == CollapseSpaces(Lower(e))
  {
    if e != [] {
      TrimOfLowerUnpadded(e);
      LowerOfLowerIsIdentity(Lower(e));
    }
  }

  /**
   * Labels that differ only in letter case or in the white space around them normalise
   * alike.
   */
  lemma NormalizeLabelIgnoresCaseAndPadding(pre: string, e: string, post: string)
    requires AllSpace(pre) && AllSpace(post)
    requires e == [] || (!IsSpace(e[0]) && !IsSpace(e[|e| - 1]))
    ensures NormalizeLabel(Some(pre + e + post)) == NormalizeLabel(Some(Lower(e)))
  {
    NormalizePaddedLabel(pre, e, post);
    NormalizeLoweredLabel(e);
  }

  /** Normalising a normalised label changes nothing. */
  lemma NormalizeLabelIdempotent(s: Option<string>)
    ensures NormalizeLabel(Some(NormalizeLabel(s))) == NormalizeLabel(s)
  {
    var n := NormalizeLabel(s);
    if n != "" {
      TrimOfNoSpaceIsIdentity(n);
      LowerOfLowerIsIdentity(n);
      CollapseOfNoSpaceIsIdentity(n);
    }
  }

  /**
   * `extractBase64`: "" for a falsy input; for a trimmed input starting with "data:" the
   * text after its first comma (the whole trimmed text when it has none); any other input
   * trimmed and otherwise unchanged.
   */
  function ExtractBase64(s: Option<string>): (r: string)
    ensures !Truthy(s) ==> r == ""
    ensures Truthy(s) && StartsWith(Trim(s.value), "data:") && ',' in Trim(s.value) ==>
      var t := Trim(s.value);
      |r| < |t| && r == t[|t| - |r|..] && t[|t| - |r| - 1] == ',' && ',' !in t[..|t| - |r| - 1]
    ensures Truthy(s) && !(StartsWith(Trim(s.value), "data:") && ',' in Trim(s.value)) ==> r == Trim(s.value)
  {
    if !Truthy(s) then ""
    else
      var t := Trim(s.value);
      if StartsWith(t, "data:") then
        var idx := IndexOf(t, ',');
        if idx >= 0 then t[idx + 1..] else t
      else t
  }

  /** The JSON body of the POST: `image`, `predicted` and `actual`. */
  datatype CorrectionBody = CorrectionBody(image: Option<string>, predicted: Option<string>, actual: Option<string>)

  /**
   * The POST's 400 guards: a missing field, or two labels that normalise to the same
   * string.
   */
  predicate Rejected(body: CorrectionBody)
  {
    !Truthy(body.image) || !Truthy(body.predicted) || !Truthy(body.actual)
    || NormalizeLabel(body.predicted) == NormalizeLabel(body.actual)
  }

  /** Every stored record is valid and has an id below `nextId`. */
  ghost predicate AllValid(records: seq<Corrected>, nextId: nat)
  {
    forall i :: 0 <= i < |records| ==> records[i].id < nextId && ValidCorrected(records[i])
  }

  lemma AppendKeepsAllValid(records: seq<Corrected>, nextId: nat, c: Corrected)
    requires AllValid(records, nextId) && c.id == nextId && ValidCorrected(c)
    ensures AllValid(records + [c], nextId + 1)
  {
  }

  /** The Corrected collection. */
  class CorrectedStore {
    var records: seq<Corrected>
    var nextId: nat

    ghost predicate Valid()
      reads this
    {
      AllValid(records, nextId)
    }

    constructor ()
      ensures Valid() && records == [] && nextId == 0
    {
      records := [];
      nextId := 0;
    }

    /**
     * POST /api/corrected: refuses with 400 and stores nothing when a field is missing or
     * the labels agree once normalised; otherwise stores the normalised labels with the
     * stripped base64 image and answers 201 with the new id. A record the schema rejects
     * (an empty base64 text or a label made only of white space) yields 500.
     */
    method Post(body: CorrectionBody, now: int) returns (r: Reply<nat>)
      requires Valid()
      modifies this
      ensures Valid()
      ensures Rejected(body) <==> r.status == BAD_REQUEST
      ensures !Truthy(body.image) || !Truthy(body.predicted) || !Truthy(body.actual) ==>
        r == Refused(BAD_REQUEST, "Missing fields")
      ensures Truthy(body.image) && Truthy(body.predicted) && Truthy(body.actual) && Rejected(body) ==>
        r == Refused(BAD_REQUEST, "Prediction matches actual, not saving.")
      ensures r.status == CREATED ==>
        && r == Done(CREATED, old(nextId))
        && records == old(records) + [Corrected(old(nextId), ExtractBase64(body.image),
                                                NormalizeLabel(body.predicted), NormalizeLabel(body.actual), now)]
      ensures r.status != CREATED ==> records == old(records) && nextId == old(nextId)
      ensures !Rejected(body) ==>
        (r.status == CREATED <==> ExtractBase64(body.image) != "" && NormalizeLabel(body.predicted) != ""
                                  && NormalizeLabel(body.actual) != "")
      ensures r.status in {CREATED, BAD_REQUEST, SERVER_ERROR}
    {
      if !Truthy(body.image) || !Truthy(body.predicted) || !Truthy(body.actual) {
        return Refused(BAD_REQUEST, "Missing fields");
      }
      var predictedNorm := NormalizeLabel(body.predicted);
      var actualNorm := NormalizeLabel(body.actual);
      if predictedNorm == actualNorm {
        return Refused(BAD_REQUEST, "Prediction matches actual, not saving.");
      }
      var base64 := ExtractBase64(body.image);
      TrimOfNoSpaceIsIdentity(predictedNorm);
      TrimOfNoSpaceIsIdentity(actualNorm);
      var created := NewCorrected(nextId, base64, predictedNorm, actualNorm, now);
      if created.Err? {
        return Refused(SERVER_ERROR, "Server error");
      }
      var c := created.value;
      assert c == Corrected(nextId, base64, predictedNorm, actualNorm, now);
      AppendKeepsAllValid(records, nextId, c);
      records := records + [c];
      r := Done(CREATED, nextId);
      nextId := nextId + 1;
    }
  }

  /** GET /api/corrected: every record, newest first. */
  function ListNewestFirst(records: seq<Corrected>): (r: seq<Corrected>)
    ensures multiset(r) == multiset(records)
    ensures forall i, j :: 0 <= i < j < |r| ==> r[i].createdAt >= r[j].createdAt
  {
    SortDesc(records, (c: Corrected) => c.createdAt)
  }
}
