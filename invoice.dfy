/** `procesar_factura` as a whole: the paragraph scan, the combined text handed to the
    table reader, then the header cleanup and the row stages. The document reader is
    the caller's: the paragraphs arrive as their texts. */
module Invoice {
  import opened Wrappers
  import opened Strings
  import opened Extraction
  import opened Frames
  import opened Cleaning

  /** What `procesar_factura` computes from the paragraph texts of the document. */
  ghost function Pipeline(paragraphs: seq<string>): Result<Frame, Failure> {
    match ReadTable(CombinedContent(Extracted(paragraphs)))
    case Failure(e) => Failure(e)
    case Success(raw) => Normalize(CleanColumns(raw))
  }

  method ProcessInvoice(paragraphs: seq<string>) returns (r: Result<Frame, Failure>)
    ensures r == Pipeline(paragraphs)
  {
    var lines := ExtractLines(paragraphs);
    var combined := CombinedContent(lines);
    match ReadTable(combined)
    case Failure(e) =>
      r := Failure(e);
    case Success(raw) =>
      r := Normalize(CleanColumns(raw));
  }

  /** A document without the start banner yields no text, and the table reader then
      finds no columns: a failure, not an empty table. */
  lemma NoBannerFails(paragraphs: seq<string>)
    requires forall i :: 0 <= i < |paragraphs| ==> !Contains(Trim(paragraphs[i]), StartBanner)
    ensures Pipeline(paragraphs) == Failure(NoColumnsToParse)
  {
    NoBannerNoLines(paragraphs);
    assert CombinedContent(Extracted(paragraphs)) == "";
    assert Split("", LineBreak) == [""];
  }

  /** Every successful result has exactly the four output columns, its material code
      is never missing, and every order number is missing or starts with `CHL` and
      ends with `-24`. */
  lemma PipelineOutputShape(paragraphs: seq<string>)
    requires Pipeline(paragraphs).Success?
    ensures var out := Pipeline(paragraphs).value;
      out.columns == OutputColumns && WellFormed(out)
      && forall k :: 0 <= k < |out.rows| ==> (out.rows[k][1].Some?
           && (out.rows[k][0].None? || (StartsWith(out.rows[k][0].value, OrderPrefix)
                 && out.rows[k][0].value[|out.rows[k][0].value| - 3..] == OrderSuffix)))
  {
    var raw := ReadTable(CombinedContent(Extracted(paragraphs))).value;
    NormalizedRowShape(CleanColumns(raw));
  }
}
