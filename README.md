# Maruti packing-list extractor, modelled in Dafny

This project models `procesar_factura` from `modulos/tratamiento_maruti.py`. That
function turns the paragraphs of a Maruti "invoice cum packing list" Word document
into a four-column table. It has three stages.

1. **Paragraph scan (lines 14-40).** Every paragraph is stripped. A `found_start`
   flag goes up when a paragraph contains the start banner
   `********  INVOICE CUM PACKING LIST ANNEXURE ********`.
   - After that, a paragraph containing `====================` raises `found_marker`
     and is skipped. Every later such paragraph is skipped as well.
   - Once the marker is up, every paragraph is kept unless it starts with one of nine
     noise prefixes: page footers, office and address lines, box totals, banners.
   - The kept lines are joined with `"\n"`.
2. **Table read and header cleanup (lines 41-46).** The joined text is read as a
   `|`-separated table. Header names are stripped, and the placeholder columns
   `Unnamed: 0` and `Unnamed: 13` are dropped when present.
3. **Row stages (lines 49-64).**
   - A row is kept when its ITEM CODE is present, non-empty, not the header label, and
     does not contain `ORDER ITEM CODE`.
   - Codes shorter than 14 characters get `-000` appended, and the column is renamed
     `MAT_PROV_SOLICITADO`.
   - `NRO_ORDEN_PREFIJO` is `CHL` + ORDER REF NO + `-24`.
   - The table is projected onto `[NRO_ORDEN_PREFIJO, MAT_PROV_SOLICITADO, QTY, UNIT RATE]`.

Files, one module each:

- `wrappers.dfy`: `Option` and `Result`.
- `strings.dfy`: the Python `str` operations used by the code (`strip`, `startswith`,
  `in` and `join`), and `Split`, the cutting of the text into lines and fields that
  the table reader performs.
- `seqs.dfy`: `Where`, the positions where a boolean mask holds, and `Pick`, the
  elements at those positions. Together they model a pandas boolean-mask selection.
- `extraction.dfy`: the scan.
- `frames.dfy`: the table reader.
- `cleaning.dfy`: the header and row stages.
- `invoice.dfy`: the whole function.

Form of each stage:

- The scan is imperative in the source, so it is `Extraction.ExtractLines`, a method
  with a loop over the paragraphs and the two flags.
- The loop is proved against `Scan`, a function that applies the loop body
  paragraph by paragraph. `ScanMeansPositions` then ties `Scan` to a positional
  description, `Extracted`. That description says which paragraphs are kept: those
  after the first separator line that follows the banner, excluding separator lines
  and excluded prefixes.
- The table stages are expression-style in the source (a comprehension, a vectorised
  mask, an `apply`, a projection), so they are pure functions over rows of optional
  cells. `None` stands for pandas' NaN.

The document reader is not modelled. The input is the sequence of paragraph texts that
`document.paragraphs` yields. An exception of the source is modelled as a `Failure`
value of type `Frames.Failure`:

- `NoColumnsToParse`: pandas' `EmptyDataError`, when no non-blank line was extracted.
- `TooManyFields`: pandas' `ParserError`, when a data line has more fields than the
  header.
- `MissingColumn`: the `KeyError` of a column looked up by name.

Padding appends `-000` once rather than filling a code up to 14 characters, so a
3-character code becomes 7 characters (`Cleaning.PadCode`).

## Model

| member | source | states |
|---|---|---|
| Extraction.ExtractLines | modulos/tratamiento_maruti.py:14-37 | The loop returns exactly `Extracted(paragraphs)`. These are the stripped paragraphs after the first separator line that follows the banner, minus later separator lines and lines with a noise prefix, in document order. |
| Extraction.IsExcluded | modulos/tratamiento_maruti.py:35 | A text is excluded iff it starts with one of the nine noise prefixes listed on lines 21-24. |
| Extraction.Step | modulos/tratamiento_maruti.py:28-37 | One loop iteration. `found_start` goes up iff it was up or the text holds the banner, and `found_marker` never goes down. The kept lines are unchanged or gain exactly this text at the end. They gain it iff the marker was already up, the text is not a separator line, and it has no noise prefix. |
| Extraction.StartSeenStep | modulos/tratamiento_maruti.py:29-30 | `found_start` after paragraph i holds iff it held before or paragraph i contains the banner. |
| Extraction.MarkerSeenStep | modulos/tratamiento_maruti.py:31-32 | `found_marker` after paragraph i holds iff it held before or paragraph i is a separator line: it contains the separator and the banner has appeared at or before it. |
| Extraction.ScanStep | modulos/tratamiento_maruti.py:29-37 | One iteration in terms of the two flags. It gives the new `found_start` and the new `found_marker`. Paragraph i is kept iff the marker was already up, the paragraph is not a separator line, and it has no noise prefix. |
| Extraction.StepDescribes | modulos/tratamiento_maruti.py:28-37 | One loop iteration on the stripped paragraph moves the positional description from i paragraphs to i + 1. |
| Extraction.DescribedAtStart | modulos/tratamiento_maruti.py:16-18 | Before any paragraph both flags are down and nothing has been kept. |
| Extraction.ScanMeansPositions | modulos/tratamiento_maruti.py:16-37 | After n paragraphs: `found_start` says the banner appeared among them; `found_marker` says a separator line did; the list holds the stripped texts of the kept positions below n, in order. |
| Extraction.ScanExtracts | modulos/tratamiento_maruti.py:26-37 | The loop run over all paragraphs keeps exactly `Extracted(paragraphs)`. |
| Extraction.NoBannerNoLines | modulos/tratamiento_maruti.py:14-37 | If no stripped paragraph contains the banner, `found_marker` is never raised and nothing is extracted. |
| Extraction.NothingThroughFirstSeparator | modulos/tratamiento_maruti.py:29-34 | Every kept position lies strictly after the first separator line. |
| Extraction.LaterSeparatorsSkipped | modulos/tratamiento_maruti.py:29-33 | A paragraph containing the separator, at or after the banner, is never kept, however many separators came before it. |
| Extraction.ExtractedIsOrderedSubsequence | modulos/tratamiento_maruti.py:27-37 | The kept lines are the stripped paragraphs at strictly increasing positions. A position is among them iff the scan keeps it. |
| Extraction.ExtractedLinesAreClean | modulos/tratamiento_maruti.py:21-37 | No kept line starts with one of the nine noise prefixes or contains the separator. |
| Extraction.CombinedContent | modulos/tratamiento_maruti.py:40 | `"\n".join(extracted_content)`. `CombinedContentSplits` states its round trip. |
| Extraction.CombinedContentSplits | modulos/tratamiento_maruti.py:40 | If no paragraph contains a newline and at least one line was kept, splitting `"\n".join(lines)` on `"\n"` gives the lines back. |
| Strings.StartsWith | modulos/tratamiento_maruti.py:35 | `str.startswith`: the string begins with the prefix. |
| Strings.Contains | modulos/tratamiento_maruti.py:29-31 | The `in` operator on strings, also used for `str.contains` on line 53. `ContainsIsOccurrence` states what it means. |
| Strings.ContainsIsOccurrence | modulos/tratamiento_maruti.py:29-31 | `sub in s` holds iff `sub` occurs in `s` at some position k, with k + len(sub) <= len(s). |
| Strings.Trim | modulos/tratamiento_maruti.py:28 | `str.strip()` never lengthens a string and leaves no whitespace at either end. |
| Strings.TrimStartCuts | modulos/tratamiento_maruti.py:28 | The left strip keeps a suffix of the string and removes only whitespace. |
| Strings.TrimEndCuts | modulos/tratamiento_maruti.py:28 | The right strip keeps a prefix of the string and removes only whitespace. |
| Strings.TrimIsMiddle | modulos/tratamiento_maruti.py:28 | `strip()` returns a middle slice of the string, and everything cut off on either side is whitespace. |
| Strings.TrimKeepsOut | modulos/tratamiento_maruti.py:28 | Stripping introduces no character, in particular no line break. |
| Strings.TrimOfTrimmed | modulos/tratamiento_maruti.py:44 | Stripping a string with no whitespace at its ends returns it unchanged. |
| Strings.Split | modulos/tratamiento_maruti.py:41 | `str.split(d)` always gives at least one piece, and no piece contains `d`. |
| Strings.SplitJoin | modulos/tratamiento_maruti.py:40-41 | Splitting a join of at least one separator-free piece returns the pieces. |
| Strings.JoinSplit | modulos/tratamiento_maruti.py:40-41 | Joining the pieces of a split returns the original string. |
| Frames.ColumnName | modulos/tratamiento_maruti.py:41 | A header name is never empty. A non-empty header field names its own column; an empty one at position i is named `Unnamed: i`. |
| Frames.NonBlank | modulos/tratamiento_maruti.py:41 | The reader skips blank lines, meaning lines that are empty or hold only spaces and tabs. Every line left is a non-blank line of the input, and none are left iff every line is blank. |
| Frames.NonBlankIsMask | modulos/tratamiento_maruti.py:41 | The lines left are exactly the non-blank lines of the input, all of them, in their original order. So the header is the first non-blank line. |
| Frames.ParseRows | modulos/tratamiento_maruti.py:41 | Data rows parse iff no line has more fields than the header. On success each row holds its fields, empty fields missing, padded with missing cells. On failure the error names the first line that is too wide. |
| Frames.ReadTable | modulos/tratamiento_maruti.py:41 | `read_csv(sep="\|")` fails with `NoColumnsToParse` iff there is no non-blank line, and otherwise fails only with `TooManyFields`. On success: one column per field of the first line, an empty header field at position i named `Unnamed: i`, one row per later line, the table well formed. |
| Cleaning.CleanColumns | modulos/tratamiento_maruti.py:44-46 | After cleanup every column name has no whitespace at its ends and is neither `Unnamed: 0` nor `Unnamed: 13`. The row count is unchanged and the table stays well formed. |
| Cleaning.CleanColumnsKeepsOthersInOrder | modulos/tratamiento_maruti.py:44-46 | The surviving columns are exactly those whose stripped name is not a placeholder, in their old order. Each keeps its stripped name and all its cells. |
| Cleaning.BorderColumnsDropped | modulos/tratamiento_maruti.py:45-46 | For a 14-column header with empty border fields, the reader names the two border columns `Unnamed: 0` and `Unnamed: 13`, and cleanup drops them. |
| Cleaning.IsItemCode | modulos/tratamiento_maruti.py:50-53 | The row mask: the ITEM CODE cell is present (line 50), not empty (51), not the label `ITEM CODE` (52), and does not contain `ORDER ITEM CODE` (53). |
| Cleaning.FilterRows | modulos/tratamiento_maruti.py:49-54 | Every retained row is a row of the table whose ITEM CODE is present, non-empty, not `ITEM CODE`, and free of `ORDER ITEM CODE`. |
| Cleaning.FilterRowsIsMask | modulos/tratamiento_maruti.py:49-54 | The filter keeps exactly the rows that pass the mask, all of them, in their original order. |
| Cleaning.PadCode | modulos/tratamiento_maruti.py:55 | A code of 14 or more characters is unchanged. A shorter one keeps its characters, ends in `-000` and is four characters longer. The original is always a prefix. |
| Cleaning.OrderNumber | modulos/tratamiento_maruti.py:59 | The order number is present iff ORDER REF NO is (NaN propagates). When present it is `CHL`, then the reference, then `-24`. |
| Cleaning.IndexOf | modulos/tratamiento_maruti.py:50 | A column lookup by name finds the first column with that name, or reports that none exists. |
| Cleaning.OutputRow | modulos/tratamiento_maruti.py:62-64 | An output row has one cell per output column. |
| Cleaning.Normalize | modulos/tratamiento_maruti.py:49-64 | Fails with the first missing column in the order the code reads them: ITEM CODE, ORDER REF NO, QTY, UNIT RATE. It succeeds iff all four exist, and then the columns are exactly `[NRO_ORDEN_PREFIJO, MAT_PROV_SOLICITADO, QTY, UNIT RATE]` and the table is well formed. |
| Cleaning.NormalizedRows | modulos/tratamiento_maruti.py:49-64 | One output row per row that passes the ITEM CODE filter, in order. Each row holds the derived order number, the padded item code, and QTY and UNIT RATE unchanged. |
| Cleaning.NormalizedRowShape | modulos/tratamiento_maruti.py:55-59 | Every output row has its material code. Its order number is missing, or starts with `CHL` and ends with `-24`. |
| Invoice.Pipeline | modulos/tratamiento_maruti.py:27-64 | The stages composed: `Extracted`, `CombinedContent`, `ReadTable` (whose failure is the result), `CleanColumns`, `Normalize`. The lemmas below state what it yields. |
| Invoice.ProcessInvoice | modulos/tratamiento_maruti.py:5-65 | The whole function: scan, join, read, clean up, normalize. The result is `Pipeline(paragraphs)`, the composition of the stage specifications above. |
| Invoice.NoBannerFails | modulos/tratamiento_maruti.py:14-41 | A document without the start banner makes the reader fail with `NoColumnsToParse`, not return an empty table. |
| Invoice.PipelineOutputShape | modulos/tratamiento_maruti.py:44-64 | Every successful result has exactly the four output columns and is well formed. Every row has a material code and an order number that is missing or of the form `CHL…-24`. |

## Left out

- `pl_app.py` as a whole. It is the Streamlit interface and the Excel input and
  output around a different, spreadsheet-based flow, and it does not call
  `procesar_factura`.
- Reading the Word file (lines 10-11) and `document.paragraphs` (line 27), because that
  is the python-docx library. The model's input is the list of paragraph texts.
- `Frames.ReadTable`: a minimal model of `pandas.read_csv`. It splits on `"\n"` and
  `|`, skips lines that are empty or hold only spaces and tabs, and treats an empty
  field as NaN. It does not model:
  - quoting;
  - the other NA spellings (`"NA"`, `"null"`, …);
  - dtype inference;
  - the mangling of duplicate column names;
  - the implicit index pandas builds when data lines are one field longer than the
    header (the model reports `TooManyFields` instead);
  - line breaks other than `"\n"`.
- `Cleaning.Normalize` treats every cell as text, so it misses three exceptions that
  come from pandas' dtype inference (its Success is an error in the source):
  - an ORDER REF NO column inferred as numbers (all digits gives int64) makes the
    string concatenation on line 59 raise `TypeError`;
  - an ORDER REF NO column whose cells are all empty is float64 (all NaN), and line 59
    raises `TypeError` instead of giving missing order numbers;
  - an ITEM CODE column with no string value (all empty gives float64, all digits
    gives int64) makes `.str.contains` on line 53 raise `AttributeError`.
- `Cleaning.Normalize` reports only the first missing column. At lines 62-64 pandas
  raises one `KeyError` naming every missing column.
- A table that already has a column named `MAT_PROV_SOLICITADO` or
  `NRO_ORDEN_PREFIJO`, or two columns with the same name, is not modelled. Lookups use
  the first column with the looked-up name.
- pandas' `SettingWithCopyWarning` on lines 55 and 59 is not modelled. It is a warning
  and does not change the result.
- The `str.contains` regular-expression matching on line 53 is modelled as plain
  substring search. The pattern `ORDER ITEM CODE` has no special characters, so the
  result is the same.
