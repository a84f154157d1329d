/** The first stage of `procesar_factura`: a scan over the paragraphs of the invoice
    document that keeps the lines of the packing-list table. The scan trims each
    paragraph, waits for the start banner, then for a separator line, and from then on
    keeps every line that does not start with one of nine noise prefixes; separator
    lines seen after the banner are always skipped. */
module Extraction {
  import opened Strings
  import opened Seqs

  const StartBanner: string := "********  INVOICE CUM PACKING LIST ANNEXURE ********"
  const Separator: string := "===================="

  /** Page footers, office and address lines, box totals and banners. */
  const ExcludedPrefixes: seq<string> := [
    "PAGE NO :", "|REGISTERED OFFICE:", "BOX ITEM TOTAL", "|MARUTI",
    "********", "|Plot No.", "|Vasant Kunj", "|Pan", "|DECLARATION"
  ]

  /** `any(text.startswith(pattern) for pattern in exclude_patterns)` */
  predicate IsExcluded(text: string) {
    exists k :: 0 <= k < |ExcludedPrefixes| && StartsWith(text, ExcludedPrefixes[k])
  }

  // What the scan has seen, stated by position rather than by flags, over the
  // trimmed paragraph texts `ts`.

  /** Some text among the first `n` holds the start banner. */
  ghost predicate StartSeen(ts: seq<string>, n: nat)
    requires n <= |ts|
  {
    exists j :: 0 <= j < n && Contains(ts[j], StartBanner)
  }

  /** Text `i` is a separator line: it holds the separator, and the banner has
      appeared in it or before it. */
  ghost predicate IsSeparatorAt(ts: seq<string>, i: nat)
    requires i < |ts|
  {
    StartSeen(ts, i + 1) && Contains(ts[i], Separator)
  }

  /** Some text among the first `n` is a separator line. */
  ghost predicate MarkerSeen(ts: seq<string>, n: nat)
    requires n <= |ts|
  {
    exists j :: 0 <= j < n && IsSeparatorAt(ts, j)
  }

  /** Text `i` is kept: a separator line came before it, it is not one itself, and it
      does not start with a noise prefix. */
  ghost predicate EmittedAt(ts: seq<string>, i: nat)
    requires i < |ts|
  {
    MarkerSeen(ts, i) && !IsSeparatorAt(ts, i) && !IsExcluded(ts[i])
  }

  ghost function Emits(ts: seq<string>): nat -> bool {
    (i: nat) => i < |ts| && EmittedAt(ts, i)
  }

  /** The positions of the kept paragraphs, in document order. */
  ghost function EmittedPositions(ps: seq<string>): seq<nat> {
    Where(|ps|, Emits(TrimAll(ps)))
  }

  /** The kept lines: the trimmed paragraphs at the kept positions. */
  ghost function Extracted(ps: seq<string>): seq<string> {
    Pick(TrimAll(ps), EmittedPositions(ps))
  }

  /** How `found_start` evolves from one paragraph to the next. */
  lemma StartSeenStep(ts: seq<string>, i: nat)
    requires i < |ts|
    ensures StartSeen(ts, i + 1) <==> StartSeen(ts, i) || Contains(ts[i], StartBanner)
  {
    if StartSeen(ts, i + 1) && !Contains(ts[i], StartBanner) {
      var j :| 0 <= j < i + 1 && Contains(ts[j], StartBanner);
      assert j < i;
    }
  }

  /** How `found_marker` evolves from one paragraph to the next. */
  lemma MarkerSeenStep(ts: seq<string>, i: nat)
    requires i < |ts|
    ensures MarkerSeen(ts, i + 1) <==> MarkerSeen(ts, i) || IsSeparatorAt(ts, i)
  {
    if MarkerSeen(ts, i + 1) && !IsSeparatorAt(ts, i) {
      var j :| 0 <= j < i + 1 && IsSeparatorAt(ts, j);
      assert j < i;
    }
  }

  /** One step of the scan in terms of the two flags: how they change on text `i`,
      and whether text `i` is kept. */
  lemma ScanStep(ts: seq<string>, i: nat, foundStart: bool, foundMarker: bool)
    requires i < |ts|
    requires foundStart == StartSeen(ts, i) && foundMarker == MarkerSeen(ts, i)
    ensures var start := foundStart || Contains(ts[i], StartBanner);
      var separator := start && Contains(ts[i], Separator);
      && StartSeen(ts, i + 1) == start
      && MarkerSeen(ts, i + 1) == (foundMarker || separator)
      && EmittedAt(ts, i) == (foundMarker && !separator && !IsExcluded(ts[i]))
  {
    StartSeenStep(ts, i);
    MarkerSeenStep(ts, i);
  }

  /** The scan's state: the two flags and the lines kept so far. */
  datatype ScanState = ScanState(foundStart: bool, foundMarker: bool, lines: seq<string>)

  /** One iteration of the scan on the trimmed text of a paragraph. */
  function Step(st: ScanState, text: string): (r: ScanState)
    ensures r.foundStart <==> st.foundStart || Contains(text, StartBanner)
    ensures st.foundMarker ==> r.foundMarker
    ensures r.lines == st.lines || r.lines == st.lines + [text]
    ensures r.lines != st.lines <==> st.foundMarker && !(r.foundStart && Contains(text, Separator)) && !IsExcluded(text)
  {
    var foundStart := st.foundStart || Contains(text, StartBanner);
    if foundStart && Contains(text, Separator) then
      ScanState(foundStart, true, st.lines)
    else if st.foundMarker && !IsExcluded(text) then
      ScanState(foundStart, st.foundMarker, st.lines + [text])
    else
      ScanState(foundStart, st.foundMarker, st.lines)
  }

  /** The scan's state after the first `n` paragraphs. */
  ghost function Scan(ps: seq<string>, n: nat): ScanState
    requires n <= |ps|
  {
    if n == 0 then ScanState(false, false, []) else Step(Scan(ps, n - 1), Trim(ps[n - 1]))
  }

  /** The scan's state after the first `n` texts as the positional description gives
      it: the flags tell whether the banner and a separator line have been seen, and
      the lines are the kept texts in order. */
  ghost function Described(ts: seq<string>, n: nat): ScanState
    requires n <= |ts|
  {
    ScanState(StartSeen(ts, n), MarkerSeen(ts, n), Pick(ts, Where(n, Emits(ts))))
  }

  /** One step of the scan moves the positional description on by one text. */
  lemma StepDescribes(ps: seq<string>, i: nat)
    requires i < |ps|
    ensures Step(Described(TrimAll(ps), i), Trim(ps[i])) == Described(TrimAll(ps), i + 1)
  {
    var ts := TrimAll(ps);
    assert ts[i] == Trim(ps[i]);
    ScanStep(ts, i, StartSeen(ts, i), MarkerSeen(ts, i));
    PickWhereStep(ts, i, Emits(ts));
  }

  /** The scan's state after `n` paragraphs is the one the positional description gives. */
  lemma {:induction false} ScanMeansPositions(ps: seq<string>, n: nat)
    requires n <= |ps|
    ensures Scan(ps, n) == Described(TrimAll(ps), n)
  {
    if n > 0 {
      ScanMeansPositions(ps, n - 1);
      StepDescribes(ps, n - 1);
    } else {
      DescribedAtStart(TrimAll(ps));
    }
  }

  /** Before the first text nothing has been seen and nothing kept. */
  lemma DescribedAtStart(ts: seq<string>)
    ensures Described(ts, 0) == ScanState(false, false, [])
  {
  }

  /** The whole scan keeps exactly the extracted lines. */
  lemma ScanExtracts(ps: seq<string>)
    ensures Scan(ps, |ps|).lines == Extracted(ps)
  {
    ScanMeansPositions(ps, |ps|);
  }

  /** The scan of `document.paragraphs` with its two flags. */
  method ExtractLines(paragraphs: seq<string>) returns (lines: seq<string>)
    ensures lines == Extracted(paragraphs)
  {
    var foundStart, foundMarker := false, false;
    lines := [];
    for i := 0 to |paragraphs|
      invariant ScanState(foundStart, foundMarker, lines) == Scan(paragraphs, i)
    {
      var text := Trim(paragraphs[i]);
      if Contains(text, StartBanner) {
        foundStart := true;
      }
      if foundStart && Contains(text, Separator) {
        foundMarker := true;
        continue;
      }
      if foundMarker {
        if IsExcluded(text) {
          continue;
        }
        lines := lines + [text];
      }
    }
    ScanExtracts(paragraphs);
  }

  /** `"\n".join(extracted_content)` */
  function CombinedContent(lines: seq<string>): string {
    Join(lines, '\n')
  }

  // Properties of the scan.

  /** Without the start banner no separator is ever recognised and nothing is kept. */
  lemma NoBannerNoLines(ps: seq<string>)
    requires forall i :: 0 <= i < |ps| ==> !Contains(Trim(ps[i]), StartBanner)
    ensures forall n :: 0 <= n <= |ps| ==> !MarkerSeen(TrimAll(ps), n)
    ensures Extracted(ps) == []
  {
    var ts := TrimAll(ps);
    forall n | 0 <= n <= |ps| ensures !MarkerSeen(ts, n) {
      forall j | 0 <= j < n ensures !IsSeparatorAt(ts, j) {
        assert !StartSeen(ts, j + 1);
      }
    }
    WhereNone(|ps|, Emits(ts));
  }

  /** Nothing up to and including the first separator line is kept. */
  lemma NothingThroughFirstSeparator(ps: seq<string>, s: nat)
    requires s < |ps| && IsSeparatorAt(TrimAll(ps), s)
    requires forall j :: 0 <= j < s ==> !IsSeparatorAt(TrimAll(ps), j)
    ensures forall k :: 0 <= k < |EmittedPositions(ps)| ==> EmittedPositions(ps)[k] > s
  {
    var ts, pos := TrimAll(ps), EmittedPositions(ps);
    forall k | 0 <= k < |pos| ensures pos[k] > s {
      assert EmittedAt(ts, pos[k]);
    }
  }

  /** A paragraph that holds the separator after the banner has appeared is never kept,
      however many separators came before it. */
  lemma LaterSeparatorsSkipped(ps: seq<string>, i: nat)
    requires i < |ps| && StartSeen(TrimAll(ps), i + 1) && Contains(Trim(ps[i]), Separator)
    ensures i !in EmittedPositions(ps)
  {
    assert !EmittedAt(TrimAll(ps), i);
  }

  /** The kept lines are the trimmed paragraphs at strictly increasing positions, and
      these positions are exactly the ones the scan keeps. */
  lemma ExtractedIsOrderedSubsequence(ps: seq<string>)
    ensures var pos := EmittedPositions(ps);
      |Extracted(ps)| == |pos| && StrictlyIncreasing(pos)
      && (forall k :: 0 <= k < |pos| ==> pos[k] < |ps| && Extracted(ps)[k] == Trim(ps[pos[k]]))
      && (forall i :: 0 <= i < |ps| ==> (i in pos <==> EmittedAt(TrimAll(ps), i)))
  {
    var ts, pos := TrimAll(ps), EmittedPositions(ps);
    forall i | 0 <= i < |ps| ensures i in pos <==> EmittedAt(ts, i) {
      assert i in pos <==> Emits(ts)(i);
    }
  }

  /** No kept line starts with a noise prefix or holds the separator. */
  lemma ExtractedLinesAreClean(ps: seq<string>)
    ensures forall k :: 0 <= k < |Extracted(ps)| ==>
      !IsExcluded(Extracted(ps)[k]) && !Contains(Extracted(ps)[k], Separator)
  {
    var ts, pos, out := TrimAll(ps), EmittedPositions(ps), Extracted(ps);
    forall k | 0 <= k < |out|
      ensures !IsExcluded(out[k]) && !Contains(out[k], Separator)
    {
      var i := pos[k];
      assert out[k] == ts[i];
      assert Emits(ts)(i);
      var j :| 0 <= j < i && IsSeparatorAt(ts, j);
      var b :| 0 <= b < j + 1 && Contains(ts[b], StartBanner);
      assert StartSeen(ts, i + 1);
    }
  }

  /** Splitting the combined text on line breaks gives the kept lines back, when no
      paragraph holds a line break and at least one line was kept. */
  lemma CombinedContentSplits(ps: seq<string>)
    requires forall i :: 0 <= i < |ps| ==> '\n' !in ps[i]
    requires Extracted(ps) != []
    ensures Split(CombinedContent(Extracted(ps)), '\n') == Extracted(ps)
  {
    var pos, out := EmittedPositions(ps), Extracted(ps);
    forall k | 0 <= k < |out| ensures '\n' !in out[k] {
      TrimKeepsOut(ps[pos[k]], '\n');
    }
    SplitJoin(out, '\n');
  }
}
