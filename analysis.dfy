/** `displayGPTAnalysis` (static/js/app.js): the analysis text split into lines, blank
    lines dropped, each remaining line a heading when it starts with digits and a dot, a
    paragraph otherwise. */
module Analysis {
  import opened Common
  import opened JsText

  /** One structural block of the rendered analysis. */
  datatype Block = Heading(line: string) | Paragraph(line: string)

  /** The notice shown when there is no analysis text. */
  const FallbackHtml: string := "<p style='color:red;'>無法取得GPT分析結果</p>"

  /** How many digits `s` starts with. */
  function LeadingDigits(s: string): (n: nat)
    ensures n <= |s|
    ensures forall i :: 0 <= i < n ==> IsDigit(s[i])
    ensures n == |s| || !IsDigit(s[n])
  {
    if s != [] && IsDigit(s[0]) then 1 + LeadingDigits(s[1..]) else 0
  }

  /** `/^\d+\./.test(line)`, computed by reading the run of leading digits. */
  predicate IsHeadingLine(line: string) {
    var n := LeadingDigits(line);
    1 <= n < |line| && line[n] == '.'
  }

  /** The computed test agrees with the pattern: one or more digits, then a dot. */
  lemma HeadingIffPattern(line: string)
    ensures IsHeadingLine(line) <==>
      exists k :: 1 <= k < |line| && Digits(line[..k]) && line[k] == '.'
  {
    var n := LeadingDigits(line);
    if IsHeadingLine(line) {
      assert Digits(line[..n]);
    }
    forall k | 1 <= k < |line| && Digits(line[..k]) && line[k] == '.'
      ensures IsHeadingLine(line)
    {
      assert !IsDigit(line[k]);
    }
  }

  /** The `map` step. */
  function Classify(line: string): (b: Block)
    ensures b.line == line
    ensures b.Heading? <==> IsHeadingLine(line)
  {
    if IsHeadingLine(line) then Heading(line) else Paragraph(line)
  }

  /** The `filter` test `line.trim() !== ''` (see KeptIffTrimmedNonEmpty). */
  predicate Kept(line: string) {
    !IsBlank(line)
  }

  /** Kept is exactly the JavaScript test on the trimmed line. */
  lemma KeptIffTrimmedNonEmpty(line: string)
    ensures Kept(line) <==> Trim(line) != ""
  {
    TrimEmptyIffBlank(line);
  }

  /** The `filter` step over `lines[from..]`. */
  function KeptLines(lines: seq<string>, from: nat): seq<string>
    requires from <= |lines|
    decreases |lines| - from
  {
    if from == |lines| then []
    else if Kept(lines[from]) then [lines[from]] + KeptLines(lines, from + 1)
    else KeptLines(lines, from + 1)
  }

  /** The indices of the lines the filter keeps, in order. */
  function KeptIndices(lines: seq<string>, from: nat): seq<nat>
    requires from <= |lines|
    decreases |lines| - from
  {
    if from == |lines| then []
    else if Kept(lines[from]) then [from] + KeptIndices(lines, from + 1)
    else KeptIndices(lines, from + 1)
  }

  /** The filter keeps the lines at the kept indices, in that order. */
  lemma {:induction false} KeptLinesAt(lines: seq<string>, from: nat)
    requires from <= |lines|
    ensures |KeptLines(lines, from)| == |KeptIndices(lines, from)|
    ensures forall k :: 0 <= k < |KeptIndices(lines, from)| ==>
      from <= KeptIndices(lines, from)[k] < |lines|
      && KeptLines(lines, from)[k] == lines[KeptIndices(lines, from)[k]]
    decreases |lines| - from
  {
    if from < |lines| {
      KeptLinesAt(lines, from + 1);
    }
  }

  /** The kept indices increase strictly: the filter preserves the original order. */
  lemma {:induction false} KeptIndicesIncreasing(lines: seq<string>, from: nat)
    requires from <= |lines|
    ensures forall k :: 0 <= k < |KeptIndices(lines, from)| ==> from <= KeptIndices(lines, from)[k]
    ensures forall k, l :: 0 <= k < l < |KeptIndices(lines, from)| ==>
      KeptIndices(lines, from)[k] < KeptIndices(lines, from)[l]
    decreases |lines| - from
  {
    if from < |lines| {
      KeptIndicesIncreasing(lines, from + 1);
    }
  }

  /** An index is kept exactly when its line is not blank. */
  lemma {:induction false} KeptIndicesMembership(lines: seq<string>, from: nat, j: nat)
    requires from <= j < |lines|
    ensures j in KeptIndices(lines, from) <==> !IsBlank(lines[j])
    decreases |lines| - from
  {
    KeptIndicesIncreasing(lines, from + 1);
    if from < j {
      KeptIndicesMembership(lines, from + 1, j);
    }
  }

  /** The `map` over the kept lines. */
  function ClassifyAll(lines: seq<string>): (blocks: seq<Block>)
    ensures |blocks| == |lines|
    ensures forall k :: 0 <= k < |lines| ==> blocks[k] == Classify(lines[k])
  {
    if lines == [] then [] else [Classify(lines[0])] + ClassifyAll(lines[1..])
  }

  /** The blocks the analysis text turns into. */
  function AnalysisBlocks(analysis: string): seq<Block> {
    ClassifyAll(KeptLines(Split(analysis, '\n'), 0))
  }

  /** One block per non-blank line, in order, a heading exactly when its line matches
      `^\d+\.`; the lines are the pieces between newlines of the original text. */
  lemma AnalysisBlocksSpec(analysis: string)
    ensures var lines := Split(analysis, '\n');
      var idx := KeptIndices(lines, 0);
      var blocks := AnalysisBlocks(analysis);
      && Join(lines, '\n') == analysis
      && |blocks| == |idx|
      && (forall k :: 0 <= k < |idx| ==>
            idx[k] < |lines| && blocks[k].line == lines[idx[k]]
            && (blocks[k].Heading? <==> IsHeadingLine(lines[idx[k]])))
      && (forall k, l :: 0 <= k < l < |idx| ==> idx[k] < idx[l])
      && (forall j :: 0 <= j < |lines| ==> (j in idx <==> !IsBlank(lines[j])))
  {
    var lines := Split(analysis, '\n');
    JoinSplit(analysis, '\n');
    KeptLinesAt(lines, 0);
    KeptIndicesIncreasing(lines, 0);
    forall j | 0 <= j < |lines| ensures j in KeptIndices(lines, 0) <==> !IsBlank(lines[j]) {
      KeptIndicesMembership(lines, 0, j);
    }
  }

  function BlockHtml(b: Block): string {
    match b
    case Heading(line) => "<h4 class=\"analysis-title\">" + line + "</h4>"
    case Paragraph(line) => "<p>" + line + "</p>"
  }

  /** The `join('')` step. */
  function JoinBlocks(blocks: seq<Block>): string {
    if blocks == [] then "" else BlockHtml(blocks[0]) + JoinBlocks(blocks[1..])
  }

  /** The content `displayGPTAnalysis` puts in the analysis region: the fallback notice
      when the text is absent or empty (both falsy), the wrapped blocks otherwise. */
  function AnalysisHtml(analysis: Option<string>): string
  {
    if analysis.None? || analysis.value == "" then FallbackHtml
    else
      "\n            <div class=\"gpt-analysis-content\">\n                "
      + JoinBlocks(AnalysisBlocks(analysis.value))
      + "\n            </div>\n        "
  }

  /** The fallback notice appears exactly when the text is absent or empty: any other
      text, even one without a single kept line, renders the wrapper. */
  lemma FallbackIffAbsent(analysis: Option<string>)
    ensures AnalysisHtml(analysis) == FallbackHtml <==> analysis == None || analysis == Some("")
  {
    if analysis.Some? && analysis.value != "" {
      var html := AnalysisHtml(analysis);
      assert html[|html| - 1] == ' ';
      assert FallbackHtml[|FallbackHtml| - 1] == '>';
    }
  }

  /** Every piece of a blank text is blank. */
  lemma {:induction false} SplitBlankPieces(s: string)
    requires IsBlank(s)
    ensures forall j :: 0 <= j < |Split(s, '\n')| ==> IsBlank(Split(s, '\n')[j])
  {
    if s != [] {
      SplitBlankPieces(s[1..]);
      var rest := Split(s[1..], '\n');
      if s[0] != '\n' {
        var first := [s[0]] + rest[0];
        assert forall i :: 0 <= i < |first| ==> IsWhite(first[i]) by {
          assert forall i :: 1 <= i < |first| ==> first[i] == rest[0][i - 1];
        }
        assert forall j :: 1 <= j < |Split(s, '\n')| ==> Split(s, '\n')[j] == rest[j];
      }
    }
  }

  /** The filter keeps nothing of lines that are all blank. */
  lemma {:induction false} KeptNoneOfBlank(lines: seq<string>, from: nat)
    requires from <= |lines|
    requires forall j :: from <= j < |lines| ==> IsBlank(lines[j])
    ensures KeptLines(lines, from) == []
    decreases |lines| - from
  {
    if from < |lines| {
      KeptNoneOfBlank(lines, from + 1);
    }
  }

  /** Non-empty text made only of white space and line breaks is truthy, so it is not the
      fallback: it renders an empty container. */
  lemma BlankTextIsNotFallback(analysis: string)
    requires analysis != "" && IsBlank(analysis)
    ensures AnalysisBlocks(analysis) == []
    ensures AnalysisHtml(Some(analysis)) != FallbackHtml
  {
    SplitBlankPieces(analysis);
    KeptNoneOfBlank(Split(analysis, '\n'), 0);
  }
}
