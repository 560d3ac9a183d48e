/**
 The two computations of the code editor that are not rendering
 (src/components/CodeEditor/CodeEditor.tsx:34-57): the line-number gutter,
 at least 20 and at most 100 numbers, and the issues whose markers fit in it.
 */
module CodeEditor {
  import opened Types
  import opened Text

  /** The gutter never shows fewer numbers than this ... */
  const MinGutterLines := 20
  /** ... nor more than this. */
  const MaxGutterLines := 100

  /** `lineCount`: the number of lines of the text, but at least 20. */
  function LineCount(code: string): (n: nat)
    ensures n >= MinGutterLines && n >= |Split(code)|
    ensures n == MinGutterLines || n == |Split(code)|
  {
    var count := |Split(code)|;
    if count > MinGutterLines then count else MinGutterLines
  }

  /** `maxLines`: the line count capped at 100. */
  function MaxLines(code: string): (m: nat)
    ensures MinGutterLines <= m <= MaxGutterLines
    ensures m <= LineCount(code)
    ensures m == LineCount(code) || m == MaxGutterLines
  {
    var count := LineCount(code);
    if count < MaxGutterLines then count else MaxGutterLines
  }

  /** `Array.from({ length: m }, (_, i) => i + 1)`, each number rendered in decimal. */
  function GutterNumbers(m: nat): (numbers: seq<string>)
    ensures |numbers| == m
    ensures forall i :: 0 <= i < m ==> numbers[i] == Decimal(i + 1)
    decreases m
  {
    if m == 0 then [] else GutterNumbers(m - 1) + [Decimal(m)]
  }

  /** `lineNumbersText`: those numbers joined by line feeds. */
  function LineNumbersText(code: string): string
  {
    JoinLines(GutterNumbers(MaxLines(code)))
  }

  /** The gutter text has exactly `maxLines` entries, and entry `i` is the
      number `i + 1` written as JavaScript writes it: it reads as `i + 1` and
      has no leading zero, which by `DecimalUnique` leaves one numeral. */
  lemma GutterText(code: string)
    ensures |Split(LineNumbersText(code))| == MaxLines(code)
    ensures forall i :: 0 <= i < MaxLines(code) ==> ParseDecimal(Split(LineNumbersText(code))[i]) == i + 1
    ensures forall i :: 0 <= i < MaxLines(code) ==>
      IsCanonicalDecimal(Split(LineNumbersText(code))[i]) && Split(LineNumbersText(code))[i][0] != '0'
  {
    var numbers := GutterNumbers(MaxLines(code));
    forall k | 0 <= k < |numbers|
      ensures '\n' !in numbers[k]
    {
      assert forall c :: 0 <= c < |numbers[k]| ==> '0' <= numbers[k][c] <= '9';
    }
    SplitJoin(numbers);
    forall i | 0 <= i < |numbers|
      ensures ParseDecimal(numbers[i]) == i + 1 && IsCanonicalDecimal(numbers[i]) && numbers[i][0] != '0'
    {
      DecimalRoundTrip(i + 1);
    }
  }

  /** The `filter`: the issues whose line is at most `maxLines`, in order. */
  function KeepUpTo(issues: seq<Issue>, maxLines: int): (kept: seq<Issue>)
    ensures |kept| <= |issues|
    ensures forall x :: x in kept ==> x in issues && x.line <= maxLines
    ensures forall x :: x in issues && x.line <= maxLines ==> x in kept
    decreases |issues|
  {
    if |issues| == 0 then []
    else
      var rest := KeepUpTo(issues[1..], maxLines);
      assert forall x :: x in issues ==> x == issues[0] || x in issues[1..];
      if issues[0].line <= maxLines then [issues[0]] + rest else rest
  }

  /** The filter keeps order: filtering two runs back to back is filtering each. */
  lemma {:induction false} KeepUpToAppend(a: seq<Issue>, b: seq<Issue>, maxLines: int)
    ensures KeepUpTo(a + b, maxLines) == KeepUpTo(a, maxLines) + KeepUpTo(b, maxLines)
    decreases |a|
  {
    if |a| == 0 {
      assert a + b == b;
    } else {
      assert (a + b)[1..] == a[1..] + b;
      assert (a + b)[0] == a[0];
      KeepUpToAppend(a[1..], b, maxLines);
    }
  }

  /** When every issue fits, nothing is dropped. */
  lemma {:induction false} KeepUpToAllFit(issues: seq<Issue>, maxLines: int)
    requires forall k :: 0 <= k < |issues| ==> issues[k].line <= maxLines
    ensures KeepUpTo(issues, maxLines) == issues
    decreases |issues|
  {
    if |issues| > 0 {
      KeepUpToAllFit(issues[1..], maxLines);
    }
  }

  /** `issueLines`: nothing without an analysis; otherwise the errors, then the
      optimizations, that fit in the gutter. */
  function IssueLines(analysis: Option<AnalysisResult>, maxLines: int): (shown: seq<Issue>)
    ensures analysis.None? ==> shown == []
    ensures analysis.Some? ==> forall x :: x in shown ==>
      x.line <= maxLines && x in analysis.value.errors + analysis.value.optimizations
    ensures analysis.Some? ==> forall x :: x in analysis.value.errors + analysis.value.optimizations && x.line <= maxLines ==>
      x in shown
  {
    match analysis
    case None => []
    case Some(a) => KeepUpTo(a.errors + a.optimizations, maxLines)
  }

  /** Markers never go missing for an analysis of at most 100 lines: every
      issue whose line is within the text is shown, errors before
      optimizations. */
  lemma ShortTextShowsEverything(code: string, a: AnalysisResult)
    requires |Split(code)| <= MaxGutterLines
    requires forall x :: x in a.errors + a.optimizations ==> x.line <= |Split(code)|
    ensures IssueLines(Some(a), MaxLines(code)) == a.errors + a.optimizations
  {
    var all := a.errors + a.optimizations;
    assert forall k :: 0 <= k < |all| ==> all[k] in all;
    KeepUpToAllFit(all, MaxLines(code));
  }
}
