/**
 Whole-application consequences of the model, across the analyzer and the
 three views that read its result, and a few concrete texts: single lines
 that each rule table flags, and the python sample of
 src/services/mockData.ts.
 */
module Scenarios {
  import opened Types
  import opened Text
  import opened Catalog
  import opened Analyzer
  import opened Summary
  import opened CodeEditor
  import opened AnalysisPanel

  /** A blank text scores 100, reads 'Excellent', and leaves the panel's tab alone. */
  lemma BlankTextIsExcellent(code: string, language: Language, rx: Regexes, active: Tab)
    requires IsBlank(code)
    ensures QualityScore(Analyze(code, language, rx)) == 100
    ensures QualityLabel(Analyze(code, language, rx)) == Excellent
    ensures OnAnalysis(active, Some(Analyze(code, language, rx))) == active
  {
  }

  /** JavaScript and TypeScript texts are never rated 'Needs Work', and their
      analyses never move the panel to the errors tab. */
  lemma WebLanguagesNeverNeedWork(code: string, language: Language, rx: Regexes, active: Tab)
    requires language == JavaScript || language == TypeScript
    ensures QualityLabel(Analyze(code, language, rx)) != NeedsWork
    ensures OnAnalysis(active, Some(Analyze(code, language, rx))) == ErrorsTab ==> active == ErrorsTab
  {
    WebLanguagesNoErrors(code, language, rx);
  }

  /** A java text holding `!= null` anywhere is never rated 'Needs Work'. */
  lemma GuardedJavaNeverNeedsWork(code: string, rx: Regexes)
    requires HasNullCheck(code)
    ensures QualityLabel(Analyze(code, Java, rx)) != NeedsWork
  {
    JavaNullGuard(code, rx);
  }

  /** For a text of at most 100 lines the editor marks every issue of its
      analysis, errors first, nothing dropped. */
  lemma EditorShowsEveryIssue(code: string, language: Language, rx: Regexes)
    requires |Split(code)| <= MaxGutterLines
    ensures IssueLines(Some(Analyze(code, language, rx)), MaxLines(code))
      == Analyze(code, language, rx).errors + Analyze(code, language, rx).optimizations
  {
    AnalyzePartition(code, language, rx);
    ShortTextShowsEverything(code, Analyze(code, language, rx));
  }

  /** A text without line feeds is a single line. */
  lemma OneLine(c: string)
    requires '\n' !in c
    ensures Split(c) == [c]
  {
    SplitJoin([c]);
  }

  /** A text starting with a visible character is not blank. */
  lemma NotBlank(c: string)
    requires |c| > 0 && !IsJsWhitespace(c[0])
    ensures !IsBlank(c)
  {
  }

  /** One non-blank line outside the python heuristic: the rule loop on that
      line alone. */
  lemma OneLineAnalysis(line: string, language: Language, rx: Regexes)
    requires Split(line) == [line] && !IsBlank(line)
    requires !(language == Python && rx.nestedLoop(line))
    ensures Analyze(line, language, rx) == Scan(RulesFor(language, rx), [line], HasNullCheck(line))
  {
  }

  /** A rule on a single line: one issue on line 1 when it fires, none otherwise. */
  lemma RuleOnOneLine(rule: Rule, line: string, guarded: bool)
    ensures RuleIssues(rule, [line], guarded, 0) == if Fires(rule, line, guarded) then [IssueFor(rule, 1)] else []
  {
    assert [line][1..] == [];
  }

  /** A two-rule table is the first rule's issues merged with the second's. */
  lemma ScanPair(rules: seq<Rule>, lines: seq<string>, guarded: bool)
    requires |rules| == 2
    ensures Scan(rules, lines, guarded)
      == Merge(Filed(rules[0].kind, RuleIssues(rules[0], lines, guarded, 0)),
               Filed(rules[1].kind, RuleIssues(rules[1], lines, guarded, 0)))
  {
    assert rules[1..][1..] == [];
    var last := Filed(rules[1].kind, RuleIssues(rules[1], lines, guarded, 0));
    assert Scan(rules[1..], lines, guarded) == Merge(last, NoIssues);
    assert Merge(last, NoIssues) == last;
  }

  /** A three-rule table, likewise. */
  lemma ScanTriple(rules: seq<Rule>, lines: seq<string>, guarded: bool)
    requires |rules| == 3
    ensures Scan(rules, lines, guarded)
      == Merge(Filed(rules[0].kind, RuleIssues(rules[0], lines, guarded, 0)),
               Merge(Filed(rules[1].kind, RuleIssues(rules[1], lines, guarded, 0)),
                     Filed(rules[2].kind, RuleIssues(rules[2], lines, guarded, 0))))
  {
    ScanPair(rules[1..], lines, guarded);
  }

  /** Python: a single line on which only the division expression answers yes
      is one high-severity error on line 1 and nothing else. */
  lemma LoneDivision(line: string, rx: Regexes)
    requires Split(line) == [line] && !IsBlank(line)
    requires rx.returnDivision(line) && !rx.rangeLenLoop(line)
    requires !rx.selfAddition(line) && !rx.nestedLoop(line)
    ensures Analyze(line, Python, rx)
      == AnalysisResult([Issue(Error, 1, None, DivisionMessage, Some(DivisionSuggestion), High)], [])
  {
    OneLineAnalysis(line, Python, rx);
    var rules := PythonRules(rx);
    var g := HasNullCheck(line);
    ScanTriple(rules, [line], g);
    RuleOnOneLine(rules[0], line, g);
    RuleOnOneLine(rules[1], line, g);
    RuleOnOneLine(rules[2], line, g);
  }

  const DivisionLine := "return a / b"

  /** ... as `return a / b` shows, given what the expressions answer on it. */
  lemma DivisionFlagged(rx: Regexes)
    requires rx.returnDivision(DivisionLine) && !rx.rangeLenLoop(DivisionLine)
    requires !rx.selfAddition(DivisionLine) && !rx.nestedLoop(DivisionLine)
    ensures Analyze(DivisionLine, Python, rx)
      == AnalysisResult([Issue(Error, 1, None, DivisionMessage, Some(DivisionSuggestion), High)], [])
  {
    NotBlank(DivisionLine);
    OneLine(DivisionLine);
    LoneDivision(DivisionLine, rx);
  }

  /** JavaScript: a single line with a DOM lookup and no indexed loop is one
      medium-severity optimization on line 1 and nothing else. */
  lemma LoneDomLookup(line: string, rx: Regexes)
    requires Split(line) == [line] && !IsBlank(line)
    requires DomLookup(line) && !rx.indexedFor(line)
    ensures Analyze(line, JavaScript, rx)
      == AnalysisResult([], [Issue(Optimization, 1, None, DomCacheMessage, Some(DomCacheSuggestion), Medium)])
  {
    OneLineAnalysis(line, JavaScript, rx);
    var rules := JavaScriptRules(rx);
    var g := HasNullCheck(line);
    ScanPair(rules, [line], g);
    RuleOnOneLine(rules[0], line, g);
    RuleOnOneLine(rules[1], line, g);
  }

  const DomLine := "document.getElementById('out')"

  /** ... as `document.getElementById('out')` shows. */
  lemma DomLookupFlagged(rx: Regexes)
    requires !rx.indexedFor(DomLine)
    ensures Analyze(DomLine, JavaScript, rx)
      == AnalysisResult([], [Issue(Optimization, 1, None, DomCacheMessage, Some(DomCacheSuggestion), Medium)])
  {
    DomLineFacts();
    LoneDomLookup(DomLine, rx);
  }

  lemma DomLineFacts()
    ensures Split(DomLine) == [DomLine] && !IsBlank(DomLine) && DomLookup(DomLine)
  {
    ContainsAt(DomLine, "document.getElementById", 0);
    NotBlank(DomLine);
    OneLine(DomLine);
  }

  /** TypeScript: a single line mentioning `any` and no guarded chain is one
      high-severity optimization on line 1 and nothing else. */
  lemma LoneAnyType(line: string, rx: Regexes)
    requires Split(line) == [line] && !IsBlank(line)
    requires MentionsAny(line) && !rx.chainedGuard(line)
    ensures Analyze(line, TypeScript, rx)
      == AnalysisResult([], [Issue(Optimization, 1, None, AnyTypeMessage, Some(AnyTypeSuggestion), High)])
  {
    OneLineAnalysis(line, TypeScript, rx);
    var rules := TypeScriptRules(rx);
    var g := HasNullCheck(line);
    ScanPair(rules, [line], g);
    RuleOnOneLine(rules[0], line, g);
    RuleOnOneLine(rules[1], line, g);
  }

  const AnyLine := "let x: any = 5;"

  /** ... as `let x: any = 5;` shows. */
  lemma AnyTypeFlagged(rx: Regexes)
    requires !rx.chainedGuard(AnyLine)
    ensures Analyze(AnyLine, TypeScript, rx)
      == AnalysisResult([], [Issue(Optimization, 1, None, AnyTypeMessage, Some(AnyTypeSuggestion), High)])
  {
    AnyLineFacts();
    LoneAnyType(AnyLine, rx);
  }

  lemma AnyLineFacts()
    ensures Split(AnyLine) == [AnyLine] && !IsBlank(AnyLine) && MentionsAny(AnyLine)
  {
    ContainsAt(AnyLine, "any", 7);
    NotBlank(AnyLine);
    OneLine(AnyLine);
  }

  const UnguardedLength := "return text.length();"
  const GuardedLength := "if (s != null) return s.length();"

  /** The unguarded line holds no `!= null` ... */
  lemma UnguardedLacksGuard()
    ensures !HasNullCheck(UnguardedLength)
  {
    MissingCharExcludes(UnguardedLength, NullGuard, '!');
  }

  /** ... is a single line ... */
  lemma UnguardedIsOneLine()
    ensures Split(UnguardedLength) == [UnguardedLength]
  {
    OneLine(UnguardedLength);
  }

  /** ... and calls `.length()`. */
  lemma UnguardedCallsLength()
    ensures LengthCall(UnguardedLength)
  {
    assert UnguardedLength[11..][..|LengthCallText|] == UnguardedLength[11..20];
    assert UnguardedLength[11..20] == LengthCallText;
    LengthCallFromOffset(UnguardedLength, 10);
  }

  /** The guarded line holds `!= null`. */
  lemma GuardedLineFacts()
    ensures HasNullCheck(GuardedLength)
  {
    assert GuardedLength[..13] == "if (s != null";
    assert GuardedLength[6..13] == GuardedLength[..13][6..];
    ContainsAt(GuardedLength, NullGuard, 6);
  }

  /** Java, whatever the other expressions answer: a single line with a length
      call and no `!= null` is one high-severity error on line 1 ... */
  lemma LoneLengthCall(line: string, rx: Regexes)
    requires Split(line) == [line] && !IsBlank(line)
    requires LengthCall(line) && !HasNullCheck(line)
    ensures Analyze(line, Java, rx).errors
      == [Issue(Error, 1, None, NullCheckMessage, Some(NullCheckSuggestion), High)]
  {
    JavaErrorsAreLengthCalls(line, rx);
    RuleOnOneLine(JavaRules(rx)[1], line, false);
  }

  /** ... as `return text.length();` shows ... */
  lemma LengthCallFlagged(rx: Regexes)
    ensures Analyze(UnguardedLength, Java, rx).errors
      == [Issue(Error, 1, None, NullCheckMessage, Some(NullCheckSuggestion), High)]
  {
    NotBlank(UnguardedLength);
    UnguardedLacksGuard();
    UnguardedCallsLength();
    UnguardedIsOneLine();
    LoneLengthCall(UnguardedLength, rx);
  }

  /** ... and the same call behind `!= null` is none. */
  lemma GuardedLengthCallSilent(rx: Regexes)
    ensures Analyze(GuardedLength, Java, rx).errors == []
  {
    GuardedLineFacts();
    JavaNullGuard(GuardedLength, rx);
  }

  /** The java table's own advice is not flagged by the rule that gives it:
      `new ArrayList<>(initialCapacity)` has no word character between `<`
      and `>`. */
  lemma CapacitySuggestionNotFlagged()
    ensures !NewArrayList(CapacitySuggestion)
  {
    var s := CapacitySuggestion;
    NewArrayListAt(s);
    forall i, j | ArrayListAt(s, i, j)
      ensures false
    {
      assert s[i..][..|ArrayListOpen|][0] == 'n';
      CapacitySuggestionOpening(i);
    }
  }

  /** `new ArrayList<` can only start the suggestion at offset 0, and it is
      followed by `>`. */
  lemma CapacitySuggestionOpening(i: int)
    requires 0 <= i <= 14 && CapacitySuggestion[i] == 'n'
    ensures i == 0 && !IsWordChar(CapacitySuggestion[14])
  {
  }

  /** The python sample the application loads, line by line. */
  const PythonSampleLines: seq<string> := [
    "def process_data(items):",
    "    result = []",
    "    for i in range(len(items)):",
    "        try:",
    "            value = items[i] * 2",
    "            result.append(value)",
    "        except:",
    "            pass",
    "    return result",
    "",
    "# Inefficient duplicate check",
    "def has_duplicates(lst):",
    "    for i in range(len(lst)):",
    "        for j in range(len(lst)):",
    "            if i != j and lst[i] == lst[j]:",
    "                return True",
    "    return False"]

  const PythonSample := JoinLines(PythonSampleLines)

  // No line of the sample holds a line feed: lines 1-4, 5-8, 9-12, 13-15 and 16-17.
  lemma PythonSampleNoBreaks0()
    ensures forall k :: 0 <= k < 4 ==> '\n' !in PythonSampleLines[k]
  {
  }

  lemma PythonSampleNoBreaks1()
    ensures forall k :: 4 <= k < 8 ==> '\n' !in PythonSampleLines[k]
  {
  }

  lemma PythonSampleNoBreaks2()
    ensures forall k :: 8 <= k < 12 ==> '\n' !in PythonSampleLines[k]
  {
  }

  lemma PythonSampleNoBreaks3()
    ensures forall k :: 12 <= k < 15 ==> '\n' !in PythonSampleLines[k]
  {
  }

  lemma PythonSampleNoBreaks4()
    ensures forall k :: 15 <= k < 17 ==> '\n' !in PythonSampleLines[k]
  {
  }


  /** The sample splits back into its lines. */
  lemma PythonSampleSplits()
    ensures Split(PythonSample) == PythonSampleLines
  {
    PythonSampleNoBreaks0();
    PythonSampleNoBreaks1();
    PythonSampleNoBreaks2();
    PythonSampleNoBreaks3();
    PythonSampleNoBreaks4();
    SplitJoin(PythonSampleLines);
  }

  /** The sample is not blank. */
  lemma PythonSampleNotBlank()
    ensures !IsBlank(PythonSample)
  {
    assert PythonSample[0] == 'd';
  }

  /** The first line containing `for i in range(len(` is line 3 (index 2). */
  lemma PythonSampleAnchor()
    ensures FindIndex(PythonSampleLines, NestedLoopAnchor) == 2
  {
    PythonSampleOpening();
    PythonSampleFirstLoop();
    var i := FindIndex(PythonSampleLines, NestedLoopAnchor);
    assert i != -1;
    assert i <= 2;
  }

  lemma PythonSampleOpening()
    ensures !Contains(PythonSampleLines[0], NestedLoopAnchor)
    ensures !Contains(PythonSampleLines[1], NestedLoopAnchor)
  {
    PythonSampleLineLacksAnchor(0);
    PythonSampleLineLacksAnchor(1);
  }

  lemma PythonSampleLineLacksAnchor(k: nat)
    requires k < 2
    ensures !Contains(PythonSampleLines[k], NestedLoopAnchor)
  {
    var line := PythonSampleLines[k];
    assert 'g' !in line;
    MissingCharExcludes(line, NestedLoopAnchor, 'g');
  }

  lemma PythonSampleFirstLoop()
    ensures Contains(PythonSampleLines[2], NestedLoopAnchor)
  {
    var line := PythonSampleLines[2];
    assert line[..23] == "    for i in range(len(";
    assert line[4..23] == line[..23][4..];
    ContainsAt(line, NestedLoopAnchor, 4);
  }

  /** Lines 13 and 14 hold the nested loops over the same list. */
  lemma PythonSampleNestedLoops()
    ensures Contains(PythonSampleLines[12], "for i in range(len(lst)):")
    ensures Contains(PythonSampleLines[13], "for j in range(len(lst)):")
  {
    PythonSampleOuterLoop();
    PythonSampleInnerLoop();
  }

  lemma PythonSampleOuterLoop()
    ensures Contains(PythonSampleLines[12], "for i in range(len(lst)):")
  {
    var line := PythonSampleLines[12];
    assert line[4..] == "for i in range(len(lst)):";
    ContainsAt(line, "for i in range(len(lst)):", 4);
  }

  lemma PythonSampleInnerLoop()
    ensures Contains(PythonSampleLines[13], "for j in range(len(lst)):")
  {
    var line := PythonSampleLines[13];
    assert line[8..] == "for j in range(len(lst)):";
    ContainsAt(line, "for j in range(len(lst)):", 8);
  }

  /** The synthetic issue of a python text names the line after the first
      anchor line. */
  lemma NestedLoopOnAnchorLine(code: string, rx: Regexes, n: int) returns (x: Issue)
    requires !IsBlank(code) && rx.nestedLoop(code)
    requires FindIndex(Split(code), NestedLoopAnchor) == n
    ensures x in Analyze(code, Python, rx).optimizations
    ensures x.message == NestedLoopMessage && x.line == n + 1
  {
    x := NestedLoopIssueLine(code, rx);
  }

  /** Where the sample's nested-loop issue points. The nested loops are lines
      13 and 14, but the line is chosen by the first line containing
      `for i in range(len(`, which is the unrelated single loop on line 3. */
  lemma PythonSampleNestedLoopLine(rx: Regexes) returns (x: Issue)
    requires rx.nestedLoop(PythonSample)
    ensures x in Analyze(PythonSample, Python, rx).optimizations
    ensures x.message == NestedLoopMessage && x.line == 3
    ensures Split(PythonSample) == PythonSampleLines
    ensures Contains(PythonSampleLines[12], "for i in range(len(lst)):")
    ensures Contains(PythonSampleLines[13], "for j in range(len(lst)):")
  {
    PythonSampleAnchorLine();
    PythonSampleNotBlank();
    x := NestedLoopOnAnchorLine(PythonSample, rx, 2);
    PythonSampleSplits();
    PythonSampleNestedLoops();
  }

  lemma PythonSampleAnchorLine()
    ensures FindIndex(Split(PythonSample), NestedLoopAnchor) == 2
  {
    PythonSampleSplits();
    PythonSampleAnchor();
  }

  /** The sample's 17 lines leave the gutter at its minimum of 20 numbers. */
  lemma PythonSampleGutter()
    ensures |Split(PythonSample)| == 17
    ensures MaxLines(PythonSample) == MinGutterLines
  {
    PythonSampleSplits();
  }
}
