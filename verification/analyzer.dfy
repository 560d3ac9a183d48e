/**
 `CodeAnalyzer.analyze` (src/services/analyzer.ts:98-157) without its
 simulated delay: a blank text gives no issues; otherwise every rule of the
 language's table is tried on every line (rules outer, lines inner), each hit
 becomes an issue filed by the rule's type, the java length-call rule stays
 silent when the text already contains `!= null`, and for python one extra
 O(n²) issue is appended when the whole-text nested-loop expression matches.
 */
module Analyzer {
  import opened Types
  import opened Text
  import opened Catalog

  /** The phrase whose presence anywhere silences a rule flagged `requiresNoNullCheck`. */
  const NullGuard := "!= null"

  /** The literal the synthetic nested-loop issue looks for to pick its line. */
  const NestedLoopAnchor := "for i in range(len("

  const NestedLoopMessage := "O(n\U{00B2}) complexity - Consider using a set for O(n) duplicate detection"
  const NestedLoopSuggestion := "return len(lst) != len(set(lst))"

  /** The whole text holds the guard phrase. */
  predicate HasNullCheck(code: string)
  {
    Contains(code, NullGuard)
  }

  /** The rule's hits are all dropped: it is flagged and the guard phrase is present. */
  predicate Suppressed(rule: Rule, guarded: bool)
  {
    rule.requiresNoNullCheck && guarded
  }

  /** The rule raises an issue on this line, given whether the text holds the guard phrase. */
  predicate Fires(rule: Rule, line: string, guarded: bool)
  {
    rule.matches(line) && !Suppressed(rule, guarded)
  }

  /** The issue a rule raises on a 1-based line: its fields copied, no column. */
  function IssueFor(rule: Rule, line: int): Issue
  {
    Issue(rule.kind, line, None, rule.message, Some(rule.suggestion), rule.severity)
  }

  /** The synthetic issue of the python nested-loop heuristic. */
  function NestedLoopIssue(line: int): Issue
  {
    Issue(Optimization, line, None, NestedLoopMessage, Some(NestedLoopSuggestion), High)
  }

  /** The inner loop for one rule: the issues it raises on `lines`, whose first
      element is line `base + 1`. */
  function RuleIssues(rule: Rule, lines: seq<string>, guarded: bool, base: nat): (issues: seq<Issue>)
    ensures |issues| <= |lines|
    ensures forall j :: 0 <= j < |issues| ==> base < issues[j].line <= base + |lines|
    ensures forall j :: 0 <= j < |issues| ==> issues[j] == IssueFor(rule, issues[j].line)
    decreases |lines|
  {
    if |lines| == 0 then []
    else
      var rest := RuleIssues(rule, lines[1..], guarded, base + 1);
      if Fires(rule, lines[0], guarded) then [IssueFor(rule, base + 1)] + rest else rest
  }

  /** Every issue of the inner loop sits on a line its rule fires on. */
  lemma {:induction false} RuleIssuesSound(rule: Rule, lines: seq<string>, guarded: bool, base: nat)
    ensures forall j :: 0 <= j < |RuleIssues(rule, lines, guarded, base)| ==>
      Fires(rule, lines[RuleIssues(rule, lines, guarded, base)[j].line - base - 1], guarded)
    decreases |lines|
  {
    if |lines| > 0 {
      RuleIssuesSound(rule, lines[1..], guarded, base + 1);
      assert forall m :: 0 <= m < |lines[1..]| ==> lines[1..][m] == lines[m + 1];
    }
  }

  /** Within one rule, issues come in strictly increasing line order. */
  lemma {:induction false} RuleIssuesSorted(rule: Rule, lines: seq<string>, guarded: bool, base: nat)
    ensures forall j, k :: 0 <= j < k < |RuleIssues(rule, lines, guarded, base)| ==>
      RuleIssues(rule, lines, guarded, base)[j].line < RuleIssues(rule, lines, guarded, base)[k].line
    decreases |lines|
  {
    if |lines| > 0 {
      RuleIssuesSorted(rule, lines[1..], guarded, base + 1);
    }
  }

  /** No firing line is missed by the inner loop. */
  lemma {:induction false} RuleIssuesComplete(rule: Rule, lines: seq<string>, guarded: bool, base: nat, i: nat)
    requires i < |lines| && Fires(rule, lines[i], guarded)
    ensures exists j ::
      0 <= j < |RuleIssues(rule, lines, guarded, base)| && RuleIssues(rule, lines, guarded, base)[j].line == base + i + 1
    decreases |lines|
  {
    var issues := RuleIssues(rule, lines, guarded, base);
    if i == 0 {
      assert issues[0].line == base + 1;
    } else {
      var rest := RuleIssues(rule, lines[1..], guarded, base + 1);
      assert lines[1..][i - 1] == lines[i];
      RuleIssuesComplete(rule, lines[1..], guarded, base + 1, i - 1);
      var j :| 0 <= j < |rest| && rest[j].line == base + i + 1;
      if Fires(rule, lines[0], guarded) {
        assert issues[j + 1] == rest[j];
      } else {
        assert issues[j] == rest[j];
      }
    }
  }

  /** Scanning two runs of lines back to back is scanning each in turn, the
      second numbered on from the first. */
  lemma {:induction false} RuleIssuesAppend(rule: Rule, a: seq<string>, b: seq<string>, guarded: bool, base: nat)
    ensures RuleIssues(rule, a + b, guarded, base)
         == RuleIssues(rule, a, guarded, base) + RuleIssues(rule, b, guarded, base + |a|)
    decreases |a|
  {
    if |a| == 0 {
      assert a + b == b;
    } else {
      assert (a + b)[1..] == a[1..] + b;
      assert (a + b)[0] == a[0];
      RuleIssuesAppend(rule, a[1..], b, guarded, base + 1);
    }
  }

  /** Number of lines `matches` accepts. */
  function CountMatches(matches: string -> bool, lines: seq<string>): nat
    decreases |lines|
  {
    if |lines| == 0 then 0
    else (if matches(lines[0]) then 1 else 0) + CountMatches(matches, lines[1..])
  }

  /** Hits a rule contributes: none when suppressed, else one per accepted line. */
  function Hits(rule: Rule, lines: seq<string>, guarded: bool): nat
  {
    if Suppressed(rule, guarded) then 0 else CountMatches(rule.matches, lines)
  }

  /** Hits of a whole table. */
  function TotalHits(rules: seq<Rule>, lines: seq<string>, guarded: bool): nat
    decreases |rules|
  {
    if |rules| == 0 then 0 else Hits(rules[0], lines, guarded) + TotalHits(rules[1..], lines, guarded)
  }

  /** A suppressed rule contributes nothing; otherwise one issue per line its
      matcher accepts. */
  lemma {:induction false} RuleIssuesCount(rule: Rule, lines: seq<string>, guarded: bool, base: nat)
    ensures |RuleIssues(rule, lines, guarded, base)| == Hits(rule, lines, guarded)
    ensures Suppressed(rule, guarded) ==> RuleIssues(rule, lines, guarded, base) == []
    decreases |lines|
  {
    if |lines| > 0 {
      RuleIssuesCount(rule, lines[1..], guarded, base + 1);
    }
  }

  /** The two lists side by side: `a`'s issues, then `b`'s. */
  function Merge(a: AnalysisResult, b: AnalysisResult): AnalysisResult
  {
    AnalysisResult(a.errors + b.errors, a.optimizations + b.optimizations)
  }

  /** `issues` pushed onto the list for their type: `errors` or, for any other
      type, `optimizations`. */
  function Filed(kind: IssueType, issues: seq<Issue>): AnalysisResult
  {
    if kind == Error then AnalysisResult(issues, []) else AnalysisResult([], issues)
  }

  /** The rule loop: each rule's issues, in table order, filed by the rule's type. */
  function Scan(rules: seq<Rule>, lines: seq<string>, guarded: bool): AnalysisResult
    decreases |rules|
  {
    if |rules| == 0 then NoIssues
    else Merge(Filed(rules[0].kind, RuleIssues(rules[0], lines, guarded, 0)), Scan(rules[1..], lines, guarded))
  }

  /** `analyze(code, language)` */
  function Analyze(code: string, language: Language, rx: Regexes): (r: AnalysisResult)
    ensures IsBlank(code) ==> r == NoIssues
  {
    if IsBlank(code) then NoIssues
    else
      var lines := Split(code);
      var scanned := Scan(RulesFor(language, rx), lines, HasNullCheck(code));
      if language == Python && rx.nestedLoop(code) then
        AnalysisResult(scanned.errors,
                       scanned.optimizations + [NestedLoopIssue(FindIndex(lines, NestedLoopAnchor) + 1)])
      else scanned
  }

  /** Ordering across rules: the lists of a table split anywhere are the lists
      of its first part followed by the lists of the rest, so every issue of an
      earlier rule precedes every issue of a later rule in the same list. */
  lemma {:induction false} ScanAppend(first: seq<Rule>, second: seq<Rule>, lines: seq<string>, guarded: bool)
    ensures Scan(first + second, lines, guarded) == Merge(Scan(first, lines, guarded), Scan(second, lines, guarded))
    decreases |first|
  {
    if |first| == 0 {
      assert first + second == second;
      assert Merge(NoIssues, Scan(second, lines, guarded)) == Scan(second, lines, guarded);
    } else {
      var whole := first + second;
      assert whole[1..] == first[1..] + second;
      assert whole[0] == first[0];
      ScanAppend(first[1..], second, lines, guarded);
      var mine := Filed(first[0].kind, RuleIssues(first[0], lines, guarded, 0));
      var a := Scan(first[1..], lines, guarded);
      var b := Scan(second, lines, guarded);
      assert Scan(whole, lines, guarded) == Merge(mine, Scan(first[1..] + second, lines, guarded));
      MergeAssociative(mine, a, b);
    }
  }

  /** Filing three runs of issues does not depend on how they are grouped. */
  lemma MergeAssociative(x: AnalysisResult, y: AnalysisResult, z: AnalysisResult)
    ensures Merge(x, Merge(y, z)) == Merge(Merge(x, y), z)
  {
    assert x.errors + (y.errors + z.errors) == (x.errors + y.errors) + z.errors;
    assert x.optimizations + (y.optimizations + z.optimizations) == (x.optimizations + y.optimizations) + z.optimizations;
  }

  /** A one-rule table files that rule's inner-loop issues under its type. */
  lemma ScanSingle(rule: Rule, lines: seq<string>, guarded: bool)
    ensures rule.kind == Error ==> Scan([rule], lines, guarded) == AnalysisResult(RuleIssues(rule, lines, guarded, 0), [])
    ensures rule.kind == Optimization ==> Scan([rule], lines, guarded) == AnalysisResult([], RuleIssues(rule, lines, guarded, 0))
  {
    var own := RuleIssues(rule, lines, guarded, 0);
    assert [rule][1..] == [];
    assert own + [] == own && [] + own == own;
  }

  /** The rule loop raises exactly as many issues as the table has hits. */
  lemma {:induction false} ScanCount(rules: seq<Rule>, lines: seq<string>, guarded: bool)
    ensures TotalIssues(Scan(rules, lines, guarded)) == TotalHits(rules, lines, guarded)
    decreases |rules|
  {
    if |rules| > 0 {
      RuleIssuesCount(rules[0], lines, guarded, 0);
      ScanCount(rules[1..], lines, guarded);
    }
  }

  /** A table without error rules yields no errors. */
  lemma {:induction false} ScanWithoutErrorRules(rules: seq<Rule>, lines: seq<string>, guarded: bool)
    requires forall k :: 0 <= k < |rules| ==> rules[k].kind == Optimization
    ensures Scan(rules, lines, guarded).errors == []
    decreases |rules|
  {
    if |rules| > 0 {
      ScanWithoutErrorRules(rules[1..], lines, guarded);
    }
  }

  /** Every issue of the rule loop is the issue some rule of the table raises
      on a line it fires on, with that rule's fields copied unchanged. */
  lemma {:induction false} ScanProvenance(rules: seq<Rule>, lines: seq<string>, guarded: bool)
    ensures forall x :: x in Scan(rules, lines, guarded).errors + Scan(rules, lines, guarded).optimizations ==>
      exists k :: 0 <= k < |rules| && 1 <= x.line <= |lines| && x == IssueFor(rules[k], x.line) && Fires(rules[k], lines[x.line - 1], guarded)
    decreases |rules|
  {
    if |rules| > 0 {
      var r := Scan(rules, lines, guarded);
      var own := RuleIssues(rules[0], lines, guarded, 0);
      var rest := Scan(rules[1..], lines, guarded);
      ScanProvenance(rules[1..], lines, guarded);
      forall x | x in r.errors + r.optimizations
        ensures exists k :: 0 <= k < |rules| && 1 <= x.line <= |lines| && x == IssueFor(rules[k], x.line) && Fires(rules[k], lines[x.line - 1], guarded)
      {
        if x in own {
          OwnProvenance(rules[0], lines, guarded, x);
        } else {
          assert x in rest.errors + rest.optimizations;
          var k :| 0 <= k < |rules[1..]| && 1 <= x.line <= |lines| && x == IssueFor(rules[1..][k], x.line)
            && Fires(rules[1..][k], lines[x.line - 1], guarded);
          assert rules[1..][k] == rules[k + 1];
        }
      }
    }
  }

  /** One rule's share of `ScanProvenance`. */
  lemma OwnProvenance(rule: Rule, lines: seq<string>, guarded: bool, x: Issue)
    requires x in RuleIssues(rule, lines, guarded, 0)
    ensures 1 <= x.line <= |lines| && x == IssueFor(rule, x.line) && Fires(rule, lines[x.line - 1], guarded)
  {
    var own := RuleIssues(rule, lines, guarded, 0);
    RuleIssuesSound(rule, lines, guarded, 0);
    var j :| 0 <= j < |own| && own[j] == x;
  }

  /** Partition by type and line bounds of the rule loop: `errors` holds only
      error issues, `optimizations` only optimization issues, and every issue
      names a line of the text. */
  lemma {:induction false} ScanPartition(rules: seq<Rule>, lines: seq<string>, guarded: bool)
    ensures forall x :: x in Scan(rules, lines, guarded).errors ==> x.kind == Error && 1 <= x.line <= |lines|
    ensures forall x :: x in Scan(rules, lines, guarded).optimizations ==> x.kind == Optimization && 1 <= x.line <= |lines|
    decreases |rules|
  {
    if |rules| > 0 {
      ScanPartition(rules[1..], lines, guarded);
      var own := RuleIssues(rules[0], lines, guarded, 0);
      assert forall x :: x in own ==> x.kind == rules[0].kind && 1 <= x.line <= |lines|;
    }
  }

  /** What `analyze` returns is partitioned by type, every rule-loop issue names a
      line of the text (the synthetic issue may name line 0), and every issue
      carries a suggestion and no column. */
  lemma AnalyzePartition(code: string, language: Language, rx: Regexes)
    ensures forall x :: x in Analyze(code, language, rx).errors ==>
      x.kind == Error && 1 <= x.line <= |Split(code)|
    ensures forall x :: x in Analyze(code, language, rx).optimizations ==>
      x.kind == Optimization && 0 <= x.line <= |Split(code)|
    ensures forall x :: x in Analyze(code, language, rx).errors + Analyze(code, language, rx).optimizations ==>
      x.column == None && x.suggestion.Some?
  {
    if !IsBlank(code) {
      var lines := Split(code);
      var rules := RulesFor(language, rx);
      ScanPartition(rules, lines, HasNullCheck(code));
      ScanProvenance(rules, lines, HasNullCheck(code));
    }
  }

  /** The synthetic issue is the only difference the heuristic makes: errors come
      from the rule loop alone, and for python with a nested-loop match exactly
      one issue is appended after every rule-loop optimization; otherwise none. */
  lemma NestedLoopAppended(code: string, language: Language, rx: Regexes)
    requires !IsBlank(code)
    ensures Analyze(code, language, rx).errors == Scan(RulesFor(language, rx), Split(code), HasNullCheck(code)).errors
    ensures |Analyze(code, language, rx).optimizations|
         == |Scan(RulesFor(language, rx), Split(code), HasNullCheck(code)).optimizations|
            + (if language == Python && rx.nestedLoop(code) then 1 else 0)
    ensures Analyze(code, language, rx).optimizations[..|Scan(RulesFor(language, rx), Split(code), HasNullCheck(code)).optimizations|]
         == Scan(RulesFor(language, rx), Split(code), HasNullCheck(code)).optimizations
  {
    var scanned := Scan(RulesFor(language, rx), Split(code), HasNullCheck(code));
    assert scanned.optimizations[..|scanned.optimizations|] == scanned.optimizations;
  }

  /** The synthetic issue: severity high, the O(n²) message and its set-based
      suggestion, no column, and the line of the first line containing
      `for i in range(len(`, or 0 when no line does, whichever lines the
      nested loops are really on. */
  lemma NestedLoopIssueLine(code: string, rx: Regexes) returns (x: Issue)
    requires !IsBlank(code) && rx.nestedLoop(code)
    ensures |Analyze(code, Python, rx).optimizations| >= 1
    ensures x == Analyze(code, Python, rx).optimizations[|Analyze(code, Python, rx).optimizations| - 1]
    ensures x.kind == Optimization && x.severity == High && x.message == NestedLoopMessage
    ensures x.suggestion == Some(NestedLoopSuggestion) && x.column == None
    ensures x.line == 0 <==> forall k :: 0 <= k < |Split(code)| ==> !Contains(Split(code)[k], NestedLoopAnchor)
    ensures x.line >= 1 ==> x.line <= |Split(code)| && Contains(Split(code)[x.line - 1], NestedLoopAnchor)
    ensures forall k :: 0 <= k < x.line - 1 ==> !Contains(Split(code)[k], NestedLoopAnchor)
  {
    NestedLoopLast(code, rx);
    x := NestedLoopIssue(FindIndex(Split(code), NestedLoopAnchor) + 1);
    AnchorLine(Split(code));
  }

  /** The synthetic issue closes the optimizations list. */
  lemma NestedLoopLast(code: string, rx: Regexes)
    requires !IsBlank(code) && rx.nestedLoop(code)
    ensures |Analyze(code, Python, rx).optimizations| >= 1
    ensures Analyze(code, Python, rx).optimizations[|Analyze(code, Python, rx).optimizations| - 1]
      == NestedLoopIssue(FindIndex(Split(code), NestedLoopAnchor) + 1)
  {
    var opts := Scan(RulesFor(Python, rx), Split(code), HasNullCheck(code)).optimizations;
    var last := NestedLoopIssue(FindIndex(Split(code), NestedLoopAnchor) + 1);
    assert Analyze(code, Python, rx).optimizations == opts + [last];
    assert (opts + [last])[|opts + [last]| - 1] == last;
  }

  /** The 1-based line `findIndex(...) + 1` picks: 0 exactly when no line holds
      the anchor, otherwise the first line that does. */
  lemma AnchorLine(lines: seq<string>)
    ensures FindIndex(lines, NestedLoopAnchor) + 1 == 0 <==> forall k :: 0 <= k < |lines| ==> !Contains(lines[k], NestedLoopAnchor)
    ensures FindIndex(lines, NestedLoopAnchor) + 1 >= 1 ==> Contains(lines[FindIndex(lines, NestedLoopAnchor)], NestedLoopAnchor)
  {
  }

  /** For languages other than python the heuristic never runs. */
  lemma NoHeuristicOutsidePython(code: string, language: Language, rx: Regexes)
    requires language != Python
    ensures IsBlank(code) || Analyze(code, language, rx) == Scan(RulesFor(language, rx), Split(code), HasNullCheck(code))
  {
  }

  /** Issue count: one per rule hit, minus suppressed ones, plus at most one
      synthetic issue. */
  lemma AnalyzeCount(code: string, language: Language, rx: Regexes)
    requires !IsBlank(code)
    ensures TotalIssues(Analyze(code, language, rx))
         == TotalHits(RulesFor(language, rx), Split(code), HasNullCheck(code))
            + (if language == Python && rx.nestedLoop(code) then 1 else 0)
  {
    ScanCount(RulesFor(language, rx), Split(code), HasNullCheck(code));
  }

  /** The javascript and typescript tables hold only optimizations, so those
      languages never report an error. */
  lemma WebLanguagesNoErrors(code: string, language: Language, rx: Regexes)
    requires language == JavaScript || language == TypeScript
    ensures Analyze(code, language, rx).errors == []
  {
    if !IsBlank(code) {
      var rules := RulesFor(language, rx);
      assert rules[0].kind == Optimization && rules[1].kind == Optimization;
      ScanWithoutErrorRules(rules, Split(code), HasNullCheck(code));
    }
  }

  /** The java errors are exactly the issues of the length-call rule. */
  lemma JavaErrorsAreLengthCalls(code: string, rx: Regexes)
    requires !IsBlank(code)
    ensures Analyze(code, Java, rx).errors == RuleIssues(JavaRules(rx)[1], Split(code), HasNullCheck(code), 0)
  {
    var rules := JavaRules(rx);
    var lines := Split(code);
    var g := HasNullCheck(code);
    assert rules[1..][1..][1..] == [];
    assert Scan(rules[1..][1..], lines, g).errors == [];
    assert Scan(rules[1..], lines, g).errors == RuleIssues(rules[1], lines, g, 0) + [];
  }

  /** The java null-check guard: with `!= null` anywhere in the text the
      length-call rule contributes nothing; without it, one error per line its
      matcher accepts, on exactly those lines. */
  lemma JavaNullGuard(code: string, rx: Regexes)
    ensures HasNullCheck(code) ==> Analyze(code, Java, rx).errors == []
    ensures !IsBlank(code) && !HasNullCheck(code) ==>
      |Analyze(code, Java, rx).errors| == CountMatches(LengthCall, Split(code))
    ensures forall x :: x in Analyze(code, Java, rx).errors ==>
      1 <= x.line <= |Split(code)| && LengthCall(Split(code)[x.line - 1])
    ensures !IsBlank(code) && !HasNullCheck(code) ==>
      forall i :: 0 <= i < |Split(code)| && LengthCall(Split(code)[i]) ==>
        exists j :: 0 <= j < |Analyze(code, Java, rx).errors| && Analyze(code, Java, rx).errors[j].line == i + 1
  {
    if !IsBlank(code) {
      JavaErrorsAreLengthCalls(code, rx);
      LengthCallRule(rx, Split(code), HasNullCheck(code));
    }
  }

  /** `JavaNullGuard` for the length-call rule's own inner loop. */
  lemma LengthCallRule(rx: Regexes, lines: seq<string>, g: bool)
    ensures g ==> RuleIssues(JavaRules(rx)[1], lines, g, 0) == []
    ensures !g ==> |RuleIssues(JavaRules(rx)[1], lines, g, 0)| == CountMatches(LengthCall, lines)
    ensures forall x :: x in RuleIssues(JavaRules(rx)[1], lines, g, 0) ==>
      1 <= x.line <= |lines| && LengthCall(lines[x.line - 1])
    ensures !g ==> forall i :: 0 <= i < |lines| && LengthCall(lines[i]) ==>
      exists j :: 0 <= j < |RuleIssues(JavaRules(rx)[1], lines, g, 0)| && RuleIssues(JavaRules(rx)[1], lines, g, 0)[j].line == i + 1
  {
    var rule := JavaRules(rx)[1];
    RuleIssuesCount(rule, lines, g, 0);
    RuleIssuesSound(rule, lines, g, 0);
    var errors := RuleIssues(rule, lines, g, 0);
    forall x | x in errors
      ensures 1 <= x.line <= |lines| && LengthCall(lines[x.line - 1])
    {
      var j :| 0 <= j < |errors| && errors[j] == x;
    }
    if !g {
      forall i | 0 <= i < |lines| && LengthCall(lines[i])
        ensures exists j :: 0 <= j < |errors| && errors[j].line == i + 1
      {
        RuleIssuesComplete(rule, lines, g, 0, i);
      }
    }
  }

  /** One more line for the inner loop: the issues so far, then this line's
      issue if the rule fires on it. */
  lemma RuleIssuesStep(rule: Rule, lines: seq<string>, guarded: bool, i: nat)
    requires i < |lines|
    ensures RuleIssues(rule, lines[..i + 1], guarded, 0)
         == RuleIssues(rule, lines[..i], guarded, 0)
            + (if Fires(rule, lines[i], guarded) then [IssueFor(rule, i + 1)] else [])
  {
    RuleIssuesAppend(rule, lines[..i], [lines[i]], guarded, 0);
    assert lines[..i + 1] == lines[..i] + [lines[i]];
    assert [lines[i]][1..] == [];
  }

  /** Pushing one issue onto the list for its type. */
  lemma FiledPush(before: AnalysisResult, kind: IssueType, issues: seq<Issue>, issue: Issue)
    ensures kind == Error ==>
      (Merge(before, Filed(kind, issues + [issue]))
       == Merge(before, Filed(kind, issues)).(errors := Merge(before, Filed(kind, issues)).errors + [issue]))
    ensures kind == Optimization ==>
      (Merge(before, Filed(kind, issues + [issue]))
       == Merge(before, Filed(kind, issues)).(optimizations := Merge(before, Filed(kind, issues)).optimizations + [issue]))
  {
  }

  /** The inner `lines.forEach` for one pattern: tests the pattern on each line,
      drops the hit when the pattern is flagged and the text contains
      `!= null`, and otherwise pushes the issue onto the list for its type. */
  method PatternLoop(pattern: Rule, lines: seq<string>, code: string, start: AnalysisResult)
    returns (result: AnalysisResult)
    ensures result == Merge(start, Filed(pattern.kind, RuleIssues(pattern, lines, HasNullCheck(code), 0)))
  {
    ghost var g := HasNullCheck(code);
    result := start;
    assert result == Merge(start, Filed(pattern.kind, []));
    var i := 0;
    while i < |lines|
      invariant 0 <= i <= |lines|
      invariant result == Merge(start, Filed(pattern.kind, RuleIssues(pattern, lines[..i], g, 0)))
    {
      RuleIssuesStep(pattern, lines, g, i);
      ghost var sofar := RuleIssues(pattern, lines[..i], g, 0);
      if pattern.matches(lines[i]) {
        if pattern.requiresNoNullCheck && Contains(code, NullGuard) {
          // the source's callback returns early: this hit is dropped
        } else {
          var issue := Issue(pattern.kind, i + 1, None, pattern.message, Some(pattern.suggestion), pattern.severity);
          FiledPush(start, pattern.kind, sofar, issue);
          if pattern.kind == Error {
            result := result.(errors := result.errors + [issue]);
          } else {
            result := result.(optimizations := result.optimizations + [issue]);
          }
        }
      }
      i := i + 1;
    }
    assert lines[..|lines|] == lines;
  }

  /** The outer `patterns.forEach`: runs each pattern's inner loop in table order. */
  method PatternsLoop(patterns: seq<Rule>, lines: seq<string>, code: string) returns (result: AnalysisResult)
    ensures result == Scan(patterns, lines, HasNullCheck(code))
  {
    ghost var g := HasNullCheck(code);
    result := NoIssues;
    var p := 0;
    while p < |patterns|
      invariant 0 <= p <= |patterns|
      invariant result == Scan(patterns[..p], lines, g)
    {
      var pattern := patterns[p];
      assert patterns[..p + 1] == patterns[..p] + [pattern];
      ScanAppend(patterns[..p], [pattern], lines, g);
      ScanSingle(pattern, lines, g);
      result := PatternLoop(pattern, lines, code, result);
      p := p + 1;
    }
    assert patterns[..|patterns|] == patterns;
  }

  /** `analyze` as the source writes it: the table lookup, the nested loops
      pushing onto two mutable lists, then the python heuristic. It computes
      exactly `Analyze`. */
  method AnalyzeLoops(code: string, language: Language, rx: Regexes) returns (result: AnalysisResult)
    ensures result == Analyze(code, language, rx)
  {
    result := NoIssues;
    if IsBlank(code) {
      return;
    }
    var lines := Split(code);
    var patterns := RulesFor(language, rx);
    result := PatternsLoop(patterns, lines, code);
    if language == Python && rx.nestedLoop(code) {
      var line := FindIndex(lines, NestedLoopAnchor) + 1;
      result := result.(optimizations := result.optimizations + [NestedLoopIssue(line)]);
    }
  }
}
