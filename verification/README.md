# Free coding analyzer — a Dafny model of the scanner and its views

The application takes a piece of source text and a language (python, java,
javascript or typescript) and runs `CodeAnalyzer.analyze`, a line-oriented
pattern scanner. For each language there is a fixed, ordered table of rules.
Each rule is a regular expression tested against one line at a time, plus the
issue it raises: its type (`error` or `optimization`), message, suggestion and
severity. The scanner runs the rules in table order and, for each rule, the
lines in order. It files every hit under `errors` or `optimizations`. One java
rule (a `.length()` call on a bare identifier) is silenced entirely when the
whole text contains `!= null`. For python only, one extra issue is appended
when a whole-text nested-loop expression matches.

Three views derive figures from the result, and all three are modelled here:

- the summary strip: a health score, a quality label and a bar colour;
- the code editor: a line-number gutter of 20 to 100 lines, plus the issues whose markers fit in it;
- the result panel: which of its two tabs is active.

## Modules

| file | module | models |
|---|---|---|
| `types.dfy` | `Types` | languages, severities, issue types, `Issue`, `AnalysisResult`, `CodeSample` |
| `text.dfy` | `Text` | JavaScript string behaviour the program relies on: `split('\n')`, `trim()` emptiness, `includes`, `findIndex`, decimal rendering of line numbers |
| `catalog.dfy` | `Catalog` | the rule record and the four rule tables |
| `analyzer.dfy` | `Analyzer` | `analyze` as a pure function. It also has a method version with the source's two nested loops, proved equal to the function |
| `summary.dfy` | `Summary` | score, label, label colour and bar colour |
| `code_editor.dfy` | `CodeEditor` | `lineCount`, `maxLines`, `lineNumbersText`, `issueLines` |
| `analysis_panel.dfy` | `AnalysisPanel` | the `activeTab` state: its initial value, the effect run on a new analysis, and the two click handlers |
| `scenarios.dfy` | `Scenarios` | how the analyzer and the views combine; single-line texts each table flags; the python sample of `src/services/mockData.ts` |

### How the regular expressions are modelled

Four of the expressions are written out exactly as searches over a line (the last two with the ASCII `\w` word-character class):

- `/any/`
- `/document\.getElementById/`
- `/(\w+)\.length\(\)/`
- `/new ArrayList<\w+>\(\)/`

All the others are fields of a `Regexes` record that `Analyze` takes as a parameter. This includes the lazy `[\s\S]*?` expressions and the nested-loop expression with its `\1` back-reference. So every property of `Analyze` holds whatever those expressions answer. The blank test `!code.trim()` is modelled exactly: every character is ECMAScript white space or a line terminator.

### Three details of the code that the model keeps

- **Null-check guard.** The java guard is the rule's boolean flag `requiresNoNullCheck` plus the literal `'!= null'` searched for in the whole text inside the loop (src/services/analyzer.ts:121). The model keeps the flag and the constant `NullGuard`.
- **Table choice.** The final `else` of the table choice gives the typescript table to every language other than python, java and javascript (src/services/analyzer.ts:112-115). In the closed `Language` type that is only typescript, so `analyze` has no failure case.
- **Synthetic issue's line.** The synthetic python issue takes the first line containing `for i in range(len(`, not the line where the nested loop starts (src/services/analyzer.ts:148). On the bundled python sample this is line 3, although the nested loops are on lines 13 and 14 (`Scenarios.PythonSampleNestedLoopLine`).

## Model

| member | source | states |
|---|---|---|
| Types.LanguagesExhaustive | src/types/index.ts:3 | the language union has exactly four distinct members and every language is among them |
| Types.SeveritiesExhaustive | src/types/index.ts:4 | severity is exactly {high, medium, low} |
| Types.IssueTypesExhaustive | src/types/index.ts:5 | issue type is exactly {error, optimization} |
| Types.SamplesFrom | src/types/index.ts:21-26 | a sample set built from a per-language table looks up each language's own string |
| Types.SamplesRoundTrip | src/types/index.ts:21-26 | a sample set is exactly its four lookups: one sample per language and nothing else |
| Text.Split | src/services/analyzer.ts:111 | `split('\n')` always yields at least one piece and no piece holds a line feed |
| Text.SplitLength | src/components/CodeEditor/CodeEditor.tsx:35 | the number of lines is the number of line feeds plus one |
| Text.JoinSplit | src/services/analyzer.ts:111 | joining the pieces with line feeds gives back the text: splitting loses nothing |
| Text.SplitJoin | src/components/CodeEditor/CodeEditor.tsx:40-43 | splitting a line-feed join of feed-free pieces gives the pieces back |
| Text.FindIndex | src/services/analyzer.ts:148 | `findIndex` is -1 exactly when no line contains the substring; otherwise it is the first line that does |
| Text.Decimal | src/components/CodeEditor/CodeEditor.tsx:40-43 | a number's rendering is one or more digits with no leading zero (only 0 itself starts with `0`), as JavaScript writes numbers |
| Text.DecimalRoundTrip | src/components/CodeEditor/CodeEditor.tsx:40-43 | a rendered line number reads back as the same number |
| Text.DecimalUnique | src/components/CodeEditor/CodeEditor.tsx:40-43 | conversely, a digit string without a leading zero is the rendering of the number it reads as, so each number has exactly one such rendering |
| Catalog.LengthCallAt | src/services/analyzer.ts:48 | the `.length()` matcher accepts a line exactly when some word character is immediately followed by `.length()` |
| Catalog.NewArrayListAt | src/services/analyzer.ts:56 | the default-capacity matcher accepts a line exactly when it holds `new ArrayList<`, one or more word characters and `>()` back to back |
| Catalog.TableFields | src/services/analyzer.ts:15-96 | rule by rule, in table order, each of the ten rules' matcher, issue type, severity, message and suggestion |
| Catalog.RulesFor | src/services/analyzer.ts:112-115 | python and java get three rules, javascript and typescript two; the javascript and typescript tables hold only optimizations; only the java table carries the null-check flag |
| Catalog.OnlyLengthCallIsGuarded | src/services/analyzer.ts:15-96 | across the four tables only java's second rule carries the null-check flag; that rule is the length-call error; the only error rules are python's first and java's second |
| Analyzer.Analyze | src/services/analyzer.ts:107-109 | blank or empty text gives two empty lists |
| Analyzer.RuleIssues | src/services/analyzer.ts:118-131 | one rule's inner loop raises at most one issue per line; each issue is on a line of the text and copies the rule's type, message, suggestion and severity |
| Analyzer.RuleIssuesSound | src/services/analyzer.ts:119-123 | every issue of a rule sits on a line the rule's expression accepts, and the rule is not silenced by the guard |
| Analyzer.RuleIssuesComplete | src/services/analyzer.ts:118-131 | every line the rule fires on gets an issue with that line's 1-based number |
| Analyzer.RuleIssuesSorted | src/services/analyzer.ts:118 | within one rule, issues come in strictly increasing line order |
| Analyzer.RuleIssuesAppend | src/services/analyzer.ts:118 | scanning two runs of lines back to back is scanning each, the second numbered after the first |
| Analyzer.RuleIssuesCount | src/services/analyzer.ts:119-123 | a silenced rule contributes nothing; otherwise it contributes one issue per accepted line |
| Analyzer.ScanAppend | src/services/analyzer.ts:117-140 | ordering across rules: splitting a table anywhere, the first part's issues come before the second part's in both lists |
| Analyzer.ScanSingle | src/services/analyzer.ts:133-137 | a one-rule table files all the rule's issues under the rule's type and none under the other |
| Analyzer.ScanCount | src/services/analyzer.ts:117-140 | the rule loop raises exactly one issue per rule hit, counting silenced rules as zero |
| Analyzer.ScanWithoutErrorRules | src/services/analyzer.ts:133-137 | a table without error rules yields no errors |
| Analyzer.ScanProvenance | src/services/analyzer.ts:117-131 | every issue of the rule loop is the issue of some rule of the table, on a line that rule fires on |
| Analyzer.ScanPartition | src/services/analyzer.ts:125-137 | the errors list holds only error-type issues and the optimizations list only optimization-type ones, all on lines 1 to the line count |
| Analyzer.AnalyzePartition | src/services/analyzer.ts:98-157 | the same partition for the whole of `analyze`, where only an optimization may carry line 0, and every issue has a suggestion and no column |
| Analyzer.NestedLoopAppended | src/services/analyzer.ts:142-154 | the heuristic leaves errors alone and keeps the rule-loop optimizations as a prefix; it adds one issue for python when the whole-text expression matches, otherwise none |
| Analyzer.NestedLoopIssueLine | src/services/analyzer.ts:143-153 | the synthetic issue is last, is a high-severity optimization with the O(n²) message, the suggestion `return len(lst) != len(set(lst))` and no column, and its line is 1 + the first line holding `for i in range(len(`; the line is 0 exactly when no line holds it |
| Analyzer.NestedLoopLast | src/services/analyzer.ts:145-152 | when the heuristic fires, the optimizations list ends with the synthetic issue |
| Analyzer.AnchorLine | src/services/analyzer.ts:148 | `findIndex(...) + 1` is 0 exactly when no line holds the anchor; otherwise the line it names holds it |
| Analyzer.NoHeuristicOutsidePython | src/services/analyzer.ts:143 | for java, javascript and typescript, `analyze` is the rule loop alone |
| Analyzer.AnalyzeCount | src/services/analyzer.ts:117-154 | total issues equal the table's hits (silenced rule excluded), plus one exactly when the python heuristic fires |
| Analyzer.WebLanguagesNoErrors | src/services/analyzer.ts:64-96 | javascript and typescript never yield errors, because their tables hold only optimizations |
| Analyzer.JavaErrorsAreLengthCalls | src/services/analyzer.ts:39-62 | the java errors are exactly the issues of the `.length()` rule |
| Analyzer.JavaNullGuard | src/services/analyzer.ts:119-123 | with `!= null` anywhere in the text, java yields no errors. Without it, there is one error per line the `.length()` matcher accepts, on exactly those lines |
| Analyzer.LengthCallRule | src/services/analyzer.ts:47-54 | the guard, count, soundness and completeness facts for the `.length()` rule's own inner loop |
| Analyzer.PatternLoop | src/services/analyzer.ts:118-139 | the inner `lines.forEach` pushes exactly the rule's issues onto the list for its type, after what was there |
| Analyzer.PatternsLoop | src/services/analyzer.ts:117-140 | the outer `patterns.forEach` computes the rule loop of the functional model |
| Analyzer.AnalyzeLoops | src/services/analyzer.ts:98-157 | the imperative `analyze`, with its table choice, loops and heuristic, returns what the functional `Analyze` does |
| Summary.QualityScore | src/components/Summary/Summary.tsx:12-16 | the score lies in 0..100. It is 100 exactly when both lists are empty, 100 − 10 × issues below ten issues, and 0 from ten issues up |
| Summary.ScoreMonotone | src/components/Summary/Summary.tsx:14 | adding an issue to either list never raises the score, and lowers it by exactly 10 while the score is positive |
| Summary.QualityLabel | src/components/Summary/Summary.tsx:18-26 | 'Excellent' iff both lists are empty, 'Good' iff there are no errors but some optimizations, 'Needs Work' iff there is an error |
| Summary.LabelColourByContent | src/components/Summary/Summary.tsx:18-26 | the label is green iff there is no issue, yellow iff there are optimizations but no errors, red iff there is an error |
| Summary.LabelAgreesWithScore | src/components/Summary/Summary.tsx:12-26 | the label is 'Excellent' exactly at a full score, and any other label means a score of at most 90 |
| Summary.HealthBarColour | src/components/Summary/Summary.tsx:84-86 | the bar is green iff the score is ≥ 80, yellow iff 60 ≤ score < 80, red iff the score is < 60 |
| Summary.BarColourByIssueCount | src/components/Summary/Summary.tsx:84-86 | in issue counts: green for at most 2 issues, yellow for 3 or 4, red for 5 or more |
| Summary.LabelAndBarColours | src/components/Summary/Summary.tsx:18-26 | a green label always comes with a green bar, yet a single error gives a red label beside a green bar |
| CodeEditor.LineCount | src/components/CodeEditor/CodeEditor.tsx:35-36 | the line count is the larger of the number of lines and 20 |
| CodeEditor.MaxLines | src/components/CodeEditor/CodeEditor.tsx:37 | the gutter length is the line count capped at 100, so it lies in 20..100 |
| CodeEditor.GutterNumbers | src/components/CodeEditor/CodeEditor.tsx:40-42 | the gutter holds `max` entries and entry i is the decimal rendering of i + 1 |
| CodeEditor.GutterText | src/components/CodeEditor/CodeEditor.tsx:40-43 | the joined gutter text splits back into exactly `maxLines` entries, and entry i reads as the number i + 1 with no leading zero, which makes it the JavaScript rendering of i + 1 |
| CodeEditor.KeepUpTo | src/components/CodeEditor/CodeEditor.tsx:56 | the filter keeps exactly the issues whose line is at most the bound: every kept issue is within it and none within it is dropped |
| CodeEditor.KeepUpToAppend | src/components/CodeEditor/CodeEditor.tsx:55-56 | the filter preserves order: filtering errors ++ optimizations is filtering each and concatenating |
| CodeEditor.KeepUpToAllFit | src/components/CodeEditor/CodeEditor.tsx:56 | when every issue fits, the filter returns the list unchanged |
| CodeEditor.IssueLines | src/components/CodeEditor/CodeEditor.tsx:53-57 | no analysis gives no markers. With an analysis, the markers are exactly the errors and optimizations whose line is within the gutter |
| CodeEditor.ShortTextShowsEverything | src/components/CodeEditor/CodeEditor.tsx:34-57 | for a text of at most 100 lines whose issues lie on its lines, every error and optimization is marked, in order |
| AnalysisPanel.OnAnalysis | src/components/AnalysisPanel/AnalysisPanel.tsx:108-116 | errors move the tab to 'errors'. Otherwise optimizations move it to 'optimizations'. No analysis or an empty one leaves it where it was |
| AnalysisPanel.ClickSelects | src/components/AnalysisPanel/AnalysisPanel.tsx:119-120 | after any history, a click on a tab makes that tab active |
| AnalysisPanel.ArrivalShowsIssues | src/components/AnalysisPanel/AnalysisPanel.tsx:108-116 | right after an analysis with any issue arrives, the active tab's list is not empty |
| AnalysisPanel.OnAnalysisIdempotent | src/components/AnalysisPanel/AnalysisPanel.tsx:108-116 | re-running the effect on the same analysis changes nothing |
| AnalysisPanel.ErrorsTabPersists | src/components/AnalysisPanel/AnalysisPanel.tsx:102-120 | starting from the initial 'errors' tab, a history of 'errors' clicks and of analyses without optimizations keeps 'errors' active |
| Scenarios.BlankTextIsExcellent | src/services/analyzer.ts:107-109 | a blank text scores 100, reads 'Excellent', and leaves the panel's tab alone |
| Scenarios.WebLanguagesNeverNeedWork | src/services/analyzer.ts:64-96 | javascript and typescript texts are never rated 'Needs Work' and never switch the panel to 'errors' |
| Scenarios.GuardedJavaNeverNeedsWork | src/services/analyzer.ts:121 | a java text containing `!= null` is never rated 'Needs Work' |
| Scenarios.EditorShowsEveryIssue | src/components/CodeEditor/CodeEditor.tsx:53-57 | for a text of at most 100 lines the editor marks every issue `analyze` reports, errors first |
| Scenarios.LoneDivision | src/services/analyzer.ts:16-22 | a python line accepted only by the division expression gives exactly one high-severity error on line 1 |
| Scenarios.DivisionFlagged | src/services/analyzer.ts:16-22 | the same for `return a / b` |
| Scenarios.LoneDomLookup | src/services/analyzer.ts:72-78 | a javascript line with `document.getElementById` and no indexed loop gives exactly one medium-severity optimization on line 1 |
| Scenarios.DomLookupFlagged | src/services/analyzer.ts:72-78 | the same for `document.getElementById('out')` |
| Scenarios.LoneAnyType | src/services/analyzer.ts:82-88 | a typescript line containing `any` and no guarded chain gives exactly one high-severity optimization on line 1 |
| Scenarios.AnyTypeFlagged | src/services/analyzer.ts:82-88 | the same for `let x: any = 5;` |
| Scenarios.LoneLengthCall | src/services/analyzer.ts:47-54 | an unguarded java line with a `.length()` call gives exactly one high-severity error on line 1 |
| Scenarios.LengthCallFlagged | src/services/analyzer.ts:47-54 | the same for `return text.length();` |
| Scenarios.GuardedLengthCallSilent | src/services/analyzer.ts:119-123 | `if (s != null) return s.length();` yields no java error |
| Scenarios.NestedLoopOnAnchorLine | src/services/analyzer.ts:148 | the synthetic issue's line is one more than the index `findIndex` returns |
| Scenarios.CapacitySuggestionNotFlagged | src/services/analyzer.ts:56-59 | the rule's own suggestion `new ArrayList<>(initialCapacity)` is not accepted by its matcher, since nothing stands between `<` and `>` |
| Scenarios.PythonSampleNestedLoopLine | src/services/mockData.ts:6-22 | on the python sample the nested-loop issue reports line 3, while the nested loops are on lines 13 and 14 |
| Scenarios.PythonSampleGutter | src/services/mockData.ts:6-22 | the 17-line python sample gets the minimum gutter of 20 lines |

## Left out

- The 1500 ms `setTimeout` and the `async`/`Promise` wrapper of `analyze` (src/services/analyzer.ts:99-100): timing only. `Analyze` is a synchronous pure function.
- The internals of the regular expressions other than the four written out. They are parameters (`Regexes`), so the lazy `[\s\S]*?` and the `\1` back-reference are not modelled.
- Summary.LabelColour: the `text-green/yellow/red-500` lookup has no contract of its own; `Summary.LabelColourByContent` states which colour each analysis gets.
- Catalog.PythonRules, Catalog.JavaRules, Catalog.JavaScriptRules, Catalog.TypeScriptRules: tables of data with no row of their own. `Catalog.TableFields` states each rule's matcher, type, severity, message and suggestion, `Catalog.OnlyLengthCallIsGuarded` its null-check flag, and `Catalog.RulesFor` the table sizes.
- Rendering: JSX, class names, icons, `darkMode`, the copy button and the clipboard state. Only the colour *choice* of the label and the bar is modelled.
- The panel's `getSeverityColor`, and `IssueCard.tsx`, `EmptyState.tsx`, `Header.tsx`, `App.tsx`: presentation only.
- `src/components/CodeEditor/LineNumbers.tsx`: the editor does not use it; it inlines its own gutter.
- `src/hooks/useAnalyzer.ts`: loading flag and error logging.
- `useMemo`/`useCallback` memoisation: it does not change any computed value.
- AnalysisPanel.Run: React runs the effect only when the analysis object's identity changes. The model instead applies an `AnalysisChanged` event wherever the history says one happened.
- Issue lines and counts are unbounded integers. A JavaScript number would lose precision only beyond 2^53 lines, far past any text the editor holds.
- The java, javascript and typescript samples of `src/services/mockData.ts` are data only: no property is proved about them.
