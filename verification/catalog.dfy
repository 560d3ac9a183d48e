/**
 The rule catalog of the analyzer (src/services/analyzer.ts:5-96): one
 ordered table of rules per language, each rule a line matcher plus the
 fields copied into every issue it raises.

 Four of the regular expressions are simple enough to state exactly here
 (`/any/`, `/document\.getElementById/`, `/(\w+)\.length\(\)/` and
 `/new ArrayList<\w+>\(\)/`). The others, and the whole-text nested-loop
 expression with its back-reference, are supplied as the fields of a
 `Regexes` record: the analyzer's properties hold whatever they answer.
 */
module Catalog {
  import opened Types
  import opened Text

  /** `AnalysisPattern`: a single-line matcher, the issue fields it copies, and
      the flag that silences it when the text already holds a null check. */
  datatype Rule = Rule(
    matches: string -> bool,
    kind: IssueType,
    message: string,
    suggestion: string,
    severity: Severity,
    requiresNoNullCheck: bool)

  /** The verdicts of the regular expressions this model does not spell out. */
  datatype Regexes = Regexes(
    returnDivision: string -> bool,  // /return\s+\w+\s*\/\s*\w+/
    rangeLenLoop: string -> bool,    // /for\s+\w+\s+in\s+range\(len\(/
    selfAddition: string -> bool,    // /\w+\s*=\s*\w+\s*\+/
    stringConcat: string -> bool,    // /String\s+\w+\s*=\s*"[^"]*";\s*[\s\S]*?\w+\s*=\s*\w+\s*\+/
    indexedFor: string -> bool,      // /for\s*\(\s*let\s+\w+\s*=\s*0;\s*\w+\s*<\s*\w+\.length/
    chainedGuard: string -> bool,    // /\w+\s*&&\s*\w+\.\w+\s*&&\s*\w+\.\w+\.\w+/
    nestedLoop: string -> bool)      // the whole-text expression with back-reference \1

  // The texts the rules copy into their issues.
  const DivisionMessage := "Potential ZeroDivisionError: Division by zero not handled"
  const DivisionSuggestion := "Add a check: if b != 0: return a / b"
  const RangeLenMessage := "Use enumerate() or iterate directly over the list"
  const RangeLenSuggestion := "for i, item in enumerate(numbers): ..."
  const SelfAddMessage := "Use += operator for better readability"
  const SelfAddSuggestion := "total += value"
  const ConcatMessage := "Use StringBuilder for string concatenation in loops"
  const ConcatSuggestion := "StringBuilder sb = new StringBuilder();\nsb.append(words[i]);"
  const NullCheckMessage := "Potential NullPointerException: parameter not null-checked"
  const NullCheckSuggestion := "Add null check: if (text != null) { return text.length(); }"
  const CapacityMessage := "Initialize ArrayList with capacity for better performance"
  const CapacitySuggestion := "new ArrayList<>(initialCapacity)"
  const ForOfMessage := "Consider using for...of loop or array methods"
  const ForOfSuggestion := "for (const item of array) { ... }"
  const DomCacheMessage := "Consider caching DOM queries"
  const DomCacheSuggestion := "const element = document.getElementById(...); // reuse element"
  const AnyTypeMessage := "Avoid using \"any\" type - use specific types instead"
  const AnyTypeSuggestion := "Use unknown, specific types, or generics"
  const ChainingMessage := "Use optional chaining for cleaner code"
  const ChainingSuggestion := "obj?.property?.nestedProperty"

  const LengthCallText := ".length()"
  const ArrayListOpen := "new ArrayList<"
  const ArrayListClose := ">()"

  /** `/any/` */
  predicate MentionsAny(line: string)
  {
    Contains(line, "any")
  }

  /** `/document\.getElementById/` */
  predicate DomLookup(line: string)
  {
    Contains(line, "document.getElementById")
  }

  /** `/(\w+)\.length\(\)/`: some word character is directly followed by
      `.length()` (one word character is all `\w+` needs). */
  predicate LengthCall(line: string)
    decreases |line|
  {
    || (|line| >= 1 && IsWordChar(line[0]) && IsPrefix(LengthCallText, line[1..]))
    || (|line| > 0 && LengthCall(line[1..]))
  }

  /** `\w+>\(\)` at the start of `t`. */
  predicate WordsThenClose(t: string)
    decreases |t|
  {
    |t| > 0 && IsWordChar(t[0]) && (IsPrefix(ArrayListClose, t[1..]) || WordsThenClose(t[1..]))
  }

  /** `/new ArrayList<\w+>\(\)/` */
  predicate NewArrayList(line: string)
    decreases |line|
  {
    || (IsPrefix(ArrayListOpen, line) && WordsThenClose(line[|ArrayListOpen|..]))
    || (|line| > 0 && NewArrayList(line[1..]))
  }

  /** Word character at offset `i`, then `.length()`. */
  predicate LengthCallAtOffset(line: string, i: int)
  {
    0 <= i < |line| && IsWordChar(line[i]) && IsPrefix(LengthCallText, line[i + 1..])
  }

  /** `LengthCall` is the unanchored search it claims to be: it holds exactly
      when some offset has a word character followed by `.length()`. */
  lemma LengthCallAt(line: string)
    ensures LengthCall(line) <==> exists i :: LengthCallAtOffset(line, i)
  {
    if LengthCall(line) {
      var i := LengthCallFound(line);
    } else {
      forall i | LengthCallAtOffset(line, i)
        ensures false
      {
        LengthCallFromOffset(line, i);
      }
    }
  }

  /** A hit of the search has an offset. */
  lemma {:induction false} LengthCallFound(line: string) returns (i: int)
    requires LengthCall(line)
    ensures LengthCallAtOffset(line, i)
    decreases |line|
  {
    if IsWordChar(line[0]) && IsPrefix(LengthCallText, line[1..]) {
      i := 0;
    } else {
      assert LengthCall(line[1..]);
      var j := LengthCallFound(line[1..]);
      assert line[1..][j + 1..] == line[j + 2..];
      assert line[1..][j] == line[j + 1];
      i := j + 1;
    }
  }

  /** Every offset is found by the search. */
  lemma {:induction false} LengthCallFromOffset(line: string, i: int)
    requires LengthCallAtOffset(line, i)
    ensures LengthCall(line)
    decreases i
  {
    if i > 0 {
      assert line[1..][i..] == line[i + 1..];
      assert line[1..][i - 1] == line[i];
      LengthCallFromOffset(line[1..], i - 1);
    }
  }

  /** `new ArrayList<` at offset `i`, a non-empty run of word characters up to
      offset `j`, then `>()`. */
  predicate ArrayListAt(line: string, i: int, j: int)
  {
    && 0 <= i && i + |ArrayListOpen| < j <= |line|
    && IsPrefix(ArrayListOpen, line[i..])
    && (forall k :: i + |ArrayListOpen| <= k < j ==> IsWordChar(line[k]))
    && IsPrefix(ArrayListClose, line[j..])
  }

  /** `NewArrayList` is the unanchored search it claims to be: it holds exactly
      when the line has `new ArrayList<`, one or more word characters and
      `>()` back to back somewhere. */
  lemma NewArrayListAt(line: string)
    ensures NewArrayList(line) <==> exists i, j :: ArrayListAt(line, i, j)
  {
    if NewArrayList(line) {
      var i, j := NewArrayListFound(line);
    } else {
      forall i, j | ArrayListAt(line, i, j)
        ensures false
      {
        NewArrayListFrom(line, i, j);
      }
    }
  }

  /** A run accepted by `WordsThenClose` has an end. */
  lemma {:induction false} WordsThenCloseFound(t: string) returns (j: int)
    requires WordsThenClose(t)
    ensures 0 < j <= |t| && (forall k :: 0 <= k < j ==> IsWordChar(t[k])) && IsPrefix(ArrayListClose, t[j..])
    decreases |t|
  {
    if IsPrefix(ArrayListClose, t[1..]) {
      j := 1;
    } else {
      var j' := WordsThenCloseFound(t[1..]);
      assert t[1..][j'..] == t[j' + 1..];
      assert forall k :: 1 <= k < j' + 1 ==> t[k] == t[1..][k - 1];
      j := j' + 1;
    }
  }

  /** Every run of word characters closed by `>()` is accepted. */
  lemma {:induction false} WordsThenCloseFrom(t: string, j: int)
    requires 0 < j <= |t| && (forall k :: 0 <= k < j ==> IsWordChar(t[k])) && IsPrefix(ArrayListClose, t[j..])
    ensures WordsThenClose(t)
    decreases j
  {
    if j > 1 {
      assert t[1..][j - 1..] == t[j..];
      assert forall k :: 0 <= k < j - 1 ==> t[1..][k] == t[k + 1];
      WordsThenCloseFrom(t[1..], j - 1);
    }
  }

  /** A hit of the search has offsets. */
  lemma {:induction false} NewArrayListFound(line: string) returns (i: int, j: int)
    requires NewArrayList(line)
    ensures ArrayListAt(line, i, j)
    decreases |line|
  {
    var n := |ArrayListOpen|;
    if IsPrefix(ArrayListOpen, line) && WordsThenClose(line[n..]) {
      var r := WordsThenCloseFound(line[n..]);
      assert line[n..][r..] == line[n + r..];
      assert forall k :: n <= k < n + r ==> line[k] == line[n..][k - n];
      i, j := 0, n + r;
    } else {
      var i', j' := NewArrayListFound(line[1..]);
      assert line[1..][i'..] == line[i' + 1..];
      assert line[1..][j'..] == line[j' + 1..];
      assert forall k :: i' + 1 + n <= k < j' + 1 ==> line[k] == line[1..][k - 1];
      i, j := i' + 1, j' + 1;
    }
  }

  /** Every occurrence is found by the search. */
  lemma {:induction false} NewArrayListFrom(line: string, i: int, j: int)
    requires ArrayListAt(line, i, j)
    ensures NewArrayList(line)
    decreases i
  {
    var n := |ArrayListOpen|;
    if i == 0 {
      assert line[n..][j - n..] == line[j..];
      assert forall k :: 0 <= k < j - n ==> line[n..][k] == line[k + n];
      WordsThenCloseFrom(line[n..], j - n);
    } else {
      assert line[1..][i - 1..] == line[i..];
      assert line[1..][j - 1..] == line[j..];
      assert forall k :: i - 1 + n <= k < j - 1 ==> line[1..][k] == line[k + 1];
      NewArrayListFrom(line[1..], i - 1, j - 1);
    }
  }

  /** Python: unguarded division, index loop, self-addition. */
  function PythonRules(rx: Regexes): seq<Rule>
  {
    [ Rule(rx.returnDivision, Error,
           DivisionMessage,
           DivisionSuggestion, High, false),
      Rule(rx.rangeLenLoop, Optimization,
           RangeLenMessage,
           RangeLenSuggestion, Medium, false),
      Rule(rx.selfAddition, Optimization,
           SelfAddMessage,
           SelfAddSuggestion, Low, false) ]
  }

  /** Java: string concatenation, the guarded length call, default-capacity list. */
  function JavaRules(rx: Regexes): seq<Rule>
  {
    [ Rule(rx.stringConcat, Optimization,
           ConcatMessage,
           ConcatSuggestion, High, false),
      Rule(LengthCall, Error,
           NullCheckMessage,
           NullCheckSuggestion, High, true),
      Rule(NewArrayList, Optimization,
           CapacityMessage,
           CapacitySuggestion, Medium, false) ]
  }

  /** JavaScript: indexed loop, repeated DOM lookup. */
  function JavaScriptRules(rx: Regexes): seq<Rule>
  {
    [ Rule(rx.indexedFor, Optimization,
           ForOfMessage,
           ForOfSuggestion, Low, false),
      Rule(DomLookup, Optimization,
           DomCacheMessage,
           DomCacheSuggestion, Medium, false) ]
  }

  /** TypeScript: the `any` type, a chain of guarded property accesses. */
  function TypeScriptRules(rx: Regexes): seq<Rule>
  {
    [ Rule(MentionsAny, Optimization,
           AnyTypeMessage,
           AnyTypeSuggestion, High, false),
      Rule(rx.chainedGuard, Optimization,
           ChainingMessage,
           ChainingSuggestion, Low, false) ]
  }

  /** The line matchers of a table's rules, in table order. */
  function Matchers(rules: seq<Rule>): seq<string -> bool>
  {
    seq(|rules|, k requires 0 <= k < |rules| => rules[k].matches)
  }

  /** The issue types of a table's rules, in table order. */
  function Kinds(rules: seq<Rule>): seq<IssueType>
  {
    seq(|rules|, k requires 0 <= k < |rules| => rules[k].kind)
  }

  /** The severities of a table's rules, in table order. */
  function Severities(rules: seq<Rule>): seq<Severity>
  {
    seq(|rules|, k requires 0 <= k < |rules| => rules[k].severity)
  }

  /** The messages of a table's rules, in table order. */
  function Messages(rules: seq<Rule>): seq<string>
  {
    seq(|rules|, k requires 0 <= k < |rules| => rules[k].message)
  }

  /** The suggestions of a table's rules, in table order. */
  function Suggestions(rules: seq<Rule>): seq<string>
  {
    seq(|rules|, k requires 0 <= k < |rules| => rules[k].suggestion)
  }

  /** What every rule of the four tables tests and the issue fields it copies,
      rule by rule. */
  lemma TableFields(rx: Regexes)
    ensures Matchers(PythonRules(rx)) == [rx.returnDivision, rx.rangeLenLoop, rx.selfAddition]
    ensures Matchers(JavaRules(rx)) == [rx.stringConcat, LengthCall, NewArrayList]
    ensures Matchers(JavaScriptRules(rx)) == [rx.indexedFor, DomLookup]
    ensures Matchers(TypeScriptRules(rx)) == [MentionsAny, rx.chainedGuard]
    ensures Kinds(PythonRules(rx)) == [Error, Optimization, Optimization]
    ensures Severities(PythonRules(rx)) == [High, Medium, Low]
    ensures Messages(PythonRules(rx)) == [DivisionMessage, RangeLenMessage, SelfAddMessage]
    ensures Suggestions(PythonRules(rx)) == [DivisionSuggestion, RangeLenSuggestion, SelfAddSuggestion]
    ensures Kinds(JavaRules(rx)) == [Optimization, Error, Optimization]
    ensures Severities(JavaRules(rx)) == [High, High, Medium]
    ensures Messages(JavaRules(rx)) == [ConcatMessage, NullCheckMessage, CapacityMessage]
    ensures Suggestions(JavaRules(rx)) == [ConcatSuggestion, NullCheckSuggestion, CapacitySuggestion]
    ensures Kinds(JavaScriptRules(rx)) == [Optimization, Optimization]
    ensures Severities(JavaScriptRules(rx)) == [Low, Medium]
    ensures Messages(JavaScriptRules(rx)) == [ForOfMessage, DomCacheMessage]
    ensures Suggestions(JavaScriptRules(rx)) == [ForOfSuggestion, DomCacheSuggestion]
    ensures Kinds(TypeScriptRules(rx)) == [Optimization, Optimization]
    ensures Severities(TypeScriptRules(rx)) == [High, Low]
    ensures Messages(TypeScriptRules(rx)) == [AnyTypeMessage, ChainingMessage]
    ensures Suggestions(TypeScriptRules(rx)) == [AnyTypeSuggestion, ChainingSuggestion]
  {
  }

  /** The table lookup of `analyze`: python, java and javascript have their own
      tables; the final `else` of the source hands every other value, which in
      the closed language set is only typescript, the typescript table. */
  function RulesFor(language: Language, rx: Regexes): (rules: seq<Rule>)
    ensures |rules| == (if language == Python || language == Java then 3 else 2)
    ensures language == JavaScript || language == TypeScript ==>
      forall k :: 0 <= k < |rules| ==> rules[k].kind == Optimization
    ensures language != Java ==> forall k :: 0 <= k < |rules| ==> !rules[k].requiresNoNullCheck
  {
    match language
    case Python => PythonRules(rx)
    case Java => JavaRules(rx)
    case JavaScript => JavaScriptRules(rx)
    case TypeScript => TypeScriptRules(rx)
  }

  /** Exactly one rule of all four tables carries the null-check flag: the
      java length-call rule, the only error rule of its table. */
  lemma OnlyLengthCallIsGuarded(language: Language, rx: Regexes)
    ensures forall k :: 0 <= k < |RulesFor(language, rx)| ==>
      (RulesFor(language, rx)[k].requiresNoNullCheck <==> language == Java && k == 1)
    ensures language == Java ==> JavaRules(rx)[1].matches == LengthCall && JavaRules(rx)[1].kind == Error
    ensures forall k :: 0 <= k < |RulesFor(language, rx)| && RulesFor(language, rx)[k].kind == Error ==>
      (language == Python && k == 0) || (language == Java && k == 1)
  {
  }
}
