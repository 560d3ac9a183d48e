/**
 The shared vocabulary of the analyzer: the closed sets of languages,
 severities and issue types, the issue record and the result of one scan
 (src/types/index.ts). The string-literal union types of the program become
 enumerations here.
 */
module Types {

  /** The conventional optional value, used for the optional fields of an issue. */
  datatype Option<+T> = None | Some(value: T)

  /** 'python' | 'java' | 'javascript' | 'typescript' */
  datatype Language = Python | Java | JavaScript | TypeScript

  /** 'high' | 'medium' | 'low' */
  datatype Severity = High | Medium | Low

  /** 'error' | 'optimization' (the field is called `type` in the program) */
  datatype IssueType = Error | Optimization

  /** One detected occurrence. `line` is a JavaScript number: the rule loop
      produces 1-based lines, the synthetic nested-loop issue may carry 0. */
  datatype Issue = Issue(
    kind: IssueType,
    line: int,
    column: Option<int>,
    message: string,
    suggestion: Option<string>,
    severity: Severity)

  /** The outcome of one scan: two ordered lists and nothing else. */
  datatype AnalysisResult = AnalysisResult(errors: seq<Issue>, optimizations: seq<Issue>)

  /** One sample program per language. */
  datatype CodeSample = CodeSample(python: string, java: string, javascript: string, typescript: string)

  const NoIssues := AnalysisResult([], [])

  function TotalIssues(a: AnalysisResult): nat
  {
    |a.errors| + |a.optimizations|
  }

  /** `sampleCode[language]` */
  function SampleFor(samples: CodeSample, language: Language): string
  {
    match language
    case Python => samples.python
    case Java => samples.java
    case JavaScript => samples.javascript
    case TypeScript => samples.typescript
  }

  /** The samples a per-language table names: one string for each language. */
  function SamplesFrom(table: Language -> string): (samples: CodeSample)
    ensures forall language: Language :: SampleFor(samples, language) == table(language)
  {
    CodeSample(table(Python), table(Java), table(JavaScript), table(TypeScript))
  }

  /** A sample set is nothing more than its four lookups: rebuilding it from
      `SampleFor` gives it back. */
  lemma SamplesRoundTrip(samples: CodeSample)
    ensures SamplesFrom(language => SampleFor(samples, language)) == samples
  {
  }

  /** Every language, each once. */
  const AllLanguages: seq<Language> := [Python, Java, JavaScript, TypeScript]

  /** Every severity, each once. */
  const AllSeverities: seq<Severity> := [High, Medium, Low]

  /** Every issue type, each once. */
  const AllIssueTypes: seq<IssueType> := [Error, Optimization]

  /** The language union has exactly four members. */
  lemma LanguagesExhaustive()
    ensures |AllLanguages| == 4
    ensures forall l: Language :: l in AllLanguages
    ensures forall i, j :: 0 <= i < j < |AllLanguages| ==> AllLanguages[i] != AllLanguages[j]
  {
    forall l: Language ensures l in AllLanguages {
      match l
      case Python => assert AllLanguages[0] == l;
      case Java => assert AllLanguages[1] == l;
      case JavaScript => assert AllLanguages[2] == l;
      case TypeScript => assert AllLanguages[3] == l;
    }
  }

  /** The severity union has exactly three members. */
  lemma SeveritiesExhaustive()
    ensures |AllSeverities| == 3
    ensures forall s: Severity :: s in AllSeverities
    ensures forall i, j :: 0 <= i < j < |AllSeverities| ==> AllSeverities[i] != AllSeverities[j]
  {
    forall s: Severity ensures s in AllSeverities {
      match s
      case High => assert AllSeverities[0] == s;
      case Medium => assert AllSeverities[1] == s;
      case Low => assert AllSeverities[2] == s;
    }
  }

  /** The issue-type union has exactly two members. */
  lemma IssueTypesExhaustive()
    ensures |AllIssueTypes| == 2
    ensures forall t: IssueType :: t in AllIssueTypes
    ensures AllIssueTypes[0] != AllIssueTypes[1]
  {
    forall t: IssueType ensures t in AllIssueTypes {
      match t
      case Error => assert AllIssueTypes[0] == t;
      case Optimization => assert AllIssueTypes[1] == t;
    }
  }
}
