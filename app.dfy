/** The count-based evaluation pipeline of `CourserEvaluator`: look the tests
    up in the catalog, run each in order, judge it, and score the pass count. */
module App {
  import opened Wrappers
  import opened PyStrings
  import opened Process
  import opened Comparator

  /** One test as loaded from its JSON file; either key may be absent. */
  datatype TestSpec = TestSpec(args: Option<seq<string>>, expectedOutput: Option<string>)

  /** `test_cases[course][exercise][language]`, loaded once and never changed. */
  type Catalog = map<string, map<string, map<string, seq<TestSpec>>>>

  /** `run_python_code(code_file_path, ·)`: it never raises. */
  type PythonRun = seq<string> -> Execution

  /** `run_c_code(code_file_path, ·)`: the compile step may raise (`Failure`). */
  type CRun = seq<string> -> Result<Execution, string>

  /** The verdict recorded for one test. */
  datatype TestDetail =
    | RunFailed(testId: int, error: string)
    | Compared(testId: int, success: bool, actualOutput: string, expectedOutput: string)
  {
    predicate Passed() {
      Compared? && success
    }
  }

  /** `{"tests": [...]}` or `{"error": ...}`. */
  datatype Details = Tests(tests: seq<TestDetail>) | Error(message: string)

  const NoTestsMessage: string := "Aucun test trouvé pour cette combinaison"
  const UnsupportedPrefix: string := "Langage non supporté: "
  const EvaluationErrorPrefix: string := "Erreur lors de l'évaluation: "
  const ExitCodePrefix: string := "Code d'erreur: "

  /** `test.get("args", [])`. */
  function ArgsOf(t: TestSpec): (args: seq<string>)
    ensures t.args.Some? ==> args == t.args.value
    ensures t.args.None? ==> args == []
  {
    match t.args
    case Some(a) => a
    case None => []
  }

  /** `test.get("expected_output", "")`. */
  function ExpectedOf(t: TestSpec): (expected: string)
    ensures t.expectedOutput.Some? ==> expected == t.expectedOutput.value
    ensures t.expectedOutput.None? ==> expected == ""
  {
    match t.expectedOutput
    case Some(e) => e
    case None => ""
  }

  predicate HasTests(catalog: Catalog, course: string, exercise: string, language: string) {
    course in catalog && exercise in catalog[course] && language in catalog[course][exercise]
  }

  predicate Supported(language: string) {
    language == "python" || language == "c"
  }

  /** The C run of test `t` raises (the compile step failed to start). */
  predicate CRaises(t: TestSpec, runC: CRun) {
    runC(ArgsOf(t)).Failure?
  }

  /** The run of test `t` raises: only the C runner can. */
  predicate Raises(language: string, t: TestSpec, runC: CRun) {
    language == "c" && CRaises(t, runC)
  }

  /** Test `j` is the first whose run raises. */
  predicate FirstRaise(language: string, tests: seq<TestSpec>, runC: CRun, j: int) {
    && language == "c"
    && 0 <= j < |tests|
    && CRaises(tests[j], runC)
    && forall k :: 0 <= k < j ==> !CRaises(tests[k], runC)
  }

  /** The run of a supported language's test that did not raise. */
  function ExecutionOf(language: string, t: TestSpec, runPython: PythonRun, runC: CRun): Execution
    requires Supported(language) && !Raises(language, t, runC)
  {
    if language == "python" then runPython(ArgsOf(t)) else runC(ArgsOf(t)).value
  }

  /** A way of turning the run of the test at an index into its verdict. */
  type Judge = (nat, TestSpec, Execution) -> TestDetail

  /** The verdict for the test at index `i`: a non-zero exit fails it with
      stderr, or the code when stderr is empty, and the comparator is not
      consulted; a zero exit passes it exactly when the output matches. */
  function JudgeTest(i: nat, t: TestSpec, e: Execution): (d: TestDetail)
    ensures d.testId == i + 1
    ensures d.Passed() <==> e.exitCode == 0 && CompareOutputs(e.stdout, ExpectedOf(t))
    ensures e.exitCode != 0 ==> d.RunFailed? && d.error != ""
    ensures e.exitCode != 0 && e.stderr != "" ==> d.error == e.stderr
    ensures e.exitCode != 0 && e.stderr == "" ==> d.error == ExitCodePrefix + IntToString(e.exitCode)
    ensures e.exitCode == 0 ==> d.Compared? && d.actualOutput == e.stdout && d.expectedOutput == ExpectedOf(t)
  {
    if e.exitCode != 0 then
      RunFailed(i + 1, if e.stderr != "" then e.stderr else ExitCodePrefix + IntToString(e.exitCode))
    else
      Compared(i + 1, CompareOutputs(e.stdout, ExpectedOf(t)), e.stdout, ExpectedOf(t))
  }

  /** Every test of `tests` ran: there are none, or the language is
      supported and no run raised. */
  predicate AllRan(language: string, tests: seq<TestSpec>, runC: CRun) {
    && (tests != [] ==> Supported(language))
    && (language == "c" ==> forall k :: 0 <= k < |tests| ==> !CRaises(tests[k], runC))
  }

  /** The verdicts of tests that all ran, in order, by the judge `judge`. */
  function Verdicts(language: string, tests: seq<TestSpec>, runPython: PythonRun, runC: CRun,
                    judge: Judge): (ds: seq<TestDetail>)
    requires AllRan(language, tests, runC)
    ensures |ds| == |tests|
  {
    if tests == [] then []
    else
      var n := |tests| - 1;
      Verdicts(language, tests[..n], runPython, runC, judge)
        + [judge(n, tests[n], ExecutionOf(language, tests[n], runPython, runC))]
  }

  /** The i-th verdict judges the i-th test's own run. */
  lemma {:induction false} VerdictsAt(language: string, tests: seq<TestSpec>, runPython: PythonRun, runC: CRun,
                                      judge: Judge)
    requires AllRan(language, tests, runC)
    ensures forall i :: 0 <= i < |tests| ==>
      Verdicts(language, tests, runPython, runC, judge)[i]
        == judge(i, tests[i], ExecutionOf(language, tests[i], runPython, runC))
  {
    if tests != [] {
      var n := |tests| - 1;
      var prefix := tests[..n];
      VerdictsAt(language, prefix, runPython, runC, judge);
      forall i | 0 <= i < n
        ensures tests[i] == prefix[i]
      {
      }
    }
  }

  /** The success flags of the details, in order. */
  function Successes(ds: seq<TestDetail>): (flags: seq<bool>)
    ensures |flags| == |ds|
    ensures forall i :: 0 <= i < |ds| ==> flags[i] == ds[i].Passed()
  {
    seq(|ds|, i requires 0 <= i < |ds| => ds[i].Passed())
  }

  /** `_evaluate_submission`. A catalog miss scores 0 with an error and runs
      nothing; otherwise the catalog's tests for the triple are run. */
  method EvaluateSubmission(catalog: Catalog, course: string, exercise: string, language: string,
                            runPython: PythonRun, runC: CRun)
    returns (score: real, details: Details)
    ensures !HasTests(catalog, course, exercise, language) ==>
      score == 0.0 && details == Error(NoTestsMessage)
    ensures HasTests(catalog, course, exercise, language) ==>
      var tests := catalog[course][exercise][language];
      && (tests == [] ==> score == 0.0 && details == Tests([]))
      && (tests != [] && !Supported(language) ==>
            score == 0.0 && details == Error(UnsupportedPrefix + language))
      && (forall j :: FirstRaise(language, tests, runC, j) ==>
            score == 0.0 && details == Error(EvaluationErrorPrefix + runC(ArgsOf(tests[j])).error))
      && (AllRan(language, tests, runC) ==>
            && details.Tests?
            && |details.tests| == |tests|
            && (forall i :: 0 <= i < |tests| ==>
                  details.tests[i] == JudgeTest(i, tests[i], ExecutionOf(language, tests[i], runPython, runC)))
            && score == EvaluateTestResults(Successes(details.tests)))
  {
    if !(course in catalog && exercise in catalog[course] && language in catalog[course][exercise]) {
      return 0.0, Error(NoTestsMessage);
    }
    score, details := RunTests(catalog[course][exercise][language], language, runPython, runC, JudgeTest);
  }

  /** The loop of `_evaluate_submission` over the tests, in order: an
      unsupported language stops at the first test, an exception stops at
      the test that raised, both with score 0 and an error; when neither
      happens there is one verdict per test, the i-th with id i + 1, and the
      score is the percentage of passed verdicts. */
  method RunTests(tests: seq<TestSpec>, language: string, runPython: PythonRun, runC: CRun, judge: Judge)
    returns (score: real, details: Details)
    ensures tests == [] ==> score == 0.0 && details == Tests([])
    ensures tests != [] && !Supported(language) ==>
      score == 0.0 && details == Error(UnsupportedPrefix + language)
    ensures forall j :: FirstRaise(language, tests, runC, j) ==>
      score == 0.0 && details == Error(EvaluationErrorPrefix + runC(ArgsOf(tests[j])).error)
    ensures AllRan(language, tests, runC) ==>
      && details.Tests?
      && |details.tests| == |tests|
      && (forall i :: 0 <= i < |tests| ==>
            details.tests[i] == judge(i, tests[i], ExecutionOf(language, tests[i], runPython, runC)))
      && score == EvaluateTestResults(Successes(details.tests))
  {
    var results: seq<bool> := [];
    var testDetails: seq<TestDetail> := [];
    var i := 0;
    while i < |tests|
      invariant 0 <= i <= |tests|
      invariant AllRan(language, tests[..i], runC)
      invariant testDetails == Verdicts(language, tests[..i], runPython, runC, judge)
      invariant |results| == i
      invariant forall k :: 0 <= k < i ==> results[k] == testDetails[k].Passed()
    {
      var test := tests[i];
      var args := ArgsOf(test);
      var exec: Execution;
      if language == "python" {
        exec := runPython(args);
      } else if language == "c" {
        var r := runC(args);
        if r.Failure? {
          FirstRaiseUnique(language, tests, runC, i);
          return 0.0, Error(EvaluationErrorPrefix + r.error);
        }
        exec := r.value;
      } else {
        UnsupportedNeverRuns(language, tests, runC);
        return 0.0, Error(UnsupportedPrefix + language);
      }
      AllRanExtend(language, tests, runC, i);
      var detail := judge(i, test, exec);
      assert tests[..i + 1][..i] == tests[..i] && tests[..i + 1][i] == test;
      testDetails := testDetails + [detail];
      results := results + [detail.Passed()];
      i := i + 1;
    }
    assert results == Successes(testDetails);
    assert tests[..i] == tests;
    AllRanNoRaise(language, tests, runC);
    VerdictsAt(language, tests, runPython, runC, judge);
    score := EvaluateTestResults(results);
    details := Tests(testDetails);
  }

  /** One more test that ran extends the prefix of tests that all ran. */
  lemma AllRanExtend(language: string, tests: seq<TestSpec>, runC: CRun, i: nat)
    requires i < |tests| && AllRan(language, tests[..i], runC)
    requires Supported(language) && !Raises(language, tests[i], runC)
    ensures AllRan(language, tests[..i + 1], runC)
  {
    if language == "c" {
      var longer := tests[..i + 1];
      forall k | 0 <= k < i + 1
        ensures !CRaises(longer[k], runC)
      {
        if k < i {
          assert longer[k] == tests[..i][k];
        }
      }
    }
  }

  /** When every test ran, none raised. */
  lemma AllRanNoRaise(language: string, tests: seq<TestSpec>, runC: CRun)
    requires AllRan(language, tests, runC)
    ensures forall j :: !FirstRaise(language, tests, runC, j)
  {
  }

  /** An unsupported language with tests runs none and raises nothing. */
  lemma UnsupportedNeverRuns(language: string, tests: seq<TestSpec>, runC: CRun)
    requires tests != [] && !Supported(language)
    ensures !AllRan(language, tests, runC)
    ensures forall j :: !FirstRaise(language, tests, runC, j)
  {
  }

  /** A raise after a prefix of tests that all ran is the first raise, and
      the only one. */
  lemma FirstRaiseUnique(language: string, tests: seq<TestSpec>, runC: CRun, i: nat)
    requires language == "c" && i < |tests|
    requires AllRan(language, tests[..i], runC) && CRaises(tests[i], runC)
    ensures FirstRaise(language, tests, runC, i)
    ensures forall j :: FirstRaise(language, tests, runC, j) ==> j == i
    ensures !AllRan(language, tests, runC)
  {
    forall k | 0 <= k < i
      ensures !CRaises(tests[k], runC)
    {
      assert tests[..i][k] == tests[k];
    }
  }

  /** A submission whose every run fails (a C file that does not compile
      fails every test with the compiler's diagnostics) gets only failed
      verdicts and scores 0. */
  lemma AllRunsFailedScoresZero(ds: seq<TestDetail>)
    requires forall i :: 0 <= i < |ds| ==> ds[i].RunFailed?
    ensures EvaluateTestResults(Successes(ds)) == 0.0
  {
  }

  /** A compile failure fails the test with the compiler's prefixed
      diagnostics, whatever the expected output. */
  lemma CompileFailureFailsTest(i: nat, t: TestSpec, diagnostics: string, code: int)
    requires code != 0
    ensures var d := JudgeTest(i, t, Execution("", "Erreur de compilation:\n" + diagnostics, code));
      d.RunFailed? && !d.Passed() && d.error == "Erreur de compilation:\n" + diagnostics
  {
  }

  /** A Python program that prints `8\n` for expected output `8` passes with
      actual output `8\n`. */
  lemma PrintedEightPasses(t: TestSpec)
    requires ExpectedOf(t) == "8"
    ensures JudgeTest(0, t, Execution("8\n", "", 0)) == Compared(1, true, "8\n", "8")
  {
    assert AllSpace("\n");
    assert "8\n" == "" + "8" + "\n";
    CompareIgnoresSurroundingSpace("", "8", "\n", "8");
  }
}
