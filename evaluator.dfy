/** The point-weighted evaluation pipeline of `Evaluator`: load the exercise
    definition, check the language, run every test case in order, and score
    the points earned against the points possible. */
module Evaluator {
  import opened Wrappers
  import opened PyStrings
  import opened Process
  import Files
  import Comparator

  /** A JSON value of a test case's `input` list. */
  datatype Arg = StrArg(s: string) | IntArg(n: int) | BoolArg(b: bool)

  /** `str(arg)`. */
  function ArgText(a: Arg): string {
    match a
    case StrArg(s) => s
    case IntArg(n) => IntToString(n)
    case BoolArg(b) => if b then "True" else "False"
  }

  /** A test case; its `score` is whatever number the JSON file holds, possibly fractional. */
  datatype TestCase = TestCase(input: seq<Arg>, expectedOutput: string, score: real)

  /** An exercise definition: its language and its test cases. */
  datatype Exercise = Exercise(language: string, testCases: seq<TestCase>)

  /** The exercise files that exist, by path. */
  type Exercises = map<string, Exercise>

  /** `run_python_code(file_path, ·)`, which never raises, and
      `run_c_code(file_path, ·)`, whose compile step may (`Failure`). */
  type PythonRun = seq<string> -> Execution
  type CRun = seq<string> -> Result<Execution, string>

  datatype Status = Completed | Error

  /** One entry of `details`. */
  datatype CaseResult = CaseResult(
    input: seq<Arg>, expectedOutput: string, actualOutput: string,
    success: bool, score: real, error: Option<string>)

  /** The dictionary `evaluate_submission` returns. */
  datatype Report = Report(status: Status, message: string, score: real, details: seq<CaseResult>)

  const UnsupportedPrefix: string := "Langage non supporté: "
  const NotFoundPrefix: string := "Exercice non trouvé: "
  const DoneMessage: string := "Évaluation terminée"

  /** The file `load_exercise` opens: `<exercises_dir>/<course_id>/<exercise_id>.json`. */
  function ExercisePath(exercisesDir: string, courseId: string, exerciseId: string): (p: string)
    ensures EndsWith(p, exerciseId + ".json")
    ensures (&& exercisesDir != [] && exercisesDir[|exercisesDir| - 1] != '/'
             && courseId != [] && courseId[0] != '/' && courseId[|courseId| - 1] != '/'
             && (exerciseId == [] || exerciseId[0] != '/')) ==>
      p == exercisesDir + "/" + courseId + "/" + exerciseId + ".json"
  {
    var file := exerciseId + ".json";
    assert file[0] == (if exerciseId == [] then '.' else exerciseId[0]);
    var p := Files.PathJoin(Files.PathJoin(exercisesDir, courseId), file);
    assert p[|p| - |file|..] == file;
    p
  }

  function MismatchMessage(expected: string, received: string): string {
    "Langage incorrect. Attendu: " + expected + ", reçu: " + received
  }

  /** `[str(arg) for arg in test_case['input']]`. */
  function InputArgs(tc: TestCase): (args: seq<string>)
    ensures |args| == |tc.input|
    ensures forall i :: 0 <= i < |args| ==> args[i] == ArgText(tc.input[i])
  {
    seq(|tc.input|, i requires 0 <= i < |tc.input| => ArgText(tc.input[i]))
  }

  /** `_run_code`: dispatch on the language; any other language answers
      `('', "Langage non supporté: ...", -1)` without running anything. */
  function RunCode(language: string, args: seq<string>, runPython: PythonRun, runC: CRun): (r: Result<Execution, string>)
    ensures language != "python" && language != "c" ==>
      r == Success(Execution("", UnsupportedPrefix + language, -1))
    ensures language == "python" ==> r == Success(runPython(args))
    ensures language == "c" ==> r == runC(args)
    ensures r.Failure? ==> language == "c"
  {
    if language == "python" then Success(runPython(args))
    else if language == "c" then runC(args)
    else Success(Execution("", UnsupportedPrefix + language, -1))
  }

  /** The verdict for one test case: it passes exactly when the stripped
      stdout equals the stripped expected output, whatever the exit code, and
      then earns its points. */
  function JudgeCase(tc: TestCase, e: Execution): (c: CaseResult)
    ensures c.success <==> Strip(e.stdout) == Strip(tc.expectedOutput)
    ensures c.score == if c.success then tc.score else 0.0
    ensures c.input == tc.input
    ensures c.expectedOutput == Strip(tc.expectedOutput) && c.actualOutput == Strip(e.stdout)
    ensures c.error == if e.stderr != "" then Some(e.stderr) else None
  {
    var expected := Strip(tc.expectedOutput);
    var actual := Strip(e.stdout);
    var success := actual == expected;
    CaseResult(tc.input, expected, actual, success, if success then tc.score else 0.0,
               if e.stderr != "" then Some(e.stderr) else None)
  }

  /** Every test case is worth at least nothing. */
  predicate NonNegativeScores(tcs: seq<TestCase>) {
    forall i :: 0 <= i < |tcs| ==> tcs[i].score >= 0.0
  }

  /** Every test case is worth something. */
  predicate PositiveScores(tcs: seq<TestCase>) {
    forall i :: 0 <= i < |tcs| ==> tcs[i].score > 0.0
  }

  /** The points possible: the sum of all test case scores. */
  function MaxScore(tcs: seq<TestCase>): (m: real)
    ensures NonNegativeScores(tcs) ==> m >= 0.0
    ensures PositiveScores(tcs) && tcs != [] ==> m > 0.0
  {
    if tcs == [] then 0.0 else MaxScore(tcs[..|tcs| - 1]) + tcs[|tcs| - 1].score
  }

  /** No verdict earned a point. */
  predicate NothingEarned(results: seq<CaseResult>) {
    forall i :: 0 <= i < |results| ==> results[i].score == 0.0
  }

  /** No verdict lost a point. */
  predicate NonNegativeEarned(results: seq<CaseResult>) {
    forall i :: 0 <= i < |results| ==> results[i].score >= 0.0
  }

  /** The points earned: the sum of the verdicts' scores. */
  function Earned(results: seq<CaseResult>): (t: real)
    ensures NothingEarned(results) ==> t == 0.0
    ensures NonNegativeEarned(results) ==> t >= 0.0
  {
    if results == [] then 0.0 else Earned(results[..|results| - 1]) + results[|results| - 1].score
  }

  /** `total / max * 100` when `max > 0`, else 0. */
  function FinalScore(total: real, max: real): (score: real)
    ensures max <= 0.0 ==> score == 0.0
    ensures max > 0.0 ==> score * max == 100.0 * total
  {
    if max > 0.0 then
      assert (total / max) * max == total;
      (total / max) * 100.0
    else 0.0
  }

  /** A runner for one submission: a test case to what running the
      submission on that test case's input arguments returned or raised. */
  type Run = TestCase -> Result<Execution, string>

  /** `self._run_code(file_path, language, args)`, where `args` are the
      test case's input arguments. */
  function RunnerFor(language: string, runPython: PythonRun, runC: CRun): Run {
    tc => RunCode(language, InputArgs(tc), runPython, runC)
  }

  /** Test case `j` is the first whose run raises. */
  predicate FirstRaise(tcs: seq<TestCase>, run: Run, j: int) {
    && 0 <= j < |tcs|
    && run(tcs[j]).Failure?
    && forall k :: 0 <= k < j ==> run(tcs[k]).Success?
  }

  /** No test case's run raises. */
  predicate NoneRaise(tcs: seq<TestCase>, run: Run) {
    forall k :: 0 <= k < |tcs| ==> run(tcs[k]).Success?
  }

  /** The test loop of `evaluate_submission`: every test case runs in order
      and gets one verdict, and the points earned and possible are summed; the
      first run that raises ends the loop with its exception. The verdict is
      a parameter (`EvaluateSubmission` passes `JudgeCase`), so the loop's
      proof does not depend on how a verdict is made. */
  method RunTestCases(tcs: seq<TestCase>, run: Run, judge: (TestCase, Execution) -> CaseResult)
    returns (r: Result<seq<CaseResult>, string>, totalScore: real, maxScore: real)
    ensures forall j :: FirstRaise(tcs, run, j) ==> r == Failure(run(tcs[j]).error)
    ensures NoneRaise(tcs, run) ==>
      && r.Success?
      && |r.value| == |tcs|
      && (forall i :: 0 <= i < |tcs| ==> r.value[i] == judge(tcs[i], run(tcs[i]).value))
      && totalScore == Earned(r.value)
      && maxScore == MaxScore(tcs)
  {
    var results: seq<CaseResult> := [];
    totalScore, maxScore := 0.0, 0.0;
    var i := 0;
    while i < |tcs|
      invariant 0 <= i <= |tcs|
      invariant |results| == i
      invariant JudgedPrefix(tcs, run, judge, results)
      invariant totalScore == Earned(results)
      invariant maxScore == MaxScore(tcs[..i])
    {
      var tc := tcs[i];
      maxScore := maxScore + tc.score;
      var outcome := run(tc);
      if outcome.Failure? {
        assert forall k :: 0 <= k < i ==> run(tcs[k]).Success?;
        RaiseIsFirst(tcs, run, i);
        return Failure(outcome.error), totalScore, maxScore;
      }
      var verdict := judge(tc, outcome.value);
      totalScore := totalScore + verdict.score;
      LoopStep(tcs, i, results, verdict);
      JudgedStep(tcs, run, judge, results, verdict);
      results := results + [verdict];
      i := i + 1;
    }
    assert tcs[..i] == tcs;
    assert NoneRaise(tcs, run);
    NoneRaiseNoFirst(tcs, run);
    r := Success(results);
  }

  /** `results` are the verdicts of the first test cases, whose runs all returned. */
  predicate JudgedPrefix(tcs: seq<TestCase>, run: Run, judge: (TestCase, Execution) -> CaseResult, results: seq<CaseResult>) {
    && |results| <= |tcs|
    && forall k :: 0 <= k < |results| ==>
         run(tcs[k]).Success? && results[k] == judge(tcs[k], run(tcs[k]).value)
  }

  /** The verdict of the next test case extends the judged prefix. */
  lemma JudgedStep(tcs: seq<TestCase>, run: Run, judge: (TestCase, Execution) -> CaseResult,
                   results: seq<CaseResult>, v: CaseResult)
    requires JudgedPrefix(tcs, run, judge, results) && |results| < |tcs|
    requires run(tcs[|results|]).Success? && v == judge(tcs[|results|], run(tcs[|results|]).value)
    ensures JudgedPrefix(tcs, run, judge, results + [v])
  {
  }

  /** One more test case judged extends the points earned and the points
      possible by that test case's share. */
  lemma LoopStep(tcs: seq<TestCase>, i: nat, results: seq<CaseResult>, v: CaseResult)
    requires i < |tcs|
    ensures Earned(results + [v]) == Earned(results) + v.score
    ensures MaxScore(tcs[..i + 1]) == MaxScore(tcs[..i]) + tcs[i].score
  {
    assert (results + [v])[..|results|] == results;
    assert tcs[..i + 1][..i] == tcs[..i];
  }

  /** A raise after runs that all returned is the first raise, and the only one. */
  lemma RaiseIsFirst(tcs: seq<TestCase>, run: Run, i: nat)
    requires i < |tcs| && run(tcs[i]).Failure?
    requires forall k :: 0 <= k < i ==> run(tcs[k]).Success?
    ensures FirstRaise(tcs, run, i)
    ensures forall j :: FirstRaise(tcs, run, j) ==> j == i
    ensures !NoneRaise(tcs, run)
  {
  }

  /** When no run raises, no test case is the first to raise. */
  lemma NoneRaiseNoFirst(tcs: seq<TestCase>, run: Run)
    requires NoneRaise(tcs, run)
    ensures forall j :: !FirstRaise(tcs, run, j)
  {
  }

  /** `evaluate_submission`. A missing exercise file and a language other than
      the exercise's are errors with score 0 and no details, and nothing runs.
      Otherwise every test case runs in order and gets one verdict; the score
      is the points earned over the points possible, times 100, or 0 when no
      points are possible. An exception from a run propagates (`Failure`). */
  method EvaluateSubmission(exercises: Exercises, exercisesDir: string, filePath: string,
                            courseId: string, exerciseId: string, language: string,
                            runPython: PythonRun, runC: CRun)
    returns (r: Result<Report, string>)
    ensures var path := ExercisePath(exercisesDir, courseId, exerciseId);
      path !in exercises ==> r == Success(Report(Status.Error, NotFoundPrefix + path, 0.0, []))
    ensures var path := ExercisePath(exercisesDir, courseId, exerciseId);
      path in exercises && exercises[path].language != language ==>
      r == Success(Report(Status.Error, MismatchMessage(exercises[path].language, language), 0.0, []))
    ensures var path := ExercisePath(exercisesDir, courseId, exerciseId);
      path in exercises && exercises[path].language == language ==>
      var tcs, run := exercises[path].testCases, RunnerFor(language, runPython, runC);
      && (forall j :: FirstRaise(tcs, run, j) ==> r == Failure(run(tcs[j]).error))
      && (NoneRaise(tcs, run) ==>
            && r.Success?
            && r.value.status == Status.Completed
            && r.value.message == DoneMessage
            && |r.value.details| == |tcs|
            && (forall i :: 0 <= i < |tcs| ==>
                  r.value.details[i] == JudgeCase(tcs[i], run(tcs[i]).value))
            && r.value.score == FinalScore(Earned(r.value.details), MaxScore(tcs)))
  {
    var path := ExercisePath(exercisesDir, courseId, exerciseId);
    if path !in exercises {
      return Success(Report(Status.Error, NotFoundPrefix + path, 0.0, []));
    }
    var exercise := exercises[path];
    if exercise.language != language {
      return Success(Report(Status.Error, MismatchMessage(exercise.language, language), 0.0, []));
    }
    var results, totalScore, maxScore := RunTestCases(exercise.testCases, RunnerFor(language, runPython, runC), JudgeCase);
    if results.Failure? {
      return Failure(results.error);
    }
    var finalScore := if maxScore > 0.0 then (totalScore / maxScore) * 100.0 else 0.0;
    return Success(Report(Status.Completed, DoneMessage, finalScore, results.value));
  }

  // ---------------------------------------------------------------------------
  // Properties of the weighted score

  /** With non-negative points, the points earned never exceed the points possible. */
  lemma {:induction false} EarnedAtMostMax(tcs: seq<TestCase>, results: seq<CaseResult>)
    requires |results| == |tcs|
    requires forall i :: 0 <= i < |tcs| ==> tcs[i].score >= 0.0
    requires forall i :: 0 <= i < |tcs| ==> results[i].score == (if results[i].success then tcs[i].score else 0.0)
    ensures 0.0 <= Earned(results) <= MaxScore(tcs)
    ensures Earned(results) == MaxScore(tcs) <== forall i :: 0 <= i < |tcs| ==> results[i].success
  {
    if tcs != [] {
      var n := |tcs| - 1;
      EarnedAtMostMax(tcs[..n], results[..n]);
    }
  }

  /** With non-negative points the weighted score lies between 0 and 100; it
      is 100 exactly when every point possible is earned (in particular when
      every test case passes), and 0 when no points are possible. */
  lemma ScoreBounds(tcs: seq<TestCase>, results: seq<CaseResult>)
    requires |results| == |tcs|
    requires forall i :: 0 <= i < |tcs| ==> tcs[i].score >= 0.0
    requires forall i :: 0 <= i < |tcs| ==> results[i].score == (if results[i].success then tcs[i].score else 0.0)
    ensures 0.0 <= FinalScore(Earned(results), MaxScore(tcs)) <= 100.0
    ensures MaxScore(tcs) > 0.0 ==>
      (FinalScore(Earned(results), MaxScore(tcs)) == 100.0 <==> Earned(results) == MaxScore(tcs))
    ensures MaxScore(tcs) > 0.0 && (forall i :: 0 <= i < |tcs| ==> results[i].success) ==>
      FinalScore(Earned(results), MaxScore(tcs)) == 100.0
  {
    EarnedAtMostMax(tcs, results);
    var total, max := Earned(results), MaxScore(tcs);
    if max > 0.0 {
      Comparator.Percentage(total, max);
    }
  }

  /** The exit code is never consulted: two runs with the same stdout and
      stderr get the same verdict. */
  lemma ExitCodeIgnored(tc: TestCase, out: string, err: string, code1: int, code2: int)
    ensures JudgeCase(tc, Execution(out, err, code1)) == JudgeCase(tc, Execution(out, err, code2))
  {
  }

  /** An exercise declared in a language the runner does not know runs
      nothing, yet each of its test cases whose expected output is blank
      passes, because the empty stdout of the refusal matches it. */
  lemma UnknownLanguageBlankExpectedPasses(language: string, tc: TestCase, runPython: PythonRun, runC: CRun)
    requires language != "python" && language != "c"
    ensures var run := RunCode(language, InputArgs(tc), runPython, runC);
      run.Success? && (JudgeCase(tc, run.value).success <==> AllSpace(tc.expectedOutput))
  {
  }
}
