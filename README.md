# Coursero grading core in Dafny

Coursero (3LPIC) grades programs that students upload. A student submits a
Python or C file for an exercise of a course. The backend runs the file once per
test case and compares what it prints with the expected output. It then scores
the submission, and the page shows the status and score.

This project models the grading path and the checks around it, and proves
properties of them:

- **Comparator** (`comparator.dfy`). Output normalisation: strip the whole
  text, split it into lines, right-strip each line, and join the lines with
  `\n`. Also the pass/fail decision and the percentage score.
- **App** (`app.dfy`). The count-based pipeline of `CourserEvaluator`: a
  catalog lookup, one run per test, exit-code-then-comparison verdicts, and
  the percentage of passes.
- **Evaluator** (`evaluator.dfy`). The point-weighted pipeline of
  `Evaluator`. It looks up the exercise definition and checks the language.
  A test passes when the stripped outputs are equal, whatever the exit code.
  The score is `total / max * 100`.
- **Runner** (`runner.dfy`) and **Process** (`process.dfy`). The code
  runner's limits and commands, and the C compile step with its temporary
  executable. Also the mapping of a process outcome to `(stdout, stderr,
  exit_code)`, with the sentinels -1 (timeout) and -2 (launch failure).
- **Sandbox** (`security.dfy`) over **Files** (`files.dfy`). The chroot
  environment manager works over an abstract filesystem held as the set of
  existing paths. It covers the directory layout, the copying of the
  interpreter or compiler, the parsing of `ldd` lines and where libraries
  land, the `chroot` command, and cleanup.
- **Server** (`server.dfy`). The Bearer-token guard, the demo login, and the
  validation of a submission upload and of the exercise listing request.
- **Frontend** (`frontend.dfy`). The page's file check, the status labels,
  the submissions table classification, and the application state that
  logout resets.
- **Agreement** (`agreement.dfy`). How the page's file check and the
  server's extension check agree and disagree.

`PyStrings` (`pystrings.dfy`) spells out the Python `str` builtins the code
relies on: `isspace`, `strip`, `splitlines`, `join`, `split`, `find`, `in`,
`startswith`, `endswith` and `str(int)`. `Wrappers` holds `Option` and
`Result`.

Processes, the compiler, `ldd`, JWT signing and decoding, `uuid4` and
`secure_filename` are parameters, as functions or values given to the
operations. An exception that the source lets propagate is a `Failure`.
Scores are exact `real`s.

Behaviours of the code worth knowing:

- A C file that does not compile does not stop the evaluation in
  `backend/app.py`. Each test re-runs the compiler and fails with the
  compiler's prefixed diagnostics, and the score is the percentage of passes
  (`App.AllRunsFailedScoresZero`, `App.CompileFailureFailsTest`).
- Normalisation strips all surrounding whitespace in the `str.isspace`
  sense, not one blank run.
- The sentinel exit codes are not reserved. A child that itself returns -1
  or -2 looks like a timeout or a launch failure
  (`Process.SentinelsCanCollide`).
- `Evaluator.evaluate_submission` does not catch an exception from the C
  runner. It propagates, and is modelled as a `Failure`.
- The sandbox is not used by the runner or by either pipeline.
  `cleanup(d)` removes the whole base directory, and with it every other
  environment created from the same `Sandbox` (`Sandbox.CleanupRemovesBase`).
- A library path starting with `//` is copied outside the environment
  (`Sandbox.DoubleSlashLibraryEscapes`).

## Model

| member | source | states |
|---|---|---|
| Comparator.NormalizeEnds | backend/evaluator/comparator.py:26-27 | The normal form `Normalize` computes is empty iff the text is all whitespace. Otherwise it starts and ends with a non-space character. |
| Comparator.BlankOutputMatchesBlank | backend/evaluator/comparator.py:14-29 | Under `CompareOutputs`, an all-whitespace output matches exactly the all-whitespace expected outputs. |
| Comparator.EveryLineTrailingSpaceIgnored | backend/evaluator/comparator.py:26-27 | For any lines without line boundaries, right-stripping every line before joining them changes neither the normal form nor the verdict against any expected text. |
| Comparator.InnerLineTrailingSpaceIgnored | backend/evaluator/comparator.py:26 | `"a \nb"` matches `"a\nb"`. |
| Comparator.NormalizeCore | backend/evaluator/comparator.py:26-27 | When the only non-blank lines lie between `i` and `j - 1`, both non-blank, the normal form is those lines, the first left-stripped, each right-stripped, joined with `\n`. |
| Comparator.BlankLinesNormalizeEmpty | backend/evaluator/comparator.py:26 | Lines that are all whitespace normalise to the empty text. |
| Comparator.NormalizeIgnoresSurroundingSpace | backend/evaluator/comparator.py:26 | Whitespace around the whole text does not change its normal form. |
| Comparator.NormalizeIdempotent | backend/evaluator/comparator.py:26 | Normalising a normalised text changes nothing. |
| Comparator.NormalizeGivesNormalLines | backend/evaluator/comparator.py:26-27 | Every normal form is made of lines with no boundary and no trailing whitespace, whose first line starts with a non-space character and whose last line is non-empty. |
| Comparator.NormalLinesFixed | backend/evaluator/comparator.py:26-27 | Joining such lines gives a text that normalisation leaves unchanged. |
| Comparator.CompareIsEquivalence | backend/evaluator/comparator.py:26-29 | Comparison is reflexive, symmetric and transitive. |
| Comparator.CompareWithNormalForm | backend/evaluator/comparator.py:26-29 | An output and its normal form match the same expected texts. |
| Comparator.CompareNormalTexts | backend/evaluator/comparator.py:29 | Two normal texts match only when they are identical, so content, case and inner whitespace count. |
| Comparator.CompareIgnoresSurroundingSpace | backend/evaluator/comparator.py:26 | Whitespace before and after the whole output does not change the verdict. |
| Comparator.TrailingWhitespaceIgnored | backend/evaluator/comparator.py:26 | `"a\nb \n"` matches `"a\nb"`. |
| Comparator.CaseMatters | backend/evaluator/comparator.py:29 | `"a\nb"` does not match `"a\nB"`. |
| Comparator.CountTrue | backend/evaluator/comparator.py:44 | The pass count is at most the length. It equals the length exactly when all pass, and is 0 exactly when none pass. |
| Comparator.EvaluateTestResults | backend/evaluator/comparator.py:41-45 | An empty list scores 0.0. Otherwise score × length = 100 × passes. The score lies in [0, 100], is 100 exactly when all pass and 0 exactly when none pass. |
| Comparator.Percentage | backend/evaluator/comparator.py:45 | For 0 ≤ c ≤ n and n > 0, (c/n)·100 times n is 100c and lies in [0, 100]. It is 100 iff c = n, and 0 iff c = 0. |
| Comparator.CountTrueIsMultiplicity | backend/evaluator/comparator.py:44 | The pass count is the multiplicity of `true` in the list. |
| Comparator.ScoreIgnoresOrder | backend/evaluator/comparator.py:44-45 | Two result lists that are permutations of each other get the same score. |
| Comparator.ThreeOfFour | backend/evaluator/comparator.py:44-45 | Three passes out of four score exactly 75. |
| Process.ToExecution | backend/evaluator/runner.py:101-106 | A completed process passes stdout, stderr and code through unchanged. A timeout gives `("", "Délai d'exécution dépassé", -1)` and any other exception gives `("", "Erreur lors de l'exécution: " + msg, -2)`. Among processes that did not complete, the code is -1 iff the process timed out and -2 iff it raised. |
| Process.NonNegativeCodeMeansCompleted | backend/evaluator/runner.py:101-106 | A non-negative exit code only comes from a completed process, passed through unchanged. |
| Process.SentinelsCanCollide | backend/evaluator/runner.py:101-106 | A process that returns -1 or -2 is indistinguishable, by code, from a timeout or a launch failure. |
| Runner.NewCodeRunner | backend/evaluator/runner.py:17-26 | The runner keeps the timeout and memory ceiling it is given. |
| Runner.DefaultRunner | backend/evaluator/runner.py:17 | By default the timeout is 5 s and the ceiling is 52428800 bytes. |
| Runner.PreExecLimits | backend/evaluator/runner.py:83-89 | The child's limits: address space = max_memory, processes = 0, CPU seconds = timeout. |
| Runner.ExecuteWithConstraints | backend/evaluator/runner.py:71-106 | One launch under the runner's limits and timeout, mapped by outcome as above. |
| Runner.PythonCommand | backend/evaluator/runner.py:35 | The command is `python3`, then the file, then the arguments unchanged and in order. |
| Runner.GccCommand | backend/evaluator/runner.py:51 | The compile command names gcc, the source, and the temporary executable as the output. |
| Runner.RunPythonCode | backend/evaluator/runner.py:28-36 | The interpreter command runs under the constraints. A non-negative code means the process completed. |
| Runner.RunCCode | backend/evaluator/runner.py:38-69 | A fresh temporary executable inside the temporary directory. A compiler exception propagates. A non-zero compile returns `("", "Erreur de compilation:\n" + stderr, code)` and runs nothing. Otherwise `[executable] + args` runs under the constraints. On every path the filesystem afterwards equals the one before, so the executable is gone. |
| Files.MirroredLocation | backend/evaluator/security.py:73-75 | A library at `/dir/file` is copied to `sandbox + "/dir/file"`. |
| Files.FileSystem.MakeDirs | backend/evaluator/security.py:43-48 | `os.makedirs` adds the path and every ancestor prefix, and nothing else. |
| Files.FileSystem.Copy | backend/evaluator/security.py:61 | Copying succeeds iff the source exists, and then adds exactly `dst/basename(src)`. |
| Files.FileSystem.Remove | backend/evaluator/runner.py:68-69 | Removing deletes exactly that path. |
| Files.FileSystem.RemoveTree | backend/evaluator/security.py:124 | `rmtree` deletes exactly the root and everything below it. |
| Files.FileSystem.CreateTemp | backend/evaluator/security.py:40 | `mkdtemp` adds exactly one path that did not exist, strictly inside the directory and starting with the prefix. |
| App.ArgsOf | backend/app.py:141 | A test's `args` when present, otherwise the empty list. |
| App.ExpectedOf | backend/app.py:142 | A test's `expected_output` when present, otherwise the empty text. |
| App.JudgeTest | backend/app.py:152-168 | The verdict has id i+1. It passes iff the exit code is 0 and the outputs compare equal. A non-zero code fails with stderr, or `Code d'erreur: <code>` when stderr is empty, without comparing. A zero code records the actual and expected outputs. |
| App.Successes | backend/app.py:170 | One success flag per verdict, in order. |
| App.EvaluateSubmission | backend/app.py:129-177 | A catalog miss gives 0 and the no-tests error, and runs nothing. An empty test list gives 0 and no details. An unsupported language gives 0 and its error. The first raising test gives 0 and the evaluation error. Otherwise there is one verdict per test in catalog order, each by `JudgeTest`, and the score is `evaluate_test_results` of the flags. |
| App.RunTests | backend/app.py:136-174 | The loop over the tests, for any verdict function: an unsupported language stops at the first test, the first raising run stops with its error, and otherwise verdict i judges test i's own run and the score is the percentage of passed verdicts. |
| App.AllRunsFailedScoresZero | backend/app.py:170-173 | When every run fails, the score is 0. |
| App.CompileFailureFailsTest | backend/app.py:153-159 | A compile failure fails the test with the compiler's prefixed diagnostics. |
| App.PrintedEightPasses | backend/app.py:160-168 | A program that prints `8\n` passes the expected output `8`. |
| Evaluator.ExercisePath | backend/evaluator/evaluator.py:46 | The path always ends with `<exercise>.json`. With plain relative components it is `<dir>/<course>/<exercise>.json`. |
| Evaluator.MaxScore | backend/evaluator/evaluator.py:96 | The possible points are non-negative when every score is, and positive when every score is positive and there is a case. |
| Evaluator.Earned | backend/evaluator/evaluator.py:104-105 | The earned points are 0 when no case earned anything, and non-negative when no case earned a negative amount. |
| Evaluator.InputArgs | backend/evaluator/evaluator.py:94 | One argument per input value, each its `str()`, in order. |
| Evaluator.RunCode | backend/evaluator/evaluator.py:138-143 | Python and C go to their runner. Any other language answers `("", "Langage non supporté: " + language, -1)` without running anything. Only a C run can raise. |
| Evaluator.JudgeCase | backend/evaluator/evaluator.py:95-114 | Success iff stripped stdout = stripped expected output. The case earns its score on success and 0 otherwise, and keeps its input and both stripped texts. The error is stderr when non-empty and none otherwise. |
| Evaluator.FinalScore | backend/evaluator/evaluator.py:117 | With max > 0, score × max = 100 × total. Otherwise the score is 0. |
| Evaluator.RunTestCases | backend/evaluator/evaluator.py:88-114 | The test cases run in order. The first raising run propagates its error. Otherwise result i is the verdict of case i, the total is the points earned and the maximum is the sum of all scores. |
| Evaluator.EvaluateSubmission | backend/evaluator/evaluator.py:67-124 | A missing exercise file gives `error`, `Exercice non trouvé: <path>`, score 0 and no details. A language mismatch gives `error` with the expected and received languages, and runs nothing. Otherwise the result is `completed` with `Évaluation terminée`, one verdict per case, and `FinalScore` of earned over possible points. |
| Evaluator.EarnedAtMostMax | backend/evaluator/evaluator.py:96-105 | With non-negative scores, 0 ≤ earned ≤ possible, with equality when every case passes. |
| Evaluator.ScoreBounds | backend/evaluator/evaluator.py:117 | With non-negative scores the final score lies in [0, 100], and it is 100 exactly when every point is earned. |
| Evaluator.ExitCodeIgnored | backend/evaluator/evaluator.py:99-103 | Two runs that differ only in exit code get the same verdict. |
| Evaluator.UnknownLanguageBlankExpectedPasses | backend/evaluator/evaluator.py:138-143 | For an unknown language nothing runs. A case still passes exactly when its expected output is all whitespace. |
| Sandbox.Sandbox.constructor | backend/evaluator/security.py:28 | A given base directory is kept and nothing changes. An empty one is replaced by a fresh `coursero_sandbox_…` directory in the temporary directory. |
| Sandbox.Sandbox.CreateSandboxEnvironment | backend/evaluator/security.py:40-56 | A fresh `tmp…` directory strictly inside the base directory. On success the six layout directories exist. The whole new filesystem is stated per language: Python gets the interpreter and the `ldd` libraries, C gets the compiler and the libc copies, any other language gets the bare layout. A missing binary or a failing `ldd` gives `Failure`. A missing base directory gives `Failure` and changes nothing, as `mkdtemp` raises there; this is the case after `cleanup` has removed the base directory. |
| Sandbox.Sandbox.CopyPythonEnvironment | backend/evaluator/security.py:58-75 | A missing interpreter fails and changes nothing. A failing `ldd` leaves only the interpreter copy. Otherwise every `ldd` line is processed in order. |
| Sandbox.Sandbox.CopyLddLine | backend/evaluator/security.py:70-75 | One line copies its library exactly when it names a non-empty existing path. |
| Sandbox.Sandbox.CopyLibc | backend/evaluator/security.py:85-88 | One pass of the libc loop: an existing library is copied to its mirrored directory, and a missing one changes nothing. |
| Sandbox.Sandbox.CopyCEnvironment | backend/evaluator/security.py:77-88 | A missing compiler fails. Otherwise the compiler is copied, then each existing libc in order. |
| Sandbox.Sandbox.Cleanup | backend/evaluator/security.py:121-127 | Remove the environment tree when it exists. Then remove the base directory tree when it exists and differs from the environment. |
| Sandbox.LddLibPath | backend/evaluator/security.py:70-71 | A path is yielded iff the line contains `=>` and not `not found`. The path has no space and does not start with whitespace. |
| Sandbox.LddLineNamesPath | backend/evaluator/security.py:70-71 | A line `name => path (addr)` yields exactly `path`. |
| Sandbox.CopyLibrary | backend/evaluator/security.py:73-75 | Copying a library only adds paths. |
| Sandbox.LayoutExists | backend/evaluator/security.py:43-48 | Once laid out, all six layout directories exist. |
| Sandbox.LayoutInsideSandbox | backend/evaluator/security.py:43-48 | Every layout directory lies strictly inside the environment. |
| Sandbox.LibrariesOnlyAdd | backend/evaluator/security.py:84-88 | The libc loop only adds paths. |
| Sandbox.CopiesOnlyAdd | backend/evaluator/security.py:69-75 | The `ldd` loop only adds paths. |
| Sandbox.LibraryMirrored | backend/evaluator/security.py:73-75 | An existing library `/dir/file` appears at `sandbox + "/dir/file"`, strictly inside the environment. |
| Sandbox.DoubleSlashLibraryEscapes | backend/evaluator/security.py:73 | The library `//x/y` is copied to `/x/y`, which lies outside a `/tmp/…` environment. |
| Sandbox.ExecuteInSandbox | backend/evaluator/security.py:102-119 | `["chroot", dir] + cmd` runs with a 5 s timeout. Completion passes through, a timeout gives -1 and any other exception gives -2. |
| Sandbox.CleanedPaths | backend/evaluator/security.py:121-127 | Cleanup only removes paths. Paths outside both trees stay. An existing environment leaves nothing below it, and an existing base directory that differs from the environment and is not inside it leaves nothing below it. |
| Sandbox.CleanupRemovesBase | backend/evaluator/security.py:123-127 | When the base directory existed, nothing below it remains and the environment is gone. |
| Sandbox.CleanupIdempotent | backend/evaluator/security.py:123-127 | A second cleanup with the same argument changes nothing. |
| Server.BearerToken | backend/server.py:45-54 | A token exists iff the header is present, starts with `Bearer ` and has a non-empty second space-separated field. The token is that field and has no space. |
| Server.Authenticate | backend/server.py:45-61 | No token gives 401 `Token manquant`, an undecodable token gives 401 `Token invalide ou expiré`, and otherwise the decoded user. |
| Server.TokenRequired | backend/server.py:42-65 | The handler answers for the decoded user. Otherwise the reply is 401. |
| Server.BearerRoundTrip | backend/server.py:48-51 | `Bearer <t>` yields `t` for any non-empty token without spaces. |
| Server.DoubleSpaceMeansMissing | backend/server.py:50-54 | `Bearer  x` counts as a missing token. |
| Server.RefusedHandlerIgnored | backend/server.py:53-63 | When the guard refuses, the handler does not affect the reply. |
| Server.Login | backend/server.py:70-100 | A missing or empty body gives 400. A missing or falsy email or password gives 400. The demo pair gives 200 with `demo123`. Anything else gives 401. |
| Server.LoginSucceedsOnlyForDemo | backend/server.py:83-100 | Login answers 200, 400 or 401, and 200 exactly for the demo pair. |
| Server.AllowedExtension | backend/server.py:144-149 | `.py` for python, `.c` for c, and `''` for anything else. |
| Server.Submit | backend/server.py:131-164 | A missing file part gives 400. An empty name or field gives 400. A wrong extension gives 400 naming the language. Otherwise 202 `pending`, with a job for the file saved as `<uuid>_<safe name>` in the upload folder. A job exists iff the status is 202. |
| Server.AcceptedSubmission | backend/server.py:149-155 | An accepted Python or C file ends with its extension and is saved strictly inside the upload folder. |
| Server.UnknownLanguageAcceptsAnyName | backend/server.py:149 | An unknown language accepts every non-empty file name. |
| Server.UpperCaseExtensionRefused | backend/server.py:149-150 | `MAIN.PY` is refused for python. |
| Server.ExercisesCourse | backend/server.py:113-115 | An absent or empty `courseId` gives 400 `ID de cours requis`. Otherwise the database is asked about that course. |
| Frontend.Extension | frontend/script.js:293-295 | The extension is a suffix of the lower-cased name. With a `.` in the name it starts at the last `.` and holds no other. Without one it is the last character, lower-cased. |
| Frontend.AllowedExtension | frontend/script.js:288-291 | Only python and c have an allowed extension. |
| Frontend.ValidateFile | frontend/script.js:285-297 | A file passes iff one is given, the language has an extension, and the lower-cased name from its last `.` equals it. |
| Frontend.ExtensionMatches | frontend/script.js:293-296 | For `.py` and `.c`, the extension taken from a name equals it iff the name ends with it, ignoring case. |
| Frontend.ValidateFileIff | frontend/script.js:285-297 | A file passes iff the language is python and the name ends with `.py` in any case, or the language is c and the name ends with `.c`. |
| Frontend.UpperCaseNamePasses | frontend/script.js:293-296 | `MAIN.PY` passes for python. |
| Frontend.TranslateStatus | frontend/script.js:359-368 | The four known statuses map to their French labels. Any other status is shown unchanged. |
| Frontend.TranslateStatusCollision | frontend/script.js:367 | Known statuses get distinct labels, but the unknown status `Erreur` is shown like `error`. |
| Frontend.RowOf | frontend/script.js:333-353 | Class `success` iff completed, class `error` iff error, and no class otherwise. The score shows as `<score>%` only when completed and `-` otherwise. The row carries the translated status and the submission's names. |
| Frontend.ScoreShownOnlyWhenCompleted | frontend/script.js:334-343 | A score rather than `-` is shown exactly for a completed submission. |
| Frontend.Rows | frontend/script.js:332-355 | One row per submission, in order. |
| Frontend.UploadCheck | frontend/script.js:227-235 | Any missing field or file refuses with `Veuillez remplir tous les champs` before the file is checked. An invalid file refuses with `Format de fichier invalide`. Otherwise the form is sent, and whatever is sent is python or c with a name ending in its extension in any case. |
| Frontend.AppState.constructor | frontend/script.js:10-16 | The page starts signed out, with no user, submissions, courses or exercises. |
| Frontend.AppState.CheckAuthState | frontend/script.js:41-51 | A stored token and user sign the page in. If the stored user is JSON, the user is that text; if not, the parse throws, the page stays signed in and the user is unchanged. Otherwise the session is unchanged. |
| Frontend.AppState.HandleLogout | frontend/script.js:117-125 | `token` and `user` leave storage. The page is signed out with no user and no submissions. Courses, exercises and the table's rows, now hidden with the dashboard, are unchanged, and a reload would not restore the session. |
| Frontend.AppState.UpdateSubmissionsTable | frontend/script.js:327-356 | With a table and at least one submission, the rows are rebuilt. Otherwise the old rows stay. |
| Frontend.AppState.HandleLoginSuccess | frontend/script.js:99-106 | An accepted login stores the token and the user and signs the page in. Submissions and rows are unchanged. |
| Frontend.AppState.ReceiveSubmissions | frontend/script.js:195-212 | The fetched submissions replace the old ones, and the table is rebuilt from them only when it exists and they are not empty. |
| Frontend.LoadPage | frontend/script.js:32-51 | A fresh page is signed in iff storage holds a non-empty token and user. With a JSON user it gets the fetched submissions and their rows. With a non-JSON user the handler stops before `setupEventListeners`: the page is signed in with no user, submissions or rows. A page without a session has no user, submissions or rows. |
| Frontend.LogoutThenReload | frontend/script.js:10-16 | After logout, a reload over the same storage gives a new page that is signed out with no submissions and an empty table, whatever the server would answer. |
| Frontend.LogoutKeepsTableRows | frontend/script.js:117-125 | Without a reload, logging out and logging in again, as any user, leaves the previous rows in the table and no submissions, because login fetches none. |
| Agreement.ServerAcceptedPasses | backend/server.py:144-150 | For python and c, every name the server accepts also passes the page. |
| Agreement.LowerCasePassesServer | frontend/script.js:285-297 | Every name without upper case that passes the page passes the server's extension check. |
| Agreement.ChecksDisagree | backend/server.py:149 | `MAIN.PY` passes the page and not the server. `Main.java` passes the server's check and not the page. |

## Left out

- The job queue (`backend/task_queue/`) and the database (`backend/db/`) are not part of this model. They cover concurrency and SQL.
- `app.py` `_load_test_cases`, `submit_code` and `update_db` are not modelled. They cover directory walks, JSON loading, database writes and file removal. The catalog is a given map.
- App.EvaluateSubmission: the only exception modelled is a C compile step that raises. A malformed catalog entry that would raise a `KeyError` or `TypeError` is not modelled.
- Evaluator.EvaluateSubmission: an exercise file is modelled as present or absent in a map of parsed definitions. Unreadable or malformed JSON, and missing keys, are not modelled.
- Evaluator.InputArgs: `str()` is modelled for strings, integers and booleans only. Floats, `None` and nested values are not modelled.
- Evaluator.FinalScore and Comparator.EvaluateTestResults use exact reals. IEEE float rounding is not modelled.
- Runner.RunCCode: the temporary executable's random name is modelled as a fresh name in a temporary directory fixed to `/tmp`.
- Runner.PreExecLimits: the model cannot show that the limits are enforced, only which limits are requested.
- Files.FileSystem.CreateTemp: it does not fail when the directory is missing. Sandbox.Sandbox.CreateSandboxEnvironment checks its base directory first. The constructor and the C runner use the temporary directory, which the model takes to exist.
- Files.FileSystem: paths are plain strings. There is no distinction between files and directories, no permissions, and no rule that a parent exists.
- Sandbox.Sandbox.CreateSandboxEnvironment: a missing base directory, interpreter or compiler is a `Failure` whose text approximates the `FileNotFoundError` message. The `ldd` output is a parameter.
- Sandbox.CleanupRemovesBase: it only holds when the base directory itself is in the path set.
- Sandbox.ExecuteInSandbox: the effect of `chroot` is not modelled. The launch is a parameter.
- Server.BearerToken: Flask headers are looked up case-insensitively. The model uses the exact key `Authorization`.
- Server.Login: the body is absent or a JSON object. A non-object JSON body that Python treats as true, such as `[1]` or `5`, raises at `data.get`; that path is not modelled. One that Python treats as false, such as `[]` or `0`, gets the 400 of an empty body, which the model's absent body covers. The token's expiry time is not modelled.
- Server.Submit: `file.save` and `evaluator.submit_code` are side effects. They are represented by the returned job, not performed.
- The `get_courses` and `get_submissions` routes are not modelled. They only call the database.
- Frontend.ValidateFile: `toLowerCase` is modelled for ASCII letters only. Length-changing Unicode case mappings are not modelled.
- Frontend.TranslateStatus: inherited object keys such as `toString` return functions in JavaScript. That case is not modelled.
- Frontend.RowOf: how JavaScript prints a number is not modelled. The score's text is given.
- The requests of `handleLogin` and `fetchUserSubmissions` are not modelled. Only their successful answers are, as `HandleLoginSuccess` and `ReceiveSubmissions`. A failed login shows a notification. A failed submissions fetch is only logged to the console and leaves the submissions as they were.
- Frontend.AppState.CheckAuthState, Frontend.LoadPage: whether the stored user is JSON text is an input, because JSON parsing is not modelled. A parsed user is kept as its stored text, not as the parsed object.
- `loadAvailableCourses`, `loadExercisesForCourse`, the DOM updates, notifications and timers are not modelled. They are network and display plumbing.
