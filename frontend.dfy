/** The browser side: the file check before an upload, the French status
    labels and the classification of the submissions table, and the
    application state that logging out resets. The DOM, `fetch`, timers and
    notifications are not modelled; `localStorage` is a map. */
module Frontend {
  import opened Wrappers
  import opened Files

  const FillAllFields: string := "Veuillez remplir tous les champs"
  const InvalidFormat: string := "Format de fichier invalide"

  /** `toLowerCase` on one character, for the ASCII letters. */
  function LowerChar(c: char): (l: char)
    ensures l == '.' <==> c == '.'
    ensures 'A' <= c <= 'Z' ==> l != c
  {
    if 'A' <= c <= 'Z' then (c as int + 32) as char else c
  }

  /** `s.toLowerCase()`: character by character, the length kept. */
  function Lower(s: string): (r: string)
    ensures |r| == |s|
    ensures forall i :: 0 <= i < |s| ==> r[i] == LowerChar(s[i])
  {
    seq(|s|, i requires 0 <= i < |s| => LowerChar(s[i]))
  }

  /** `s.slice(k)`: a negative start counts from the end, clamped to 0. */
  function JsSlice(s: string, k: int): (r: string)
    ensures k >= 0 ==> r == if k <= |s| then s[k..] else []
    ensures k < 0 ==> r == s[if |s| + k < 0 then 0 else |s| + k..]
  {
    if k < 0 then s[if |s| + k < 0 then 0 else |s| + k..]
    else if k <= |s| then s[k..]
    else []
  }

  /** The extension `validateFile` compares,
      `name.toLowerCase().slice(name.lastIndexOf("."))`: the lower-cased name
      from the last `.` onward; without a `.`, the slice from -1 is its last
      character. */
  function Extension(name: string): (ext: string)
    ensures |ext| <= |name| && ext == Lower(name)[|name| - |ext|..]
    ensures '.' in name ==> ext != [] && ext[0] == '.' && '.' !in ext[1..]
    ensures '.' !in name && name != [] ==> ext == [LowerChar(name[|name| - 1])]
    ensures name == [] ==> ext == []
  {
    var k := RFind(name, '.');
    if k >= 0 then
      DotlessTail(name, k);
      JsSlice(Lower(name), k)
    else
      assert '.' !in name;
      JsSlice(Lower(name), k)
  }

  /** Past the last `.` of `name`, its lower-cased form holds no `.` either. */
  lemma DotlessTail(name: string, k: int)
    requires 0 <= k < |name| && name[k] == '.'
    requires forall j :: k < j < |name| ==> name[j] != '.'
    ensures Lower(name)[k] == '.' && '.' !in Lower(name)[k + 1..]
  {
    var tail := Lower(name)[k + 1..];
    forall j | 0 <= j < |tail|
      ensures tail[j] != '.'
    {
      assert tail[j] == LowerChar(name[k + 1 + j]);
    }
  }

  /** `allowedExtensions[language]`: undefined for any other language. */
  function AllowedExtension(language: string): (ext: Option<string>)
    ensures ext.Some? <==> language == "python" || language == "c"
  {
    if language == "python" then Some(".py")
    else if language == "c" then Some(".c")
    else None
  }

  /** `validateFile(file, language)`, the file given by its name. */
  function ValidateFile(file: Option<string>, language: string): (ok: bool)
    ensures ok <==> file.Some? && AllowedExtension(language).Some?
                    && Extension(file.value) == AllowedExtension(language).value
  {
    match file
    case None => false
    case Some(name) =>
      match AllowedExtension(language)
      case None => false
      case Some(ext) => Extension(name) == ext
  }

  /** `name` ends with `ext` once lower-cased. */
  predicate EndsWithIgnoringCase(name: string, ext: string) {
    |ext| <= |name| && Lower(name[|name| - |ext|..]) == ext
  }

  /** For a lower-case extension starting with its only `.`, the extension
      taken from the name is it exactly when the name ends with it up to case. */
  lemma ExtensionMatches(name: string, ext: string)
    requires |ext| >= 2 && ext[0] == '.' && Lower(ext) == ext
    requires forall i :: 1 <= i < |ext| ==> ext[i] != '.'
    ensures Extension(name) == ext <==> EndsWithIgnoringCase(name, ext)
  {
    var k := RFind(name, '.');
    if Extension(name) == ext {
      assert '.' in name;
      assert k >= 0;
      assert Lower(name)[k..] == ext;
      assert |name| - k == |ext|;
      LowerSuffix(name, k);
    }
    if EndsWithIgnoringCase(name, ext) {
      var j := |name| - |ext|;
      assert LowerChar(name[j]) == Lower(name[j..])[0] == '.';
      forall i | j < i < |name|
        ensures name[i] != '.'
      {
        assert LowerChar(name[i]) == Lower(name[j..])[i - j] == ext[i - j];
      }
      assert k == j;
      LowerSuffix(name, j);
    }
  }

  /** Lower-casing commutes with taking a suffix. */
  lemma LowerSuffix(name: string, k: int)
    requires 0 <= k <= |name|
    ensures Lower(name[k..]) == Lower(name)[k..]
  {
    var a, b := Lower(name[k..]), Lower(name)[k..];
    assert |a| == |b|;
    forall i | 0 <= i < |a|
      ensures a[i] == b[i]
    {
      assert a[i] == LowerChar(name[k + i]);
    }
  }

  /** A file passes exactly when the language is Python or C and its name ends
      with `.py` or `.c` in any case. */
  lemma ValidateFileIff(name: string, language: string)
    ensures ValidateFile(Some(name), language) <==>
      || (language == "python" && EndsWithIgnoringCase(name, ".py"))
      || (language == "c" && EndsWithIgnoringCase(name, ".c"))
  {
    if language == "python" {
      PythonFileIff(name);
    } else if language == "c" {
      CFileIff(name);
    }
  }

  /** For Python, the name must end with `.py` in any case. */
  lemma PythonFileIff(name: string)
    ensures ValidateFile(Some(name), "python") <==> EndsWithIgnoringCase(name, ".py")
  {
    LowerExtensions();
    ExtensionMatches(name, ".py");
  }

  /** For C, the name must end with `.c` in any case. */
  lemma CFileIff(name: string)
    ensures ValidateFile(Some(name), "c") <==> EndsWithIgnoringCase(name, ".c")
  {
    LowerExtensions();
    ExtensionMatches(name, ".c");
  }

  /** Both allowed extensions are already lower case. */
  lemma LowerExtensions()
    ensures Lower(".py") == ".py" && Lower(".c") == ".c"
  {
    assert Lower(".py")[1] == 'p' && Lower(".py")[2] == 'y';
  }

  /** Upper case does not matter here: `MAIN.PY` passes for Python. */
  lemma UpperCaseNamePasses()
    ensures ValidateFile(Some("MAIN.PY"), "python")
  {
    assert Lower("MAIN.PY"[4..]) == ".py";
    ValidateFileIff("MAIN.PY", "python");
  }

  /** `translateStatus`: the four known statuses in French, any other as is. */
  function TranslateStatus(status: string): (shown: string)
    ensures status == "pending" ==> shown == "En attente"
    ensures status == "processing" ==> shown == "En cours d'évaluation"
    ensures status == "completed" ==> shown == "Évalué"
    ensures status == "error" ==> shown == "Erreur"
    ensures status !in {"pending", "processing", "completed", "error"} ==> shown == status
  {
    if status == "pending" then "En attente"
    else if status == "processing" then "En cours d'évaluation"
    else if status == "completed" then "Évalué"
    else if status == "error" then "Erreur"
    else status
  }

  /** The known statuses get distinct labels, but an unknown status spelled
      like a label is shown the same as the status it translates. */
  lemma TranslateStatusCollision()
    ensures forall s, t ::
      (s in {"pending", "processing", "completed", "error"} && t in {"pending", "processing", "completed", "error"}
       && TranslateStatus(s) == TranslateStatus(t)) ==> s == t
    ensures TranslateStatus("Erreur") == TranslateStatus("error")
  {
  }

  /** One submission as the server lists it; `scoreText` is how the score
      prints. */
  datatype Submission = Submission(courseName: string, exerciseName: string, language: string,
                                   status: string, scoreText: string)

  /** One row of the submissions table. */
  datatype Row = Row(courseName: string, exerciseName: string, language: string,
                     statusClass: string, statusLabel: string, scoreDisplay: string)

  /** The row for a submission: only a completed one shows its score, with
      class `success`; an error gets class `error`; all else shows `-`. */
  function RowOf(sub: Submission): (row: Row)
    ensures row.statusClass == "success" <==> sub.status == "completed"
    ensures row.statusClass == "error" <==> sub.status == "error"
    ensures row.statusClass == [] <==> sub.status != "completed" && sub.status != "error"
    ensures row.scoreDisplay == if sub.status == "completed" then sub.scoreText + "%" else "-"
    ensures row.statusLabel == TranslateStatus(sub.status)
    ensures row.courseName == sub.courseName && row.exerciseName == sub.exerciseName
    ensures row.language == sub.language
  {
    var statusClass := if sub.status == "completed" then "success"
                       else if sub.status == "error" then "error" else "";
    var scoreDisplay := if sub.status == "completed" then sub.scoreText + "%" else "-";
    Row(sub.courseName, sub.exerciseName, sub.language, statusClass, TranslateStatus(sub.status), scoreDisplay)
  }

  /** A score is shown, rather than `-`, exactly for a completed submission. */
  lemma ScoreShownOnlyWhenCompleted(sub: Submission)
    ensures RowOf(sub).scoreDisplay != "-" <==> sub.status == "completed"
  {
    if sub.status == "completed" {
      var d := sub.scoreText + "%";
      assert d[|d| - 1] == '%';
    }
  }

  /** The table's rows: one per submission, in order. */
  function Rows(subs: seq<Submission>): (rows: seq<Row>)
    ensures |rows| == |subs|
    ensures forall i :: 0 <= i < |subs| ==> rows[i] == RowOf(subs[i])
  {
    seq(|subs|, i requires 0 <= i < |subs| => RowOf(subs[i]))
  }

  /** `checkAuthState` signs in again when both `token` and `user` are stored. */
  predicate RestoresSession(storage: map<string, string>) {
    "token" in storage && storage["token"] != [] && "user" in storage && storage["user"] != []
  }

  /** What `handleUpload` does with the form before sending anything. */
  datatype UploadStep =
    | Refused(message: string)
    | Send(courseId: string, exerciseId: string, language: string, fileName: string)

  /** `handleUpload`'s checks: every field is required before the file is
      checked, and an invalid file stops the upload, so whatever is sent names
      python or c and a file ending in its extension in any case. */
  function UploadCheck(courseId: string, exerciseId: string, language: string, file: Option<string>): (step: UploadStep)
    ensures courseId == [] || exerciseId == [] || language == [] || file.None? ==>
      step == Refused(FillAllFields)
    ensures courseId != [] && exerciseId != [] && language != [] && file.Some? ==>
      if ValidateFile(file, language) then step == Send(courseId, exerciseId, language, file.value)
      else step == Refused(InvalidFormat)
    ensures step.Send? ==>
      || (language == "python" && EndsWithIgnoringCase(file.value, ".py"))
      || (language == "c" && EndsWithIgnoringCase(file.value, ".c"))
  {
    if courseId == [] || exerciseId == [] || language == [] || file.None? then Refused(FillAllFields)
    else if !ValidateFile(file, language) then Refused(InvalidFormat)
    else
      ValidateFileIff(file.value, language);
      Send(courseId, exerciseId, language, file.value)
  }

  /** `appState` together with the browser's `localStorage` and the rows the
      submissions table shows. */
  class AppState {
    var isAuthenticated: bool
    var user: Option<string>
    var submissions: seq<Submission>
    var availableCourses: seq<string>
    var availableExercises: map<string, seq<string>>
    var storage: map<string, string>
    var table: seq<Row>

    /** The state the page starts in, over what `localStorage` holds. */
    constructor (storage: map<string, string>)
      ensures !isAuthenticated && user.None? && submissions == []
      ensures availableCourses == [] && availableExercises == map[]
      ensures this.storage == storage && table == []
    {
      isAuthenticated := false;
      user := None;
      submissions := [];
      availableCourses := [];
      availableExercises := map[];
      this.storage := storage;
      table := [];
    }

    /** `checkAuthState`: a stored token and user sign the page in. The
        flag is set first; `JSON.parse` of the stored user then runs, and
        `userParses` says whether the stored text is JSON. When it is not,
        the parse throws: the page stays signed in, the user keeps its old
        value and nothing after the parse runs. Otherwise the user is the
        stored text and the submissions fetch starts, which is
        `ReceiveSubmissions` in `LoadPage`. */
    method CheckAuthState(userParses: bool) returns (threw: bool)
      modifies this
      ensures threw <==> RestoresSession(old(storage)) && !userParses
      ensures RestoresSession(old(storage)) ==> isAuthenticated
      ensures RestoresSession(old(storage)) && userParses ==> user == Some(old(storage)["user"])
      ensures !RestoresSession(old(storage)) || !userParses ==> user == old(user)
      ensures !RestoresSession(old(storage)) ==> isAuthenticated == old(isAuthenticated)
      ensures storage == old(storage) && submissions == old(submissions) && table == old(table)
      ensures availableCourses == old(availableCourses) && availableExercises == old(availableExercises)
    {
      threw := false;
      if "token" in storage && storage["token"] != [] && "user" in storage && storage["user"] != [] {
        isAuthenticated := true;
        if !userParses {
          return true;
        }
        user := Some(storage["user"]);
      }
    }

    /** `handleLogin` once the server accepted the credentials and answered
        with `token` and the user's JSON text: both are stored and the page
        signs in; the submissions are not fetched again. */
    method HandleLoginSuccess(token: string, userJson: string)
      modifies this
      ensures storage == old(storage)["token" := token]["user" := userJson]
      ensures isAuthenticated && user == Some(userJson)
      ensures submissions == old(submissions) && table == old(table)
      ensures availableCourses == old(availableCourses) && availableExercises == old(availableExercises)
    {
      storage := storage["token" := token]["user" := userJson];
      isAuthenticated := true;
      user := Some(userJson);
    }

    /** `fetchUserSubmissions` once the server answered with `subs`: they
        replace the submissions and the table is refreshed from them. */
    method ReceiveSubmissions(subs: seq<Submission>, tableOnPage: bool)
      modifies this
      ensures submissions == subs
      ensures tableOnPage && subs != [] ==> table == Rows(subs)
      ensures !tableOnPage || subs == [] ==> table == old(table)
      ensures isAuthenticated == old(isAuthenticated) && user == old(user) && storage == old(storage)
      ensures availableCourses == old(availableCourses) && availableExercises == old(availableExercises)
    {
      submissions := subs;
      UpdateSubmissionsTable(tableOnPage);
    }

    /** `handleLogout`: the token and user leave storage, the session and the
        submissions are cleared; courses, exercises and the table's rows stay,
        though the dashboard that holds the table is hidden. */
    method HandleLogout()
      modifies this
      ensures storage == old(storage) - {"token", "user"}
      ensures !isAuthenticated && user.None? && submissions == []
      ensures availableCourses == old(availableCourses) && availableExercises == old(availableExercises)
      ensures table == old(table)
      ensures !RestoresSession(storage)
    {
      storage := storage - {"token", "user"};
      isAuthenticated := false;
      user := None;
      submissions := [];
    }

    /** `updateSubmissionsTable`: with a table on the page and at least one
        submission, the rows are rebuilt; otherwise the table keeps its rows. */
    method UpdateSubmissionsTable(tableOnPage: bool)
      modifies this
      ensures tableOnPage && submissions != [] ==> table == Rows(submissions)
      ensures !tableOnPage || submissions == [] ==> table == old(table)
      ensures isAuthenticated == old(isAuthenticated) && user == old(user) && storage == old(storage)
      ensures submissions == old(submissions)
      ensures availableCourses == old(availableCourses) && availableExercises == old(availableExercises)
    {
      if tableOnPage && |submissions| > 0 {
        table := Rows(submissions);
      }
    }
  }

  /** The `DOMContentLoaded` handler on a freshly loaded page over the
      `localStorage` contents `storage`: `checkAuthState` runs, and a restored
      session fetches the user's submissions, here the answer `subs`.
      `userParses` says whether the stored user is JSON text; when it is not,
      `checkAuthState` throws, which ends the handler before
      `setupEventListeners`: `listening` says whether the handler got there. */
  method LoadPage(storage: map<string, string>, userParses: bool, subs: seq<Submission>, tableOnPage: bool)
    returns (page: AppState, listening: bool)
    ensures fresh(page) && page.storage == storage
    ensures page.isAuthenticated <==> RestoresSession(storage)
    ensures listening <==> !RestoresSession(storage) || userParses
    ensures RestoresSession(storage) && userParses ==>
      && page.user == Some(storage["user"]) && page.submissions == subs
      && page.table == if tableOnPage && subs != [] then Rows(subs) else []
    ensures RestoresSession(storage) && !userParses ==>
      page.user.None? && page.submissions == [] && page.table == []
    ensures !RestoresSession(storage) ==> page.user.None? && page.submissions == [] && page.table == []
  {
    page := new AppState(storage);
    var threw := page.CheckAuthState(userParses);
    if threw {
      return page, false;
    }
    listening := true;
    if page.isAuthenticated {
      page.ReceiveSubmissions(subs, tableOnPage);
    }
  }

  /** Logging out and then loading the page again: the reload starts a new
      page over the same `localStorage`, which no longer restores a session,
      so the new page is signed out with an empty table whatever the server
      would answer. */
  method LogoutThenReload(state: AppState, userParses: bool, subs: seq<Submission>, tableOnPage: bool)
    returns (page: AppState)
    modifies state
    ensures fresh(page)
    ensures page.storage == old(state.storage) - {"token", "user"}
    ensures !page.isAuthenticated && page.user.None? && page.submissions == [] && page.table == []
  {
    state.HandleLogout();
    var listening;
    page, listening := LoadPage(state.storage, userParses, subs, tableOnPage);
  }

  /** Without a reload, the rows shown before a logout stay in the hidden
      table, and the next sign-in shows them again: logging in fetches no
      submissions, so another user sees the previous user's rows. */
  method LogoutKeepsTableRows(state: AppState, token: string, userJson: string)
    modifies state
    ensures state.isAuthenticated && state.user == Some(userJson)
    ensures state.submissions == []
    ensures state.table == old(state.table)
  {
    state.HandleLogout();
    state.HandleLoginSuccess(token, userJson);
  }
}
