/** The HTTP front of the evaluator: the Bearer-token guard, the demo login,
    the validation of an uploaded submission and of the exercise listing
    request. Token signing and decoding, `secure_filename` and `uuid4` are
    parameters; saving the file and queueing the job are not modelled. */
module Server {
  import opened Wrappers
  import opened PyStrings
  import opened Files

  const AuthHeader: string := "Authorization"
  const BearerPrefix: string := "Bearer "
  const MissingToken: string := "Token manquant"
  const InvalidToken: string := "Token invalide ou expiré"
  const MissingData: string := "Données manquantes"
  const CredentialsRequired: string := "Email et mot de passe requis"
  const BadCredentials: string := "Identifiants incorrects"
  const DemoEmail: string := "demo@coursero.com"
  const DemoPassword: string := "password"
  const DemoUserId: string := "demo123"
  const DemoFullName: string := "Utilisateur Démo"
  const CourseRequired: string := "ID de cours requis"
  const NoFile: string := "Aucun fichier fourni"
  const BadFormatPrefix: string := "Format de fichier invalide pour "
  const Submitted: string := "Code soumis avec succès"
  const PendingStatus: string := "pending"

  /** A value of the JSON request body: a string, or another value that is
      truthy or falsy. */
  datatype Json = Str(s: string) | Other(truthy: bool)

  /** The value is present and truthy, as `if not x` tests it. */
  predicate Truthy(v: Option<Json>) {
    match v
    case None => false
    case Some(Str(s)) => s != []
    case Some(Other(t)) => t
  }

  /** What a route answers: a message with its status, the login payload
      (status 200), or the acceptance of a submission (status 202). */
  datatype Reply =
    | Message(status: int, message: string)
    | LoggedIn(token: string, userId: string, email: string, fullName: string)
    | Queued(message: string, state: string)
  {
    function Status(): int {
      match this
      case Message(s, _) => s
      case LoggedIn(_, _, _, _) => 200
      case Queued(_, _) => 202
    }
  }

  // ---------------------------------------------------------------------------
  // token_required

  /** The token of the `Authorization` header: present only when the header
      starts with `Bearer ` and its second space-separated field is non-empty. */
  function BearerToken(headers: map<string, string>): (token: Option<string>)
    ensures token.Some? <==>
      && AuthHeader in headers
      && StartsWith(headers[AuthHeader], BearerPrefix)
      && |Split(headers[AuthHeader], ' ')| >= 2
      && Split(headers[AuthHeader], ' ')[1] != []
    ensures token.Some? ==> token.value == Split(headers[AuthHeader], ' ')[1] && ' ' !in token.value
  {
    if AuthHeader in headers && StartsWith(headers[AuthHeader], BearerPrefix) then
      var fields := Split(headers[AuthHeader], ' ');
      if |fields| >= 2 && fields[1] != [] then Some(fields[1]) else None
    else None
  }

  /** `jwt.decode(token, ...)["user_id"]`: `None` when decoding or the lookup raises. */
  type Decoder = string -> Option<string>

  /** The guard's decision: the user the handler runs for, or the 401 reply. */
  function Authenticate(headers: map<string, string>, decode: Decoder): (r: Result<string, Reply>)
    ensures BearerToken(headers).None? ==> r == Failure(Message(401, MissingToken))
    ensures BearerToken(headers).Some? && decode(BearerToken(headers).value).None? ==>
      r == Failure(Message(401, InvalidToken))
    ensures BearerToken(headers).Some? && decode(BearerToken(headers).value).Some? ==>
      r == Success(decode(BearerToken(headers).value).value)
  {
    match BearerToken(headers)
    case None => Failure(Message(401, MissingToken))
    case Some(t) =>
      match decode(t)
      case None => Failure(Message(401, InvalidToken))
      case Some(user) => Success(user)
  }

  /** A route wrapped by `token_required`: the handler answers for the
      decoded user, or the guard answers 401. */
  function TokenRequired(headers: map<string, string>, decode: Decoder, handler: string -> Reply): (r: Reply)
    ensures Authenticate(headers, decode).Success? ==> r == handler(Authenticate(headers, decode).value)
    ensures Authenticate(headers, decode).Failure? ==> r.Status() == 401
  {
    match Authenticate(headers, decode)
    case Success(user) => handler(user)
    case Failure(reply) => reply
  }

  /** `Bearer <t>` hands `t` to the decoder, for any token without spaces. */
  lemma BearerRoundTrip(t: string, headers: map<string, string>)
    requires t != [] && ' ' !in t
    requires AuthHeader in headers && headers[AuthHeader] == BearerPrefix + t
    ensures BearerToken(headers) == Some(t)
  {
    var h := BearerPrefix + t;
    assert h[6] == ' ' && ' ' in h;
    assert ' ' !in h[..6] by {
      assert h[..6] == "Bearer";
    }
    assert IndexOf(h, ' ') == 6;
    assert h[..6] == "Bearer" && h[7..] == t;
    assert Split(h, ' ') == ["Bearer"] + Split(t, ' ');
    assert Split(t, ' ') == [t];
    assert StartsWith(h, BearerPrefix) by {
      assert h[..|BearerPrefix|] == BearerPrefix;
    }
  }

  /** Two spaces after `Bearer` leave an empty second field: the token is
      missing even though one follows. */
  lemma DoubleSpaceMeansMissing(headers: map<string, string>, decode: Decoder)
    requires AuthHeader in headers && headers[AuthHeader] == "Bearer  x"
    ensures Authenticate(headers, decode) == Failure(Message(401, MissingToken))
  {
    var h := "Bearer  x";
    assert h[6] == ' ' && ' ' in h;
    assert ' ' !in h[..6] by {
      assert h[..6] == "Bearer";
    }
    assert IndexOf(h, ' ') == 6;
    assert h[7..] == " x";
    assert IndexOf(" x", ' ') == 0;
    assert Split(h, ' ')[1] == [];
  }

  /** When the guard refuses, the handler has no say in the reply. */
  lemma RefusedHandlerIgnored(headers: map<string, string>, decode: Decoder, h1: string -> Reply, h2: string -> Reply)
    requires Authenticate(headers, decode).Failure?
    ensures TokenRequired(headers, decode, h1) == TokenRequired(headers, decode, h2)
  {
  }

  // ---------------------------------------------------------------------------
  // login

  /** `login`: a missing or empty body is 400, a missing email or password is
      400, the demo pair is 200 with a token `sign` makes for `demo123`, and
      any other pair is 401. */
  function Login(body: Option<map<string, Json>>, sign: (string, string) -> string): (r: Reply)
    ensures body.None? || body.value == map[] ==> r == Message(400, MissingData)
    ensures body.Some? && body.value != map[] ==>
      var email := if "email" in body.value then Some(body.value["email"]) else None;
      var password := if "password" in body.value then Some(body.value["password"]) else None;
      if !Truthy(email) || !Truthy(password) then r == Message(400, CredentialsRequired)
      else if email == Some(Str(DemoEmail)) && password == Some(Str(DemoPassword)) then
        r == LoggedIn(sign(DemoUserId, DemoEmail), DemoUserId, DemoEmail, DemoFullName)
      else r == Message(401, BadCredentials)
  {
    if body.None? || body.value == map[] then Message(400, MissingData)
    else
      var data := body.value;
      var email := if "email" in data then Some(data["email"]) else None;
      var password := if "password" in data then Some(data["password"]) else None;
      if !Truthy(email) || !Truthy(password) then Message(400, CredentialsRequired)
      else if email == Some(Str(DemoEmail)) && password == Some(Str(DemoPassword)) then
        LoggedIn(sign(DemoUserId, DemoEmail), DemoUserId, DemoEmail, DemoFullName)
      else Message(401, BadCredentials)
  }

  /** Login answers 200, 400 or 401, and 200 exactly for the demo pair. */
  lemma LoginSucceedsOnlyForDemo(body: Option<map<string, Json>>, sign: (string, string) -> string)
    ensures Login(body, sign).Status() in {200, 400, 401}
    ensures Login(body, sign).Status() == 200 <==>
      && body.Some?
      && "email" in body.value && body.value["email"] == Str(DemoEmail)
      && "password" in body.value && body.value["password"] == Str(DemoPassword)
  {
    if body.Some? && "email" in body.value {
      assert body.value != map[];
    }
  }

  // ---------------------------------------------------------------------------
  // submit_code and get_exercises

  /** The extension `submit_code` demands: `''` for a language it does not know. */
  function AllowedExtension(language: string): (ext: string)
    ensures language == "python" ==> ext == ".py"
    ensures language == "c" ==> ext == ".c"
    ensures language != "python" && language != "c" ==> ext == []
  {
    if language == "python" then ".py" else if language == "c" then ".c" else ""
  }

  /** The evaluation `submit_code` hands to the evaluator once the file is saved. */
  datatype Job = Job(user: string, courseId: string, exerciseId: string, language: string, filePath: string)

  datatype SubmitOutcome = SubmitOutcome(reply: Reply, job: Option<Job>)

  /** `request.form.get(key)`, with `""` for an absent field. */
  function Field(form: map<string, string>, key: string): string {
    if key in form then form[key] else ""
  }

  /** `submit_code` for `user`: `files` maps each uploaded part to its file
      name (`""` when none was given). A missing `file` part is 400; an empty
      file name or an absent or empty course, exercise or language is 400; a
      name not ending with the language's extension (case-sensitively) is 400;
      otherwise the file is saved in `uploadFolder` as `<uuid>_<safe name>`,
      the job is handed on and the answer is 202 `pending`. */
  function Submit(user: string, files: map<string, string>, form: map<string, string>,
                  uuid: string, secureFilename: string -> string, uploadFolder: string): (r: SubmitOutcome)
    ensures "file" !in files ==> r == SubmitOutcome(Message(400, NoFile), None)
    ensures "file" in files ==>
      var name := files["file"];
      var course := Field(form, "courseId");
      var exercise := Field(form, "exerciseId");
      var language := Field(form, "language");
      if name == [] || course == [] || exercise == [] || language == [] then
        r == SubmitOutcome(Message(400, MissingData), None)
      else if !EndsWith(name, AllowedExtension(language)) then
        r == SubmitOutcome(Message(400, BadFormatPrefix + language), None)
      else
        && r.reply == Queued(Submitted, PendingStatus)
        && r.job == Some(Job(user, course, exercise, language,
                             PathJoin(uploadFolder, uuid + "_" + secureFilename(name))))
    ensures r.reply.Status() in {202, 400}
    ensures r.job.Some? <==> r.reply.Status() == 202
  {
    if "file" !in files then SubmitOutcome(Message(400, NoFile), None)
    else
      var name := files["file"];
      var course := Field(form, "courseId");
      var exercise := Field(form, "exerciseId");
      var language := Field(form, "language");
      if name == [] || course == [] || exercise == [] || language == [] then
        SubmitOutcome(Message(400, MissingData), None)
      else if !EndsWith(name, AllowedExtension(language)) then
        SubmitOutcome(Message(400, BadFormatPrefix + language), None)
      else
        var path := PathJoin(uploadFolder, uuid + "_" + secureFilename(name));
        SubmitOutcome(Queued(Submitted, PendingStatus), Some(Job(user, course, exercise, language, path)))
  }

  /** An accepted submission for Python or C has a name with that
      language's extension, and is saved below the upload folder. */
  lemma AcceptedSubmission(user: string, files: map<string, string>, form: map<string, string>,
                           uuid: string, secureFilename: string -> string, uploadFolder: string)
    requires uploadFolder != [] && uuid != [] && uuid[0] != '/'
    requires Submit(user, files, form, uuid, secureFilename, uploadFolder).job.Some?
    ensures var job := Submit(user, files, form, uuid, secureFilename, uploadFolder).job.value;
      && "file" in files
      && (job.language == "python" ==> EndsWith(files["file"], ".py"))
      && (job.language == "c" ==> EndsWith(files["file"], ".c"))
      && Within(job.filePath, uploadFolder) && job.filePath != uploadFolder
  {
    var name := files["file"];
    JoinIsWithin(uploadFolder, uuid + "_" + secureFilename(name));
  }

  /** A language the server does not know demands the empty extension, so
      every non-empty file name is accepted. */
  lemma UnknownLanguageAcceptsAnyName(user: string, files: map<string, string>, form: map<string, string>,
                                      uuid: string, secureFilename: string -> string, uploadFolder: string)
    requires "file" in files && files["file"] != []
    requires Field(form, "courseId") != [] && Field(form, "exerciseId") != []
    requires Field(form, "language") != [] && Field(form, "language") != "python" && Field(form, "language") != "c"
    ensures Submit(user, files, form, uuid, secureFilename, uploadFolder).reply == Queued(Submitted, PendingStatus)
  {
    var name := files["file"];
    assert name[|name|..] == [];
  }

  /** The server's extension check is case-sensitive: `MAIN.PY` is refused for Python. */
  lemma UpperCaseExtensionRefused(user: string, files: map<string, string>, form: map<string, string>,
                                  uuid: string, secureFilename: string -> string, uploadFolder: string)
    requires "file" in files && files["file"] == "MAIN.PY"
    requires Field(form, "courseId") != [] && Field(form, "exerciseId") != []
    requires Field(form, "language") == "python"
    ensures Submit(user, files, form, uuid, secureFilename, uploadFolder).reply
      == Message(400, BadFormatPrefix + "python")
  {
    assert "MAIN.PY"[4..] != ".py";
  }

  /** `get_exercises`: the course the database is asked about, or 400 when
      `courseId` is absent or empty. */
  function ExercisesCourse(args: map<string, string>): (r: Result<string, Reply>)
    ensures r.Failure? <==> Field(args, "courseId") == []
    ensures r.Failure? ==> r.error == Message(400, CourseRequired)
    ensures r.Success? ==> "courseId" in args && r.value == args["courseId"] && r.value != []
  {
    if Field(args, "courseId") == [] then Failure(Message(400, CourseRequired))
    else Success(args["courseId"])
  }
}
