/**
 * The decision logic of the account handlers (controllers/auth_controller.go):
 * CreateUser, LoginUser and GetUserProfile, each a chain of early returns.
 * Every library call the handlers make (bcrypt, the JWT library, the
 * database, the file system, the JSON decoder) is a parameter giving that
 * call's result, so the contracts can say which values reach which call.
 */
module AuthController {
  import opened Wrappers
  import opened Models
  import opened AuthHelper
  import opened Authorization

  /** respondWithError: the JSON envelope of every error the handlers report this way. */
  function RespondWithError(code: int, message: string): (r: HttpResponse)
    ensures r.code == code && r.body.Envelope?
    ensures !r.body.status && r.body.message == message
    ensures r.body.data == NoData && r.body.token == ""
  {
    HttpResponse(code, Envelope(false, message, NoData, ""))
  }

  /** http.Error: a plain-text error body, no envelope. */
  function PlainError(code: int, message: string): HttpResponse
  {
    HttpResponse(code, PlainText(message))
  }

  /** The JSON refusal the story handlers send when the gate refuses a request. */
  function GateRefusal(e: AuthError): HttpResponse
  {
    RespondWithError(StatusUnauthorized, AuthErrorMessage(e))
  }

  // ---------------------------------------------------------------- upload path

  function DigitChar(d: nat): char
    requires d < 10
  {
    "0123456789"[d]
  }

  /** The decimal digits of a natural number, most significant first. */
  function Digits(n: nat): (s: string)
    ensures s != [] && forall k :: 0 <= k < |s| ==> '0' <= s[k] <= '9'
  {
    if n < 10 then [DigitChar(n)] else Digits(n / 10) + [DigitChar(n % 10)]
  }

  /** The number a string of decimal digits denotes. */
  function DigitsValue(s: string): int
  {
    if s == [] then 0 else DigitsValue(s[..|s| - 1]) * 10 + (s[|s| - 1] as int - '0' as int)
  }

  lemma {:induction false} DigitsRoundTrip(n: nat)
    ensures DigitsValue(Digits(n)) == n
  {
    var s := Digits(n);
    if n >= 10 {
      DigitsRoundTrip(n / 10);
      assert s[..|s| - 1] == Digits(n / 10);
    }
  }

  /** %d: an optional minus sign followed by the digits. */
  function DecimalString(n: int): string
  {
    if n < 0 then "-" + Digits(-n) else Digits(n)
  }

  /** The number a %d rendering denotes. */
  function DecimalValue(s: string): int
  {
    if s != [] && s[0] == '-' then -DigitsValue(s[1..]) else DigitsValue(s)
  }

  /** A %d rendering is never empty and reads back as the number it renders. */
  lemma DecimalRoundTrip(n: int)
    ensures DecimalString(n) != [] && DecimalValue(DecimalString(n)) == n
  {
    var m: nat := if n < 0 then -n else n;
    var d := Digits(m);
    DigitsRoundTrip(m);
    if n < 0 {
      var s := "-" + d;
      assert DecimalString(n) == s;
      assert s[0] == '-' && s[1..] == d;
    } else {
      assert '0' <= d[0] <= '9';
      assert DecimalString(n) == d;
    }
  }

  /**
   * The path an uploaded picture is saved under: "uploads/", the upload's
   * Unix time in decimal, "-", and the client's file name. The time can be
   * read back from the path.
   */
  function UploadPath(now: int, filename: string): (path: string)
    ensures |path| > |"uploads/"| + |filename| + 1
    ensures path[..|"uploads/"|] == "uploads/"
    ensures path[|path| - |filename| - 1..] == "-" + filename
    ensures DecimalValue(path[|"uploads/"|..|path| - |filename| - 1]) == now
  {
    var stamp := DecimalString(now);
    var path := "uploads/" + stamp + "-" + filename;
    DecimalRoundTrip(now);
    assert path[..|"uploads/"|] == "uploads/";
    assert path[|path| - |filename| - 1..] == "-" + filename;
    assert path[|"uploads/"|..|path| - |filename| - 1] == stamp;
    path
  }

  // ---------------------------------------------------------------- CreateUser

  /**
   * The multipart form of a registration; `upload` is the picture's file name
   * when one was sent. Go's multipart reader treats a part with an empty file
   * name as a plain form value, so FormFile never yields Some("").
   */
  datatype RegisterForm = RegisterForm(fullName: string, email: string, password: string, upload: Option<string>)

  /** The row CreateUser inserts into the users table. */
  datatype NewUser = NewUser(fullName: string, email: string, passwordHash: string, profilePic: string)

  /** The outcome of the INSERT: failed, or done with the new row's id if the driver could report it. */
  datatype ExecResult = ExecFailed | Executed(lastInsertId: Option<int>)

  /** Every mandatory form field was sent: the three texts are non-empty and a picture is attached. */
  predicate FieldsPresent(form: RegisterForm)
  {
    form.fullName != "" && form.email != "" && form.password != "" && form.upload.Some?
  }

  /** Everything before the INSERT succeeded: the fields, the upload, saving it, and hashing. */
  predicate ReachesInsert(form: RegisterForm, now: int, createFile: string -> bool, copied: bool,
                          hashPassword: string -> Option<string>)
  {
    FieldsPresent(form)
    && createFile(UploadPath(now, form.upload.value)) && copied && hashPassword(form.password).Some?
  }

  /** The row inserted once ReachesInsert holds: the password is stored only as its hash. */
  function RowFor(form: RegisterForm, now: int, hashPassword: string -> Option<string>): NewUser
    requires form.upload.Some? && hashPassword(form.password).Some?
  {
    NewUser(form.fullName, form.email, hashPassword(form.password).value, UploadPath(now, form.upload.value))
  }

  /**
   * CreateUser. `now` is the clock, `createFile` says whether the picture's
   * file could be created at a path, `copied` whether its content was copied,
   * `hashPassword` is HashPassword, `insertUser` the INSERT, `generateToken`
   * GenerateToken.
   */
  function CreateUser(form: RegisterForm, now: int, createFile: string -> bool, copied: bool,
                      hashPassword: string -> Option<string>, insertUser: NewUser -> ExecResult,
                      generateToken: (int, string) -> Option<string>): (resp: HttpResponse)
    ensures resp.body.Envelope? && (resp.body.status <==> resp.code == StatusOK)
    ensures resp.code in {StatusOK, StatusBadRequest, StatusConflict, StatusInternalServerError}
    ensures resp.code == StatusOK ==>
      ReachesInsert(form, now, createFile, copied, hashPassword) &&
      resp.body.message == "User registration successful" &&
      resp.body.data.Registered? &&
      resp.body.data.fullName == form.fullName && resp.body.data.email == form.email &&
      resp.body.data.profilePic == UploadPath(now, form.upload.value) &&
      insertUser(RowFor(form, now, hashPassword)) == Executed(Some(resp.body.data.id)) &&
      generateToken(resp.body.data.id, form.email) == Some(resp.body.token)
    ensures form.fullName == "" ==> resp == RespondWithError(StatusBadRequest, "Full name is mandatory")
    ensures form.fullName != "" && form.email == "" ==> resp == RespondWithError(StatusBadRequest, "Email is mandatory")
    ensures form.fullName != "" && form.email != "" && form.password == "" ==>
      resp == RespondWithError(StatusBadRequest, "Password is mandatory")
    ensures form.fullName != "" && form.email != "" && form.password != "" && form.upload.None? ==>
      resp == RespondWithError(StatusBadRequest, "Profile picture is mandatory")
    ensures FieldsPresent(form) && !createFile(UploadPath(now, form.upload.value)) ==>
      resp == RespondWithError(StatusInternalServerError, "Failed to save profile picture")
    ensures FieldsPresent(form) && createFile(UploadPath(now, form.upload.value)) && !copied ==>
      resp == RespondWithError(StatusInternalServerError, "Failed to store profile picture")
    ensures FieldsPresent(form) && createFile(UploadPath(now, form.upload.value)) && copied &&
            hashPassword(form.password).None? ==>
      resp == RespondWithError(StatusInternalServerError, "Failed to hash password")
    ensures ReachesInsert(form, now, createFile, copied, hashPassword) &&
            insertUser(RowFor(form, now, hashPassword)) == Executed(None) ==>
      resp == RespondWithError(StatusInternalServerError, "Failed to retrieve user ID")
    ensures ReachesInsert(form, now, createFile, copied, hashPassword) &&
            insertUser(RowFor(form, now, hashPassword)).Executed? &&
            insertUser(RowFor(form, now, hashPassword)).lastInsertId.Some? ==>
      var userId := insertUser(RowFor(form, now, hashPassword)).lastInsertId.value;
      if generateToken(userId, form.email).Some? then resp.code == StatusOK
      else resp == RespondWithError(StatusInternalServerError, "Failed to generate token, please try again")
  {
    if form.fullName == "" then RespondWithError(StatusBadRequest, "Full name is mandatory")
    else if form.email == "" then RespondWithError(StatusBadRequest, "Email is mandatory")
    else if form.password == "" then RespondWithError(StatusBadRequest, "Password is mandatory")
    else if form.upload.None? then RespondWithError(StatusBadRequest, "Profile picture is mandatory")
    else
      var fileName := UploadPath(now, form.upload.value);
      if !createFile(fileName) then RespondWithError(StatusInternalServerError, "Failed to save profile picture")
      else if !copied then RespondWithError(StatusInternalServerError, "Failed to store profile picture")
      else match hashPassword(form.password)
        case None => RespondWithError(StatusInternalServerError, "Failed to hash password")
        case Some(hashed) =>
          match insertUser(NewUser(form.fullName, form.email, hashed, fileName))
          case ExecFailed => RespondWithError(StatusConflict, "Email ID already exists")
          case Executed(None) => RespondWithError(StatusInternalServerError, "Failed to retrieve user ID")
          case Executed(Some(userId)) =>
            match generateToken(userId, form.email)
            case None => RespondWithError(StatusInternalServerError, "Failed to generate token, please try again")
            case Some(token) =>
              HttpResponse(StatusOK, Envelope(true, "User registration successful",
                                              Registered(userId, form.fullName, form.email, fileName), token))
  }

  /** The picture's name as the validator would see it: empty when none was sent. */
  function UploadedName(upload: Option<string>): string
  {
    match upload
    case None => ""
    case Some(name) => name
  }

  /**
   * Registration fails fast: the 400 it sends carries the message of the
   * FIRST error the accumulating validator would report for the same fields
   * (full_name, email, password, profile_pic), and no other; a 400 is sent
   * exactly when that validator reports anything.
   */
  lemma RegistrationReportsFirstMissingField(form: RegisterForm, now: int, createFile: string -> bool, copied: bool,
                                             hashPassword: string -> Option<string>, insertUser: NewUser -> ExecResult,
                                             generateToken: (int, string) -> Option<string>)
    requires form.upload != Some("")
    ensures var errs := ExpectedErrors(Register(RegisterUserModel(0, form.fullName, form.email,
                                                                  UploadedName(form.upload), form.password)), true);
            var resp := CreateUser(form, now, createFile, copied, hashPassword, insertUser, generateToken);
            (resp.code == StatusBadRequest <==> errs != []) &&
            (errs != [] ==> resp == RespondWithError(StatusBadRequest, errs[0].message))
  {
    var u := RegisterUserModel(0, form.fullName, form.email, UploadedName(form.upload), form.password);
    RegisterChecks(u, true);
  }

  /**
   * Every INSERT failure, whatever its cause, is reported as the same 409;
   * nothing else produces a 409.
   */
  lemma InsertFailureIsConflict(form: RegisterForm, now: int, createFile: string -> bool, copied: bool,
                                hashPassword: string -> Option<string>, insertUser: NewUser -> ExecResult,
                                generateToken: (int, string) -> Option<string>)
    ensures var resp := CreateUser(form, now, createFile, copied, hashPassword, insertUser, generateToken);
            (resp.code == StatusConflict <==>
               ReachesInsert(form, now, createFile, copied, hashPassword) &&
               insertUser(RowFor(form, now, hashPassword)) == ExecFailed) &&
            (resp.code == StatusConflict ==> resp == RespondWithError(StatusConflict, "Email ID already exists"))
  {
  }

  // ---------------------------------------------------------------- LoginUser

  /** The generic refusal for an unknown email and for a wrong password alike. */
  const InvalidCredentials := "Invalid email or password"

  /**
   * LoginUser. `body` is the decoded JSON body (None when decoding failed),
   * `findUserByEmail` the SELECT by email, `checkPasswordHash` bcrypt's
   * comparison of a password with a stored hash, `generateToken` GenerateToken.
   */
  function LoginUser(body: Option<LoginUserModel>, findUserByEmail: string -> Option<RegisterUserModel>,
                     checkPasswordHash: (string, string) -> bool,
                     generateToken: (int, string) -> Option<string>): (resp: HttpResponse)
    ensures resp.body.Envelope? && (resp.body.status <==> resp.code == StatusOK)
    ensures resp.code in {StatusOK, StatusBadRequest, StatusUnauthorized, StatusInternalServerError}
    ensures body.None? ==> resp == RespondWithError(StatusBadRequest, "Invalid request payload")
    ensures body.Some? && ExpectedErrors(Login(body.value), false) != [] ==>
      resp == RespondWithError(StatusBadRequest, Join(Formatted(ExpectedErrors(Login(body.value), false)), ", "))
    ensures resp.code == StatusUnauthorized <==>
      body.Some? && body.value.email != "" && body.value.password != "" &&
      (findUserByEmail(body.value.email).None? ||
       !checkPasswordHash(body.value.password, findUserByEmail(body.value.email).value.password))
    ensures resp.code == StatusUnauthorized ==> resp == RespondWithError(StatusUnauthorized, InvalidCredentials)
    ensures resp.code == StatusOK ==>
      body.Some? && findUserByEmail(body.value.email).Some? &&
      var user := findUserByEmail(body.value.email).value;
      checkPasswordHash(body.value.password, user.password) &&
      resp.body.message == "Login successful" &&
      resp.body.data == LoggedIn(LoginResponse(user.id, user.fullName, user.email, "/uploads/" + user.profilePic)) &&
      generateToken(user.id, user.email) == Some(resp.body.token)
    ensures body.Some? && body.value.email != "" && body.value.password != "" &&
            findUserByEmail(body.value.email).Some? &&
            checkPasswordHash(body.value.password, findUserByEmail(body.value.email).value.password) ==>
      var user := findUserByEmail(body.value.email).value;
      if generateToken(user.id, user.email).Some? then resp.code == StatusOK
      else resp == RespondWithError(StatusInternalServerError, "Failed to generate token, please try again")
  {
    match body
    case None => RespondWithError(StatusBadRequest, "Invalid request payload")
    case Some(login) =>
      LoginValidation(login, false);
      var errors := ExpectedErrors(Login(login), false);
      if |errors| > 0 then RespondWithError(StatusBadRequest, Join(Formatted(errors), ", "))
      else match findUserByEmail(login.email)
        case None => RespondWithError(StatusUnauthorized, InvalidCredentials)
        case Some(user) =>
          if !checkPasswordHash(login.password, user.password) then RespondWithError(StatusUnauthorized, InvalidCredentials)
          else match generateToken(user.id, user.email)
            case None => RespondWithError(StatusInternalServerError, "Failed to generate token, please try again")
            case Some(token) =>
              var profilePicURL := "/uploads/" + user.profilePic;
              HttpResponse(StatusOK, Envelope(true, "Login successful",
                                              LoggedIn(LoginResponse(user.id, user.fullName, user.email, profilePicURL)), token))
  }

  /**
   * No user enumeration: an email with no account and an account whose
   * password does not match get byte-for-byte the same response.
   */
  lemma NoUserEnumeration(login: LoginUserModel, noAccount: string -> Option<RegisterUserModel>,
                          withAccount: string -> Option<RegisterUserModel>, checkPasswordHash: (string, string) -> bool,
                          generateToken: (int, string) -> Option<string>)
    requires noAccount(login.email).None?
    requires withAccount(login.email).Some? && !checkPasswordHash(login.password, withAccount(login.email).value.password)
    ensures LoginUser(Some(login), noAccount, checkPasswordHash, generateToken)
         == LoginUser(Some(login), withAccount, checkPasswordHash, generateToken)
  {
  }

  /** A login that fails validation never reaches the store, the hash check or the token issuer. */
  lemma InvalidLoginSkipsStore(login: LoginUserModel,
                               find1: string -> Option<RegisterUserModel>, find2: string -> Option<RegisterUserModel>,
                               check1: (string, string) -> bool, check2: (string, string) -> bool,
                               issue1: (int, string) -> Option<string>, issue2: (int, string) -> Option<string>)
    requires login.email == "" || login.password == ""
    ensures LoginUser(Some(login), find1, check1, issue1) == LoginUser(Some(login), find2, check2, issue2)
    ensures LoginUser(Some(login), find1, check1, issue1).code == StatusBadRequest
  {
    LoginValidation(login, false);
  }

  // ---------------------------------------------------------------- GetUserProfile

  /**
   * GetUserProfile. `parseToken` is ParseToken, `findProfileById` the SELECT
   * by id. The first two refusals of the gate are plain-text errors, the
   * third a JSON envelope.
   */
  function GetUserProfile(header: string, parseToken: string -> Option<int>,
                          findProfileById: int -> Option<GetUserProfileModel>): (resp: HttpResponse)
    ensures header == "" ==> resp == PlainError(StatusUnauthorized, "Missing authorization token")
    ensures header != "" && AllSpace(TrimPrefix(header, BearerPrefix)) ==>
      resp == PlainError(StatusUnauthorized, "Invalid token format")
    ensures Authorize(header, parseToken) == Err(InvalidOrExpiredToken) ==>
      resp == RespondWithError(StatusUnauthorized, "Invalid or expired token")
    ensures resp.code == StatusNotFound <==>
      Authorize(header, parseToken).Ok? && findProfileById(Authorize(header, parseToken).value).None?
    ensures resp.code == StatusNotFound ==> resp == RespondWithError(StatusNotFound, "User not found")
    ensures resp.code == StatusOK ==>
      Authorize(header, parseToken).Ok? && findProfileById(Authorize(header, parseToken).value).Some? &&
      resp.body == Envelope(true, "User profile retrieved successfully",
                            Profile(findProfileById(Authorize(header, parseToken).value).value), "")
    ensures Authorize(header, parseToken).Ok? && findProfileById(Authorize(header, parseToken).value).Some? ==>
      resp.code == StatusOK
  {
    match Authorize(header, parseToken)
    case Err(MissingToken) => PlainError(StatusUnauthorized, AuthErrorMessage(MissingToken))
    case Err(InvalidTokenFormat) => PlainError(StatusUnauthorized, AuthErrorMessage(InvalidTokenFormat))
    case Err(InvalidOrExpiredToken) => RespondWithError(StatusUnauthorized, AuthErrorMessage(InvalidOrExpiredToken))
    case Ok(userId) =>
      match findProfileById(userId)
      case None => RespondWithError(StatusNotFound, "User not found")
      case Some(user) =>
        HttpResponse(StatusOK, Envelope(true, "User profile retrieved successfully", Profile(user), ""))
  }

  /**
   * The profile looked up is the one of the id the verifier returned, and
   * only that one: two stores that agree on that id give the same response.
   */
  lemma ProfileUsesVerifiedIdOnly(header: string, parseToken: string -> Option<int>,
                                  store1: int -> Option<GetUserProfileModel>, store2: int -> Option<GetUserProfileModel>)
    ensures Authorize(header, parseToken).Ok? &&
            store1(Authorize(header, parseToken).value) == store2(Authorize(header, parseToken).value) ==>
            GetUserProfile(header, parseToken, store1) == GetUserProfile(header, parseToken, store2)
  {
  }
}
