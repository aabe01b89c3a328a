/** The authentication routes: registration, login, the bearer-token
    lookup behind `GET /auth/me`, and the demo one-time-password store.
    Password hashing and checking, token signing and decoding, `uuid4`,
    `utcnow` and `randint` are parameters. */
module AuthRoutes {
  import opened Wrappers
  import opened Roles
  import opened Text
  import opened MockDb
  import opened Models

  datatype HttpError = HttpError(status: int, detail: string)

  /** A route's answer: its body, or the `HTTPException` it raised. */
  datatype Response<T> = Ok(value: T) | Fail(error: HttpError)

  datatype Token = Token(accessToken: string, tokenType: string)

  datatype UserLogin = UserLogin(email: string, password: string)

  const BearerPrefix := "Bearer "
  const InvalidCredentials := HttpError(401, "Invalid email or password")
  const InactiveAccount := HttpError(401, "Account is inactive")
  const NotAuthenticated := HttpError(401, "Not authenticated")
  const InvalidOtp := HttpError(400, "Invalid OTP")
  /** What FastAPI answers when `User(**user_dict)` raises a validation error. */
  const InternalError := HttpError(500, "Internal Server Error")

  /** Python truthiness of a value. */
  predicate Truthy(v: Value) {
    match v
    case Null => false
    case Bool(b) => b
    case Int(i) => i != 0
    case Str(s) => s != ""
    case Time(_) => true
    case Obj(m) => m != map[]
  }

  /** `if existing:` on the result of `find_one`. */
  predicate Found(r: Option<Doc>) {
    r.Some? && r.value != map[]
  }

  /** A stored document has `value` in its `field`. */
  ghost predicate Taken(users: Table, field: string, value: string)
    requires users.Valid()
  {
    exists i :: 0 <= i < |users.keys| && Get(users.At(i), field) == Str(value)
  }

  /** Looking a string up with `find_one` finds something exactly when some
      stored document holds it. */
  lemma FoundIffTaken(users: Table, field: string, value: string)
    requires users.Valid()
    ensures Found(FindOneResult(users, map[field := Str(value)])) <==> Taken(users, field, value)
  {
    var filter := map[field := Str(value)];
    var r := FindOneResult(users, filter);
    if Taken(users, field, value) {
      var i :| 0 <= i < |users.keys| && Get(users.At(i), field) == Str(value);
      assert Matches(users.At(i), filter);
      assert Get(r.value, field) == Str(value);
    }
  }

  /** The claims signed into an access token. */
  function Claims(u: User): Doc {
    map["sub" := Str(u.id), "email" := Str(u.email), "role" := Str(RoleName(u.role))]
  }

  function IssueToken(u: User, createToken: Doc -> string): Token {
    Token(createToken(Claims(u)), "bearer")
  }

  // ---------------------------------------------------------------------
  // POST /auth/register

  /** The rejection `register` answers with, the checks taken in order, or
      `None` when the account may be created. */
  function RegisterRejection(users: Table, req: UserRegister): (e: Option<HttpError>)
    requires users.Valid()
    ensures req.password != req.confirmPassword ==> e == Some(HttpError(400, "Passwords do not match"))
    ensures req.password == req.confirmPassword && Taken(users, "email", req.email) ==>
      e == Some(HttpError(400, "Email already registered"))
    ensures (req.password == req.confirmPassword && !Taken(users, "email", req.email)
             && Taken(users, "mobile", req.mobile))
      ==> e == Some(HttpError(400, "Mobile number already registered"))
    ensures e.None? <==>
      req.password == req.confirmPassword && !Taken(users, "email", req.email) && !Taken(users, "mobile", req.mobile)
  {
    FoundIffTaken(users, "email", req.email);
    FoundIffTaken(users, "mobile", req.mobile);
    if req.password != req.confirmPassword then Some(HttpError(400, "Passwords do not match"))
    else if Found(FindOneResult(users, map["email" := Str(req.email)])) then Some(HttpError(400, "Email already registered"))
    else if Found(FindOneResult(users, map["mobile" := Str(req.mobile)])) then Some(HttpError(400, "Mobile number already registered"))
    else None
  }

  /** The account `register` creates: the request's fields, the hashed
      password, the mobile marked verified, and every other field at its
      default. */
  function RegisteredUser(req: UserRegister, hash: string -> string, uuid: string, now: int): (u: User)
    ensures u.id == uuid && u.email == req.email && u.role == req.role && u.name == req.name
    ensures u.mobile == Some(req.mobile) && u.age == req.age && u.hashedPassword == hash(req.password)
    ensures u.mobileVerified && u.isActive
  {
    NewUser(uuid, now, req.email, hash(req.password), req.role, req.name)
      .(mobile := Some(req.mobile), age := req.age, mobileVerified := true)
  }

  /** `register`: either a rejection with the store untouched, or exactly
      one new user document and a token for it. */
  method Register(users: MockCollection, req: UserRegister, hash: string -> string,
                  createToken: Doc -> string, uuid: string, now: int) returns (r: Response<Token>)
    requires users.Valid()
    requires Str(uuid) !in users.data.docs
    modifies users
    ensures users.Valid()
    ensures RegisterRejection(old(users.data), req).Some? ==>
      r == Fail(RegisterRejection(old(users.data), req).value) && users.data == old(users.data)
    ensures RegisterRejection(old(users.data), req).None? ==>
      var u := RegisteredUser(req, hash, uuid, now);
      && users.data == old(users.data).Put(Str(uuid), UserToDoc(u))
      && |users.data.keys| == |old(users.data.keys)| + 1
      && r == Ok(IssueToken(u, createToken))
    ensures IdsAgree(old(users.data)) ==> IdsAgree(users.data)
  {
    if req.password != req.confirmPassword {
      return Fail(HttpError(400, "Passwords do not match"));
    }
    var existingUser := users.FindOne(map["email" := Str(req.email)]);
    if Found(existingUser) {
      return Fail(HttpError(400, "Email already registered"));
    }
    var existingMobile := users.FindOne(map["mobile" := Str(req.mobile)]);
    if Found(existingMobile) {
      return Fail(HttpError(400, "Mobile number already registered"));
    }
    var user := RegisteredUser(req, hash, uuid, now);
    ghost var before := users.data;
    var insertedId, written := users.InsertOne(UserToDoc(user), uuid);
    if IdsAgree(before) {
      InsertThenFindOne(before, UserToDoc(user));
    }
    return Ok(IssueToken(user, createToken));
  }

  // ---------------------------------------------------------------------
  // POST /auth/login

  /** The account `login` looks at: the first stored document with that
      email, read as a `User`. */
  function StoredUserByEmail(users: Table, email: string, uuid: string, now: int): Option<User>
    requires users.Valid()
  {
    var userDict := FindOneResult(users, map["email" := Str(email)]);
    if Found(userDict) then UserFromDoc(userDict.value, uuid, now) else None
  }

  /** `login`: an unknown email and a wrong password get the same answer;
      a right password on an inactive account gets its own; a token is
      issued only past all three checks. */
  function Login(users: Table, credentials: UserLogin, verifyPassword: (string, string) -> bool,
                 createToken: Doc -> string, uuid: string, now: int): (r: Response<Token>)
    requires users.Valid()
    ensures !Taken(users, "email", credentials.email) ==> r == Fail(InvalidCredentials)
    ensures r.Ok? <==>
      match StoredUserByEmail(users, credentials.email, uuid, now)
      case None => false
      case Some(u) => verifyPassword(credentials.password, u.hashedPassword) && u.isActive
    ensures r.Ok? ==>
      var u := StoredUserByEmail(users, credentials.email, uuid, now).value;
      u.email == credentials.email && r.value == IssueToken(u, createToken)
    ensures match StoredUserByEmail(users, credentials.email, uuid, now)
      case None => true
      case Some(u) =>
        && (!verifyPassword(credentials.password, u.hashedPassword) ==> r == Fail(InvalidCredentials))
        && (verifyPassword(credentials.password, u.hashedPassword) && !u.isActive ==> r == Fail(InactiveAccount))
    ensures var found := FindOneResult(users, map["email" := Str(credentials.email)]);
      Found(found) && UserFromDoc(found.value, uuid, now).None? ==> r == Fail(InternalError)
    ensures r.Fail? ==> r.error in {InvalidCredentials, InactiveAccount, InternalError}
  {
    FoundIffTaken(users, "email", credentials.email);
    var userDict := FindOneResult(users, map["email" := Str(credentials.email)]);
    if !Found(userDict) then Fail(InvalidCredentials)
    else match UserFromDoc(userDict.value, uuid, now)
      case None => Fail(InternalError)
      case Some(user) =>
        if !verifyPassword(credentials.password, user.hashedPassword) then Fail(InvalidCredentials)
        else if !user.isActive then Fail(InactiveAccount)
        else Ok(IssueToken(user, createToken))
  }

  /** End to end: once `register` created an account for a fresh email, a
      login with that email and the same password receives a token for it
      (given that the password checker accepts the hasher's output). */
  lemma RegisterThenLogin(users: Table, req: UserRegister, hash: string -> string,
                          verifyPassword: (string, string) -> bool, createToken: Doc -> string,
                          uuid: string, now: int, uuid2: string, now2: int)
    requires users.Valid() && Str(uuid) !in users.docs
    requires RegisterRejection(users, req).None?
    requires verifyPassword(req.password, hash(req.password))
    ensures var u := RegisteredUser(req, hash, uuid, now);
      Login(users.Put(Str(uuid), UserToDoc(u)), UserLogin(req.email, req.password),
            verifyPassword, createToken, uuid2, now2) == Ok(IssueToken(u, createToken))
  {
    var u := RegisteredUser(req, hash, uuid, now);
    var after := users.Put(Str(uuid), UserToDoc(u));
    var filter := map["email" := Str(req.email)];
    var j := |users.keys|;
    assert after.keys[j] == Str(uuid);
    assert Matches(after.At(j), filter);
    forall i | 0 <= i < j ensures !Matches(after.At(i), filter) {
      assert after.At(i) == users.At(i);
    }
    FirstMatchAt(after, filter, j);
    UserDocRoundTrip(u, uuid2, now2);
  }

  // ---------------------------------------------------------------------
  // get_current_user and GET /auth/me

  /** `get_current_user`: `Ok(None)` at the first failed check (no
      `Bearer ` header, an empty or undecodable token payload, a falsy
      `sub`, no stored user with that id); a stored document that is not a
      valid `User` raises. Every occurrence of `Bearer ` is deleted from the
      header, not only the leading one. */
  function CurrentUser(users: Table, authorization: Option<string>, decode: string -> Option<Doc>,
                       uuid: string, now: int): (r: Response<Option<User>>)
    requires users.Valid()
    ensures r.Ok? && r.value.Some? ==>
      && authorization.Some? && StartsWith(authorization.value, BearerPrefix)
      && var payload := decode(DeleteAll(authorization.value, BearerPrefix));
         && payload.Some? && payload.value != map[] && Truthy(Get(payload.value, "sub"))
         && Get(payload.value, "sub") == Str(r.value.value.id)
         && Taken(users, "id", r.value.value.id)
    ensures authorization.None? || !StartsWith(authorization.value, BearerPrefix) ==> r == Ok(None)
    ensures authorization.Some? && StartsWith(authorization.value, BearerPrefix) ==>
      var payload := decode(DeleteAll(authorization.value, BearerPrefix));
      && (payload.None? || payload.value == map[] || !Truthy(Get(payload.value, "sub")) ==> r == Ok(None))
      && (payload.Some? && payload.value != map[] && Truthy(Get(payload.value, "sub")) ==>
            var found := FindOneResult(users, map["id" := Get(payload.value, "sub")]);
            && (!Found(found) ==> r == Ok(None))
            && (Found(found) && UserFromDoc(found.value, uuid, now).None? ==> r == Fail(InternalError))
            && (Found(found) && UserFromDoc(found.value, uuid, now).Some? ==>
                  r == Ok(UserFromDoc(found.value, uuid, now))))
  {
    if authorization.None? || authorization.value == "" || !StartsWith(authorization.value, BearerPrefix) then Ok(None)
    else
      var token := DeleteAll(authorization.value, BearerPrefix);
      var payload := decode(token);
      if payload.None? || payload.value == map[] then Ok(None)
      else
        var userId := Get(payload.value, "sub");
        if !Truthy(userId) then Ok(None)
        else
          var filter := map["id" := userId];
          var userDict := FindOneResult(users, filter);
          if !Found(userDict) then Ok(None)
          else
            match UserFromDoc(userDict.value, uuid, now)
            case None => Fail(InternalError)
            case Some(user) =>
              assert Get(userDict.value, "id") == userId;
              var i :| 0 <= i < |users.keys| && users.At(i) == userDict.value;
              assert Get(users.At(i), "id") == Str(user.id);
              Ok(Some(user))
  }

  /** A token that itself holds no `Bearer ` reaches the decoder intact. */
  lemma BearerTokenPassedThrough(token: string)
    requires !Occurs(token, BearerPrefix)
    ensures DeleteAll(BearerPrefix + token, BearerPrefix) == token
  {
    var header := BearerPrefix + token;
    assert header[..|BearerPrefix|] == BearerPrefix;
    assert header[|BearerPrefix|..] == token;
    DeleteAllAbsent(token, BearerPrefix);
  }

  /** `get_me`: 401 exactly when there is no current user; otherwise the
      account without its password hash. */
  function GetMe(users: Table, authorization: Option<string>, decode: string -> Option<Doc>,
                 uuid: string, now: int): (r: Response<UserResponse>)
    requires users.Valid()
    ensures r == Fail(NotAuthenticated) <==> CurrentUser(users, authorization, decode, uuid, now) == Ok(None)
    ensures r.Ok? <==> CurrentUser(users, authorization, decode, uuid, now).Ok?
                       && CurrentUser(users, authorization, decode, uuid, now).value.Some?
    ensures r.Ok? ==> r.value == ToResponse(CurrentUser(users, authorization, decode, uuid, now).value.value)
  {
    match CurrentUser(users, authorization, decode, uuid, now)
    case Fail(e) => Fail(e)
    case Ok(None) => Fail(NotAuthenticated)
    case Ok(Some(user)) => Ok(ToResponse(user))
  }

  // ---------------------------------------------------------------------
  // POST /auth/request-otp and POST /auth/verify-otp

  /** The answer of `verify_otp` and the code table after it. */
  datatype VerifyOutcome = VerifyOutcome(response: Response<string>, codes: map<string, string>)

  /** `verify_otp` on the code table `codes`. A mobile with no code (or an
      empty one) accepts any six-digit string and keeps the table; with a
      code, only that code is accepted, and accepting it removes it; a
      rejection leaves the table as it was. */
  function VerifyOtpStep(codes: map<string, string>, mobile: string, otp: string): (v: VerifyOutcome)
    ensures (mobile !in codes || codes[mobile] == "") ==>
      v.codes == codes && (v.response.Ok? <==> |otp| == 6 && AllDigits(otp))
    ensures mobile in codes && codes[mobile] != "" ==>
      (v.response.Ok? <==> otp == codes[mobile])
    ensures v.response.Ok? ==> v.response.value == "OTP verified successfully"
    ensures v.response.Ok? && mobile in codes && codes[mobile] != "" ==> v.codes == codes - {mobile}
    ensures v.response.Fail? ==> v.response.error == InvalidOtp && v.codes == codes
  {
    if mobile !in codes || codes[mobile] == "" then
      if |otp| == 6 && AllDigits(otp) then VerifyOutcome(Ok("OTP verified successfully"), codes)
      else VerifyOutcome(Fail(InvalidOtp), codes)
    else if codes[mobile] != otp then VerifyOutcome(Fail(InvalidOtp), codes)
    else VerifyOutcome(Ok("OTP verified successfully"), codes - {mobile})
  }

  /** After a mobile's code has been accepted, any six-digit string is
      accepted for that mobile. */
  lemma AfterVerifyAnyCodePasses(codes: map<string, string>, mobile: string, other: string)
    requires mobile in codes && codes[mobile] != ""
    requires |other| == 6 && AllDigits(other)
    ensures VerifyOtpStep(VerifyOtpStep(codes, mobile, codes[mobile]).codes, mobile, other).response.Ok?
  {
  }

  /** The module-level `otp_storage`. */
  class OtpStore {
    var codes: map<string, string>

    constructor ()
      ensures codes == map[]
    {
      codes := map[];
    }

    /** `request_otp`: `draw` is the `randint(100000, 999999)`; the code is
        its six-digit numeral, replaces any code the mobile had, and is
        returned to the caller. */
    method RequestOtp(mobile: string, draw: int) returns (otp: string)
      requires 100000 <= draw <= 999999
      modifies this
      ensures |otp| == 6 && AllDigits(otp) && NumeralValue(otp, false) == draw
      ensures codes == old(codes)[mobile := otp]
    {
      otp := DecimalString(draw);
      SixDigitNumerals(draw);
      DecimalStringValue(draw);
      codes := codes[mobile := otp];
    }

    /** `verify_otp`. */
    method VerifyOtp(mobile: string, otp: string) returns (r: Response<string>)
      modifies this
      ensures VerifyOutcome(r, codes) == VerifyOtpStep(old(codes), mobile, otp)
    {
      if mobile !in codes || codes[mobile] == "" {
        if |otp| == 6 && AllDigits(otp) {
          return Ok("OTP verified successfully");
        }
        return Fail(InvalidOtp);
      }
      if codes[mobile] != otp {
        return Fail(InvalidOtp);
      }
      codes := codes - {mobile};
      return Ok("OTP verified successfully");
    }
  }
}
