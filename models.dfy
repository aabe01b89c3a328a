/** The account records of the backend: the stored `User`, the validated
    registration request `UserRegister`, and the password-free
    `UserResponse`, with their conversion to and from stored documents. */
module Models {
  import opened Wrappers
  import opened Roles
  import opened MockDb

  /** A stored account. Timestamps are abstract instants. */
  datatype User = User(
    id: string,
    email: string,
    hashedPassword: string,
    role: Role,
    name: string,
    mobile: Option<string>,
    age: Option<int>,
    mobileVerified: bool,
    isActive: bool,
    createdAt: int,
    updatedAt: int)

  /** A `User` built from its required fields alone, so that every other
      field takes its declared default; `uuid` and `now` stand for the
      default factories `uuid4()` and `utcnow()`. */
  function NewUser(uuid: string, now: int, email: string, hashedPassword: string, role: Role, name: string): (u: User)
    ensures u.id == uuid && u.createdAt == now && u.updatedAt == now
    ensures u.mobile == None && u.age == None
    ensures !u.mobileVerified && u.isActive
  {
    User(uuid, email, hashedPassword, role, name, None, None, false, true, now, now)
  }

  /** A registration request that passed validation. */
  datatype UserRegister = UserRegister(
    email: string,
    password: string,
    confirmPassword: string,
    role: Role,
    name: string,
    mobile: string,
    age: Option<int>)

  /** The account as `GET /auth/me` shows it: everything but the password hash. */
  datatype UserResponse = UserResponse(
    id: string,
    email: string,
    role: string,
    name: string,
    mobile: Option<string>,
    age: Option<int>,
    mobileVerified: bool,
    isActive: bool)

  function ToResponse(u: User): UserResponse {
    UserResponse(u.id, u.email, RoleName(u.role), u.name, u.mobile, u.age, u.mobileVerified, u.isActive)
  }

  /** The response cannot reveal the password hash: accounts that differ
      only in it look the same. */
  lemma ResponseHidesPassword(u: User, otherHash: string)
    ensures ToResponse(u) == ToResponse(u.(hashedPassword := otherHash))
  {
  }

  // ---------------------------------------------------------------------
  // Field validation of documents (exact types; no coercion)

  /** A required `str` field. */
  function StrField(d: Doc, key: string): (r: Option<string>)
    ensures r.Some? <==> key in d && d[key].Str?
    ensures r.Some? ==> d[key] == Str(r.value)
  {
    if key in d && d[key].Str? then Some(d[key].s) else None
  }

  /** An `Optional[str] = None` field: `Some(None)` when missing or null. */
  function OptStrField(d: Doc, key: string): Option<Option<string>> {
    if key !in d || d[key] == Null then Some(None)
    else if d[key].Str? then Some(Some(d[key].s))
    else None
  }

  /** An `Optional[int] = None` field. */
  function OptIntField(d: Doc, key: string): Option<Option<int>> {
    if key !in d || d[key] == Null then Some(None)
    else if d[key].Int? then Some(Some(d[key].i))
    else None
  }

  /** A `bool` field with a default. */
  function BoolField(d: Doc, key: string, default: bool): Option<bool> {
    if key !in d then Some(default)
    else if d[key].Bool? then Some(d[key].b)
    else None
  }

  /** A `datetime` field whose default is `now`. */
  function TimeField(d: Doc, key: string, now: int): Option<int> {
    if key !in d then Some(now)
    else if d[key].Time? then Some(d[key].t)
    else None
  }

  function OptStrValue(o: Option<string>): Value {
    match o
    case None => Null
    case Some(s) => Str(s)
  }

  function OptIntValue(o: Option<int>): Value {
    match o
    case None => Null
    case Some(i) => Int(i)
  }

  /** `user.dict()`. */
  function UserToDoc(u: User): (d: Doc)
    ensures Get(d, "id") == Str(u.id) && Get(d, "email") == Str(u.email)
  {
    map[
      "id" := Str(u.id),
      "email" := Str(u.email),
      "hashed_password" := Str(u.hashedPassword),
      "role" := Str(RoleName(u.role)),
      "name" := Str(u.name),
      "mobile" := OptStrValue(u.mobile),
      "age" := OptIntValue(u.age),
      "mobile_verified" := Bool(u.mobileVerified),
      "is_active" := Bool(u.isActive),
      "created_at" := Time(u.createdAt),
      "updated_at" := Time(u.updatedAt)]
  }

  /** `User(**d)`: `None` is a validation error. A missing id or timestamp
      takes its default (`uuid`, `now`); keys that are not fields are
      ignored. */
  function UserFromDoc(d: Doc, uuid: string, now: int): (r: Option<User>)
    ensures r.Some? && "id" in d ==> d["id"] == Str(r.value.id)
    ensures r.Some? ==> Get(d, "email") == Str(r.value.email) && Get(d, "hashed_password") == Str(r.value.hashedPassword)
  {
    var id := if "id" in d then StrField(d, "id") else Some(uuid);
    var email := StrField(d, "email");
    var hashed := StrField(d, "hashed_password");
    var roleName := StrField(d, "role");
    var role := if roleName.Some? then ParseRole(roleName.value) else None;
    var name := StrField(d, "name");
    var mobile := OptStrField(d, "mobile");
    var age := OptIntField(d, "age");
    var verified := BoolField(d, "mobile_verified", false);
    var active := BoolField(d, "is_active", true);
    var created := TimeField(d, "created_at", now);
    var updated := TimeField(d, "updated_at", now);
    if id.None? || email.None? || hashed.None? || role.None? || name.None? || mobile.None?
       || age.None? || verified.None? || active.None? || created.None? || updated.None?
    then None
    else Some(User(id.value, email.value, hashed.value, role.value, name.value, mobile.value,
                   age.value, verified.value, active.value, created.value, updated.value))
  }

  /** A stored account reads back as itself. */
  lemma UserDocRoundTrip(u: User, uuid: string, now: int)
    ensures UserFromDoc(UserToDoc(u), uuid, now) == Some(u)
  {
    ParseRoleName(u.role);
  }

  /** Validation of a `POST /auth/register` body; `None` is the 422 answer.
      The role must be "donor" or "hospital": an admin cannot register. */
  function ParseUserRegister(body: Doc): (r: Option<UserRegister>)
    ensures r.Some? <==>
      && StrField(body, "email").Some? && StrField(body, "password").Some?
      && StrField(body, "confirm_password").Some? && StrField(body, "name").Some?
      && StrField(body, "mobile").Some? && OptIntField(body, "age").Some?
      && (Get(body, "role") == Str("donor") || Get(body, "role") == Str("hospital"))
    ensures r.Some? ==> r.value.role != Admin && Str(RoleName(r.value.role)) == body["role"]
    ensures r.Some? ==> body["mobile"] == Str(r.value.mobile) && body["email"] == Str(r.value.email)
  {
    var email := StrField(body, "email");
    var password := StrField(body, "password");
    var confirm := StrField(body, "confirm_password");
    var roleName := StrField(body, "role");
    var name := StrField(body, "name");
    var mobile := StrField(body, "mobile");
    var age := OptIntField(body, "age");
    var role :=
      if roleName == Some("donor") then Some(Donor)
      else if roleName == Some("hospital") then Some(Hospital)
      else None;
    if email.None? || password.None? || confirm.None? || role.None? || name.None?
       || mobile.None? || age.None?
    then None
    else Some(UserRegister(email.value, password.value, confirm.value, role.value, name.value,
                           mobile.value, age.value))
  }
}
