/**
 * UserService: registration, password login, and login by one-time code.
 *
 * The password hasher and its verifier are parameters of the service; JWT
 * signing is not modelled, so a token is represented by its claims. The
 * outcome of the SMS transport is an input of send_otp.
 */
module UserServices {
  import opened Wrappers
  import opened Config
  import opened Records
  import opened Repositories
  import opened OtpServices
  import opened Users

  /** UserCreateSchema */
  datatype UserCreate = UserCreate(
    mobileNumber: string,
    email: string,
    companyName: Option<string>,
    state: Option<string>,
    companyAddress: Option<string>,
    gstin: Option<string>,
    pan: Option<string>,
    password: string)

  /** The claims the access token carries: sub, email and exp. */
  datatype Claims = Claims(sub: Uuid, email: Value, exp: int)

  /** LoginResponseSchema */
  datatype LoginResponse = LoginResponse(accessToken: Claims, tokenType: string, user: map<string, Value>)

  /** SendOTPResponseSchema */
  datatype SendOtpResponse = SendOtpResponse(message: string, mobileNumber: string)

  /** What the SMS transport does with a code. */
  datatype SmsResult = Delivered | Undelivered | Raised(exception: string)

  const MobileTaken: string := "User with this mobile number already exists"
  const EmailTaken: string := "User with this email already exists"
  const InvalidCredentials: string := "Invalid email or password"
  const AccountInactive: string := "User account is inactive"
  const MobileUnknown: string := "User with this mobile number not found"
  const SmsFailed: string := "Failed to send OTP. Please try again later."
  const OtpSent: string := "OTP sent successfully to your mobile number"
  const OtpRejected: string := "Invalid or expired OTP"
  const UserNotFound: string := "User not found"

  /** payload.model_dump() with the password replaced by its hash. */
  function RegistrationData(p: UserCreate, hash: string -> string): map<string, Value> {
    map[MobileNumberKey := Str(p.mobileNumber), EmailKey := Str(p.email),
        "company_name" := OptStr(p.companyName), "state" := OptStr(p.state),
        "company_address" := OptStr(p.companyAddress), "gstin" := OptStr(p.gstin),
        "pan" := OptStr(p.pan), PasswordKey := Str(hash(p.password))]
  }

  /** The hasher and verifier agree: a password verifies against its own hash. */
  ghost predicate Sound(hash: string -> string, verify: (string, string) -> bool) {
    forall p :: verify(p, hash(p))
  }

  /**
   * pwd_context.verify(password, user.password): a missing attribute raises,
   * a null hash never verifies, and a value that is not a string raises.
   */
  function PasswordCheck(verify: (string, string) -> bool, password: string, stored: Option<Value>)
    : (r: Result<bool, Failure>)
    ensures r == Ok(true) <==> exists h :: stored == Some(Str(h)) && verify(password, h)
    ensures r.Err? <==> stored.None? || !(stored.value.Null? || stored.value.Str?)
  {
    match stored
    case None => Err(Unhandled("AttributeError"))
    case Some(Null) => Ok(false)
    case Some(Str(h)) => Ok(verify(password, h))
    case Some(_) => Err(Unhandled("TypeError"))
  }

  class UserService {
    const users: Repository
    const otp: OtpService
    const settings: Settings
    const hash: string -> string
    const verify: (string, string) -> bool

    ghost predicate Valid()
      reads this, users, otp
    {
      users.model == UserModel && users.Valid() && otp.settings == settings
    }

    constructor (users: Repository, otp: OtpService, settings: Settings,
                 hash: string -> string, verify: (string, string) -> bool)
      requires users.model == UserModel && users.Valid() && otp.settings == settings
      ensures Valid()
      ensures this.users == users && this.otp == otp && this.settings == settings
      ensures this.hash == hash && this.verify == verify
    {
      this.users := users;
      this.otp := otp;
      this.settings := settings;
      this.hash := hash;
      this.verify := verify;
    }

    /** create_user: mobile number first, then email, must be unused; then insert. */
    method CreateUser(payload: UserCreate, newUuid: Uuid, now: int) returns (r: Result<Record, Failure>)
      requires Valid()
      modifies users
      ensures Valid()
      ensures old(GetByMobile(users, payload.mobileNumber)).Some? ==>
        r == Err(HttpError(BadRequest, MobileTaken)) && users.table == old(users.table)
      ensures old(GetByMobile(users, payload.mobileNumber)).None? && old(GetByEmail(users, payload.email)).Some? ==>
        r == Err(HttpError(BadRequest, EmailTaken)) && users.table == old(users.table)
      ensures r.Ok? ==>
        && r.value == Record(newUuid, now, now, None, Construct(UserModel, RegistrationData(payload, hash)))
        && users.table == old(users.table) + [r.value]
        && Attr(r.value, PasswordKey) == Some(Str(hash(payload.password)))
        && GetByEmail(users, payload.email) == Some(r.value)
      ensures old(GetByMobile(users, payload.mobileNumber)).None? && old(GetByEmail(users, payload.email)).None? ==>
        (r.Ok? <==> forall x :: x in old(users.table) ==> x.uuid != newUuid)
      ensures r.Err? && r.error.Unhandled? ==> r.error == Unhandled("IntegrityError") && users.table == old(users.table)
    {
      var existing := GetByMobile(users, payload.mobileNumber);
      if existing.Some? {
        return Err(HttpError(BadRequest, MobileTaken));
      }
      existing := GetByEmail(users, payload.email);
      if existing.Some? {
        return Err(HttpError(BadRequest, EmailTaken));
      }
      var data := RegistrationData(payload, hash);
      RegisteredColumns(payload, hash);
      var user := new Entity.New(newUuid, now, Construct(users.model, data));
      ghost var before := users.table;
      var created := users.Create(user);
      if created.Err? {
        return Err(Unhandled("IntegrityError"));
      }
      assert created.value.attrs == Construct(UserModel, data);
      assert Attr(created.value, PasswordKey) == Some(Str(hash(payload.password)));
      assert Attr(created.value, EmailKey) == Some(Str(payload.email));
      NewRowFirstByEmail(before, created.value, payload.email);
      r := Ok(created.value);
    }

    /** get_user_by_email */
    function GetUserByEmail(email: string): (r: Result<Record, Failure>)
      reads this, users
      ensures r.Err? <==> GetByEmail(users, email).None?
      ensures r.Err? ==> r.error == HttpError(NotFound, UserNotFound)
      ensures r.Ok? ==> r.value in users.table && (HasAttr(users.model, EmailKey) ==> Attr(r.value, EmailKey) == Some(Str(email)))
    {
      match GetByEmail(users, email)
      case None => Err(HttpError(NotFound, UserNotFound))
      case Some(u) => Ok(u)
    }

    /** _create_access_token */
    function CreateAccessToken(user: Record, now: int): (c: Claims)
      ensures c.sub == user.uuid && c.email == Field(user, EmailKey)
      ensures c.exp - now == settings.jwtExpireMinutes * SecondsPerMinute
      ensures c.exp > now <==> settings.jwtExpireMinutes > 0
    {
      Claims(user.uuid, Field(user, EmailKey), now + settings.jwtExpireMinutes * SecondsPerMinute)
    }

    /** The response of a successful login: a bearer token and the user without its password. */
    function Authenticated(user: Record, now: int): (a: LoginResponse)
      ensures a.accessToken.sub == user.uuid && a.tokenType == "bearer"
      ensures PasswordKey !in a.user
      ensures forall k :: k in a.user <==> HasField(user, k) && k != PasswordKey
      ensures forall k :: k in a.user ==> Attr(user, k) == Some(a.user[k])
    {
      LoginResponse(CreateAccessToken(user, now), "bearer", Dump(user, {PasswordKey}))
    }

    /** login: 401 for an unknown email or a wrong password alike, then 403 for an inactive account. */
    function Login(email: string, password: string, now: int): (r: Result<LoginResponse, Failure>)
      reads this, users
      ensures GetByEmail(users, email).None? ==> r == Err(HttpError(Unauthorized, InvalidCredentials))
      ensures r == Err(HttpError(Forbidden, AccountInactive)) ==>
        PasswordCheck(verify, password, Attr(GetByEmail(users, email).value, PasswordKey)) == Ok(true)
      ensures GetByEmail(users, email).Some? ==>
        var check := PasswordCheck(verify, password, Attr(GetByEmail(users, email).value, PasswordKey));
        && (check.Err? ==> r == Err(check.error))
        && (check == Ok(false) ==> r == Err(HttpError(Unauthorized, InvalidCredentials)))
        && (check == Ok(true) && !Truthy(Field(GetByEmail(users, email).value, IsActiveKey)) ==>
              r == Err(HttpError(Forbidden, AccountInactive)))
      ensures r.Ok? ==>
        && GetByEmail(users, email).Some?
        && PasswordCheck(verify, password, Attr(GetByEmail(users, email).value, PasswordKey)) == Ok(true)
        && Truthy(Field(GetByEmail(users, email).value, IsActiveKey))
        && r.value == Authenticated(GetByEmail(users, email).value, now)
      ensures r.Err? && r.error.HttpError? ==>
        r.error in {HttpError(Unauthorized, InvalidCredentials), HttpError(Forbidden, AccountInactive)}
    {
      match GetByEmail(users, email)
      case None => Err(HttpError(Unauthorized, InvalidCredentials))
      case Some(user) =>
        match PasswordCheck(verify, password, Attr(user, PasswordKey))
        case Err(e) => Err(e)
        case Ok(ok) =>
          if !ok then Err(HttpError(Unauthorized, InvalidCredentials))
          else if !Truthy(Field(user, IsActiveKey)) then Err(HttpError(Forbidden, AccountInactive))
          else Ok(Authenticated(user, now))
    }

    /**
     * send_otp: look the user up, refuse unknown and inactive ones, store a
     * fresh code, then hand it to the SMS transport; an undelivered code is
     * cleared again.
     */
    method SendOtp(mobile: string, now: int, sms: SmsResult) returns (r: Result<SendOtpResponse, Failure>)
      requires Valid()
      modifies otp
      ensures Valid()
      ensures GetByMobile(users, mobile).None? ==>
        r == Err(HttpError(NotFound, MobileUnknown)) && otp.store == old(otp.store)
      ensures GetByMobile(users, mobile).Some? && !Truthy(Field(GetByMobile(users, mobile).value, IsActiveKey)) ==>
        r == Err(HttpError(Forbidden, AccountInactive)) && otp.store == old(otp.store)
      ensures GetByMobile(users, mobile).Some? && Truthy(Field(GetByMobile(users, mobile).value, IsActiveKey)) ==>
        match sms
        case Undelivered => r == Err(HttpError(InternalServerError, SmsFailed)) && otp.store == old(otp.store) - {mobile}
        case Delivered => r == Ok(SendOtpResponse(OtpSent, mobile)) && Issued(old(otp.store), otp.store, mobile, now)
        case Raised(e) => r == Err(Unhandled(e)) && Issued(old(otp.store), otp.store, mobile, now)
    {
      var user := GetByMobile(users, mobile);
      if user.None? {
        return Err(HttpError(NotFound, MobileUnknown));
      }
      if !Truthy(Field(user.value, IsActiveKey)) {
        return Err(HttpError(Forbidden, AccountInactive));
      }
      ghost var before := otp.store;
      var code := otp.GenerateOtp(settings.otpLength);
      otp.StoreOtp(mobile, code, Some(settings.otpExpireMinutes), now);
      assert IsCode(code, settings.otpLength);
      assert Issued(before, otp.store, mobile, now);
      match sms
      case Undelivered =>
        StoreThenClear(before, settings, mobile, code, Some(settings.otpExpireMinutes), now);
        otp.ClearOtp(mobile);
        return Err(HttpError(InternalServerError, SmsFailed));
      case Raised(e) =>
        return Err(Unhandled(e));
      case Delivered =>
        return Ok(SendOtpResponse(OtpSent, mobile));
    }

    /** A code of OTP_LENGTH digits is pending for the number, fresh at `now`; other numbers are untouched. */
    ghost predicate Issued(before: OtpStore, after: OtpStore, mobile: string, now: int) {
      exists code :: IsCode(code, settings.otpLength) &&
        after == Stored(before, settings, mobile, code, Some(settings.otpExpireMinutes), now)
    }

    /** The guard chain of verify_otp_and_login once the code has been checked. */
    function OtpLogin(verified: bool, user: Option<Record>, now: int): (r: Result<LoginResponse, Failure>)
      ensures !verified ==> r == Err(HttpError(BadRequest, OtpRejected))
      ensures verified && user.None? ==> r == Err(HttpError(NotFound, UserNotFound))
      ensures verified && user.Some? && !Truthy(Field(user.value, IsActiveKey)) ==>
        r == Err(HttpError(Forbidden, AccountInactive))
      ensures r.Ok? <==> verified && user.Some? && Truthy(Field(user.value, IsActiveKey))
      ensures r.Ok? ==> r.value == Authenticated(user.value, now)
    {
      if !verified then Err(HttpError(BadRequest, OtpRejected))
      else match user
        case None => Err(HttpError(NotFound, UserNotFound))
        case Some(u) =>
          if !Truthy(Field(u, IsActiveKey)) then Err(HttpError(Forbidden, AccountInactive))
          else Ok(Authenticated(u, now))
    }

    /** verify_otp_and_login: the code is checked, and consumed, before the user is looked up. */
    method VerifyOtpAndLogin(mobile: string, code: string, now: int) returns (r: Result<LoginResponse, Failure>)
      requires Valid()
      modifies otp
      ensures Valid()
      ensures otp.store == VerifyOutcome(old(otp.store), settings.otpMaxAttempts, mobile, code, now).1
      ensures r == OtpLogin(VerifyOutcome(old(otp.store), settings.otpMaxAttempts, mobile, code, now).0,
                            GetByMobile(users, mobile), now)
      ensures r.Err? && r.error != HttpError(BadRequest, OtpRejected) ==> mobile !in otp.store
    {
      var ok := otp.VerifyOtp(mobile, code, now);
      if !ok {
        return Err(HttpError(BadRequest, OtpRejected));
      }
      var user := GetByMobile(users, mobile);
      if user.None? {
        return Err(HttpError(NotFound, UserNotFound));
      }
      if !Truthy(Field(user.value, IsActiveKey)) {
        return Err(HttpError(Forbidden, AccountInactive));
      }
      return Ok(Authenticated(user.value, now));
    }
  }

  /** generate_otp's promise about a code. */
  ghost predicate IsCode(code: string, length: int) {
    |code| == Max(0, length) && forall i :: 0 <= i < |code| ==> code[i] in Digits
  }

  /** After an insert that the email check allowed, the new row is the first with its email. */
  lemma NewRowFirstByEmail(before: seq<Record>, row: Record, email: string)
    requires forall x :: x in before ==> Attr(x, EmailKey) != Some(Str(email))
    ensures forall x :: x in before + [row] && Attr(x, EmailKey) == Some(Str(email)) ==> x == row
  {
  }

  /** Wrong password and unknown email are told apart by nothing in the answer. */
  lemma WrongPasswordLooksLikeUnknownEmail(s: UserService, email: string, unknown: string, password: string, now: int)
    requires GetByEmail(s.users, unknown).None?
    requires GetByEmail(s.users, email).Some?
    requires PasswordCheck(s.verify, password, Attr(GetByEmail(s.users, email).value, PasswordKey)) == Ok(false)
    ensures s.Login(email, password, now) == s.Login(unknown, password, now)
  {
  }

  /** The columns registration stores in the User table with its password column. */
  lemma RegisteredColumns(p: UserCreate, hash: string -> string)
    ensures var c := Construct(UserModel, RegistrationData(p, hash));
      && PasswordKey in c && c[PasswordKey] == Str(hash(p.password))
      && EmailKey in c && c[EmailKey] == Str(p.email)
      && IsActiveKey in c && c[IsActiveKey] == Bool(true)
      && PasswordKey !in BaseColumns && EmailKey !in BaseColumns
  {
  }

  /** Login succeeds for a known email whose password verifies on an active account. */
  lemma LoginSucceeds(s: UserService, email: string, password: string, now: int, u: Record)
    requires GetByEmail(s.users, email) == Some(u)
    requires PasswordCheck(s.verify, password, Attr(u, PasswordKey)) == Ok(true)
    requires Truthy(Field(u, IsActiveKey))
    ensures s.Login(email, password, now) == Ok(s.Authenticated(u, now))
  {
  }

  /** A registered user, active by default, logs in with the password they registered with. */
  lemma LoginAfterRegistration(s: UserService, payload: UserCreate, row: Record, now: int)
    requires s.Valid() && Sound(s.hash, s.verify)
    requires row.attrs == Construct(UserModel, RegistrationData(payload, s.hash))
    requires GetByEmail(s.users, payload.email) == Some(row)
    ensures s.Login(payload.email, payload.password, now) == Ok(s.Authenticated(row, now))
  {
    RegisteredColumns(payload, s.hash);
    assert Attr(row, PasswordKey) == Some(Str(s.hash(payload.password)));
    assert Field(row, IsActiveKey) == Bool(true);
    LoginSucceeds(s, payload.email, payload.password, now, row);
  }

  /** With the User table as declared, the hashed password is dropped at registration. */
  lemma RegistrationDropsPassword(payload: UserCreate, hash: string -> string, row: Record)
    requires row.attrs == Construct(UserModelAsWritten, RegistrationData(payload, hash))
    ensures Attr(row, PasswordKey).None?
  {
  }

  /** With the User table as declared, every login of a known email ends in an AttributeError. */
  lemma LoginAsWrittenRaises(s: UserService, email: string, password: string, now: int)
    requires s.users.model == UserModelAsWritten && s.users.Valid()
    requires GetByEmail(s.users, email).Some?
    ensures s.Login(email, password, now) == Err(Unhandled("AttributeError"))
  {
    var u := GetByEmail(s.users, email).value;
    var i :| 0 <= i < |s.users.table| && s.users.table[i] == u;
    assert Conforms(UserModelAsWritten, u);
    PasswordNotDeclared();
    assert Attr(u, PasswordKey).None?;
  }

  /** The declared User table has no password column. */
  lemma PasswordNotDeclared()
    ensures PasswordKey !in UserColumns && PasswordKey !in BaseColumns
  {
  }

  /** A delivered code logs an active user in before it expires, when attempts are allowed. */
  lemma SentCodeLogsIn(s: UserService, store: OtpStore, mobile: string, code: string, now: int, later: int, u: Record)
    requires s.settings.otpMaxAttempts > 0
    requires later <= now + ExpiryMinutes(s.settings, Some(s.settings.otpExpireMinutes)) * SecondsPerMinute
    requires Truthy(Field(u, IsActiveKey))
    ensures var (ok, after) := VerifyOutcome(Stored(store, s.settings, mobile, code, Some(s.settings.otpExpireMinutes), now),
                                             s.settings.otpMaxAttempts, mobile, code, later);
      ok && mobile !in after && s.OtpLogin(ok, Some(u), later) == Ok(s.Authenticated(u, later))
  {
    StoredThenVerified(store, s.settings, mobile, code, Some(s.settings.otpExpireMinutes), now, later);
  }
}
