/** Authentication and authorization (services/authServices.js): protect, allowedTo,
    login and forgotPassword. Token signing and verification, password hashing and
    comparison, the reset-code digest and e-mail delivery are parameters. */
module AuthServices {
  import opened Common
  import opened Text
  import opened Entities
  import opened Http
  import opened Database

  const NotLoggedIn := "You are not login, Please login to get access this route"
  const UserGone := "The user that belong to this token does no longer exist"
  const PasswordChanged := "User recently changed his password. please login again.."
  const NotAllowed := "You are not allowed to access this route"
  const BadCredentials := "Incorrect email or password"
  const NoUserWithEmail := "There is no user with that email "
  const EmailFailed := "There is an error in sending email"
  const ResetCodeSent := "Reset Code sent to email"
  /** The TypeError allowedTo throws when no user is attached to the request. */
  const RoleOfUndefined := "Cannot read properties of undefined (reading 'role')"
  /** The error bcrypt.compare rejects with when the stored hash is missing. */
  const IllegalArguments := "Illegal arguments: string, undefined"
  /** How long an issued reset code stays valid, in milliseconds (ten minutes). */
  const ResetWindow := 10 * 60 * 1000

  /** What jwt.verify yields for a token: the decoded payload (user id and issue time
      in seconds), or the message of the error it throws. */
  datatype Verified = Decoded(userId: Id, iat: int) | Invalid(reason: string)

  // ---------------------------------------------------------------- protect

  /** Stage 1 of protect: the token of an "Authorization: Bearer <token>" header.
      The header must start with "Bearer"; the token is the second space-separated
      component, and an undefined or empty component is no token. */
  function BearerToken(header: Option<string>): (t: Option<string>)
    ensures t.Some? <==>
      header.Some? && StartsWith(header.value, "Bearer")
      && |Split(header.value, ' ')| >= 2 && Split(header.value, ' ')[1] != ""
    ensures t.Some? ==> t.value == Split(header.value, ' ')[1]
    ensures t.Some? ==> t.value != "" && ' ' !in t.value
  {
    if header.Some? && header.value != "" && StartsWith(header.value, "Bearer") then
      var parts := Split(header.value, ' ');
      if |parts| >= 2 && parts[1] != "" then Some(parts[1]) else None
    else None
  }

  /** A well-formed header "Bearer <t>" yields exactly t. */
  lemma BearerTokenOfHeader(t: string)
    requires t != "" && ' ' !in t
    ensures BearerToken(Some("Bearer " + t)) == Some(t)
  {
    var h := "Bearer " + t;
    assert h == Join(["Bearer", t], ' ');
    SplitJoin(["Bearer", t], ' ');
    assert h[..6] == "Bearer";
  }

  /** parseInt(ms / 1000, 10): whole seconds of a millisecond timestamp, truncated
      toward zero (so it differs from the floor for instants before the epoch). */
  function Seconds(ms: int): (s: int)
    ensures ms >= 0 ==> s * 1000 <= ms < s * 1000 + 1000
    ensures ms < 0 ==> s * 1000 - 1000 < ms <= s * 1000
  {
    if ms >= 0 then ms / 1000 else -((-ms) / 1000)
  }

  /** Stage 4 of protect: the user changed the password after the token was issued. */
  predicate ChangedAfterIssue(u: User, iat: int)
  {
    u.passwordChangeAt.Some? && Seconds(u.passwordChangeAt.value) > iat
  }

  /** The decision protect takes for a request with the given Authorization header,
      against the stored users. Ok(u) means req.user is set to u and next() runs. */
  function ProtectOutcome(header: Option<string>, verify: string -> Verified, users: map<Id, User>)
    : (r: Outcome<User>)
    ensures BearerToken(header).None? ==> r == Reject(ApiError(NotLoggedIn, 401))
    ensures r.Raise? <==> BearerToken(header).Some? && verify(BearerToken(header).value).Invalid?
    ensures r.Ok? <==>
      BearerToken(header).Some?
      && var d := verify(BearerToken(header).value);
         d.Decoded? && d.userId in users && !ChangedAfterIssue(users[d.userId], d.iat)
    ensures r.Ok? ==> r.value == users[verify(BearerToken(header).value).userId]
    ensures r.Reject? ==> r.error.statusCode == 401
  {
    match BearerToken(header)
    case None => Reject(ApiError(NotLoggedIn, 401))
    case Some(token) =>
      match verify(token)
      case Invalid(reason) => Raise(reason)
      case Decoded(userId, iat) =>
        if userId !in users then Reject(ApiError(UserGone, 401))
        else if ChangedAfterIssue(users[userId], iat) then Reject(ApiError(PasswordChanged, 401))
        else Ok(users[userId])
  }

  /** A token whose user is not stored is refused with 401 "no longer exist". */
  lemma UnknownUserRejected(header: Option<string>, verify: string -> Verified, users: map<Id, User>)
    requires BearerToken(header).Some?
    requires verify(BearerToken(header).value).Decoded?
    requires verify(BearerToken(header).value).userId !in users
    ensures ProtectOutcome(header, verify, users) == Reject(ApiError(UserGone, 401))
  {
  }

  /** Password freshness: with a recorded change time, protect refuses the token
      exactly when the change second is later than the token's issue second (equal
      seconds pass); without one this stage never refuses. */
  lemma FreshnessDecision(header: Option<string>, verify: string -> Verified, users: map<Id, User>)
    requires BearerToken(header).Some?
    requires verify(BearerToken(header).value).Decoded?
    requires verify(BearerToken(header).value).userId in users
    ensures var d := verify(BearerToken(header).value);
      var u := users[d.userId];
      && (u.passwordChangeAt.None? ==> ProtectOutcome(header, verify, users) == Ok(u))
      && (u.passwordChangeAt.Some? && u.passwordChangeAt.value >= 0 ==>
            (ProtectOutcome(header, verify, users) == Reject(ApiError(PasswordChanged, 401))
             <==> u.passwordChangeAt.value / 1000 > d.iat))
  {
  }

  /** A token that passes the freshness stage keeps passing when it was issued later. */
  lemma FreshnessIsMonotone(u: User, iat: int, later: int)
    requires iat <= later
    ensures ChangedAfterIssue(u, later) ==> ChangedAfterIssue(u, iat)
  {
  }

  /** protect, stage by stage: on success the resolved user is attached to the
      request; every refusal leaves req.user as it was. */
  method Protect(req: Request, db: UserCollection, verify: string -> Verified) returns (r: Outcome<User>)
    modifies req`user
    ensures r == ProtectOutcome(req.authorization, verify, db.docs)
    ensures r.Ok? ==> req.user == Some(r.value)
    ensures !r.Ok? ==> req.user == old(req.user)
  {
    // 1- the token, when the header carries one
    var token: Option<string> := None;
    var header := req.authorization;
    if header.Some? && header.value != "" && StartsWith(header.value, "Bearer") {
      var parts := Split(header.value, ' ');
      token := if |parts| >= 2 then Some(parts[1]) else None;
    }
    if token.None? || token.value == "" {
      return Reject(ApiError(NotLoggedIn, 401));
    }
    // 2- verification throws on a bad or expired token
    var decoded := verify(token.value);
    if decoded.Invalid? {
      return Raise(decoded.reason);
    }
    // 3- the user must still exist
    if decoded.userId !in db.docs {
      return Reject(ApiError(UserGone, 401));
    }
    var currentUser := db.docs[decoded.userId];
    // 4- the password must not have changed after the token was issued
    if currentUser.passwordChangeAt.Some? {
      var passChangedTimestamp := Seconds(currentUser.passwordChangeAt.value);
      if passChangedTimestamp > decoded.iat {
        return Reject(ApiError(PasswordChanged, 401));
      }
    }
    req.user := Some(currentUser);
    return Ok(currentUser);
  }

  // ---------------------------------------------------------------- allowedTo

  /** allowedTo(...roles): continue when the attached user's role is one of roles,
      refuse with 403 otherwise; without an attached user reading its role throws. */
  function AllowedTo(roles: seq<string>, user: Option<User>): (r: Outcome<()>)
    ensures r.Ok? <==> user.Some? && user.value.role in roles
    ensures user.Some? && user.value.role !in roles ==> r == Reject(ApiError(NotAllowed, 403))
    ensures user.None? ==> r == Raise(RoleOfUndefined)
  {
    match user
    case None => Raise(RoleOfUndefined)
    case Some(u) => if u.role in roles then Ok(()) else Reject(ApiError(NotAllowed, 403))
  }

  /** After protect accepted a request, the role gate decides on the stored user's role
      alone, and never throws. */
  lemma RoleGateAfterProtect(header: Option<string>, verify: string -> Verified,
                             users: map<Id, User>, roles: seq<string>)
    requires ProtectOutcome(header, verify, users).Ok?
    ensures var u := users[verify(BearerToken(header).value).userId];
      AllowedTo(roles, Some(ProtectOutcome(header, verify, users).value))
        == if u.role in roles then Ok(()) else Reject(ApiError(NotAllowed, 403))
  {
  }

  // ---------------------------------------------------------------- login

  /** The response of a successful login: the user without its password, and a token. */
  datatype Session = Session(user: User, token: string)

  /** The stored user u matches the given credentials. */
  predicate Matches(u: User, email: string, password: string, compare: (string, string) -> bool)
  {
    u.email == email && u.password.Some? && compare(password, u.password.value)
  }

  /** login: the user with that email whose stored hash verifies the password gets a
      session; an unknown email and a wrong password get the same 401. */
  method Login(db: UserCollection, email: string, password: string,
               compare: (string, string) -> bool, sign: Id -> string)
    returns (r: Outcome<Session>)
    ensures r.Reject? ==> r.error == ApiError(BadCredentials, 401)
    ensures r.Ok? ==> exists id :: id in db.docs && Matches(db.docs[id], email, password, compare)
                                   && r.value == Session(db.docs[id].(password := None), sign(db.docs[id].id))
    ensures r.Ok? ==> r.value.user.password.None?
    ensures (forall id :: id in db.docs ==> !Matches(db.docs[id], email, password, compare))
            && (forall id :: id in db.docs && db.docs[id].email == email ==> db.docs[id].password.Some?)
            ==> r == Reject(ApiError(BadCredentials, 401))
    ensures UniqueEmails(db.docs) && (exists id :: id in db.docs && Matches(db.docs[id], email, password, compare))
            ==> r.Ok?
  {
    var found := db.FindOneByEmail(email);
    if found.None? {
      return Reject(ApiError(BadCredentials, 401));
    }
    var user := db.docs[found.value];
    if user.password.None? {
      return Raise(IllegalArguments);
    }
    if !compare(password, user.password.value) {
      return Reject(ApiError(BadCredentials, 401));
    }
    var token := sign(user.id);
    return Ok(Session(user.(password := None), token));
  }

  // ---------------------------------------------------------------- forgotPassword

  /** Math.floor(100000 + r * 90000) for r = k / 90000 in [0, 1). */
  function ResetCode(k: int): (code: nat)
    requires 0 <= k < 90000
    ensures 100000 <= code <= 189999
  {
    100000 + k
  }

  /** The reset code is sent as a string of exactly six decimal digits. */
  lemma ResetCodeHasSixDigits(k: int)
    requires 0 <= k < 90000
    ensures |DecimalString(ResetCode(k))| == 6 && AllDigits(DecimalString(ResetCode(k)))
  {
    assert Pow10(5) == 100000 && Pow10(6) == 1000000;
    DecimalStringLength(ResetCode(k), 5);
  }

  /** The user with the three reset fields cleared (set to undefined). */
  function WithoutReset(u: User): (r: User)
    ensures r.passwordResetCode.None? && r.passwordResetExpires.None? && r.passwordResetVerified.None?
    ensures r.(passwordResetCode := u.passwordResetCode, passwordResetExpires := u.passwordResetExpires,
               passwordResetVerified := u.passwordResetVerified) == u
  {
    u.(passwordResetCode := None, passwordResetExpires := None, passwordResetVerified := None)
  }

  /** The user with a reset issued at now: the hashed code, an expiry ten minutes
      later, and not yet verified; every other field is unchanged. */
  function WithResetIssued(u: User, hashedCode: string, now: int): (r: User)
    ensures r.passwordResetCode == Some(hashedCode)
    ensures r.passwordResetExpires == Some(now + 600000)
    ensures r.passwordResetVerified == Some(false)
    ensures WithoutReset(r) == WithoutReset(u)
  {
    u.(passwordResetCode := Some(hashedCode), passwordResetExpires := Some(now + ResetWindow),
       passwordResetVerified := Some(false))
  }

  /** Rolling back an issued reset restores a user that had no reset in progress. */
  lemma RollbackRestores(u: User, hashedCode: string, now: int)
    requires u.passwordResetCode.None? && u.passwordResetExpires.None? && u.passwordResetVerified.None?
    ensures WithoutReset(WithResetIssued(u, hashedCode, now)) == u
  {
  }

  /** forgotPassword for the e-mail address email, with k the random draw, now the
      clock, hash the digest of the code and delivered whether e-mail delivery
      succeeds. */
  method ForgotPassword(db: UserCollection, email: string, k: int, now: int,
                        hash: string -> string, delivered: bool)
    returns (r: Outcome<string>)
    requires 0 <= k < 90000
    requires db.Valid()
    modifies db
    ensures db.Valid()
    ensures (r == Reject(ApiError(NoUserWithEmail, 404))) <==>
            (forall id :: id in old(db.docs) ==> old(db.docs)[id].email != email)
    ensures r == Reject(ApiError(NoUserWithEmail, 404)) ==> db.docs == old(db.docs)
    ensures r != Reject(ApiError(NoUserWithEmail, 404)) ==>
      exists id :: id in old(db.docs) && old(db.docs)[id].email == email
        && r == (if delivered then Ok(ResetCodeSent) else Reject(ApiError(EmailFailed, 500)))
        && db.docs == old(db.docs)[id :=
             if delivered then WithResetIssued(old(db.docs)[id], hash(DecimalString(ResetCode(k))), now)
             else WithoutReset(old(db.docs)[id])]
  {
    // 1- the user with that email
    var found := db.FindOneByEmail(email);
    if found.None? {
      return Reject(ApiError(NoUserWithEmail, 404));
    }
    var id := found.value;
    var user := db.docs[id];
    // 2- store the hash of a fresh code, valid for ten minutes
    var resetCode := DecimalString(ResetCode(k));
    var hashedResetCode := hash(resetCode);
    user := user.(passwordResetCode := Some(hashedResetCode),
                  passwordResetExpires := Some(now + ResetWindow),
                  passwordResetVerified := Some(false));
    StoreKeepsValid(db.docs, user);
    db.docs := db.docs[id := user];
    // 3- send the code; on failure clear the reset fields again
    if !delivered {
      user := user.(passwordResetCode := None, passwordResetExpires := None, passwordResetVerified := None);
      StoreKeepsValid(db.docs, user);
      db.docs := db.docs[id := user];
      return Reject(ApiError(EmailFailed, 500));
    }
    return Ok(ResetCodeSent);
  }
}
