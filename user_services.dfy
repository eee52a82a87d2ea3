/** The user handlers (services/userServices.js) that write a user document or the
    request body: the administrator's update and password change, the logged-in
    user's password change, data update and deactivation, and the image name. */
module UserServices {
  import opened Common
  import opened Text
  import opened Entities
  import opened Http
  import opened Database
  import opened AuthServices

  const NoDocumentFor := "No document for this id "
  /** What bcrypt.hash throws when the password is undefined. */
  const HashArgumentsRequired := "data and salt arguments required"
  /** What bcrypt.hash throws for an array password. */
  const HashDataType := "data must be a string or Buffer and salt must either be a salt string or a number of rounds"
  /** The TypeError of reading req.user._id when protect has not run. */
  const IdOfUndefined := "Cannot read properties of undefined (reading '_id')"
  /** The TypeError of reading user._id when the update found no document. */
  const IdOfNull := "Cannot read properties of null (reading '_id')"
  /** The start of the error the store raises for a write that repeats an email held
      by another user (the unique index on email). */
  const DuplicateKey := "E11000 duplicate key error"

  /** `${req.params.id}`: the id as the 404 message spells it. */
  function IdText(params: map<string, string>): (t: string)
    ensures "id" in params ==> t == params["id"]
    ensures "id" !in params ==> t == "undefined"
  {
    if "id" in params then params["id"] else "undefined"
  }

  /** An optional string field of the document after an update: the body's value
      cast to a string when one is given, the stored value otherwise (an undefined key
      is stripped). */
  function OverrideOptional(current: Option<string>, b: Body, key: string): (r: Option<string>)
    ensures ScalarField(b, key).Some? ==> r == ScalarField(b, key)
    ensures ScalarField(b, key).None? ==> r == current
  {
    if ScalarField(b, key).Some? then ScalarField(b, key) else current
  }

  // ---------------------------------------------------------------- updateUser

  /** The document after updateUser: name, slug, phone, email, profileImg and role
      take the body's values, cast to strings, where given; no other field changes. */
  function AdminUpdated(u: User, b: Body): (r: User)
    ensures r.name == Override(u.name, ScalarField(b, "name"))
    ensures r.email == Override(u.email, ScalarField(b, "email"))
    ensures r.role == Override(u.role, ScalarField(b, "role"))
    ensures r.slug == OverrideOptional(u.slug, b, "slug")
    ensures r.phone == OverrideOptional(u.phone, b, "phone")
    ensures r.profileImg == OverrideOptional(u.profileImg, b, "profileImg")
    ensures r.(name := u.name, slug := u.slug, phone := u.phone, email := u.email,
               profileImg := u.profileImg, role := u.role) == u
  {
    u.(name := Override(u.name, ScalarField(b, "name")),
       slug := OverrideOptional(u.slug, b, "slug"),
       phone := OverrideOptional(u.phone, b, "phone"),
       email := Override(u.email, ScalarField(b, "email")),
       profileImg := OverrideOptional(u.profileImg, b, "profileImg"),
       role := Override(u.role, ScalarField(b, "role")))
  }

  /** Sending the same update twice leaves the document as the first one did, and a
      body without any of the six fields changes nothing. */
  lemma AdminUpdateIdempotent(u: User, b: Body)
    ensures AdminUpdated(AdminUpdated(u, b), b) == AdminUpdated(u, b)
    ensures (forall k :: k in b ==> k !in {"name", "slug", "phone", "email", "profileImg", "role"})
              ==> AdminUpdated(u, b) == u
  {
  }

  /** The id of some user other than id holding the email, when there is one: the
      holder the store finds is unique, so it is another user exactly when the email
      is taken by one. */
  method OtherHolder(db: UserCollection, id: Id, email: string) returns (taken: bool)
    requires db.Valid()
    ensures taken <==> EmailTakenByOther(db.docs, id, email)
  {
    var holder := db.FindOneByEmail(email);
    taken := holder.Some? && holder.value != id;
  }

  /** updateUser: findByIdAndUpdate on req.params.id with { new: true }. An update
      that gives the document an email another user holds is refused by the unique
      index and writes nothing. */
  method UpdateUser(db: UserCollection, req: Request) returns (r: Outcome<User>)
    requires db.Valid()
    modifies db
    ensures db.Valid()
    ensures "id" in req.params && req.params["id"] in old(db.docs) ==>
      var id := req.params["id"];
      var document := AdminUpdated(old(db.docs)[id], req.body);
      if EmailTakenByOther(old(db.docs), id, document.email) then
        db.docs == old(db.docs) && r == Raise(DuplicateKey)
      else
        db.docs == old(db.docs)[id := document] && r == Ok(db.docs[id])
    ensures !("id" in req.params && req.params["id"] in old(db.docs)) ==>
      db.docs == old(db.docs) && r == Reject(ApiError(NoDocumentFor + IdText(req.params), 404))
  {
    if "id" !in req.params || req.params["id"] !in db.docs {
      return Reject(ApiError(NoDocumentFor + IdText(req.params), 404));
    }
    var id := req.params["id"];
    var current := db.docs[id];
    var document := current.(
      name := Override(current.name, ScalarField(req.body, "name")),
      slug := OverrideOptional(current.slug, req.body, "slug"),
      phone := OverrideOptional(current.phone, req.body, "phone"),
      email := Override(current.email, ScalarField(req.body, "email")),
      profileImg := OverrideOptional(current.profileImg, req.body, "profileImg"),
      role := Override(current.role, ScalarField(req.body, "role")));
    var taken := OtherHolder(db, id, document.email);
    if taken {
      return Raise(DuplicateKey);
    }
    StoreKeepsValid(db.docs, document);
    db.docs := db.docs[id := document];
    return Ok(document);
  }

  // ---------------------------------------------------------------- password changes

  /** The document after either password handler, as written: the new hash and a
      change time in the misspelt field passwrodChangeAt. */
  function PasswordChangedAsWritten(u: User, hashed: string, now: int): (r: User)
    ensures r.password == Some(hashed) && r.passwrodChangeAt == Some(now)
    ensures r.passwordChangeAt == u.passwordChangeAt
    ensures r.(password := u.password, passwrodChangeAt := u.passwrodChangeAt) == u
  {
    u.(password := Some(hashed), passwrodChangeAt := Some(now))
  }

  /** The document the password handlers evidently mean to write: the change time in
      passwordChangeAt, the field protect reads. */
  function PasswordChangedIntended(u: User, hashed: string, now: int): (r: User)
    ensures r.password == Some(hashed) && r.passwordChangeAt == Some(now)
    ensures r.(password := u.password, passwordChangeAt := u.passwordChangeAt) == u
  {
    u.(password := Some(hashed), passwordChangeAt := Some(now))
  }

  /** As written, a password change never revokes a token protect accepted before it,
      however late the change is. */
  lemma StaleTokenSurvivesPasswordChange(header: Option<string>, verify: string -> Verified,
                                         users: map<Id, User>, hashed: string, now: int)
    requires ProtectOutcome(header, verify, users).Ok?
    ensures var id := verify(BearerToken(header).value).userId;
      var after := users[id := PasswordChangedAsWritten(users[id], hashed, now)];
      ProtectOutcome(header, verify, after) == Ok(after[id])
  {
    var id := verify(BearerToken(header).value).userId;
    assert PasswordChangedAsWritten(users[id], hashed, now).passwordChangeAt == users[id].passwordChangeAt;
  }

  /** A concrete instance: a token issued at second 0 still passes after the password
      was changed at second 5. */
  lemma StaleTokenExample(u: User, hashed: string)
    requires u.passwordChangeAt.None?
    ensures var header := Some("Bearer t");
      var verify := (s: string) => Decoded(u.id, 0);
      var users := map[u.id := PasswordChangedAsWritten(u, hashed, 5000)];
      ProtectOutcome(header, verify, users).Ok?
  {
    var header := Some("Bearer t");
    var verify := (s: string) => Decoded(u.id, 0);
    var users := map[u.id := PasswordChangedAsWritten(u, hashed, 5000)];
    assert BearerToken(header) == Some("t") by {
      assert "Bearer t" == "Bearer " + "t";
      BearerTokenOfHeader("t");
    }
    assert !ChangedAfterIssue(users[u.id], 0);
  }

  /** With the intended field, a password changed at now revokes exactly the tokens
      issued in an earlier second, and protect keeps accepting later ones. */
  lemma PasswordChangeRevokesEarlierTokens(header: Option<string>, verify: string -> Verified,
                                           users: map<Id, User>, hashed: string, now: int)
    requires BearerToken(header).Some? && verify(BearerToken(header).value).Decoded?
    requires verify(BearerToken(header).value).userId in users
    ensures var d := verify(BearerToken(header).value);
      var after := users[d.userId := PasswordChangedIntended(users[d.userId], hashed, now)];
      && (ProtectOutcome(header, verify, after).Ok? <==> Seconds(now) <= d.iat)
      && (Seconds(now) > d.iat ==> ProtectOutcome(header, verify, after) == Reject(ApiError(PasswordChanged, 401)))
  {
    var d := verify(BearerToken(header).value);
    var after := users[d.userId := PasswordChangedIntended(users[d.userId], hashed, now)];
    assert after[d.userId].passwordChangeAt == Some(now);
    assert ChangedAfterIssue(after[d.userId], d.iat) <==> Seconds(now) > d.iat;
  }

  /** The error bcrypt.hash(req.body.password, 12) throws, if any: only a string is
      hashed; undefined and null lack the data argument, and a number, a boolean or
      an array is of the wrong type. */
  function HashError(password: Option<Value>): (e: Option<string>)
    ensures e.None? <==> password.Some? && password.value.Str?
    ensures password.None? || password == Some(Null) ==> e == Some(HashArgumentsRequired)
    ensures password.Some? && (password.value.Num? || password.value.Bool? || password.value.List?) ==>
              e == Some(HashDataType)
  {
    match password
    case None => Some(HashArgumentsRequired)
    case Some(Null) => Some(HashArgumentsRequired)
    case Some(Str(_)) => None
    case Some(_) => Some(HashDataType)
  }

  /** changeUserPassword: the password is hashed before the lookup, so a password
      bcrypt refuses raises and writes nothing; otherwise an unknown id is a 404 and
      a known one gets the new hash and passwrodChangeAt. */
  method ChangeUserPassword(db: UserCollection, req: Request, hash: string -> string, now: int)
    returns (r: Outcome<User>)
    requires db.Valid()
    modifies db
    ensures db.Valid()
    ensures HashError(Field(req.body, "password")).Some? ==>
      r == Raise(HashError(Field(req.body, "password")).value) && db.docs == old(db.docs)
    ensures HashError(Field(req.body, "password")).None? && "id" in req.params && req.params["id"] in old(db.docs) ==>
      var id := req.params["id"];
      db.docs == old(db.docs)[id := PasswordChangedAsWritten(old(db.docs)[id], hash(req.body["password"].s), now)]
      && r == Ok(db.docs[id])
    ensures HashError(Field(req.body, "password")).None? && !("id" in req.params && req.params["id"] in old(db.docs)) ==>
      r == Reject(ApiError(NoDocumentFor + IdText(req.params), 404)) && db.docs == old(db.docs)
  {
    var failure := HashError(Field(req.body, "password"));
    if failure.Some? {
      return Raise(failure.value);
    }
    var hashed := hash(req.body["password"].s);
    if "id" !in req.params || req.params["id"] !in db.docs {
      return Reject(ApiError(NoDocumentFor + IdText(req.params), 404));
    }
    var id := req.params["id"];
    var document := db.docs[id].(password := Some(hashed), passwrodChangeAt := Some(now));
    StoreKeepsValid(db.docs, document);
    db.docs := db.docs[id := document];
    return Ok(document);
  }

  /** updateLoggedUserPassword: req.user._id is read first, then the password is
      hashed; the stored user gets the new hash and a fresh token is signed for it. An
      id no longer stored writes nothing and fails on user._id. */
  method UpdateLoggedUserPassword(db: UserCollection, req: Request, hash: string -> string,
                                  now: int, sign: Id -> string)
    returns (r: Outcome<Session>)
    requires db.Valid()
    modifies db
    ensures db.Valid()
    ensures req.user.None? ==> r == Raise(IdOfUndefined) && db.docs == old(db.docs)
    ensures req.user.Some? && HashError(Field(req.body, "password")).Some? ==>
      r == Raise(HashError(Field(req.body, "password")).value) && db.docs == old(db.docs)
    ensures req.user.Some? && HashError(Field(req.body, "password")).None? ==>
      var id := req.user.value.id;
      if id in old(db.docs) then
        db.docs == old(db.docs)[id := PasswordChangedAsWritten(old(db.docs)[id], hash(req.body["password"].s), now)]
        && r == Ok(Session(db.docs[id], sign(id)))
      else
        db.docs == old(db.docs) && r == Raise(IdOfNull)
  {
    if req.user.None? {
      return Raise(IdOfUndefined);
    }
    var id := req.user.value.id;
    var failure := HashError(Field(req.body, "password"));
    if failure.Some? {
      return Raise(failure.value);
    }
    var hashed := hash(req.body["password"].s);
    if id !in db.docs {
      return Raise(IdOfNull);
    }
    var user := db.docs[id].(password := Some(hashed), passwrodChangeAt := Some(now));
    StoreKeepsValid(db.docs, user);
    db.docs := db.docs[id := user];
    var token := sign(user.id);
    return Ok(Session(user, token));
  }

  // ---------------------------------------------------------------- the logged user's data

  /** The document after updateloggedUserData: only name, email and phone change. */
  function SelfUpdated(u: User, b: Body): (r: User)
    ensures r.name == Override(u.name, ScalarField(b, "name"))
    ensures r.email == Override(u.email, ScalarField(b, "email"))
    ensures r.phone == OverrideOptional(u.phone, b, "phone")
    ensures r.(name := u.name, email := u.email, phone := u.phone) == u
  {
    u.(name := Override(u.name, ScalarField(b, "name")),
       email := Override(u.email, ScalarField(b, "email")),
       phone := OverrideOptional(u.phone, b, "phone"))
  }

  /** The body restricted to the given keys. */
  function Only(b: Body, keys: set<string>): (r: Body)
    ensures r.Keys == b.Keys * keys
    ensures forall k :: k in r ==> r[k] == b[k]
  {
    map k | k in b && k in keys :: b[k]
  }

  /** A user updating their own data can do exactly what an administrator sending
      name, email and phone does, and never touches role, password or active. */
  lemma SelfUpdateIsRestrictedAdminUpdate(u: User, b: Body)
    ensures SelfUpdated(u, b) == AdminUpdated(u, Only(b, {"name", "email", "phone"}))
    ensures SelfUpdated(u, b).role == u.role && SelfUpdated(u, b).password == u.password
    ensures SelfUpdated(u, b).active == u.active
  {
    var o := Only(b, {"name", "email", "phone"});
    assert ScalarField(o, "name") == ScalarField(b, "name");
    assert ScalarField(o, "email") == ScalarField(b, "email");
    assert ScalarField(o, "phone") == ScalarField(b, "phone");
    assert ScalarField(o, "slug").None? && ScalarField(o, "profileImg").None? && ScalarField(o, "role").None?;
  }

  /** updateloggedUserData: findByIdAndUpdate on req.user._id; a user no longer stored
      gives data: null with status 200, and an email another user holds is refused by
      the unique index. */
  method UpdateLoggedUserData(db: UserCollection, req: Request) returns (r: Outcome<Option<User>>)
    requires db.Valid()
    modifies db
    ensures db.Valid()
    ensures req.user.None? ==> r == Raise(IdOfUndefined) && db.docs == old(db.docs)
    ensures req.user.Some? && req.user.value.id !in old(db.docs) ==> r == Ok(None) && db.docs == old(db.docs)
    ensures req.user.Some? && req.user.value.id in old(db.docs) ==>
      var id := req.user.value.id;
      var document := SelfUpdated(old(db.docs)[id], req.body);
      if EmailTakenByOther(old(db.docs), id, document.email) then
        db.docs == old(db.docs) && r == Raise(DuplicateKey)
      else
        db.docs == old(db.docs)[id := document] && r == Ok(Some(db.docs[id]))
  {
    if req.user.None? {
      return Raise(IdOfUndefined);
    }
    var id := req.user.value.id;
    if id !in db.docs {
      return Ok(None);
    }
    var current := db.docs[id];
    var document := current.(
      name := Override(current.name, ScalarField(req.body, "name")),
      email := Override(current.email, ScalarField(req.body, "email")),
      phone := OverrideOptional(current.phone, req.body, "phone"));
    var taken := OtherHolder(db, id, document.email);
    if taken {
      return Raise(DuplicateKey);
    }
    StoreKeepsValid(db.docs, document);
    db.docs := db.docs[id := document];
    return Ok(Some(document));
  }

  /** deleteLoggedUserData: sets active to false and answers 204; the document stays
      in the store. */
  method DeleteLoggedUserData(db: UserCollection, req: Request) returns (r: Outcome<int>)
    requires db.Valid()
    modifies db
    ensures db.Valid()
    ensures req.user.None? ==> r == Raise(IdOfUndefined) && db.docs == old(db.docs)
    ensures req.user.Some? ==> r == Ok(204)
    ensures req.user.Some? && req.user.value.id in old(db.docs) ==>
      var id := req.user.value.id;
      db.docs == old(db.docs)[id := old(db.docs)[id].(active := false)]
    ensures req.user.Some? && req.user.value.id !in old(db.docs) ==> db.docs == old(db.docs)
    ensures db.docs.Keys == old(db.docs.Keys)
  {
    if req.user.None? {
      return Raise(IdOfUndefined);
    }
    var id := req.user.value.id;
    if id in db.docs {
      StoreKeepsValid(db.docs, db.docs[id].(active := false));
      db.docs := db.docs[id := db.docs[id].(active := false)];
    }
    return Ok(204);
  }

  /** protect does not look at active: a deactivated user's token keeps passing. */
  lemma DeactivatedUserKeepsAccess(header: Option<string>, verify: string -> Verified, users: map<Id, User>)
    requires ProtectOutcome(header, verify, users).Ok?
    ensures var id := verify(BearerToken(header).value).userId;
      var after := users[id := users[id].(active := false)];
      ProtectOutcome(header, verify, after) == Ok(after[id]) && !after[id].active
  {
    var id := verify(BearerToken(header).value).userId;
    assert users[id].(active := false).passwordChangeAt == users[id].passwordChangeAt;
  }

  // ---------------------------------------------------------------- resizeImage

  /** `user-${uuid}-${ms}.jpeg`. */
  function UserImageName(uuid: string, now: nat): (f: string)
    ensures |f| == 5 + |uuid| + 1 + |DecimalString(now)| + 5
    ensures f[..5] == "user-" && f[|f| - 5..] == ".jpeg"
  {
    "user-" + uuid + "-" + DecimalString(now) + ".jpeg"
  }

  /** u + "-" + d determines u and d when d has no '-'. */
  lemma SplitAtLastDash(u1: string, d1: string, u2: string, d2: string)
    requires AllDigits(d1) && AllDigits(d2)
    requires u1 + "-" + d1 == u2 + "-" + d2
    ensures u1 == u2 && d1 == d2
  {
    var s := u1 + "-" + d1;
    assert s[|u1|] == '-';
    assert (u2 + "-" + d2)[|u2|] == '-';
    assert u1 == s[..|u1|] == u2;
    assert d1 == s[|u1| + 1..] == d2;
  }

  /** Every upload gets a name of its own: the name determines the uuid and the
      timestamp it was made from. */
  lemma ImageNamesAreDistinct(uuid1: string, now1: nat, uuid2: string, now2: nat)
    requires UserImageName(uuid1, now1) == UserImageName(uuid2, now2)
    ensures uuid1 == uuid2 && now1 == now2
  {
    var f := UserImageName(uuid1, now1);
    var d1 := DecimalString(now1);
    var d2 := DecimalString(now2);
    assert f[5..|f| - 5] == uuid1 + "-" + d1;
    assert UserImageName(uuid2, now2)[5..|f| - 5] == uuid2 + "-" + d2;
    SplitAtLastDash(uuid1, d1, uuid2, d2);
    DecimalStringValue(now1);
    DecimalStringValue(now2);
  }

  /** resizeImage: req.body.profileImg is set to the generated name only when a file
      was uploaded. */
  method ResizeImage(req: Request, uuid: string, now: nat) returns (r: Outcome<()>)
    modifies req`body
    ensures r == Ok(())
    ensures req.hasFile ==> req.body == old(req.body)["profileImg" := Str(UserImageName(uuid, now))]
    ensures !req.hasFile ==> req.body == old(req.body)
  {
    var filename := "user-" + uuid + "-" + DecimalString(now) + ".jpeg";
    if req.hasFile {
      req.body := req.body["profileImg" := Str(filename)];
    }
    return Ok(());
  }

  /** After resizeImage with a file, updateUser stores exactly the generated name. */
  lemma UploadedImageIsStored(u: User, b: Body, uuid: string, now: nat)
    ensures AdminUpdated(u, b["profileImg" := Str(UserImageName(uuid, now))]).profileImg
              == Some(UserImageName(uuid, now))
  {
  }
}
