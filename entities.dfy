/** The records the handlers read and write: users, sub-categories, and the values
    a JSON request body carries. */
module Entities {
  import opened Common

  /** A document identifier (a Mongo ObjectId in its string form). */
  type Id = string

  /** A stored user document. Timestamps are milliseconds since the epoch. */
  datatype User = User(
    id: Id,
    name: string,
    slug: Option<string>,
    email: string,
    phone: Option<string>,
    profileImg: Option<string>,
    password: Option<string>,            // the password hash
    role: string,
    active: bool,
    passwordChangeAt: Option<int>,       // the field protect reads
    passwrodChangeAt: Option<int>,       // the misspelt field the password handlers write
    passwordResetCode: Option<string>,   // the hash of the emailed reset code
    passwordResetExpires: Option<int>,
    passwordResetVerified: Option<bool>)

  datatype SubCategory = SubCategory(id: Id, category: Id)

  /** A value of a JSON request body: a string, a number (held as the string
      String(n) gives), a boolean, null, or an array of scalars in their string form.
      (A nested object is not part of this model.) */
  datatype Value = Str(s: string) | Num(repr: string) | Bool(b: bool) | Null | List(items: seq<string>)

  /** req.body: a missing key is an undefined field. */
  type Body = map<string, Value>

  function Field(b: Body, key: string): (v: Option<Value>)
    ensures v.Some? <==> key in b
    ensures v.Some? ==> v.value == b[key]
  {
    if key in b then Some(b[key]) else None
  }

  /** The string a scalar body field holds; None when it is undefined or an array. */
  function StrField(b: Body, key: string): (s: Option<string>)
    ensures s.Some? <==> key in b && b[key].Str?
    ensures s.Some? ==> b[key] == Str(s.value)
  {
    if key in b && b[key].Str? then Some(b[key].s) else None
  }

  /** The string a scalar field is cast to where a string is expected (Mongoose's
      string cast): a string itself, String(n) of a number, "true" or "false" of a
      boolean; None when the field is undefined, null or an array. */
  function ScalarField(b: Body, key: string): (s: Option<string>)
    ensures s.Some? <==> key in b && (b[key].Str? || b[key].Num? || b[key].Bool?)
    ensures StrField(b, key).Some? ==> s == StrField(b, key)
  {
    if key !in b then None
    else match b[key]
      case Str(s) => Some(s)
      case Num(repr) => Some(repr)
      case Bool(x) => Some(if x then "true" else "false")
      case Null => None
      case List(_) => None
  }

  /** JavaScript truthiness of a body field. The falsy values are exactly
      undefined, null, false, the number 0 and "" (a JSON number is never NaN, and
      String(-0) is "0"); any other string or number, true and every array, even an
      empty one, are truthy. */
  function Truthy(v: Option<Value>): (t: bool)
    ensures !t <==> v.None? || v == Some(Null) || v == Some(Bool(false)) || v == Some(Num("0")) || v == Some(Str(""))
  {
    match v
    case None => false
    case Some(Str(s)) => s != ""
    case Some(Num(repr)) => repr != "0"
    case Some(Bool(x)) => x
    case Some(Null) => false
    case Some(List(_)) => true
  }

  /** The value of a field that may be updated: the new value when one is given. */
  function Override<T>(current: T, given: Option<T>): (r: T)
    ensures given.Some? ==> r == given.value
    ensures given.None? ==> r == current
  {
    if given.Some? then given.value else current
  }
}

/** The part of an Express request the modelled handlers read and assign. */
module Http {
  import opened Common
  import opened Entities

  class Request {
    var authorization: Option<string>           // req.headers.authorization
    var user: Option<User>                      // req.user, set by protect
    var body: Body                              // req.body
    var params: map<string, string>             // req.params
    var filterObject: Option<map<string, string>>  // req.filterObject
    var hasFile: bool                           // whether req.file is set

    constructor (authorization: Option<string>, body: Body, params: map<string, string>, hasFile: bool)
      ensures this.authorization == authorization && this.body == body
      ensures this.params == params && this.hasFile == hasFile
      ensures user == None && filterObject == None
    {
      this.authorization := authorization;
      this.user := None;
      this.body := body;
      this.params := params;
      this.filterObject := None;
      this.hasFile := hasFile;
    }
  }
}

/** The user collection of the document store, as an in-memory map from id to document. */
module Database {
  import opened Common
  import opened Entities

  /** Every stored email belongs to one user (the schema's unique index). */
  ghost predicate UniqueEmails(docs: map<Id, User>)
  {
    forall a, b :: a in docs && b in docs && docs[a].email == docs[b].email ==> a == b
  }

  /** Some user other than id holds the email. */
  ghost predicate EmailTakenByOther(docs: map<Id, User>, id: Id, email: string)
  {
    exists k :: k in docs && k != id && docs[k].email == email
  }

  /** What the store guarantees of its users: each is stored under its own _id, and
      no two share an email. */
  ghost predicate ValidDocs(docs: map<Id, User>)
  {
    && (forall id :: id in docs ==> docs[id].id == id)
    && UniqueEmails(docs)
  }

  /** Storing u under its own id keeps the store valid when its email is held by no
      other user, and in particular when it keeps the email already stored there. */
  lemma StoreKeepsValid(docs: map<Id, User>, u: User)
    requires ValidDocs(docs)
    requires !EmailTakenByOther(docs, u.id, u.email) || (u.id in docs && u.email == docs[u.id].email)
    ensures ValidDocs(docs[u.id := u])
  {
    var after := docs[u.id := u];
    if u.id in docs && u.email == docs[u.id].email {
      assert !EmailTakenByOther(docs, u.id, u.email);
    }
    forall a, b | a in after && b in after && after[a].email == after[b].email
      ensures a == b
    {
      if a != u.id && b != u.id {
        assert docs[a].email == docs[b].email;
      }
    }
  }

  class UserCollection {
    var docs: map<Id, User>

    ghost predicate Valid()
      reads this
    {
      ValidDocs(docs)
    }

    constructor (docs: map<Id, User>)
      ensures this.docs == docs
    {
      this.docs := docs;
    }

    /** User.findOne({ email }): the id of some stored user with that email, or None
        when there is none. */
    method FindOneByEmail(email: string) returns (r: Option<Id>)
      ensures r.Some? ==> r.value in docs && docs[r.value].email == email
      ensures r.None? <==> forall id :: id in docs ==> docs[id].email != email
      ensures UniqueEmails(docs) && r.Some? ==>
        forall id :: id in docs && docs[id].email == email ==> id == r.value
    {
      var pending := docs.Keys;
      while pending != {}
        invariant pending <= docs.Keys
        invariant forall id :: id in docs && id !in pending ==> docs[id].email != email
        decreases pending
      {
        var id :| id in pending;
        if docs[id].email == email {
          return Some(id);
        }
        pending := pending - {id};
      }
      return None;
    }
  }
}
