/** The rule semantics the validators are written in (express-validator): a standard
    validator tests the string form of a field and records its message once for
    every instance it refuses; a custom rule sees the raw value; an optional chain is
    skipped when the field is undefined. Errors are collected in declaration order;
    a request passes validation when none were recorded. */
module Validation {
  import opened Common
  import opened Text
  import opened Entities
  import opened Http

  /** The standard validators the rules use. */
  datatype Test = NotEmpty | MinLength(min: nat) | MaxLength(max: nat) | Numeric | MongoId

  predicate Holds(t: Test, s: string)
  {
    match t
    case NotEmpty => s != ""
    case MinLength(n) => VisibleLength(s) >= n
    case MaxLength(n) => VisibleLength(s) <= n
    case Numeric => IsNumeric(s)
    case MongoId => IsMongoId(s)
  }

  /** The strings a standard validator is applied to: an undefined or null field is
      the empty string, a string itself, a number String(n), a boolean "true" or
      "false", an array each of its elements. */
  function Instances(v: Option<Value>): (xs: seq<string>)
    ensures v.None? || v == Some(Null) ==> xs == [""]
    ensures v.Some? && v.value.Str? ==> xs == [v.value.s]
    ensures v.Some? && v.value.Num? ==> xs == [v.value.repr]
    ensures v.Some? && v.value.Bool? ==> xs == [if v.value.b then "true" else "false"]
    ensures v.Some? && v.value.List? ==> xs == v.value.items
  {
    match v
    case None => [""]
    case Some(Str(s)) => [s]
    case Some(Num(repr)) => [repr]
    case Some(Bool(x)) => [if x then "true" else "false"]
    case Some(Null) => [""]
    case Some(List(items)) => items
  }

  /** The message msg once for every string of xs that t refuses, in order. */
  function Failures(xs: seq<string>, t: Test, msg: string): (errs: seq<string>)
    ensures errs == [] <==> forall i :: 0 <= i < |xs| ==> Holds(t, xs[i])
    ensures forall i :: 0 <= i < |errs| ==> errs[i] == msg
    ensures |errs| <= |xs|
  {
    if |xs| == 0 then []
    else (if Holds(t, xs[0]) then [] else [msg]) + Failures(xs[1..], t, msg)
  }

  /** The errors one standard validator records for a field. */
  function Standard(v: Option<Value>, t: Test, msg: string): (errs: seq<string>)
    ensures errs == [] <==> forall s :: s in Instances(v) ==> Holds(t, s)
    ensures forall e :: e in errs ==> e == msg
  {
    Failures(Instances(v), t, msg)
  }

  // ---------------------------------------------------------------- the slug rule

  /** The message of the error slugify throws for a value that is not a string. */
  const SlugifyTypeError := "slugify: string argument expected"

  /** The errors of the custom rule that derives the slug: it fails (slugify throws)
      unless the field holds a string. */
  function SlugErrors(v: Option<Value>): (errs: seq<string>)
    ensures errs == [] <==> v.Some? && v.value.Str?
    ensures errs != [] ==> errs == [SlugifyTypeError]
  {
    if v.Some? && v.value.Str? then [] else [SlugifyTypeError]
  }

  /** The body after the slug rule on field key: when key holds a string s, slug is
      slugify(s) and nothing else changes; otherwise the body is unchanged. */
  function WithSlug(b: Body, key: string, slugify: string -> string): (r: Body)
    ensures StrField(b, key).Some? ==> "slug" in r && r["slug"] == Str(slugify(StrField(b, key).value))
    ensures StrField(b, key).None? ==> r == b
    ensures forall k :: k != "slug" ==> (k in r <==> k in b) && (k in b ==> r[k] == b[k])
    ensures r.Keys == b.Keys || r.Keys == b.Keys + {"slug"}
  {
    match StrField(b, key)
    case Some(s) => b["slug" := Str(slugify(s))]
    case None => b
  }

  /** The custom slug rule on field key, assigning req.body.slug in place. */
  method SlugRule(req: Request, key: string, slugify: string -> string) returns (errs: seq<string>)
    modifies req`body
    ensures errs == SlugErrors(Field(old(req.body), key))
    ensures req.body == WithSlug(old(req.body), key, slugify)
  {
    if key in req.body && req.body[key].Str? {
      req.body := req.body["slug" := Str(slugify(req.body[key].s))];
      errs := [];
    } else {
      errs := [SlugifyTypeError];
    }
  }

  // ---------------------------------------------------------------- the id rule

  /** The route parameter key as the field a validator sees. */
  function Param(params: map<string, string>, key: string): (v: Option<Value>)
    ensures v.Some? <==> key in params
    ensures v.Some? ==> v.value == Str(params[key])
  {
    if key in params then Some(Str(params[key])) else None
  }

  /** check("id").isMongoId().withMessage(msg): the id parameter must be a Mongo id. */
  function IdErrors(params: map<string, string>, msg: string): (errs: seq<string>)
    ensures errs == [] <==> "id" in params && IsMongoId(params["id"])
    ensures errs != [] ==> errs == [msg]
  {
    Standard(Param(params, "id"), MongoId, msg)
  }

  // ---------------------------------------------------------------- the name rule

  /** The messages of the name chain of a category or brand creation. */
  datatype NameMessages = NameMessages(required: string, tooShort: string, tooLong: string)

  /** name: notEmpty, isLength({ min: 3 }), isLength({ max: 33 }), then the slug rule. */
  function CreateNameErrors(v: Option<Value>, m: NameMessages): (errs: seq<string>)
    ensures errs == [] <==> v.Some? && v.value.Str? && 3 <= VisibleLength(v.value.s) <= 33
  {
    Standard(v, NotEmpty, m.required) + Standard(v, MinLength(3), m.tooShort)
      + Standard(v, MaxLength(33), m.tooLong) + SlugErrors(v)
  }

  /** The name chain of a creation record a slug exactly when it accepts the name:
      whenever it passes, body.slug is slugify(name). */
  lemma AcceptedNameIsSlugged(b: Body, m: NameMessages, slugify: string -> string)
    requires CreateNameErrors(Field(b, "name"), m) == []
    ensures "slug" in WithSlug(b, "name", slugify)
    ensures WithSlug(b, "name", slugify)["slug"] == Str(slugify(b["name"].s))
  {
  }

  /** Creating or updating by name: the name chain with the slug rule, run in place. */
  method NameRule(req: Request, m: NameMessages, slugify: string -> string) returns (errs: seq<string>)
    modifies req`body
    ensures errs == CreateNameErrors(Field(old(req.body), "name"), m)
    ensures req.body == WithSlug(old(req.body), "name", slugify)
  {
    var v := Field(req.body, "name");
    errs := Standard(v, NotEmpty, m.required) + Standard(v, MinLength(3), m.tooShort)
            + Standard(v, MaxLength(33), m.tooLong);
    var slugErrs := SlugRule(req, "name", slugify);
    errs := errs + slugErrs;
  }
}
