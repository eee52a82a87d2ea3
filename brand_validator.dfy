/** The brand validators (utils/validators/brandValidator.js). */
module BrandValidator {
  import opened Common
  import opened Text
  import opened Entities
  import opened Http
  import opened Validation

  const InvalidId := "Invalid Brand id format"
  const Messages := NameMessages("Brand required", "Tooo short Brand name", "Too long Brand name")

  /** getBrandValidator: the id parameter must be a Mongo id. */
  function GetBrandErrors(params: map<string, string>): (errs: seq<string>)
    ensures errs == [] <==> "id" in params && IsMongoId(params["id"])
    ensures errs != [] ==> errs == [InvalidId]
  {
    IdErrors(params, InvalidId)
  }

  /** createBrandValidator: a name of 3 to 33 characters, and body.slug derived from it. */
  method CreateBrandValidator(req: Request, slugify: string -> string) returns (errors: seq<string>)
    modifies req`body
    ensures errors == CreateNameErrors(Field(old(req.body), "name"), Messages)
    ensures req.body == WithSlug(old(req.body), "name", slugify)
  {
    errors := NameRule(req, Messages, slugify);
  }

  /** The errors of updateBrandValidator: the id rule, then the slug rule on name,
      which has no optional() guard. */
  function UpdateBrandErrors(params: map<string, string>, b: Body): (errs: seq<string>)
    ensures errs == [] <==> "id" in params && IsMongoId(params["id"]) && StrField(b, "name").Some?
  {
    IdErrors(params, InvalidId) + SlugErrors(Field(b, "name"))
  }

  /** updateBrandValidator: every update runs the slug rule, so an update that
      passes has its slug recomputed from name, and one without a name is refused. */
  method UpdateBrandValidator(req: Request, slugify: string -> string) returns (errors: seq<string>)
    modifies req`body
    ensures errors == UpdateBrandErrors(req.params, old(req.body))
    ensures req.body == WithSlug(old(req.body), "name", slugify)
  {
    errors := IdErrors(req.params, InvalidId);
    var slugErrors := SlugRule(req, "name", slugify);
    errors := errors + slugErrors;
  }

  /** An update that passes validation carries slug == slugify(name), whatever slug it
      carried before. */
  lemma UpdateRegeneratesSlug(params: map<string, string>, b: Body, slugify: string -> string)
    requires UpdateBrandErrors(params, b) == []
    ensures "slug" in WithSlug(b, "name", slugify)
    ensures WithSlug(b, "name", slugify)["slug"] == Str(slugify(b["name"].s))
  {
  }

  /** deleteBrandValidator: the id parameter must be a Mongo id. The source declares the
      rule of getBrandValidator again, so this repeats GetBrandErrors. */
  function DeleteBrandErrors(params: map<string, string>): (errs: seq<string>)
    ensures errs == [] <==> "id" in params && IsMongoId(params["id"])
    ensures errs != [] ==> errs == [InvalidId]
  {
    IdErrors(params, InvalidId)
  }
}
