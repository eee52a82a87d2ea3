/** The nested-route glue of the sub-category services
    (services/subCategoryServices.js): setCategoryIdToBody and createFilterObj. */
module SubCategoryServices {
  import opened Common
  import opened Entities
  import opened Http

  /** The body after setCategoryIdToBody: a truthy category is kept; otherwise
      category becomes the route's categoryId (undefined when the route has none).
      No other field changes. */
  function WithRouteCategory(b: Body, params: map<string, string>): (r: Body)
    ensures Truthy(Field(b, "category")) ==> r == b
    ensures !Truthy(Field(b, "category")) && "categoryId" in params ==>
              "category" in r && r["category"] == Str(params["categoryId"])
    ensures !Truthy(Field(b, "category")) && "categoryId" !in params ==> "category" !in r
    ensures forall k :: k != "category" ==> (k in r <==> k in b) && (k in b ==> r[k] == b[k])
  {
    if Truthy(Field(b, "category")) then b
    else if "categoryId" in params then b["category" := Str(params["categoryId"])]
    else b - {"category"}
  }

  /** Applying the rule twice is applying it once. */
  lemma WithRouteCategoryIdempotent(b: Body, params: map<string, string>)
    ensures WithRouteCategory(WithRouteCategory(b, params), params) == WithRouteCategory(b, params)
  {
  }

  /** setCategoryIdToBody: assigns req.body.category in place and always continues. */
  method SetCategoryIdToBody(req: Request) returns (r: Outcome<()>)
    modifies req`body
    ensures r == Ok(())
    ensures req.body == WithRouteCategory(old(req.body), req.params)
  {
    if !Truthy(Field(req.body, "category")) {
      if "categoryId" in req.params {
        req.body := req.body["category" := Str(req.params["categoryId"])];
      } else {
        req.body := req.body - {"category"};
      }
    }
    return Ok(());
  }

  /** The filter createFilterObj builds: { category: categoryId } when the route
      carries a truthy categoryId, and {} otherwise. */
  function FilterFor(params: map<string, string>): (f: map<string, string>)
    ensures "categoryId" in params && params["categoryId"] != "" ==> f == map["category" := params["categoryId"]]
    ensures !("categoryId" in params && params["categoryId"] != "") ==> f == map[]
  {
    if "categoryId" in params && params["categoryId"] != "" then map["category" := params["categoryId"]]
    else map[]
  }

  /** createFilterObj: assigns req.filterObject and always continues. */
  method CreateFilterObj(req: Request) returns (r: Outcome<()>)
    modifies req`filterObject
    ensures r == Ok(())
    ensures req.filterObject == Some(FilterFor(req.params))
  {
    var filterObject: map<string, string> := map[];
    if "categoryId" in req.params && req.params["categoryId"] != "" {
      filterObject := map["category" := req.params["categoryId"]];
    }
    req.filterObject := Some(filterObject);
    return Ok(());
  }

  /** On a nested route, a sub-category created without its own category gets the
      very category the nested listing filters on. */
  lemma NestedCreateMatchesNestedFilter(b: Body, params: map<string, string>)
    requires "categoryId" in params && params["categoryId"] != ""
    requires !Truthy(Field(b, "category"))
    ensures "category" in WithRouteCategory(b, params) && "category" in FilterFor(params)
    ensures WithRouteCategory(b, params)["category"] == Str(FilterFor(params)["category"])
  {
  }
}
