/** The product validators (utils/validators/productValidator.js). The category
    store is the set of stored category ids; the sub-category store is the sequence
    of stored sub-categories in the order a query returns them. */
module ProductValidator {
  import opened Common
  import opened Text
  import opened Entities
  import opened Http
  import opened Validation

  const TitleTooShort := "must be least 3 Chars"
  const TitleRequired := "Product required"
  const DescriptionRequired := "Product description is required"
  const DescriptionTooLong := "Too long description"
  const QuantityRequired := "Product quantity is required"
  const QuantityNotNumber := "product quantity must be a number"
  const PriceRequired := "product price is required"
  const PriceNotNumber := "Product price must be a number"
  const PriceTooLong := "To long price"
  const DiscountAbovePrice := "priceAfterDiscount must be lower then price"
  const ColorsNotArray := "availableColors shold be array of string"
  const ImageCoverRequired := "Product imageCover is required"
  const ImagesNotArray := "images should be array of string"
  const CategoryRequired := "Product must be belong to a category"
  const InvalidIdFormate := "Invalid ID formate"
  const InvalidIdFormateLower := "invalid ID formate"
  const InvalidSubcategories := "Invalid subcategoriesIds"
  const SubcategoriesElsewhere := "subcategories not belong to category"
  /** The TypeError the membership check throws when subcategories is not an array. */
  const EveryNotAFunction := "target.every is not a function"
  /** The TypeError it throws when subcategories is null. */
  const EveryOfNull := "Cannot read properties of null (reading 'every')"
  const RatingNotNumber := "retingsAverage must be a number"
  const RatingTooShort := "Rating must be above or equal 1.0"
  const RatingTooLong := "Rating must be below or equal 5.0"
  const RatingsQuantityNotNumber := "retingsQuantity must be a number"

  /** The rules of an optional() chain: none when the field is undefined. */
  function Optional(v: Option<Value>, errs: seq<string>): seq<string>
  {
    if v.None? then [] else errs
  }

  /** isArray(): the field is an array. */
  function ArrayErrors(v: Option<Value>, msg: string): (errs: seq<string>)
    ensures errs == [] <==> v.Some? && v.value.List?
  {
    if v.Some? && v.value.List? then [] else [msg]
  }

  // ---------------------------------------------------------------- per-field rules

  /** title: at least 3 characters, not empty, and a string (for the slug rule). */
  function TitleErrors(b: Body): (errs: seq<string>)
    ensures errs == [] <==> StrField(b, "title").Some? && VisibleLength(StrField(b, "title").value) >= 3
  {
    var v := Field(b, "title");
    Standard(v, MinLength(3), TitleTooShort) + Standard(v, NotEmpty, TitleRequired) + SlugErrors(v)
  }

  /** description: required, at most 200 characters. */
  function DescriptionErrors(b: Body): (errs: seq<string>)
    ensures errs == [] <==> Each(Field(b, "description"), NotEmpty) && Each(Field(b, "description"), MaxLength(200))
  {
    var v := Field(b, "description");
    var required := Standard(v, NotEmpty, DescriptionRequired);
    var short := Standard(v, MaxLength(200), DescriptionTooLong);
    assert required + short == [] <==> required == [] && short == [];
    required + short
  }

  /** quantity: required and numeric. */
  function QuantityErrors(b: Body): (errs: seq<string>)
    ensures errs == [] <==> Each(Field(b, "quantity"), Numeric)
  {
    var v := Field(b, "quantity");
    EachNumericIsNotEmpty(v);
    var required := Standard(v, NotEmpty, QuantityRequired);
    var numeric := Standard(v, Numeric, QuantityNotNumber);
    assert required + numeric == [] <==> required == [] && numeric == [];
    required + numeric
  }

  /** slod: optional, numeric. */
  function SlodErrors(b: Body): (errs: seq<string>)
    ensures errs == [] <==> OptionalEach(Field(b, "slod"), Numeric)
  {
    var v := Field(b, "slod");
    Optional(v, Standard(v, Numeric, QuantityNotNumber))
  }

  /** price: required, numeric, and at most 32 characters long. */
  function PriceErrors(b: Body): (errs: seq<string>)
    ensures errs == [] <==> Each(Field(b, "price"), Numeric) && Each(Field(b, "price"), MaxLength(32))
  {
    var v := Field(b, "price");
    EachNumericIsNotEmpty(v);
    var required := Standard(v, NotEmpty, PriceRequired);
    var numeric := Standard(v, Numeric, PriceNotNumber);
    var short := Standard(v, MaxLength(32), PriceTooLong);
    assert required + numeric + short == [] <==> required == [] && numeric == [] && short == [];
    required + numeric + short
  }

  /** Number(req.body.price), the left operand of `<` once JavaScript converts it:
      undefined is NaN (None), null is 0, a boolean 0 or 1, a string or a number its
      value, and an array the value of its joined string: 0 when it is empty, its
      element's when it has one, NaN when it has more. */
  function PriceOperand(v: Option<Value>): (r: Option<real>)
    ensures v.None? ==> r.None?
    ensures v == Some(Null) || v == Some(Bool(false)) || v == Some(List([])) ==> r == Some(0.0)
    ensures v == Some(Bool(true)) ==> r == Some(1.0)
    ensures v.Some? && v.value.Str? ==> (r.Some? <==> v.value.s == "" || IsNumeric(v.value.s))
    ensures v.Some? && v.value.List? && |v.value.items| == 1 ==> r == JsNumber(v.value.items[0])
    ensures v.Some? && v.value.List? && |v.value.items| > 1 ==> r.None?
  {
    match v
    case None => None
    case Some(Null) => Some(0.0)
    case Some(Bool(x)) => Some(if x then 1.0 else 0.0)
    case Some(Str(s)) => JsNumber(s)
    case Some(Num(repr)) => JsNumber(repr)
    case Some(List(xs)) =>
      if |xs| == 0 then Some(0.0) else if |xs| == 1 then JsNumber(xs[0]) else None
  }

  /** The value the custom rule receives: priceAfterDiscount after toFloat(), a number
      for a numeric string or number and NaN (None) for anything else. */
  function DiscountOperand(v: Option<Value>): (r: Option<real>)
    ensures r.Some? <==> v.Some? && ((v.value.Str? && IsNumeric(v.value.s)) || (v.value.Num? && IsNumeric(v.value.repr)))
  {
    match v
    case Some(Str(d)) => if IsNumeric(d) then JsNumber(d) else None
    case Some(Num(d)) => if IsNumeric(d) then JsNumber(d) else None
    case _ => None
  }

  /** req.body.price < value: false when either side is NaN. */
  function PriceBelowDiscount(b: Body): (below: bool)
    ensures below ==> "price" in b && "priceAfterDiscount" in b
    ensures below <==> PriceOperand(Field(b, "price")).Some? && DiscountOperand(Field(b, "priceAfterDiscount")).Some?
                       && PriceOperand(Field(b, "price")).value < DiscountOperand(Field(b, "priceAfterDiscount")).value
  {
    var p := PriceOperand(Field(b, "price"));
    var d := DiscountOperand(Field(b, "priceAfterDiscount"));
    p.Some? && d.Some? && p.value < d.value
  }

  /** priceAfterDiscount: optional, numeric, and not above the price. */
  function DiscountErrors(b: Body): (errs: seq<string>)
    ensures errs == [] <==> OptionalEach(Field(b, "priceAfterDiscount"), Numeric) && !PriceBelowDiscount(b)
  {
    var v := Field(b, "priceAfterDiscount");
    Optional(v, Standard(v, Numeric, PriceNotNumber)
                + (if PriceBelowDiscount(b) then [DiscountAbovePrice] else []))
  }

  /** The price rule refuses a discount exactly when the price is below it; a discount
      equal to the price passes. */
  lemma DiscountRule(b: Body, price: string, discount: string)
    requires StrField(b, "price") == Some(price) && StrField(b, "priceAfterDiscount") == Some(discount)
    requires IsNumeric(price) && IsNumeric(discount)
    ensures DiscountAbovePrice in DiscountErrors(b) <==> JsNumber(price).value < JsNumber(discount).value
    ensures price == discount ==> DiscountErrors(b) == []
  {
    var v := Field(b, "priceAfterDiscount");
    assert v == Some(Str(discount));
    assert Standard(v, Numeric, PriceNotNumber) == [];
    assert DiscountErrors(b) == if PriceBelowDiscount(b) then [DiscountAbovePrice] else [];
    assert PriceOperand(Field(b, "price")) == JsNumber(price);
    assert DiscountOperand(v) == JsNumber(discount);
  }

  /** Whole prices sent as JSON numbers below 2^53, which binary64 holds exactly: the
      discount is refused exactly when the price is the smaller number. */
  lemma WholePricesCompare(b: Body, price: nat, discount: nat)
    requires Field(b, "price") == Some(Num(DecimalString(price)))
    requires Field(b, "priceAfterDiscount") == Some(Num(DecimalString(discount)))
    requires price < 0x20_0000_0000_0000 && discount < 0x20_0000_0000_0000
    ensures DiscountAbovePrice in DiscountErrors(b) <==> price < discount
  {
    JsNumberOfDecimalString(price);
    JsNumberOfDecimalString(discount);
    var v := Field(b, "priceAfterDiscount");
    assert Standard(v, Numeric, PriceNotNumber) == [];
    assert DiscountErrors(b) == if PriceBelowDiscount(b) then [DiscountAbovePrice] else [];
  }

  /** colors: optional, an array. */
  function ColorsErrors(b: Body): (errs: seq<string>)
    ensures errs == [] <==> ("colors" in b ==> b["colors"].List?)
  {
    var v := Field(b, "colors");
    Optional(v, ArrayErrors(v, ColorsNotArray))
  }

  /** imageCover: required. */
  function ImageCoverErrors(b: Body): (errs: seq<string>)
    ensures errs == [] <==> Each(Field(b, "imageCover"), NotEmpty)
  {
    Standard(Field(b, "imageCover"), NotEmpty, ImageCoverRequired)
  }

  /** images: optional, an array. */
  function ImagesErrors(b: Body): (errs: seq<string>)
    ensures errs == [] <==> ("images" in b ==> b["images"].List?)
  {
    var v := Field(b, "images");
    Optional(v, ArrayErrors(v, ImagesNotArray))
  }

  /** The message of a category lookup that finds nothing: the id as a template
      literal prints it. */
  function NoCategoryFor(v: Option<Value>): (msg: string)
    ensures |msg| >= 24 && msg[..24] == "No category for this id "
    ensures v.Some? && v.value.Str? ==> msg[24..] == v.value.s
    ensures v.None? ==> msg[24..] == "undefined"
    ensures v == Some(Null) ==> msg[24..] == "null"
  {
    "No category for this id " +
      match v
      case None => "undefined"
      case Some(Str(s)) => s
      case Some(Num(repr)) => repr
      case Some(Bool(x)) => if x then "true" else "false"
      case Some(Null) => "null"
      case Some(List(xs)) => Join(xs, ',')
  }

  /** category: required, a Mongo id, and the id of a stored category. */
  function CategoryErrors(b: Body, categories: set<Id>): (errs: seq<string>)
    ensures errs == [] <==>
      StrField(b, "category").Some? && IsMongoId(StrField(b, "category").value)
      && StrField(b, "category").value in categories
  {
    var v := Field(b, "category");
    Standard(v, NotEmpty, CategoryRequired) + Standard(v, MongoId, InvalidIdFormate)
      + (if StrField(b, "category").Some? && StrField(b, "category").value in categories then []
         else [NoCategoryFor(v)])
  }

  /** The number of stored sub-categories whose id is among ids
      (SubCategory.find({ _id: { $exists: true, $in: ids } }).length). */
  function CountWithIdIn(subs: seq<SubCategory>, ids: seq<string>): (n: nat)
    ensures n <= |subs|
  {
    if |subs| == 0 then 0
    else (if subs[0].id in ids then 1 else 0) + CountWithIdIn(subs[1..], ids)
  }

  /** The ids the $in query is given and subCategoriesIdes.length: an array gives its
      elements and its length, a string is queried as itself while its length is its
      number of characters; a number, a boolean or null matches no id and has no
      length (undefined). */
  function GivenIds(v: Value): (r: (seq<string>, Option<nat>))
    ensures r.1.Some? <==> v.List? || v.Str?
    ensures v.List? ==> r.0 == v.items && r.1 == Some(|v.items|)
    ensures v.Str? ==> r.0 == [v.s] && r.1 == Some(|v.s|)
    ensures r.1.None? ==> r.0 == []
  {
    match v
    case List(xs) => (xs, Some(|xs|))
    case Str(s) => ([s], Some(|s|))
    case _ => ([], None)
  }

  /** The first custom rule: at least one sub-category is found, and exactly as many
      as the value's length. */
  function FoundErrors(v: Value, subs: seq<SubCategory>): (errs: seq<string>)
    ensures errs == [] <==>
      || (v.List? && 1 <= CountWithIdIn(subs, v.items) == |v.items|)
      || (v.Str? && 1 <= CountWithIdIn(subs, [v.s]) == |v.s|)
    ensures errs != [] ==> errs == [InvalidSubcategories]
  {
    var (ids, given) := GivenIds(v);
    var found := CountWithIdIn(subs, ids);
    if found < 1 || Some(found) != given then [InvalidSubcategories] else []
  }

  /** s matches the filter { category: req.body.category }. An undefined filter value
      is dropped from the query, so then every sub-category matches; an array matches
      through $in; null matches only a missing category, which a stored sub-category
      does not have; a number or boolean matches nothing. */
  function InCategory(s: SubCategory, category: Option<Value>): (r: bool)
    ensures category.None? ==> r
    ensures category.Some? && category.value.Str? ==> (r <==> s.category == category.value.s)
    ensures category.Some? && category.value.List? ==> (r <==> s.category in category.value.items)
    ensures r ==> category.None? || category.value.Str? || category.value.List?
  {
    match category
    case None => true
    case Some(Str(c)) => s.category == c
    case Some(List(cs)) => s.category in cs
    case Some(_) => false
  }

  /** SubCategory.find({ category: req.body.category }), in store order. */
  function SubsOfCategory(subs: seq<SubCategory>, category: Option<Value>): (r: seq<SubCategory>)
    ensures forall s :: s in r <==> s in subs && InCategory(s, category)
  {
    if |subs| == 0 then []
    else (if InCategory(subs[0], category) then [subs[0]] else []) + SubsOfCategory(subs[1..], category)
  }

  /** The ids of a query result, in order. */
  function IdsOf(subs: seq<SubCategory>): (ids: seq<Id>)
    ensures |ids| == |subs|
    ensures forall i :: 0 <= i < |subs| ==> ids[i] == subs[i].id
  {
    seq(|subs|, i requires 0 <= i < |subs| => subs[i].id)
  }

  /** The forEach / push loop that lists the ids of the sub-categories found. */
  method CollectIds(subcategories: seq<SubCategory>) returns (ids: seq<Id>)
    ensures |ids| == |subcategories|
    ensures forall i :: 0 <= i < |ids| ==> ids[i] == subcategories[i].id
    ensures ids == IdsOf(subcategories)
  {
    ids := [];
    for i := 0 to |subcategories|
      invariant |ids| == i
      invariant forall j :: 0 <= j < i ==> ids[j] == subcategories[j].id
    {
      ids := ids + [subcategories[i].id];
    }
  }

  /** The stored sub-categories have pairwise distinct ids, as their _id does. */
  predicate DistinctIds(subs: seq<SubCategory>)
  {
    forall i, j :: 0 <= i < j < |subs| ==> subs[i].id != subs[j].id
  }

  /** The ids of the stored sub-categories. */
  function StoredIds(subs: seq<SubCategory>): set<Id>
  {
    set s | s in subs :: s.id
  }

  /** No id is listed twice. */
  predicate NoDuplicates(xs: seq<string>)
  {
    forall i, j :: 0 <= i < j < |xs| ==> xs[i] != xs[j]
  }

  /** The distinct ids of a list. */
  function Elements(xs: seq<string>): set<string>
  {
    set x | x in xs
  }

  /** Splitting off the first stored sub-category: its id is new to the rest. */
  lemma StoredIdsCons(subs: seq<SubCategory>)
    requires |subs| > 0 && DistinctIds(subs)
    ensures DistinctIds(subs[1..])
    ensures StoredIds(subs) == {subs[0].id} + StoredIds(subs[1..])
    ensures subs[0].id !in StoredIds(subs[1..])
  {
    var t := subs[1..];
    forall i, j | 0 <= i < j < |t| ensures t[i].id != t[j].id {
      assert t[i] == subs[i + 1] && t[j] == subs[j + 1];
    }
    assert subs == [subs[0]] + t;
    forall s | s in t ensures s.id != subs[0].id {
      var k :| 0 <= k < |t| && t[k] == s;
      assert subs[k + 1] == s;
    }
  }

  /** With distinct stored ids, the $in query finds one sub-category per stored id
      that is listed, however often it is listed. */
  lemma {:induction false} CountIsStoredListed(subs: seq<SubCategory>, xs: seq<string>)
    requires DistinctIds(subs)
    ensures CountWithIdIn(subs, xs) == |StoredIds(subs) * Elements(xs)|
  {
    if |subs| == 0 {
      assert StoredIds(subs) == {};
    } else {
      var t := subs[1..];
      StoredIdsCons(subs);
      CountIsStoredListed(t, xs);
      var h := subs[0].id;
      var X := Elements(xs);
      if h in xs {
        assert StoredIds(subs) * X == {h} + StoredIds(t) * X;
        assert {h} !! StoredIds(t) * X;
      } else {
        assert StoredIds(subs) * X == StoredIds(t) * X;
      }
    }
  }

  /** A list has at most as many distinct ids as entries, and exactly as many iff no
      id is listed twice. */
  lemma {:induction false} ElementsCount(xs: seq<string>)
    ensures |Elements(xs)| <= |xs|
    ensures |Elements(xs)| == |xs| <==> NoDuplicates(xs)
  {
    if |xs| > 0 {
      var t := xs[1..];
      ElementsCount(t);
      assert Elements(xs) == {xs[0]} + Elements(t) by {
        assert xs == [xs[0]] + t;
      }
      if xs[0] in t {
        var k :| 0 <= k < |t| && t[k] == xs[0];
        assert xs[k + 1] == xs[0];
        assert Elements(xs) == Elements(t);
      } else {
        assert {xs[0]} !! Elements(t);
        assert NoDuplicates(xs) <==> NoDuplicates(t) by {
          if NoDuplicates(t) {
            forall i, j | 0 <= i < j < |xs| ensures xs[i] != xs[j] {
              if i == 0 { assert xs[j] == t[j - 1]; } else { assert xs[i] == t[i - 1] && xs[j] == t[j - 1]; }
            }
          }
          if NoDuplicates(xs) {
            forall i, j | 0 <= i < j < |t| ensures t[i] != t[j] {
              assert t[i] == xs[i + 1] && t[j] == xs[j + 1];
            }
          }
        }
      }
    }
  }

  /** The found-count condition in plain terms: with distinct stored ids, at least one
      and exactly as many sub-categories as ids are found iff the list is non-empty,
      lists no id twice and lists only stored ids. */
  lemma FoundCountMeansDistinctStoredIds(subs: seq<SubCategory>, xs: seq<string>)
    requires DistinctIds(subs)
    ensures 1 <= CountWithIdIn(subs, xs) == |xs| <==>
              |xs| >= 1 && NoDuplicates(xs) && forall x :: x in xs ==> x in StoredIds(subs)
  {
    CountIsStoredListed(subs, xs);
    ElementsCount(xs);
    var S := StoredIds(subs);
    var X := Elements(xs);
    assert X == (X - S) + (S * X) && (X - S) !! (S * X);
    assert |X| == |X - S| + |S * X|;
    if forall x :: x in xs ==> x in S {
      assert X - S == {};
    }
    if 1 <= CountWithIdIn(subs, xs) == |xs| {
      assert |X - S| == 0;
      forall x | x in xs ensures x in S {
        assert x in X;
        assert x !in X - S;
      }
    }
  }

  /** The found-count rule refuses an array of ids exactly when it is empty, lists an
      id twice or lists an id that is not stored. */
  lemma FoundRefusesDuplicateOrUnknownIds(xs: seq<string>, subs: seq<SubCategory>)
    requires DistinctIds(subs)
    ensures FoundErrors(List(xs), subs) == [] <==>
              |xs| >= 1 && NoDuplicates(xs) && forall x :: x in xs ==> x in StoredIds(subs)
  {
    FoundCountMeansDistinctStoredIds(subs, xs);
  }

  /** The sub-category requirement in plain terms: with distinct stored ids, given
      sub-categories are accepted iff they are a non-empty array of Mongo ids that lists
      no id twice, each the id of a stored sub-category of the body's category. */
  lemma SubcategoriesInPlainTerms(b: Body, subs: seq<SubCategory>)
    requires DistinctIds(subs)
    ensures SubcategoriesAccepted(b, subs) <==>
      ("subcategories" in b ==>
         && b["subcategories"].List?
         && var xs := b["subcategories"].items;
         && |xs| >= 1 && NoDuplicates(xs)
         && (forall x :: x in xs ==> IsMongoId(x))
         && forall x :: x in xs ==>
              exists s :: s in subs && s.id == x && InCategory(s, Field(b, "category")))
  {
    if "subcategories" in b && b["subcategories"].List? {
      var xs := b["subcategories"].items;
      FoundCountMeansDistinctStoredIds(subs, xs);
      if forall x :: x in xs ==> exists s :: s in subs && s.id == x && InCategory(s, Field(b, "category")) {
        forall x | x in xs ensures x in StoredIds(subs) {
          var s :| s in subs && s.id == x && InCategory(s, Field(b, "category"));
        }
      }
    }
  }

  /** The second custom rule: every given id is the id of a sub-category of the
      body's category (target.every(v => arr.includes(v))); a value that is not an
      array has no every method, and null has no properties at all. */
  function BelongErrors(v: Value, inCategory: seq<Id>): (errs: seq<string>)
    ensures errs == [] <==> v.List? && forall x :: x in v.items ==> x in inCategory
    ensures v.List? && errs != [] ==> errs == [SubcategoriesElsewhere]
    ensures v.Null? ==> errs == [EveryOfNull]
    ensures !v.List? && !v.Null? ==> errs == [EveryNotAFunction]
  {
    match v
    case List(xs) => if forall x :: x in xs ==> x in inCategory then [] else [SubcategoriesElsewhere]
    case Null => [EveryOfNull]
    case _ => [EveryNotAFunction]
  }

  /** subcategories: optional; Mongo ids, all found, all of the body's category. */
  function SubcategoriesErrors(b: Body, subs: seq<SubCategory>): (errs: seq<string>)
    ensures errs == [] <==> SubcategoriesAccepted(b, subs)
  {
    IdsOfCategory(subs, Field(b, "category"));
    match Field(b, "subcategories")
    case None => []
    case Some(v) =>
      Standard(Some(v), MongoId, InvalidIdFormateLower) + FoundErrors(v, subs)
        + BelongErrors(v, IdsOf(SubsOfCategory(subs, Field(b, "category"))))
  }

  /** brand: optional, a Mongo id. */
  function BrandErrors(b: Body): (errs: seq<string>)
    ensures errs == [] <==> OptionalEach(Field(b, "brand"), MongoId)
  {
    var v := Field(b, "brand");
    Optional(v, Standard(v, MongoId, InvalidIdFormateLower))
  }

  /** retingsAverage: optional, numeric, and 1 to 5 characters long (a length, not a
      range of values). */
  function RatingsAverageErrors(b: Body): (errs: seq<string>)
    ensures errs == [] <==>
      OptionalEach(Field(b, "retingsAverage"), Numeric) && OptionalEach(Field(b, "retingsAverage"), MinLength(1))
      && OptionalEach(Field(b, "retingsAverage"), MaxLength(5))
  {
    var v := Field(b, "retingsAverage");
    var numeric := Standard(v, Numeric, RatingNotNumber);
    var long := Standard(v, MinLength(1), RatingTooShort);
    var short := Standard(v, MaxLength(5), RatingTooLong);
    assert numeric + long + short == [] <==> numeric == [] && long == [] && short == [];
    Optional(v, numeric + long + short)
  }

  /** retingsQuantity: optional, numeric. */
  function RatingsQuantityErrors(b: Body): (errs: seq<string>)
    ensures errs == [] <==> OptionalEach(Field(b, "retingsQuantity"), Numeric)
  {
    var v := Field(b, "retingsQuantity");
    Optional(v, Standard(v, Numeric, RatingsQuantityNotNumber))
  }

  /** All errors createProductValidator records for a body, in rule order. None are
      recorded exactly when the body meets every declared requirement. */
  function CreateProductErrors(b: Body, categories: set<Id>, subs: seq<SubCategory>): (errs: seq<string>)
    ensures errs == [] <==> ProductAccepted(b, categories, subs)
  {
    var errs := TitleErrors(b) + DescriptionErrors(b) + QuantityErrors(b) + SlodErrors(b) + PriceErrors(b)
      + DiscountErrors(b) + ColorsErrors(b) + ImageCoverErrors(b) + ImagesErrors(b)
      + CategoryErrors(b, categories) + SubcategoriesErrors(b, subs) + BrandErrors(b)
      + RatingsAverageErrors(b) + RatingsQuantityErrors(b);
    assert |errs| ==
      |TitleErrors(b)| + |DescriptionErrors(b)| + |QuantityErrors(b)| + |SlodErrors(b)|
      + |PriceErrors(b)| + |DiscountErrors(b)| + |ColorsErrors(b)| + |ImageCoverErrors(b)|
      + |ImagesErrors(b)| + |CategoryErrors(b, categories)| + |SubcategoriesErrors(b, subs)|
      + |BrandErrors(b)| + |RatingsAverageErrors(b)| + |RatingsQuantityErrors(b)|;
    errs
  }

  // ---------------------------------------------------------------- what is accepted

  /** Every string a standard validator sees in v passes t. */
  predicate Each(v: Option<Value>, t: Test)
  {
    forall s :: s in Instances(v) ==> Holds(t, s)
  }

  /** The field is undefined, or t accepts each of its strings. */
  predicate OptionalEach(v: Option<Value>, t: Test)
  {
    v.None? || Each(v, t)
  }

  /** The sub-categories given are Mongo ids, all found in the store (at least one,
      and no more or fewer than given), and all belong to the body's category. */
  predicate SubcategoriesAccepted(b: Body, subs: seq<SubCategory>)
  {
    "subcategories" in b ==>
      && b["subcategories"].List?
      && var xs := b["subcategories"].items;
      && (forall x :: x in xs ==> IsMongoId(x))
      && 1 <= CountWithIdIn(subs, xs) == |xs|
      && forall x :: x in xs ==>
           exists s :: s in subs && s.id == x && InCategory(s, Field(b, "category"))
  }

  /** The declared requirements of a product creation, field by field. */
  predicate ProductAccepted(b: Body, categories: set<Id>, subs: seq<SubCategory>)
  {
    && StrField(b, "title").Some? && VisibleLength(StrField(b, "title").value) >= 3
    && Each(Field(b, "description"), NotEmpty) && Each(Field(b, "description"), MaxLength(200))
    && Each(Field(b, "quantity"), Numeric)
    && OptionalEach(Field(b, "slod"), Numeric)
    && Each(Field(b, "price"), Numeric) && Each(Field(b, "price"), MaxLength(32))
    && OptionalEach(Field(b, "priceAfterDiscount"), Numeric)
    && !PriceBelowDiscount(b)
    && ("colors" in b ==> b["colors"].List?)
    && Each(Field(b, "imageCover"), NotEmpty)
    && ("images" in b ==> b["images"].List?)
    && StrField(b, "category").Some? && IsMongoId(StrField(b, "category").value)
    && StrField(b, "category").value in categories
    && SubcategoriesAccepted(b, subs)
    && OptionalEach(Field(b, "brand"), MongoId)
    && OptionalEach(Field(b, "retingsAverage"), Numeric)
    && OptionalEach(Field(b, "retingsAverage"), MinLength(1))
    && OptionalEach(Field(b, "retingsAverage"), MaxLength(5))
    && OptionalEach(Field(b, "retingsQuantity"), Numeric)
  }

  /** Numeric instances are never empty. */
  lemma EachNumericIsNotEmpty(v: Option<Value>)
    ensures Each(v, Numeric) ==> Each(v, NotEmpty)
  {
  }

  /** The ids the membership rule compares with are exactly the ids of the stored
      sub-categories of the category. */
  lemma IdsOfCategory(subs: seq<SubCategory>, category: Option<Value>)
    ensures forall x :: x in IdsOf(SubsOfCategory(subs, category)) <==>
                          exists s :: s in subs && s.id == x && InCategory(s, category)
  {
    var inCategory := SubsOfCategory(subs, category);
    var ids := IdsOf(inCategory);
    forall x
      ensures x in ids <==> exists s :: s in subs && s.id == x && InCategory(s, category)
    {
      if x in ids {
        var i :| 0 <= i < |ids| && ids[i] == x;
        assert inCategory[i] in inCategory;
      }
      if exists s :: s in subs && s.id == x && InCategory(s, category) {
        var s :| s in subs && s.id == x && InCategory(s, category);
        assert s in inCategory;
        var i :| 0 <= i < |inCategory| && inCategory[i] == s;
        assert ids[i] == x;
      }
    }
  }

  /** A product that passes creation validation has body.slug == slugify(title). */
  lemma AcceptedProductIsSlugged(b: Body, categories: set<Id>, subs: seq<SubCategory>,
                                 slugify: string -> string)
    requires CreateProductErrors(b, categories, subs) == []
    ensures "slug" in WithSlug(b, "title", slugify)
    ensures WithSlug(b, "title", slugify)["slug"] == Str(slugify(b["title"].s))
  {
  }

  /** createProductValidator: every rule in order; the title rule assigns body.slug. */
  method CreateProductValidator(req: Request, categories: set<Id>, subs: seq<SubCategory>,
                                slugify: string -> string)
    returns (errors: seq<string>)
    modifies req`body
    ensures errors == CreateProductErrors(old(req.body), categories, subs)
    ensures req.body == WithSlug(old(req.body), "title", slugify)
  {
    var b := req.body;
    var title := Field(b, "title");
    errors := Standard(title, MinLength(3), TitleTooShort) + Standard(title, NotEmpty, TitleRequired);
    var slugErrors := SlugRule(req, "title", slugify);
    errors := errors + slugErrors;
    errors := errors + DescriptionErrors(b) + QuantityErrors(b) + SlodErrors(b) + PriceErrors(b)
              + DiscountErrors(b) + ColorsErrors(b) + ImageCoverErrors(b) + ImagesErrors(b)
              + CategoryErrors(b, categories);
    var subErrors: seq<string> := [];
    if "subcategories" in b {
      var v := b["subcategories"];
      subErrors := Standard(Some(v), MongoId, InvalidIdFormateLower) + FoundErrors(v, subs);
      var subCategoriesIdsInDb := CollectIds(SubsOfCategory(subs, Field(b, "category")));
      subErrors := subErrors + BelongErrors(v, subCategoriesIdsInDb);
    }
    errors := errors + subErrors + BrandErrors(b) + RatingsAverageErrors(b) + RatingsQuantityErrors(b);
  }

  /** getProductValidator and deleteProductValidator: the id parameter must be a Mongo id. */
  function ProductIdErrors(params: map<string, string>): (errs: seq<string>)
    ensures errs == [] <==> "id" in params && IsMongoId(params["id"])
  {
    IdErrors(params, InvalidIdFormate)
  }

  /** The errors of ubdateProductValidator: the id rule, then the slug rule, which runs
      only when the body has the key "tittle". */
  function UpdateProductErrors(params: map<string, string>, b: Body): (errs: seq<string>)
    ensures errs == [] <==> "id" in params && IsMongoId(params["id"]) && ("tittle" in b ==> b["tittle"].Str?)
  {
    IdErrors(params, InvalidIdFormate) + Optional(Field(b, "tittle"), SlugErrors(Field(b, "tittle")))
  }

  /** ubdateProductValidator, assigning body.slug from "tittle". */
  method UpdateProductValidator(req: Request, slugify: string -> string) returns (errors: seq<string>)
    modifies req`body
    ensures errors == UpdateProductErrors(req.params, old(req.body))
    ensures req.body == WithSlug(old(req.body), "tittle", slugify)
  {
    errors := IdErrors(req.params, InvalidIdFormate);
    if "tittle" in req.body {
      var slugErrors := SlugRule(req, "tittle", slugify);
      errors := errors + slugErrors;
    }
  }

  /** An update that renames the product through "title" leaves slug untouched: only
      the misspelt key "tittle" reaches the slug rule. */
  lemma TitleUpdateKeepsSlug(b: Body, slugify: string -> string)
    requires "tittle" !in b
    ensures WithSlug(b, "tittle", slugify) == b
  {
  }
}
