# E-commerce API request logic in Dafny

This project models the request-decision layer of an Express/Mongoose e-commerce
API:

- **authentication**: `protect`, `allowedTo`, `login` and `forgotPassword`;
- **validators**: the product, category and brand validator chains (express-validator);
- **glue**: the nested-route sub-category glue and the user-update handlers;
- **error handling**: the global error handler.

Each handler becomes a Dafny member over explicit inputs:

- a request object with the fields the handlers read and assign (class
  `Http.Request`);
- a user store of documents keyed by id (class `Database.UserCollection`);
- the decoded token `(userId, iat)`;
- the stores of category ids and sub-categories.

A handler's result is an `Outcome`:

- `Ok(v)`: the handler continues or answers normally.
- `Reject(ApiError(message, statusCode))`: it calls `next` with an application error.
- `Raise(message)`: any other exception. The global handler answers it with 500 and
  status "error".

Foreign primitives are parameters of the members that use them:

- `jwt.verify` becomes a function to `Verified`;
- `bcrypt.compare`, `createToken` (token signing), the reset-code digest and `slugify`
  are uninterpreted functions;
- `Math.random()` is an integer draw `k` in [0, 90000);
- `Date.now()` and the uuid are arguments;
- whether e-mail delivery succeeds is a boolean.

The request body is a map from field names to JSON values: a string, a number (held as
the string `String(n)` gives), a boolean, null, or an array of scalars in their string
form. A missing key is an undefined field. The validators follow express-validator's
rules:

- a standard validator tests the string form of the field: a number's `String(n)`,
  "true" or "false" for a boolean, and "" for null;
- for an array, it tests each element;
- it tests an undefined field as "";
- `optional()` skips a chain only when the field is undefined;
- custom rules see the raw value, except that priceAfterDiscount is first rewritten by
  `toFloat()` in the source (see Left out);
- errors are collected in declaration order.

`isLength` counts characters but not the variation selectors U+FE0E and U+FE0F.
`isMongoId` is validator.js's test: a hexadecimal string, with an optional `0x`/`0h`
prefix, of length 24. `isNumeric` is the pattern `^[+-]?([0-9]*[.])?[0-9]+$`.

The user store keeps two guarantees (`Database.ValidDocs`): every user is stored
under its own id, and no two users share an email (the unique index on email). Every
handler that writes the store requires them and keeps them. A write that would give a
user an email another user holds fails with the store's duplicate-key error.

Where the code and its description differ, the model follows the code:

- `protect` checks only that the token's user still exists, not that the user is active.
  A deactivated user keeps access (`UserServices.DeactivatedUserKeepsAccess`).
- The category and brand update validators run the slug rule without `optional()`. So an
  update without a string `name` is refused, and every accepted update recomputes `slug`.

The status class "fail" for 4xx codes and "error" otherwise (`Common.StatusClass`) is
assumed, because utils/apiError.js is not part of this model.

## Model

| member | source | states |
|---|---|---|
| Text.Split | services/authServices.js:54 | `split(" ")` yields at least one component and no component contains the separator |
| Text.JoinSplit | services/authServices.js:54 | joining the components of a split with the separator gives back the original string |
| Text.SplitJoin | services/authServices.js:54 | splitting the join of a non-empty list of separator-free strings gives back exactly that list |
| Text.DecimalString | services/authServices.js:121 | `toString()` of a natural number below 10^21 (from there on JavaScript writes "1e+21") is a non-empty string of decimal digits; every use in the model stays below that bound |
| Text.DecimalStringValue | services/authServices.js:121 | reading the decimal string of n back as digits gives n |
| Text.DecimalStringLength | services/authServices.js:121 | a number in [10^k, 10^(k+1)) has k+1 decimal digits |
| Text.StartsWith | services/authServices.js:52 | `startsWith(p)` holds iff p is no longer than s and agrees with s at every index of p; then s is p followed by the rest |
| Text.VisibleLength | utils/validators/productValidator.js:9 | the length isLength measures never exceeds the number of characters and equals it when there is no variation selector |
| Text.IsHexadecimal | utils/validators/productValidator.js:61 | every non-empty string of hexadecimal digits passes; a passing string is non-empty and hexadecimal from the third character on (after an optional 0x/0h prefix) |
| Text.IsMongoId | utils/validators/productValidator.js:61 | a passing string has 24 characters, hexadecimal from the third on; every 24-character string of hexadecimal digits passes |
| Text.IsNumeric | utils/validators/productValidator.js:25 | a numeric string is non-empty and ends in a digit; every non-empty string of digits is numeric |
| Text.JsNumber | utils/validators/productValidator.js:44 | JavaScript `Number(s)` is defined (not NaN), in the modelled subset, exactly when s is "" or matches isNumeric |
| Text.JsNumberOfDecimalString | utils/validators/productValidator.js:44 | the decimal string of a natural converts back to exactly that number (with exact reals; see Left out) |
| Entities.ScalarField | services/userServices.js:52-65 | the string a scalar field is cast to: defined iff the field is a string, number or boolean; a string field is itself |
| Entities.Truthy | services/subCategoryServices.js:6 | a field is falsy exactly when it is undefined, null, false, 0 or "" |
| Common.StatusClass | middlewares/errorMiddlewrare.js:18 | "fail" exactly for codes 400 to 499, "error" otherwise |
| Database.UserCollection.FindOneByEmail | services/authServices.js:32 | `User.findOne({ email })`: a returned id holds a user with that email; None exactly when no stored user has it; with unique emails the id is the only match |
| Database.StoreKeepsValid | services/userServices.js:52-65 | storing a user under its own id keeps the store's guarantees when no other user holds its email, in particular when its email is unchanged |
| AuthServices.BearerToken | services/authServices.js:49-56 | a token exists exactly when the header starts with "Bearer" and has a non-empty second space-separated component; the token is that component and contains no space |
| AuthServices.BearerTokenOfHeader | services/authServices.js:49-55 | the header "Bearer " + t yields the token t for any non-empty t without spaces |
| AuthServices.Seconds | services/authServices.js:79-82 | `parseInt(ms / 1000)`: truncation toward zero, bracketed within one second of ms/1000 on either sign |
| AuthServices.ProtectOutcome | services/authServices.js:47-95 | no token gives 401 "not login"; verification failure raises; Ok exactly when the token decodes to a stored user whose change second is not after iat; the Ok value is that stored user; every refusal is a 401 |
| AuthServices.UnknownUserRejected | services/authServices.js:68-76 | a decoded token whose user is not stored gets 401 "no longer exist" |
| AuthServices.FreshnessDecision | services/authServices.js:77-92 | without passwordChangeAt the user passes; with one, the request is refused with 401 "recently changed" iff floor(ms/1000) > iat, so equal seconds pass |
| AuthServices.FreshnessIsMonotone | services/authServices.js:84 | a token that passes the freshness stage passes it for any later issue time too |
| AuthServices.Protect | services/authServices.js:47-95 | the staged handler returns ProtectOutcome; on success req.user is exactly the resolved user, on any refusal req.user is unchanged |
| AuthServices.AllowedTo | services/authServices.js:99-109 | continues iff the attached user's role is in roles; otherwise 403 "not allowed"; with no attached user reading the role throws |
| AuthServices.RoleGateAfterProtect | services/authServices.js:99-109 | after protect accepts, the role gate decides by the stored user's role alone and never throws |
| AuthServices.Login | services/authServices.js:29-44 | every refusal is the same 401 "Incorrect email or password"; success returns a user whose credentials match, without the password, and a token signed for its id; no match (all candidates with a password) gives the 401; with unique emails a match always succeeds |
| AuthServices.ResetCode | services/authServices.js:121 | the code floor(100000 + r*90000) lies in [100000, 189999] |
| AuthServices.ResetCodeHasSixDigits | services/authServices.js:121 | the code is sent as exactly six decimal digits |
| AuthServices.WithResetIssued | services/authServices.js:126-128 | an issued reset stores the hashed code, an expiry of now + 600000 and verified = false, and changes no other field |
| AuthServices.WithoutReset | services/authServices.js:141-143 | the rollback clears the three reset fields and changes no other field |
| AuthServices.RollbackRestores | services/authServices.js:126-145 | issuing a reset and rolling it back restores a user that had no reset in progress |
| AuthServices.ForgotPassword | services/authServices.js:114-152 | 404 exactly when no user has the email, and then the store is unchanged; otherwise that user's document ends up with the reset issued (Ok "Reset Code sent to email") or, on failed delivery, with the reset fields cleared (500); the store's guarantees are kept |
| Validation.Instances | utils/validators/productValidator.js:8-115 | a standard validator sees "" for an undefined or null field, the string of a string, `String(n)` of a number, "true"/"false" of a boolean and each element of an array |
| Validation.Failures | utils/validators/productValidator.js:8-115 | a validator records no error iff every instance passes, and records only its own message, at most once per instance |
| Validation.Standard | utils/validators/productValidator.js:8-115 | no error iff the test holds for every instance of the field |
| Validation.SlugErrors | utils/validators/categoryValidator.js:18-21 | the slug rule fails (slugify throws its type error) exactly when the field is not a string: undefined, a number, a boolean, null or an array |
| Validation.WithSlug | utils/validators/categoryValidator.js:18-21 | when the field is a string, body.slug becomes slugify of it and no other key changes; for any other value the body is unchanged |
| Validation.SlugRule | utils/validators/categoryValidator.js:18-21 | assigns req.body to WithSlug of its old value and returns SlugErrors of the field |
| Validation.Param | utils/validators/categoryValidator.js:6 | a route parameter is a defined field iff the route has it, holding its string |
| Validation.IdErrors | utils/validators/categoryValidator.js:6 | no error iff the id parameter exists and is a Mongo id; otherwise exactly the one message |
| Validation.CreateNameErrors | utils/validators/categoryValidator.js:11-21 | no error iff name is a string whose isLength length is 3 to 33 |
| Validation.AcceptedNameIsSlugged | utils/validators/categoryValidator.js:11-21 | whenever the name chain passes, body.slug is slugify(name) |
| Validation.NameRule | utils/validators/categoryValidator.js:11-21 | records CreateNameErrors of the old name and leaves the body as WithSlug of the old body |
| CategoryValidator.GetCategoryErrors | utils/validators/categoryValidator.js:5-8 | no error iff the id is a Mongo id; otherwise exactly "Invalid category id format" |
| CategoryValidator.CreateCategoryValidator | utils/validators/categoryValidator.js:10-24 | errors are the name chain's with the category messages; body.slug is derived from name |
| CategoryValidator.UpdateCategoryErrors | utils/validators/categoryValidator.js:26-33 | no error iff the id is a Mongo id and name is a string (no optional guard) |
| CategoryValidator.UpdateCategoryValidator | utils/validators/categoryValidator.js:26-33 | records UpdateCategoryErrors and assigns slug from name |
| CategoryValidator.UpdateRegeneratesSlug | utils/validators/categoryValidator.js:28-31 | an accepted update always carries slug == slugify(name) |
| CategoryValidator.DeleteCategoryErrors | utils/validators/categoryValidator.js:35-38 | no error iff the id is a Mongo id; otherwise exactly the one message |
| BrandValidator.GetBrandErrors | utils/validators/brandValidator.js:5-8 | no error iff the id is a Mongo id; otherwise exactly "Invalid Brand id format" |
| BrandValidator.CreateBrandValidator | utils/validators/brandValidator.js:10-24 | errors are the name chain's with the brand messages; body.slug is derived from name |
| BrandValidator.UpdateBrandErrors | utils/validators/brandValidator.js:26-33 | no error iff the id is a Mongo id and name is a string (no optional guard) |
| BrandValidator.UpdateBrandValidator | utils/validators/brandValidator.js:26-33 | records UpdateBrandErrors and assigns slug from name |
| BrandValidator.UpdateRegeneratesSlug | utils/validators/brandValidator.js:28-31 | an accepted update always carries slug == slugify(name) |
| BrandValidator.DeleteBrandErrors | utils/validators/brandValidator.js:35-38 | no error iff the id is a Mongo id; otherwise exactly the one message |
| ProductValidator.ArrayErrors | utils/validators/productValidator.js:49-57 | isArray passes iff the field is an array |
| ProductValidator.TitleErrors | utils/validators/productValidator.js:8-16 | no error iff title is a string whose isLength length is at least 3 |
| ProductValidator.DescriptionErrors | utils/validators/productValidator.js:17-21 | no error iff every instance of description is non-empty and at most 200 characters |
| ProductValidator.QuantityErrors | utils/validators/productValidator.js:22-26 | no error iff every instance of quantity is numeric (which implies present) |
| ProductValidator.SlodErrors | utils/validators/productValidator.js:27-30 | no error iff slod is undefined or numeric |
| ProductValidator.PriceErrors | utils/validators/productValidator.js:31-37 | no error iff price is numeric and at most 32 characters long |
| ProductValidator.PriceOperand | utils/validators/productValidator.js:44 | `Number(req.body.price)`: NaN when undefined; 0 for null, false and []; 1 for true; a string's own value (defined iff "" or numeric); a one-element array its element's; NaN for a longer array |
| ProductValidator.DiscountOperand | utils/validators/productValidator.js:40-44 | the model's stand-in for the value after toFloat: a number exactly when priceAfterDiscount is a numeric string or number (forms only isFloat accepts, such as "1." or "1e3", are not modelled, see Left out) |
| ProductValidator.PriceBelowDiscount | utils/validators/productValidator.js:43-47 | `price < value` holds iff both operands are numbers and the price is the smaller; so never when either field is missing |
| ProductValidator.DiscountErrors | utils/validators/productValidator.js:38-48 | no error iff priceAfterDiscount is undefined, or numeric and the price is not below it; isNumeric is tested on the raw value, not on the string of toFloat's result (see Left out) |
| ProductValidator.DiscountRule | utils/validators/productValidator.js:43-47 | for numeric string price and discount the rule refuses iff price < discount as exact decimals; an equal discount passes |
| ProductValidator.WholePricesCompare | utils/validators/productValidator.js:43-47 | for whole-number JSON prices below 2^53, which binary64 holds exactly, the rule refuses iff the price is smaller than the discount |
| ProductValidator.ColorsErrors | utils/validators/productValidator.js:49-52 | no error iff colors is undefined or an array |
| ProductValidator.ImageCoverErrors | utils/validators/productValidator.js:53 | no error iff imageCover is non-empty |
| ProductValidator.ImagesErrors | utils/validators/productValidator.js:54-57 | no error iff images is undefined or an array |
| ProductValidator.NoCategoryFor | utils/validators/productValidator.js:67 | the message is "No category for this id " followed by the id as a template literal prints it: the string itself, "undefined" or "null" |
| ProductValidator.CategoryErrors | utils/validators/productValidator.js:58-71 | no error iff category is a string in Mongo id format that names a stored category |
| ProductValidator.CountWithIdIn | utils/validators/productValidator.js:77-79 | the number of stored sub-categories whose id is among the given ids never exceeds the store |
| ProductValidator.GivenIds | utils/validators/productValidator.js:77-80 | the `$in` argument and `subCategoriesIdes.length`: an array gives its elements and its length, a string itself and its number of characters; a number, boolean or null gives no ids and an undefined length |
| ProductValidator.CountIsStoredListed | utils/validators/productValidator.js:77-79 | with distinct stored ids, the query finds one sub-category per distinct listed id that is stored |
| ProductValidator.ElementsCount | utils/validators/productValidator.js:80 | a list has at most as many distinct ids as entries, and exactly as many iff no id is listed twice |
| ProductValidator.FoundCountMeansDistinctStoredIds | utils/validators/productValidator.js:76-84 | with distinct stored ids, 1 ≤ found == given iff the list is non-empty, lists no id twice and lists only stored ids |
| ProductValidator.FoundRefusesDuplicateOrUnknownIds | utils/validators/productValidator.js:76-84 | the found-count rule refuses an array of ids exactly when it is empty, repeats an id or names an id that is not stored |
| ProductValidator.FoundErrors | utils/validators/productValidator.js:76-84 | the found-count rule passes iff the value is an array with at least one match and as many matches as elements, or a string with at least one match and as many as its characters; a number, boolean or null always fails |
| ProductValidator.SubsOfCategory | utils/validators/productValidator.js:86 | the query result holds exactly the stored sub-categories matching the category filter (all of them when it is undefined) |
| ProductValidator.IdsOf | utils/validators/productValidator.js:88-92 | the id list has one entry per result, in order |
| ProductValidator.CollectIds | utils/validators/productValidator.js:88-92 | the forEach/push loop produces exactly the ids of the query result, in order |
| ProductValidator.IdsOfCategory | utils/validators/productValidator.js:85-101 | an id is in the membership list iff some stored sub-category with that id matches the category |
| ProductValidator.InCategory | utils/validators/productValidator.js:86 | an undefined filter matches every sub-category, a string one matches that category, an array matches any listed category; nothing else matches |
| ProductValidator.BelongErrors | utils/validators/productValidator.js:93-99 | the membership rule passes iff the value is an array whose every element is a listed id; a non-array throws "target.every is not a function", null a property-read TypeError |
| ProductValidator.SubcategoriesInPlainTerms | utils/validators/productValidator.js:72-102 | with distinct stored ids, given sub-categories are accepted iff they are a non-empty array of Mongo ids with no repeats, each the id of a stored sub-category of the body's category |
| ProductValidator.SubcategoriesErrors | utils/validators/productValidator.js:72-102 | no error iff subcategories is undefined, or an array of Mongo ids of which at least one and exactly as many as given are found, each of the body's category |
| ProductValidator.BrandErrors | utils/validators/productValidator.js:103 | no error iff brand is undefined or a Mongo id |
| ProductValidator.RatingsAverageErrors | utils/validators/productValidator.js:104-111 | no error iff retingsAverage is undefined, or numeric with a string length from 1 to 5 |
| ProductValidator.RatingsQuantityErrors | utils/validators/productValidator.js:112-115 | no error iff retingsQuantity is undefined or numeric |
| ProductValidator.CreateProductErrors | utils/validators/productValidator.js:7-117 | the whole creation chain records no error iff the body meets every field's declared requirement |
| ProductValidator.EachNumericIsNotEmpty | utils/validators/productValidator.js:22-37 | numeric instances are non-empty, so the required checks of quantity and price are implied by isNumeric |
| ProductValidator.AcceptedProductIsSlugged | utils/validators/productValidator.js:13-16 | an accepted creation carries slug == slugify(title) |
| ProductValidator.CreateProductValidator | utils/validators/productValidator.js:7-117 | the rules run in order, recording CreateProductErrors; the body changes by the title's slug and by nothing else the model tracks (toFloat's write-back of priceAfterDiscount is not modelled, see Left out) |
| ProductValidator.ProductIdErrors | utils/validators/productValidator.js:119-122 | no error iff the id is a Mongo id (get and delete) |
| ProductValidator.UpdateProductErrors | utils/validators/productValidator.js:124-133 | no error iff the id is a Mongo id and "tittle", when present, is a string |
| ProductValidator.UpdateProductValidator | utils/validators/productValidator.js:124-133 | records UpdateProductErrors and assigns slug from "tittle" only |
| ProductValidator.TitleUpdateKeepsSlug | utils/validators/productValidator.js:126-131 | an update without the key "tittle" leaves the body, and so slug, unchanged |
| SubCategoryServices.WithRouteCategory | services/subCategoryServices.js:6 | a truthy body.category is kept; a falsy one becomes the route's categoryId (undefined without one); no other field changes |
| SubCategoryServices.WithRouteCategoryIdempotent | services/subCategoryServices.js:6 | applying the rule twice is applying it once |
| SubCategoryServices.SetCategoryIdToBody | services/subCategoryServices.js:4-8 | assigns req.body as WithRouteCategory and always continues |
| SubCategoryServices.FilterFor | services/subCategoryServices.js:13-14 | the filter is { category: categoryId } when the route has a truthy categoryId, and {} otherwise |
| SubCategoryServices.CreateFilterObj | services/subCategoryServices.js:12-17 | assigns req.filterObject as FilterFor and always continues |
| SubCategoryServices.NestedCreateMatchesNestedFilter | services/subCategoryServices.js:4-17 | on a nested route, a sub-category created without a category gets exactly the category the nested listing filters on |
| ErrorMiddleware.DefaultStatusCode | middlewares/errorMiddlewrare.js:17 | an existing non-zero code is kept; a missing one becomes 500 |
| ErrorMiddleware.DefaultStatus | middlewares/errorMiddlewrare.js:18 | an existing non-empty status is kept; a missing one becomes "error" |
| ErrorMiddleware.DefaultsAreIdempotent | middlewares/errorMiddlewrare.js:17-18 | defaulting twice is defaulting once |
| ErrorMiddleware.SendErrorForDev | middlewares/errorMiddlewrare.js:1-8 | the development response has the error's code and carries status, the error, message and stack |
| ErrorMiddleware.SendErrorForProd | middlewares/errorMiddlewrare.js:10-15 | the production response has the error's code and exactly status and message |
| ErrorMiddleware.Responses | middlewares/errorMiddlewrare.js:19-22 | in development two responses are sent, first the development and then the production one; otherwise exactly the production one; all with the same code |
| ErrorMiddleware.ProductionHidesDetail | middlewares/errorMiddlewrare.js:10-22 | outside development no response carries the error object or its stack |
| ErrorMiddleware.GlobalError | middlewares/errorMiddlewrare.js:16-23 | defaults err.statusCode and err.status in place, keeps message and stack, and sends Responses of the defaulted error |
| ErrorMiddleware.RenderFailure | middlewares/errorMiddlewrare.js:16-18 | an application error keeps its code and gets its status class; any other exception becomes 500 "error" |
| ErrorMiddleware.ClientSeesStatusAndMessage | middlewares/errorMiddlewrare.js:16-23 | in production every failure reaches the client as one response with its code, status class and message |
| UserServices.IdText | services/userServices.js:67 | the id as the 404 message spells it, "undefined" when the route has none |
| UserServices.AdminUpdated | services/userServices.js:52-65 | name, slug, phone, email, profileImg and role take the body's values, cast to strings, where given; no other field changes |
| UserServices.AdminUpdateIdempotent | services/userServices.js:52-65 | the same update applied twice equals it applied once; a body with none of the six fields changes nothing |
| UserServices.OtherHolder | services/userServices.js:52-65 | the lookup by email decides exactly whether some other user holds the email, given the store's guarantees |
| UserServices.UpdateUser | services/userServices.js:51-70 | a stored id's document becomes AdminUpdated and is returned, unless another user holds the new email, when the write fails with the duplicate-key error and nothing changes; an unknown id gives 404 "No document for this id ..." and changes nothing; the store's guarantees are kept |
| UserServices.PasswordChangedAsWritten | services/userServices.js:73-82 | the update as the handler sends it: the password hash and passwrodChangeAt are set; passwordChangeAt and every other field are unchanged (whether the store keeps the undeclared passwrodChangeAt depends on the schema, see Left out) |
| UserServices.StaleTokenSurvivesPasswordChange | services/userServices.js:77 | as written, a token protect accepted is still accepted after a password change, however late the change |
| UserServices.StaleTokenExample | services/userServices.js:77 | a token issued at second 0 passes after a change at millisecond 5000 |
| UserServices.PasswordChangedIntended | services/userServices.js:77 | the corrected document: the hash and passwordChangeAt are written, nothing else |
| UserServices.PasswordChangeRevokesEarlierTokens | services/authServices.js:77-92 | with the corrected field, protect accepts after the change iff the token was issued no earlier than the change second, and otherwise refuses with 401 "recently changed" |
| UserServices.HashError | services/userServices.js:76 | bcrypt.hash raises exactly when the password is not a string: "data and salt arguments required" when it is undefined or null, the type error for a number, boolean or array |
| UserServices.ChangeUserPassword | services/userServices.js:72-87 | a password bcrypt refuses raises and writes nothing; otherwise a stored id gets PasswordChangedAsWritten and is returned, an unknown id gives 404 and changes nothing; the store's guarantees are kept |
| UserServices.UpdateLoggedUserPassword | services/userServices.js:105-120 | without req.user it throws; a refused password raises; a stored user gets PasswordChangedAsWritten and a token signed for its id; a user no longer stored writes nothing and throws on user._id; the store's guarantees are kept |
| UserServices.SelfUpdated | services/userServices.js:126-134 | only name, email and phone take the body's values, cast to strings; no other field changes |
| UserServices.SelfUpdateIsRestrictedAdminUpdate | services/userServices.js:125-136 | a self-update equals the administrator's update restricted to name, email and phone, and keeps role, password and active |
| UserServices.UpdateLoggedUserData | services/userServices.js:125-136 | without req.user it throws; a stored user's document becomes SelfUpdated and is returned, unless another user holds the new email, when the write fails with the duplicate-key error; a user no longer stored gives data null and changes nothing; the store's guarantees are kept |
| UserServices.DeleteLoggedUserData | services/userServices.js:141-144 | sets active to false on the stored user and answers 204; no document is removed, nothing else changes and the store's guarantees are kept |
| UserServices.DeactivatedUserKeepsAccess | services/userServices.js:141-143 | a deactivated user's token keeps passing protect |
| UserServices.UserImageName | services/userServices.js:17 | the name is "user-" + uuid + "-" + the decimal timestamp + ".jpeg" |
| UserServices.SplitAtLastDash | services/userServices.js:17 | u + "-" + d determines u and d when d is all digits |
| UserServices.ImageNamesAreDistinct | services/userServices.js:17 | a generated name determines the uuid and the timestamp it was made from, so different draws never share a file name |
| UserServices.ResizeImage | services/userServices.js:16-31 | with a file, body.profileImg becomes the generated name; without a file the body is unchanged; it always continues |
| UserServices.UploadedImageIsStored | services/userServices.js:27 | the administrator's update after resizeImage stores exactly the generated name |

## Left out

- Signup (services/authServices.js:13-23), which creates the user and signs a token for it, is outside the modelled core.
- The generic CRUD handlers of handlersFactory and the handlers of services/userServices.js that only delegate to it (getUsers, getUser, createUser, deleteUser). handlersFactory is not part of this model.
- getLoggedUserData (services/userServices.js:97-100) reads `req.User`, which is always undefined, so it always throws a TypeError. It is a defect left unmodelled.
- forgotPassword asks for the digest "sha258" (services/authServices.js:123), which Node does not support, and calls `sendEmail`, which is never imported (services/authServices.js:135). As written it would throw before storing anything. AuthServices.ForgotPassword abstracts the digest as `hash` and delivery as `delivered`, describing the evidently intended flow.
- AuthServices.ForgotPassword: the email is taken as a string. With no email in the body, the source calls `User.findOne({ email: undefined })`; Mongoose drops the undefined condition, so the query returns some stored user (if any), and a reset code is issued to that user instead of the 404 the model gives for an unknown email.
- AuthServices.ResetCode: the code is 100000 + k for an integer draw k. Floating-point rounding of `Math.random() * 90000` is not modelled.
- AuthServices.Login: the email and password are taken as strings. The validator that would check them is not part of this model, and an undefined password is not modelled.
- The sharp image processing, file writes, uuid generation and the clock. They are I/O; the name's parts are arguments.
- jwt, bcrypt, crypto and slugify internals are uninterpreted functions. Token expiry is part of `verify`.
- Mongoose: an undefined key in an update body is treated as absent, so the stored value is kept. Array-valued fields in user updates, and ids Mongoose cannot cast to an ObjectId (a CastError), are not modelled.
- express-validator: `check()` also searches cookies, headers, route parameters and the query string. The model reads the body (and the route parameters for `id`).
- express-validator: the `validatorMiddleware` aggregation of the recorded errors is not part of this model.
- ProductValidator.DiscountErrors: in the source `toFloat()` runs before `isNumeric()` (utils/validators/productValidator.js:40-41). So isNumeric tests `String(parseFloat(raw))`, which express-validator renders as "" when toFloat gives NaN (validator.js isFloat refuses the raw value), and the custom rule compares the price with that float. The model tests isNumeric on the raw value and compares with its exact decimal. The two differ on "0.0000001", which the model accepts and the source refuses (toFloat gives 1e-7, and "1e-7" is not numeric), and on "1.", which the model refuses and the source accepts (toFloat gives 1). Exponent forms such as "1e3" are not modelled, and JavaScript `Number()` is modelled only on "" and isNumeric strings.
- ProductValidator.CreateProductValidator: `toFloat()` writes the float back into req.body.priceAfterDiscount; the model's body keeps the value as sent and changes only by the title's slug.
- Text.JsNumber: numbers are exact reals, not binary64 doubles. So "0.29999999999999999" and "0.3" are different numbers in the model but the same double in JavaScript, and digits past double precision are never rounded away.
- Text.JsNumberOfDecimalString: it holds for every natural in the model; in JavaScript `Number(String(n))` is n only below 2^53. ProductValidator.WholePricesCompare uses it only below that bound.
- ProductValidator.DiscountRule: "refuses iff price < discount" is stated for exact decimals; JavaScript compares the nearest doubles, which can be equal for different decimals.
- ProductValidator.DiscountOperand: an array priceAfterDiscount, which toFloat converts element by element and `<` compares by its joined string, is taken as NaN. Forms that isFloat accepts but isNumeric does not, such as "1." and "1e3", are also taken as NaN, where toFloat gives a number.
- ProductValidator.CategoryErrors: ids are compared as exact strings. Mongoose casts a 24-digit hexadecimal id to an ObjectId whatever the letter case, so `Category.findById("507F1F77BCF86CD799439011")` finds the stored category 507f1f77bcf86cd799439011, which the model refuses. isMongoId accepts upper case in both.
- ProductValidator.CountWithIdIn: the `$in` query and the `{ category }` filter of ProductValidator.InCategory also cast ids, so an upper-case spelling of a stored id is found in the source but not in the model. The membership rule compares `_id.toString()`, which is lower case, by exact string in both.
- UserServices.UpdateUser: the lookup of req.params.id is case-sensitive in the model, so an upper-case spelling of a stored user's id gives 404 where the source updates that user. The same holds for UserServices.ChangeUserPassword.
- ProductValidator.InCategory: a number or boolean category makes the sub-category query fail with a CastError; the model lets it match nothing, which the category rule refuses anyway.
- UserServices.AdminUpdated: a null or array value for one of the six fields keeps the stored value in the model; Mongoose would store null or raise a CastError. The same holds for UserServices.SelfUpdated.
- UserServices.UpdateUser: the duplicate-key error is the prefix "E11000 duplicate key error"; the collection, index and key the store appends are not modelled. The same holds for UserServices.UpdateLoggedUserData.
- UserServices.PasswordChangedAsWritten: the user schema (models/userModel.js) is not part of this model. If it does not declare passwrodChangeAt, Mongoose's strict mode drops the field and the store keeps only the new hash. Either way passwordChangeAt is unchanged, so the finding below stands.
- A nested JSON object in the request body is not modelled.
- ProductValidator.FoundCountMeansDistinctStoredIds: it assumes the stored sub-categories have distinct ids, which the _id index guarantees but the model's sequence of sub-categories does not enforce.
- Text.VisibleLength: strings are sequences of Unicode characters, so a lone UTF-16 surrogate, which a JavaScript string can hold, cannot be written.
- The status class of ApiError (utils/apiError.js) is not part of this model. The 4xx → "fail" convention is assumed.
- How Express serialises an Error object in the development response is not modelled.
- In development the handler sends twice; Express would throw on the second send. The model lists both responses.
- Async scheduling, server.js, config/database.js and services/brandServices.js (wiring, connection, image resizing) are I/O or delegation.

## Findings

| source | as written | input that shows it | evidently intended | confidence | as-written member | corrected member |
|---|---|---|---|---|---|---|
| services/userServices.js:77 | changeUserPassword (and updateLoggedUserPassword, line 111) stores the change time in the misspelt field `passwrodChangeAt`, while protect reads `passwordChangeAt` (services/authServices.js:78) | a user without passwordChangeAt holding a token issued at second 0 changes the password at millisecond 5000; protect still accepts that token | the change time goes into `passwordChangeAt`, so tokens issued before the change are refused with 401 | not executed; high | UserServices.StaleTokenSurvivesPasswordChange | UserServices.PasswordChangeRevokesEarlierTokens |

The handlers `UserServices.ChangeUserPassword` and `UserServices.UpdateLoggedUserPassword`
model the code as written. `UserServices.PasswordChangedIntended` is the corrected
document update. `UserServices.PasswordChangeRevokesEarlierTokens` proves the intended
revocation for it.
