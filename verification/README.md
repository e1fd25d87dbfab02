# vinted-api core, modelled in Dafny

This project models the decision logic of a small marketplace backend. That logic sits inside its Express route handlers and one middleware:

- **Credentials** (`routes/user.js`):
  - Signup validates the required fields and refuses a duplicate email.
  - It stores `hash = H(password + salt)` next to the salt and a random token.
  - It replies with the public projection `{ _id, token, account: { username, phone } }`.
  - Login finds the user by exact email, recomputes the digest, and replies with the same projection. Any failure gives 401 "Unauthorized.".
- **Bearer-token gate** (`middlewares/isAuthenticated.js`):
  - It removes the first "Bearer " from the `authorization` header.
  - It looks up the user holding exactly the remaining token.
  - It either sets `req.user` (projected to `account`, `email`, `_id`) and calls `next()`, or replies 401.
- **Offer listing** (`GET /offers` in `routes/offer.js`):
  - Optional query parameters become a filter object, a sort object and the pair (limit, skip).
  - The count of matching offers is reported.
- **Offer publish** (`POST /offer/publish`):
  - The handler builds the offer with its fixed five-entry `product_details` list and `owner = req.user`.
  - It uploads the picture, attaches the upload result and saves.

Modules, leaf first:

| file | module | contents |
|---|---|---|
| common.dfy | `Common` | `Option`, JavaScript truthiness and `undefined` rendering, `Num` (`NaN` or a number), `Attempt` (an awaited call that resolves or rejects), `Reply`, `Outcome`, and `FindFirst`, which is `findOne` over a collection in natural order |
| text.dfy | `Text` | `indexOf`, `replace` with a string pattern, ASCII case-insensitive containment |
| users.dfy | `Users` | user documents, signup, login, and their round trip |
| auth.dfy | `Auth` | the token gate, and its round trip with signup |
| offers.dfy | `Offers` | the offer document and the `product_details` shape |
| offer_query.dfy | `OfferQuery` | filter, sort and pagination construction, an in-memory reading of the filter, and the count |
| offer_publish.dfy | `OfferPublish` | the details list, the upload → attach → save sequence, and the authenticated route |

Foreign parts are parameters:

- The digest `H` (SHA-256 of the text, base64-encoded) is a `Hasher` function.
- The new `_id` and the two `uid2(16)` values are a `Fresh` record.
- The image upload and the document save are `Attempt` values. `Done` means the call resolved. `Thrown(message)` means it rejected, and the handler's catch-all replies 400 with that message.
- Each store is a `seq` in natural order.

Where the code and its own comments disagree, the model follows the code:

- **Absent `page`.** The comment in `routes/offer.js` says an absent `page` shows the first page. In fact `Number(undefined)` is NaN, `NaN < 1` is false, and the page stays NaN. `NormalizePage` keeps NaN, and `PlanQuery` states that an absent page gives a NaN skip. Normalisation to a page of at least 1 is proved for numeric pages only.
- **Publish saves once.** The handler builds the offer in memory, uploads, attaches the result and then saves. A failed upload therefore persists nothing. It does not save first and then again.
- **No update or delete.** The routes implement publish, list and get-by-id only, so there is no update, delete or ownership check to model.
- **Absent `limit`.** It coerces to NaN and is passed on as NaN. What the store does with it is not modelled.

## Model

| member | source | states |
|---|---|---|
| Users.HasRequired | routes/user.js:23 | signup proceeds only when username, password and email are all defined and non-empty |
| Users.PasswordMatches | routes/user.js:93-96 | a login password is accepted iff `H(password + salt)` equals the stored hash, with an undefined password rendered as "undefined" |
| Common.Truthy | routes/user.js:23 | a field passes an `if` test iff it is defined and not the empty string |
| Common.Render | routes/user.js:93 | string concatenation renders an undefined value as the text "undefined" |
| Users.FindByEmail | routes/user.js:25 | the lookup finds a user with exactly that email and none earlier; it finds nothing exactly when no user has that email |
| Users.NewUser | routes/user.js:34-51 | the built user's digest verifies the signup password with its own salt; id, email, token, salt, username, phone and uploaded avatar are the inputs |
| Users.Signup | routes/user.js:23-78 | missing username/password/email gives 400 "Required field."; a taken email gives 400 "This email is already in use."; a rejected avatar upload, or a rejected save after it, gives 400 with that rejection's message; all of these leave the store unchanged; success holds iff fields present, email free, upload and save resolved; it appends exactly the new user and replies with its projection; every failure replies 400 and changes nothing |
| Users.Login | routes/user.js:86-113 | every failure is the identical 401 "Unauthorized."; a success names the first user with that exact email, whose digest matches, and replies with that user's projection; whenever the first user with that email has a matching digest, login replies with its projection; an unknown email always fails |
| Users.LoginSucceedsIff | routes/user.js:89-105 | with unique emails, login succeeds iff a user with that email exists and `H(password + salt)` equals its hash |
| Users.LoginNoUserEnumeration | routes/user.js:107-113 | an unknown email and a known email with a wrong password give the same reply |
| Users.SignupKeepsEmailsUnique | routes/user.js:25-61 | signup preserves the invariant that no two users share an email |
| Users.SignupThenLogin | routes/user.js:35-100 | after a successful signup, login with the same email and password replies exactly what signup replied, token included |
| Users.SessionOf | routes/user.js:63-70 | the reply body is the user's `_id`, `token` and `account` (`username`, `phone`) and nothing else |
| Users.SessionHidesSecrets | routes/user.js:63-70 | the reply projection does not depend on the hash, salt, email or avatar |
| Text.ReplaceFirst | middlewares/isAuthenticated.js:10 | with no occurrence the string is unchanged; otherwise only the leftmost occurrence is replaced, wherever it is |
| Text.ReplacePrefix | middlewares/isAuthenticated.js:10 | removing a pattern from the front of `pattern + t` gives `t` |
| Text.ContainsIgnoreCase | routes/offer.js:73 | true iff the lower-cased needle occurs somewhere in the lower-cased text |
| Text.NeedleCaseIrrelevant | routes/offer.js:73 | the needle's letter case does not change the outcome |
| Auth.BearerToken | middlewares/isAuthenticated.js:10 | a header without "Bearer " is used unchanged; otherwise its leftmost "Bearer ", wherever it is, is cut out and the rest is kept |
| Auth.IdentityOf | middlewares/isAuthenticated.js:14-16 | `req.user` is the user selected down to `account`, `email` and `_id` |
| Auth.FindByToken | middlewares/isAuthenticated.js:14-16 | the lookup finds a user holding exactly that token and none earlier; nothing exactly when no user holds it |
| Auth.IsAuthenticated | middlewares/isAuthenticated.js:8-32 | exactly one of `next` or a reject; every reject is 401 "Unauthorized."; `next` iff the header is truthy and some user holds the stripped token; `req.user` is the projection of the first user holding it, the one `findOne` returns |
| Auth.BearerTokenOfPrefixed | middlewares/isAuthenticated.js:10 | "Bearer " followed by any token yields that token |
| Auth.IdentityHidesSecrets | middlewares/isAuthenticated.js:14-21 | `req.user` does not depend on the token, hash, salt or avatar |
| Auth.SignupThenAuthenticate | middlewares/isAuthenticated.js:10-22 | after a successful signup whose token no other user holds, "Bearer " + token authenticates as the new user |
| Offers.WellShapedTagsOnce | routes/offer.js:38-44 | in a well-shaped details list each tag appears at one position only |
| OfferPublish.ProductDetails | routes/offer.js:38-44 | five entries tagged BRAND, SIZE, CONDITION, COLOR, CITY in that order; each entry's value is its tag's form field, undefined included |
| OfferPublish.ProductDetailsLookup | routes/offer.js:38-44 | looking up any tag in the built list yields that tag's form field |
| OfferPublish.Draft | routes/offer.js:34-47 | the built offer has the given id, the authenticated owner, no image, the five product details built from the form (well-shaped), and the form's title, description and price |
| OfferPublish.Publish | routes/offer.js:33-60 | a failed upload, or a failed save after it, replies 400 with that failure's message and persists nothing; success holds iff upload and save resolve; success appends exactly the draft with the upload result attached |
| OfferPublish.PublishRoute | routes/offer.js:17-61 | a rejected token gives 401 and no offer is stored; an accepted token runs the handler with `req.user` as owner, so its reply and store are exactly the handler's; a published offer's owner is the gate's identity; every failure leaves the offers unchanged |
| OfferPublish.PublishedOfferShape | routes/offer.js:34-53 | a published offer has well-shaped details carrying the form fields, the uploaded image, and as owner the user holding the presented token |
| OfferQuery.BuildFilter | routes/offer.js:69-95 | a title clause iff the title is truthy, and it holds that title; a price clause iff priceMin or priceMax is truthy; `$gte` iff priceMin is truthy, `$lte` iff priceMax is truthy, each carrying its number |
| OfferQuery.BuildSort | routes/offer.js:98-106 | ascending (1) iff exactly "price-asc", descending (-1) iff exactly "price-desc", otherwise empty |
| OfferQuery.NormalizePage | routes/offer.js:112-118 | a numeric page below 1 becomes exactly 1, one of at least 1 is kept; NaN stays NaN |
| OfferQuery.PlanQuery | routes/offer.js:108-128 | the plan carries the built filter and sort and the coerced limit; skip is a non-negative number for a numeric page and non-negative limit; an absent page gives a NaN skip |
| OfferQuery.NumericPagination | routes/offer.js:112-127 | for numeric page p and limit l ≥ 0, skip is `(max(p,1) - 1) * l` with the page at least 1 |
| OfferQuery.Matches | routes/offer.js:120 | in-memory reading of the filter: a title clause is case-insensitive containment, a price clause an inclusive range, and an offer lacking the field fails a clause on it |
| OfferQuery.FilterMeansWanted | routes/offer.js:69-95 | an offer matches the built filter iff it satisfies each truthy parameter: title containment, price ≥ priceMin, price ≤ priceMax |
| OfferQuery.NoParamsMatchAll | routes/offer.js:65-95 | without title, priceMin and priceMax the filter is empty and every offer matches |
| OfferQuery.TitleAddsOneClause | routes/offer.js:72-74 | a non-empty title changes only the title clause of the filter |
| OfferQuery.BothBoundsOneClause | routes/offer.js:77-95 | both bounds give one price clause carrying both keys, and a match lies between them |
| OfferQuery.Select | routes/offer.js:120 | the selection holds only input offers that match the filter, every matching input offer, and no more elements than the input |
| OfferQuery.SelectMultiplicity | routes/offer.js:120 | each offer occurs in the selection exactly as many times as in the input if it matches the filter, and not at all otherwise |
| OfferQuery.SelectAppend | routes/offer.js:120 | selecting from a concatenation is concatenating the selections, so the selection keeps the input's natural order |
| OfferQuery.EmptyFilterSelectsAll | routes/offer.js:65 | the empty filter selects every offer, in order |
| OfferQuery.CountDocuments | routes/offer.js:131 | the count equals the number of matching offers |
| OfferQuery.ListOffers | routes/offer.js:66-140 | the handler's plan is the built plan; the count is the number of matching offers, and every offer when there are no filter parameters |
| OfferQuery.CountIgnoresSortAndPaging | routes/offer.js:120-131 | the counted selection depends neither on sort nor on limit nor on page |

## Left out

- Server wiring in `index.js` is not modelled: the Express app, formidable and cors, the database connection, the image-host configuration, environment loading, the 404 catch-all and `listen`.
- Image uploads are not modelled beyond their outcome. Each is an `Attempt` that resolves with an opaque `ImageRef` or rejects. The folder path keyed by the new `_id` is not modelled. A missing `picture` or `avatar` file makes the handler throw before uploading; this counts as a rejected upload here.
- Mongoose execution is not modelled: `populate`, `select`, and real `sort`, `limit` and `skip`. The listing computes the plan handed to the store and the count; the page of offers returned is not computed.
- Number coercion is not modelled. `Param` carries a parameter's text (for truthiness) and its `Number()` value as given. Numbers are integers, prices are integers, and floating point is out of scope.
- OfferQuery.Matches: a price bound that is NaN matches nothing here. The real store throws a cast error, which the catch-all turns into a 400 reply.
- Text.ContainsIgnoreCase: the title is taken literally rather than as a regular expression, and case folding is ASCII only.
- Hashing and randomness are not modelled. SHA-256 with base64 is the `Hasher` parameter, and `uid2` values come in through `Fresh`. That a new token is held by no other user is an assumption of `SignupThenAuthenticate` about the random source.
- Login: the email is a plain string. What the store does with a filter whose email is `undefined` is not modelled. An undefined password is modelled: it is rendered as the text "undefined", as JavaScript concatenation does.
- Users.LoginSucceedsIff: the if-and-only-if is stated for stores with unique emails, which signup keeps when requests are handled one at a time. With duplicates, only the first user with that email is consulted, and `Login`'s own contract states that case.
- Users.SignupKeepsEmailsUnique: holds only for signups handled one at a time. Each handler is modelled as one atomic step. In the code the duplicate check and the save are separated by the awaited avatar upload, so two concurrent signups with the same email can both pass the check and both save. Whether the user schema has a unique index on `email` is not visible here.
- Save failures are an `Attempt` parameter. The schema validation that could cause them is not modelled, because the models directory is not part of this model.
- The exception catch-all 400 replies for other runtime errors are not modelled, and neither is the get-by-id handler, which passes straight through to `findById`.
- Repeated query keys are not modelled. Express turns them into arrays.
