# Sweet shop inventory — a Dafny model

The sweet shop has a Django REST backend and a React client. This project models their core logic and proves properties of it:

- **Backend stock actions.** Two actions of `SweetViewSet` change stock: `purchase` takes one unit, and `restock` (admins only) adds a positive whole amount. Both work on a table of sweets keyed by id.
- **Backend listing.** The filter chain of `get_queryset` narrows the listing by name, category and price bounds.
- **Registration serializers.** There are two: the one the views use, and an older one that nothing imports.
- **Client REST wrappers.** These are in `api.js`: the error normaliser `handleApiError`, the token guards of the mutating wrappers, the token store written by `loginUser`, and `deleteSweet`'s handling of status 204.
- **The inventory list component.** `Sweets.jsx` is a small state machine over `sweets`, `err`, `loading`, `editingSweet`, `searchTerm` and the per-sweet restock inputs. It includes JavaScript's `parseInt`, which reads the restock amount.

Layout, one module per source file plus shared definitions:

| file | module | models |
|---|---|---|
| common.dfy | `Common` | Option/Result, decimal text of naturals, ASCII lower-casing |
| models.dfy | `Models` | the `Sweet` and `User` records |
| inventory.dfy | `Inventory` | backend/api/views.py |
| serializers.dfy | `Serializers` | backend/api/serializers.py |
| legacy_serializers.dfy | `LegacySerializers` | backend/sweetshop/serializers.py |
| api_client.dfy | `ApiClient` | frontend/src/api.js |
| js_numbers.dfy | `JsNumbers` | JavaScript's `parseInt` without a radix |
| sweets_view.dfy | `SweetsView` | frontend/src/Sweets.jsx |

**Modelling choices.**
- **State.** Code that changes state in place is a class: the sweet table, the token store, the registration serializers' `create`, and the list component.
  - The methods of `Inventory.SweetTable` are proved equal to the pure step functions `PurchaseStep` and `RestockStep`. The lemmas about stock are stated over those functions.
- **Inputs to the model.**
  - Server answers, `window.confirm` answers and the stored token are parameters.
  - So are the verdicts of checks whose code is in Django: the username validators and uniqueness check, the email address check, and the password validators (`Serializers.Verdicts`). The length limits of the User model's columns (username 150, password 128) are written out.
  - In the client, a response is a status plus a body. The body is either not JSON or a JSON object. The object is seen through the error fields `handleApiError` reads.
- **Prices** are whole numbers of cents.
- **Permissions.** The DRF permission classes are modelled by the caller: anonymous, authenticated, or authenticated staff.
  - An anonymous caller is taken to get 401 from both actions. This holds when the JWT authenticator is the first authentication class, so that DRF answers with its `WWW-Authenticate` challenge. The settings are not part of this model. The only test of an anonymous request, backend/api/tests/test_sweets.py:5-9, posts to the create endpoint `/api/sweets/` (not to purchase or restock) and accepts either 401 or 403.
  - An authenticated non-staff caller gets 403 from `restock`.
- **Restock order.** `restock` checks the amount before it looks up the row. An invalid amount for an unknown id therefore gives 400, not 404.

## Model

| member | source | states |
|---|---|---|
| Inventory.PurchaseStep | backend/api/views.py:82-97 | status 200 iff the caller is authenticated, the id exists and its quantity is positive; then that quantity drops by exactly 1 and the updated record is returned; anonymous gives 401, unknown id 404 "Not found", empty stock 400 "Out of stock" with the table unchanged; keys, other rows and non-negative stock are kept |
| Inventory.RestockStep | backend/api/views.py:99-117 | status 200 iff the caller is staff, the amount is an integer > 0 and the id exists; then quantity rises by exactly the amount; 401 / 403 / 400 "Invalid amount" / 404 "Not found" otherwise with the table unchanged; only the target row changes |
| Inventory.SweetTable.Purchase | backend/api/views.py:82-97 | the in-place update answers and leaves the table exactly as PurchaseStep says, and keeps rows keyed by id with non-negative stock |
| Inventory.SweetTable.Restock | backend/api/views.py:99-117 | the in-place update answers and leaves the table exactly as RestockStep says, keeping the same invariant |
| Inventory.PurchasesNeverGoNegative | backend/api/views.py:88-92 | from a table with no negative stock, any sequence of purchases by any caller leaves no negative stock and the same ids |
| Inventory.RepeatedPurchases | backend/api/views.py:88-92 | k purchases of one sweet leave its quantity at max(q - k, 0) and every other row untouched |
| Inventory.ThreePurchasesEmptyTheShelf | backend/api/tests/test_purchase.py:24-60 | from quantity 3 the first purchase returns 200 with quantity 2, three purchases reach 0, and a fourth is refused with 400 "Out of stock" |
| Inventory.RestockSevenOntoThree | backend/api/tests/test_restock.py:33-77 | a staff restock of 7 onto 3 gives 200 and 10; a non-staff restock gives 403 and changes nothing |
| Inventory.Contains | backend/api/views.py:67 | the scan answers true exactly when the pattern occurs somewhere in the text |
| Inventory.Keep | backend/api/views.py:66-79 | a filter step keeps exactly the rows that satisfy its condition and never adds rows |
| Inventory.Queryset | backend/api/views.py:54-80 | the listing is drawn from the table and is never longer; with no parameter it is the whole table |
| Inventory.QuerysetSelectsMatches | backend/api/views.py:54-80 | the listing holds exactly the rows whose lower-cased name contains the lower-cased name parameter, whose category equals the category parameter ignoring case, and whose price lies within the inclusive bounds; empty parameters filter nothing; never more rows than the table |
| Inventory.UnparseableBoundIgnored | backend/api/views.py:70-79 | a price bound that is not a number gives the same listing as no bound |
| Inventory.SearchByName | backend/api/tests/test_search.py:20-27 | the name "Choco" lists both Choco sweets |
| Inventory.SearchByCategory | backend/api/tests/test_search.py:29-35 | category "Candy" lists the candy and only sweets whose category is "Candy" |
| Inventory.SearchByPriceRange | backend/api/tests/test_search.py:37-45 | the inclusive range 30.00..100.00 keeps the 50.00 sweet and drops the 20.00 and 150.00 ones |
| Serializers.FieldErrorsOf | backend/api/serializers.py:31-37 | username is refused exactly when missing, blank, longer than 150 or refused by its validators; password exactly when missing, blank, shorter than 6 or refused by the password validators; password2 exactly when missing or blank; email only when given and not a valid address |
| Serializers.DeclaredPart | backend/api/serializers.py:35-37 | validated data keeps exactly the declared fields present in the request, with their values |
| Serializers.CheckRegistration | backend/api/serializers.py:31-42 | accepted iff no field is refused and the two passwords are present and equal; accepted data is the declared part of the request; field errors are reported before validate() runs |
| Serializers.Validate | backend/api/serializers.py:39-42 | accepts iff password equals password2, then returns the data unchanged; otherwise the error "Passwords must match." keyed on "password" |
| Serializers.AcceptedRegistration | backend/api/serializers.py:31-50 | accepted data has declared keys only and yields the user with the requested username, the email or '' and the password typed twice; that password has at least 6 characters and passed the validators; the username has 1 to 150 characters and passed its validators; a given email passed the address check |
| Serializers.RefusedRegistration | backend/api/serializers.py:31-41 | once the field checks pass, different passwords give the keyed mismatch error; a password shorter than 6 is refused as a field error on "password"; a malformed email is refused as a field error on "email" |
| Serializers.RegisterSerializer.Create | backend/api/serializers.py:44-50 | create removes exactly password2 from the validated data and builds the user from username, email or '' and password |
| Serializers.SweetRepresentation | backend/api/serializers.py:55-58 | a serialized sweet has exactly the fields id, name, category, price, quantity |
| Serializers.SweetRepresentationRoundTrip | backend/api/serializers.py:55-58 | reading a sweet back from its representation gives the same sweet |
| Serializers.ActionsAnswerSerializedRow | backend/api/views.py:91-95 | a successful purchase answers with the serialized stored row with quantity one lower; a successful restock (lines 112-115) with quantity raised by the amount |
| LegacySerializers.FieldErrorsOf | backend/sweetshop/serializers.py:6-15 | username is refused exactly when missing, blank, longer than 150 or refused by its validators; password exactly when missing, blank or longer than 128; password2 exactly when missing or blank; no other field is checked |
| LegacySerializers.CheckRegistration | backend/sweetshop/serializers.py:6-23 | accepted iff no field is refused and the two passwords are present and equal; accepted data holds exactly the request's username, password and password2 with their values; field errors come first |
| LegacySerializers.Validate | backend/sweetshop/serializers.py:17-23 | accepts iff the two passwords are equal, returning the data unchanged; otherwise the mismatch error keyed on "password" |
| LegacySerializers.ValidateAgreesWithCurrent | backend/sweetshop/serializers.py:17-23 | the legacy and current password-confirmation checks decide every input alike |
| LegacySerializers.AcceptedLegacyRegistration | backend/sweetshop/serializers.py:6-34 | accepted legacy data holds only username, password and password2, and yields a user with no email and the twice-typed password, which has 1 to 128 characters |
| LegacySerializers.LegacyIsLaxer | backend/sweetshop/serializers.py:6-15 | with an accepted username and a matching password of at most 128 characters the legacy serializer accepts; a password shorter than 6 then fails the current one; the legacy one drops email, the current one keeps it |
| LegacySerializers.RegisterSerializer.Create | backend/sweetshop/serializers.py:25-34 | create pops password2 and builds the user from username and password with no email |
| ApiClient.HandleApiError | frontend/src/api.js:14-38 | every path throws |
| ApiClient.NonJsonMessageNamesStatus | frontend/src/api.js:18-23 | a body that is not JSON gives the status message whatever the default, and distinct statuses give distinct messages |
| ApiClient.DetailTakesPriority | frontend/src/api.js:26-27 | a non-empty detail is the message whatever the other fields hold |
| ApiClient.JsonErrorPicksFirstPresent | frontend/src/api.js:25-37 | the message is the first present of detail, "Username error: ", "Password error: ", "Email error: " plus the list's first element, and the default exactly when none is present |
| ApiClient.ReadJson | frontend/src/api.js:57 | reading the body succeeds exactly when it is JSON, giving the parsed value; otherwise it throws the parse error |
| ApiClient.TokenStore.LoginUser | frontend/src/api.js:46-65 | a non-2xx answer throws through handleApiError; otherwise the parsed body is returned, and the stored token becomes `access` only when that is non-empty, else stays as it was |
| ApiClient.RegisterUser | frontend/src/api.js:68-83 | posts to the register endpoint without a token; returns true exactly on a 2xx answer, otherwise throws what handleApiError gives with the default "Registration failed." |
| ApiClient.Finish | frontend/src/api.js:102-106 | the request is sent; a non-2xx answer throws what handleApiError gives with the wrapper's default; a 2xx answer returns the parsed body when it is JSON and throws the parse error when it is not |
| ApiClient.GetSweets | frontend/src/api.js:91-107 | sends GET to the sweets endpoint with "Bearer <stored token>", whatever is stored; a non-2xx answer throws handleApiError's message with default "Failed to fetch sweets."; otherwise the parsed body, exactly when it is JSON |
| ApiClient.SearchSweets | frontend/src/api.js:182-201 | as GetSweets, sent to the search endpoint for the query, with default "Failed to perform search." |
| ApiClient.CreateSweet | frontend/src/api.js:110-131 | nothing is sent exactly when no token is stored, and then it throws "Authentication token missing. Please log in."; with one, a non-2xx answer throws with default "Failed to create sweet."; it returns exactly on a 2xx JSON answer, giving the parsed body |
| ApiClient.UpdateSweet | frontend/src/api.js:134-155 | as CreateSweet for a PUT to the sweet's endpoint, with default "Failed to update sweet." |
| ApiClient.DeleteSweet | frontend/src/api.js:158-179 | nothing is sent exactly when no token is stored, and then it throws the log-in message; a non-2xx answer throws with default "Failed to delete sweet."; 204 gives true and another 2xx gives nothing |
| ApiClient.PurchaseSweet | frontend/src/api.js:208-225 | nothing is sent exactly when no token is stored, and then it throws "Authentication token missing."; a non-2xx answer throws with the purchase default; it returns true exactly on a 2xx answer with a token |
| ApiClient.RestockSweet | frontend/src/api.js:228-246 | as PurchaseSweet, with default "Restock failed." |
| ApiClient.MutationsNeedToken | frontend/src/api.js:110-246 | without a token create, update, delete, purchase and restock throw their "token missing" error and send nothing; with one each sends one request carrying "Bearer <token>" |
| ApiClient.ReadsGoOutWithoutToken | frontend/src/api.js:91-100 | listing and searching send their request even without a token, with the header "Bearer null" |
| ApiClient.FailuresAlwaysThrow | frontend/src/api.js:91-246 | with a token, a non-2xx answer makes every wrapper throw the message handleApiError gives with that wrapper's own default; a 2xx answer makes purchase and restock return true and delete return true on 204 and nothing on another 2xx |
| JsNumbers.TrimStart | frontend/src/Sweets.jsx:53 | the result is a suffix of the input, every character dropped is white space, the result starts with no white space, and it is the input itself when that starts with no white space |
| JsNumbers.DigitRun | frontend/src/Sweets.jsx:53 | the digit run is the longest prefix made of digits of the base |
| JsNumbers.ParseInt | frontend/src/Sweets.jsx:53 | blank text gives NaN; text whose first non-blank character is a digit (and is not a 0x prefix) gives a non-negative number; a leading minus never gives a positive number |
| JsNumbers.ParseIntReadsDecimal | frontend/src/Sweets.jsx:53 | parseInt reads back the decimal text of any natural, ignoring text after the digits, unless "0x" makes it hexadecimal |
| JsNumbers.ParseIntReadsNegatedDecimal | frontend/src/Sweets.jsx:53 | with a leading minus the same text reads as the negated number |
| JsNumbers.ParseIntSkipsWhiteSpace | frontend/src/Sweets.jsx:53 | leading white space does not change the result |
| JsNumbers.ParseIntOfNonNumeric | frontend/src/Sweets.jsx:53 | the empty string and text starting with a non-digit, non-sign character give NaN |
| SweetsView.LoadCall | frontend/src/Sweets.jsx:23 | the list-all endpoint exactly when the query is empty, otherwise a search for that query |
| SweetsView.SweetsPage.constructor | frontend/src/Sweets.jsx:11-17 | the component starts with no sweets, no error, loading, not editing, an empty search term, no restock inputs and no calls made |
| SweetsView.RestockAmount | frontend/src/Sweets.jsx:53 | the amount is non-zero exactly when the input parses to a non-zero integer, and then it is that integer; missing or NaN gives 0 |
| SweetsView.RestockAmountOfTypedNumber | frontend/src/Sweets.jsx:53-57 | a typed number n (with any non-digit tail) gives n, "-n" gives -n, an empty or missing box gives 0 |
| SweetsView.ListingFor | frontend/src/Sweets.jsx:131-134 | an empty list shows "No sweets available." (plus "Add one above!" for admins) when no search is active and `No results found for "<term>".` otherwise; a non-empty list shows the sweets |
| SweetsView.SweetsPage.View | frontend/src/Sweets.jsx:109-134 | the spinner exactly while loading; otherwise the error text is exactly `err` when that is non-empty and absent otherwise, the listing is as ListingFor says, non-admins get no form, and admins get the edit form for the sweet being edited and the add form when none is |
| SweetsView.SweetsPage.LoadSweets | frontend/src/Sweets.jsx:19-30 | calls search iff the query is non-empty, keeps the answer or shows its error, clears any earlier error, always ends not loading, touches nothing else |
| SweetsView.SweetsPage.OnMount | frontend/src/Sweets.jsx:105-107 | mounting loads with the current search term |
| SweetsView.SweetsPage.HandlePurchase | frontend/src/Sweets.jsx:33-44 | unconfirmed: error cleared, no call; confirmed: a purchase call then a reload, after which `err` is only the reload's error |
| SweetsView.SweetsPage.HandleRestock | frontend/src/Sweets.jsx:47-67 | non-admins get the admin-only error; an amount that is not positive gives "Restock amount must be a positive number."; an unconfirmed valid amount clears the error; on all three no call is made and list and loading are untouched. Otherwise a restock call with the parsed amount and a reload, after which `err` is only the reload's error; only a successful restock resets that sweet's input to '' |
| SweetsView.SweetsPage.HandleDelete | frontend/src/Sweets.jsx:70-84 | non-admins get the admin-only error with list, loading and editing untouched; a confirmed success deletes then reloads; a failure shows "Delete failed: " plus the message and stops loading |
| SweetsView.SweetsPage.HandleSearch | frontend/src/Sweets.jsx:86-89 | the search term becomes the query and the reload uses that same query |
| SweetsView.SweetsPage.HandleActionComplete | frontend/src/Sweets.jsx:91-94 | leaves edit mode and reloads with the current search term |
| SweetsView.SweetsPage.HandleEdit | frontend/src/Sweets.jsx:96-102 | admins start editing the sweet; non-admins get "Error: Only Admins can edit a sweet." and nothing else changes |
| SweetsView.SweetsPage.CancelEdit | frontend/src/Sweets.jsx:123 | leaves edit mode and changes nothing else |
| SweetsView.SweetsPage.ChangeRestockInput | frontend/src/Sweets.jsx:176 | only the typed sweet's restock entry changes |
| SweetsView.PurchaseFailureIsHidden | frontend/src/Sweets.jsx:40-42 | a failed purchase followed by a successful reload shows no error at all |
| SweetsView.SweetsPage.HandlePurchaseReported | frontend/src/Sweets.jsx:40-42 | with the message set after the reload, a failed purchase leaves "Purchase failed for <name>: <message>" in `err` |
| SweetsView.PurchaseFailureIsReported | frontend/src/Sweets.jsx:40-42 | with the corrected handler the failure message is on screen |
| SweetsView.RestockFailureIsHidden | frontend/src/Sweets.jsx:63-65 | a failed restock of a valid amount followed by a successful reload shows no error at all, only the reloaded list and the add form |
| SweetsView.SweetsPage.HandleRestockReported | frontend/src/Sweets.jsx:47-67 | the same paths, calls, list, loading and inputs as HandleRestock; after a confirmed restock `err` is "Restock failed for <name>. Error: <message>" when the restock failed, else the reload's error |
| SweetsView.RestockFailureIsReported | frontend/src/Sweets.jsx:63-65 | with the corrected handler the failure message is on screen |

## Left out

- HTTP transport: `fetch`, URL building with `encodeURIComponent`, headers other than Authorization, and JSON request bodies other than the restock amount. Responses and thrown messages are inputs.
- `localStorage` is a field (`ApiClient.TokenStore.token`) or a parameter; storage failures are not modelled.
- Each backend action is one atomic step. The `transaction.atomic` / `select_for_update` locking and concurrent requests are not modelled.
- DRF's `SearchFilter` over name, category and price (`?search=`) is library code. The listing models only the hand-written filters; a search query sent by the client reaches the server as an opaque query.
- `float()` parsing of the price bounds: a bound is absent, not a number, or a whole number of cents. Floating-point prices are not modelled.
- Python `int()` on the restock amount is an input: an integer, or a value `int()` rejects.
- `Inventory.Contains`, `Inventory.QuerysetSelectsMatches`: `icontains` / `iexact` are modelled with ASCII case folding; Unicode case folding as the database performs it is not.
- `Inventory.Keep`: the contract states membership and length, not that the original row order is kept.
- Inventory.RestockStep: stored quantities are unbounded integers. The database column's width is declared in backend/api/models.py, which is not part of this model. A restock whose sum overflows that column makes `save()` fail with an uncaught error (a 500 answer); the model answers 200 with the unbounded sum instead.
- A non-numeric primary key, which Django answers with a server error, is not modelled; ids are integers.
- `validate_password`, the User model's username validators and uniqueness check, and DRF's email address check are library code. Their verdicts are boolean inputs (`Serializers.Verdicts`), and what they accept is not modelled.
- `set_password` hashing, `save`, `CharField` whitespace trimming, JWT issuing (`RefreshToken`, the custom token serializer) and `authenticate` are library code and are not modelled.
- LegacySerializers.RegisterSerializer.Create: `User.objects.create_user` normalises the username (Unicode NFKC through `normalize_username`), so a fullwidth "ｆｏｏ" is stored as "foo". The model stores the username exactly as sent; Unicode normalisation is not modelled. The current serializer builds `User(...)` directly and does not normalise, as modelled.
- `RegisterView` and `LoginView` are not modelled; `LoginView` is not routed (the login URL uses the library's token view).
- backend/api/models.py is not part of this model; the `Sweet` record follows the serializer's declared fields.
- backend/sweetshop/utils.py is not part of this model (unused).
- `JsNumbers.ParseIntReadsDecimal`: values are unbounded integers; double precision above 2^53 and the difference between 0 and -0 are not modelled.
- Rendering details of the component (the heading with the result count, styles, which buttons each role sees) and the form components it embeds are not modelled beyond the `View` screen.
- React's scheduling: a reload started without `await` is taken to finish before the next event, and state updates are applied in order.

## Findings

| source | as written | input that shows it | evidently intended | confidence | as-written member | corrected member |
|---|---|---|---|---|---|---|
| frontend/src/Sweets.jsx:40-42 | the catch block sets the purchase failure message, then calls `loadSweets()`, whose first statement clears the error | a confirmed purchase that the server refuses with 400 "Out of stock", followed by a reload that succeeds: the page shows no error | the failure message stays on screen after the reload | not executed | SweetsView.PurchaseFailureIsHidden | SweetsView.SweetsPage.HandlePurchaseReported |
| frontend/src/Sweets.jsx:63-65 | the catch block sets the restock failure message, then calls `loadSweets()`, which clears it | an admin restocks a valid amount, the server answers with an error, and the reload succeeds: the page shows no error | the failure message stays on screen after the reload | not executed | SweetsView.RestockFailureIsHidden | SweetsView.SweetsPage.HandleRestockReported |
