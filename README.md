# Sanchi Wellness: checkout page and account store

A Dafny model of two parts of the Sanchi Wellness storefront.

The first is the order logic of the checkout page (`frontend/src/pages/checkout.jsx`):
- the cart total, a `reduce` over the loaded cart lines;
- the UPI deep link (`upi://pay?pa=…&pn=…&am=…&cu=INR`) shown as a QR code;
- the validation chain run when the customer presses "Confirm Payment";
- the digit filter on the transaction-id (UTR) field;
- the page state (`address`, `txnId`, `error`, `isSubmitting`) that a payment attempt
  updates, and the request body it posts.

The second is the account store of the backend (`backend/server.js`): the `users` table with an
auto-incremented id and a unique email, the `/api/signup` handler and the `/api/login` handler.

Files:
- `wrappers.dfy`: module `Wrappers`, with `Option`.
- `js_text.dfy`: module `JsText`, the JavaScript built-ins the page relies on. These are `trim`
  (with the white-space set of ECMAScript 2024, sections 12.2 and 12.3), the `\d` class, the
  `replace(/\D/g, '')` filter, and integer-to-text conversion. It also holds parsers that
  invert the conversion.
- `checkout.dfy`: module `Checkout`, the cart total, link and validator as functions, and the
  page as class `CheckoutPage`.
- `accounts.dfy`: module `Accounts`, the table as class `UserTable`, with methods `Signup` and
  `Login`.

Modelling choices:
- Component state set with `setX` becomes a field of `CheckoutPage`. The user id and the loaded
  cart are constructor parameters, because they come from client storage and the cart endpoint.
- `handlePlaceOrder` is split at its `await`. `BeginPlaceOrder` clears the error, runs the
  checks, raises `isSubmitting` and builds the body. `FinishPlaceOrder` handles the reply and
  runs the `finally` block. `PlaceOrder` is the whole click.
- The server's answer is a parameter of type `Reply`. It is either a response (its `ok` flag
  plus the body's `error` field) or `TransportFailure`. A body that is not JSON lands in the same
  `catch` as a network failure, and so does a non-ok response whose JSON body is `null` (reading
  `data.error` then throws). Both are `TransportFailure` too.
- The password-hashing library is a parameter `Hasher`, a pair of functions `hash` and
  `matches`. The login round trip assumes only `matches(p, hash(p))` for the password used.
- Request fields of the signup body are `Option<string>`. A field passes `!field` exactly when it
  is present and non-empty. An absent login email is bound as SQL NULL, so it matches no row and
  gives "User not found".
- AUTOINCREMENT starts ids at 1. A rejected insert is rolled back and uses up no id.

## Model

| member | source | states |
|---|---|---|
| `Checkout.CartTotal` | frontend/src/pages/checkout.jsx:58 | the total equals the sum of price × quantity over the lines; the empty cart totals 0 |
| `Checkout.ReduceIsSum` | frontend/src/pages/checkout.jsx:58 | the left-to-right `reduce` from any start value is that value plus the sum of the line amounts |
| `Checkout.CartTotalAppend` | frontend/src/pages/checkout.jsx:58 | total(a ++ b) = total(a) + total(b) |
| `Checkout.CartTotalNonNegative` | frontend/src/pages/checkout.jsx:58 | a cart with non-negative prices and quantities has a non-negative total |
| `Checkout.UpiLinkQuery` | frontend/src/pages/checkout.jsx:27-28 | split at `&` and then at `=`, the query after `upi://pay?` is exactly the four pairs `pa`=`yourname@upi`, `pn`=`Sanchi Wellness` (unescaped), `am`=the decimal total and `cu`=`INR`, in that order |
| `Checkout.QueryOfFour` | frontend/src/pages/checkout.jsx:61 | any four `key=value` parameters joined by `&` read back as those four pairs, as long as no key holds `=` and no key or value holds `&` |
| `Checkout.NumberTextIsPlain` | frontend/src/pages/checkout.jsx:61 | the decimal text of the total holds neither `&` nor `=`, so the amount cannot break the query apart |
| `Checkout.UpiLinkCarriesTotal` | frontend/src/pages/checkout.jsx:61 | reading the `am=` field back out of the link gives exactly the total |
| `Checkout.UpiLinkInjective` | frontend/src/pages/checkout.jsx:61 | different totals give different links |
| `Checkout.CheckoutPage.PaymentLink` | frontend/src/pages/checkout.jsx:61 | the page's link reads back, split at `&` and `=`, as the merchant id, the merchant name, this page's cart total and `INR`; its `am=` field parses back to the total |
| `JsText.NumberToStringRoundTrip` | frontend/src/pages/checkout.jsx:61 | the decimal text of an integer parses back to that integer |
| `JsText.NatToDecimalValue` | frontend/src/pages/checkout.jsx:61 | the digits of a natural number read back as its value |
| `JsText.TrimBlankIff` | frontend/src/pages/checkout.jsx:68 | `address.trim()` is empty exactly when every character of the address is JavaScript white space or a line terminator |
| `Checkout.MatchesDigitRunIff` | frontend/src/pages/checkout.jsx:78 | the anchored pattern `^\d{n}$` matches exactly the strings of length n made of ASCII digits |
| `Checkout.TxnIdAccepted` | frontend/src/pages/checkout.jsx:78-79 | the UTR check accepts exactly the strings of twelve ASCII digits; the empty string is rejected |
| `Checkout.ValidateOrderSpec` | frontend/src/pages/checkout.jsx:68-82 | the checks are ordered and the first failure wins. An all-white-space address gives the blank-address message. Otherwise an untrimmed length below 10 gives the too-short message. Otherwise a transaction id that is not twelve digits gives the invalid-id message. Otherwise the order may proceed. Each outcome holds in both directions. |
| `Checkout.PaddedAddressPasses` | frontend/src/pages/checkout.jsx:72 | the length check counts padding: nine spaces and one letter pass validation |
| `Checkout.ReplyError` | frontend/src/pages/checkout.jsx:102-115 | the error text is empty exactly when the response is ok. A non-ok response shows its non-empty `error` field, or else "Order failed. Please try again.". A transport failure shows the connection message. |
| `Checkout.WellFormedTxnIdAccepted` | frontend/src/pages/checkout.jsx:79 | for a field the filter has kept to at most twelve digits, the UTR check is a length check |
| `JsText.DigitsOnlyIsSubsequence` | frontend/src/pages/checkout.jsx:248 | the filtered value is a subsequence of the raw input: the kept characters keep their order |
| `JsText.DigitsOnlyCounts` | frontend/src/pages/checkout.jsx:248 | the filter keeps every occurrence of every ASCII digit and no other character |
| `JsText.DigitsOnlyAppend` | frontend/src/pages/checkout.jsx:248 | filtering a concatenation is concatenating the filtered parts |
| `JsText.DigitsOnlyKeepsDigitStrings` | frontend/src/pages/checkout.jsx:248 | a string of digits passes through the filter unchanged |
| `JsText.DigitsOnlyIdempotent` | frontend/src/pages/checkout.jsx:248 | filtering twice is filtering once |
| `Checkout.CheckoutPage.constructor` | frontend/src/pages/checkout.jsx:16-24 | the page starts with an empty address, an empty transaction id, no error and no submission in flight |
| `Checkout.CheckoutPage.EditAddress` | frontend/src/pages/checkout.jsx:162 | typing sets the address to exactly the typed value |
| `Checkout.CheckoutPage.EditTxnId` | frontend/src/pages/checkout.jsx:246-249 | the field becomes the digits of the raw input when there are at most twelve, and is otherwise unchanged; so it always holds at most twelve digits |
| `Checkout.CheckoutPage.BeginPlaceOrder` | frontend/src/pages/checkout.jsx:64-98 | a request is built exactly when validation passes. On a failed check the error is that check's message and `isSubmitting` stays false. On success the error is cleared, `isSubmitting` is true, and the body carries the user id, the computed cart total, `txnId`, the address as typed and the loaded cart. Called with the field as its filter keeps it (at most twelve digits) and no submission in flight, it keeps the field well formed, and the id check fails only on a field shorter than twelve digits. |
| `Checkout.CheckoutPage.FinishPlaceOrder` | frontend/src/pages/checkout.jsx:100-118 | `isSubmitting` is false afterwards whatever the reply. The order counts as placed exactly on an ok response. Otherwise the error is the reply's message. |
| `Checkout.CheckoutPage.PlaceOrder` | frontend/src/pages/checkout.jsx:64-119 | one click: no request when a check fails (with that check's message); otherwise the request is the one described above, the order is placed exactly on an ok response, and the error is the reply's message; `isSubmitting` is false at the end. For a field kept by its filter, the id check fails only when fewer than twelve digits were typed, and then nothing is placed. |
| `Accounts.SignupResult.Status` | backend/server.js:48-64 | a signup answers with a 2xx status exactly when the user was created (201); each rejection answers 400 |
| `Accounts.SignupResult.ErrorText` | backend/server.js:48-60 | the body has no `error` field exactly on success; a rejection carries a non-empty message, "All fields are required" or "Email already exists" |
| `Accounts.SignupRepliesDistinct` | backend/server.js:48-64 | status and `error` text tell the signup outcomes apart: the two rejections never answer alike |
| `Accounts.LoginResult.Status` | backend/server.js:81-97 | a login answers with a 2xx status exactly when it succeeds (200); each rejection answers 400 |
| `Accounts.LoginResult.ErrorText` | backend/server.js:81-97 | the body has no `error` field exactly on success; a rejection carries a non-empty message, "User not found" or "Invalid password" |
| `Accounts.LoginRepliesDistinct` | backend/server.js:81-97 | status and `error` text tell the login outcomes apart: the two rejections never answer alike |
| `Accounts.Lookup` | backend/server.js:77-79 | the lookup misses exactly when no row has the email; a hit is the first row of the table that carries the email |
| `Accounts.LookupUnique` | backend/server.js:35 | when emails are unique, looking up a row's email finds that row |
| `Accounts.AppendKeepsEmailsUnique` | backend/server.js:35 | appending a row whose email is not taken keeps emails unique |
| `Accounts.LookupAfterAppend` | backend/server.js:54-56 | after appending a row with a fresh email, looking it up finds the new row |
| `Accounts.UserTable.constructor` | backend/server.js:32-38 | the table starts empty, with the next id 1 |
| `Accounts.UserTable.Signup` | backend/server.js:45-71 | A missing or empty name, email or password gives `MissingFields` (400, "All fields are required", by `SignupResult.Status` and `SignupResult.ErrorText`). An email already in the table gives `EmailExists` (400, "Email already exists"). Both failures leave the table and the id counter unchanged. Otherwise exactly one row is appended, holding the name, the email and the hash of the password. Its id is the counter's value, which differs from every existing id. The invariant (unique emails, increasing ids below the counter) is kept. |
| `Accounts.UserTable.Login` | backend/server.js:74-99 | `UserNotFound` (400, "User not found", by `LoginResult.Status` and `LoginResult.ErrorText`) exactly when no row has the email. For the row with that email, a password that matches the stored hash returns `{id, name, email}` of that row, and one that does not gives `InvalidPassword` (400, "Invalid password"). The method has no `modifies` clause, so login cannot change the table. |
| `Accounts.SignupThenLogin` | backend/server.js:45-99 | Signup succeeds exactly when all three fields are non-empty and the email is new. After a successful signup, logging in with the same email and password returns the new id, the name and the email, given that the hash matches its own password. |

## Left out

- React rendering, routing and browser calls are not modelled: JSX, `navigate`, `alert`,
  `window.dispatchEvent`, the loading screen and the empty-cart redirect. Success shows up only
  as the `placed` result.
- `fetch`, `res.json()`, `localStorage` and `JSON.parse` are I/O. The stored user's id, the
  loaded cart and the server's reply are parameters.
- Asynchrony is not modelled. React batches state updates, and requests can run concurrently.
  The model runs each handler to completion in program order.
- The browser's `maxLength={12}` attribute on the transaction-id input is not modelled. The raw
  value passed to `EditTxnId` is arbitrary, which covers pasted text.
- String lengths count Unicode characters. JavaScript's `.length` counts UTF-16 code units, so an
  address with characters outside the Basic Multilingual Plane counts longer in the source than
  here.
- Prices, quantities and totals are unbounded integers. JavaScript numbers are floating point,
  so non-integer prices and the loss of precision above 2^53 are not modelled.
- `JsText.NumberToString` always writes plain decimal digits. JavaScript writes 10^21 and above
  in exponent notation.
- Request fields that are JSON values other than strings are not modelled (numbers, booleans,
  objects). Neither is an `error` field that is not a string.
- `Accounts.UserTable.Login` takes the password as a string. A login request with no password
  field hands `undefined` to bcryptjs, which is foreign code and is not modelled.
- The 500 responses for database and hashing failures are not modelled (`backend/server.js`
  lines 61, 68-69 and 80). Neither is the matching of SQLite's constraint message: the duplicate
  email is decided by looking the email up.
- bcrypt internals (salt, cost factor 10) are left out behind `Hasher`. Because `hash` is a
  function, equal passwords get equal stored values here, where real bcrypt salts each one. No
  property above depends on it.
- The `created_at` column reads the clock and is not returned by either handler, so it is not
  modelled.
- Express, CORS, the static `/uploads` folder, the database connection and schema creation, and
  `app.listen` are plumbing.
- The frontend posts to cart and checkout endpoints (`checkout.jsx` lines 41 and 88). The
  backend that serves them is not part of this model. The order's server-side handling is
  therefore not modelled, and neither is a server-side cart.
- The other frontend files are markup and routing: the navigation bars, the footer, the product
  section, the dashboard, the simulated login page and the route guard.
