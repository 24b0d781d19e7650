# Stock Management, modelled in Dafny

This project models a multi-branch inventory application. It has two parts:

- **A REST backend.** Users register and log in with a password and receive a one-day bearer token. Three middleware gates then authorize every stock request:
  - a token gate;
  - an admin gate;
  - an admin-or-same-branch gate.

  The stock handlers list, add, update and delete records. Each handler is scoped to the caller's branch, except that an admin may update a record of any branch.
- **Four client components.** These are:
  - the reports panel (quantity by item, opening against closing stock, and a per-branch pie);
  - the dashboard summary cards;
  - a local user-management list with search and role filter;
  - a barcode scan history.

## Modules

Values sit in datatypes, and state that the source updates in place sits in classes:

- **Stock table.** `StockController.StockCollection` is a map from id to record, with the next id.
- **User table.** `AuthController.UserCollection` is keyed by email, which models the unique index.
- **Client components.** `UserManagement.UserPanel` and `BarcodeScanner.Scanner` hold the component state.

How the backend is modelled:

- **Request bodies.** JavaScript truthiness of body fields is modelled as "present and non-empty" (`Option<string>`) or "present and non-zero" (`Option<int>`).
- **Libraries as parameters.** bcrypt and jsonwebtoken are function-valued parameters (`Crypto.Hasher`, `Comparer`, `Signer`, `Decoder`), so nothing about their internals is assumed.
- **Expiry.** The expiry check of `jwt.verify` is written out (`Crypto.Verify`).
- **Sign and decode.** The one fact the token proofs use is the `Crypto.Recovers` hypothesis, stated per lemma: decoding a signed token gives back what was signed, and a signed token contains no space.
- **Clock.** The clock reading is a parameter.

Helper modules:

- `Wrappers`: the `Option` type.
- `Js`: `split`, `join`, `trim`, `toLowerCase`, `includes`, `slice` and `splice` on strings and sequences.
- `Collections`: `Sum`, `Distinct`, `FirstIndex`.
- `Http`: the identity, body and response shapes.

## Behaviour of the code that is easy to misread

The model follows the code in each of these points.

- **A non-admin can never update a stock record.**
  - The PUT route runs `verifyAdminOrSameBranch`, which lets a non-admin through only when the body carries a `location` equal to their branch (Backend/middleware/verifyToken.js:73).
  - `updateStock` then refuses any truthy `location` from a non-admin with 403 (Backend/controllers/stockController.js:57-62).
  - So a quantity-only update by a same-branch user is refused, and so is every other non-admin PUT.
  - `StockRoutes.Route` proves that a non-admin PUT never answers 200 and never changes the table. The status is 403, or 404 when the id is unknown: the gate can pass for a body location of the user's own branch, and then the lookup fails.
  - This is also listed under Findings.
- **`stock.branch` in the reports panel.** The branch field is read from `stock.branch` in Reports.jsx, while the stock record has `location`. The component is fed sample data that carries `branch`, so the model reads the `branch` field as written.
- **Quantities have no lower bound.** The stock schema does not constrain quantity to be non-negative, so the model does not either.
- **Ordinary users cannot create or delete stock.** POST and DELETE require the admin role (Backend/routes/stockRoutes.js:11,17).

## Model

| member | source | states |
|---|---|---|
| Schema.CastStock | Backend/models/Stock.js:3-12 | validation succeeds exactly when item name, quantity and location are given, the name is non-empty and the location is one of the five enumerated; the stored record keeps the given fields and takes the clock as creation time when none is given |
| Schema.CastUser | Backend/models/User.js:3-27 | validation succeeds exactly when name, email and password are non-empty, the branch is one of the four and the role is "admin" or "user"; the new document keeps the fields, has the given id and version 0 |
| Schema.EmailIdentifiesUser | Backend/models/User.js:8-12 | a fact about the table's key: in a table keyed by email, two stored users with the same email are the same entry |
| Schema.BranchesAreLocations | Backend/models/User.js:17-21 | a fact about the two enumerations: every user branch is also an allowed stock location |
| Schema.ServiceStationHasNoUsers | Backend/models/Stock.js:8 | a fact about the two enumerations: "Service Station" is a stock location that no user's branch can be |
| Http.Public | Backend/controllers/authController.js:36-43 | the user shown in a response (registration here, login at lines 91-98) keeps the stored id, name, email, role, branch and version; the type has no password field, so the hash never goes back |
| Crypto.ExpiryBoundary | Backend/middleware/verifyToken.js:21-22 | a genuinely signed token is accepted strictly before its expiry and refused from the expiry on |
| Crypto.Verify | Backend/middleware/verifyToken.js:21-22 | a token is accepted exactly when it decodes under the secret and the clock is before its expiry, and then its payload is returned unchanged |
| Middleware.BearerToken | Backend/middleware/verifyToken.js:14-19 | a token is found only in a header that is "Bearer", one space, and that token, which holds no space; a header shorter than "Bearer " gives none |
| Middleware.BearerTokenIff | Backend/middleware/verifyToken.js:14-19 | the header yields token t exactly when it is "Bearer", one space, and a t without spaces |
| Middleware.BearerRoundTrip | Backend/middleware/verifyToken.js:14-19 | the header `Bearer ${token}` that the client builds gives back the same token |
| Middleware.WrongSchemeRefused | Backend/middleware/verifyToken.js:15-16 | a header not starting with "Bearer " is malformed |
| Middleware.SpacedTokenRefused | Backend/middleware/verifyToken.js:14-16 | a token part containing a space (a third piece or a doubled space) is malformed |
| Middleware.MalformedExamples | Backend/middleware/verifyToken.js:14-16 | "Token abc", "Bearer a b" and "Bearer  abc" are malformed |
| Middleware.VerifyToken | Backend/middleware/verifyToken.js:7-33 | no header gives 401 "No token provided"; a malformed header gives 401; a token that fails verification or has expired gives 403; otherwise the identity is the decoded id, role, branch and email |
| Middleware.SignedTokenPasses | Backend/middleware/verifyToken.js:21-32 | a token signed by the server and sent before expiry attaches exactly its signed claims |
| Middleware.ExpiredTokenRefused | Backend/middleware/verifyToken.js:21-22 | the same token at or after its expiry gives 403, not 401 |
| Middleware.VerifyAdmin | Backend/middleware/verifyToken.js:44-55 | it passes exactly for an attached identity with role "admin"; with no identity it gives 401; for any other identity it gives 403 |
| Middleware.VerifyAdminOrSameBranch | Backend/middleware/verifyToken.js:63-82 | it passes exactly for an admin, or for a non-empty body location equal to the identity's branch; with no identity it gives 401; otherwise 403 |
| StockController.StockCollection.Find | Backend/controllers/stockController.js:7 | exactly the stored records with the given location, unchanged |
| StockController.StockCollection.FindById | Backend/controllers/stockController.js:40 | the record with that id, or none when there is none |
| StockController.StockCollection.Create | Backend/controllers/stockController.js:22-26 | a document that fails validation stores nothing; otherwise it is stored under a fresh id, and nothing else changes |
| StockController.StockCollection.Save | Backend/controllers/stockController.js:65 | an invalid document is refused and the table is unchanged; a valid one overwrites its own id only |
| StockController.StockCollection.FindOneAndDelete | Backend/controllers/stockController.js:79 | a record is removed and returned exactly when both its id and its location match; otherwise the table is unchanged |
| StockController.GetStocks | Backend/controllers/stockController.js:4-12 | 200 with exactly the records whose location is the caller's branch, nothing from another branch |
| StockController.ListingIgnoresRole | Backend/controllers/stockController.js:6-7 | the listing is the same whatever the caller's role, so admins get no cross-branch view |
| StockController.AddStock | Backend/controllers/stockController.js:15-32 | a missing item name or a zero or missing quantity gives 400 and changes nothing; otherwise, when the caller's branch is a stock location, the record goes in that branch whatever the body says, with 201; a caller whose branch is not one gets 500 and nothing is stored |
| StockController.Merged | Backend/controllers/stockController.js:51-59 | each truthy body field among item name, quantity and location replaces its own field, every other field is kept, and the creation time never changes |
| StockController.MergedLaws | Backend/controllers/stockController.js:53-59 | an empty body changes nothing, applying a body twice equals applying it once, and the creation time never changes |
| StockController.ZeroQuantityIgnored | Backend/controllers/stockController.js:54 | a quantity of 0 is ignored like a missing one (the model's numeric 0; the string "0" the form sends is truthy and is not modelled) |
| StockController.MergedValid | Backend/controllers/stockController.js:57-65 | the merged record passes validation exactly when no location is given or the given location is enumerated |
| StockController.UpdateStock | Backend/controllers/stockController.js:34-70 | an unknown id gives 404; a record of another branch gives 403 unless the caller is an admin; a location from a non-admin gives 403; a merge that fails validation gives 500; all of these leave the table unchanged; otherwise only the addressed record changes and 200 is returned |
| StockController.DeleteStock | Backend/controllers/stockController.js:74-86 | the record goes, with 200, exactly when its id and its location both match the caller's branch, for admins too; otherwise 404 and the table is unchanged |
| StockController.DeleteTwice | Backend/controllers/stockController.js:79-80 | a second delete of the same id always gives 404; the first succeeds exactly when the record was in the caller's branch |
| StockRoutes.Chain | Backend/routes/stockRoutes.js:8-17 | every verb starts with the token gate; GET has only that gate, PUT has the admin-or-same-branch gate second, and POST and DELETE the admin gate second |
| StockRoutes.RunGates | Backend/routes/stockRoutes.js:8-17 | an empty chain reaches the handler with the identity it was given; a non-empty chain that reaches the handler has attached an identity; a chain that stops answers 401 or 403 |
| StockRoutes.ChainOutcome | Backend/routes/stockRoutes.js:8-17 | a failing token gate answers for every verb; after it, GET is open to everyone, POST and DELETE only to admins, and PUT to admins or to a body location equal to the caller's branch; a handler that is reached has the token's identity |
| StockRoutes.MissingTokenIs401 | Backend/routes/stockRoutes.js:8-17 | a missing or malformed token is answered 401 on every route |
| StockRoutes.Route | Backend/routes/stockRoutes.js:8-17 | a refused request changes nothing; only the addressed record can change, and only POST adds one, in the caller's branch; a non-admin PUT never succeeds and answers 403, or 404 for an unknown id; a non-admin DELETE gets 403 "Admins only"; an admin's DELETE removes the record with 200 when it is in the admin's branch, and otherwise gets 404 "Stock not found in your branch" with the table unchanged |
| StockRoutes.NonAdminUpdateRefused | Backend/routes/stockRoutes.js:14 | as written, a non-admin PUT without a body location is stopped by the branch gate |
| StockRoutes.IntendedChain | Backend/routes/stockRoutes.js:14 | the corrected chains: every verb starts with the token gate, the admin-or-same-branch gate is gone, PUT has only the token gate, and every other verb keeps its chain |
| StockRoutes.IntendedPutReached | Backend/routes/stockRoutes.js:14 | with the intended chain, every authenticated caller reaches the update handler |
| StockRoutes.IntendedUpdateRoute | Backend/routes/stockRoutes.js:14 | with the intended chain, a user of the record's branch updates item name and quantity with 200; a non-admin of another branch gets 403 and the table is unchanged |
| AuthController.AllPresent | Backend/controllers/authController.js:15 | the five-field presence check; a body that passes it also passes login's email-and-password check |
| AuthController.UserCollection.FindOne | Backend/controllers/authController.js:20 | the stored user with that email, or none |
| AuthController.UserCollection.Create | Backend/controllers/authController.js:27-33 | it stores the validated user under its email with a fresh id, and refuses a duplicate email or a document that fails validation, changing nothing then; emails remain unique and ids remain distinct |
| AuthController.NewUser | Backend/controllers/authController.js:24-33 | the new user keeps the given name, email, role and branch, gets the given id and version 0, and stores bcrypt's hash of the password at 10 rounds; it passes validation exactly when branch and role are enumerated and the hash is non-empty |
| AuthController.RegisterUser | Backend/controllers/authController.js:10-54 | any missing field gives 400; a known email gives 400 "User already exists"; a document that fails validation gives 500; otherwise 201 with the public fields, and only the password's hash is stored |
| AuthController.LoginUser | Backend/controllers/authController.js:61-110 | a missing email or password gives 400; an unknown email gives 404; a failed comparison gives 400; otherwise 200 with a token signed over the stored id, role, branch and email, valid for one day |
| AuthController.ClaimsOf | Backend/controllers/authController.js:79-85 | the token claims are the stored user's id, role, branch and email |
| AuthController.LoginNeedsKnownEmail | Backend/controllers/authController.js:66-76 | login answers 200 exactly when both fields are given, the email is stored and the password matches its hash |
| AuthController.RegisterThenLogin | Backend/controllers/authController.js:24-88 | after a registration, logging in with the same password succeeds whenever bcrypt accepts a password against its own hash, and the token carries the registered role and branch |
| AuthController.LoginTokenAuthenticates | Backend/controllers/authController.js:79-88 | the token of a successful login, sent back within a day, passes the token gate with the stored user's id, role, branch and email |
| Reports.SafeStocks | Frontend/src/components/Reports.jsx:19 | an array is used as it is, anything else becomes the empty list |
| Reports.QuantityData | Frontend/src/components/Reports.jsx:22-25 | one row per stock, in order; the name defaults to "Unknown" and the quantity to 0 |
| Reports.StockFlowData | Frontend/src/components/Reports.jsx:28-32 | one row per stock, in order; opening and closing default to 0 |
| Reports.NonArrayIsEmpty | Frontend/src/components/Reports.jsx:19 | a stocks value that is not an array gives three empty reports |
| Reports.Add | Frontend/src/components/Reports.jsx:36-37 | the key's total becomes its old total, or 0 when absent, plus the quantity; every other key keeps its total; the earlier keys keep their order and a new key goes last; a well-formed accumulator stays well-formed |
| Reports.BranchData | Frontend/src/components/Reports.jsx:35-39 | the accumulator lists each key once, exactly the keys it holds totals for, with no more keys than stocks |
| Reports.BranchDataOrder | Frontend/src/components/Reports.jsx:35-39 | the accumulator's keys are the distinct branch keys, in order of first occurrence |
| Reports.BranchDataSums | Frontend/src/components/Reports.jsx:35-39 | each key's total is the independent sum of the quantities counted under it, and a key without a total has nothing counted under it |
| Reports.BranchDataShape | Frontend/src/components/Reports.jsx:35-39 | the accumulator lists each branch key once, in order of first occurrence (a missing branch counts as "Unknown"); each value is that branch's summed quantity, and a branch with no stock has no entry |
| Reports.BranchDataKeys | Frontend/src/components/Reports.jsx:35-39 | a key is present exactly when some stock is counted under it |
| Reports.PieSlices | Frontend/src/components/Reports.jsx:41-44 | one slice per key, in order, holding that key's value |
| Reports.PieData | Frontend/src/components/Reports.jsx:41-44 | the pie has at most one slice per stock and no two slices with the same name |
| Reports.PieSlicesPerBranch | Frontend/src/components/Reports.jsx:35-44 | the pie has one slice per distinct branch, in order of first occurrence, with no name repeated, each holding the branch's sum |
| Reports.PieConservesQuantity | Frontend/src/components/Reports.jsx:22-44 | the pie's values add up to the quantities of the first report |
| Reports.CellColor | Frontend/src/components/Reports.jsx:100 | slice i takes palette colour i mod 5 |
| Reports.ColorsCycle | Frontend/src/components/Reports.jsx:46 | colours repeat every five slices, and five consecutive slices all differ |
| DashboardCards.TotalStock | Frontend/src/components/DashboardCards.jsx:2 | the total of no records is 0 |
| DashboardCards.TotalStockAppend | Frontend/src/components/DashboardCards.jsx:2 | the total of two lists is the sum of their totals |
| DashboardCards.TotalStockBounds | Frontend/src/components/DashboardCards.jsx:2 | with no negative quantity, each record's quantity lies between 0 and the total |
| DashboardCards.NonNegativeTotal | Frontend/src/components/DashboardCards.jsx:2 | non-negative quantities give a non-negative total |
| DashboardCards.Branches | Frontend/src/components/DashboardCards.jsx:3 | no branch is listed twice, and a value is listed exactly when it is some record's location |
| DashboardCards.BranchesListed | Frontend/src/components/DashboardCards.jsx:3 | no branch is listed twice; every record's location is listed and nothing else is; branches come in order of first occurrence |
| DashboardCards.Categories | Frontend/src/components/DashboardCards.jsx:17 | the card reads 0 exactly when there are no records, and never less than the number of branches |
| DashboardCards.CategoriesCountRecords | Frontend/src/components/DashboardCards.jsx:17 | "Stock Categories" counts records, not distinct items |
| DashboardCards.BranchesLabel | Frontend/src/components/DashboardCards.jsx:13 | no records give the empty text, and a single branch is shown alone, without a separator |
| DashboardCards.EveryLocationShown | Frontend/src/components/DashboardCards.jsx:13 | every record's location appears in the joined branches text |
| UserManagement.Matches | Frontend/src/components/UserManagement.jsx:30-32 | a match needs a search no longer than the name; with an empty search a user matches exactly when the filter is "all" or their role |
| UserManagement.Filter | Frontend/src/components/UserManagement.jsx:29-33 | the view is never longer than the list |
| UserManagement.FilterAppend | Frontend/src/components/UserManagement.jsx:29-33 | the view of a concatenation is the concatenation of the views, so the original order is kept |
| UserManagement.FilterMembers | Frontend/src/components/UserManagement.jsx:29-33 | the view holds exactly the users whose lowercased name contains the lowercased search and whose role matches the filter or the filter is "all" |
| UserManagement.FilterShowsAll | Frontend/src/components/UserManagement.jsx:29-33 | an empty search with filter "all" shows every user, in order |
| UserManagement.ViewToFull | Frontend/src/components/UserManagement.jsx:112 | the position in the full list of the user shown in a given row |
| UserManagement.RemoveShownUserCorrect | Frontend/src/components/UserManagement.jsx:125 | removing the full-list entry of row k removes exactly row k from the view |
| UserManagement.RemoveRowUnderFilterAsWritten | Frontend/src/components/UserManagement.jsx:125 | with the initial users and filter "staff", row 0 shows Jane Smith, but splicing index 0 removes Admin User |
| UserManagement.UserPanel.constructor | Frontend/src/components/UserManagement.jsx:4-12 | three initial users, an empty form with role "staff", an empty search, filter "all" |
| UserManagement.UserPanel.Shown | Frontend/src/components/UserManagement.jsx:29-33 | the rows are never more than the users, and a user is shown exactly when listed and matching the search and the role filter |
| UserManagement.UserPanel.EditNewUser | Frontend/src/components/UserManagement.jsx:53-58 | the form holds the typed name and chosen role |
| UserManagement.UserPanel.SetSearch | Frontend/src/components/UserManagement.jsx:79 | the search box holds the typed text |
| UserManagement.UserPanel.SetFilterRole | Frontend/src/components/UserManagement.jsx:84 | the role filter holds the chosen role |
| UserManagement.UserPanel.HandleAddUser | Frontend/src/components/UserManagement.jsx:15-19 | a blank name changes nothing; otherwise the untrimmed user goes first, the form resets, and the view gains it at the top when it matches |
| UserManagement.UserPanel.HandleRemoveUser | Frontend/src/components/UserManagement.jsx:22-26 | the list is the old list with the entry at that full-list index spliced out, the rest in order |
| UserManagement.UserPanel.HandleRemoveShownUser | Frontend/src/components/UserManagement.jsx:125 | the user shown in the row is removed, and the view loses exactly that row |
| BarcodeScanner.ProductName | Frontend/src/components/BarcodeScanner.jsx:17 | "Product " followed by the last four characters of the code, or the whole code when shorter |
| BarcodeScanner.RowNumber | Frontend/src/components/BarcodeScanner.jsx:80 | every row's number lies between 1 and the history length, and the first row shows the history length |
| BarcodeScanner.RowNumbersRunDown | Frontend/src/components/BarcodeScanner.jsx:80 | rows are numbered from the history length down to 1, newest highest and all different |
| BarcodeScanner.ScanKeepsNumbers | Frontend/src/components/BarcodeScanner.jsx:80 | after a scan, the new entry takes the next number and older entries keep theirs |
| BarcodeScanner.Scanner.constructor | Frontend/src/components/BarcodeScanner.jsx:4-5 | an empty input and an empty history |
| BarcodeScanner.Scanner.SetBarcode | Frontend/src/components/BarcodeScanner.jsx:38 | the input holds the typed text |
| BarcodeScanner.Scanner.HandleScan | Frontend/src/components/BarcodeScanner.jsx:8-25 | a blank input changes nothing; otherwise exactly one entry goes first, holding the raw input, its product name and the time, older entries stay in order, and the input is cleared |
| BarcodeScanner.BlankInputExamples | Frontend/src/components/BarcodeScanner.jsx:9 | a whitespace-only input is blank, so it is refused; an input with a digit inside surrounding spaces is not |
| BarcodeScanner.ScanInputExamples | Frontend/src/components/BarcodeScanner.jsx:15-17 | an input with spaces around it is named after its last four characters, trailing space included; a two-character code is used whole |
| Js.Split | Backend/middleware/verifyToken.js:14 | splitting always gives at least one piece |
| Js.SplitPiecesAreFree | Backend/middleware/verifyToken.js:14 | no piece contains the separator |
| Js.SplitLength | Backend/middleware/verifyToken.js:14-15 | the number of pieces is one more than the number of separators |
| Js.JoinSplit | Backend/middleware/verifyToken.js:14 | joining the pieces with the separator gives back the string |
| Js.SplitTwo | Backend/middleware/verifyToken.js:14 | splitting on a character gives exactly two pieces a and b when the string is a, the separator, and b, neither containing it |
| Js.Trim | Frontend/src/components/UserManagement.jsx:16 | the result is the slice of the input left after cutting a run of leading white space and a run of trailing white space, and when non-empty it neither starts nor ends with white space |
| Js.Blank | Frontend/src/components/BarcodeScanner.jsx:9 | `!s.trim()` holds exactly when every character is ECMAScript white space or a line terminator |
| Js.BlankIff | Frontend/src/components/UserManagement.jsx:16 | a string trims to empty exactly when all its characters are white space |
| Js.SliceFrom | Frontend/src/components/BarcodeScanner.jsx:17 | `slice(start)` gives a suffix of the string, no longer than it |
| Js.SliceLast | Frontend/src/components/BarcodeScanner.jsx:17 | `slice(-n)` is the suffix of length n, or the whole string when shorter |
| Js.SpliceOne | Frontend/src/components/UserManagement.jsx:24 | a start at or past the end leaves the array as it was |
| Js.SpliceOneAt | Frontend/src/components/UserManagement.jsx:24 | splicing one element at an index inside the array removes exactly that element and keeps the others in order |
| Js.JoinShowsEach | Frontend/src/components/DashboardCards.jsx:13 | each joined piece occurs in the joined text |
| Collections.Sum | Frontend/src/components/DashboardCards.jsx:2 | an empty list sums to 0, a single element to itself, and non-negative elements to a non-negative sum |
| Collections.Distinct | Frontend/src/components/DashboardCards.jsx:3 | no value is listed twice, the result is no longer than the input, every listed value is from the input, and every input value is listed |
| Collections.DistinctMembers | Frontend/src/components/DashboardCards.jsx:3 | the deduplicated list has no repeats and the same members as its input |
| Collections.DistinctOrder | Frontend/src/components/DashboardCards.jsx:3 | the deduplicated list keeps the order of first occurrence |

## Left out

- **Not modelled at all:**
  - The federated (Google) login route, the server set-up, CORS, and the database connection.
  - The client's API wrapper and its 401 handler.
  - All rendering, navigation, alerts and logging (the `console.log` calls of `updateStock`).
  - Concurrent requests; requests run one at a time.
- **Libraries.** bcrypt and jsonwebtoken are parameters; their internals, the secret, and the token text format are outside the model.
- **Time.** The clock is a parameter (seconds for tokens, abstract readings for `createdAt`), and so is the scan timestamp string (`toLocaleTimeString`).
- **Library error messages.** The `err.message` text of a mongoose validation failure is abstracted as one constant message, and its status (500) is kept.
- **Listing order.** `getStocks` answers with the array `Stock.find` returns. The model answers with a map from id to record, so the array's order is not modelled.
- **Invalid ids.** A malformed `:id` makes mongoose throw a cast error and the handler answer 500. Ids here are natural numbers, so that path is not modelled.
- **The server-error catch blocks of the middleware** are not modelled. They could be reached only through a throwing `split` or `jwt.verify`, which the model does not have.
- **JavaScript numbers.** `Number()` coercion, NaN, floating point and string concatenation in `reduce` are not modelled; quantities are integers.
- **Quantity as a string.** The stock form sends `quantity` as a string (Frontend/src/components/StockForm.jsx:6, 24), so the string "0" is truthy and passes both `!quantity` (stockController.js:20) and `if (quantity)` (stockController.js:53). The model's `Option<int>` treats `Some(0)` as absent, so the 400 case of `StockController.AddStock` and `StockController.ZeroQuantityIgnored` describe a numeric 0 only.
- **Object keys in `branchData`.**
  - Integer-like branch keys come first in `Object.entries` in JavaScript. The model keeps plain insertion order; branch names are words.
  - The `{}` accumulator inherits `Object.prototype`. A branch named "constructor" or "toString" starts from a function value, so `(acc[branch] || 0) + q` concatenates strings. A branch named "__proto__" is swallowed by the prototype setter and never appears in `Object.entries`. The model treats every key as fresh.
- **Localization.** `toLowerCase` is modelled on ASCII letters only, and strings are sequences of characters rather than UTF-16 code units.
- **User timestamps** of the user schema (`timestamps: true`) are not stored.
- **Routes are the only entry to the handlers.** The handlers assume an attached identity, as the routes guarantee. A reached chain always has one (`StockRoutes.ChainOutcome`), so the `req.user` TypeError path is not modelled.
- Js.SpliceOne: the function's own contract states only that an index past the end leaves the array unchanged. Deletion inside the array is stated by `Js.SpliceOneAt`.
- Js.Split: the function's own contract states only that there is at least one piece. The pieces are described by `Js.SplitPiecesAreFree`, `Js.SplitLength`, `Js.JoinSplit` and `Js.SplitTwo`.
- Collections.Sum: the function's own contract states the empty, single and non-negative cases only. Additivity over concatenation is stated for the stock total by `DashboardCards.TotalStockAppend`.
- DashboardCards.TotalStock: the function's own contract states only the empty case. Its meaning is carried by the lemmas beside it.
- UserManagement.Filter: the function's own contract states only the length bound. Membership and order are stated by `FilterMembers` and `FilterAppend`.

## Findings

| source | as written | input that shows it | evidently intended | confidence | as-written member | corrected member |
|---|---|---|---|---|---|---|
| Frontend/src/components/UserManagement.jsx:125 | the remove button passes the row index of the filtered view to `handleRemoveUser`, which splices the full list at that index | the initial three users with role filter "staff": row 0 shows Jane Smith, and pressing its remove button deletes Admin User | remove the user shown in that row | not executed | UserManagement.RemoveRowUnderFilterAsWritten | UserManagement.UserPanel.HandleRemoveShownUser |
| Backend/routes/stockRoutes.js:14 | PUT runs the branch gate on the body's location, and `updateStock` refuses any location from a non-admin, so no non-admin update can succeed | a user of branch Chennai sends PUT with body { quantity: 5 } for a Chennai record: 403 from the gate; with { quantity: 5, location: "Chennai" } instead: 403 from the handler | a user of the record's branch may update its item name and quantity. Even with the branch gate gone, the stock form fills `location` from the record being edited and sends it on every update (Frontend/src/components/StockForm.jsx:13, 21), and `updateStock` refuses any location from a non-admin; so the corrected route answers 200 only for a body without a location | not executed | StockRoutes.NonAdminUpdateRefused | StockRoutes.IntendedUpdateRoute |
