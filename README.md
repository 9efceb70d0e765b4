# Personal finance tracker: sessions, authentication, configuration and transactions

This project models the sequential core of a personal finance tracker's
back end, a Node/Express service over a SQL store, and proves properties of
the model. It covers five pieces.

- **The multi-device session table** (`controller/auth.Controller.js`).
  - `login` checks the credentials and resolves a device id.
  - It then finds or creates the one active session of (user, device) and refreshes it in place.
  - `logout` deactivates the session holding a token.
  - `logoutAll` deactivates every active session of a user.
  - `getActiveSessions` lists a user's active sessions, newest activity first.
  - The table is a class `SessionStore` over a sequence of rows. Its invariant says three things:
    - at most one active session per (user, device);
    - tokens are unique;
    - ids are 1, 2, 3, … in insertion order (a modelling choice that keeps ids unique; see below).
  - Every writing handler keeps the invariant.
- **The authentication gate** (`middleware/auth.js`).
  - `authenticate` takes the token from the `Authorization` header and classifies the token verifier's outcome.
  - It looks up the active session by (token, user id), then the user.
  - On success it touches that session's `lastActivity` and nothing else.
  - `optionalAuth` never rejects. It attaches the user exactly when `authenticate` would accept.
- **The configuration upsert** (`controller/configuration.Controller.js`).
  - The first write applies the creation defaults.
  - Later writes overwrite exactly the fields the request supplies.
  - `isConfigured` never goes from true to false.
- **Transactions** (`controller/transactions.Controller.js`).
  - The summary fold computes the per-type totals and the first EMI-paying row.
  - The month/year filter of the listing.
  - Creation derives the month and year from the date.
  - The allow-listed partial update recomputes month and year when the date changes.
- **Header helpers** (`utils/ipHelper.js`).
  - The client address chain through X-Forwarded-For, X-Real-IP and CF-Connecting-IP.
  - The user-agent classification.

JavaScript's string operations (`startsWith`, `indexOf`, `includes`, `replace`,
`split(",")[0]`, `trim`, `parseInt(s, 10)`) and its truthiness and `||` are
modelled in `strings.dfy` and `js.dfy`. Password hashing, token signing and
verification, id generation and date parsing are parameters (oracles). The
clock is an integer parameter `now`.

Three behaviours of the code the model keeps:

- The gate looks up the session by the token together with the token's user
  id. It does not use the device id.
- The schema has no uniqueness constraint on (user, device, active). Only
  `token` is unique (`models/userSessions.js:75-78`). The one-active-session
  invariant is therefore proved of the handlers run one after another. It is
  not enforced by the store.
- `logout` runs on a public route (`routes/auth.routes.js:9`). It reads its
  token with `header.replace("Bearer ", "")`, which removes the first
  "Bearer " wherever it occurs, not only a leading one.

## Model

| member | source | states |
|---|---|---|
| `IpHelper.GetClientIp` | utils/ipHelper.js:5-27 | A non-empty X-Forwarded-For gives a trimmed, comma-free piece of that header. Otherwise X-Real-IP wins, then CF-Connecting-IP. With none of those, the connection's address wins, then the socket's, then `req.ip`, each when present. Without X-Forwarded-For the result is never empty. With every source absent it is "unknown". |
| `IpHelper.FirstForwarded` | utils/ipHelper.js:13 | The first comma-separated entry, trimmed, is a piece of the header with no comma and no white space at either end. |
| `IpHelper.ForwardedFirstEntry` | utils/ipHelper.js:11-14 | For a header of padding, entry, padding, then nothing or a comma and the rest, the address is exactly the entry, whatever the other headers say. |
| `IpHelper.GetDeviceInfo` | utils/ipHelper.js:31-57 | The user agent is echoed, "" when absent. The platform is mobile iff the UA contains "Mobile", tablet iff it contains "Tablet" but not "Mobile", else desktop. The browser is Chrome iff the UA contains "Chrome"; Firefox iff it contains "Firefox" but not "Chrome"; Safari iff it contains "Safari" and neither earlier name; Edge iff it contains "Edge" and none of the three earlier names; unknown iff it contains none of the four. |
| `Strings.TrimRemovesPadding` | utils/ipHelper.js:13 | `trim` removes exactly the white-space padding around a trimmed core. |
| `Strings.ParseIntDecimal` | controller/transactions.Controller.js:54 | `parseInt(s, 10)` reads back any decimal numeral, whatever non-digit follows it. |
| `Sessions.CheckCredentials` | controller/auth.Controller.js:35-75 | Validation failure comes first. "Invalid credentials" holds iff the email is unknown or the password does not match, with the same answer for both. "Email not verified", carrying the email, holds iff the password matches an unverified account. Success only for a verified account whose password matches. |
| `Sessions.FindUser` | controller/auth.Controller.js:45-47 | The user the key (email at login, id in the gate) identifies, or none when no user matches. |
| `Sessions.DeviceIdFor` | controller/auth.Controller.js:80 | The supplied device id when it is present and non-empty, otherwise the generated one. |
| `Sessions.FindOne` | controller/auth.Controller.js:174-179 | The index of the first row the `where` clause selects, or none when no row is selected. |
| `Sessions.FilterWhere` | controller/auth.Controller.js:265-269 | Exactly the selected rows, as many as `CountWhere` counts. |
| `Sessions.AtMostOneActivePerDevice` | controller/auth.Controller.js:94-99 | Under the invariant, a (user, device) has at most one active row, so find-or-create has at most one row to find. |
| `Sessions.LoginRows` | controller/auth.Controller.js:94-123 | An existing active row of the device is refreshed in place: same length, same id, only that row changes. Otherwise a row with the next id is appended. The write fails iff another row already holds the new token. |
| `Sessions.LoginKeepsWellFormed` | controller/auth.Controller.js:94-123 | Login keeps one active session per device, unique tokens and sequential ids. |
| `Sessions.LoginLeavesOneActive` | controller/auth.Controller.js:94-123 | After login the device has exactly one active session, and it holds the new token. |
| `Sessions.LogoutRows` | controller/auth.Controller.js:174-192 | No active row with the token means no change. Otherwise only the first such row becomes inactive with `loggedOutAt` set, and every other row is unchanged. |
| `Sessions.LogoutRevokes` | controller/auth.Controller.js:189-192 | After logout no active row holds the token, and the invariant still holds. |
| `Sessions.DeactivateAll` | controller/auth.Controller.js:212-223 | The bulk update changes each row by itself, and the length is kept. |
| `Sessions.DeactivateAllClears` | controller/auth.Controller.js:212-223 | The user has no active session left. Other users' rows are untouched. The invariant holds. |
| `AuthController.LoginStatus` | controller/auth.Controller.js:36-75 | Each code is an iff: 400 for a failed validation, 401 for invalid credentials, 403 for an unverified account, 500 for an internal failure, 200 for a successful login. |
| `AuthController.LogoutStatus` | controller/auth.Controller.js:166-192 | Each code is an iff: 400 when no token is provided, 404 when no active session holds it, 200 after the logout. |
| `AuthController.LogoutToken` | controller/auth.Controller.js:164 | A truthy request token wins. No header gives no token. A header holding "Bearer " anywhere loses its first occurrence, and only that one; a header starting with "Bearer " therefore gives the rest. A header without "Bearer " is taken whole. |
| `AuthController.SessionStore.Lookup` | controller/auth.Controller.js:174-179 | The search loop finds the same row as `FindOne`. |
| `AuthController.SessionStore.Login` | controller/auth.Controller.js:32-156 | Rejections follow `CheckCredentials` and leave the table unchanged. A unique-token clash fails internally with no change. A success answers the signed token for {user id, email, device id}, the user's id, name and email, the device id, the client address and a `lastActivity` equal to the current time. The new table is `LoginRows` of the old one, and the answered session id is an active row of the device holding that token, with that `lastActivity`. The invariant is kept. |
| `AuthController.SessionStore.Logout` | controller/auth.Controller.js:161-201 | 400 iff no token can be read. 404 iff no active session holds it. 404 and 400 leave the table unchanged. Otherwise the table becomes `LogoutRows` and the answer carries the logout time. The invariant is kept. |
| `AuthController.SessionStore.LogoutAll` | controller/auth.Controller.js:206-232 | The loop leaves `DeactivateAll` of the old table. It returns the number of rows that were active for the user, possibly 0. The invariant is kept. |
| `AuthController.SessionStore.GetActiveSessions` | controller/auth.Controller.js:261-281 | The list holds exactly the views (without token) of the user's active rows. `count` equals the list length and the number of such rows. The list is ordered by `lastActivity` descending. |
| `AuthController.SessionStore.Touch` | middleware/auth.js:64-66 | Only the matched row's `lastActivity` changes, and the invariant is kept. |
| `AuthMiddleware.ExtractToken` | middleware/auth.js:21-23 | A header starting with "Bearer " is "Bearer " followed by the token. Any other header is the token itself. |
| `AuthMiddleware.ExtractBearer` | middleware/auth.js:21-23 | "Bearer " + t gives back t. |
| `AuthMiddleware.LogoutReadsSameToken` | controller/auth.Controller.js:164 | For a header starting with "Bearer ", logout and the gate read the same token. |
| `AuthMiddleware.FailureStatus` | middleware/auth.js:75-92 | Every rejection is 401 except the unclassified verification error, which is 500. |
| `AuthMiddleware.FailureName` | middleware/auth.js:13-92 | The `error` field of each rejection, each an iff: "Authentication required" for a missing header or token, then "Invalid session", "User not found", "Invalid token", "Token expired" and "Authentication error" for their own failure alone. |
| `AuthMiddleware.VerifyFailure` | middleware/auth.js:75-92 | A malformed token gives "Invalid token" and an expired one gives "Token expired", each iff. Any other verification error gives "Authentication error". |
| `AuthMiddleware.AuthDecision` | middleware/auth.js:8-94 | Each iff holds: missing or empty header gives "Authentication required"; empty token gives "No token provided"; a verification failure gives exactly the failure `VerifyFailure` assigns to that error (malformed gives "Invalid token", expired gives "Token expired", any other gives "Authentication error"); no active session with this token and the token's user id gives "Invalid session"; session found but user missing gives "User not found". Acceptance carries the token, an active row holding it for the claimed user, and that user's profile without the password. |
| `AuthMiddleware.Authenticate` | middleware/auth.js:8-94 | The answer is `AuthDecision` on the table as it was. A rejection changes nothing. An acceptance changes only the matched row's `lastActivity`. The invariant is kept. |
| `AuthMiddleware.OptionalAuth` | middleware/auth.js:99-141 | Never rejects and only reads the table. It attaches user, session and token iff `authenticate` would accept, and then exactly what it would attach. |
| `AuthMiddleware.LoggedOutTokenRejected` | middleware/auth.js:36-49 | A token that still verifies but was logged out is refused as an invalid session. |
| `AuthMiddleware.ReloginRevokesPreviousToken` | middleware/auth.js:36-49 | After a second login on a device, that device's previous token is refused as an invalid session. |
| `AuthMiddleware.LoginTokenAccepted` | middleware/auth.js:33-71 | The token a login hands out is accepted when it verifies to the user's id and the user exists, and the gate finds the login's row. |
| `AuthMiddleware.ReloginThenLogout` | middleware/auth.js:36-49 | Two logins on one device, then a logout. After the second login the first token is refused. The second token can be logged out, and is refused afterwards. |
| `Configuration.RequestConfigured` | controller/configuration.Controller.js:98 | True iff `income` or `totalEmi` is truthy. Zero, null, "" and absent do not count. |
| `Configuration.Created` | controller/configuration.Controller.js:101-111 | Each truthy field is kept. Otherwise `totalEmi`, `emiSchedule` and `income` become null and `numberOfLoans` becomes 0. `isConfigured` is the request's verdict. |
| `Configuration.Merged` | controller/configuration.Controller.js:114-126 | An undefined field keeps the stored value. Any supplied value, 0 and null included, replaces it. `isConfigured` is the request's verdict or the stored one. |
| `Configuration.Upsert` | controller/configuration.Controller.js:100-126 | The row written is `Created` when there was none and `Merged` with the stored one otherwise; it belongs to the user and passes the `numberOfLoans` validation. The write is refused iff the row it would write fails that validation. A stored true `isConfigured` stays true. |
| `Configuration.RepeatAfterCreate` | controller/configuration.Controller.js:101-126 | Repeating the creating request leaves the row unchanged iff every field is absent, truthy or already its default. |
| `Configuration.RepeatAfterUpdate` | controller/configuration.Controller.js:114-126 | On an existing row, repeating an accepted request changes nothing. |
| `Configuration.UpsertStatus` | controller/configuration.Controller.js:86-128 | 201 iff the row was created, 200 iff it was updated, 400 iff the body was invalid or the store refused the row. |
| `Configuration.ConfigurationStore.CreateOrUpdate` | controller/configuration.Controller.js:82-138 | 400 for an invalid body, and a refused write, both change nothing. Otherwise the user's row becomes `Upsert` of the stored one, and `created` holds iff there was none. A configured user stays configured. |
| `Configuration.ConfigurationStore.GetConfiguration` | controller/configuration.Controller.js:35-57 | Absent row gives null and false. Otherwise the row and its flag. |
| `Configuration.ConfigurationStore.ConfigurationStatus` | controller/configuration.Controller.js:62-77 | The stored flag, false when there is no row. |
| `Transactions.ParseFloatSafe` | controller/transactions.Controller.js:4-7 | A finite parsed amount is itself; NaN or an infinity reads as 0. |
| `Transactions.TotalOfStoredNonNegative` | controller/transactions.Controller.js:4-17 | Summed through `parseFloatSafe`, the amounts of rows the table accepts (finite, at least 0) give a total of at least 0 for each type. |
| `Transactions.BuildSummary` | controller/transactions.Controller.js:9-33 | `incomeTotal` and `expenseTotal` are the sums of `parseFloatSafe(amount)` over INCOME and EXPENSE rows, so other types count in neither. `emiPaid` holds iff some row has `paidEmi`. With positive ids, the id is the first such row's. The empty list gives 0, 0, false, null. |
| `Transactions.FirstPaid` | controller/transactions.Controller.js:19-22 | The index of the first row with `paidEmi`, or none when there is no such row. |
| `Transactions.DateKeyOrdersDates` | controller/transactions.Controller.js:62-65 | On valid dates the sort key is smaller iff the date is earlier by year, month and day, and equal iff the dates are equal, so ordering by the key orders by `transactionDate`. |
| `Transactions.FirstPaidIsLatest` | controller/transactions.Controller.js:60-66 | In the listing's order, the first `paidEmi` row ranks at least as high as every other `paidEmi` row, and (through `DateKeyOrdersDates`) no other `paidEmi` row with a valid date is later in the calendar, so it is the most recent. |
| `Transactions.BuildWhere` | controller/transactions.Controller.js:52-58 | The month and year filters are present iff their query parameters are truthy, with the value `parseInt` gives. A present parameter that does not parse makes the query fail. |
| `Transactions.FilterByNumerals` | controller/transactions.Controller.js:52-58 | Query parameters written as decimal numerals filter by exactly those numbers. |
| `Transactions.MatchingRows` | controller/transactions.Controller.js:60-66 | Exactly the rows the `where` clause matches: each matching row as many times as the table holds it, and no other row. |
| `Transactions.ListedAreStored` | controller/transactions.Controller.js:60-68 | Any reordering of the matching rows holds exactly the matching rows, and over the store's table only valid rows with positive ids, which the summary relies on. |
| `Transactions.PeriodOf` | controller/transactions.Controller.js:73-76 | The period's month is present iff the filter has a month other than 0, and is then that month; the same for the year. |
| `Transactions.ListStatus` | controller/transactions.Controller.js:70-83 | 500 iff the query failed, 200 iff it listed. |
| `Transactions.TextOf` | models/userTransactions.js:32-39 | A `STRING` column refuses exactly an array or an object, and stores any other value as given. |
| `Transactions.NewTxn` | controller/transactions.Controller.js:111-125 | The store refuses iff the type or the amount is not one it takes, or the category, description or loan reference is an array or an object. Otherwise the stored type and amount are the request's, read by their columns; month is the UTC month + 1, in 1..12, and year is the UTC year. Falsy category, description and loan reference become null. `paidEmi` is the truthiness of the supplied value, false when absent. The row satisfies the column constraints. |
| `Transactions.CreateStatus` | controller/transactions.Controller.js:88-136 | 400 iff the body or the date is invalid, 500 iff the store refused, 201 iff the row was recorded. |
| `Transactions.CollectUpdates` | controller/transactions.Controller.js:159-174 | The loop keeps exactly the allow-listed fields whose body value is not undefined, with those values. |
| `Transactions.RequestedUpdates` | controller/transactions.Controller.js:159-174 | The same updates object as a value: the allowed, defined fields and their values. |
| `Transactions.ApplyUpdates` | controller/transactions.Controller.js:176-189 | The update is refused iff a supplied date is falsy or a supplied type, amount, text field or flag is one its column does not take. Otherwise id, owner and creation time never change; every field not supplied is unchanged; a supplied type, amount or flag becomes its column's reading of the value, and a supplied text field is stored as given. Month and year follow the date iff a truthy date was supplied. A valid row stays valid. |
| `Transactions.TransactionStore.GetTransactions` | controller/transactions.Controller.js:47-84 | Fails iff a filter does not parse. Otherwise the list is a permutation of the matching rows, ordered by date then creation time descending. The totals are the per-type sums over the list, and at least 0; `emiPaid` holds iff a listed row has `paidEmi`; the EMI id is that of the first such row in the list, which `FirstPaidIsLatest` shows is the most recent. The period is the filter with 0 read as null. |
| `Transactions.TransactionStore.CreateTransaction` | controller/transactions.Controller.js:86-137 | 400 for an invalid body, 400 iff the date does not parse, and 500 when the store refuses. None of these changes the table. Otherwise the `NewTxn` row with the next id is appended. |
| `Transactions.TransactionStore.FindOwned` | controller/transactions.Controller.js:148-150 | The caller's row with that id, or none when the caller owns no such row. |
| `Transactions.TransactionStore.UpdateTransaction` | controller/transactions.Controller.js:139-201 | 400 iff the body is invalid. 404 iff the caller owns no row with that id. 400 iff a truthy date does not parse. 500 iff the owned row exists, the date parsed, and the store refuses the collected updates. No failure changes the table. Otherwise only that row changes, to `ApplyUpdates` of the collected updates. |
| `Transactions.UpdateStatus` | controller/transactions.Controller.js:141-200 | 400 iff the body or the date is invalid, 404 iff the row is not found, 500 iff the store refused, 200 iff the row was updated. |
| `Ordering.SortDesc` | controller/transactions.Controller.js:62-65 | The result is a permutation of the input, sorted by the rank descending. |

## Left out

- The login notification email (`controller/auth.Controller.js:126-136`) is fire-and-forget with errors swallowed, so it is not modelled.
- Password hashing, token signing and verification, and device id generation are oracles. The model does not check expiry itself; it only classifies the verifier's outcome.
- The request validation chains are reduced to a single `bodyValid` flag.
- Dates and times: the clock is an integer, `new Date(v)` is a parser oracle, and `toLocaleString` is not modelled. The date oracle is only assumed to reject `undefined` and to return dates with a month index 0..11 and a day 1..31; it may return 31 February.
- Amounts are exact reals. Floating-point rounding, the DECIMAL(15,2) scale and `parseFloat`'s grammar are not modelled; a stored amount is read as finite or not finite.
- Sequelize's conversions of mismatched JSON types are not modelled. A string amount, a numeric or string `paidEmi` in an update, and a type other than the two enum strings are modelled as refused by the store. An array or an object in a `STRING` column is refused, as the store's schema check does. The configuration's `totalEmi`, `income` (DECIMAL) and `numberOfLoans` (INTEGER) columns store any JSON value in the model: the database's refusal of a value those types cannot hold (a string of letters, an array) is not modelled, and only the `numberOfLoans` null and minimum checks are.
- Session and transaction ids are 1, 2, 3, … in insertion order in the model. The store's auto-increment sequence can skip a value when an insert is refused after the sequence was drawn (for example the unique-token clash in `login`), so real ids can have gaps. The model uses the numbering only to keep ids unique and positive.
- `Sessions.DeviceIdFor` uses the device id as received. The login validation chain trims `deviceId` before `login` reads it (`middleware/validation.js:62-66`); that sanitiser is not modelled, so a padded device id is not trimmed.
- Column length limits are not modelled. A non-numeric transaction id in the URL is not modelled either: the id is a natural number.
- A NaN filter value in `getTransactions` is modelled as a failing query (500).
- Concurrency is not modelled: two racing find-or-create calls, and the 409 "Duplicate entry" path of the configuration handler, which needs a race to happen.
- Development-mode error details in the error handlers are not modelled.
- `getSession`, `verify`, the user controller, the routes, the model registrations and the configuration's `loans` column are not part of this model.
- `AuthController.SessionStore.GetActiveSessions` states membership, count and order, but not that each session appears only once; rows with equal `lastActivity` keep table order.
- `Transactions.BuildSummary` states the EMI transaction id only for lists whose ids are all positive; the store assigns ids from 1.
