# UC store backend: orders and settings handlers in Dafny

This project models the two database-backed serverless handlers of a storefront that sells
"UC", a mobile game's in-game currency:

- **Orders** (`backend/orders/index.py`). It answers the CORS preflight. Every other method
  first needs `DATABASE_URL`. A POST validates `player_id`, `uc_amount` and `price`, then
  inserts a `pending` order and returns 201. A GET lists orders, optionally for one player,
  newest first, with a default limit of 50 capped at 100. Any other method gets 405.
- **Settings** (`backend/settings/index.py`). It answers the preflight and rejects every
  method but GET with 405, before it looks at `DATABASE_URL`. A GET returns the single
  setting named by the stripped `key` parameter (or `{}` when the table lacks it), or every
  setting when `key` is missing or blank.

Layout, one module per file:

| file | module | what it holds |
|---|---|---|
| `text.dfy` | `Text` | Python's `str.strip()` and `str.isdigit()` on ASCII, with the lemmas about strip |
| `http.dfy` | `Http` | optional request fields, the `GET` default method, the database-URL guard, shared status codes and messages |
| `order_validation.dfy` | `OrderValidation` | the three ordered POST rules and what they accept |
| `order_listing.dfy` | `OrderListing` | the `orders` row, and the GET query: player filter, `ORDER BY created_at DESC`, `LIMIT` |
| `orders_handler.dfy` | `OrdersHandler` | the dispatch function `Route` and the `OrderTable` class (insert, list, one handler call) |
| `settings_handler.dfy` | `SettingsHandler` | the settings handler as a function over a `map<string, string>` |

The orders handler's dispatch and validation are a chain of early returns, so they are the
pure function `Route`. The table that a POST inserts into is the `rows` field of an
`OrderTable` object, and `Insert` appends to it. The GET path is `OrderTable.List`, which
copies the selected rows into the response list in a loop, as the source does. The settings
handler changes nothing, so it is a function of the request, the database URL and the table.

The two handlers check things in a different order, and the models keep that difference.
For a method the orders endpoint does not support, a missing `DATABASE_URL` gives 500
(`OrdersHandler.Route`). The settings endpoint gives 405 whether or not the URL is set
(`SettingsHandler.Handle`).

One server rule rejects an empty or non-digit id, with "Invalid player_id"
(backend/orders/index.py:46-52); a separate rule then checks its length.

## Model

| member | source | states |
|---|---|---|
| `OrderValidation.ValidateOrder` | backend/orders/index.py:40-68 | the stripped id must be non-empty and all digits, then 8-12 long, then both amounts must be positive; each failing rule yields its own message and only when every earlier rule passed; an accepted draft holds the stripped id and the amounts as sent, with missing fields read as `''` or `0` |
| `OrderValidation.AcceptedDraftRevalidates` | backend/orders/index.py:46-88 | a draft that meets every rule, such as the one a 201 echoes, is accepted unchanged when sent back as a POST body |
| `OrderValidation.PaddedIdSameVerdict` | backend/orders/index.py:41 | whitespace around `player_id` never changes the verdict |
| `OrderValidation.BlankIdRejected` | backend/orders/index.py:46-52 | a missing or whitespace-only id fails rule 1, whatever the amounts |
| `OrderValidation.BonusNeverChecked` | backend/orders/index.py:62-68 | changing `bonus_uc` never changes a rejection, and changes only the bonus of an accepted draft |
| `OrderListing.EffectiveLimit` | backend/orders/index.py:98 | the limit is 50 when missing, otherwise the requested value capped at 100 |
| `OrderListing.Matching` | backend/orders/index.py:102-107 | the filtered rows are exactly the table rows with that player id, each kept as often as it occurs in the table |
| `OrderListing.Newest` | backend/orders/index.py:103-113 | the sorted rows are newest first and a permutation of the input |
| `OrderListing.Select` | backend/orders/index.py:96-113 | a GET returns exactly `min(limit, candidates)` rows, newest first, each occurring no more often than among the candidates, all from the table, and only the requested player's rows when `player_id` is non-empty |
| `OrderListing.SelectKeepsNewest` | backend/orders/index.py:103-113 | a candidate row left out by the limit is no newer than any row returned |
| `OrderListing.SelectComplete` | backend/orders/index.py:102-113 | with a limit at least the number of candidates, a GET returns all of them |
| `OrdersHandler.Route` | backend/orders/index.py:12-143 | OPTIONS gets 200 and the preflight allowing `GET, POST, OPTIONS` without reading the database URL; any other method without the URL gets 500; an order is created exactly for a valid POST; an invalid POST gets 400 with its first failing rule's message; GET reads with the stripped player and capped limit; any other method gets 405 |
| `OrdersHandler.ReplyStatuses` | backend/orders/index.py:14-68 | every answer given without reading or writing the table is a 200 preflight or a 400, 405 or 500 error, and 400 happens only for a POST with the URL configured |
| `OrdersHandler.OrderTable.Insert` | backend/orders/index.py:70-78 | appends exactly one `pending` row carrying the draft, the next id and the timestamp; that id belongs to no earlier row; the id counter advances by one; the ids keep increasing |
| `OrdersHandler.OrderTable.List` | backend/orders/index.py:100-133 | the list the loop builds is exactly the query result `OrderListing.Select` (so newest first, at most `limit` rows, filtered by player), and `count` is its length |
| `OrdersHandler.OrderTable.Handle` | backend/orders/index.py:36-146 | a reply leaves the table unchanged; a valid POST appends one row, advances the id counter by one and returns 201 echoing it; a GET returns 200 with the listing and leaves the table unchanged |
| `OrdersHandler.CreatedOrderListed` | backend/orders/index.py:70-113 | a newly created order shows up in a GET for its player whose limit covers that player's orders |
| `OrdersHandler.LatestOrderFirst` | backend/orders/index.py:102-111 | an order stamped later than every other row comes first in any GET that can include it |
| `SettingsHandler.Lookup` | backend/settings/index.py:49-65 | every returned entry is a table entry; an empty key returns every key, a non-empty key returns that key only if the table has it |
| `SettingsHandler.Handle` | backend/settings/index.py:12-72 | OPTIONS gets 200 and the preflight allowing `GET, OPTIONS`; any other non-GET method gets 405 whether or not the URL is set; a GET without the URL gets 500; otherwise the lookup result with 200 |
| `SettingsHandler.BlankKeyReturnsAll` | backend/settings/index.py:48-65 | a GET with no query, no `key` parameter or a whitespace-only `key`, whatever other parameters it carries, returns the whole table |
| `SettingsHandler.KeyParam` | backend/settings/index.py:48-49 | the key has no surrounding whitespace; it is empty exactly when the query or its `key` is missing or `key` is blank, and otherwise it is the stripped `key` |
| `SettingsHandler.KnownKeyReturnsEntry` | backend/settings/index.py:51-59 | a non-empty key in the table returns exactly the one-entry map |
| `SettingsHandler.UnknownKeyReturnsNothing` | backend/settings/index.py:58-72 | a non-empty key absent from the table returns `{}`, still with 200 |
| `SettingsHandler.LookupIsRestriction` | backend/settings/index.py:51-65 | a single-key lookup is the all-settings lookup with every other key removed |
| `SettingsHandler.SingleKeyAgreesWithAll` | backend/settings/index.py:48-72 | the single-key GET answer is the all-settings GET answer cut down to that key |
| `Text.Strip` | backend/orders/index.py:41 | the result has no whitespace at either end and is no longer than the input |
| `Text.IsDigits` | backend/orders/index.py:46 | a digit string is never blank and has no whitespace at either end, so it passes the emptiness test and strip leaves it alone |
| `Text.StripDigits` | backend/orders/index.py:41-46 | strip returns a digit string unchanged |
| `Http.RequestMethod` | backend/orders/index.py:12 | a request without `httpMethod` is a GET; otherwise its method is used as sent |
| `Http.DsnConfigured` | backend/orders/index.py:27-28 | the database URL counts as missing exactly when it is unset or empty |
| `Text.StripSplit` | backend/orders/index.py:41 | a string is its stripped core with only whitespace on either side |
| `Text.StripSurrounded` | backend/settings/index.py:49 | strip of an unpadded core surrounded by whitespace is exactly that core |
| `Text.StripIdempotent` | backend/orders/index.py:97 | stripping twice is stripping once |
| `Text.StripIgnoresPadding` | backend/settings/index.py:49 | added whitespace around a string never changes what strip returns |
| `Text.StripEmptyIffBlank` | backend/orders/index.py:102 | strip returns `''` exactly on whitespace-only input |

## Left out

- JSON parsing and serialisation are not modelled. A request is an already-parsed record with `Option` for missing keys, and a response is a status and a body datatype. The CORS headers other than `Access-Control-Allow-Methods`, and `isBase64Encoded`, are not modelled.
- psycopg2 is replaced by the in-memory table: connection, cursor, commit and close. Database failures, such as a refused connection or a failed INSERT, are not modelled.
- `created_at` is the `now` parameter of `OrderTable.Handle`, because the database clock is outside the model. It is an opaque ordered integer, so `isoformat()` and a NULL timestamp are not modelled.
- `OrderListing.Newest`: SQL returns rows with equal `created_at` in no particular order. The model fixes one order (table order), and no lemma depends on it.
- Amounts are JSON integers only. A fractional or boolean `uc_amount` or `price`, which Python compares with 0 without raising, is not modelled; a null one raises and falls under the next line. `bonus_uc` is never checked, so a null, string or fractional `bonus_uc` reaches the INSERT and the 201 echo in the source; the model admits only an integer.
- Uncaught Python exceptions are excluded by the types, because the source does not specify them. These cover malformed JSON, a non-string `player_id`, non-numeric amounts, and a non-integer or negative `limit`. So `limit` is an `Option<nat>`.
- An `httpMethod` that is present but null is not modelled. `httpMethod` is an `Option<string>`, and a missing one is read as GET.
- `str.strip()` and `str.isdigit()` are modelled on ASCII only. Python also strips Unicode spaces such as U+00A0, and `isdigit()` also accepts other Unicode digits such as '²'.
- The id sequence is a plain counter. Gaps left by rolled-back inserts and concurrent writers are not modelled, because the model treats each handler call as atomic.
- `src/pages/Index.tsx` is left out. It is presentational markup over static catalog arrays, with no order logic.
- `backend/payment/index.py` is left out. It is a network client for a payment provider: a remote HTTP call, a random idempotence key and float formatting.
