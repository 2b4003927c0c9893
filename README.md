# BnB booking management: verified model of the booking admission path and its guards

This project models, in Dafny, the decision logic of a small property-rental application: a REST API
(built on Hono over a managed Postgres/auth service) and the Next.js pages that call it.

- **Bookings API** (`backend/src/routes/bookings.ts`): the price of a stay (started days × nightly
  rate), the admission of a new booking (date range check, past check-in check, property lookup,
  availability, half-open overlap against every booking of the property, price, insert), the update
  handler that recomputes the price when a date is sent, and the caller-scoped read and delete.
- **Properties API** (`backend/src/routes/properties.ts`): the public, admin and own-property
  listings (newest first), lookup, create with the caller stamped as owner, and update/delete behind
  the not-found / owner-or-admin guard with a field-by-field merge.
- **Middleware** (`backend/src/middleware/auth.ts`): bearer-token extraction by first-occurrence
  replacement, the four outcomes of `authMiddleware`, and `adminMiddleware`.
- **CORS** (`backend/src/index.ts`): the origin allowlist callback.
- **Pages**: the browse page's search/price filter, the bookings page's night count and cancel
  handler, and the properties page's delete handler.

The database is a `Db.Database` object holding the users, properties and bookings tables as maps
from id to row; the route handlers are methods that update it in place, each proved against a pure
function (`Bookings.Admit`, `Bookings.Amend`, `Properties.Authorize`, `Properties.Merge`) whose
properties are stated and proved separately. Instants are integers in milliseconds, and "now" is a
parameter. Money is an integer in minor units. Token verification by the identity provider is an
oracle: a map from each accepted token to its user id. The confirm dialog and the API call of the
pages are inputs of the handlers.

Behaviours of the code that the model keeps as written:

- A conflicting booking is refused with status 400, not a separate conflict status
  (bookings.ts:165-170).
- The overlap scan covers every booking of the property, whatever its holder or state; there is
  no status filter (bookings.ts:137-140, `Bookings.Conflicts`).
- The past check compares instants, not calendar dates (bookings.ts:113).
- A negative stored rate gives a negative price: the price is the day count times whatever rate
  is stored (bookings.ts:9-19).
- POST answers 201 with the inserted row (bookings.ts:182-217).
- Updating a booking re-checks neither the date order nor overlaps
  (`Bookings.AmendSkipsRangeCheck`, `Bookings.AmendSkipsOverlapCheck`). When the body changes
  `property_id` together with a date, the price is computed with the rate of the property the
  booking was on before the update (bookings.ts:253-267).
- The browse page reads `pricepernight`, the field name of the API's rows, although the page's
  own type declares `pricePerNight`; the model filters on the row's nightly rate.
- The bookings page reads camel-case fields the API's rows do not carry: it passes
  `checkInDate`/`checkOutDate` to `calculateNights` (bookings/page.tsx:141-143) and shows
  `totalPrice` (:138) and `properties.pricePerNight` (:181), while the rows hold `checkindate`,
  `checkoutdate`, `totalprice` and `pricepernight` (bookings.ts:182-190) and the client hands them
  on unchanged (lib/api.ts:109-112). As written, the night count is computed from absent dates
  (NaN). `BookingsPage.CalculateNights` models the function on the instants the rows do hold.

## Model

| member | source | states |
|---|---|---|
| Bookings.DaysBetween | backend/src/routes/bookings.ts:14-17 | the day count is the ceiling of the millisecond difference over 86 400 000: `MsPerDay*(days-1) < checkOut-checkIn <= MsPerDay*days` |
| Bookings.WholeDays | backend/src/routes/bookings.ts:14-17 | a stay of exactly k whole days counts k days |
| Bookings.CalculateTotalPrice | backend/src/routes/bookings.ts:9-19 | the price is the started-day count of `DaysBetween` times the rate; its properties are `PriceCoversOneNight` and `PriceOfWholeDays` |
| Bookings.PriceCoversOneNight | backend/src/routes/bookings.ts:9-19 | when check-out is after check-in and the rate is not negative, the price is at least one night's rate |
| Bookings.PriceOfWholeDays | backend/src/routes/bookings.ts:9-19 | a stay of k whole days costs k times the nightly rate |
| Bookings.Overlaps | backend/src/routes/bookings.ts:162 | the half-open overlap test `newIn < exOut && newOut > exIn`; characterised by `OverlapsSymmetric`, `BackToBackStaysDoNotOverlap` and `OverlapsIffSharedInstant` |
| Bookings.OverlapsSymmetric | backend/src/routes/bookings.ts:157-163 | the overlap test gives the same answer with the two stays swapped |
| Bookings.BackToBackStaysDoNotOverlap | backend/src/routes/bookings.ts:162 | a check-in on another stay's check-out instant (or the reverse) is not an overlap |
| Bookings.OverlapsIffSharedInstant | backend/src/routes/bookings.ts:162 | for non-empty stays, `newIn < exOut && newOut > exIn` holds exactly when the half-open stays share an instant |
| Bookings.HasOverlap | backend/src/routes/bookings.ts:157-163 | the `.some` scan is true exactly when some listed booking overlaps the requested stay |
| Bookings.ExistingBookings | backend/src/routes/bookings.ts:137-140 | the fetched list holds exactly the bookings of the property, with no other filter |
| Bookings.HasOverlapIffConflicts | backend/src/routes/bookings.ts:137-170 | the scan over the fetched list finds a clash exactly when the bookings table holds an overlapping booking of the property |
| Bookings.Admit | backend/src/routes/bookings.ts:103-190 | check-in at or after check-out gives 400 before anything else; check-in before now gives 400 only after the range passed; a missing property gives 404 and an unavailable one 400, both before the overlap check; any overlapping booking of the property gives 400; otherwise 201 with a row holding the caller, the requested dates and `CalculateTotalPrice` of them at the property's rate |
| Bookings.AdmissionScenario | backend/src/routes/bookings.ts:103-190 | with one booking from day 1 to day 5 at 50 a night, a day 5 to day 8 stay is admitted at 150 and a day 4 to day 6 stay is refused with 400 |
| Bookings.CreateBooking | backend/src/routes/bookings.ts:95-217 | the handler's reply is `Admit` of the old tables; on success exactly the new row is added under a fresh id, otherwise no table changes |
| Bookings.MyBookings | backend/src/routes/bookings.ts:22-50 | the listing holds exactly the caller's bookings, each once, newest first |
| Bookings.FindBooking | backend/src/routes/bookings.ts:57-88 | a booking is returned only when the id exists and the caller holds it; otherwise 404 |
| Bookings.Amend | backend/src/routes/bookings.ts:224-296 | the update succeeds exactly when the caller holds the booking and, if a date is sent, its property still exists; a booking that is missing or held by someone else gives 404; the price is recomputed from the merged dates and the stored property's rate only when a date is sent (404 if that property is gone), and kept otherwise; absent fields fall back to the stored ones; id, holder and creation time are kept and `updated_at` is now |
| Bookings.AmendSkipsRangeCheck | backend/src/routes/bookings.ts:243-268 | an update moving the check-in onto the stored check-out is accepted, giving an empty stay priced 0 |
| Bookings.AmendSkipsOverlapCheck | backend/src/routes/bookings.ts:243-268 | an update copying the dates of another booking of the same property is accepted although the two stays overlap |
| Bookings.UpdateBooking | backend/src/routes/bookings.ts:224-296 | the handler's reply is `Amend` of the old tables; on success only that id's row is overwritten |
| Bookings.DeleteBooking | backend/src/routes/bookings.ts:303-326 | a booking the caller holds is removed, and only that id; otherwise 404 and the table is unchanged |
| Properties.ListAvailable | backend/src/routes/properties.ts:13-25 | the public listing holds exactly the available properties, each once, newest first |
| Properties.ListAll | backend/src/routes/properties.ts:32-43 | the admin listing holds every property, each once, newest first |
| Properties.ListOwnedBy | backend/src/routes/properties.ts:50-63 | "/my" holds exactly the properties whose owner is the caller, each once, newest first |
| Properties.GetProperty | backend/src/routes/properties.ts:70-84 | a property is returned exactly when the id exists, whatever its availability; otherwise 404 |
| Properties.Authorize | backend/src/routes/properties.ts:131-145 | a missing id gives 404 "Property not found"; an existing property whose owner is not the caller, for a caller who is not an admin, gives 403 "Unauthorized"; otherwise the stored row |
| Properties.CanModify | backend/src/routes/properties.ts:143 | owner or admin; `Authorize` answers 403 exactly when it fails, and `AdminMayModifyAny` shows admins always pass |
| Properties.AdminMayModifyAny | backend/src/routes/properties.ts:143 | an administrator passes the guard on every existing property |
| Properties.Merge | backend/src/routes/properties.ts:147-150 | each field present in the body is written, each absent one is kept; id, owner and creation time are kept and `updated_at` is now |
| Properties.MergeEmptyPatch | backend/src/routes/properties.ts:147-150 | an empty body changes only `updated_at` |
| Properties.MergeIdempotent | backend/src/routes/properties.ts:147-156 | sending the same body twice leaves the same row as sending it once |
| Properties.CreateProperty | backend/src/routes/properties.ts:91-118 | the new row carries the body's fields, the caller's id as owner and now as both timestamps; it is added under a fresh id and nothing else changes |
| Properties.UpdateProperty | backend/src/routes/properties.ts:125-163 | on 404 or 403 the table is unchanged; otherwise only that id's row is replaced by `Merge` of it |
| Properties.DeleteProperty | backend/src/routes/properties.ts:170-197 | on 404 or 403 the table is unchanged; otherwise exactly that id is removed |
| Strings.ReplaceFirst | backend/src/middleware/auth.ts:11 | when the pattern does not occur the text is unchanged; otherwise its first occurrence is replaced and the text before and after it is kept |
| Auth.ExtractToken | backend/src/middleware/auth.ts:11 | a token exists exactly when the header does |
| Auth.ExtractBearerToken | backend/src/middleware/auth.ts:11 | "Bearer t" yields t |
| Auth.HeaderWithoutPrefixIsToken | backend/src/middleware/auth.ts:11 | a header without "Bearer " is the token as it is |
| Auth.ExtractKeepsSurroundingText | backend/src/middleware/auth.ts:11 | only the first "Bearer " is removed; the text before it and after it, including later "Bearer ", is kept |
| Auth.Authenticate | backend/src/middleware/auth.ts:9-43 | a missing header or empty token gives 401 "No token provided"; a token the identity provider refuses gives 401 "Invalid token"; a verified user without a profile gives 404; otherwise the user is the profile of the token's user |
| Auth.BareBearerRefused | backend/src/middleware/auth.ts:11-15 | the header "Bearer " gives an empty token and 401 "No token provided" |
| Auth.AuthMiddleware | backend/src/middleware/auth.ts:9-43 | with the profile looked up in the database's users table, the context's user is set and next is called exactly when authentication succeeds; otherwise the reply is the refusal and the context is unchanged |
| Auth.AdminMiddleware | backend/src/middleware/auth.ts:45-53 | next is called exactly when there is a user and that user is an admin; otherwise 403 "Admin access required" |
| Cors.AllowOrigin | backend/src/index.ts:17-36 | a missing or empty origin gives null; a listed origin is returned unchanged; the result is always null or the request's own origin, which is listed |
| Cors.PreviewOriginRefused | backend/src/index.ts:30-35 | a preview-deployment origin is refused |
| Strings.IndexOf | src/app/browse/page.tsx:38-40 | the result is present exactly when the pattern occurs, and then is its first index |
| BrowsePage.MatchesSearch | src/app/browse/page.tsx:37-40 | the lower-cased term occurs in the lower-cased name, location or description; characterised by `EmptySearchMatchesAll` and `SearchIgnoresTermCase` |
| BrowsePage.MatchesPrice | src/app/browse/page.tsx:42-43 | an empty limit keeps every property, a set one keeps rates at most the limit; `FilteredProperties` states the bound on its result |
| BrowsePage.FilteredProperties | src/app/browse/page.tsx:36-46 | the result is an order-preserving sub-list of the properties holding exactly those that match the search and the price limit, each matching one as often as in the input; with a limit set, every kept property's rate is within it |
| BrowsePage.EmptySearchMatchesAll | src/app/browse/page.tsx:37-40 | the empty search term matches every property |
| BrowsePage.NoFilterShowsAll | src/app/browse/page.tsx:36-46 | with both boxes empty the list is shown unchanged |
| BrowsePage.SearchIgnoresTermCase | src/app/browse/page.tsx:37-40 | a term and its lower-cased form match the same properties |
| BookingsPage.CalculateNights | src/app/bookings/page.tsx:54-59 | the client's night count is the same day count the server prices with |
| BookingsPage.NightsMatchServerPrice | src/app/bookings/page.tsx:54-59 | `calculateNights` of the same instants, times the nightly rate, equals the price the server computes for them |
| BookingsPage.WholeDayNights | src/app/bookings/page.tsx:54-59 | a stay of k whole days shows k nights; equal dates show 0 |
| BookingsPage.WithoutBooking | src/app/bookings/page.tsx:40 | the list keeps exactly the entries with another id, each as often as before and in the same order |
| BookingsPage.BookingsView.HandleDelete | src/app/bookings/page.tsx:33-44 | a declined confirmation calls nothing and changes nothing; a resolved call drops the entries with that id; a rejected call keeps the list and sets the server's message or "Failed to cancel booking" |
| Client.ErrorText | src/app/properties/page.tsx:53-54 | the server's message when present and non-empty, the fallback otherwise |
| PropertiesPage.WithoutProperty | src/app/properties/page.tsx:51 | the list keeps exactly the entries with another id, each as often as before and in the same order |
| PropertiesPage.PropertiesView.HandleDelete | src/app/properties/page.tsx:44-56 | a declined confirmation calls nothing and changes nothing; a resolved call drops the entries with that id; a rejected call keeps the list and sets the server's message or "Failed to delete property" |

## Left out

- Database failures: the branches that answer 400 or 500 with the database's own error (a failed
  select, insert, update or delete, a thrown exception) are not modelled; the tables never fail. The
  "no row" failure of `.single()` is modelled as a 404 reply; the two lines below say which
  message it carries.
- Bookings.FindBooking: its 404 carries a fixed message; the database's own "no row" text is not modelled.
- Properties.GetProperty: its 404 carries a fixed message; the database's own "no row" text is not modelled.
- The joined `properties(...)` and `users(...)` columns of the booking selects are not modelled;
  replies carry the row itself.
- Identity-provider calls (`auth.getUser`, sign-up, sign-in) are replaced by the token-to-user map;
  `backend/src/routes/auth.ts` is not part of this model, since every branch there is a pass-through.
- Date strings and their parsing (`new Date(...)`, including invalid dates that compare as NaN)
  are replaced by integer milliseconds; timestamps are integers too.
- Floating point: prices are integers in minor units, `parseFloat(maxPrice)` is an optional integer
  (the input is a number field, so it is empty or numeric), and `Math.ceil` is integer ceiling division.
- `toLowerCase` is modelled on ASCII letters only; Unicode case mapping is not modelled.
- The race between reading existing bookings and inserting the new one: concurrency across
  requests is not modelled.
- Extra JSON keys in PUT bodies beyond the declared request types are not modelled.
- Deleting a property does not touch the bookings table in the model; what the database does to
  bookings that reference the deleted property is not part of this model.
- The order of the existing-bookings query is not specified by the source; the model lists them
  by id, which the overlap answer does not depend on (`Bookings.HasOverlapIffConflicts`).
- Listings are ordered newest first; the order among rows created at the same instant is not modelled.
- The CORS options other than `origin` (methods, headers, credentials), logging, the local dev
  server, JSX rendering, navigation, the form schemas, the axios client and the React contexts
  are not modelled.
- The pages' initial fetches and loading flags are not modelled; the handlers start from the list
  they hold.
